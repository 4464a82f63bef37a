/** Statement text: how dal_postgresql.go prints it, and how a database reads it. */
module SqlText {
  import opened Wrappers
  import opened Decimals

  // ---------------------------------------------------------------- reading: tokens

  datatype Token = Word(text: string) | Symbol(c: char)

  predicate WordChar(c: char) {
    'a' <= c <= 'z' || 'A' <= c <= 'Z' || '0' <= c <= '9' || c == '_' || c == '.'
  }

  predicate IsWord(w: string) {
    w != "" && forall i | 0 <= i < |w| :: WordChar(w[i])
  }

  /** The length of the word that a text begins with. */
  function WordLength(s: string): (n: nat)
    ensures n <= |s|
    ensures forall i | 0 <= i < n :: WordChar(s[i])
    ensures n < |s| ==> !WordChar(s[n])
  {
    if s == "" || !WordChar(s[0]) then 0
    else
      var n := WordLength(s[1..]);
      assert forall i | 0 < i < n + 1 :: s[i] == s[1..][i - 1];
      n + 1
  }

  /** Words and symbols; blanks and line ends only separate. */
  function Lex(s: string): seq<Token>
    decreases |s|
  {
    if s == "" then []
    else if s[0] == ' ' || s[0] == '\n' then Lex(s[1..])
    else if WordChar(s[0]) then [Word(s[..WordLength(s)])] + Lex(s[WordLength(s)..])
    else [Symbol(s[0])] + Lex(s[1..])
  }

  predicate EndsWord(rest: string) {
    rest == "" || !WordChar(rest[0])
  }

  lemma {:induction false} WordLengthOf(w: string, rest: string)
    requires (forall i | 0 <= i < |w| :: WordChar(w[i])) && EndsWord(rest)
    ensures WordLength(w + rest) == |w|
  {
    if w == "" {
      assert w + rest == rest;
    } else {
      assert (w + rest)[1..] == w[1..] + rest;
      WordLengthOf(w[1..], rest);
    }
  }

  lemma LexWord(w: string, rest: string)
    requires IsWord(w) && EndsWord(rest)
    ensures Lex(w + rest) == [Word(w)] + Lex(rest)
  {
    WordLengthOf(w, rest);
    assert (w + rest)[0] == w[0] && WordChar(w[0]);
    assert (w + rest)[..|w|] == w && (w + rest)[|w|..] == rest;
  }

  lemma LexSymbol(c: char, rest: string)
    requires !WordChar(c) && c != ' ' && c != '\n'
    ensures Lex([c] + rest) == [Symbol(c)] + Lex(rest)
  {
    assert ([c] + rest)[1..] == rest;
  }

  lemma LexBlank(c: char, rest: string)
    requires c == ' ' || c == '\n'
    ensures Lex([c] + rest) == Lex(rest)
  {
    assert ([c] + rest)[1..] == rest;
  }

  lemma {:induction false} LexBlanks(blanks: string, rest: string)
    requires forall i | 0 <= i < |blanks| :: blanks[i] == ' ' || blanks[i] == '\n'
    ensures Lex(blanks + rest) == Lex(rest)
  {
    if blanks == "" {
      assert blanks + rest == rest;
    } else {
      assert blanks + rest == [blanks[0]] + (blanks[1..] + rest);
      LexBlank(blanks[0], blanks[1..] + rest);
      LexBlanks(blanks[1..], rest);
    }
  }

  // ---------------------------------------------------------------- texts that read as tokens

  /** A text that reads as the given tokens in front of anything. */
  ghost predicate Marks(text: string, tokens: seq<Token>) {
    forall rest: string :: Lex(text + rest) == tokens + Lex(rest)
  }

  /** A text that reads as the given tokens in front of anything that does not prolong its last word. */
  ghost predicate Reads(text: string, tokens: seq<Token>) {
    forall rest: string | EndsWord(rest) :: Lex(text + rest) == tokens + Lex(rest)
  }

  /** A text that does not prolong a word in front of it. */
  predicate Breaks(text: string) {
    text != "" && !WordChar(text[0])
  }

  /** A text that may be added behind a word. */
  ghost predicate Follows(text: string, tokens: seq<Token>) {
    Reads(text, tokens) && if text == "" then tokens == [] else Breaks(text)
  }

  lemma MarkThenMark(a: string, s: seq<Token>, b: string, t: seq<Token>)
    requires Marks(a, s) && Marks(b, t)
    ensures Marks(a + b, s + t) && (Breaks(a) ==> Breaks(a + b))
  {
    hide Lex;
    forall rest: string
      ensures Lex((a + b) + rest) == (s + t) + Lex(rest)
    {
      assert (a + b) + rest == a + (b + rest);
      assert Lex(a + (b + rest)) == s + Lex(b + rest);
    }
  }

  lemma MarkThenRead(a: string, s: seq<Token>, b: string, t: seq<Token>)
    requires Marks(a, s) && Reads(b, t)
    ensures Reads(a + b, s + t) && (Breaks(a) ==> Breaks(a + b))
  {
    hide Lex;
    forall rest: string | EndsWord(rest)
      ensures Lex((a + b) + rest) == (s + t) + Lex(rest)
    {
      assert (a + b) + rest == a + (b + rest);
      assert Lex(a + (b + rest)) == s + Lex(b + rest);
    }
  }

  lemma ReadThenMark(a: string, s: seq<Token>, b: string, t: seq<Token>)
    requires Reads(a, s) && Marks(b, t) && Breaks(b)
    ensures Marks(a + b, s + t) && (Breaks(a) ==> Breaks(a + b))
  {
    hide Lex;
    forall rest: string
      ensures Lex((a + b) + rest) == (s + t) + Lex(rest)
    {
      assert (a + b) + rest == a + (b + rest);
      assert (b + rest)[0] == b[0];
      assert Lex(a + (b + rest)) == s + Lex(b + rest);
    }
  }

  lemma ReadThenFollow(a: string, s: seq<Token>, b: string, t: seq<Token>)
    requires Reads(a, s) && Follows(b, t)
    ensures Reads(a + b, s + t) && (Breaks(a) ==> Breaks(a + b))
  {
    hide Lex;
    if b == "" {
      assert a + b == a && s + t == s;
    } else {
      forall rest: string | EndsWord(rest)
        ensures Lex((a + b) + rest) == (s + t) + Lex(rest)
      {
        assert (a + b) + rest == a + (b + rest);
        assert (b + rest)[0] == b[0];
        assert Lex(a + (b + rest)) == s + Lex(b + rest);
      }
    }
  }

  lemma WholeText(text: string, tokens: seq<Token>)
    requires Reads(text, tokens)
    ensures Lex(text) == tokens
  {
    assert text + "" == text;
    assert Lex("") == [] && tokens + [] == tokens;
  }

  // ---------------------------------------------------------------- words and signs

  predicate Blank(s: string) {
    forall i | 0 <= i < |s| :: s[i] == ' ' || s[i] == '\n'
  }

  lemma WordReads(w: string)
    requires IsWord(w)
    ensures Reads(w, [Word(w)])
  {
    forall rest: string | EndsWord(rest)
      ensures Lex(w + rest) == [Word(w)] + Lex(rest)
    {
      LexWord(w, rest);
    }
  }

  lemma BlanksMark(blanks: string)
    requires Blank(blanks)
    ensures Marks(blanks, [])
  {
    forall rest: string
      ensures Lex(blanks + rest) == [] + Lex(rest)
    {
      LexBlanks(blanks, rest);
    }
  }

  lemma SignMarks(c: char)
    requires !WordChar(c) && c != ' ' && c != '\n'
    ensures Marks([c], [Symbol(c)]) && Breaks([c])
  {
    forall rest: string
      ensures Lex([c] + rest) == [Symbol(c)] + Lex(rest)
    {
      LexSymbol(c, rest);
    }
  }

  /** A word between blanks. */
  lemma KeywordMarks(before: string, word: string, after: string)
    requires Blank(before) && IsWord(word) && Blank(after) && after != ""
    ensures Marks(before + word + after, [Word(word)]) && (before != "" ==> Breaks(before + word + after))
  {
    hide Marks;
    hide Reads;
    BlanksMark(before);
    WordReads(word);
    BlanksMark(after);
    MarkThenRead(before, [], word, [Word(word)]);
    ReadThenMark(before + word, [] + [Word(word)], after, []);
    assert ([] + [Word(word)]) + [] == [Word(word)];
  }

  // ---------------------------------------------------------------- numbers

  lemma {:induction false} DecimalIsWord(n: nat)
    ensures IsWord(Decimal(n))
  {
    if n >= 10 {
      DecimalIsWord(n / 10);
    }
  }

  // ---------------------------------------------------------------- lists

  /** strings.Join. */
  function Join(parts: seq<string>, sep: string): string {
    if parts == [] then ""
    else if |parts| == 1 then parts[0]
    else parts[0] + sep + Join(parts[1..], sep)
  }

  /** The tokens of a separated list. */
  function Separated(items: seq<seq<Token>>, sep: Token): seq<Token> {
    if items == [] then []
    else if |items| == 1 then items[0]
    else items[0] + [sep] + Separated(items[1..], sep)
  }

  /** A joined list reads as the separated list of what its items read as. */
  lemma {:induction false} JoinReads(texts: seq<string>, items: seq<seq<Token>>, sep: string, token: Token)
    requires |texts| == |items| && (forall i | 0 <= i < |texts| :: Reads(texts[i], items[i]))
    requires Marks(sep, [token]) && Breaks(sep)
    ensures Reads(Join(texts, sep), Separated(items, token))
  {
    hide Marks;
    hide Reads;
    if texts == [] {
      BlanksMark("");
      MarksRead("", []);
    } else if |texts| > 1 {
      ReadThenMark(texts[0], items[0], sep, [token]);
      JoinReads(texts[1..], items[1..], sep, token);
      MarkThenRead(texts[0] + sep, items[0] + [token], Join(texts[1..], sep), Separated(items[1..], token));
    }
  }

  lemma MarksRead(text: string, tokens: seq<Token>)
    requires Marks(text, tokens)
    ensures Reads(text, tokens)
  {
  }

  // ---------------------------------------------------------------- clauses

  /** A column compared with, or set to, the n-th argument. */
  datatype Clause = Clause(column: string, placeholder: nat)

  function Print(c: Clause): string {
    c.column + "=$" + Decimal(c.placeholder)
  }

  function PrintAll(cs: seq<Clause>): seq<string> {
    seq(|cs|, i requires 0 <= i < |cs| => Print(cs[i]))
  }

  function ClauseTokens(c: Clause): seq<Token> {
    [Word(c.column), Symbol('='), Symbol('$'), Word(Decimal(c.placeholder))]
  }

  function AllTokens(cs: seq<Clause>): seq<seq<Token>> {
    seq(|cs|, i requires 0 <= i < |cs| => ClauseTokens(cs[i]))
  }

  predicate Columns(cs: seq<Clause>) {
    forall i | 0 <= i < |cs| :: IsWord(cs[i].column)
  }

  lemma ClauseReads(c: Clause)
    requires IsWord(c.column)
    ensures Reads(Print(c), ClauseTokens(c))
  {
    hide Marks;
    hide Reads;
    hide Decimal;
    var column, d := c.column, Decimal(c.placeholder);
    DecimalIsWord(c.placeholder);
    WordReads(column);
    WordReads(d);
    SignMarks('=');
    SignMarks('$');
    MarkThenMark("=", [Symbol('=')], "$", [Symbol('$')]);
    assert "=" + "$" == "=$";
    ReadThenMark(column, [Word(column)], "=$", [Symbol('=')] + [Symbol('$')]);
    MarkThenRead(column + "=$", [Word(column)] + ([Symbol('=')] + [Symbol('$')]), d, [Word(d)]);
    assert ([Word(column)] + ([Symbol('=')] + [Symbol('$')])) + [Word(d)] == ClauseTokens(c);
  }

  lemma ClausesRead(cs: seq<Clause>, sep: string, token: Token)
    requires Columns(cs) && Marks(sep, [token]) && Breaks(sep)
    ensures Reads(Join(PrintAll(cs), sep), Separated(AllTokens(cs), token))
  {
    hide Marks;
    hide Reads;
    forall i | 0 <= i < |cs|
      ensures Reads(PrintAll(cs)[i], AllTokens(cs)[i])
    {
      ClauseReads(cs[i]);
    }
    JoinReads(PrintAll(cs), AllTokens(cs), sep, token);
  }

  // ---------------------------------------------------------------- reading: clauses

  datatype Parsed = Parsed(clauses: seq<Clause>, rest: seq<Token>)

  /** One or more clauses separated by a token. */
  function ParseList(tokens: seq<Token>, sep: Token): Option<Parsed> {
    if |tokens| < 4 || !tokens[0].Word? || tokens[1] != Symbol('=') || tokens[2] != Symbol('$') || !tokens[3].Word? then None
    else
      var n := Number(tokens[3].text);
      if n.None? then None
      else
        var first := Clause(tokens[0].text, n.value);
        if |tokens| > 4 && tokens[4] == sep then
          var others := ParseList(tokens[5..], sep);
          if others.None? then None else Some(Parsed([first] + others.value.clauses, others.value.rest))
        else Some(Parsed([first], tokens[4..]))
  }

  /** The first clause of a list. */
  lemma ListBegins(c: Clause, sep: Token, others: seq<Token>)
    ensures var tokens := ClauseTokens(c) + others;
            ParseList(tokens, sep) ==
            if others != [] && others[0] == sep then
              (match ParseList(others[1..], sep)
               case Some(Parsed(cs, rest)) => Some(Parsed([c] + cs, rest))
               case None => None)
            else Some(Parsed([c], others))
  {
    hide Number;
    hide Decimal;
    NumberOfDecimal(c.placeholder);
    var tokens := ClauseTokens(c) + others;
    assert tokens[4..] == others;
    if others != [] {
      assert tokens[4] == others[0] && tokens[5..] == others[1..];
    }
  }

  lemma {:induction false} ParsePrinted(cs: seq<Clause>, sep: Token, rest: seq<Token>)
    requires cs != [] && (rest == [] || rest[0] != sep)
    ensures ParseList(Separated(AllTokens(cs), sep) + rest, sep) == Some(Parsed(cs, rest))
  {
    hide ParseList;
    hide ClauseTokens;
    if |cs| == 1 {
      ListBegins(cs[0], sep, rest);
      assert cs == [cs[0]];
    } else {
      assert AllTokens(cs)[1..] == AllTokens(cs[1..]);
      var tail := Separated(AllTokens(cs[1..]), sep) + rest;
      ListBegins(cs[0], sep, [sep] + tail);
      assert Separated(AllTokens(cs), sep) + rest == ClauseTokens(cs[0]) + ([sep] + tail);
      assert ([sep] + tail)[1..] == tail;
      ParsePrinted(cs[1..], sep, rest);
      assert [cs[0]] + cs[1..] == cs;
    }
  }
}
