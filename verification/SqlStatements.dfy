/** The statements that the data handler writes: their text, and how a database reads it. */
module SqlStatements {
  import opened Wrappers
  import opened Decimals
  import opened SqlText
  import opened SqlNames

  datatype Statement =
    | Update(table: string, sets: seq<Clause>, finds: seq<Clause>)
    | Delete(table: string, finds: seq<Clause>)
    | Insert(table: string, columns: seq<string>, placeholders: seq<nat>)
    | Select(table: string, columns: seq<string>, finds: seq<Clause>, keys: seq<string>, descending: bool, limit: Option<nat>)

  // ---------------------------------------------------------------- text

  function Placeholder(n: nat): string {
    "$" + Decimal(n)
  }

  function PrintPlaceholders(ns: seq<nat>): seq<string> {
    seq(|ns|, i requires 0 <= i < |ns| => Placeholder(ns[i]))
  }

  function Direction(descending: bool): string {
    if descending then "desc" else "asc"
  }

  function WhereText(finds: seq<Clause>): string {
    if finds == [] then "" else " where " + Join(PrintAll(finds), " and ")
  }

  /** The sort columns, one after the other: the code puts nothing between two of them. */
  function OrderText(keys: seq<string>, descending: bool): string {
    if keys == [] then "" else " " + keys[0] + " " + Direction(descending) + OrderText(keys[1..], descending)
  }

  function LimitText(limit: Option<nat>): string {
    if limit.None? then "" else " limit " + Decimal(limit.value)
  }

  function Text(stmt: Statement): string {
    match stmt
    case Select(table, columns, finds, keys, descending, limit) =>
      "select " + Join(columns, ",") + " from " + table + WhereText(finds)
        + " order by" + OrderText(keys, descending) + LimitText(limit)
    case Update(table, sets, finds) =>
      "update " + table + " set\n    " + Join(PrintAll(sets), ",\n    ") + "\nwhere\n    " + Join(PrintAll(finds), "\nand ")
    case Delete(table, finds) =>
      "delete from " + table + "\nwhere\n    " + Join(PrintAll(finds), "\nand ")
    case Insert(table, columns, placeholders) =>
      "insert into " + table + " (" + Join(columns, ",") + ") values (" + Join(PrintPlaceholders(placeholders), ",") + ")"
  }

  // ---------------------------------------------------------------- reading

  datatype Words = Words(words: seq<string>, rest: seq<Token>)

  function ParseWords(tokens: seq<Token>): Option<Words> {
    if tokens == [] || !tokens[0].Word? then None
    else if |tokens| > 1 && tokens[1] == Symbol(',') then
      var others := ParseWords(tokens[2..]);
      if others.None? then None else Some(Words([tokens[0].text] + others.value.words, others.value.rest))
    else Some(Words([tokens[0].text], tokens[1..]))
  }

  datatype Places = Places(numbers: seq<nat>, rest: seq<Token>)

  function ParsePlaces(tokens: seq<Token>): Option<Places> {
    if |tokens| < 2 || tokens[0] != Symbol('$') || !tokens[1].Word? || Number(tokens[1].text).None? then None
    else
      var n := Number(tokens[1].text).value;
      if |tokens| > 2 && tokens[2] == Symbol(',') then
        var others := ParsePlaces(tokens[3..]);
        if others.None? then None else Some(Places([n] + others.value.numbers, others.value.rest))
      else Some(Places([n], tokens[2..]))
  }

  function ReadFinds(tokens: seq<Token>): Option<seq<Clause>> {
    if tokens == [] || tokens[0] != Word("where") then None
    else
      match ParseList(tokens[1..], Word("and"))
      case Some(Parsed(clauses, rest)) => if rest == [] then Some(clauses) else None
      case None => None
  }

  function ReadUpdate(table: string, tokens: seq<Token>): Option<Statement> {
    match ParseList(tokens, Symbol(','))
    case None => None
    case Some(Parsed(sets, rest)) =>
      (match ReadFinds(rest)
       case Some(finds) => Some(Update(table, sets, finds))
       case None => None)
  }

  function ReadInsert(table: string, tokens: seq<Token>): Option<Statement> {
    match ParseWords(tokens)
    case None => None
    case Some(Words(columns, rest)) =>
      if |rest| < 3 || rest[..3] != [Symbol(')'), Word("values"), Symbol('(')] then None
      else
        match ParsePlaces(rest[3..])
        case None => None
        case Some(Places(numbers, end)) => if end == [Symbol(')')] then Some(Insert(table, columns, numbers)) else None
  }

  /** One sort column, its direction, and possibly a row limit. */
  function ReadOrder(table: string, columns: seq<string>, finds: seq<Clause>, tokens: seq<Token>): Option<Statement> {
    if |tokens| < 2 || !tokens[0].Word? || (tokens[1] != Word("asc") && tokens[1] != Word("desc")) then None
    else
      var keys, descending := [tokens[0].text], tokens[1] == Word("desc");
      if |tokens| == 2 then Some(Select(table, columns, finds, keys, descending, None))
      else if |tokens| == 4 && tokens[2] == Word("limit") && tokens[3].Word? && Number(tokens[3].text).Some? then
        Some(Select(table, columns, finds, keys, descending, Number(tokens[3].text)))
      else None
  }

  function ReadOrdering(table: string, columns: seq<string>, finds: seq<Clause>, tokens: seq<Token>): Option<Statement> {
    if |tokens| >= 2 && tokens[..2] == [Word("order"), Word("by")] then ReadOrder(table, columns, finds, tokens[2..]) else None
  }

  function ReadFiltered(table: string, columns: seq<string>, tokens: seq<Token>): Option<Statement> {
    if tokens != [] && tokens[0] == Word("where") then
      match ParseList(tokens[1..], Word("and"))
      case Some(Parsed(finds, rest)) => ReadOrdering(table, columns, finds, rest)
      case None => None
    else ReadOrdering(table, columns, [], tokens)
  }

  function ReadSelect(tokens: seq<Token>): Option<Statement> {
    match ParseWords(tokens)
    case None => None
    case Some(Words(columns, rest)) =>
      if |rest| >= 2 && rest[0] == Word("from") && rest[1].Word? then ReadFiltered(rest[1].text, columns, rest[2..]) else None
  }

  function ReadTokens(tokens: seq<Token>): Option<Statement> {
    if tokens != [] && tokens[0] == Word("select") then ReadSelect(tokens[1..])
    else if |tokens| >= 3 && tokens[0] == Word("update") && tokens[1].Word? && tokens[2] == Word("set") then
      ReadUpdate(tokens[1].text, tokens[3..])
    else if |tokens| >= 3 && tokens[..2] == [Word("delete"), Word("from")] && tokens[2].Word? then
      (match ReadFinds(tokens[3..])
       case Some(finds) => Some(Delete(tokens[2].text, finds))
       case None => None)
    else if |tokens| >= 4 && tokens[..2] == [Word("insert"), Word("into")] && tokens[2].Word? && tokens[3] == Symbol('(') then
      ReadInsert(tokens[2].text, tokens[4..])
    else None
  }

  /** The table and the columns of a statement are names that may stand there unquoted. */
  predicate NamesFit(stmt: Statement) {
    && TableName(stmt.table)
    && match stmt
       case Update(_, sets, finds) => ClausesFit(sets) && ClausesFit(finds)
       case Delete(_, finds) => ClausesFit(finds)
       case Insert(_, columns, _) => ColumnsFit(columns)
       case Select(_, columns, finds, keys, _, _) => ColumnsFit(columns) && ClausesFit(finds) && ColumnsFit(keys)
  }

  predicate ColumnsFit(columns: seq<string>) {
    forall i | 0 <= i < |columns| :: ColumnName(columns[i])
  }

  predicate ClausesFit(cs: seq<Clause>) {
    forall i | 0 <= i < |cs| :: ColumnName(cs[i].column)
  }

  /** The statement on named tables and columns that a text is, if it is one. */
  function Read(text: string): Option<Statement> {
    match ReadTokens(Lex(text))
    case Some(stmt) => if NamesFit(stmt) then Some(stmt) else None
    case None => None
  }

  // ---------------------------------------------------------------- what may be written

  predicate Names(columns: seq<string>) {
    forall i | 0 <= i < |columns| :: IsWord(columns[i])
  }

  /** What the builders may be given: names that are words, and something to set, insert or select. */
  predicate Printable(stmt: Statement) {
    && IsWord(stmt.table)
    && match stmt
       case Update(_, sets, finds) => sets != [] && Columns(sets) && Columns(finds)
       case Delete(_, finds) => Columns(finds)
       case Insert(_, columns, placeholders) => columns != [] && placeholders != [] && Names(columns)
       case Select(_, columns, finds, keys, _, _) =>
         Names(columns) && Columns(finds) && Names(keys) && forall i | 0 <= i < |keys| :: keys[i] in columns
  }

  /** The printable statements that are complete: an update or delete has something to search for, and a search
      has exactly one sort column. */
  predicate Complete(stmt: Statement) {
    match stmt
    case Update(_, _, finds) => finds != []
    case Delete(_, finds) => finds != []
    case Insert(_, _, _) => true
    case Select(_, _, _, keys, _, _) => |keys| == 1
  }

  function IfComplete(stmt: Statement): Option<Statement> {
    if Complete(stmt) then Some(stmt) else None
  }

  function AsRead(stmt: Statement): Option<Statement> {
    if Complete(stmt) && NamesFit(stmt) then Some(stmt) else None
  }

  // ---------------------------------------------------------------- the fixed parts of the texts

  lemma WordsBetweenBlanks()
    ensures Marks("update ", [Word("update")]) && Marks("select ", [Word("select")])
    ensures Marks(" set\n    ", [Word("set")]) && Breaks(" set\n    ")
    ensures Marks(" from ", [Word("from")]) && Breaks(" from ")
    ensures Marks(" limit ", [Word("limit")]) && Breaks(" limit ")
    ensures Marks(" where ", [Word("where")]) && Breaks(" where ")
    ensures Marks(" and ", [Word("and")]) && Breaks(" and ")
    ensures Marks("\nwhere\n    ", [Word("where")]) && Breaks("\nwhere\n    ")
    ensures Marks("\nand ", [Word("and")]) && Breaks("\nand ")
  {
    hide Marks;
    KeywordMarks("", "update", " ");
    KeywordMarks("", "select", " ");
    KeywordMarks(" ", "set", "\n    ");
    KeywordMarks(" ", "from", " ");
    KeywordMarks(" ", "limit", " ");
    KeywordMarks(" ", "where", " ");
    KeywordMarks(" ", "and", " ");
    KeywordMarks("\n", "where", "\n    ");
    KeywordMarks("\n", "and", " ");
    assert "" + "update" + " " == "update " && "" + "select" + " " == "select ";
    assert " " + "set" + "\n    " == " set\n    " && " " + "from" + " " == " from " && " " + "limit" + " " == " limit ";
    assert " " + "where" + " " == " where " && " " + "and" + " " == " and ";
    assert "\n" + "where" + "\n    " == "\nwhere\n    " && "\n" + "and" + " " == "\nand ";
  }

  lemma TwoWordsBetweenBlanks()
    ensures Marks("delete from ", [Word("delete")] + [Word("from")])
    ensures Marks("insert into ", [Word("insert")] + [Word("into")])
    ensures Follows(" order by", [Word("order")] + [Word("by")])
  {
    hide Marks;
    hide Reads;
    KeywordMarks("", "delete", " ");
    KeywordMarks("", "from", " ");
    KeywordMarks("", "insert", " ");
    KeywordMarks("", "into", " ");
    KeywordMarks(" ", "order", " ");
    WordReads("by");
    assert "" + "delete" + " " == "delete " && "" + "from" + " " == "from " && "delete " + "from " == "delete from ";
    assert "" + "insert" + " " == "insert " && "" + "into" + " " == "into " && "insert " + "into " == "insert into ";
    assert " " + "order" + " " == " order " && " order " + "by" == " order by";
    MarkThenMark("delete ", [Word("delete")], "from ", [Word("from")]);
    MarkThenMark("insert ", [Word("insert")], "into ", [Word("into")]);
    MarkThenRead(" order ", [Word("order")], "by", [Word("by")]);
  }

  lemma SignsBetweenBlanks()
    ensures Marks(",", [Symbol(',')]) && Breaks(",") && Marks(",\n    ", [Symbol(',')]) && Breaks(",\n    ")
    ensures Marks(" (", [Symbol('(')]) && Breaks(" (") && Marks(")", [Symbol(')')]) && Breaks(")")
    ensures Marks(") values (", [Symbol(')')] + [Word("values")] + [Symbol('(')]) && Breaks(") values (")
    ensures Marks("$", [Symbol('$')])
  {
    hide Marks;
    SignMarks(',');
    SignMarks('$');
    SignMarks('(');
    SignMarks(')');
    BlanksMark(" ");
    BlanksMark("\n    ");
    KeywordMarks(" ", "values", " ");
    MarkThenMark(",", [Symbol(',')], "\n    ", []);
    assert "," + "\n    " == ",\n    " && [Symbol(',')] + [] == [Symbol(',')];
    MarkThenMark(" ", [], "(", [Symbol('(')]);
    assert " " + "(" == " (" && [] + [Symbol('(')] == [Symbol('(')];
    assert " " + "values" + " " == " values ";
    MarkThenMark(")", [Symbol(')')], " values ", [Word("values")]);
    MarkThenMark(")" + " values ", [Symbol(')')] + [Word("values")], "(", [Symbol('(')]);
    assert ")" + " values " + "(" == ") values (";
  }

  // ---------------------------------------------------------------- what is written is what is read

  /** The criteria of an update or delete. */
  lemma FindsRead(finds: seq<Clause>)
    ensures ReadFinds([Word("where")] + Separated(AllTokens(finds), Word("and"))) == if finds == [] then None else Some(finds)
  {
    var tokens := Separated(AllTokens(finds), Word("and"));
    if finds != [] {
      ParsePrinted(finds, Word("and"), []);
    }
    assert tokens + [] == tokens && ([Word("where")] + tokens)[1..] == tokens;
  }

  lemma DeleteRead(table: string, finds: seq<Clause>)
    requires Printable(Delete(table, finds))
    ensures Read(Text(Delete(table, finds))) == AsRead(Delete(table, finds))
  {
    hide NamesFit;
    hide Marks;
    hide Reads;
    hide Join;
    hide Separated;
    hide Lex;
    WordsBetweenBlanks();
    TwoWordsBetweenBlanks();
    WordReads(table);
    ClausesRead(finds, "\nand ", Word("and"));
    DeleteTextReads("delete from ", table, "\nwhere\n    ", finds, Join(PrintAll(finds), "\nand "));
    FindsRead(finds);
    var rest := [Word("where")] + Separated(AllTokens(finds), Word("and"));
    var tokens := [Word("delete"), Word("from"), Word(table)] + rest;
    assert tokens[..2] == [Word("delete"), Word("from")] && tokens[3..] == rest;
  }

  lemma DeleteTextReads(verb: string, table: string, filter: string, finds: seq<Clause>, list: string)
    requires Marks(verb, [Word("delete")] + [Word("from")]) && Reads(table, [Word(table)])
    requires Marks(filter, [Word("where")]) && Breaks(filter) && Reads(list, Separated(AllTokens(finds), Word("and")))
    ensures Lex(verb + table + filter + list)
         == [Word("delete"), Word("from"), Word(table)] + ([Word("where")] + Separated(AllTokens(finds), Word("and")))
  {
    hide Marks;
    hide Reads;
    hide Separated;
    var s := [Word("delete")] + [Word("from")];
    var t := s + [Word(table)];
    MarkThenRead(verb, s, table, [Word(table)]);
    ReadThenMark(verb + table, t, filter, [Word("where")]);
    MarkThenRead(verb + table + filter, t + [Word("where")], list, Separated(AllTokens(finds), Word("and")));
    WholeText(verb + table + filter + list, t + [Word("where")] + Separated(AllTokens(finds), Word("and")));
  }

  lemma UpdateRead(table: string, sets: seq<Clause>, finds: seq<Clause>)
    requires Printable(Update(table, sets, finds))
    ensures Read(Text(Update(table, sets, finds))) == AsRead(Update(table, sets, finds))
  {
    hide NamesFit;
    hide Marks;
    hide Reads;
    hide Join;
    hide Separated;
    hide Lex;
    WordsBetweenBlanks();
    SignsBetweenBlanks();
    WordReads(table);
    ClausesRead(sets, ",\n    ", Symbol(','));
    ClausesRead(finds, "\nand ", Word("and"));
    var rest := [Word("where")] + Separated(AllTokens(finds), Word("and"));
    var body := Separated(AllTokens(sets), Symbol(',')) + rest;
    UpdateTextReads("update ", table, " set\n    ", Join(PrintAll(sets), ",\n    "), "\nwhere\n    ", Join(PrintAll(finds), "\nand "),
      Separated(AllTokens(sets), Symbol(',')), Separated(AllTokens(finds), Word("and")));
    assert ([Word("update"), Word(table), Word("set")] + body)[3..] == body;
    ParsePrinted(sets, Symbol(','), rest);
    FindsRead(finds);
  }

  lemma UpdateTextReads(verb: string, table: string, set_: string, sets: string, filter: string, finds: string,
                        s: seq<Token>, f: seq<Token>)
    requires Marks(verb, [Word("update")]) && Reads(table, [Word(table)]) && Marks(set_, [Word("set")]) && Breaks(set_)
    requires Reads(sets, s) && Marks(filter, [Word("where")]) && Breaks(filter) && Reads(finds, f)
    ensures Lex(verb + table + set_ + sets + filter + finds)
         == [Word("update"), Word(table), Word("set")] + (s + ([Word("where")] + f))
  {
    hide Marks;
    hide Reads;
    var t := [Word("update")] + [Word(table)];
    MarkThenRead(verb, [Word("update")], table, [Word(table)]);
    ReadThenMark(verb + table, t, set_, [Word("set")]);
    MarkThenRead(verb + table + set_, t + [Word("set")], sets, s);
    ReadThenMark(verb + table + set_ + sets, t + [Word("set")] + s, filter, [Word("where")]);
    MarkThenRead(verb + table + set_ + sets + filter, t + [Word("set")] + s + [Word("where")], finds, f);
    WholeText(verb + table + set_ + sets + filter + finds, t + [Word("set")] + s + [Word("where")] + f);
  }

  // ---------------------------------------------------------------- insertions

  function WordItems(words: seq<string>): seq<seq<Token>> {
    seq(|words|, i requires 0 <= i < |words| => [Word(words[i])])
  }

  function PlaceItems(ns: seq<nat>): seq<seq<Token>> {
    seq(|ns|, i requires 0 <= i < |ns| => [Symbol('$'), Word(Decimal(ns[i]))])
  }

  lemma {:induction false} WordsRead(words: seq<string>, rest: seq<Token>)
    requires words != [] && (rest == [] || rest[0] != Symbol(','))
    ensures ParseWords(Separated(WordItems(words), Symbol(',')) + rest) == Some(Words(words, rest))
  {
    var tokens := Separated(WordItems(words), Symbol(',')) + rest;
    if |words| == 1 {
      assert tokens == [Word(words[0])] + rest && tokens[1..] == rest && words == [words[0]];
    } else {
      assert WordItems(words)[1..] == WordItems(words[1..]);
      var tail := Separated(WordItems(words[1..]), Symbol(',')) + rest;
      assert tokens == [Word(words[0]), Symbol(',')] + tail;
      assert tokens[2..] == tail;
      WordsRead(words[1..], rest);
      assert words == [words[0]] + words[1..];
    }
  }

  /** The first item of a list of placeholders. */
  lemma PlacesBegin(n: nat, others: seq<Token>)
    ensures var tokens := [Symbol('$'), Word(Decimal(n))] + others;
            && tokens[0] == Symbol('$') && tokens[1] == Word(Decimal(n)) && Number(tokens[1].text) == Some(n)
            && tokens[2..] == others && (|others| > 0 ==> tokens[2] == others[0] && tokens[3..] == others[1..])
  {
    NumberOfDecimal(n);
  }

  lemma {:induction false} PlacesRead(ns: seq<nat>, rest: seq<Token>)
    requires ns != [] && (rest == [] || rest[0] != Symbol(','))
    ensures ParsePlaces(Separated(PlaceItems(ns), Symbol(',')) + rest) == Some(Places(ns, rest))
  {
    hide Decimal;
    hide Number;
    if |ns| == 1 {
      PlacesBegin(ns[0], rest);
      assert ns == [ns[0]];
    } else {
      assert PlaceItems(ns)[1..] == PlaceItems(ns[1..]);
      var tail := Separated(PlaceItems(ns[1..]), Symbol(',')) + rest;
      PlacesBegin(ns[0], [Symbol(',')] + tail);
      assert Separated(PlaceItems(ns), Symbol(',')) + rest == [Symbol('$'), Word(Decimal(ns[0]))] + ([Symbol(',')] + tail);
      assert ([Symbol(',')] + tail)[1..] == tail;
      PlacesRead(ns[1..], rest);
      assert ns == [ns[0]] + ns[1..];
    }
  }

  lemma ColumnsRead(columns: seq<string>)
    requires Names(columns)
    ensures Reads(Join(columns, ","), Separated(WordItems(columns), Symbol(',')))
  {
    hide Marks;
    hide Reads;
    forall i | 0 <= i < |columns|
      ensures Reads(columns[i], WordItems(columns)[i])
    {
      WordReads(columns[i]);
    }
    SignsBetweenBlanks();
    JoinReads(columns, WordItems(columns), ",", Symbol(','));
  }

  lemma PlaceholdersRead(ns: seq<nat>)
    ensures Reads(Join(PrintPlaceholders(ns), ","), Separated(PlaceItems(ns), Symbol(',')))
  {
    hide Marks;
    hide Reads;
    hide Decimal;
    SignsBetweenBlanks();
    forall i | 0 <= i < |ns|
      ensures Reads(PrintPlaceholders(ns)[i], PlaceItems(ns)[i])
    {
      var d := Decimal(ns[i]);
      DecimalIsWord(ns[i]);
      WordReads(d);
      MarkThenRead("$", [Symbol('$')], d, [Word(d)]);
      assert [Symbol('$')] + [Word(d)] == PlaceItems(ns)[i];
    }
    JoinReads(PrintPlaceholders(ns), PlaceItems(ns), ",", Symbol(','));
  }

  lemma InsertRead(table: string, columns: seq<string>, ns: seq<nat>)
    requires Printable(Insert(table, columns, ns))
    ensures Read(Text(Insert(table, columns, ns))) == AsRead(Insert(table, columns, ns))
  {
    hide NamesFit;
    hide Marks;
    hide Reads;
    hide Join;
    hide Separated;
    hide Lex;
    hide ReadTokens;
    TwoWordsBetweenBlanks();
    SignsBetweenBlanks();
    WordReads(table);
    ColumnsRead(columns);
    PlaceholdersRead(ns);
    InsertTextReads("insert into ", table, " (", Join(columns, ","), ") values (", Join(PrintPlaceholders(ns), ","), ")",
      Separated(WordItems(columns), Symbol(',')), Separated(PlaceItems(ns), Symbol(',')));
    InsertTokensRead(table, columns, ns);
  }

  function InsertTokens(columns: seq<Token>, places: seq<Token>): seq<Token> {
    columns + ([Symbol(')'), Word("values"), Symbol('(')] + (places + [Symbol(')')]))
  }

  lemma InsertTextReads(verb: string, table: string, opening: string, columns: string, middle: string, places: string, closing: string,
                        c: seq<Token>, p: seq<Token>)
    requires Marks(verb, [Word("insert")] + [Word("into")]) && Reads(table, [Word(table)])
    requires Marks(opening, [Symbol('(')]) && Breaks(opening) && Reads(columns, c)
    requires Marks(middle, [Symbol(')')] + [Word("values")] + [Symbol('(')]) && Breaks(middle) && Reads(places, p)
    requires Marks(closing, [Symbol(')')]) && Breaks(closing)
    ensures Lex(verb + table + opening + columns + middle + places + closing)
         == [Word("insert"), Word("into"), Word(table), Symbol('(')] + InsertTokens(c, p)
  {
    hide Marks;
    hide Reads;
    var m := [Symbol(')')] + [Word("values")] + [Symbol('(')];
    var t := [Word("insert")] + [Word("into")] + [Word(table)] + [Symbol('(')];
    MarkThenRead(verb, [Word("insert")] + [Word("into")], table, [Word(table)]);
    ReadThenMark(verb + table, [Word("insert")] + [Word("into")] + [Word(table)], opening, [Symbol('(')]);
    var head := verb + table + opening;
    assert t == [Word("insert"), Word("into"), Word(table), Symbol('(')];
    assert m == [Symbol(')'), Word("values"), Symbol('(')];
    ListsRead(head, t, columns, c, middle, m, places, p, closing, [Symbol(')')]);
  }

  /** Two lists with fixed texts around them. */
  lemma ListsRead(head: string, h: seq<Token>, columns: string, c: seq<Token>, middle: string, m: seq<Token>,
                  places: string, p: seq<Token>, closing: string, e: seq<Token>)
    requires Marks(head, h) && Reads(columns, c) && Marks(middle, m) && Breaks(middle) && Reads(places, p)
    requires Marks(closing, e) && Breaks(closing)
    ensures Lex(head + columns + middle + places + closing) == h + (c + (m + (p + e)))
  {
    hide Marks;
    hide Reads;
    MarkThenRead(head, h, columns, c);
    ReadThenMark(head + columns, h + c, middle, m);
    MarkThenRead(head + columns + middle, h + c + m, places, p);
    ReadThenMark(head + columns + middle + places, h + c + m + p, closing, e);
    MarksRead(head + columns + middle + places + closing, h + c + m + p + e);
    WholeText(head + columns + middle + places + closing, h + c + m + p + e);
    assert h + c + m + p + e == h + (c + (m + (p + e)));
  }

  lemma InsertTokensRead(table: string, columns: seq<string>, ns: seq<nat>)
    requires columns != [] && ns != []
    ensures ReadTokens([Word("insert"), Word("into"), Word(table), Symbol('(')]
              + InsertTokens(Separated(WordItems(columns), Symbol(',')), Separated(PlaceItems(ns), Symbol(','))))
         == Some(Insert(table, columns, ns))
  {
    hide Separated;
    var body := InsertTokens(Separated(WordItems(columns), Symbol(',')), Separated(PlaceItems(ns), Symbol(',')));
    var tokens := [Word("insert"), Word("into"), Word(table), Symbol('(')] + body;
    var places := Separated(PlaceItems(ns), Symbol(',')) + [Symbol(')')];
    var rest := [Symbol(')'), Word("values"), Symbol('(')] + places;
    assert tokens[..2] == [Word("insert"), Word("into")] && tokens[4..] == body;
    WordsRead(columns, rest);
    assert rest[..3] == [Symbol(')'), Word("values"), Symbol('(')] && rest[3..] == places;
    PlacesRead(ns, [Symbol(')')]);
  }

  // ---------------------------------------------------------------- searches

  function WhereTokens(finds: seq<Clause>): seq<Token> {
    if finds == [] then [] else [Word("where")] + Separated(AllTokens(finds), Word("and"))
  }

  function OrderTokens(keys: seq<string>, descending: bool): seq<Token> {
    if keys == [] then [] else [Word(keys[0])] + [Word(Direction(descending))] + OrderTokens(keys[1..], descending)
  }

  function LimitTokens(limit: Option<nat>): seq<Token> {
    if limit.None? then [] else [Word("limit")] + [Word(Decimal(limit.value))]
  }

  lemma LimitFollows(limit: Option<nat>)
    ensures Follows(LimitText(limit), LimitTokens(limit))
  {
    hide Marks;
    hide Reads;
    hide Decimal;
    if limit.Some? {
      var d := Decimal(limit.value);
      DecimalIsWord(limit.value);
      WordReads(d);
      WordsBetweenBlanks();
      MarkThenRead(" limit ", [Word("limit")], d, [Word(d)]);
    } else {
      NothingFollows();
    }
  }

  lemma NothingFollows()
    ensures Follows("", [])
  {
    BlanksMark("");
    MarksRead("", []);
  }

  lemma WhereFollows(finds: seq<Clause>)
    requires Columns(finds)
    ensures Follows(WhereText(finds), WhereTokens(finds))
  {
    hide Marks;
    hide Reads;
    hide Join;
    hide Separated;
    if finds == [] {
      NothingFollows();
    } else {
      WordsBetweenBlanks();
      ClausesRead(finds, " and ", Word("and"));
      MarkThenRead(" where ", [Word("where")], Join(PrintAll(finds), " and "), Separated(AllTokens(finds), Word("and")));
    }
  }

  /** One sort column with its direction. */
  lemma OrderItemFollows(key: string, dir: string)
    requires IsWord(key) && IsWord(dir)
    ensures Reads(" " + key + " " + dir, [Word(key)] + [Word(dir)]) && Breaks(" " + key + " " + dir)
  {
    hide Marks;
    hide Reads;
    BlanksMark(" ");
    KeywordMarks(" ", key, " ");
    WordReads(dir);
    MarkThenRead(" " + key + " ", [Word(key)], dir, [Word(dir)]);
  }

  lemma {:induction false} OrderFollows(keys: seq<string>, descending: bool)
    requires Names(keys)
    ensures Follows(OrderText(keys, descending), OrderTokens(keys, descending))
  {
    hide Marks;
    hide Reads;
    if keys == [] {
      NothingFollows();
    } else {
      var dir := Direction(descending);
      OrderItemFollows(keys[0], dir);
      OrderFollows(keys[1..], descending);
      ReadThenFollow(" " + keys[0] + " " + dir, [Word(keys[0])] + [Word(dir)],
        OrderText(keys[1..], descending), OrderTokens(keys[1..], descending));
    }
  }

  function TailTokens(keys: seq<string>, descending: bool, limit: Option<nat>): seq<Token> {
    [Word("order"), Word("by")] + (OrderTokens(keys, descending) + LimitTokens(limit))
  }

  /** No direction is a number. */
  lemma DirectionIsNoNumber(descending: bool)
    ensures Number(Direction(descending)).None?
  {
  }

  lemma OrderTokensRead(table: string, columns: seq<string>, finds: seq<Clause>, keys: seq<string>, descending: bool, limit: Option<nat>)
    ensures ReadOrder(table, columns, finds, OrderTokens(keys, descending) + LimitTokens(limit))
         == IfComplete(Select(table, columns, finds, keys, descending, limit))
  {
    hide Number;
    hide Decimal;
    DirectionIsNoNumber(true);
    DirectionIsNoNumber(false);
    if limit.Some? {
      NumberOfDecimal(limit.value);
    }
    if keys != [] {
      assert |keys| == 1 ==> keys == [keys[0]];
      var others := OrderTokens(keys[1..], descending);
      var tokens := [Word(keys[0])] + [Word(Direction(descending))] + others + LimitTokens(limit);
      assert |keys| > 1 ==> tokens[3] == others[1] == Word(Direction(descending));
    }
  }

  lemma OrderRead(table: string, columns: seq<string>, finds: seq<Clause>, keys: seq<string>, descending: bool, limit: Option<nat>)
    ensures ReadOrdering(table, columns, finds, TailTokens(keys, descending, limit))
         == IfComplete(Select(table, columns, finds, keys, descending, limit))
  {
    hide ReadOrder;
    hide OrderTokens;
    hide LimitTokens;
    hide IfComplete;
    OrderTokensRead(table, columns, finds, keys, descending, limit);
    assert TailTokens(keys, descending, limit)[..2] == [Word("order"), Word("by")];
    assert TailTokens(keys, descending, limit)[2..] == OrderTokens(keys, descending) + LimitTokens(limit);
  }

  /** The criteria of a search, in front of its ordering. */
  lemma FilterRead(table: string, columns: seq<string>, finds: seq<Clause>, tail: seq<Token>)
    requires tail != [] && tail[0] == Word("order")
    ensures ReadFiltered(table, columns, WhereTokens(finds) + tail) == ReadOrdering(table, columns, finds, tail)
  {
    hide ReadOrdering;
    hide Separated;
    if finds == [] {
      assert WhereTokens(finds) + tail == tail;
    } else {
      var list := Separated(AllTokens(finds), Word("and"));
      assert (WhereTokens(finds) + tail)[1..] == list + tail;
      ParsePrinted(finds, Word("and"), tail);
    }
  }

  lemma FilteredRead(table: string, columns: seq<string>, finds: seq<Clause>, keys: seq<string>, descending: bool, limit: Option<nat>)
    ensures ReadFiltered(table, columns, WhereTokens(finds) + TailTokens(keys, descending, limit))
         == IfComplete(Select(table, columns, finds, keys, descending, limit))
  {
    assert TailTokens(keys, descending, limit)[0] == Word("order");
    hide ReadFiltered;
    hide ReadOrdering;
    hide WhereTokens;
    hide TailTokens;
    hide IfComplete;
    OrderRead(table, columns, finds, keys, descending, limit);
    FilterRead(table, columns, finds, TailTokens(keys, descending, limit));
  }

  lemma SelectTokensRead(table: string, columns: seq<string>, finds: seq<Clause>, keys: seq<string>, descending: bool, limit: Option<nat>)
    requires columns != []
    ensures ReadTokens([Word("select")] + (Separated(WordItems(columns), Symbol(','))
              + ([Word("from"), Word(table)] + (WhereTokens(finds) + TailTokens(keys, descending, limit)))))
         == IfComplete(Select(table, columns, finds, keys, descending, limit))
  {
    hide Separated;
    hide WhereTokens;
    hide TailTokens;
    hide IfComplete;
    hide ReadFiltered;
    var filtered := WhereTokens(finds) + TailTokens(keys, descending, limit);
    var rest := [Word("from"), Word(table)] + filtered;
    var list := Separated(WordItems(columns), Symbol(',')) + rest;
    assert ([Word("select")] + list)[1..] == list && rest[2..] == filtered;
    WordsRead(columns, rest);
    FilteredRead(table, columns, finds, keys, descending, limit);
  }

  lemma SelectTextReads(verb: string, columns: string, from_: string, table: string, filter: string,
                        order: string, keys: string, limit: string,
                        c: seq<Token>, f: seq<Token>, o: seq<Token>, k: seq<Token>, l: seq<Token>)
    requires Marks(verb, [Word("select")]) && Reads(columns, c) && Marks(from_, [Word("from")]) && Breaks(from_)
    requires Reads(table, [Word(table)]) && Follows(filter, f) && Follows(order, o) && Follows(keys, k) && Follows(limit, l)
    ensures Lex(verb + columns + from_ + table + filter + order + keys + limit)
         == [Word("select")] + (c + ([Word("from"), Word(table)] + (f + (o + (k + l)))))
  {
    hide Marks;
    hide Reads;
    hide Follows;
    var s := [Word("select")] + c + [Word("from")] + [Word(table)];
    MarkThenRead(verb, [Word("select")], columns, c);
    ReadThenMark(verb + columns, [Word("select")] + c, from_, [Word("from")]);
    MarkThenRead(verb + columns + from_, [Word("select")] + c + [Word("from")], table, [Word(table)]);
    ReadThenFollow(verb + columns + from_ + table, s, filter, f);
    ReadThenFollow(verb + columns + from_ + table + filter, s + f, order, o);
    ReadThenFollow(verb + columns + from_ + table + filter + order, s + f + o, keys, k);
    ReadThenFollow(verb + columns + from_ + table + filter + order + keys, s + f + o + k, limit, l);
    WholeText(verb + columns + from_ + table + filter + order + keys + limit, s + f + o + k + l);
    assert s + f + o + k + l == [Word("select")] + (c + ([Word("from"), Word(table)] + (f + (o + (k + l)))));
  }

  lemma ColumnsStay(table: string, columns: seq<string>, tokens: seq<Token>)
    ensures ReadFiltered(table, columns, tokens).Some? ==>
              ReadFiltered(table, columns, tokens).value.Select? && ReadFiltered(table, columns, tokens).value.columns == columns
  {
    hide ParseList;
  }

  lemma FromIsNoColumn(stmt: Statement)
    requires stmt.Select? && stmt.columns == ["from"]
    ensures !NamesFit(stmt)
  {
    hide TableName;
    assert Reserved(stmt.columns[0]);
  }

  /** Without a projection the word `from` would have to be a column. */
  lemma NoColumnsRead(table: string, rest: seq<Token>)
    ensures var stmt := ReadTokens([Word("select")] + ([] + ([Word("from"), Word(table)] + rest)));
            stmt.Some? ==> !NamesFit(stmt.value)
  {
    hide ReadFiltered;
    hide NamesFit;
    var tokens := [Word("from"), Word(table)] + rest;
    assert ([Word("select")] + ([] + tokens))[1..] == tokens;
    assert ParseWords(tokens) == Some(Words(["from"], tokens[1..]));
    var stmt := ReadSelect(tokens);
    if stmt.Some? {
      ColumnsStay(tokens[2].text, ["from"], tokens[1..][2..]);
      FromIsNoColumn(stmt.value);
    }
  }

  lemma SelectRead(table: string, columns: seq<string>, finds: seq<Clause>, keys: seq<string>, descending: bool, limit: Option<nat>)
    requires Printable(Select(table, columns, finds, keys, descending, limit))
    ensures Read(Text(Select(table, columns, finds, keys, descending, limit)))
         == AsRead(Select(table, columns, finds, keys, descending, limit))
  {
    hide NamesFit;
    hide Marks;
    hide Reads;
    hide Follows;
    hide Join;
    hide Separated;
    hide Lex;
    hide WhereText;
    hide OrderText;
    hide LimitText;
    hide WhereTokens;
    hide OrderTokens;
    hide LimitTokens;
    hide ReadTokens;
    WordsBetweenBlanks();
    TwoWordsBetweenBlanks();
    WordReads(table);
    ColumnsRead(columns);
    WhereFollows(finds);
    OrderFollows(keys, descending);
    LimitFollows(limit);
    SelectTextReads("select ", Join(columns, ","), " from ", table, WhereText(finds),
      " order by", OrderText(keys, descending), LimitText(limit),
      Separated(WordItems(columns), Symbol(',')), WhereTokens(finds), [Word("order")] + [Word("by")],
      OrderTokens(keys, descending), LimitTokens(limit));
    assert [Word("order")] + [Word("by")] == [Word("order"), Word("by")];
    if columns == [] {
      NoItems();
      KeysAmong(keys, columns);
      NoColumnsRead(table, WhereTokens(finds) + TailTokens(keys, descending, limit));
    } else {
      SelectTokensRead(table, columns, finds, keys, descending, limit);
    }
  }

  lemma KeysAmong(keys: seq<string>, columns: seq<string>)
    requires forall i | 0 <= i < |keys| :: keys[i] in columns
    ensures keys != [] ==> columns != []
  {
    if keys != [] {
      assert keys[0] in columns;
    }
  }

  lemma NoItems()
    ensures Separated(WordItems([]), Symbol(',')) == []
  {
  }

  // ---------------------------------------------------------------- the whole language

  /** Every statement of the builders is read back as itself, each placeholder with its number, or not at all:
      exactly an update or delete without criteria, a search with other than one sort column, and a statement
      with a name that is no identifier or a reserved word are not read. */
  lemma ReadPrinted(stmt: Statement)
    requires Printable(stmt)
    ensures Read(Text(stmt)) == if Complete(stmt) && NamesFit(stmt) then Some(stmt) else None
  {
    match stmt
    case Update(table, sets, finds) => UpdateRead(table, sets, finds);
    case Delete(table, finds) => DeleteRead(table, finds);
    case Insert(table, columns, placeholders) => InsertRead(table, columns, placeholders);
    case Select(table, columns, finds, keys, descending, limit) => SelectRead(table, columns, finds, keys, descending, limit);
  }
}
