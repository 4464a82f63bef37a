/** What the rules of a field mean for a document with just that field, rule by rule. */
module FieldVerdicts {
  import opened Wrappers
  import opened SchemaValues
  import opened ValidationRules
  import opened SchemaMeaning
  import opened CompilerRules
  import opened CompiledMeaning
  import opened SchemaFaults

  /** The compiler accepts `rule` as the definition of the field, and compiles it to `after`. */
  predicate Compiles(rule: Fields, after: Fields) {
    SectionOutcome(OneField(Obj(rule))).Ok? && SectionCompiled(OneField(Obj(rule)), OneFieldCompiled(Obj(after)))
  }

  /** The outcome of a document with just that field. */
  function Verdict(isUuid: UuidParser, after: Fields, action: string, v: Value): Outcome<Fields> {
    SchemaOutcome(isUuid, OneFieldCompiled(Obj(after)), action, map["code" := v])
  }

  /** The outcome in terms of the typed rule. */
  lemma VerdictByRule(isUuid: UuidParser, rule: Fields, after: Fields, action: string, typed: Rule, v: Value)
    requires RuleOutcome(Obj(rule)).Ok? && RuleCompiled(Obj(rule), Obj(after)) && SourceRule(Obj(rule), action) == typed
    ensures Compiles(rule, after)
    ensures Verdict(isUuid, after, action, v)
         == if ValueConforms(isUuid, typed, v) then Ok(map["code" := NormalValue(typed, v)])
            else if ValueBreaks(typed, v) then Panic else Err
  {
    hide RuleOutcome;
    hide RuleCompiled;
    hide SourceRule;
    hide SectionOutcome;
    hide SectionCompiled;
    hide SchemaOutcome;
    hide SourceMeaning;
    hide ValueBreaks;
    hide ValueConforms;
    hide NormalValue;
    hide Breaks;
    hide Conforms;
    hide Normal;
    hide OneFieldCompiled;
    OneFieldAccepted(Obj(rule), Obj(after));
    OneFieldMeaning(Obj(rule), action);
    CompileThenValidate(isUuid, OneField(Obj(rule)), OneFieldCompiled(Obj(after)), action, map["code" := v]);
    OneRule(isUuid, typed, v);
    OneNormal(typed, v);
  }

  lemma OneNormal(rule: Rule, v: Value)
    ensures Normal(Schema(map["code" := rule], {}, false), map["code" := v]) == map["code" := NormalValue(rule, v)]
  {
    hide NormalValue;
  }

  function TextRule(typeName: Value, check: Value): Fields {
    map["type" := typeName, "additional_validation" := check]
  }

  lemma TextRuleTyped(check: Value, action: string)
    requires !check.Null?
    ensures var rule, after := TextRule(Str("string"), check), TextRule(KindOf(StringKind), check);
            && RuleOutcome(Obj(rule)).Ok? && RuleCompiled(Obj(rule), Obj(after))
            && SourceRule(Obj(rule), action) == Rule(false, Text(TextMeaning(rule)))
  {
    hide TextMeaning;
  }

  /** A text field with two bounds, of which the word min or max may stand for one: a text is accepted, as it is,
      exactly if its length lies between them. */
  lemma LengthVerdict(isUuid: UuidParser, action: string, lower: Option<real>, upper: Option<real>, s: string)
    requires lower.Some? && upper.Some? ==> lower.value < upper.value
    ensures var bounds := Arr([if lower.Some? then Num(lower.value) else Str("min"), if upper.Some? then Num(upper.value) else Str("max")]);
            var check := Obj(map["length" := bounds]);
            && Compiles(TextRule(Str("string"), check), TextRule(KindOf(StringKind), check))
            && Verdict(isUuid, TextRule(KindOf(StringKind), check), action, Str(s))
               == if (lower.Some? ==> lower.value <= |s| as real) && (upper.Some? ==> |s| as real <= upper.value)
                  then Ok(map["code" := Str(s)]) else Err
  {
    hide Compiles;
    hide Verdict;
    hide RuleOutcome;
    hide RuleCompiled;
    hide SourceRule;
    var check := Obj(map["length" :=
      Arr([if lower.Some? then Num(lower.value) else Str("min"), if upper.Some? then Num(upper.value) else Str("max")])]);
    var typed := Rule(false, Text(TextMeaning(TextRule(Str("string"), check))));
    assert TextMeaning(TextRule(Str("string"), check)) == Restricted(AnyChoice, Between(lower, upper));
    TextRuleTyped(check, action);
    VerdictByRule(isUuid, TextRule(Str("string"), check), TextRule(KindOf(StringKind), check), action, typed, Str(s));
  }

  /** A text field with choices: a text is accepted exactly if it is one of them. */
  lemma EnumVerdict(isUuid: UuidParser, action: string, choices: seq<string>, s: string)
    ensures var check := Obj(map["enum" := Arr(seq(|choices|, i requires 0 <= i < |choices| => Str(choices[i])))]);
            && Compiles(TextRule(Str("string"), check), TextRule(KindOf(StringKind), check))
            && Verdict(isUuid, TextRule(KindOf(StringKind), check), action, Str(s))
               == if s in choices then Ok(map["code" := Str(s)]) else Err
  {
    hide Compiles;
    hide Verdict;
    hide RuleOutcome;
    hide RuleCompiled;
    hide SourceRule;
    var elems := seq(|choices|, i requires 0 <= i < |choices| => Str(choices[i]));
    var check := Obj(map["enum" := Arr(elems)]);
    var typed := Rule(false, Text(TextMeaning(TextRule(Str("string"), check))));
    EnumChoices(choices, elems, s);
    assert TextMeaning(TextRule(Str("string"), check)) == Restricted(ChoicesMeaning(map["enum" := Arr(elems)]), AnyLength);
    hide ChoicesMeaning;
    TextRuleTyped(check, action);
    VerdictByRule(isUuid, TextRule(Str("string"), check), TextRule(KindOf(StringKind), check), action, typed, Str(s));
  }

  lemma EnumChoices(choices: seq<string>, elems: seq<Value>, s: string)
    requires |elems| == |choices| && forall i | 0 <= i < |choices| :: elems[i] == Str(choices[i])
    ensures ChoicesMeaning(map["enum" := Arr(elems)]).OneOf?
    ensures Offers(ChoicesMeaning(map["enum" := Arr(elems)]), s) <==> s in choices
  {
    if s in choices {
      var i :| 0 <= i < |choices| && choices[i] == s;
      assert elems[i].s == s;
    }
  }

  /** A UUID field: a text is accepted exactly if it can be parsed, and is then the UUID. */
  lemma UuidVerdict(isUuid: UuidParser, action: string, s: string)
    ensures var check := Str("UUID");
            && Compiles(TextRule(Str("string"), check), TextRule(KindOf(StringKind), check))
            && Verdict(isUuid, TextRule(KindOf(StringKind), check), action, Str(s))
               == if isUuid(s) then Ok(map["code" := Uuid(s)]) else Err
  {
    hide Compiles;
    hide Verdict;
    hide RuleOutcome;
    hide RuleCompiled;
    hide SourceRule;
    var typed := Rule(false, Text(TextMeaning(TextRule(Str("string"), Str("UUID")))));
    TextRuleTyped(Str("UUID"), action);
    VerdictByRule(isUuid, TextRule(Str("string"), Str("UUID")), TextRule(KindOf(StringKind), Str("UUID")), action, typed, Str(s));
  }

  lemma BoolRuleTyped(nullOk: bool, action: string)
    ensures var rule: Fields := map["type" := Str("bool"), "null_ok" := Flag(nullOk)];
            var after: Fields := map["type" := KindOf(BoolKind), "null_ok" := Flag(nullOk)];
            && RuleOutcome(Obj(rule)).Ok? && RuleCompiled(Obj(rule), Obj(after))
            && SourceRule(Obj(rule), action) == Rule(nullOk, Truth)
  {
  }

  /** A boolean field: a boolean is accepted, null exactly if `null_ok` says so, and nothing else. */
  lemma BoolVerdict(isUuid: UuidParser, action: string, nullOk: bool, v: Value)
    ensures var rule: Fields := map["type" := Str("bool"), "null_ok" := Flag(nullOk)];
            var after: Fields := map["type" := KindOf(BoolKind), "null_ok" := Flag(nullOk)];
            && Compiles(rule, after)
            && Verdict(isUuid, after, action, v)
               == if v.Flag? || (v.Null? && nullOk) then Ok(map["code" := v]) else Err
  {
    hide Compiles;
    hide Verdict;
    hide RuleOutcome;
    hide RuleCompiled;
    hide SourceRule;
    BoolRuleTyped(nullOk, action);
    VerdictByRule(isUuid, map["type" := Str("bool"), "null_ok" := Flag(nullOk)],
      map["type" := KindOf(BoolKind), "null_ok" := Flag(nullOk)], action, Rule(nullOk, Truth), v);
  }
}
