/** The integers that texts are taken for, and what becomes of them in an `int` field. */
module IntegerFields {
  import opened Wrappers
  import opened Decimals
  import opened SchemaValues
  import opened ValidationRules
  import opened SchemaMeaning
  import opened CompilerRules
  import opened CompiledMeaning
  import opened SchemaFaults
  import opened FieldVerdicts

  const TwoTo63: nat := 0x8000_0000_0000_0000

  /** A number without a sign or with a plus is itself, as long as it fits 64 bits. */
  lemma ParseIntPlain(n: nat)
    ensures ParseInt(Decimal(n)) == if n < TwoTo63 then Some(n) else None
    ensures ParseInt("+" + Decimal(n)) == if n < TwoTo63 then Some(n) else None
  {
    hide Decimal;
    hide Number;
    DecimalDigits(n);
    NumberOfDecimal(n);
    assert ("+" + Decimal(n))[1..] == Decimal(n);
  }

  /** A number with a minus is its negative, as long as that fits 64 bits. */
  lemma ParseIntMinus(n: int)
    requires n >= 0
    ensures ParseInt("-" + Decimal(n)) == if n <= TwoTo63 then Some(-n) else None
  {
    hide Decimal;
    hide Number;
    NumberOfDecimal(n);
    assert ("-" + Decimal(n))[1..] == Decimal(n);
  }

  /** Leading zeros do not matter. */
  lemma ParseIntZero(s: string)
    requires s != "" && '0' <= s[0] <= '9'
    ensures ParseInt("0" + s) == ParseInt(s)
  {
    hide Number;
    LeadingZero(s);
  }

  lemma ParseIntSignedZero(s: string)
    requires s != ""
    ensures ParseInt("+0" + s) == ParseInt("+" + s) && ParseInt("-0" + s) == ParseInt("-" + s)
  {
    hide Number;
    LeadingZero(s);
    assert ("+0" + s)[1..] == "0" + s && ("-0" + s)[1..] == "0" + s;
    assert ("+" + s)[1..] == s && ("-" + s)[1..] == s;
  }

  /** What follows at most one sign. */
  function Body(s: string): string {
    if s != "" && (s[0] == '-' || s[0] == '+') then s[1..] else s
  }

  /** Nothing but digits is taken, and at least one. */
  lemma ParseIntRejects(s: string)
    requires Body(s) == "" || exists i | 0 <= i < |Body(s)| :: !('0' <= Body(s)[i] <= '9')
    ensures ParseInt(s) == None
  {
    hide Number;
    NumberIffDigits(Body(s));
  }

  // ---------------------------------------------------------------- int fields

  /** The schema knows the field as an `int`. */
  predicate IntField(schema: Value, key: string) {
    && Formed(schema) && key in schema.fields["legend"].fields && RuleFormed(schema.fields["legend"].fields[key])
    && schema.fields["legend"].fields[key].fields["type"] == KindOf(Int64Kind)
  }

  /** A text in an accepted document has become the integer that it spells. */
  lemma TextBecomesInt(isUuid: UuidParser, schema: Value, action: string, doc: Fields, key: string, s: string)
    requires IntField(schema, key) && key in doc && doc[key] == Str(s) && SchemaOutcome(isUuid, schema, action, doc).Ok?
    ensures ParseInt(s).Some? && key in SchemaOutcome(isUuid, schema, action, doc).value
    ensures SchemaOutcome(isUuid, schema, action, doc).value[key] == Int(ParseInt(s).value)
  {
    hide RequirementOf;
    hide ParseInt;
    var legend := schema.fields["legend"];
    IntOutcomeOf(isUuid, legend, action, key, doc[key]);
    hide FieldOutcome;
    assert !FieldOutcome(isUuid, legend, action, key, doc[key]).Err?;
  }

  lemma IntOutcomeOf(isUuid: UuidParser, legend: Value, action: string, key: string, v: Value)
    requires legend.Obj? && key in legend.fields && RuleFormed(legend.fields[key]) && v.Str?
    requires legend.fields[key].fields["type"] == KindOf(Int64Kind)
    ensures var o := FieldOutcome(isUuid, legend, action, key, v);
            o == Panic || o == if ParseInt(v.s).Some? then Ok(Some(Int(ParseInt(v.s).value))) else Err
  {
    hide ParseInt;
  }

  /** In an accepted document the text of an integer has become that integer, which fits 64 bits; with the text of
      any other integer the document is not accepted. */
  lemma IntFieldsParsed(isUuid: UuidParser, schema: Value, action: string, doc: Fields, key: string, n: int)
    requires n >= 0 && IntField(schema, key) && key in doc && SchemaOutcome(isUuid, schema, action, doc).Ok?
    ensures key in doc && doc[key] == Str(Decimal(n)) ==>
              var out := SchemaOutcome(isUuid, schema, action, doc).value;
              key in out && out[key] == Int(n) && n < TwoTo63
    ensures key in doc && doc[key] == Str("-" + Decimal(n)) ==>
              var out := SchemaOutcome(isUuid, schema, action, doc).value;
              key in out && out[key] == Int(-n) && n <= TwoTo63
  {
    hide SchemaOutcome;
    hide IntField;
    hide Decimal;
    hide ParseInt;
    ParseIntPlain(n);
    ParseIntMinus(n);
    if doc[key].Str? {
      TextBecomesInt(isUuid, schema, action, doc, key, doc[key].s);
    }
  }

  lemma IntRuleTyped(action: string)
    ensures var rule: Fields, after: Fields := map["type" := Str("int")], map["type" := KindOf(Int64Kind)];
            && RuleOutcome(Obj(rule)).Ok? && RuleCompiled(Obj(rule), Obj(after))
            && SourceRule(Obj(rule), action) == Rule(false, Whole)
  {
  }

  /** A document with just an `int` field is accepted exactly for the text of an integer of 64 bits, which becomes
      that integer. */
  lemma IntVerdict(isUuid: UuidParser, action: string, s: string)
    ensures var rule: Fields, after: Fields := map["type" := Str("int")], map["type" := KindOf(Int64Kind)];
            && Compiles(rule, after)
            && Verdict(isUuid, after, action, Str(s))
               == if ParseInt(s).Some? then Ok(map["code" := Int(ParseInt(s).value)]) else Err
  {
    hide ParseInt;
    hide Compiles;
    hide Verdict;
    hide RuleOutcome;
    hide RuleCompiled;
    hide SourceRule;
    IntRuleTyped(action);
    VerdictByRule(isUuid, map["type" := Str("int")], map["type" := KindOf(Int64Kind)], action, Rule(false, Whole), Str(s));
  }
}
