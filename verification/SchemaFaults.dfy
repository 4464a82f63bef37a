/** Which schemas can make the validator panic at all, and two that do. */
module SchemaFaults {
  import opened Wrappers
  import opened SchemaValues
  import opened ValidationRules
  import opened SchemaMeaning
  import opened CompilerRules
  import opened CompiledMeaning

  // ---------------------------------------------------------------- fragile schemas

  /** The check is null, its choices are ill typed, its length rule has a null bound and some text reaches it,
      or it fixes a length that some choice misses. */
  predicate CheckFragile(check: TextCheck) {
    match check
    case AnyText => false
    case UuidText => false
    case NullCheck => true
    case Restricted(IllTypedChoices, _) => true
    case Restricted(AnyChoice, length) => length.NullBound? || length.Exactly?
    case Restricted(OneOf(texts), length) => exists s | s in texts :: LengthBreaks(length, |s|)
  }

  predicate RuleFragile(rule: Rule)
    decreases rule, 0
  {
    match rule
    case Faulty => true
    case Rule(_, Text(check)) => CheckFragile(check)
    case Rule(_, FilledList) => true
    case Rule(_, UnfilledRecord) => true
    case Rule(_, Record(schema)) => Fragile(schema)
    case _ => false
  }

  /** No requirement is defined, or some document can be admitted and some rule is fragile. */
  predicate Fragile(schema: Schema)
    decreases schema, 0
  {
    schema.Undefined? ||
    (&& (schema.anOptional ==> exists k :: k in schema.legend && k !in schema.required)
     && exists k :: k in schema.legend && RuleFragile(schema.legend[k]))
  }

  // ---------------------------------------------------------------- fragile means that some document breaks it

  lemma CheckWitness(check: TextCheck) returns (s: string)
    requires CheckFragile(check)
    ensures TextBreaks(check, s)
  {
    s := "";
    match check
    case Restricted(AnyChoice, Exactly(length)) =>
      if length == 0.0 {
        s := "a";
      }
    case Restricted(OneOf(texts), length) =>
      s :| s in texts && LengthBreaks(length, |s|);
    case _ =>
  }

  lemma {:induction false} RuleWitness(rule: Rule) returns (v: Value)
    requires RuleFragile(rule)
    ensures ValueBreaks(rule, v)
    decreases rule, 0
  {
    match rule
    case Rule(_, Text(check)) =>
      var s := CheckWitness(check);
      v := Str(s);
    case Rule(_, FilledList) =>
      v := Arr([]);
    case Rule(_, Record(schema)) =>
      var doc := Witness(schema);
      v := Obj(doc);
    case _ =>
      v := Obj(map[]);
  }

  lemma {:induction false} Witness(schema: Schema) returns (doc: Fields)
    requires Fragile(schema)
    ensures Breaks(schema, doc)
    decreases schema, 0
  {
    doc := map[];
    if schema.Schema? {
      var key :| key in schema.legend && RuleFragile(schema.legend[key]);
      var v := RuleWitness(schema.legend[key]);
      doc := map k | k in schema.required :: Null;
      if schema.anOptional {
        var option :| option in schema.legend && option !in schema.required;
        doc := doc[option := Null];
        assert option in doc[key := v];
      }
      doc := doc[key := v];
      assert key in doc && ValueBreaks(schema.legend[key], doc[key]);
    }
  }

  lemma {:induction false} RuleBrokenIsFragile(rule: Rule, v: Value)
    requires ValueBreaks(rule, v)
    ensures RuleFragile(rule)
    decreases rule, 0
  {
    if rule.Rule? && rule.shape.Record? {
      BrokenIsFragile(rule.shape.schema, v.fields);
    }
  }

  lemma {:induction false} BrokenIsFragile(schema: Schema, doc: Fields)
    requires Breaks(schema, doc)
    ensures Fragile(schema)
    decreases schema, 0
  {
    if schema.Schema? {
      var k :| k in doc && k in schema.legend && ValueBreaks(schema.legend[k], doc[k]);
      RuleBrokenIsFragile(schema.legend[k], doc[k]);
    }
  }

  /** Exactly when an accepted schema can make the validator panic: some document does so if and only if the
      source is fragile. Otherwise no document does. */
  lemma PanicsIffFragile(isUuid: UuidParser, section: Value, after: Value, action: string)
    requires section.Obj? && SectionOutcome(section).Ok? && SectionCompiled(section, after)
    ensures after.Obj?
    ensures (exists doc :: SchemaOutcome(isUuid, after, action, doc).Panic?) <==> Fragile(SourceMeaning(section, action))
  {
    hide SectionOutcome;
    hide SectionCompiled;
    hide SchemaOutcome;
    hide SourceMeaning;
    hide Breaks;
    hide Fragile;
    hide Conforms;
    hide Normal;
    var meaning := SourceMeaning(section, action);
    CompileThenValidate(isUuid, section, after, action, map[]);
    if Fragile(meaning) {
      var doc := Witness(meaning);
      CompileThenValidate(isUuid, section, after, action, doc);
      assert SchemaOutcome(isUuid, after, action, doc).Panic?;
    }
    if doc :| SchemaOutcome(isUuid, after, action, doc).Panic? {
      CompileThenValidate(isUuid, section, after, action, doc);
      BrokenIsFragile(meaning, doc);
    }
  }

  // ---------------------------------------------------------------- two accepted schemas that panic

  /** A schema with one field, `code`, and nothing required. */
  function OneField(rule: Value): Value {
    Obj(map["legend" := Obj(map["code" := rule]),
            "required_fields" := Obj(map["initial" := Obj(map[]), "all" := Obj(map[]), "default" := Obj(map[])])])
  }

  /** ... and its compiled form around the compiled rule. */
  function OneFieldCompiled(rule: Value): Value {
    Obj(map["legend" := Obj(map["code" := rule]),
            "required_fields" := Obj(map["default" := Obj(map["fields" := Names([]), "require_an_optional" := Flag(false)])])])
  }

  lemma NothingRequired()
    ensures var required := map["initial" := Obj(map[]), "all" := Obj(map[]), "default" := Obj(map[])];
            && RequiredOutcome(required).Ok?
            && RequiredCompiled(required, map["default" := Obj(map["fields" := Names([]), "require_an_optional" := Flag(false)])])
  {
    var required: Fields := map["initial" := Obj(map[]), "all" := Obj(map[]), "default" := Obj(map[])];
    assert forall k | k in required :: ActionOutcome(required[k]).Ok?;
  }

  lemma OneFieldAccepted(rule: Value, after: Value)
    requires RuleOutcome(rule).Ok? && RuleCompiled(rule, after)
    ensures SectionOutcome(OneField(rule)).Ok? && SectionCompiled(OneField(rule), OneFieldCompiled(after))
  {
    hide RuleOutcome;
    hide RuleCompiled;
    hide RequiredOutcome;
    hide RequiredCompiled;
    NothingRequired();
    var legend := Obj(map["code" := rule]);
    assert forall k | k in RuleOutcomes(legend) :: RuleOutcomes(legend)[k].Ok?;
  }

  lemma OneFieldMeaning(rule: Value, action: string)
    requires RuleOutcome(rule).Ok? && SectionOutcome(OneField(rule)).Ok?
    ensures SourceMeaning(OneField(rule), action) == Schema(map["code" := SourceRule(rule, action)], {}, false)
  {
    hide RuleOutcome;
    hide SourceRule;
    hide RequiredOutcome;
    var required: Fields := map["initial" := Obj(map[]), "all" := Obj(map[]), "default" := Obj(map[])];
    assert Actions(required) == {"default"};
    assert UnionFields(map[], map[], map[]) == {};
  }

  lemma OneRule(isUuid: UuidParser, rule: Rule, v: Value)
    ensures var schema, doc := Schema(map["code" := rule], {}, false), map["code" := v];
            && (Breaks(schema, doc) <==> ValueBreaks(rule, v))
            && (Conforms(isUuid, schema, doc) <==> ValueConforms(isUuid, rule, v))
  {
    hide ValueBreaks;
    hide ValueConforms;
    var doc: Fields := map["code" := v];
    assert "code" in doc;
  }

  /** The outcome for a document with just the one field. */
  lemma OneFieldOutcome(isUuid: UuidParser, rule: Value, after: Value, action: string, v: Value)
    requires RuleOutcome(rule).Ok? && RuleCompiled(rule, after)
    ensures SectionOutcome(OneField(rule)).Ok? && SectionCompiled(OneField(rule), OneFieldCompiled(after))
    ensures var o := SchemaOutcome(isUuid, OneFieldCompiled(after), action, map["code" := v]);
            && (o.Panic? <==> ValueBreaks(SourceRule(rule, action), v))
            && (o.Ok? <==> ValueConforms(isUuid, SourceRule(rule, action), v))
  {
    OneFieldAccepted(rule, after);
    OneFieldMeaning(rule, action);
    hide RuleOutcome;
    hide RuleCompiled;
    hide SourceRule;
    hide SectionOutcome;
    hide SectionCompiled;
    hide SchemaOutcome;
    hide SourceMeaning;
    hide ValueBreaks;
    hide ValueConforms;
    hide Breaks;
    hide Conforms;
    hide OneField;
    hide OneFieldCompiled;
    CompileThenValidate(isUuid, OneField(rule), OneFieldCompiled(after), action, map["code" := v]);
    OneRule(isUuid, SourceRule(rule, action), v);
  }

  const TwoLong: Value := Obj(map["length" := Arr([Num(2.0)])])

  lemma ExactLengthRule(action: string)
    ensures var rule := Obj(map["type" := Str("string"), "additional_validation" := TwoLong]);
            && RuleOutcome(rule).Ok?
            && RuleCompiled(rule, Obj(map["type" := KindOf(StringKind), "additional_validation" := TwoLong]))
            && SourceRule(rule, action) == Rule(false, Text(Restricted(AnyChoice, Exactly(2.0))))
  {
  }

  /** A text of the exact length is accepted, any other makes the validator panic. */
  lemma ExactLengthPanics(isUuid: UuidParser, action: string, s: string)
    ensures var rule := Obj(map["type" := Str("string"), "additional_validation" := TwoLong]);
            var after := Obj(map["type" := KindOf(StringKind), "additional_validation" := TwoLong]);
            && SectionOutcome(OneField(rule)).Ok? && SectionCompiled(OneField(rule), OneFieldCompiled(after))
            && (SchemaOutcome(isUuid, OneFieldCompiled(after), action, map["code" := Str(s)]).Ok? <==> |s| == 2)
            && (SchemaOutcome(isUuid, OneFieldCompiled(after), action, map["code" := Str(s)]).Panic? <==> |s| != 2)
  {
    hide SectionOutcome;
    hide SectionCompiled;
    hide SchemaOutcome;
    hide RuleOutcome;
    hide RuleCompiled;
    hide SourceRule;
    ExactLengthRule(action);
    OneFieldOutcome(isUuid, Obj(map["type" := Str("string"), "additional_validation" := TwoLong]),
      Obj(map["type" := KindOf(StringKind), "additional_validation" := TwoLong]), action, Str(s));
  }

  lemma FilledListRule(section: Value, sectionAfter: Value, action: string)
    requires section.Obj? && SectionOutcome(section).Ok? && SectionCompiled(section, sectionAfter)
    ensures var rule := Obj(map["type" := Str("array"), "sub_type" := section]);
            && RuleOutcome(rule).Ok?
            && RuleCompiled(rule, Obj(map["type" := KindOf(SliceKind), "sub_type" := sectionAfter]))
            && SourceRule(rule, action) == Rule(false, FilledList)
  {
    hide SectionOutcome;
    hide SectionCompiled;
  }

  /** Any array makes the validator panic where the type definition of the array has a sub-section, which the
      compiler accepts. */
  lemma FilledListPanics(isUuid: UuidParser, section: Value, sectionAfter: Value, action: string, elems: seq<Value>)
    requires section.Obj? && SectionOutcome(section).Ok? && SectionCompiled(section, sectionAfter)
    ensures var rule := Obj(map["type" := Str("array"), "sub_type" := section]);
            var after := Obj(map["type" := KindOf(SliceKind), "sub_type" := sectionAfter]);
            && SectionOutcome(OneField(rule)).Ok? && SectionCompiled(OneField(rule), OneFieldCompiled(after))
            && SchemaOutcome(isUuid, OneFieldCompiled(after), action, map["code" := Arr(elems)]) == Panic
  {
    hide SectionOutcome;
    hide SectionCompiled;
    hide SchemaOutcome;
    hide RuleOutcome;
    hide RuleCompiled;
    hide SourceRule;
    FilledListRule(section, sectionAfter, action);
    OneFieldOutcome(isUuid, Obj(map["type" := Str("array"), "sub_type" := section]),
      Obj(map["type" := KindOf(SliceKind), "sub_type" := sectionAfter]), action, Arr(elems));
  }

  /** A concrete one: an array of sections with a boolean field. */
  lemma FilledListExample(isUuid: UuidParser, action: string)
    ensures var section := OneField(Obj(map["type" := Str("bool")]));
            var sectionAfter := OneFieldCompiled(Obj(map["type" := KindOf(BoolKind)]));
            var rule := Obj(map["type" := Str("array"), "sub_type" := section]);
            var after := Obj(map["type" := KindOf(SliceKind), "sub_type" := sectionAfter]);
            && SectionOutcome(OneField(rule)).Ok? && SectionCompiled(OneField(rule), OneFieldCompiled(after))
            && SchemaOutcome(isUuid, OneFieldCompiled(after), action, map["code" := Arr([])]) == Panic
  {
    hide SectionOutcome;
    hide SectionCompiled;
    hide SchemaOutcome;
    var flag, flagAfter := Obj(map["type" := Str("bool")]), Obj(map["type" := KindOf(BoolKind)]);
    OneFieldAccepted(flag, flagAfter);
    FilledListPanics(isUuid, OneField(flag), OneFieldCompiled(flagAfter), action, []);
  }
}
