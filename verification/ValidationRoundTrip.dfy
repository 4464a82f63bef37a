/** Validating what a validation has left. */
module ValidationRoundTrip {
  import opened Wrappers
  import opened SchemaValues
  import opened ValidationRules
  import opened SchemaMeaning

  /** Every key is known to the legend, at every level. */
  ghost predicate Strained(schema: Schema, doc: Fields)
    decreases schema, 0
  {
    schema.Schema? ==>
      && doc.Keys <= schema.legend.Keys
      && forall k | k in doc && k in schema.legend :: StrainedValue(schema.legend[k], doc[k])
  }

  ghost predicate StrainedValue(rule: Rule, v: Value)
    decreases rule, 0
  {
    rule.Rule? && rule.shape.Record? && v.Obj? ==> Strained(rule.shape.schema, v.fields)
  }

  /** The output keeps no unknown key, at any depth. */
  lemma {:induction false} NormalStrained(schema: Schema, doc: Fields)
    ensures Strained(schema, Normal(schema, doc))
    decreases schema, 0
  {
    if schema.Schema? {
      forall k | k in doc && k in schema.legend
        ensures StrainedValue(schema.legend[k], NormalValue(schema.legend[k], doc[k]))
      {
        NormalValueStrained(schema.legend[k], doc[k]);
      }
    }
  }

  lemma {:induction false} NormalValueStrained(rule: Rule, v: Value)
    ensures StrainedValue(rule, NormalValue(rule, v))
    decreases rule, 0
  {
    if rule.Rule? && rule.shape.Record? && v.Obj? {
      NormalStrained(rule.shape.schema, v.fields);
    }
  }

  /** What a caller can check of a conforming document: no text that is turned into a UUID, and no required
      field that the legend does not know, wherever the document reaches. */
  predicate Repeatable(schema: Schema, doc: Fields)
    decreases schema, 0
  {
    && schema.Schema? && schema.required <= schema.legend.Keys
    && forall k | k in doc && k in schema.legend :: RepeatableValue(schema.legend[k], doc[k])
  }

  predicate RepeatableValue(rule: Rule, v: Value)
    decreases rule, 0
  {
    match rule
    case Rule(_, Text(UuidText)) => v.Null?
    case Rule(_, Record(schema)) => v.Obj? ==> Repeatable(schema, v.fields)
    case _ => true
  }

  lemma {:induction false} ValueTwice(isUuid: UuidParser, rule: Rule, v: Value)
    requires ValueConforms(isUuid, rule, v)
    ensures ValueConforms(isUuid, rule, NormalValue(rule, v)) <==> RepeatableValue(rule, v)
    ensures RepeatableValue(rule, v) ==> NormalValue(rule, NormalValue(rule, v)) == NormalValue(rule, v)
    decreases rule, 0
  {
    if rule.Rule? && rule.shape.Record? && v.Obj? {
      SchemaTwice(isUuid, rule.shape.schema, v.fields);
    }
  }

  /** Exactly when validation is idempotent.  The output of an accepted document is accepted again if and
      only if the document is repeatable, and then it is left unchanged. */
  lemma {:induction false} SchemaTwice(isUuid: UuidParser, schema: Schema, doc: Fields)
    requires Conforms(isUuid, schema, doc)
    ensures Conforms(isUuid, schema, Normal(schema, doc)) <==> Repeatable(schema, doc)
    ensures Repeatable(schema, doc) ==> Normal(schema, Normal(schema, doc)) == Normal(schema, doc)
    decreases schema, 0
  {
    var out := Normal(schema, doc);
    forall k | k in doc && k in schema.legend
      ensures ValueConforms(isUuid, schema.legend[k], out[k]) <==> RepeatableValue(schema.legend[k], doc[k])
      ensures RepeatableValue(schema.legend[k], doc[k]) ==> NormalValue(schema.legend[k], out[k]) == out[k]
    {
      ValueTwice(isUuid, schema.legend[k], doc[k]);
    }
    if schema.anOptional {
      OptionalStays(schema, doc);
    }
    RequiredStays(schema, doc);
    if Repeatable(schema, doc) {
      assert Normal(schema, out) == out;
    }
  }

  /** Straining keeps the optional field that was found. */
  lemma OptionalStays(schema: Schema, doc: Fields)
    requires schema.Schema? && exists k :: k in schema.legend && k !in schema.required && k in doc
    ensures exists k :: k in schema.legend && k !in schema.required && k in Normal(schema, doc)
  {
    var k :| k in schema.legend && k !in schema.required && k in doc;
    assert k in Normal(schema, doc);
  }

  lemma RequiredStays(schema: Schema, doc: Fields)
    requires schema.Schema? && schema.required <= doc.Keys
    ensures schema.required <= Normal(schema, doc).Keys <==> schema.required <= schema.legend.Keys
  {
  }

  lemma {:induction false} NormalValueNeverBreaks(isUuid: UuidParser, rule: Rule, v: Value)
    requires ValueConforms(isUuid, rule, v)
    ensures !ValueBreaks(rule, NormalValue(rule, v))
    decreases rule, 0
  {
    if rule.shape.Record? && v.Obj? {
      NormalNeverBreaks(isUuid, rule.shape.schema, v.fields);
    }
  }

  /** Validating an output again never panics. */
  lemma {:induction false} NormalNeverBreaks(isUuid: UuidParser, schema: Schema, doc: Fields)
    requires Conforms(isUuid, schema, doc)
    ensures !Breaks(schema, Normal(schema, doc))
    decreases schema, 0
  {
    forall k | k in doc && k in schema.legend
      ensures !ValueBreaks(schema.legend[k], NormalValue(schema.legend[k], doc[k]))
    {
      NormalValueNeverBreaks(isUuid, schema.legend[k], doc[k]);
    }
  }

  /** Twice through the validator itself, on any compiled schema. */
  lemma ValidateTwice(isUuid: UuidParser, schema: Value, action: string, doc: Fields)
    requires Formed(schema) && SchemaOutcome(isUuid, schema, action, doc).Ok?
    ensures var out := SchemaOutcome(isUuid, schema, action, doc).value;
            && Strained(Meaning(schema, action), out)
            && SchemaOutcome(isUuid, schema, action, out)
               == if Repeatable(Meaning(schema, action), doc) then Ok(out) else Err
  {
    hide SchemaOutcome;
    hide Meaning;
    hide Conforms;
    hide Normal;
    hide Breaks;
    hide Strained;
    hide Repeatable;
    var meaning := Meaning(schema, action);
    SchemaAgrees(isUuid, schema, action, doc);
    NormalStrained(meaning, doc);
    SchemaTwice(isUuid, meaning, doc);
    NormalNeverBreaks(isUuid, meaning, doc);
    SchemaAgrees(isUuid, schema, action, Normal(meaning, doc));
  }

  // ---------------------------------------------------------------- schemas on which every document is repeatable

  predicate NoUuids(schema: Schema)
    decreases schema, 0
  {
    && schema.Schema? && schema.required <= schema.legend.Keys
    && forall k | k in schema.legend :: NoUuidRule(schema.legend[k])
  }

  predicate NoUuidRule(rule: Rule)
    decreases rule, 0
  {
    match rule
    case Rule(_, Text(check)) => !check.UuidText?
    case Rule(_, Record(schema)) => NoUuids(schema)
    case _ => true
  }

  /** Without UUID fields, and with all required fields in the legends, every document is repeatable. */
  lemma {:induction false} AlwaysRepeatable(schema: Schema, doc: Fields)
    requires NoUuids(schema)
    ensures Repeatable(schema, doc)
    decreases schema, 0
  {
    forall k | k in doc && k in schema.legend
      ensures RepeatableValue(schema.legend[k], doc[k])
    {
      var rule := schema.legend[k];
      assert NoUuidRule(rule);
      if rule.Rule? && rule.shape.Record? && doc[k].Obj? {
        AlwaysRepeatable(rule.shape.schema, doc[k].fields);
      }
    }
  }
}
