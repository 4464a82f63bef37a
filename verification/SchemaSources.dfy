/** What a schema must look like in its source for the compiler to accept it, and what becomes of its layers, in the
    terms of the source alone.
  */
module SchemaSources {
  import opened Wrappers
  import opened SchemaValues
  import opened ValidationRules
  import opened CompilerRules

  // ---------------------------------------------------------------- well-written sources

  predicate TextList(v: Value) {
    v.Arr? && forall i | 0 <= i < |v.elems| :: v.elems[i].Str?
  }

  /** A layer: a map whose `fields`, if given, is a list of texts and whose `require_an_optional`, if given, a
      boolean. */
  predicate LayerWritten(layer: Value) {
    && layer.Obj?
    && ("fields" in layer.fields ==> TextList(layer.fields["fields"]))
    && ("require_an_optional" in layer.fields ==> layer.fields["require_an_optional"].Flag?)
  }

  /** A type definition: one of six type names; an array says what it holds by a sub-section, or else by
      `introspect` with a named validation; a sub-section of an array or hashmap is written like a schema. */
  predicate RuleWritten(rule: Value)
    decreases rule, 0
  {
    && rule.Obj? && "type" in rule.fields
    && rule.fields["type"] in {Str("string"), Str("int"), Str("float"), Str("bool"), Str("array"), Str("hashmap")}
    && (rule.fields["type"] == Str("array") && "sub_type" !in rule.fields ==>
          && "introspect" in rule.fields
          && "additional_validation" in rule.fields && rule.fields["additional_validation"].Str?)
    && (rule.fields["type"] in {Str("array"), Str("hashmap")} && "sub_type" in rule.fields ==>
          SectionWritten(rule.fields["sub_type"]))
  }

  /** A schema: a legend of type definitions, and layers among which are `initial` and `all`. */
  predicate SectionWritten(section: Value)
    decreases section, 1
  {
    && section.Obj?
    && "legend" in section.fields && section.fields["legend"].Obj?
    && "required_fields" in section.fields && section.fields["required_fields"].Obj?
    && RequiredWritten(section.fields["required_fields"].fields)
    && forall k | k in section.fields["legend"].fields :: RuleWritten(section.fields["legend"].fields[k])
  }

  predicate RequiredWritten(required: Fields) {
    "initial" in required && "all" in required && forall k | k in required && k != "_comment" :: LayerWritten(required[k])
  }

  lemma {:induction false} TextsAccepted(elems: seq<Value>)
    ensures StringsOutcome(elems).Ok? <==> forall i | 0 <= i < |elems| :: elems[i].Str?
  {
    if elems != [] {
      TextsAccepted(elems[1..]);
      assert forall i | 0 < i < |elems| :: elems[i] == elems[1..][i - 1];
      assert forall i | 0 <= i < |elems[1..]| :: elems[1..][i] == elems[i + 1];
    }
  }

  lemma JoinedOk(outcomes: map<string, Outcome<()>>)
    ensures Joined(outcomes).Ok? <==> forall k | k in outcomes :: outcomes[k].Ok?
  {
  }

  lemma LayerAccepted(layer: Value)
    ensures ActionOutcome(layer).Ok? <==> LayerWritten(layer)
  {
    if layer.Obj? {
      hide StringsOutcome;
      var outcomes := map k | k in layer.fields :: EntryOutcome(k, layer.fields[k]);
      JoinedOk(outcomes);
      hide Joined;
      if "fields" in layer.fields && layer.fields["fields"].Arr? {
        TextsAccepted(layer.fields["fields"].elems);
      }
      if LayerWritten(layer) {
        forall k | k in outcomes
          ensures outcomes[k].Ok?
        {
          if k == "fields" {
          } else if k == "require_an_optional" {
          }
        }
      } else if "fields" in layer.fields && !TextList(layer.fields["fields"]) {
        assert !outcomes["fields"].Ok?;
      } else {
        assert !outcomes["require_an_optional"].Ok?;
      }
    }
  }

  lemma RequiredAccepted(required: Fields)
    ensures RequiredOutcome(required).Ok? <==> RequiredWritten(required)
  {
    hide ActionOutcome;
    hide LayerWritten;
    var outcomes := map k | k in required && k != "_comment" :: ActionOutcome(required[k]);
    JoinedOk(outcomes);
    hide Joined;
    forall k | k in required && k != "_comment"
      ensures outcomes[k].Ok? <==> LayerWritten(required[k])
    {
      LayerAccepted(required[k]);
    }
  }

  lemma {:induction false} RuleAccepted(rule: Value)
    ensures RuleOutcome(rule).Ok? <==> RuleWritten(rule)
    decreases rule, 0
  {
    hide SectionOutcome;
    hide SectionWritten;
    if rule.Obj? && "sub_type" in rule.fields && rule.fields["sub_type"].Obj? {
      SectionAccepted(rule.fields["sub_type"]);
    } else if rule.Obj? && "sub_type" in rule.fields {
      NoSection(rule.fields["sub_type"]);
    }
  }

  lemma NoSection(v: Value)
    requires !v.Obj?
    ensures !SectionWritten(v)
  {
  }

  /** The compiler accepts exactly the well-written sources. */
  lemma {:induction false} SectionAccepted(section: Value)
    requires section.Obj?
    ensures SectionOutcome(section).Ok? <==> SectionWritten(section)
    decreases section, 1
  {
    hide RequiredOutcome;
    hide RequiredWritten;
    hide RuleOutcome;
    hide RuleWritten;
    if "legend" in section.fields && section.fields["legend"].Obj? {
      var outcomes := RuleOutcomes(section.fields["legend"]);
      JoinedOk(outcomes);
      hide Joined;
      forall k | k in section.fields["legend"].fields
        ensures outcomes[k].Ok? <==> RuleWritten(section.fields["legend"].fields[k])
      {
        RuleAccepted(section.fields["legend"].fields[k]);
      }
    }
    if "required_fields" in section.fields && section.fields["required_fields"].Obj? {
      RequiredAccepted(section.fields["required_fields"].fields);
    }
  }

  // ---------------------------------------------------------------- layers

  /** A layer lists a field in its `fields`. */
  predicate Listed(layer: Value, field: string) {
    layer.Obj? && "fields" in layer.fields && layer.fields["fields"].Arr? && Str(field) in layer.fields["fields"].elems
  }

  /** A layer states whether an optional field is required. */
  predicate States(layer: Value, b: bool) {
    layer.Obj? && "require_an_optional" in layer.fields && layer.fields["require_an_optional"] == Flag(b)
  }

  /** The compiled form of an action: its `fields` are those listed by `initial`, by itself and by `all`, each
      once, and the last of the three that states `require_an_optional` decides it, false if none does. */
  ghost predicate United(initial: Value, own: Value, all: Value, after: Value) {
    && after.Obj? && after.fields.Keys == {"fields", "require_an_optional"}
    && after.fields["fields"].Names? && after.fields["require_an_optional"].Flag?
    && var names, b := after.fields["fields"].names, after.fields["require_an_optional"].b;
       && (forall f :: f in names <==> Listed(initial, f) || Listed(own, f) || Listed(all, f))
       && (forall i, j | 0 <= i < j < |names| :: names[i] != names[j])
       && (States(all, true) ==> b) && (States(all, false) ==> !b)
       && (!States(all, true) && !States(all, false) ==>
             && (States(own, true) ==> b) && (States(own, false) ==> !b)
             && (!States(own, true) && !States(own, false) ==> (b <==> States(initial, true))))
  }

  lemma FieldsOfListed(layer: Fields, f: string)
    ensures f in FieldsOf(layer) <==> Listed(Obj(layer), f)
  {
    if Listed(Obj(layer), f) {
      var elems := layer["fields"].elems;
      var i :| 0 <= i < |elems| && elems[i] == Str(f);
      assert elems[i].s == f;
    }
  }

  lemma ActionUnited(initial: Fields, own: Fields, all: Fields, after: Value)
    requires ActionCompiled(initial, own, all, after)
    ensures United(Obj(initial), Obj(own), Obj(all), after)
  {
    hide FieldsOf;
    hide Listed;
    var names := after.fields["fields"].names;
    forall f
      ensures f in names <==> Listed(Obj(initial), f) || Listed(Obj(own), f) || Listed(Obj(all), f)
    {
      FieldsOfListed(initial, f);
      FieldsOfListed(own, f);
      FieldsOfListed(all, f);
    }
  }

  /** The layers of a schema after compilation: the shared ones are gone, every action is united with them. */
  ghost predicate LayersUnited(required: Fields, after: Fields) {
    && "initial" in required && "all" in required
    && after.Keys == required.Keys - {"_comment", "initial", "all"}
    && forall action | action in after :: United(required["initial"], required[action], required["all"], after[action])
  }

  lemma RequiredUnited(required: Fields, after: Fields)
    requires RequiredOutcome(required).Ok? && RequiredCompiled(required, after)
    ensures LayersUnited(required, after)
  {
    hide ActionCompiled;
    hide United;
    hide ActionOutcome;
    forall action | action in after
      ensures United(required["initial"], required[action], required["all"], after[action])
    {
      ActionUnited(required["initial"].fields, required[action].fields, required["all"].fields, after[action]);
    }
  }

  /** The kind that a type name stands for. */
  predicate KindByText(text: Value, kind: Value) {
    && (text == Str("string") ==> kind == KindOf(StringKind))
    && (text == Str("int") ==> kind == KindOf(Int64Kind))
    && (text == Str("float") ==> kind == KindOf(Float64Kind))
    && (text == Str("bool") ==> kind == KindOf(BoolKind))
    && (text == Str("array") ==> kind == KindOf(SliceKind))
    && (text == Str("hashmap") ==> kind == KindOf(MapKind))
  }

  ghost predicate RuleUnited(rule: Value, after: Value)
    decreases rule, 0
  {
    && rule.Obj? && after.Obj? && after.fields.Keys == rule.fields.Keys && "type" in rule.fields
    && KindByText(rule.fields["type"], after.fields["type"])
    && (rule.fields["type"] in {Str("array"), Str("hashmap")} && "sub_type" in rule.fields ==>
          SectionUnited(rule.fields["sub_type"], after.fields["sub_type"]))
    && (forall k | k in rule.fields && k != "type" && k != "sub_type" :: after.fields[k] == rule.fields[k])
  }

  /** The compiled form of a schema, at every level. */
  ghost predicate SectionUnited(section: Value, after: Value)
    decreases section, 1
  {
    && section.Obj? && after.Obj? && after.fields.Keys == section.fields.Keys
    && "legend" in section.fields && section.fields["legend"].Obj? && after.fields["legend"].Obj?
    && "required_fields" in section.fields && section.fields["required_fields"].Obj? && after.fields["required_fields"].Obj?
    && LayersUnited(section.fields["required_fields"].fields, after.fields["required_fields"].fields)
    && var before, now := section.fields["legend"].fields, after.fields["legend"].fields;
       now.Keys == before.Keys && forall k | k in before :: RuleUnited(before[k], now[k])
  }

  lemma {:induction false} RuleCompiledUnited(rule: Value, after: Value)
    requires RuleOutcome(rule).Ok? && RuleCompiled(rule, after)
    ensures RuleUnited(rule, after)
    decreases rule, 0
  {
    hide SectionOutcome;
    hide SectionCompiled;
    hide SectionUnited;
    if HasSubSection(rule.fields) {
      SectionCompiledUnited(rule.fields["sub_type"], after.fields["sub_type"]);
    }
  }

  /** What the compiler leaves of every accepted schema, at every level, in the terms of its source. */
  lemma {:induction false} SectionCompiledUnited(section: Value, after: Value)
    requires section.Obj? && SectionOutcome(section).Ok? && SectionCompiled(section, after)
    ensures SectionUnited(section, after)
    decreases section, 1
  {
    hide RuleOutcome;
    hide RuleCompiled;
    hide RuleUnited;
    hide RequiredOutcome;
    hide RequiredCompiled;
    hide LayersUnited;
    RequiredUnited(section.fields["required_fields"].fields, after.fields["required_fields"].fields);
    var before, now := section.fields["legend"].fields, after.fields["legend"].fields;
    forall k | k in before
      ensures RuleUnited(before[k], now[k])
    {
      RuleCompiledUnited(before[k], now[k]);
    }
  }

  /** A document without a field that the action, `initial` or `all` lists is rejected for that action. */
  lemma ListedFieldsRequired(isUuid: UuidParser, section: Value, after: Value, action: string, field: string, doc: Fields)
    requires SectionUnited(section, after)
    requires var required := section.fields["required_fields"].fields;
             && action in required && action !in {"_comment", "initial", "all"}
             && (Listed(required[action], field) || Listed(required["initial"], field) || Listed(required["all"], field))
    requires field !in doc
    ensures SchemaOutcome(isUuid, after, action, doc) == Err
  {
    hide RuleUnited;
    hide Listed;
    hide LegendOutcome;
    var names := after.fields["required_fields"].fields[action].fields["fields"].names;
    assert field in names;
    var i :| 0 <= i < |names| && names[i] == field;
    assert !HasRequired(doc, names);
  }
}
