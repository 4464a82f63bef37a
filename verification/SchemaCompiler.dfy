/** InitSchema of validation.go: the schema maps are checked and rewritten in place, in any map order. */
module SchemaCompiler {
  import opened Wrappers
  import opened SchemaValues
  import opened ValidationRules
  import opened CompilerRules
  import opened SchemaSources
  import opened Validator

  method SimpleIntrospection(elems: seq<Value>) returns (verdict: Verdict)
    ensures verdict == VerdictOf(StringsOutcome(elems))
    ensures verdict == Accepted <==> forall i | 0 <= i < |elems| :: elems[i].Str?
    ensures verdict == Panicked <==> exists i | 0 <= i < |elems| :: elems[i].Null? && forall j | 0 <= j < i :: elems[j].Str?
  {
    var i := 0;
    while i < |elems|
      invariant 0 <= i <= |elems|
      invariant StringsOutcome(elems) == StringsOutcome(elems[i..])
      invariant forall j | 0 <= j < i :: elems[j].Str?
    {
      if elems[i].Null? {
        return Panicked;
      }
      if GoKind(elems[i]) != StringKind {
        return Rejected;
      }
      i := i + 1;
    }
    verdict := Accepted;
  }

  method CheckEntry(key: string, v: Value) returns (verdict: Verdict)
    ensures verdict == VerdictOf(EntryOutcome(key, v))
  {
    verdict := Accepted;
    if key == "fields" {
      if v.Null? {
        return Panicked;
      }
      if GoKind(v) != SliceKind {
        return Rejected;
      }
      if !v.Arr? {
        return Panicked;
      }
      verdict := SimpleIntrospection(v.elems);
    } else if key == "require_an_optional" {
      if v.Null? {
        return Panicked;
      }
      if !v.Flag? {
        return Rejected;
      }
    }
  }

  lemma JoinedFails(outcomes: map<string, Outcome<()>>, key: string, verdict: Verdict)
    requires key in outcomes && Agrees(outcomes[key], verdict) && verdict != Accepted
    requires verdict == Panicked ==> outcomes[key].Panic?
    ensures Agrees(Joined(outcomes), verdict)
    ensures verdict == Panicked ==> Joined(outcomes).Panic?
  {
    assert !outcomes[key].Ok?;
  }

  method CheckAction(config: Value) returns (verdict: Verdict)
    ensures Agrees(ActionOutcome(config), verdict)
    ensures verdict == Panicked ==> ActionOutcome(config).Panic?
  {
    if config.Null? {
      return Panicked;
    }
    if !config.Obj? {
      return Rejected;
    }
    ghost var outcomes := map k | k in config.fields :: EntryOutcome(k, config.fields[k]);
    var remaining := config.fields.Keys;
    while remaining != {}
      invariant remaining <= config.fields.Keys
      invariant forall k | k in config.fields && k !in remaining :: outcomes[k].Ok?
    {
      var key :| key in remaining;
      verdict := CheckEntry(key, config.fields[key]);
      if verdict != Accepted {
        JoinedFails(outcomes, key, verdict);
        return;
      }
      remaining := remaining - {key};
    }
    verdict := Accepted;
  }

  /** updatefieldList: the map of field names is a set. */
  method UpdateFieldList(config: Fields, inherited: bool, filter: set<string>) returns (optional: bool, fields: set<string>)
    requires ActionOutcome(Obj(config)).Ok?
    ensures optional == Override(config, inherited)
    ensures fields == filter + FieldsOf(config)
  {
    optional, fields := inherited, filter;
    var outcomes := map k | k in config :: EntryOutcome(k, config[k]);
    assert Joined(outcomes).Ok?;
    if "require_an_optional" in config {
      assert outcomes["require_an_optional"].Ok?;
      optional := config["require_an_optional"].b;
    }
    if "fields" in config {
      assert outcomes["fields"].Ok?;
      var elems := config["fields"].elems;
      AllStrings(elems);
      for i := 0 to |elems|
        invariant fields == filter + set j | 0 <= j < i && elems[j].Str? :: elems[j].s
      {
        fields := fields + {elems[i].s};
      }
    }
  }

  lemma {:induction false} AllStrings(elems: seq<Value>)
    requires StringsOutcome(elems).Ok?
    ensures forall i | 0 <= i < |elems| :: elems[i].Str?
  {
    if elems != [] {
      AllStrings(elems[1..]);
      assert elems == [elems[0]] + elems[1..];
    }
  }

  method ListFields(filter: set<string>) returns (names: seq<string>)
    ensures Listing(names, filter)
  {
    names := [];
    var remaining := filter;
    while remaining != {}
      invariant remaining <= filter && Listing(names, filter - remaining)
    {
      var f :| f in remaining;
      names := names + [f];
      remaining := remaining - {f};
    }
    assert filter - remaining == filter;
  }

  method CompileAction(initial: Fields, config: Fields, all: Fields) returns (after: Value)
    requires ActionOutcome(Obj(initial)).Ok? && ActionOutcome(Obj(config)).Ok? && ActionOutcome(Obj(all)).Ok?
    ensures ActionCompiled(initial, config, all, after)
  {
    hide ActionOutcome;
    hide FieldsOf;
    hide Override;
    hide Listing;
    var optional, filter := UpdateFieldList(initial, false, {});
    optional, filter := UpdateFieldList(config, optional, filter);
    optional, filter := UpdateFieldList(all, optional, filter);
    assert filter == UnionFields(initial, config, all);
    var names := ListFields(filter);
    after := Obj(map["fields" := Names(names), "require_an_optional" := Flag(optional)]);
  }

  method CheckActions(required: Document, ghost before: Fields) returns (verdict: Verdict)
    requires "initial" in before && "all" in before && required.fields == before - {"_comment"}
    ensures Agrees(RequiredOutcome(before), verdict)
    ensures verdict == Panicked ==> RequiredOutcome(before).Panic?
    ensures verdict == Accepted ==> forall k | k in required.fields :: required.fields[k].Obj? && ActionOutcome(required.fields[k]).Ok?
  {
    ghost var outcomes := map k | k in before && k != "_comment" :: ActionOutcome(before[k]);
    var remaining := required.fields.Keys;
    while remaining != {}
      invariant remaining <= required.fields.Keys
      invariant forall k | k in required.fields && k !in remaining :: outcomes[k].Ok?
    {
      var action :| action in remaining;
      verdict := CheckAction(required.fields[action]);
      if verdict != Accepted {
        JoinedFails(outcomes, action, verdict);
        return;
      }
      remaining := remaining - {action};
    }
    verdict := Accepted;
  }

  lemma LayersMissing(before: Fields)
    ensures !("initial" in before && "all" in before) ==> RequiredOutcome(before) == Err
    ensures "initial" in before - {"_comment"} <==> "initial" in before
    ensures "all" in before - {"_comment"} <==> "all" in before
  {
  }

  /** The actions that are left when the two shared layers are taken out, once they are compiled. */
  lemma LayersCompiled(before: Fields, checked: Fields, actions: Fields, after: Fields)
    requires RequiredOutcome(before).Ok? && checked == before - {"_comment"} && actions == checked - {"initial"} - {"all"}
    requires "initial" in checked && "all" in checked && checked["initial"].Obj? && checked["all"].Obj?
    requires after.Keys == actions.Keys
    requires forall k | k in after ::
               actions[k].Obj? && ActionCompiled(checked["initial"].fields, actions[k].fields, checked["all"].fields, after[k])
    ensures RequiredCompiled(before, after)
  {
    hide RequiredOutcome;
    hide ActionCompiled;
  }

  method ProcessRequiredFields(required: Document) returns (verdict: Verdict)
    modifies required
    ensures Agrees(RequiredOutcome(old(required.fields)), verdict)
    ensures verdict == Panicked ==> RequiredOutcome(old(required.fields)).Panic?
    ensures verdict == Accepted ==> RequiredCompiled(old(required.fields), required.fields)
  {
    hide ActionOutcome;
    hide ActionCompiled;
    hide RequiredOutcome;
    hide RequiredCompiled;
    ghost var before := required.fields;
    LayersMissing(before);
    required.fields := required.fields - {"_comment"};
    if "initial" !in required.fields || "all" !in required.fields {
      return Rejected;
    }
    verdict := CheckActions(required, before);
    if verdict != Accepted {
      return;
    }
    ghost var checked := required.fields;
    var initial := required.fields["initial"].fields;
    required.fields := required.fields - {"initial"};
    var all := required.fields["all"].fields;
    required.fields := required.fields - {"all"};
    ghost var actions := required.fields;
    CompileActions(required, initial, all);
    LayersCompiled(before, checked, actions, required.fields);
  }

  method CompileActions(required: Document, initial: Fields, all: Fields)
    requires ActionOutcome(Obj(initial)).Ok? && ActionOutcome(Obj(all)).Ok?
    requires forall k | k in required.fields :: required.fields[k].Obj? && ActionOutcome(required.fields[k]).Ok?
    modifies required
    ensures required.fields.Keys == old(required.fields).Keys
    ensures forall k | k in required.fields ::
              old(required.fields)[k].Obj? && ActionCompiled(initial, old(required.fields)[k].fields, all, required.fields[k])
  {
    hide ActionOutcome;
    hide ActionCompiled;
    ghost var before := required.fields;
    var remaining := required.fields.Keys;
    while remaining != {}
      invariant required.fields.Keys == before.Keys && remaining <= before.Keys
      invariant forall k | k in remaining :: required.fields[k] == before[k]
      invariant forall k | k in required.fields :: before[k].Obj? && ActionOutcome(before[k]).Ok?
      invariant forall k | k in required.fields && k !in remaining ::
                  ActionCompiled(initial, before[k].fields, all, required.fields[k])
    {
      var action :| action in remaining;
      var after := CompileAction(initial, required.fields[action].fields, all);
      required.fields := required.fields[action := after];
      remaining := remaining - {action};
    }
  }

  /** The switch on the type name, and what an array needs besides. */
  method CheckDefinition(rule: Fields) returns (verdict: Verdict)
    ensures verdict == VerdictOf(DefinitionOutcome(rule))
  {
    if "type" !in rule {
      return Rejected;
    }
    if !rule["type"].Str? {
      return Panicked;
    }
    var name := rule["type"].s;
    if name == "array" {
      if "sub_type" in rule {
        if rule["sub_type"].Null? {
          return Panicked;
        }
        if !rule["sub_type"].Obj? {
          return Rejected;
        }
      } else if "introspect" in rule {
        if "additional_validation" !in rule {
          return Rejected;
        }
        if rule["additional_validation"].Null? {
          return Panicked;
        }
        if !rule["additional_validation"].Str? {
          return Rejected;
        }
      } else {
        return Rejected;
      }
    } else if name !in {"string", "int", "float", "bool", "hashmap"} {
      return Rejected;
    }
    verdict := Accepted;
  }

  /** The type name becomes a reflect.Kind, and a sub-section is compiled in turn. */
  method CompileRule(rule: Document) returns (verdict: Verdict)
    modifies rule
    ensures Agrees(RuleOutcome(Obj(old(rule.fields))), verdict)
    ensures verdict == Panicked ==> RuleOutcome(Obj(old(rule.fields))).Panic?
    ensures verdict == Accepted ==> RuleCompiled(Obj(old(rule.fields)), Obj(rule.fields))
    decreases Obj(rule.fields), 0
  {
    ghost var before := rule.fields;
    verdict := CheckDefinition(rule.fields);
    if verdict != Accepted {
      return;
    }
    var sub := HasSubSection(rule.fields);
    rule.fields := rule.fields["type" := KindOf(KindNamed(rule.fields["type"].s).value)];
    if sub {
      if !rule.fields["sub_type"].Obj? {
        return Panicked;
      }
      assert rule.fields["sub_type"] == before["sub_type"];
      var nested := new Document(rule.fields["sub_type"].fields);
      verdict := ParseSubSection(nested);
      rule.fields := rule.fields["sub_type" := Obj(nested.fields)];
    }
  }

  lemma NotARule(v: Value)
    ensures v.Null? ==> RuleOutcome(v) == Panic
    ensures !v.Null? && !v.Obj? ==> RuleOutcome(v) == Err
  {
  }

  method ProcessLegend(legend: Document) returns (verdict: Verdict)
    modifies legend
    ensures Agrees(Joined(RuleOutcomes(Obj(old(legend.fields)))), verdict)
    ensures verdict == Panicked ==> Joined(RuleOutcomes(Obj(old(legend.fields)))).Panic?
    ensures verdict == Accepted ==> legend.fields.Keys == old(legend.fields).Keys
    ensures verdict == Accepted ==>
              forall k | k in legend.fields ::
                RuleOutcome(old(legend.fields)[k]).Ok? && RuleCompiled(old(legend.fields)[k], legend.fields[k])
    decreases Obj(legend.fields), 1
  {
    hide RuleOutcome;
    hide RuleCompiled;
    ghost var before := legend.fields;
    ghost var outcomes := RuleOutcomes(Obj(before));
    var remaining := legend.fields.Keys;
    while remaining != {}
      invariant legend.fields.Keys == before.Keys && remaining <= before.Keys
      invariant forall k | k in remaining :: legend.fields[k] == before[k]
      invariant forall k | k in before && k !in remaining ::
                  RuleOutcome(before[k]).Ok? && RuleCompiled(before[k], legend.fields[k])
    {
      var fieldName :| fieldName in remaining;
      var definition := legend.fields[fieldName];
      NotARule(definition);
      if definition.Null? {
        JoinedFails(outcomes, fieldName, Panicked);
        return Panicked;
      }
      if !definition.Obj? {
        JoinedFails(outcomes, fieldName, Rejected);
        return Rejected;
      }
      assert definition == Obj(before[fieldName].fields) && before[fieldName] < Obj(before);
      var rule := new Document(definition.fields);
      verdict := CompileRule(rule);
      legend.fields := legend.fields[fieldName := Obj(rule.fields)];
      if verdict != Accepted {
        JoinedFails(outcomes, fieldName, verdict);
        return;
      }
      remaining := remaining - {fieldName};
    }
    verdict := Accepted;
  }

  /** A section is accepted exactly when its outcome is Ok, and then holds its compiled form. */
  method ParseSubSection(section: Document) returns (verdict: Verdict)
    modifies section
    ensures Agrees(SectionOutcome(Obj(old(section.fields))), verdict)
    ensures verdict == Panicked ==> SectionOutcome(Obj(old(section.fields))).Panic?
    ensures verdict == Accepted ==> SectionCompiled(Obj(old(section.fields)), Obj(section.fields))
    decreases Obj(section.fields), 2
  {
    hide RequiredOutcome;
    hide RequiredCompiled;
    hide RuleOutcome;
    hide RuleCompiled;
    hide Joined;
    hide RuleOutcomes;
    ghost var before := section.fields;
    verdict := VerdictOf(MapOutcome(Lookup(section.fields, "legend")));
    if verdict != Accepted {
      return;
    }
    verdict := VerdictOf(MapOutcome(Lookup(section.fields, "required_fields")));
    if verdict != Accepted {
      return;
    }
    var required := new Document(section.fields["required_fields"].fields);
    verdict := ProcessRequiredFields(required);
    section.fields := section.fields["required_fields" := Obj(required.fields)];
    if verdict != Accepted {
      return;
    }
    assert section.fields["legend"] == before["legend"] && before["legend"] < Obj(before);
    var legend := new Document(section.fields["legend"].fields);
    assert Obj(legend.fields) == before["legend"];
    verdict := ProcessLegend(legend);
    section.fields := section.fields["legend" := Obj(legend.fields)];
  }

  /** Accepts exactly the well-written schemas, and unites the layers of each at every level. */
  method InitSchema(schema: Document) returns (verdict: Verdict)
    modifies schema
    ensures Agrees(SectionOutcome(Obj(old(schema.fields))), verdict)
    ensures verdict == Accepted ==> SectionCompiled(Obj(old(schema.fields)), Obj(schema.fields))
    ensures verdict == Accepted <==> SectionWritten(Obj(old(schema.fields)))
    ensures verdict == Accepted ==> SectionUnited(Obj(old(schema.fields)), Obj(schema.fields))
  {
    hide SectionOutcome;
    hide SectionCompiled;
    hide SectionWritten;
    hide SectionUnited;
    ghost var source := Obj(schema.fields);
    verdict := ParseSubSection(schema);
    SectionAccepted(source);
    if verdict == Accepted {
      SectionCompiledUnited(source, Obj(schema.fields));
    }
  }
}
