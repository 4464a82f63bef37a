/** The schema compiler is correct: a compiled schema means what its source says, layer by layer. */
module CompiledMeaning {
  import opened Wrappers
  import opened SchemaValues
  import opened ValidationRules
  import opened SchemaMeaning
  import opened CompilerRules

  /** The kind that the type name of an accepted rule stands for. */
  ghost function SourceKind(rule: Value): Kind
    requires RuleOutcome(rule).Ok?
  {
    KindNamed(rule.fields["type"].s).value
  }

  predicate ActionDefined(required: Fields, action: string) {
    action in Actions(required) || "default" in Actions(required)
  }

  /** The action whose layer counts: the action itself, or `default`. */
  ghost function Chosen(required: Fields, action: string): string {
    if action in Actions(required) then action else "default"
  }

  ghost function SourceRule(rule: Value, action: string): Rule
    requires RuleOutcome(rule).Ok?
    decreases rule, 1
  {
    RuleWith(rule.fields, ShapeNamed(rule, action))
  }

  ghost function ShapeNamed(rule: Value, action: string): Shape
    requires RuleOutcome(rule).Ok?
    decreases rule, 0
  {
    match SourceKind(rule)
    case StringKind => Text(TextMeaning(rule.fields))
    case Int64Kind => Whole
    case BoolKind => Truth
    case SliceKind => if "sub_type" in rule.fields then FilledList else List
    case MapKind => if "sub_type" in rule.fields then Record(SourceMeaning(rule.fields["sub_type"], action)) else UnfilledRecord
    case _ => Unsupported
  }

  lemma LayersAreMaps(required: Fields)
    requires RequiredOutcome(required).Ok?
    ensures forall k | k in required && k != "_comment" :: required[k].Obj?
    ensures "initial" in required && "all" in required
  {
    var outcomes := map k | k in required && k != "_comment" :: ActionOutcome(required[k]);
    forall k | k in required && k != "_comment"
      ensures required[k].Obj?
    {
      assert outcomes[k].Ok?;
    }
  }

  lemma RulesAccepted(section: Value)
    requires section.Obj? && SectionOutcome(section).Ok?
    ensures forall k | k in section.fields["legend"].fields :: RuleOutcome(section.fields["legend"].fields[k]).Ok?
  {
    hide RuleOutcome;
    var outcomes := RuleOutcomes(section.fields["legend"]);
    forall k | k in section.fields["legend"].fields
      ensures RuleOutcome(section.fields["legend"].fields[k]).Ok?
    {
      assert outcomes[k].Ok?;
    }
  }

  /** What the source of a schema says about an action: the fields required by `initial`, the action or
      `default`, and `all` together, the optional rule of the last of them that states one, and the rules of
      the legend. */
  ghost function SourceMeaning(section: Value, action: string): Schema
    requires section.Obj? && SectionOutcome(section).Ok?
    decreases section, 1
  {
    var required, legend := section.fields["required_fields"].fields, section.fields["legend"].fields;
    if !ActionDefined(required, action) then Undefined
    else
      LayersAreMaps(required);
      RulesAccepted(section);
      var initial, config, all := required["initial"].fields, required[Chosen(required, action)].fields, required["all"].fields;
      Schema(map k | k in legend :: SourceRule(legend[k], action),
             UnionFields(initial, config, all),
             LayeredOptional(initial, config, all))
  }

  lemma RequirementCompiled(required: Fields, after: Fields, schema: Fields, action: string)
    requires RequiredOutcome(required).Ok? && RequiredCompiled(required, after)
    requires Lookup(schema, "required_fields") == Some(Obj(after))
    ensures RequirementOf(schema, action).Ok? <==> ActionDefined(required, action)
    ensures forall k | k in required && k != "_comment" :: required[k].Obj?
    ensures "initial" in required && "all" in required
    ensures ActionDefined(required, action) ==>
              var requirement := RequirementOf(schema, action).value;
              var initial, config, all := required["initial"].fields, required[Chosen(required, action)].fields, required["all"].fields;
              && (set i | 0 <= i < |requirement.fields| :: requirement.fields[i]) == UnionFields(initial, config, all)
              && requirement.anOptional == LayeredOptional(initial, config, all)
  {
    hide UnionFields;
    hide LayeredOptional;
    hide ActionOutcome;
    LayersAreMaps(required);
    if ActionDefined(required, action) {
      var chosen := Chosen(required, action);
      var initial, config, all := required["initial"].fields, required[chosen].fields, required["all"].fields;
      ActionRequirement(initial, config, all, after[chosen]);
      hide ActionCompiled;
      assert action in after <==> action in Actions(required);
    }
  }

  lemma ActionRequirement(initial: Fields, config: Fields, all: Fields, after: Value)
    requires ActionCompiled(initial, config, all, after)
    ensures after.Obj? && Lookup(after.fields, "fields").Some? && Lookup(after.fields, "fields").value.Names?
    ensures var names := after.fields["fields"].names;
            (set i | 0 <= i < |names| :: names[i]) == UnionFields(initial, config, all)
    ensures Lookup(after.fields, "require_an_optional") == Some(Flag(LayeredOptional(initial, config, all)))
  {
    hide UnionFields;
    hide LayeredOptional;
    var names := after.fields["fields"].names;
    forall x
      ensures x in UnionFields(initial, config, all) <==> x in set i | 0 <= i < |names| :: names[i]
    {
    }
  }

  lemma OtherEntriesKept(rule: Value, after: Value, key: string)
    requires RuleOutcome(rule).Ok? && RuleCompiled(rule, after)
    requires key != "type" && key != "sub_type"
    ensures Lookup(after.fields, key) == Lookup(rule.fields, key)
  {
  }

  lemma RuleShape(rule: Value, after: Value)
    requires RuleOutcome(rule).Ok? && RuleCompiled(rule, after)
    ensures rule.Obj? && after.Obj? && after.fields.Keys == rule.fields.Keys
    ensures "type" in rule.fields && rule.fields["type"].Str?
    ensures KindNamed(rule.fields["type"].s).Some? && after.fields["type"] == KindOf(SourceKind(rule))
    ensures SourceKind(rule) == MapKind && "sub_type" in rule.fields ==>
              && rule.fields["sub_type"].Obj? && SectionOutcome(rule.fields["sub_type"]).Ok?
              && SectionCompiled(rule.fields["sub_type"], after.fields["sub_type"])
  {
    hide SectionOutcome;
    hide SectionCompiled;
  }

  /** What an accepted type definition stands for, by the text of its type. */
  lemma ShapeByType(rule: Value, action: string)
    requires RuleOutcome(rule).Ok?
    ensures rule.Obj? && "type" in rule.fields
    ensures var shape, nested := ShapeNamed(rule, action), "sub_type" in rule.fields;
            match rule.fields["type"]
            case Str("string") => shape == Text(TextMeaning(rule.fields))
            case Str("int") => shape == Whole
            case Str("float") => shape == Unsupported
            case Str("bool") => shape == Truth
            case Str("array") => shape == if nested then FilledList else List
            case Str("hashmap") =>
              if nested then
                var sub := rule.fields["sub_type"];
                sub.Obj? && SectionOutcome(sub).Ok? && shape == Record(SourceMeaning(sub, action))
              else shape == UnfilledRecord
            case _ => false
  {
    hide SectionOutcome;
    hide SourceMeaning;
  }

  lemma SameText(rule: Fields, after: Fields)
    requires Lookup(after, "additional_validation") == Lookup(rule, "additional_validation")
    requires Lookup(after, "null_ok") == Lookup(rule, "null_ok")
    ensures TextMeaning(after) == TextMeaning(rule)
    ensures forall shape :: RuleWith(after, shape) == RuleWith(rule, shape)
  {
  }

  lemma {:induction false} RuleMeansSource(rule: Value, after: Value, action: string)
    requires RuleOutcome(rule).Ok? && RuleCompiled(rule, after)
    ensures RuleFormed(after)
    ensures RuleMeaning(after, action) == SourceRule(rule, action)
    decreases rule, 0
  {
    OtherEntriesKept(rule, after, "null_ok");
    OtherEntriesKept(rule, after, "additional_validation");
    SameText(rule.fields, after.fields);
    RuleShape(rule, after);
    hide RuleOutcome;
    hide RuleCompiled;
    hide SectionOutcome;
    hide SectionCompiled;
    hide Formed;
    hide Meaning;
    hide SourceMeaning;
    hide TextMeaning;
    hide RuleWith;
    hide SourceKind;
    hide KindNamed;
    if SourceKind(rule) == MapKind && "sub_type" in rule.fields {
      SectionMeansSource(rule.fields["sub_type"], after.fields["sub_type"], action);
    }
  }

  lemma {:induction false} LegendMeansSource(section: Value, after: Value, action: string)
    requires section.Obj? && SectionOutcome(section).Ok? && SectionCompiled(section, after)
    ensures forall k | k in section.fields["legend"].fields ::
              && RuleOutcome(section.fields["legend"].fields[k]).Ok?
              && RuleFormed(after.fields["legend"].fields[k])
              && RuleMeaning(after.fields["legend"].fields[k], action)
                 == SourceRule(section.fields["legend"].fields[k], action)
    decreases section, 1
  {
    hide RequiredOutcome;
    hide RequiredCompiled;
    hide RuleFormed;
    hide RuleMeaning;
    hide SourceRule;
    hide RuleCompiled;
    RulesAccepted(section);
    var before, now := section.fields["legend"].fields, after.fields["legend"].fields;
    forall k | k in before
      ensures RuleFormed(now[k])
      ensures RuleMeaning(now[k], action) == SourceRule(before[k], action)
    {
      RuleMeansSource(before[k], now[k], action);
    }
  }

  /** Correctness of the compiler on every schema it accepts: the compiled schema means what its source says,
      that is the union of the required fields of the three layers, the layered override of the optional
      rule, and the same rules at every nested level. */
  lemma {:induction false} SectionMeansSource(section: Value, after: Value, action: string)
    requires section.Obj? && SectionOutcome(section).Ok? && SectionCompiled(section, after)
    ensures Formed(after)
    ensures Meaning(after, action) == SourceMeaning(section, action)
    decreases section, 2
  {
    hide RuleFormed;
    hide RuleMeaning;
    hide SourceRule;
    hide RuleOutcome;
    hide RuleCompiled;
    hide RequirementOf;
    hide RequiredCompiled;
    hide RequiredOutcome;
    hide LayeredOptional;
    hide UnionFields;
    hide ActionDefined;
    var required := section.fields["required_fields"].fields;
    LegendMeansSource(section, after, action);
    RequirementCompiled(required, after.fields["required_fields"].fields, after.fields, action);
    if ActionDefined(required, action) {
      assert Meaning(after, action).legend == SourceMeaning(section, action).legend;
    }
  }

  /** From the source of a schema to the verdict on a document: compile, then validate. For every accepted
      schema and every document, the document is accepted if and only if it conforms to the source, the
      validator may panic on it if and only if it breaks the source, and it is rejected otherwise. */
  lemma CompileThenValidate(isUuid: UuidParser, section: Value, after: Value, action: string, doc: Fields)
    requires section.Obj? && SectionOutcome(section).Ok? && SectionCompiled(section, after)
    ensures after.Obj?
    ensures var meaning := SourceMeaning(section, action);
            var o := SchemaOutcome(isUuid, after, action, doc);
            && (o.Ok? <==> Conforms(isUuid, meaning, doc))
            && (o.Panic? <==> Breaks(meaning, doc))
            && (o.Ok? ==> o.value == Normal(meaning, doc))
  {
    hide SectionOutcome;
    hide SectionCompiled;
    hide SchemaOutcome;
    hide Conforms;
    hide Breaks;
    hide Normal;
    hide Meaning;
    hide SourceMeaning;
    SectionMeansSource(section, after, action);
    SchemaAgrees(isUuid, after, action, doc);
    ConformingNeverBreaks(isUuid, SourceMeaning(section, action), doc);
  }
}
