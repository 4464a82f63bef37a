/** What a schema means: a typed schema for one action, the documents that conform to it, what a conforming
    document is turned into, and the documents on which the validator may panic.
  */
module SchemaMeaning {
  import opened Wrappers
  import opened SchemaValues
  import opened ValidationRules

  // ---------------------------------------------------------------- typed schemas

  /** Undefined: neither the action nor `default` has a requirement. */
  datatype Schema =
    | Undefined
    | Schema(legend: map<string, Rule>, required: set<string>, anOptional: bool)

  /** Faulty: a rule whose `null_ok` is null. */
  datatype Rule = Faulty | Rule(nullOk: bool, shape: Shape)

  /** An unfilled record is a hashmap without a sub-section, a filled list an array with one. */
  datatype Shape =
    | Text(check: TextCheck)
    | Whole
    | Truth
    | List
    | FilledList
    | Record(schema: Schema)
    | UnfilledRecord
    | Unsupported

  datatype TextCheck =
    | AnyText
    | UuidText
    | NullCheck
    | Restricted(choices: Choices, length: LengthRule)

  datatype Choices = AnyChoice | OneOf(texts: set<string>) | IllTypedChoices

  /** Never is a length rule that no text satisfies, NullBound one with a null in it. */
  datatype LengthRule =
    | AnyLength
    | Between(lower: Option<real>, upper: Option<real>)
    | Exactly(length: real)
    | NullBound
    | Never

  // ---------------------------------------------------------------- conformance

  predicate LengthFits(rule: LengthRule, n: nat) {
    match rule
    case AnyLength => true
    case Between(lower, upper) =>
      (lower.Some? ==> lower.value <= n as real) && (upper.Some? ==> n as real <= upper.value)
    case Exactly(length) => n as real == length
    case NullBound => false
    case Never => false
  }

  predicate Offers(choices: Choices, s: string) {
    match choices
    case AnyChoice => true
    case OneOf(texts) => s in texts
    case IllTypedChoices => false
  }

  predicate TextFits(isUuid: UuidParser, check: TextCheck, s: string) {
    match check
    case AnyText => true
    case UuidText => isUuid(s)
    case NullCheck => false
    case Restricted(choices, length) => Offers(choices, s) && LengthFits(length, |s|)
  }

  /** Null where allowed; a text that fits; an integer or the text of one; a boolean; an array; a conforming
      map.  Nothing fits a `float` field: the validator has no case for it. */
  predicate ValueConforms(isUuid: UuidParser, rule: Rule, v: Value)
    decreases rule, 0
  {
    if rule.Faulty? then false
    else if v.Null? then rule.nullOk
    else
      match rule.shape
      case Text(check) => v.Str? && TextFits(isUuid, check, v.s)
      case Whole => v.Int? || (v.Str? && ParseInt(v.s).Some?)
      case Truth => v.Flag?
      case List => v.Arr? || v.Names?
      case FilledList => false
      case Record(schema) => v.Obj? && Conforms(isUuid, schema, v.fields)
      case UnfilledRecord => false
      case Unsupported => false
  }

  /** The required fields are there, and an optional one too where one is asked for. */
  predicate Admits(schema: Schema, doc: Fields)
    requires schema.Schema?
  {
    && schema.required <= doc.Keys
    && (schema.anOptional ==> exists k :: k in schema.legend && k !in schema.required && k in doc)
  }

  /** The document is admitted, and every field that the legend knows fits its rule.  Unknown fields do not
      matter. */
  predicate Conforms(isUuid: UuidParser, schema: Schema, doc: Fields)
    decreases schema, 0
  {
    && schema.Schema? && Admits(schema, doc)
    && forall k | k in doc && k in schema.legend :: ValueConforms(isUuid, schema.legend[k], doc[k])
  }

  /** Texts of integers become integers, texts of UUIDs become UUIDs, nested maps are normalized. */
  function NormalValue(rule: Rule, v: Value): Value
    decreases rule, 0
  {
    if v.Null? || rule.Faulty? then v
    else
      match rule.shape
      case Text(UuidText) => if v.Str? then Uuid(v.s) else v
      case Whole => if v.Str? && ParseInt(v.s).Some? then Int(ParseInt(v.s).value) else v
      case Record(schema) => if v.Obj? then Obj(Normal(schema, v.fields)) else v
      case _ => v
  }

  /** The fields that the legend knows, normalized. */
  function Normal(schema: Schema, doc: Fields): Fields
    decreases schema, 0
  {
    if schema.Undefined? then doc
    else map k | k in doc && k in schema.legend :: NormalValue(schema.legend[k], doc[k])
  }

  // ---------------------------------------------------------------- panics

  /** An exact length is missed, or a bound is null. */
  predicate LengthBreaks(rule: LengthRule, n: nat) {
    rule.NullBound? || (rule.Exactly? && n as real != rule.length)
  }

  /** The check is null, its choices are ill typed, or its length rule breaks on one of its choices. */
  predicate TextBreaks(check: TextCheck, s: string) {
    match check
    case AnyText => false
    case UuidText => false
    case NullCheck => true
    case Restricted(choices, length) => choices.IllTypedChoices? || (Offers(choices, s) && LengthBreaks(length, |s|))
  }

  /** Any value under a faulty rule; a text that breaks its check; a map without a sub-section to validate it
      with, or one that breaks in it; an array with a sub-section. */
  predicate ValueBreaks(rule: Rule, v: Value)
    decreases rule, 0
  {
    if rule.Faulty? then true
    else if v.Null? then false
    else
      match rule.shape
      case Text(check) => v.Str? && TextBreaks(check, v.s)
      case FilledList => v.Arr? || v.Names?
      case UnfilledRecord => v.Obj?
      case Record(schema) => v.Obj? && Breaks(schema, v.fields)
      case _ => false
  }

  /** No requirement is defined, or the document is admitted and some known field breaks its rule. */
  predicate Breaks(schema: Schema, doc: Fields)
    decreases schema, 0
  {
    schema.Undefined? ||
    (Admits(schema, doc) && exists k :: k in doc && k in schema.legend && ValueBreaks(schema.legend[k], doc[k]))
  }

  lemma {:induction false} ValueNotBoth(isUuid: UuidParser, rule: Rule, v: Value)
    ensures !(ValueConforms(isUuid, rule, v) && ValueBreaks(rule, v))
    decreases rule, 0
  {
    if rule.Rule? && rule.shape.Record? && v.Obj? {
      ConformingNeverBreaks(isUuid, rule.shape.schema, v.fields);
    }
  }

  /** A document that conforms is not one on which the validator may panic. */
  lemma {:induction false} ConformingNeverBreaks(isUuid: UuidParser, schema: Schema, doc: Fields)
    ensures !(Conforms(isUuid, schema, doc) && Breaks(schema, doc))
    decreases schema, 0
  {
    if Conforms(isUuid, schema, doc) && Breaks(schema, doc) {
      var k :| k in doc && k in schema.legend && ValueBreaks(schema.legend[k], doc[k]);
      ValueNotBoth(isUuid, schema.legend[k], doc[k]);
    }
  }

  // ---------------------------------------------------------------- compiled schemas

  /** A rule of the form that the compiler leaves. */
  predicate RuleFormed(rule: Value)
    decreases rule, 0
  {
    && rule.Obj? && "type" in rule.fields && rule.fields["type"].KindOf?
    && (rule.fields["type"].kind == MapKind && "sub_type" in rule.fields ==> Formed(rule.fields["sub_type"]))
  }

  /** A schema of the form that the compiler leaves. */
  predicate Formed(schema: Value)
    decreases schema, 1
  {
    && schema.Obj? && "legend" in schema.fields && schema.fields["legend"].Obj?
    && forall k | k in schema.fields["legend"].fields :: RuleFormed(schema.fields["legend"].fields[k])
  }

  function BoundOf(v: Value): Option<real> {
    if v.Num? then Some(v.r) else None
  }

  function LengthMeaning(spec: Fields): LengthRule {
    match Lookup(spec, "length")
    case Some(Arr(bounds)) =>
      if |bounds| == 1 then
        if bounds[0].Null? then NullBound else if bounds[0].Num? then Exactly(bounds[0].r) else Never
      else if |bounds| != 2 then Never
      else
        var lower, upper := bounds[0], bounds[1];
        if lower.Null? || upper.Null? then NullBound
        else if lower.Str? && lower.s != "min" then Never
        else if upper.Str? && upper.s != "max" then Never
        else if lower.Num? && upper.Num? && lower.r >= upper.r then Never
        else Between(BoundOf(lower), BoundOf(upper))
    case _ => AnyLength
  }

  function ChoicesMeaning(spec: Fields): Choices {
    match Lookup(spec, "enum")
    case None => AnyChoice
    case Some(Arr(choices)) =>
      if exists i :: 0 <= i < |choices| && !choices[i].Str? then IllTypedChoices
      else OneOf(set i | 0 <= i < |choices| && choices[i].Str? :: choices[i].s)
    case Some(_) => IllTypedChoices
  }

  function TextMeaning(rule: Fields): TextCheck {
    match Lookup(rule, "additional_validation")
    case Some(Null) => NullCheck
    case Some(Str(name)) => if name == "UUID" then UuidText else AnyText
    case Some(Obj(spec)) => Restricted(ChoicesMeaning(spec), LengthMeaning(spec))
    case _ => AnyText
  }

  /** `null_ok` and the shape together. */
  function RuleWith(rule: Fields, shape: Shape): Rule {
    match Lookup(rule, "null_ok")
    case Some(Null) => Faulty
    case nullOk => Rule(nullOk == Some(Flag(true)), shape)
  }

  ghost function RuleMeaning(rule: Value, action: string): Rule
    requires RuleFormed(rule)
    decreases rule, 0
  {
    var shape :=
      match rule.fields["type"].kind
      case StringKind => Text(TextMeaning(rule.fields))
      case Int64Kind => Whole
      case BoolKind => Truth
      case MapKind => if "sub_type" in rule.fields then Record(Meaning(rule.fields["sub_type"], action)) else UnfilledRecord
      case SliceKind => if "sub_type" in rule.fields then FilledList else List
      case _ => Unsupported;
    RuleWith(rule.fields, shape)
  }

  /** The typed schema that a compiled schema stands for under an action. */
  ghost function Meaning(schema: Value, action: string): Schema
    requires Formed(schema)
    decreases schema, 1
  {
    match RequirementOf(schema.fields, action)
    case Ok(requirement) =>
      var legend := schema.fields["legend"].fields;
      Schema(map k | k in legend :: RuleMeaning(legend[k], action),
             set i | 0 <= i < |requirement.fields| :: requirement.fields[i],
             requirement.anOptional)
    case _ => Undefined
  }

  // ---------------------------------------------------------------- the validator meets its meaning

  /** The outcome that a value or document deserves. */
  function Deserved<T>(conforms: bool, breaks: bool, normal: T): Outcome<T> {
    if conforms then Ok(normal) else if breaks then Panic else Err
  }

  lemma LengthAgrees(spec: Fields, n: nat)
    ensures var o := match Lookup(spec, "length") case Some(Arr(bounds)) => LengthOutcome(bounds, n as real) case _ => Ok(());
            o == Deserved(LengthFits(LengthMeaning(spec), n), LengthBreaks(LengthMeaning(spec), n), ())
  {
  }

  lemma EnumAgrees(spec: Fields, s: string)
    requires "enum" in spec
    ensures EnumOutcome(spec["enum"], s)
         == Deserved(Offers(ChoicesMeaning(spec), s), ChoicesMeaning(spec).IllTypedChoices?, ())
  {
    var choices := spec["enum"];
    if choices.Arr? && Str(s) in choices.elems {
      var i :| 0 <= i < |choices.elems| && choices.elems[i] == Str(s);
      assert choices.elems[i].s == s;
    }
  }

  lemma TextAgrees(isUuid: UuidParser, rule: Fields, v: Value)
    ensures var check := TextMeaning(rule);
            TextOutcome(isUuid, rule, v)
              == Deserved(v.Str? && TextFits(isUuid, check, v.s), v.Str? && TextBreaks(check, v.s),
                   if v.Str? && check.UuidText? then Uuid(v.s) else v)
  {
    match Lookup(rule, "additional_validation")
    case Some(Obj(spec)) =>
      if v.Str? {
        hide LengthMeaning;
        hide ChoicesMeaning;
        LengthAgrees(spec, |v.s|);
        if "enum" in spec {
          EnumAgrees(spec, v.s);
        } else {
          NoChoices(spec);
        }
      }
    case _ =>
  }

  lemma NoChoices(spec: Fields)
    requires "enum" !in spec
    ensures ChoicesMeaning(spec) == AnyChoice
  {
  }

  lemma {:induction false} FieldAgrees(isUuid: UuidParser, legend: Value, action: string, key: string, v: Value)
    requires legend.Obj? && key in legend.fields && RuleFormed(legend.fields[key])
    ensures var rule := RuleMeaning(legend.fields[key], action);
            FieldOutcome(isUuid, legend, action, key, v)
              == Deserved(ValueConforms(isUuid, rule, v), ValueBreaks(rule, v), Some(NormalValue(rule, v)))
    decreases legend, 0
  {
    hide TextOutcome;
    hide TextMeaning;
    hide TextFits;
    hide TextBreaks;
    hide Formed;
    hide Meaning;
    hide SchemaOutcome;
    hide Conforms;
    hide Breaks;
    hide Normal;
    var fields := legend.fields[key].fields;
    if !v.Null? && fields["type"].kind == StringKind {
      TextAgrees(isUuid, fields, v);
    } else if !v.Null? && fields["type"].kind == MapKind && "sub_type" in fields && v.Obj? {
      FormedIsMap(fields["sub_type"]);
      SchemaAgrees(isUuid, fields["sub_type"], action, v.fields);
    } else if "sub_type" in fields && fields["type"].kind == MapKind {
      FormedIsMap(fields["sub_type"]);
    }
  }

  lemma FormedIsMap(schema: Value)
    requires Formed(schema)
    ensures schema.Obj?
  {
  }

  /** The validator on any compiled schema: it accepts exactly the documents that conform to the schema's
      meaning and leaves their normal form, it may panic exactly on those that break it, and it rejects the
      others. */
  lemma {:induction false} SchemaAgrees(isUuid: UuidParser, schema: Value, action: string, doc: Fields)
    requires Formed(schema)
    ensures var meaning := Meaning(schema, action);
            SchemaOutcome(isUuid, schema, action, doc)
              == Deserved(Conforms(isUuid, meaning, doc), Breaks(meaning, doc), Normal(meaning, doc))
    decreases schema, 1
  {
    hide RequirementOf;
    hide LegendOutcome;
    hide FieldOutcome;
    hide ValueConforms;
    hide ValueBreaks;
    hide NormalValue;
    hide RuleFormed;
    hide RuleMeaning;
    hide Normal;
    RequirementNeverErrs(schema.fields, action);
    if RequirementOf(schema.fields, action).Ok? {
      var legend := schema.fields["legend"];
      var requirement := RequirementOf(schema.fields, action).value;
      var meaning := Meaning(schema, action);
      forall k | k in doc && k in legend.fields
        ensures FieldOutcome(isUuid, legend, action, k, doc[k])
             == Deserved(ValueConforms(isUuid, meaning.legend[k], doc[k]), ValueBreaks(meaning.legend[k], doc[k]),
                  Some(NormalValue(meaning.legend[k], doc[k])))
      {
        FieldAgrees(isUuid, legend, action, k, doc[k]);
      }
      RulesAreMaps(schema);
      forall k | k in doc && k in legend.fields
        ensures !(ValueConforms(isUuid, meaning.legend[k], doc[k]) && ValueBreaks(meaning.legend[k], doc[k]))
      {
        ValueNotBoth(isUuid, meaning.legend[k], doc[k]);
      }
      LegendAgrees(isUuid, legend, action, meaning, doc);
      RequirementAgrees(doc, legend.fields, requirement, meaning);
    }
  }

  lemma RequirementNeverErrs(schema: Fields, action: string)
    ensures !RequirementOf(schema, action).Err?
  {
  }

  lemma RulesAreMaps(schema: Value)
    requires Formed(schema)
    ensures forall k | k in schema.fields["legend"].fields :: schema.fields["legend"].fields[k].Obj?
  {
  }

  lemma RequirementAgrees(doc: Fields, legend: Fields, requirement: Requirement, meaning: Schema)
    requires meaning.Schema? && meaning.legend.Keys == legend.Keys && meaning.anOptional == requirement.anOptional
    requires meaning.required == set i | 0 <= i < |requirement.fields| :: requirement.fields[i]
    ensures Admits(meaning, doc)
       <==> HasRequired(doc, requirement.fields) && (requirement.anOptional ==> HasOptional(doc, legend, requirement.fields))
  {
    forall k
      ensures k in requirement.fields <==> k in meaning.required
    {
    }
  }

  /** The loop: all known fields conform, or one of them breaks, or neither. */
  lemma LegendAgrees(isUuid: UuidParser, legend: Value, action: string, meaning: Schema, doc: Fields)
    requires legend.Obj? && meaning.Schema? && meaning.legend.Keys == legend.fields.Keys
    requires forall k | k in legend.fields :: legend.fields[k].Obj?
    requires forall k | k in doc && k in legend.fields ::
               FieldOutcome(isUuid, legend, action, k, doc[k])
               == Deserved(ValueConforms(isUuid, meaning.legend[k], doc[k]), ValueBreaks(meaning.legend[k], doc[k]),
                    Some(NormalValue(meaning.legend[k], doc[k])))
    requires forall k | k in doc && k in legend.fields ::
               !(ValueConforms(isUuid, meaning.legend[k], doc[k]) && ValueBreaks(meaning.legend[k], doc[k]))
    ensures LegendOutcome(isUuid, legend, action, doc)
         == Deserved(forall k | k in doc && k in meaning.legend :: ValueConforms(isUuid, meaning.legend[k], doc[k]),
              exists k :: k in doc && k in meaning.legend && ValueBreaks(meaning.legend[k], doc[k]),
              Normal(meaning, doc))
  {
    hide ValueConforms;
    hide ValueBreaks;
    hide NormalValue;
    hide Normal;
    UnknownFields(isUuid, legend, action, doc);
    if forall k | k in doc && k in meaning.legend :: ValueConforms(isUuid, meaning.legend[k], doc[k]) {
      AllKept(isUuid, legend, action, meaning, doc);
    } else {
      hide FieldOutcome;
      var k :| k in doc && k in meaning.legend && !ValueConforms(isUuid, meaning.legend[k], doc[k]);
      assert !FieldOutcome(isUuid, legend, action, k, doc[k]).Ok?;
    }
  }

  lemma AllKept(isUuid: UuidParser, legend: Value, action: string, meaning: Schema, doc: Fields)
    requires legend.Obj? && meaning.Schema? && meaning.legend.Keys == legend.fields.Keys
    requires forall k | k in doc && k in legend.fields ::
               FieldOutcome(isUuid, legend, action, k, doc[k]) == Ok(Some(NormalValue(meaning.legend[k], doc[k])))
    ensures LegendOutcome(isUuid, legend, action, doc) == Ok(Normal(meaning, doc))
  {
    hide NormalValue;
    UnknownFields(isUuid, legend, action, doc);
    hide FieldOutcome;
    var o := LegendOutcome(isUuid, legend, action, doc);
    assert o.Ok?;
    assert o.value == Normal(meaning, doc);
  }

  lemma UnknownFields(isUuid: UuidParser, legend: Value, action: string, doc: Fields)
    requires legend.Obj?
    ensures forall k | k in doc && k !in legend.fields :: FieldOutcome(isUuid, legend, action, k, doc[k]) == Ok(None)
  {
  }
}
