/** What InitSchema accepts and what it makes of a schema. */
module CompilerRules {
  import opened Wrappers
  import opened SchemaValues
  import opened ValidationRules

  // ---------------------------------------------------------------- the checks

  /** simpleIntrospection for strings: the first offending element decides. */
  function StringsOutcome(elems: seq<Value>): Outcome<()> {
    if elems == [] then Ok(())
    else if elems[0].Null? then Panic
    else if GoKind(elems[0]) != StringKind then Err
    else StringsOutcome(elems[1..])
  }

  /** One entry of an action's map. */
  function EntryOutcome(key: string, v: Value): Outcome<()> {
    if key == "fields" then
      if v.Null? then Panic
      else if GoKind(v) != SliceKind then Err
      else if !v.Arr? then Panic
      else StringsOutcome(v.elems)
    else if key == "require_an_optional" then
      if v.Null? then Panic else if v.Flag? then Ok(()) else Err
    else Ok(())
  }

  /** The combined outcome of a loop over a map: where one turn panics and another is in error, the order
      decides, and the outcome is Panic. */
  function Joined(outcomes: map<string, Outcome<()>>): Outcome<()> {
    if exists k :: k in outcomes && outcomes[k].Panic? then Panic
    else if exists k :: k in outcomes && outcomes[k].Err? then Err
    else Ok(())
  }

  function ActionOutcome(config: Value): Outcome<()> {
    if config.Null? then Panic
    else if !config.Obj? then Err
    else Joined(map k | k in config.fields :: EntryOutcome(k, config.fields[k]))
  }

  function RequiredOutcome(required: Fields): Outcome<()> {
    if !("initial" in required && "all" in required) then Err
    else Joined(map k | k in required && k != "_comment" :: ActionOutcome(required[k]))
  }

  /** reflect.Kind of a type name. */
  function KindNamed(name: string): Option<Kind> {
    match name
    case "string" => Some(StringKind)
    case "int" => Some(Int64Kind)
    case "float" => Some(Float64Kind)
    case "bool" => Some(BoolKind)
    case "array" => Some(SliceKind)
    case "hashmap" => Some(MapKind)
    case _ => None
  }

  predicate HasSubSection(rule: Fields) {
    && "sub_type" in rule
    && (Lookup(rule, "type") == Some(Str("array")) || Lookup(rule, "type") == Some(Str("hashmap")))
  }

  /** The checks on a type definition before its sub-section. */
  function DefinitionOutcome(rule: Fields): Outcome<()> {
    match Lookup(rule, "type")
    case None => Err
    case Some(Str(name)) =>
      if KindNamed(name).None? then Err
      else if name == "array" then
        if "sub_type" in rule then
          if rule["sub_type"].Null? then Panic else if rule["sub_type"].Obj? then Ok(()) else Err
        else if "introspect" in rule then
          (match Lookup(rule, "additional_validation")
           case None => Err
           case Some(Null) => Panic
           case Some(Str(_)) => Ok(())
           case Some(_) => Err)
        else Err
      else Ok(())
    case Some(_) => Panic
  }

  function RuleOutcome(rule: Value): Outcome<()>
    decreases rule, 0
  {
    if rule.Null? then Panic
    else if !rule.Obj? then Err
    else
      var checked := DefinitionOutcome(rule.fields);
      if !checked.Ok? || !HasSubSection(rule.fields) then checked
      else if !rule.fields["sub_type"].Obj? then Panic
      else SectionOutcome(rule.fields["sub_type"])
  }

  function MapOutcome(v: Option<Value>): Outcome<()> {
    match v
    case None => Err
    case Some(Null) => Panic
    case Some(Obj(_)) => Ok(())
    case Some(_) => Err
  }

  function RuleOutcomes(legend: Value): map<string, Outcome<()>>
    requires legend.Obj?
    decreases legend, 1
  {
    map k | k in legend.fields :: RuleOutcome(legend.fields[k])
  }

  /** parseSubSection. */
  function SectionOutcome(section: Value): Outcome<()>
    requires section.Obj?
    decreases section, 2
  {
    var legend, required := MapOutcome(Lookup(section.fields, "legend")), MapOutcome(Lookup(section.fields, "required_fields"));
    if !legend.Ok? then legend
    else if !required.Ok? then required
    else
      var r := RequiredOutcome(section.fields["required_fields"].fields);
      if !r.Ok? then r else Joined(RuleOutcomes(section.fields["legend"]))
  }

  // ---------------------------------------------------------------- the result

  function FieldsOf(config: Fields): set<string> {
    match Lookup(config, "fields")
    case Some(Arr(elems)) => set i | 0 <= i < |elems| && elems[i].Str? :: elems[i].s
    case _ => {}
  }

  function Override(config: Fields, inherited: bool): bool {
    match Lookup(config, "require_an_optional")
    case Some(Flag(b)) => b
    case _ => inherited
  }

  /** The required fields of an action: its own and those of the two shared layers. */
  function UnionFields(initial: Fields, config: Fields, all: Fields): set<string> {
    FieldsOf(initial) + FieldsOf(config) + FieldsOf(all)
  }

  /** `all` overrides the action, which overrides `initial`; false if none of them says. */
  function LayeredOptional(initial: Fields, config: Fields, all: Fields): bool {
    Override(all, Override(config, Override(initial, false)))
  }

  predicate Listing(names: seq<string>, s: set<string>) {
    && (forall i | 0 <= i < |names| :: names[i] in s)
    && (forall x | x in s :: x in names)
    && (forall i, j | 0 <= i < j < |names| :: names[i] != names[j])
  }

  /** An action's map after compilation; the order of its field list is that of a map iteration. */
  predicate ActionCompiled(initial: Fields, config: Fields, all: Fields, after: Value) {
    && after.Obj? && after.fields.Keys == {"fields", "require_an_optional"}
    && after.fields["fields"].Names? && Listing(after.fields["fields"].names, UnionFields(initial, config, all))
    && after.fields["require_an_optional"] == Flag(LayeredOptional(initial, config, all))
  }

  function Actions(required: Fields): set<string> {
    required.Keys - {"_comment", "initial", "all"}
  }

  predicate RequiredCompiled(required: Fields, after: Fields)
    requires RequiredOutcome(required).Ok?
  {
    && after.Keys == Actions(required)
    && forall k | k in after ::
         required[k].Obj? && required["initial"].Obj? && required["all"].Obj? &&
         ActionCompiled(required["initial"].fields, required[k].fields, required["all"].fields, after[k])
  }

  predicate RuleCompiled(rule: Value, after: Value)
    requires RuleOutcome(rule).Ok?
    decreases rule, 0
  {
    && rule.Obj? && after.Obj?
    && after.fields.Keys == rule.fields.Keys
    && "type" in rule.fields && rule.fields["type"].Str?
    && (forall k | k in rule.fields && k != "type" && !(k == "sub_type" && HasSubSection(rule.fields)) ::
          after.fields[k] == rule.fields[k])
    && Some(after.fields["type"]) == (match KindNamed(rule.fields["type"].s) case Some(kind) => Some(KindOf(kind)) case None => None)
    && (HasSubSection(rule.fields) ==> SectionCompiled(rule.fields["sub_type"], after.fields["sub_type"]))
  }

  predicate SectionCompiled(section: Value, after: Value)
    requires section.Obj? && SectionOutcome(section).Ok?
    decreases section, 1
  {
    && after.Obj? && after.fields.Keys == section.fields.Keys
    && (forall k | k in section.fields && k != "legend" && k != "required_fields" :: after.fields[k] == section.fields[k])
    && after.fields["required_fields"].Obj? && after.fields["legend"].Obj?
    && RequiredCompiled(section.fields["required_fields"].fields, after.fields["required_fields"].fields)
    && var before, now := section.fields["legend"].fields, after.fields["legend"].fields;
       && now.Keys == before.Keys
       && forall k | k in before :: RuleOutcome(before[k]).Ok? && RuleCompiled(before[k], now[k])
  }
}
