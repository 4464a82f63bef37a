/** What ValidateWithSchema does with a compiled schema, type assertion by type assertion. */
module ValidationRules {
  import opened Wrappers
  import opened SchemaValues

  /** `uuid.FromString` accepts a text or not. */
  type UuidParser = string -> bool

  function Lookup(fields: Fields, key: string): Option<Value> {
    if key in fields then Some(fields[key]) else None
  }

  datatype Requirement = Requirement(fields: seq<string>, anOptional: bool)

  /** The requirement of the action, or of `default`; a missing or ill-typed part panics. */
  function RequirementOf(schema: Fields, action: string): Outcome<Requirement> {
    match Lookup(schema, "required_fields")
    case Some(Obj(required)) =>
      var entry := if action in required then Lookup(required, action) else Lookup(required, "default");
      (match entry
       case Some(Obj(r)) =>
         (match (Lookup(r, "fields"), Lookup(r, "require_an_optional"))
          case (Some(Names(names)), Some(Flag(b))) => Ok(Requirement(names, b))
          case _ => Panic)
       case _ => Panic)
    case _ => Panic
  }

  predicate HasRequired(input: Fields, required: seq<string>) {
    forall i | 0 <= i < |required| :: required[i] in input
  }

  predicate HasOptional(input: Fields, legend: Fields, required: seq<string>) {
    exists k :: k in legend && k !in required && k in input
  }

  /** The `length` rule on a text of n characters.  A text that misses an exact length panics while the error
      message is built. */
  function LengthOutcome(spec: seq<Value>, n: real): Outcome<()> {
    if |spec| == 1 && spec[0].Null? then Panic
    else if |spec| == 1 && spec[0].Num? then
      if n == spec[0].r then Ok(()) else Panic
    else if |spec| == 2 then
      var lower, upper := spec[0], spec[1];
      if lower.Null? || upper.Null? then Panic
      else if lower.Num? && upper.Num? && lower.r >= upper.r then Err
      else if lower.Str? && lower.s != "min" then Err
      else if upper.Str? && upper.s != "max" then Err
      else if lower.Num? && n < lower.r then Err
      else if upper.Num? && n > upper.r then Err
      else Ok(())
    else Err
  }

  function EnumOutcome(choices: Value, s: string): Outcome<()> {
    if !choices.Arr? || exists i :: 0 <= i < |choices.elems| && !choices.elems[i].Str? then Panic
    else if Str(s) in choices.elems then Ok(())
    else Err
  }

  /** The `enum` and `length` rules, in this order. */
  function RestrictionOutcome(spec: Fields, s: string): Outcome<()> {
    var chosen := if "enum" in spec then EnumOutcome(spec["enum"], s) else Ok(());
    if !chosen.Ok? then chosen
    else
      match Lookup(spec, "length")
      case Some(Arr(bounds)) => LengthOutcome(bounds, |s| as real)
      case _ => Ok(())
  }

  function TextOutcome(isUuid: UuidParser, rule: Fields, v: Value): Outcome<Value> {
    if !v.Str? then Err
    else
      match Lookup(rule, "additional_validation")
      case None => Ok(v)
      case Some(Null) => Panic
      case Some(Str(name)) =>
        if name == "UUID" then (if isUuid(v.s) then Ok(Uuid(v.s)) else Err) else Ok(v)
      case Some(Obj(spec)) =>
        (match RestrictionOutcome(spec, v.s)
         case Ok(_) => Ok(v)
         case Err => Err
         case Panic => Panic)
      case Some(_) => Ok(v)
  }

  function IntOutcome(v: Value): Outcome<Value> {
    match v
    case Int(_) => Ok(v)
    case Str(s) => (match ParseInt(s) case Some(i) => Ok(Int(i)) case None => Err)
    case _ => Err
  }

  function NullAllowed(rule: Fields): Outcome<bool> {
    match Lookup(rule, "null_ok")
    case Some(Null) => Panic
    case Some(Flag(b)) => Ok(b)
    case _ => Ok(false)
  }

  /** One turn of the loop of ValidateWithLegend: the key is deleted (None) or keeps a value, or the loop ends
      with an error or a panic. */
  function FieldOutcome(isUuid: UuidParser, legend: Value, action: string, key: string, v: Value): Outcome<Option<Value>>
    requires legend.Obj?
    decreases legend, 0
  {
    if key !in legend.fields || !legend.fields[key].Obj? then Ok(None)
    else
      var rule := legend.fields[key].fields;
      var nullOk := NullAllowed(rule);
      if "type" !in rule then Err
      else if nullOk.Panic? then Panic
      else if v.Null? then (if nullOk == Ok(true) then Ok(Some(Null)) else Err)
      else
        match rule["type"]
        case KindOf(StringKind) => Kept(TextOutcome(isUuid, rule, v))
        case KindOf(Int64Kind) => Kept(IntOutcome(v))
        case KindOf(BoolKind) => if v.Flag? then Ok(Some(v)) else Err
        case KindOf(MapKind) =>
          if !v.Obj? then Err
          else if "sub_type" !in rule || !rule["sub_type"].Obj? then Panic
          else
            (match SchemaOutcome(isUuid, rule["sub_type"], action, v.fields)
             case Ok(fields) => Ok(Some(Obj(fields)))
             case Err => Err
             case Panic => Panic)
        case KindOf(SliceKind) =>
          if GoKind(v) != SliceKind then Err
          else if "sub_type" in rule then Panic
          else Ok(Some(v))
        case KindOf(_) => Err
        case _ => Panic
  }

  function Kept(o: Outcome<Value>): Outcome<Option<Value>> {
    match o
    case Ok(v) => Ok(Some(v))
    case Err => Err
    case Panic => Panic
  }

  /** The whole loop.  Where one key panics and another is in error, the order of iteration decides; such an
      input is a Panic here. */
  function LegendOutcome(isUuid: UuidParser, legend: Value, action: string, input: Fields): Outcome<Fields>
    requires legend.Obj?
    decreases legend, 1
  {
    if exists k :: k in input && FieldOutcome(isUuid, legend, action, k, input[k]).Panic? then Panic
    else if exists k :: k in input && FieldOutcome(isUuid, legend, action, k, input[k]).Err? then Err
    else
      Ok(map k | k in input && FieldOutcome(isUuid, legend, action, k, input[k]).value.Some?
           :: FieldOutcome(isUuid, legend, action, k, input[k]).value.value)
  }

  function SchemaOutcome(isUuid: UuidParser, schema: Value, action: string, input: Fields): Outcome<Fields>
    requires schema.Obj?
    decreases schema, 2
  {
    match RequirementOf(schema.fields, action)
    case Panic => Panic
    case Err => Err
    case Ok(requirement) =>
      if !HasRequired(input, requirement.fields) then Err
      else
        match Lookup(schema.fields, "legend")
        case Some(Obj(legend)) =>
          if requirement.anOptional && !HasOptional(input, legend, requirement.fields) then Err
          else LegendOutcome(isUuid, schema.fields["legend"], action, input)
        case _ => Panic
  }

  // ---------------------------------------------------------------- errors that an order may find first

  /** A turn of the loop may end with an error. In a nested map an error may be met before a panic. */
  predicate FieldMayReject(isUuid: UuidParser, legend: Value, action: string, key: string, v: Value)
    requires legend.Obj?
    decreases legend, 0
  {
    if key !in legend.fields || !legend.fields[key].Obj? then false
    else
      var rule := legend.fields[key].fields;
      if "type" !in rule then true
      else if NullAllowed(rule).Panic? then false
      else if v.Null? then NullAllowed(rule) != Ok(true)
      else
        match rule["type"]
        case KindOf(StringKind) => TextOutcome(isUuid, rule, v).Err?
        case KindOf(Int64Kind) => IntOutcome(v).Err?
        case KindOf(BoolKind) => !v.Flag?
        case KindOf(MapKind) =>
          !v.Obj? || ("sub_type" in rule && rule["sub_type"].Obj? && SchemaMayReject(isUuid, rule["sub_type"], action, v.fields))
        case KindOf(SliceKind) => GoKind(v) != SliceKind
        case KindOf(_) => true
        case _ => false
  }

  predicate LegendMayReject(isUuid: UuidParser, legend: Value, action: string, input: Fields)
    requires legend.Obj?
    decreases legend, 1
  {
    exists k :: k in input && FieldMayReject(isUuid, legend, action, k, input[k])
  }

  predicate SchemaMayReject(isUuid: UuidParser, schema: Value, action: string, input: Fields)
    requires schema.Obj?
    decreases schema, 2
  {
    match RequirementOf(schema.fields, action)
    case Ok(requirement) =>
      || !HasRequired(input, requirement.fields)
      || (match Lookup(schema.fields, "legend")
          case Some(Obj(legend)) =>
            || (requirement.anOptional && !HasOptional(input, legend, requirement.fields))
            || LegendMayReject(isUuid, schema.fields["legend"], action, input)
          case _ => false)
    case _ => false
  }
}
