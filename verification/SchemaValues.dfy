/** The dynamically typed values that the validation package works on: decoded JSON, and what the schema
    compiler and the validator put in its place.
  */
module SchemaValues {
  import opened Wrappers
  import opened Decimals

  /** The values of reflect.Kind that the package distinguishes. */
  datatype Kind = StringKind | Int64Kind | Float64Kind | BoolKind | MapKind | SliceKind | OtherKind

  type Fields = map<string, Value>

  /** An interface{}: nil, the types of encoding/json, int64, uuid.UUID, reflect.Kind and []string. */
  datatype Value =
    | Null
    | Str(s: string)
    | Num(r: real)
    | Flag(b: bool)
    | Arr(elems: seq<Value>)
    | Obj(fields: map<string, Value>)
    | Int(i: int)
    | Uuid(text: string)
    | KindOf(kind: Kind)
    | Names(names: seq<string>)

  /** A Go call that may return an error or panic. */
  datatype Outcome<+T> = Ok(value: T) | Err | Panic

  /** `reflect.TypeOf(v).Kind()`, which panics on nil. */
  function GoKind(v: Value): Kind
    requires !v.Null?
  {
    match v
    case Str(_) => StringKind
    case Num(_) => Float64Kind
    case Flag(_) => BoolKind
    case Arr(_) => SliceKind
    case Obj(_) => MapKind
    case Int(_) => Int64Kind
    case Names(_) => SliceKind
    case _ => OtherKind
  }

  // ---------------------------------------------------------------- strconv.ParseInt(s, 10, 64)

  function ParseInt(s: string): (r: Option<int>)
    ensures r.Some? ==> -0x8000_0000_0000_0000 <= r.value < 0x8000_0000_0000_0000
  {
    if s == "" then None
    else
      var negative := s[0] == '-';
      var magnitude := Number(if s[0] == '-' || s[0] == '+' then s[1..] else s);
      if magnitude.None? then None
      else
        var m: int := magnitude.value;
        var n := if negative then -m else m;
        if -0x8000_0000_0000_0000 <= n < 0x8000_0000_0000_0000 then Some(n) else None
  }
}
