/** The validation loops of validation.go, in place on a document.  Go ranges over a map in any order; so does
    every loop here, at every nesting level.
  */
module Validator {
  import opened Wrappers
  import opened SchemaValues
  import opened ValidationRules

  datatype Verdict = Accepted | Rejected | Panicked

  /** A map[string]interface{}. */
  class Document {
    var fields: Fields

    constructor (fields: Fields)
      ensures this.fields == fields
    {
      this.fields := fields;
    }
  }

  /** What a verdict may be for an outcome: where a panic is possible, either it or an error found first. */
  predicate Agrees<T>(o: Outcome<T>, verdict: Verdict) {
    match o
    case Ok(_) => verdict == Accepted
    case Err => verdict == Rejected
    case Panic => verdict != Accepted
  }

  function VerdictOf<T>(o: Outcome<T>): Verdict {
    match o
    case Ok(_) => Accepted
    case Err => Rejected
    case Panic => Panicked
  }

  /** The verdicts that an order of the keys can lead to: a panic only where one is possible, an error instead
      of it only where one may be met first. */
  predicate Possible<T>(o: Outcome<T>, mayReject: bool, verdict: Verdict) {
    && Agrees(o, verdict)
    && (verdict == Panicked ==> o.Panic?)
    && (verdict == Rejected ==> mayReject)
  }

  method ValidateRequiredFields(input: Document, required: seq<string>) returns (missing: bool)
    ensures missing == !HasRequired(input.fields, required)
  {
    missing := false;
    for i := 0 to |required|
      invariant forall j | 0 <= j < i :: required[j] in input.fields
    {
      if required[i] !in input.fields {
        return true;
      }
    }
  }

  method ValidateAnOptionalField(input: Document, legend: Fields, required: seq<string>) returns (missing: bool)
    ensures missing == !HasOptional(input.fields, legend, required)
  {
    var hasOptional := false;
    var remaining := legend.Keys;
    while remaining != {}
      invariant remaining <= legend.Keys
      invariant hasOptional <==> exists k :: k in legend.Keys - remaining && k !in required && k in input.fields
    {
      var k :| k in remaining;
      var isOptional := true;
      for i := 0 to |required|
        invariant isOptional <==> k !in required[..i]
      {
        if k == required[i] {
          isOptional := false;
        }
      }
      assert required[..|required|] == required;
      if isOptional && k in input.fields {
        hasOptional := true;
      }
      remaining := remaining - {k};
    }
    missing := !hasOptional;
  }

  /** The enum loop: every choice is asserted to be a string, also after a match. */
  method CheckEnum(choices: Value, s: string) returns (verdict: Verdict)
    ensures verdict == VerdictOf(EnumOutcome(choices, s))
  {
    if !choices.Arr? {
      return Panicked;
    }
    var valueFound := false;
    for i := 0 to |choices.elems|
      invariant forall j | 0 <= j < i :: choices.elems[j].Str?
      invariant valueFound <==> exists j :: 0 <= j < i && choices.elems[j] == Str(s)
    {
      if !choices.elems[i].Str? {
        return Panicked;
      }
      if s == choices.elems[i].s {
        valueFound := true;
      }
    }
    verdict := if valueFound then Accepted else Rejected;
  }

  method CheckText(isUuid: UuidParser, rule: Fields, v: Value) returns (verdict: Verdict, kept: Value)
    ensures verdict == VerdictOf(TextOutcome(isUuid, rule, v))
    ensures verdict == Accepted ==> TextOutcome(isUuid, rule, v) == Ok(kept)
  {
    kept := v;
    if !v.Str? {
      return Rejected, kept;
    }
    match Lookup(rule, "additional_validation") {
      case None =>
        verdict := Accepted;
      case Some(Null) =>
        verdict := Panicked;
      case Some(Str(name)) =>
        if name == "UUID" {
          if !isUuid(v.s) {
            return Rejected, kept;
          }
          kept := Uuid(v.s);
        }
        verdict := Accepted;
      case Some(Obj(spec)) =>
        verdict := Accepted;
        if "enum" in spec {
          verdict := CheckEnum(spec["enum"], v.s);
        }
        if verdict == Accepted {
          match Lookup(spec, "length") {
            case Some(Arr(bounds)) =>
              verdict := VerdictOf(LengthOutcome(bounds, |v.s| as real));
            case _ =>
          }
        }
      case Some(_) =>
        verdict := Accepted;
    }
  }

  /** One turn of the loop for a key that the legend knows: type check, coercion in place, and the recursion
      into a nested map, whose changes stay even when it fails. */
  method CheckField(isUuid: UuidParser, input: Document, legend: Value, action: string, key: string)
    returns (verdict: Verdict)
    requires legend.Obj? && key in input.fields
    requires key in legend.fields && legend.fields[key].Obj?
    modifies input
    ensures var o := FieldOutcome(isUuid, legend, action, key, old(input.fields)[key]);
            && Possible(o, FieldMayReject(isUuid, legend, action, key, old(input.fields)[key]), verdict)
            && (verdict == Accepted ==> o.value.Some? && input.fields == old(input.fields)[key := o.value.value])
    ensures input.fields - {key} == old(input.fields) - {key}
    decreases legend, 0
  {
    var rule := legend.fields[key].fields;
    var v := input.fields[key];
    if "type" !in rule {
      return Rejected;
    }
    var nullOk := NullAllowed(rule);
    if nullOk.Panic? {
      return Panicked;
    }
    if v.Null? {
      if nullOk == Ok(true) {
        assert input.fields == input.fields[key := Null];
        return Accepted;
      }
      return Rejected;
    }
    match rule["type"] {
      case KindOf(StringKind) =>
        var kept;
        verdict, kept := CheckText(isUuid, rule, v);
        if verdict == Accepted {
          input.fields := input.fields[key := kept];
        }
      case KindOf(Int64Kind) =>
        if v.Str? {
          var parsed := ParseInt(v.s);
          if parsed.None? {
            return Rejected;
          }
          v := Int(parsed.value);
        }
        if !v.Int? {
          return Rejected;
        }
        input.fields := input.fields[key := v];
        verdict := Accepted;
      case KindOf(BoolKind) =>
        verdict := if v.Flag? then Accepted else Rejected;
        assert input.fields == input.fields[key := v];
      case KindOf(MapKind) =>
        if !v.Obj? {
          return Rejected;
        }
        if "sub_type" !in rule || !rule["sub_type"].Obj? {
          return Panicked;
        }
        var nested := new Document(v.fields);
        verdict := ValidateWithSchema(isUuid, nested, rule["sub_type"], action);
        input.fields := input.fields[key := Obj(nested.fields)];
      case KindOf(SliceKind) =>
        if GoKind(v) != SliceKind {
          return Rejected;
        }
        if "sub_type" in rule {
          return Panicked;
        }
        verdict := Accepted;
        assert input.fields == input.fields[key := v];
      case KindOf(_) =>
        verdict := Rejected;
      case _ =>
        verdict := Panicked;
    }
  }

  /** One turn of the loop: a key that the legend does not know is deleted. */
  method HandleKey(isUuid: UuidParser, input: Document, legend: Value, action: string, key: string)
    returns (verdict: Verdict)
    requires legend.Obj? && key in input.fields
    modifies input
    ensures Possible(FieldOutcome(isUuid, legend, action, key, old(input.fields)[key]),
              FieldMayReject(isUuid, legend, action, key, old(input.fields)[key]), verdict)
    ensures input.fields - {key} == old(input.fields) - {key}
    ensures verdict == Accepted ==>
              input.fields
              == WithKept(old(input.fields), key, FieldOutcome(isUuid, legend, action, key, old(input.fields)[key]).value)
    decreases legend, 1
  {
    if key !in legend.fields || !legend.fields[key].Obj? {
      input.fields := input.fields - {key};
      return Accepted;
    }
    verdict := CheckField(isUuid, input, legend, action, key);
  }

  function WithKept(fields: Fields, key: string, kept: Option<Value>): Fields {
    if kept.Some? then fields[key := kept.value] else fields - {key}
  }

  /** The document once the keys of `done` have been handled. */
  ghost predicate HandledSoFar(isUuid: UuidParser, legend: Value, action: string, before: Fields, done: set<string>, now: Fields)
    requires legend.Obj?
  {
    && (forall k | k in done :: k in before && FieldOutcome(isUuid, legend, action, k, before[k]).Ok?)
    && (forall k | k in before && k !in done :: k in now && now[k] == before[k])
    && (forall k | k in done ::
          var kept := FieldOutcome(isUuid, legend, action, k, before[k]).value;
          if kept.Some? then k in now && now[k] == kept.value else k !in now)
    && now.Keys <= before.Keys
  }

  lemma HandleOneMore(isUuid: UuidParser, legend: Value, action: string, before: Fields, done: set<string>, now: Fields, key: string)
    requires legend.Obj? && HandledSoFar(isUuid, legend, action, before, done, now)
    requires key in before && key !in done && FieldOutcome(isUuid, legend, action, key, before[key]).Ok?
    ensures HandledSoFar(isUuid, legend, action, before, done + {key},
                         WithKept(now, key, FieldOutcome(isUuid, legend, action, key, before[key]).value))
  {
    hide FieldOutcome;
  }

  lemma HandledAll(isUuid: UuidParser, legend: Value, action: string, before: Fields, now: Fields)
    requires legend.Obj? && HandledSoFar(isUuid, legend, action, before, before.Keys, now)
    ensures LegendOutcome(isUuid, legend, action, before) == Ok(now)
  {
    hide FieldOutcome;
    var o := LegendOutcome(isUuid, legend, action, before);
    assert o.Ok?;
    forall k
      ensures k in o.value <==> k in now
      ensures k in now ==> o.value[k] == now[k]
    {
      if k in before {
        assert FieldOutcome(isUuid, legend, action, k, before[k]).Ok?;
      }
    }
    assert o.value == now;
  }

  /** What a document that was not accepted is left with: some keys have been handled, the one in hand may hold
      a half-handled value, and the others are as they were. */
  ghost predicate StoppedAt(isUuid: UuidParser, legend: Value, action: string, before: Fields, done: set<string>, bad: string, now: Fields)
    requires legend.Obj?
  {
    && bad in before && bad !in done && !FieldOutcome(isUuid, legend, action, bad, before[bad]).Ok?
    && HandledSoFar(isUuid, legend, action, before, done, now[bad := before[bad]])
  }

  ghost predicate StoppedAtSome(isUuid: UuidParser, legend: Value, action: string, before: Fields, now: Fields)
    requires legend.Obj?
  {
    exists done, bad :: StoppedAt(isUuid, legend, action, before, done, bad, now)
  }

  lemma StopHere(isUuid: UuidParser, legend: Value, action: string, before: Fields, done: set<string>, bad: string,
                 left: Fields, now: Fields)
    requires legend.Obj? && HandledSoFar(isUuid, legend, action, before, done, left)
    requires bad in before && bad !in done && !FieldOutcome(isUuid, legend, action, bad, before[bad]).Ok?
    requires now - {bad} == left - {bad}
    ensures StoppedAtSome(isUuid, legend, action, before, now)
  {
    hide FieldOutcome;
    hide HandledSoFar;
    forall k
      ensures k in now[bad := before[bad]] <==> (k in left && k != bad) || k == bad
      ensures k in left && k != bad ==> now[bad := before[bad]][k] == left[k]
    {
      assert k in now - {bad} <==> k in left - {bad};
      assert k in left - {bad} ==> (left - {bad})[k] == (now - {bad})[k];
    }
    assert left[bad := before[bad]] == now[bad := before[bad]];
    RestoreBad(isUuid, legend, action, before, done, bad, left);
    assert StoppedAt(isUuid, legend, action, before, done, bad, now);
  }

  lemma RestoreBad(isUuid: UuidParser, legend: Value, action: string, before: Fields, done: set<string>, bad: string, now: Fields)
    requires legend.Obj? && HandledSoFar(isUuid, legend, action, before, done, now) && bad in before && bad !in done
    ensures HandledSoFar(isUuid, legend, action, before, done, now[bad := before[bad]])
  {
    hide FieldOutcome;
    assert now[bad := before[bad]] == now;
  }

  /** The loop over the input.  It deletes and overwrites only the key in hand, so each key of the input is
      visited once, in whatever order. */
  method ValidateWithLegend(isUuid: UuidParser, input: Document, legend: Value, action: string) returns (verdict: Verdict)
    requires legend.Obj?
    modifies input
    ensures Possible(LegendOutcome(isUuid, legend, action, old(input.fields)),
              LegendMayReject(isUuid, legend, action, old(input.fields)), verdict)
    ensures verdict == Accepted ==> LegendOutcome(isUuid, legend, action, old(input.fields)) == Ok(input.fields)
    ensures verdict != Accepted ==> StoppedAtSome(isUuid, legend, action, old(input.fields), input.fields)
    decreases legend, 2
  {
    hide FieldOutcome;
    hide FieldMayReject;
    ghost var before := input.fields;
    ghost var done: set<string> := {};
    var remaining := input.fields.Keys;
    while remaining != {}
      invariant done + remaining == before.Keys && done !! remaining
      invariant HandledSoFar(isUuid, legend, action, before, done, input.fields)
    {
      var key :| key in remaining;
      remaining := remaining - {key};
      ghost var now := input.fields;
      verdict := HandleKey(isUuid, input, legend, action, key);
      if verdict != Accepted {
        StopHere(isUuid, legend, action, before, done, key, now, input.fields);
        return;
      }
      HandleOneMore(isUuid, legend, action, before, done, now, key);
      done := done + {key};
    }
    HandledAll(isUuid, legend, action, before, input.fields);
    verdict := Accepted;
  }

  method ValidateWithSchema(isUuid: UuidParser, input: Document, schema: Value, action: string) returns (verdict: Verdict)
    requires schema.Obj?
    modifies input
    ensures Possible(SchemaOutcome(isUuid, schema, action, old(input.fields)),
              SchemaMayReject(isUuid, schema, action, old(input.fields)), verdict)
    ensures verdict == Accepted ==> SchemaOutcome(isUuid, schema, action, old(input.fields)) == Ok(input.fields)
    ensures verdict != Accepted ==>
              input.fields == old(input.fields) ||
              ("legend" in schema.fields && schema.fields["legend"].Obj? &&
               StoppedAtSome(isUuid, schema.fields["legend"], action, old(input.fields), input.fields))
    decreases schema, 3
  {
    var requirement := RequirementOf(schema.fields, action);
    if requirement.Panic? {
      return Panicked;
    }
    var missing := ValidateRequiredFields(input, requirement.value.fields);
    if missing {
      return Rejected;
    }
    match Lookup(schema.fields, "legend") {
      case Some(Obj(legend)) =>
        if requirement.value.anOptional {
          missing := ValidateAnOptionalField(input, legend, requirement.value.fields);
          if missing {
            return Rejected;
          }
        }
        verdict := ValidateWithLegend(isUuid, input, schema.fields["legend"], action);
      case _ =>
        verdict := Panicked;
    }
  }
}
