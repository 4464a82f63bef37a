/** The single-partition topic both consumers read. */
module MessageLog {
  import opened Wrappers
  import opened PageviewStore

  /** A message after JSON decoding: a `content_pageview` with its two text fields, a document of another
      type, or one on which jsoncpp raises a LogicError. */
  datatype Payload =
    | Pageview(content: Option<Uuid>, day: Option<Day>)
    | OtherType
    | IllTyped

  datatype Entry = Entry(offset: int, payload: Payload)

  type Log = seq<Entry>

  /** RdKafka::Topic::OFFSET_BEGINNING. */
  const OffsetBeginning: int := -2

  /** Offsets grow but need not be consecutive. */
  ghost predicate LogOk(log: Log) {
    && (forall i | 0 <= i < |log| :: 0 <= log[i].offset)
    && (forall i, j | 0 <= i < j < |log| :: log[i].offset < log[j].offset)
  }

  /** Where a fetch from `offset` begins: the first entry not before it. */
  function Seek(log: Log, offset: int): (p: nat)
    ensures p <= |log|
    ensures forall i | 0 <= i < p :: log[i].offset < offset
    ensures p < |log| ==> offset <= log[p].offset
  {
    if log == [] then 0
    else if offset <= log[0].offset then 0
    else
      var p := Seek(log[1..], offset);
      assert forall i | 0 < i < p + 1 :: log[i] == log[1..][i - 1];
      p + 1
  }

  lemma SeekFinds(log: Log, k: nat)
    requires LogOk(log) && k < |log|
    ensures Seek(log, log[k].offset) == k
  {
  }

  /** How many entries lie at or before a committed reference: none when it is null. */
  function Covered(log: Log, reference: Option<int>): nat {
    if reference.None? then 0
    else
      var p := Seek(log, reference.value);
      if p < |log| && log[p].offset == reference.value then p + 1 else p
  }

  /** An entry is covered if and only if its offset is not after the reference. */
  lemma CoveredMeans(log: Log, reference: Option<int>, i: nat)
    requires LogOk(log) && i < |log|
    ensures i < Covered(log, reference) <==> reference.Some? && log[i].offset <= reference.value
  {
    if reference.Some? {
      var p := Seek(log, reference.value);
      assert i > p ==> log[p].offset < log[i].offset;
    }
  }
}
