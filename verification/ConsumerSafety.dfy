/** What every run of one consumer keeps. */
module ConsumerSafety {
  import opened Wrappers
  import opened PageviewStore
  import opened Transactions
  import opened MessageLog
  import opened ConsumerMachine

  // ---------------------------------------------------------------- the reference program

  /** The row that a message increments, if any. */
  function EffectRow(kind: Kind, cat: Catalog, payload: Payload): Option<RowKey> {
    if payload.Pageview? then CountedRow(kind.ContentConsumer?, cat, payload.content, payload.day) else None
  }

  /** False for a page view that its procedure rejects. */
  predicate Processable(kind: Kind, cat: Catalog, payload: Payload) {
    payload.Pageview? ==> EffectRow(kind, cat, payload).Some?
  }

  function Bump(rows: Rows, key: Option<RowKey>): Rows {
    match key
    case None => rows
    case Some(k) => rows[k := if k in rows then rows[k] + 1 else 1]
  }

  predicate InLog(log: Log, indices: seq<nat>) {
    Within(|log|, indices)
  }

  predicate AllProcessable(kind: Kind, cat: Catalog, log: Log, indices: seq<nat>)
    requires InLog(log, indices)
  {
    forall i | 0 <= i < |indices| :: Processable(kind, cat, log[indices[i]].payload)
  }

  /** The row that each entry of the log increments. */
  function Effects(kind: Kind, cat: Catalog, log: Log): (e: seq<Option<RowKey>>)
    ensures |e| == |log| && forall i | 0 <= i < |log| :: e[i] == EffectRow(kind, cat, log[i].payload)
  {
    seq(|log|, i requires 0 <= i < |log| => EffectRow(kind, cat, log[i].payload))
  }

  predicate Within(n: nat, indices: seq<nat>) {
    forall i | 0 <= i < |indices| :: indices[i] < n
  }

  /** The counter tables after the messages at the given log indices, one after the other. */
  function Counters(effects: seq<Option<RowKey>>, indices: seq<nat>): Rows
    requires Within(|effects|, indices)
  {
    if indices == [] then map[]
    else Bump(Counters(effects, indices[..|indices| - 1]), effects[indices[|indices| - 1]])
  }

  /** The one-message-per-transaction program: the consumer's rows after it has processed, saved and
      committed each of the first `n` entries exactly once. */
  function Ideal(kind: Kind, cat: Catalog, log: Log, n: nat): Rows
    requires n <= |log|
  {
    if n == 0 then map[]
    else
      Bump(Ideal(kind, cat, log, n - 1), EffectRow(kind, cat, log[n - 1].payload))
        [RefRow(SourceId(kind)) := log[n - 1].offset]
  }

  function Prefix(n: nat): (p: seq<nat>)
    ensures |p| == n && forall i | 0 <= i < n :: p[i] == i
  {
    seq(n, i => i)
  }

  // ---------------------------------------------------------------- walks over the log

  /** A sequence of log indices that starts at 0 and then only repeats its last index or moves on by one. */
  predicate Walk(xs: seq<nat>) {
    && (xs != [] ==> xs[0] == 0)
    && forall i | 0 < i < |xs| :: xs[i] == xs[i - 1] || xs[i] == xs[i - 1] + 1
  }

  function Repeats(xs: seq<nat>): nat {
    if |xs| < 2 then 0
    else
      var last := |xs| - 1;
      Repeats(xs[..last]) + if xs[last] == xs[last - 1] then 1 else 0
  }

  function Next(xs: seq<nat>): nat {
    if xs == [] then 0 else xs[|xs| - 1] + 1
  }

  lemma {:induction false} WalkBounds(xs: seq<nat>)
    requires Walk(xs)
    ensures forall i | 0 <= i < |xs| :: xs[i] < Next(xs)
    ensures |xs| == Next(xs) + Repeats(xs)
  {
    if xs != [] {
      var init := xs[..|xs| - 1];
      WalkBounds(init);
      assert forall i | 0 <= i < |init| :: xs[i] == init[i];
    }
  }

  lemma WalkSnoc(xs: seq<nat>, x: nat)
    requires Walk(xs) && (x == Next(xs) || (xs != [] && x == xs[|xs| - 1]))
    ensures Walk(xs + [x])
  {
    var ys := xs + [x];
    forall i | 0 < i < |ys|
      ensures ys[i] == ys[i - 1] || ys[i] == ys[i - 1] + 1
    {
      if i < |xs| {
        assert ys[i] == xs[i] && ys[i - 1] == xs[i - 1];
      }
    }
  }

  lemma RepeatsSnoc(xs: seq<nat>, x: nat)
    ensures Repeats(xs + [x]) == Repeats(xs) + if xs != [] && x == xs[|xs| - 1] then 1 else 0
  {
    assert (xs + [x])[..|xs|] == xs;
  }

  lemma WalkPrefix(xs: seq<nat>, n: nat)
    requires Walk(xs) && n <= |xs|
    ensures Walk(xs[..n])
  {
  }

  lemma {:induction false} NoRepeats(xs: seq<nat>)
    requires Walk(xs) && Repeats(xs) == 0
    ensures xs == Prefix(|xs|)
  {
    if xs != [] {
      var init := xs[..|xs| - 1];
      NoRepeats(init);
      WalkBounds(xs);
      WalkBounds(init);
      assert xs == init + [xs[|xs| - 1]];
    }
  }

  // ---------------------------------------------------------------- facts about rows

  function CounterRows(kind: Kind, rows: Rows): Rows {
    map key | key in rows && Owns(kind, key) && !key.RefRow? :: rows[key]
  }

  ghost predicate OwnKeys(kind: Kind, rows: Rows) {
    forall key | key in rows :: Owns(kind, key)
  }

  lemma EffectRowOwned(kind: Kind, cat: Catalog, payload: Payload)
    ensures EffectRow(kind, cat, payload).Some? ==>
              Owns(kind, EffectRow(kind, cat, payload).value) && !EffectRow(kind, cat, payload).value.RefRow?
  {
  }

  /** A page view is accepted exactly when its two fields can be read and its content is catalogued: then
      its client exists, and so does the partition that the dash-stripped client id names. */
  lemma ProcessableIffKnown(kind: Kind, cat: Catalog, content: Option<Uuid>, day: Option<Day>)
    requires CatalogOk(cat)
    ensures Processable(kind, cat, Pageview(content, day))
       <==> content.Some? && day.Some? && content.value in cat.contents
  {
    NoNamelessPartition(cat);
    if content.Some? && content.value in cat.contents {
      assert cat.contents[content.value].client in cat.clients;
    }
  }

  /** A message that could be processed keeps its row when the catalog grows. */
  lemma EffectRowStable(kind: Kind, before: Catalog, after: Catalog, payload: Payload)
    requires "" !in before.partitions && CatalogExtends(before, after)
    requires Processable(kind, before, payload)
    ensures Processable(kind, after, payload)
    ensures EffectRow(kind, before, payload) == EffectRow(kind, after, payload)
  {
  }

  lemma CountersSnoc(effects: seq<Option<RowKey>>, indices: seq<nat>, i: nat)
    requires Within(|effects|, indices) && i < |effects|
    ensures Within(|effects|, indices + [i])
    ensures Counters(effects, indices + [i]) == Bump(Counters(effects, indices), effects[i])
  {
    assert (indices + [i])[..|indices|] == indices;
  }

  lemma {:induction false} CountersAgree(a: seq<Option<RowKey>>, b: seq<Option<RowKey>>, indices: seq<nat>)
    requires Within(|a|, indices) && Within(|b|, indices)
    requires forall i | 0 <= i < |indices| :: a[indices[i]] == b[indices[i]]
    ensures Counters(a, indices) == Counters(b, indices)
  {
    if indices != [] {
      CountersAgree(a, b, indices[..|indices| - 1]);
    }
  }

  lemma EffectsStable(kind: Kind, before: Catalog, after: Catalog, log: Log, indices: seq<nat>)
    requires "" !in before.partitions && CatalogExtends(before, after)
    requires InLog(log, indices) && AllProcessable(kind, before, log, indices)
    ensures AllProcessable(kind, after, log, indices)
    ensures forall i | 0 <= i < |indices| :: Effects(kind, before, log)[indices[i]] == Effects(kind, after, log)[indices[i]]
  {
    forall i | 0 <= i < |indices|
      ensures Processable(kind, after, log[indices[i]].payload)
      ensures EffectRow(kind, before, log[indices[i]].payload) == EffectRow(kind, after, log[indices[i]].payload)
    {
      EffectRowStable(kind, before, after, log[indices[i]].payload);
    }
  }

  lemma CounterRowsBump(kind: Kind, rows: Rows, key: Option<RowKey>, offset: int)
    requires key.Some? ==> Owns(kind, key.value) && !key.value.RefRow?
    ensures CounterRows(kind, Bump(rows, key)[RefRow(SourceId(kind)) := offset]) == Bump(CounterRows(kind, rows), key)
  {
  }

  lemma {:induction false} IdealOwned(kind: Kind, cat: Catalog, log: Log, n: nat)
    requires n <= |log|
    ensures OwnKeys(kind, Ideal(kind, cat, log, n))
    ensures Lookup(Ideal(kind, cat, log, n), RefRow(SourceId(kind)))
         == if n == 0 then None else Some(log[n - 1].offset)
  {
    if n > 0 {
      IdealOwned(kind, cat, log, n - 1);
      EffectRowOwned(kind, cat, log[n - 1].payload);
    }
  }

  /** The one-message-per-transaction program leaves the counters of the prefix. */
  lemma {:induction false} IdealCounters(kind: Kind, cat: Catalog, log: Log, n: nat)
    requires n <= |log|
    ensures CounterRows(kind, Ideal(kind, cat, log, n)) == Counters(Effects(kind, cat, log), Prefix(n))
  {
    if n > 0 {
      IdealCounters(kind, cat, log, n - 1);
      EffectRowOwned(kind, cat, log[n - 1].payload);
      assert Prefix(n) == Prefix(n - 1) + [n - 1];
      CountersSnoc(Effects(kind, cat, log), Prefix(n - 1), n - 1);
      CounterRowsBump(kind, Ideal(kind, cat, log, n - 1), EffectRow(kind, cat, log[n - 1].payload), log[n - 1].offset);
    }
  }

  lemma RowsFromParts(kind: Kind, a: Rows, b: Rows)
    requires CounterRows(kind, a) == CounterRows(kind, b)
    requires Lookup(a, RefRow(SourceId(kind))) == Lookup(b, RefRow(SourceId(kind)))
    ensures OwnRows(kind, a) == OwnRows(kind, b)
  {
    forall key | Owns(kind, key)
      ensures Lookup(a, key) == Lookup(b, key)
    {
      if !key.RefRow? {
        assert key in a <==> key in CounterRows(kind, a);
        assert key in b <==> key in CounterRows(kind, b);
        assert key in a ==> CounterRows(kind, a)[key] == a[key];
        assert key in b ==> CounterRows(kind, b)[key] == b[key];
      }
    }
    forall key | Owns(kind, key)
      ensures key in a <==> key in b
      ensures key in a ==> a[key] == b[key]
    {
      assert Lookup(a, key) == Lookup(b, key);
    }
  }

  lemma PartsFromRows(kind: Kind, a: Rows, b: Rows)
    requires OwnRows(kind, a) == OwnRows(kind, b)
    ensures CounterRows(kind, a) == CounterRows(kind, b)
    ensures Lookup(a, RefRow(SourceId(kind))) == Lookup(b, RefRow(SourceId(kind)))
  {
    forall key | Owns(kind, key)
      ensures key in a <==> key in b
      ensures key in a ==> a[key] == b[key]
    {
      assert key in a <==> key in OwnRows(kind, a);
      assert key in b <==> key in OwnRows(kind, b);
      assert key in a ==> OwnRows(kind, a)[key] == a[key];
      assert key in b ==> OwnRows(kind, b)[key] == b[key];
    }
  }

  lemma OwnOverlay(kind: Kind, a: Rows, b: Rows, writes: Rows)
    requires OwnRows(kind, a) == OwnRows(kind, b)
    ensures OwnRows(kind, a + writes) == OwnRows(kind, b + writes)
  {
    forall key | Owns(kind, key)
      ensures key in a <==> key in b
      ensures key in a ==> a[key] == b[key]
    {
      assert key in a <==> key in OwnRows(kind, a);
      assert key in b <==> key in OwnRows(kind, b);
      assert key in a ==> OwnRows(kind, a)[key] == a[key];
      assert key in b ==> OwnRows(kind, b)[key] == b[key];
    }
  }

  // ---------------------------------------------------------------- the invariant

  function LastOffset(log: Log, indices: seq<nat>): Option<int>
    requires InLog(log, indices)
  {
    if indices == [] then None else Some(log[indices[|indices| - 1]].offset)
  }

  /** The committed database holds the effects of `applied`, and its reference is their last offset. */
  ghost predicate CommittedOk(kind: Kind, log: Log, db: Database, applied: seq<nat>) {
    && CatalogOk(db.catalog)
    && InLog(log, applied)
    && Walk(applied)
    && AllProcessable(kind, db.catalog, log, applied)
    && CounterRows(kind, db.rows) == Counters(Effects(kind, db.catalog, log), applied)
    && Reference(kind, db) == LastOffset(log, applied)
  }

  /** The entry about to be read continues the walk of the entries already read. */
  ghost predicate ResumesAt(xs: seq<nat>, position: nat, silent: nat) {
    Walk(xs + [position]) && Repeats(xs + [position]) <= silent
  }

  /** The open transaction holds exactly the effects of the `msgCounter` entries read since the last
      commit, which directly follow the committed ones. */
  ghost predicate PendingOk(kind: Kind, log: Log, s: State) {
    var c, h := s.consumer, s.history;
    && c.txn.Open?
    && OwnKeys(kind, c.txn.writes)
    && InLog(log, h.applied + h.pending)
    && AllProcessable(kind, s.db.catalog, log, h.applied + h.pending)
    && CounterRows(kind, View(s.db, c.txn)) == Counters(Effects(kind, s.db.catalog, log), h.applied + h.pending)
    && ResumesAt(h.applied + h.pending, c.position, h.silent)
    && c.position <= |log|
    && |h.pending| == c.msgCounter
    && (h.pending != [] ==> h.pending[|h.pending| - 1] < |log| && c.sourceReference == log[h.pending[|h.pending| - 1]].offset)
  }

  ghost predicate PhaseOk(cfg: Config, log: Log, s: State)
    requires CommittedOk(cfg.kind, log, s.db, s.history.applied)
  {
    var c, h := s.consumer, s.history;
    var key := RefRow(SourceId(cfg.kind));
    match c.phase
    case Down => c.txn == Idle && h.pending == []
    case Booted =>
      && c.txn == Idle && h.pending == []
      && c.sourceReference == (if h.applied == [] then OffsetBeginning else LastOffset(log, h.applied).value)
    case OuterHead => PendingOk(cfg.kind, log, s) && key !in c.txn.writes && c.msgCounter < cfg.batchSize
    case InnerHead => PendingOk(cfg.kind, log, s) && key !in c.txn.writes && c.msgCounter < cfg.batchSize
    case Saving(_) => PendingOk(cfg.kind, log, s) && key !in c.txn.writes && 0 < c.msgCounter <= cfg.batchSize
    case Saved(_) =>
      && PendingOk(cfg.kind, log, s) && 0 < c.msgCounter <= cfg.batchSize
      && key in c.txn.writes && c.txn.writes[key] == c.sourceReference
    case Renewing(_) =>
      && c.txn == Idle && h.pending == [] && c.msgCounter == 0
      && ResumesAt(h.applied, c.position, h.silent) && c.position <= |log|
    case Unwinding => true
  }

  ghost predicate Inv(cfg: Config, log: Log, s: State) {
    && LogOk(log) && cfg.batchSize > 0
    && CommittedOk(cfg.kind, log, s.db, s.history.applied)
    && Repeats(s.history.applied) <= s.history.silent
    && PhaseOk(cfg, log, s)
    && (forall b | b in s.backups ::
          CommittedOk(cfg.kind, log, b.db, b.applied) && Repeats(b.applied) <= s.history.silent)
  }
}
