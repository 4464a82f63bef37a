/** Theorems about whole runs of one consumer: any number of incarnations, crashes at any step, lost
    connections, batch and time commits, foreign commits, backups and restores.
  */
module ConsumerTheorems {
  import opened Wrappers
  import opened PageviewStore
  import opened Transactions
  import opened MessageLog
  import opened ConsumerMachine
  import opened ConsumerSafety
  import opened ConsumerInvariant
  import opened RowSums

  // ---------------------------------------------------------------- silent starts

  /** Polls that return no message. */
  predicate SilentPoll(polled: Polled) {
    polled.TimedOut? || polled.EndOfPartition?
  }

  /** How many incarnations of a run went past a `Start` that returned without a message. */
  function SilentStarts(labels: seq<Label>): nat {
    if labels == [] then 0
    else
      var last := labels[|labels| - 1];
      SilentStarts(labels[..|labels| - 1]) + if last.Start? && SilentPoll(last.polled) then 1 else 0
  }

  lemma {:induction false} SilentCount(cfg: Config, log: Log, s: State, labels: seq<Label>)
    requires Run(cfg, log, s, labels).Some?
    ensures Run(cfg, log, s, labels).value.history.silent == s.history.silent + SilentStarts(labels)
  {
    if labels != [] {
      SilentCount(cfg, log, s, labels[..|labels| - 1]);
    }
  }

  /** A run from an untouched database. */
  ghost predicate IsRun(cfg: Config, log: Log, s0: State, labels: seq<Label>, s: State) {
    LogOk(log) && cfg.batchSize > 0 && Initial(cfg, s0) && Run(cfg, log, s0, labels) == Some(s)
  }

  lemma RunInv(cfg: Config, log: Log, s0: State, labels: seq<Label>, s: State)
    requires IsRun(cfg, log, s0, labels, s)
    ensures LogOk(log) && Inv(cfg, log, s) && s.history.silent == SilentStarts(labels)
  {
    InitialInv(cfg, log, s0);
    RunKeeps(cfg, log, s0, labels);
    SilentCount(cfg, log, s0, labels);
  }

  // ---------------------------------------------------------------- what the reference covers

  function CoveredBy(kind: Kind, log: Log, db: Database): nat {
    Covered(log, Reference(kind, db))
  }

  lemma CoveredIsNext(kind: Kind, log: Log, db: Database, applied: seq<nat>)
    requires LogOk(log) && CommittedOk(kind, log, db, applied)
    ensures CoveredBy(kind, log, db) == Next(applied) <= |log|
    ensures forall i | 0 <= i < Next(applied) :: Processable(kind, db.catalog, log[i].payload)
  {
    if applied != [] {
      SeekFinds(log, applied[|applied| - 1]);
      forall i | 0 <= i < Next(applied)
        ensures Processable(kind, db.catalog, log[i].payload)
      {
        var p := WalkCovers(applied, i);
        assert applied[p] == i;
      }
    }
  }

  /** A walk visits every index up to its last. */
  lemma {:induction false} WalkCovers(xs: seq<nat>, i: nat) returns (p: nat)
    requires Walk(xs) && i < Next(xs)
    ensures p < |xs| && xs[p] == i
  {
    var last := |xs| - 1;
    if xs[last] == i {
      p := last;
    } else {
      p := WalkCovers(xs[..last], i);
    }
  }

  // ---------------------------------------------------------------- repeated page views

  /** How many times an entry of the marked kind was applied again right after itself. */
  function RepeatsOf(marked: seq<bool>, xs: seq<nat>): nat
    requires Within(|marked|, xs)
  {
    if |xs| < 2 then 0
    else
      var last := |xs| - 1;
      RepeatsOf(marked, xs[..last]) + if xs[last] == xs[last - 1] && marked[xs[last]] then 1 else 0
  }

  function Pageviews(log: Log): (m: seq<bool>)
    ensures |m| == |log| && forall i | 0 <= i < |log| :: m[i] == log[i].payload.Pageview?
  {
    seq(|log|, i requires 0 <= i < |log| => log[i].payload.Pageview?)
  }

  function Counting(effects: seq<Option<RowKey>>): (m: seq<bool>)
    ensures |m| == |effects| && forall i | 0 <= i < |effects| :: m[i] == effects[i].Some?
  {
    seq(|effects|, i requires 0 <= i < |effects| => effects[i].Some?)
  }

  function RepeatedPageviews(log: Log, xs: seq<nat>): nat
    requires InLog(log, xs)
  {
    RepeatsOf(Pageviews(log), xs)
  }

  lemma {:induction false} RepeatedAtMost(marked: seq<bool>, xs: seq<nat>)
    requires Within(|marked|, xs)
    ensures RepeatsOf(marked, xs) <= Repeats(xs)
  {
    if |xs| >= 2 {
      RepeatedAtMost(marked, xs[..|xs| - 1]);
    }
  }

  function CountOf(rows: Rows, key: RowKey): int {
    if key in rows then rows[key] else 0
  }

  lemma BumpTotal(rows: Rows, key: Option<RowKey>)
    ensures Total(Bump(rows, key)) == Total(rows) + if key.Some? then 1 else 0
  {
    if key.Some? {
      TotalUpdate(rows, key.value, CountOf(rows, key.value) + 1);
    }
  }

  /** `actual` has the rows of `ideal` and counts `extra` more in all. */
  ghost predicate CountsWithin(ideal: Rows, actual: Rows, extra: nat) {
    && ideal.Keys == actual.Keys
    && Total(actual) == Total(ideal) + extra
    && forall key :: CountOf(ideal, key) <= CountOf(actual, key) <= CountOf(ideal, key) + extra
  }

  lemma CountsAdvance(ideal: Rows, actual: Rows, extra: nat, row: Option<RowKey>)
    requires CountsWithin(ideal, actual, extra)
    ensures CountsWithin(Bump(ideal, row), Bump(actual, row), extra)
  {
    BumpTotal(ideal, row);
    BumpTotal(actual, row);
    if row.Some? {
      forall key
        ensures CountOf(Bump(ideal, row), key) == CountOf(ideal, key) + if key == row.value then 1 else 0
        ensures CountOf(Bump(actual, row), key) == CountOf(actual, key) + if key == row.value then 1 else 0
      {
      }
    }
  }

  lemma CountsRepeat(ideal: Rows, actual: Rows, extra: nat, row: Option<RowKey>)
    requires CountsWithin(ideal, actual, extra)
    requires row.Some? ==> row.value in ideal
    ensures CountsWithin(ideal, Bump(actual, row), extra + if row.Some? then 1 else 0)
  {
    BumpTotal(actual, row);
    if row.Some? {
      forall key
        ensures CountOf(Bump(actual, row), key) == CountOf(actual, key) + if key == row.value then 1 else 0
      {
      }
    }
  }

  lemma RepeatedSnoc(marked: seq<bool>, xs: seq<nat>, x: nat)
    requires Within(|marked|, xs + [x])
    ensures Within(|marked|, xs) && x < |marked|
    ensures RepeatsOf(marked, xs + [x]) == RepeatsOf(marked, xs) + if xs != [] && x == xs[|xs| - 1] && marked[x] then 1 else 0
  {
    assert (xs + [x])[..|xs|] == xs;
    assert (xs + [x])[|xs|] == x;
    assert forall i | 0 <= i < |xs| :: xs[i] == (xs + [x])[i];
  }

  /** A walk counts what its prefix counts, plus its repeats: over all rows exactly, and row by row never
      less and at most that much more. */
  lemma {:induction false} WalkCounts(effects: seq<Option<RowKey>>, xs: seq<nat>)
    requires Within(|effects|, xs) && Walk(xs)
    ensures Next(xs) <= |effects|
    ensures CountsWithin(Counters(effects, Prefix(Next(xs))), Counters(effects, xs), RepeatsOf(Counting(effects), xs))
  {
    if xs != [] {
      var last := xs[|xs| - 1];
      var init := xs[..|xs| - 1];
      WalkCounts(effects, init);
      assert xs == init + [last];
      WalkCountsStep(effects, init, last);
    }
  }

  lemma WalkCountsStep(effects: seq<Option<RowKey>>, init: seq<nat>, last: nat)
    requires Within(|effects|, init) && last < |effects| && Next(init) <= |effects|
    requires last == Next(init) || (init != [] && last == init[|init| - 1])
    requires CountsWithin(Counters(effects, Prefix(Next(init))), Counters(effects, init), RepeatsOf(Counting(effects), init))
    ensures Within(|effects|, init + [last])
    ensures CountsWithin(Counters(effects, Prefix(last + 1)), Counters(effects, init + [last]),
                         RepeatsOf(Counting(effects), init + [last]))
  {
    hide CountsWithin;
    hide Counters;
    hide RepeatsOf;
    CountersSnoc(effects, init, last);
    RepeatedSnoc(Counting(effects), init, last);
    PrefixSnoc(last);
    CountersSnoc(effects, Prefix(last), last);
    if last == Next(init) {
      CountsAdvance(Counters(effects, Prefix(last)), Counters(effects, init), RepeatsOf(Counting(effects), init), effects[last]);
    } else {
      CountsRepeat(Counters(effects, Prefix(last + 1)), Counters(effects, init), RepeatsOf(Counting(effects), init), effects[last]);
    }
  }

  lemma PrefixSnoc(n: nat)
    ensures Prefix(n + 1) == Prefix(n) + [n]
  {
  }

  lemma {:induction false} RepeatsAgree(a: seq<bool>, b: seq<bool>, xs: seq<nat>)
    requires Within(|a|, xs) && Within(|b|, xs)
    requires forall i | 0 <= i < |xs| :: a[xs[i]] == b[xs[i]]
    ensures RepeatsOf(a, xs) == RepeatsOf(b, xs)
  {
    if |xs| >= 2 {
      RepeatsAgree(a, b, xs[..|xs| - 1]);
    }
  }

  lemma CommittedCounts(kind: Kind, log: Log, db: Database, applied: seq<nat>)
    requires CommittedOk(kind, log, db, applied)
    ensures Next(applied) <= |log|
    ensures CountsWithin(CounterRows(kind, Ideal(kind, db.catalog, log, Next(applied))), CounterRows(kind, db.rows),
                         RepeatedPageviews(log, applied))
  {
    WalkCounts(Effects(kind, db.catalog, log), applied);
    RepeatsAgree(Counting(Effects(kind, db.catalog, log)), Pageviews(log), applied);
    IdealCounters(kind, db.catalog, log, Next(applied));
  }

  lemma CountsEqual(ideal: Rows, actual: Rows, extra: nat)
    requires CountsWithin(ideal, actual, extra)
    ensures actual == ideal <==> extra == 0
  {
    if extra == 0 {
      forall key | key in ideal
        ensures actual[key] == ideal[key]
      {
        assert CountOf(ideal, key) == CountOf(actual, key);
      }
    }
  }

  // ---------------------------------------------------------------- exactly once

  /** The committed rows are those of the one-message-per-transaction program on the covered prefix. */
  ghost predicate Exact(kind: Kind, log: Log, db: Database) {
    && CoveredBy(kind, log, db) <= |log|
    && OwnRows(kind, db.rows) == Ideal(kind, db.catalog, log, CoveredBy(kind, log, db))
  }

  lemma IdealOwnRows(kind: Kind, cat: Catalog, log: Log, n: nat)
    requires n <= |log|
    ensures OwnRows(kind, Ideal(kind, cat, log, n)) == Ideal(kind, cat, log, n)
  {
    IdealOwned(kind, cat, log, n);
  }

  lemma ReferenceMatchesIdeal(kind: Kind, log: Log, db: Database, applied: seq<nat>)
    requires LogOk(log) && CommittedOk(kind, log, db, applied)
    ensures Next(applied) <= |log|
    ensures Lookup(Ideal(kind, db.catalog, log, Next(applied)), RefRow(SourceId(kind))) == Reference(kind, db)
  {
    WalkBounds(applied);
    IdealOwned(kind, db.catalog, log, Next(applied));
  }

  /** The committed state is exact if and only if no page view is among the repeats. */
  lemma ExactIffNoPageviewRepeated(kind: Kind, log: Log, db: Database, applied: seq<nat>)
    requires LogOk(log) && CommittedOk(kind, log, db, applied)
    ensures Exact(kind, log, db) <==> RepeatedPageviews(log, applied) == 0
  {
    var ideal := Ideal(kind, db.catalog, log, Next(applied));
    CoveredIsNext(kind, log, db, applied);
    ReferenceMatchesIdeal(kind, log, db, applied);
    CommittedCounts(kind, log, db, applied);
    CountsEqual(CounterRows(kind, ideal), CounterRows(kind, db.rows), RepeatedPageviews(log, applied));
    IdealOwnRows(kind, db.catalog, log, Next(applied));
    if RepeatedPageviews(log, applied) == 0 {
      RowsFromParts(kind, db.rows, ideal);
    }
    if Exact(kind, log, db) {
      PartsFromRows(kind, db.rows, ideal);
    }
  }

  /** Exactly once: if every resuming `Start` obtained its message, then whatever else happens (crashes,
      failed or unacknowledged commits, other sessions, restored backups) the committed rows are those of
      processing each entry up to the committed reference once. */
  lemma ExactlyOnce(cfg: Config, log: Log, s0: State, labels: seq<Label>, s: State)
    requires IsRun(cfg, log, s0, labels, s) && SilentStarts(labels) == 0
    ensures Exact(cfg.kind, log, s.db)
    ensures forall i | 0 <= i < CoveredBy(cfg.kind, log, s.db) :: Processable(cfg.kind, s.db.catalog, log[i].payload)
  {
    RunInv(cfg, log, s0, labels, s);
    RepeatedAtMost(Pageviews(log), s.history.applied);
    ExactIffNoPageviewRepeated(cfg.kind, log, s.db, s.history.applied);
    CoveredIsNext(cfg.kind, log, s.db, s.history.applied);
  }

  /** No count is too low, and neither a single row nor their sum is too high by more than `extra`. */
  ghost predicate ExactWithin(kind: Kind, log: Log, db: Database, extra: nat) {
    && CoveredBy(kind, log, db) <= |log|
    && var actual, ideal := CounterRows(kind, db.rows), CounterRows(kind, Ideal(kind, db.catalog, log, CoveredBy(kind, log, db)));
       && actual.Keys == ideal.Keys
       && (forall key :: CountOf(ideal, key) <= CountOf(actual, key) <= CountOf(ideal, key) + extra)
       && Total(ideal) <= Total(actual) <= Total(ideal) + extra
  }

  /** Without that proviso the excess is bounded by the number of incarnations whose resuming `Start` returned
      without a message. */
  lemma BoundedOvercount(cfg: Config, log: Log, s0: State, labels: seq<Label>, s: State)
    requires IsRun(cfg, log, s0, labels, s)
    ensures ExactWithin(cfg.kind, log, s.db, SilentStarts(labels))
  {
    RunInv(cfg, log, s0, labels, s);
    var applied := s.history.applied;
    CoveredIsNext(cfg.kind, log, s.db, applied);
    RepeatedAtMost(Pageviews(log), applied);
    CommittedCounts(cfg.kind, log, s.db, applied);
  }

  /** The two catalogs give the content of a page view, if both have it, to the same client. */
  predicate SameOwner(a: Catalog, b: Catalog, payload: Payload) {
    match payload
    case Pageview(Some(content), _) =>
      content in a.contents && content in b.contents ==> a.contents[content].client == b.contents[content].client
    case _ => true
  }

  /** Two runs over the same log without a silent start that end on the same reference end on the same rows,
      whatever their batch sizes, clocks, polls and crashes, if their catalogs agree on whose contents were
      viewed in the covered prefix. */
  lemma ScheduleIrrelevant(cfg1: Config, cfg2: Config, log: Log,
                           a0: State, labels1: seq<Label>, a: State,
                           b0: State, labels2: seq<Label>, b: State)
    requires cfg1.kind == cfg2.kind
    requires IsRun(cfg1, log, a0, labels1, a) && SilentStarts(labels1) == 0
    requires IsRun(cfg2, log, b0, labels2, b) && SilentStarts(labels2) == 0
    requires Reference(cfg1.kind, a.db) == Reference(cfg1.kind, b.db)
    requires forall i | 0 <= i < |log| && i < CoveredBy(cfg1.kind, log, a.db) ::
               SameOwner(a.db.catalog, b.db.catalog, log[i].payload)
    ensures OwnRows(cfg1.kind, a.db.rows) == OwnRows(cfg1.kind, b.db.rows)
  {
    hide CatalogOk;
    hide Inv;
    var kind, n := cfg1.kind, CoveredBy(cfg1.kind, log, a.db);
    ExactlyOnce(cfg1, log, a0, labels1, a);
    ExactlyOnce(cfg2, log, b0, labels2, b);
    RunCatalog(cfg1, log, a0, labels1, a);
    RunCatalog(cfg2, log, b0, labels2, b);
    IdealShared(kind, a.db.catalog, b.db.catalog, log, n);
  }

  lemma RunCatalog(cfg: Config, log: Log, s0: State, labels: seq<Label>, s: State)
    requires IsRun(cfg, log, s0, labels, s)
    ensures CatalogOk(s.db.catalog)
  {
    RunInv(cfg, log, s0, labels, s);
  }

  lemma SameRow(kind: Kind, a: Catalog, b: Catalog, payload: Payload)
    requires CatalogOk(a) && CatalogOk(b) && SameOwner(a, b, payload)
    requires Processable(kind, a, payload) && Processable(kind, b, payload)
    ensures EffectRow(kind, a, payload) == EffectRow(kind, b, payload)
  {
    hide CatalogOk;
    hide StripDashes;
    if payload.Pageview? {
      ProcessableIffKnown(kind, a, payload.content, payload.day);
      ProcessableIffKnown(kind, b, payload.content, payload.day);
      var content := payload.content.value;
      assert a.contents[content].client == b.contents[content].client;
    }
  }

  lemma {:induction false} IdealShared(kind: Kind, a: Catalog, b: Catalog, log: Log, n: nat)
    requires CatalogOk(a) && CatalogOk(b) && n <= |log|
    requires forall i | 0 <= i < n :: SameOwner(a, b, log[i].payload)
    requires forall i | 0 <= i < n :: Processable(kind, a, log[i].payload) && Processable(kind, b, log[i].payload)
    ensures Ideal(kind, a, log, n) == Ideal(kind, b, log, n)
  {
    hide CatalogOk;
    hide EffectRow;
    hide Processable;
    hide SameOwner;
    if n > 0 {
      SameRow(kind, a, b, log[n - 1].payload);
      IdealShared(kind, a, b, log, n - 1);
    }
  }

  // ---------------------------------------------------------------- the committed reference

  /** The committed reference is null or the offset of an entry, never the beginning sentinel. */
  lemma ReferenceIsAnEntry(cfg: Config, log: Log, s0: State, labels: seq<Label>, s: State)
    requires IsRun(cfg, log, s0, labels, s)
    ensures var reference := Reference(cfg.kind, s.db);
            reference.Some? ==>
              && reference.value != OffsetBeginning
              && exists i | 0 <= i < |log| :: log[i].offset == reference.value
  {
    RunInv(cfg, log, s0, labels, s);
    var applied := s.history.applied;
    if applied != [] {
      assert log[applied[|applied| - 1]].offset == Reference(cfg.kind, s.db).value;
    }
  }

  lemma CoveredNeverDrops(cfg: Config, log: Log, s: State, l: Label)
    requires Inv(cfg, log, s) && Step(cfg, log, s, l).Some? && !l.Restore?
    ensures s.history.applied <= Step(cfg, log, s, l).value.history.applied
  {
    hide Inv;
    hide Execute;
    hide StatementFor;
    hide Commit;
    hide Rely;
    hide CatalogOk;
  }

  lemma WalkMonotone(xs: seq<nat>, ys: seq<nat>)
    requires Walk(ys) && xs <= ys
    ensures Next(xs) <= Next(ys)
  {
    if xs != [] {
      WalkBounds(ys);
      assert ys[|xs| - 1] == xs[|xs| - 1];
    }
  }

  lemma {:induction false} CoveredOnlyGrows(cfg: Config, log: Log, s: State, labels: seq<Label>)
    requires Inv(cfg, log, s) && Run(cfg, log, s, labels).Some?
    requires forall l | l in labels :: !l.Restore?
    ensures s.history.applied <= Run(cfg, log, s, labels).value.history.applied
  {
    hide Inv;
    hide Step;
    if labels != [] {
      var init := labels[..|labels| - 1];
      CoveredOnlyGrows(cfg, log, s, init);
      RunKeeps(cfg, log, s, init);
      CoveredNeverDrops(cfg, log, Run(cfg, log, s, init).value, labels[|labels| - 1]);
    }
  }

  lemma ReferencesOrdered(kind: Kind, log: Log, before: Database, xs: seq<nat>, after: Database, ys: seq<nat>)
    requires LogOk(log) && CommittedOk(kind, log, before, xs) && CommittedOk(kind, log, after, ys) && xs <= ys
    ensures var from, to := Reference(kind, before), Reference(kind, after);
            from.Some? ==> to.Some? && from.value <= to.value
  {
    WalkMonotone(xs, ys);
    if xs != [] {
      var i, j := xs[|xs| - 1], ys[|ys| - 1];
      assert i <= j && j < |log| && (i < j ==> log[i].offset < log[j].offset);
    }
  }

  /** As long as no backup is restored, the reference never moves back: not across crashes, not across
      timed-out restarts. */
  lemma ReferenceNeverDecreases(cfg: Config, log: Log, s: State, labels: seq<Label>)
    requires Inv(cfg, log, s) && Run(cfg, log, s, labels).Some?
    requires forall l | l in labels :: !l.Restore?
    ensures var s' := Run(cfg, log, s, labels).value;
            var from, to := Reference(cfg.kind, s.db), Reference(cfg.kind, s'.db);
            from.Some? ==> to.Some? && from.value <= to.value
    ensures s.history.applied <= Run(cfg, log, s, labels).value.history.applied
  {
    hide Run;
    hide CommittedOk;
    hide PhaseOk;
    CoveredOnlyGrows(cfg, log, s, labels);
    RunKeeps(cfg, log, s, labels);
    var s' := Run(cfg, log, s, labels).value;
    ReferencesOrdered(cfg.kind, log, s.db, s.history.applied, s'.db, s'.history.applied);
  }

  /** A page view that its procedure rejects is never committed past: every incarnation that reaches it
      fails, and the reference stays before it. */
  lemma StuckAtRejectedMessage(cfg: Config, log: Log, s0: State, labels: seq<Label>, s: State, j: nat)
    requires IsRun(cfg, log, s0, labels, s)
    requires j < |log| && !Processable(cfg.kind, s.db.catalog, log[j].payload)
    ensures CoveredBy(cfg.kind, log, s.db) <= j
  {
    RunInv(cfg, log, s0, labels, s);
    CoveredIsNext(cfg.kind, log, s.db, s.history.applied);
  }

  // ---------------------------------------------------------------- the open transaction

  /** A walk without repeats is the prefix, whatever part of it is committed. */
  lemma NothingRepeated(applied: seq<nat>, pending: seq<nat>, position: nat)
    requires ResumesAt(applied + pending, position, 0)
    ensures applied == Prefix(|applied|) && applied + pending == Prefix(position)
    ensures Next(applied) == |applied| && position == |applied| + |pending|
    ensures pending != [] ==> pending[|pending| - 1] == position - 1
  {
    var whole := applied + pending;
    NoRepeats(whole + [position]);
    assert forall i | 0 <= i < |whole| :: whole[i] == (whole + [position])[i];
    assert (whole + [position])[|whole|] == position;
    assert forall i | 0 <= i < |applied| :: applied[i] == whole[i];
    assert pending != [] ==> pending[|pending| - 1] == whole[|whole| - 1];
  }

  /** The rows after the effects of further entries. */
  function BumpAll(rows: Rows, effects: seq<Option<RowKey>>, indices: seq<nat>): Rows
    requires Within(|effects|, indices)
  {
    if indices == [] then rows
    else Bump(BumpAll(rows, effects, indices[..|indices| - 1]), effects[indices[|indices| - 1]])
  }

  lemma {:induction false} CountersThen(effects: seq<Option<RowKey>>, first: seq<nat>, more: seq<nat>)
    requires Within(|effects|, first) && Within(|effects|, more)
    ensures Within(|effects|, first + more)
    ensures Counters(effects, first + more) == BumpAll(Counters(effects, first), effects, more)
  {
    if more == [] {
      assert first + more == first;
    } else {
      var init, last := more[..|more| - 1], more[|more| - 1];
      CountersThen(effects, first, init);
      assert first + more == (first + init) + [last];
      CountersSnoc(effects, first + init, last);
    }
  }

  /** In every run, at both loop heads: a transaction is open, the batch is not full, and what committing now
      would change are the effects of the msgCounter entries delivered since the last commit. */
  lemma PendingChanges(cfg: Config, log: Log, s0: State, labels: seq<Label>, s: State)
    requires IsRun(cfg, log, s0, labels, s)
    requires s.consumer.phase == OuterHead || s.consumer.phase == InnerHead
    ensures s.consumer.txn.Open? && s.consumer.msgCounter == |s.history.pending| < cfg.batchSize
    ensures InLog(log, s.history.pending)
    ensures CounterRows(cfg.kind, Commit(s.db, s.consumer.txn).rows)
         == BumpAll(CounterRows(cfg.kind, s.db.rows), Effects(cfg.kind, s.db.catalog, log), s.history.pending)
  {
    hide CatalogOk;
    hide Effects;
    hide Inv;
    hide Run;
    hide Walk;
    hide Repeats;
    hide ResumesAt;
    hide AllProcessable;
    hide CounterRows;
    RunInv(cfg, log, s0, labels, s);
    PendingOfInv(cfg, log, s);
    var h := s.history;
    assert forall i | 0 <= i < |h.pending| :: h.pending[i] == (h.applied + h.pending)[|h.applied| + i];
    EffectsLength(cfg.kind, s.db.catalog, log);
    CountersThen(Effects(cfg.kind, s.db.catalog, log), h.applied, h.pending);
  }

  lemma EffectsLength(kind: Kind, cat: Catalog, log: Log)
    ensures |Effects(kind, cat, log)| == |log|
  {
  }

  /** Without a silent start, at both loop heads: a transaction is open, the batch is not full, and committing now would leave the
      rows of processing the entries up to the last one read, each once: `msgCounter` entries more than the
      committed reference covers. */
  lemma PendingBatch(cfg: Config, log: Log, s0: State, labels: seq<Label>, s: State)
    requires IsRun(cfg, log, s0, labels, s) && SilentStarts(labels) == 0
    requires s.consumer.phase == OuterHead || s.consumer.phase == InnerHead
    ensures s.consumer.txn.Open? && 0 <= s.consumer.msgCounter < cfg.batchSize
    ensures CoveredBy(cfg.kind, log, s.db) + s.consumer.msgCounter == s.consumer.position <= |log|
    ensures CounterRows(cfg.kind, Commit(s.db, s.consumer.txn).rows)
         == CounterRows(cfg.kind, Ideal(cfg.kind, s.db.catalog, log, s.consumer.position))
    ensures s.consumer.msgCounter > 0 ==> s.consumer.sourceReference == log[s.consumer.position - 1].offset
  {
    RunInv(cfg, log, s0, labels, s);
    PendingOfInv(cfg, log, s);
    PendingExact(cfg.kind, log, s);
  }

  lemma PendingExact(kind: Kind, log: Log, s: State)
    requires LogOk(log) && PendingOk(kind, log, s) && CommittedOk(kind, log, s.db, s.history.applied)
    requires s.history.silent == 0
    ensures CoveredBy(kind, log, s.db) + s.consumer.msgCounter == s.consumer.position <= |log|
    ensures CounterRows(kind, Commit(s.db, s.consumer.txn).rows)
         == CounterRows(kind, Ideal(kind, s.db.catalog, log, s.consumer.position))
    ensures s.consumer.msgCounter > 0 ==> s.consumer.sourceReference == log[s.consumer.position - 1].offset
  {
    hide CatalogOk;
    hide Effects;
    hide Ideal;
    NothingRepeated(s.history.applied, s.history.pending, s.consumer.position);
    CoveredIsNext(kind, log, s.db, s.history.applied);
    IdealCounters(kind, s.db.catalog, log, s.consumer.position);
  }

  lemma PendingOfInv(cfg: Config, log: Log, s: State)
    requires Inv(cfg, log, s)
    requires s.consumer.phase == OuterHead || s.consumer.phase == InnerHead
    ensures PendingOk(cfg.kind, log, s) && CommittedOk(cfg.kind, log, s.db, s.history.applied)
    ensures s.consumer.msgCounter < cfg.batchSize
  {
  }

  /** COMMIT is never sent on an aborted transaction, which PostgreSQL would roll back and acknowledge. */
  lemma NoHollowCommit(cfg: Config, log: Log, s0: State, labels: seq<Label>, s: State, reply: CommitReply)
    requires IsRun(cfg, log, s0, labels, s) && Step(cfg, log, s, CommitBatch(reply)).Some?
    ensures s.consumer.txn.Open?
    ensures RefRow(SourceId(cfg.kind)) in s.consumer.txn.writes
  {
    RunInv(cfg, log, s0, labels, s);
  }
}
