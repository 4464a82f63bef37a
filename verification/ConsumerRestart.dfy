/** Restarts: exactly when a resumed incarnation stays exact, and that every batching of the consumer
    does what any other does.
  */
module ConsumerRestart {
  import opened Wrappers
  import opened PageviewStore
  import opened Transactions
  import opened MessageLog
  import opened ConsumerMachine
  import opened ConsumerSafety
  import opened ConsumerInvariant
  import opened ConsumerTheorems
  import opened ConsumerProgress

  // ---------------------------------------------------------------- one incarnation

  predicate StraightFrom(xs: seq<nat>, n: nat, start: nat) {
    |xs| > n ==> xs[n] == start && forall i | n < i < |xs| :: xs[i] == xs[i - 1] + 1
  }

  /** Within one incarnation the entries are read in order, beginning at `start`. */
  ghost predicate ReadsOnFrom(base: seq<nat>, start: nat, s: State) {
    var c, h := s.consumer, s.history;
    && base <= h.applied
    && StraightFrom(h.applied, |base|, start)
    && c.phase != Booted
    && (c.phase != Down && c.phase != Unwinding ==> StraightFrom(h.applied + h.pending + [c.position], |base|, start))
  }

  lemma ReadsOnCommit(base: seq<nat>, start: nat, whole: seq<nat>, position: nat)
    requires base <= whole && StraightFrom(whole + [position], |base|, start)
    ensures StraightFrom(whole, |base|, start)
  {
    assert forall i | 0 <= i < |whole| :: (whole + [position])[i] == whole[i];
  }

  lemma ReadsOnAppend(base: seq<nat>, start: nat, whole: seq<nat>, position: nat)
    requires base <= whole && StraightFrom(whole + [position], |base|, start)
    ensures StraightFrom(whole + [position] + [position + 1], |base|, start)
  {
    var xs := whole + [position];
    assert forall i | 0 <= i < |xs| :: (xs + [position + 1])[i] == xs[i];
  }

  /** A step that neither reads nor commits, boots nor restores, leaves the walk alone or ends the
      incarnation. */
  lemma QuietStep(cfg: Config, log: Log, s: State, l: Label)
    requires Step(cfg, log, s, l).Some?
    requires !l.Boot? && !l.Restore? && !l.Deliver? && !l.CommitBatch? && s.consumer.phase != Booted
    ensures var s' := Step(cfg, log, s, l).value;
            var phase, phase' := s.consumer.phase, s'.consumer.phase;
            && s'.history.applied == s.history.applied
            && (phase' == Down || phase' == Unwinding ||
                (&& phase != Down && phase != Unwinding && phase' != Booted
                 && s'.history.pending == s.history.pending && s'.consumer.position == s.consumer.position))
  {
  }

  lemma ReadsOnStep(cfg: Config, log: Log, base: seq<nat>, start: nat, s: State, l: Label)
    requires Inv(cfg, log, s) && ReadsOnFrom(base, start, s)
    requires Step(cfg, log, s, l).Some? && !l.Boot? && !l.Restore?
    ensures ReadsOnFrom(base, start, Step(cfg, log, s, l).value)
  {
    if l.Deliver? {
      ReadsOnDeliver(cfg, log, base, start, s, l.ok);
    } else if l.CommitBatch? {
      assert s.consumer.txn.Open?;
      ReadsOnCommitStep(base, start, s, l.reply);
    } else {
      QuietStep(cfg, log, s, l);
    }
  }

  lemma ReadsOnCommitStep(base: seq<nat>, start: nat, s: State, reply: CommitReply)
    requires ReadsOnFrom(base, start, s) && s.consumer.phase.Saved? && s.consumer.txn.Open?
    ensures ReadsOnFrom(base, start, CommitStep(s, reply))
  {
    var c, h := s.consumer, s.history;
    ReadsOnCommit(base, start, h.applied + h.pending, c.position);
    assert h.applied + h.pending + [] == h.applied + h.pending;
  }

  lemma ReadsOnDeliver(cfg: Config, log: Log, base: seq<nat>, start: nat, s: State, ok: bool)
    requires ReadsOnFrom(base, start, s) && s.consumer.phase == InnerHead
    requires DeliverStep(cfg, log, s, ok).Some?
    ensures ReadsOnFrom(base, start, DeliverStep(cfg, log, s, ok).value)
  {
    var c, h := s.consumer, s.history;
    var s' := DeliverStep(cfg, log, s, ok).value;
    if s'.consumer.phase != Unwinding {
      ReadsOnAppend(base, start, h.applied + h.pending, c.position);
      assert h.applied + s'.history.pending + [s'.consumer.position]
          == (h.applied + h.pending + [c.position]) + [c.position + 1];
    }
  }

  lemma {:induction false} ReadsOnRun(cfg: Config, log: Log, base: seq<nat>, start: nat, s: State, labels: seq<Label>)
    requires Inv(cfg, log, s) && ReadsOnFrom(base, start, s)
    requires Run(cfg, log, s, labels).Some?
    requires forall l | l in labels :: !l.Boot? && !l.Restore?
    ensures ReadsOnFrom(base, start, Run(cfg, log, s, labels).value)
  {
    if labels != [] {
      var init := labels[..|labels| - 1];
      ReadsOnRun(cfg, log, base, start, s, init);
      RunKeeps(cfg, log, s, init);
      ReadsOnStep(cfg, log, base, start, Run(cfg, log, s, init).value, labels[|labels| - 1]);
    }
  }

  lemma {:induction false} StraightRepeats(log: Log, base: seq<nat>, start: nat, xs: seq<nat>)
    requires InLog(log, xs) && base != [] && base <= xs && |base| < |xs|
    requires StraightFrom(xs, |base|, start)
    ensures start < |log| && InLog(log, base)
    ensures RepeatedPageviews(log, xs) == RepeatedPageviews(log, base)
              + if start == base[|base| - 1] && log[start].payload.Pageview? then 1 else 0
    decreases |xs|
  {
    var init := xs[..|xs| - 1];
    assert xs[|base|] == start;
    if |xs| == |base| + 1 {
      assert init == base;
    } else {
      StraightRepeats(log, base, start, init);
    }
  }

  lemma RunFirst(cfg: Config, log: Log, s: State, l: Label, rest: seq<Label>)
    requires Run(cfg, log, s, [l] + rest).Some?
    ensures Step(cfg, log, s, l).Some?
    ensures Run(cfg, log, Step(cfg, log, s, l).value, rest) == Run(cfg, log, s, [l] + rest)
  {
    assert Run(cfg, log, s, [l][..0]) == Some(s);
    PrefixRuns(cfg, log, s, [l], rest);
    RunAppend(cfg, log, s, [l], rest);
  }

  /** An incarnation whose `Start` throws commits nothing. */
  lemma FailedStart(cfg: Config, log: Log, s: State, clock: int, begun: bool, rest: seq<Label>)
    requires forall l | l in rest :: !l.Boot? && !l.Restore?
    requires Run(cfg, log, s, [Start(PollError, clock, begun)] + rest).Some?
    ensures Run(cfg, log, s, [Start(PollError, clock, begun)] + rest).value.history.applied == s.history.applied
  {
    RunFirst(cfg, log, s, Start(PollError, clock, begun), rest);
    StaysUnwound(cfg, log, Step(cfg, log, s, Start(PollError, clock, begun)).value, rest);
  }

  lemma ReadsOnStart(cfg: Config, log: Log, s: State, last: nat, polled: Polled, clock: int, begun: bool)
    requires LogOk(log) && last < |log| && s.consumer.sourceReference == log[last].offset && !polled.PollError?
    requires s.consumer.phase == Booted && s.history.pending == []
    ensures Step(cfg, log, s, Start(polled, clock, begun)).Some?
    ensures ReadsOnFrom(s.history.applied, if polled.Delivered? then last + 1 else last,
                        Step(cfg, log, s, Start(polled, clock, begun)).value)
  {
    StartPosition(log, s, last, polled, clock, begun);
    assert s.history.applied + [] == s.history.applied;
  }

  /** What an incarnation commits, once its `Start` did not throw: the entries from its first position on. */
  lemma ResumedWalk(cfg: Config, log: Log, s: State, polled: Polled, clock: int, begun: bool, rest: seq<Label>)
    requires Inv(cfg, log, s) && s.consumer.phase == Booted && s.history.applied != [] && !polled.PollError?
    requires forall l | l in rest :: !l.Boot? && !l.Restore?
    requires Run(cfg, log, s, [Start(polled, clock, begun)] + rest).Some?
    ensures var base := s.history.applied;
            var s' := Run(cfg, log, s, [Start(polled, clock, begun)] + rest).value;
            && CommittedOk(cfg.kind, log, s'.db, s'.history.applied)
            && base <= s'.history.applied
            && StraightFrom(s'.history.applied, |base|, if polled.Delivered? then base[|base| - 1] + 1 else base[|base| - 1])
  {
    hide Step;
    hide CatalogOk;
    var base, l := s.history.applied, Start(polled, clock, begun);
    var last := base[|base| - 1];
    var start := if polled.Delivered? then last + 1 else last;
    RunFirst(cfg, log, s, l, rest);
    StepKeeps(cfg, log, s, l);
    var s1 := Step(cfg, log, s, l).value;
    ReadsOnStart(cfg, log, s, last, polled, clock, begun);
    ReadsOnRun(cfg, log, base, start, s1, rest);
    RunKeeps(cfg, log, s1, rest);
  }

  /** An exact state grows into an exact one unless a page view is read again. */
  lemma ExactAfterResume(kind: Kind, log: Log, before: Database, base: seq<nat>, start: nat, after: Database, applied: seq<nat>)
    requires LogOk(log) && CommittedOk(kind, log, before, base) && CommittedOk(kind, log, after, applied)
    requires base != [] && base <= applied && base != applied && StraightFrom(applied, |base|, start)
    requires Exact(kind, log, before)
    ensures start < |log|
    ensures Exact(kind, log, after) <==> !(start == base[|base| - 1] && log[start].payload.Pageview?)
  {
    ExactIffNoPageviewRepeated(kind, log, before, base);
    assert |base| < |applied|;
    StraightRepeats(log, base, start, applied);
    ExactIffNoPageviewRepeated(kind, log, after, applied);
  }

  lemma InvCommitted(cfg: Config, log: Log, s: State)
    requires Inv(cfg, log, s)
    ensures LogOk(log) && CommittedOk(cfg.kind, log, s.db, s.history.applied)
  {
  }

  /** Exactly when a restart stays exact.  Take a committed state that is exact and covers at least one
      entry, and let one incarnation resume from it and commit something.  The result is exact if and only
      if `Start` obtained its message or the message it should have skipped is not a page view. */
  lemma RestartExactIff(cfg: Config, log: Log, s: State, polled: Polled, clock: int, begun: bool, rest: seq<Label>, s': State)
    requires Inv(cfg, log, s) && s.consumer.phase == Booted && s.history.applied != []
    requires Exact(cfg.kind, log, s.db)
    requires forall l | l in rest :: !l.Boot? && !l.Restore?
    requires Run(cfg, log, s, [Start(polled, clock, begun)] + rest) == Some(s')
    requires s.history.applied != s'.history.applied
    ensures 0 < CoveredBy(cfg.kind, log, s.db) <= |log|
    ensures Exact(cfg.kind, log, s'.db)
       <==> polled.Delivered? || !log[CoveredBy(cfg.kind, log, s.db) - 1].payload.Pageview?
  {
    InvCommitted(cfg, log, s);
    hide Inv;
    hide Run;
    hide Step;
    hide CatalogOk;
    hide CommittedOk;
    hide StraightFrom;
    hide Ideal;
    hide OwnRows;
    var base := s.history.applied;
    CoveredIsNext(cfg.kind, log, s.db, base);
    hide CoveredBy;
    if polled.PollError? {
      FailedStart(cfg, log, s, clock, begun, rest);
    } else {
      ResumedWalk(cfg, log, s, polled, clock, begun, rest);
      ExactAfterResume(cfg.kind, log, s.db, base, if polled.Delivered? then base[|base| - 1] + 1 else base[|base| - 1],
                       s'.db, s'.history.applied);
    }
  }

  lemma {:induction false} PrefixRuns(cfg: Config, log: Log, s: State, first: seq<Label>, second: seq<Label>)
    requires Run(cfg, log, s, first + second).Some?
    ensures Run(cfg, log, s, first).Some?
  {
    if second == [] {
      assert first + second == first;
    } else {
      var init := second[..|second| - 1];
      assert (first + second)[..|first + second| - 1] == first + init;
      PrefixRuns(cfg, log, s, first, init);
    }
  }

  /** After an exception nothing is committed until the next boot. */
  lemma {:induction false} StaysUnwound(cfg: Config, log: Log, s: State, labels: seq<Label>)
    requires s.consumer.phase == Unwinding || s.consumer.phase == Down
    requires forall l | l in labels :: !l.Boot? && !l.Restore?
    requires Run(cfg, log, s, labels).Some?
    ensures var s' := Run(cfg, log, s, labels).value;
            && s'.history.applied == s.history.applied
            && (s'.consumer.phase == Unwinding || s'.consumer.phase == Down)
  {
    if labels != [] {
      StaysUnwound(cfg, log, s, labels[..|labels| - 1]);
    }
  }

  // ---------------------------------------------------------------- batching refines smaller batches

  lemma FreshInitial(cfg: Config, cat: Catalog)
    requires CatalogOk(cat)
    ensures Initial(cfg, State(Database(cat, map[]), Stopped, History([], [], 0), []))
  {
  }

  /** Whatever a consumer has committed without a silent start, with any batch size, clock and crashes, a consumer
      with any other batch size commits too by reading each entry once. With batch size 1 that is the program of
      one message per transaction. */
  lemma BatchingRefines(cfg: Config, size: int, log: Log, s0: State, labels: seq<Label>, s: State)
    returns (t0: State, steps: seq<Label>, t: State)
    requires IsRun(cfg, log, s0, labels, s) && SilentStarts(labels) == 0 && size > 0
    ensures IsRun(cfg.(batchSize := size), log, t0, steps, t) && SilentStarts(steps) == 0
    ensures t.history.applied == Prefix(CoveredBy(cfg.kind, log, s.db))
    ensures OwnRows(cfg.kind, t.db.rows) == OwnRows(cfg.kind, s.db.rows)
  {
    hide Run;
    hide CatalogOk;
    hide Inv;
    hide Processable;
    var other, n := cfg.(batchSize := size), CoveredBy(cfg.kind, log, s.db);
    ExactlyOnce(cfg, log, s0, labels, s);
    RunCatalog(cfg, log, s0, labels, s);
    t0 := State(Database(s.db.catalog, map[]), Stopped, History([], [], 0), []);
    FreshInitial(other, s.db.catalog);
    InitialInv(other, log, t0);
    NothingCovered(other, log, t0);
    steps, t := CatchesUp(other, log, t0, n);
    ExactlyOnce(other, log, t0, steps, t);
    AppliedIsPrefix(other, log, t);
  }

  lemma NothingCovered(cfg: Config, log: Log, s: State)
    requires LogOk(log) && Initial(cfg, s)
    ensures CoveredBy(cfg.kind, log, s.db) == 0
  {
    var empty: Rows := map[];
    PartsFromRows(cfg.kind, s.db.rows, empty);
  }

  /** Without a silent start the committed entries are a prefix of the log. */
  lemma AppliedIsPrefix(cfg: Config, log: Log, s: State)
    requires Inv(cfg, log, s) && s.history.silent == 0
    ensures s.history.applied == Prefix(CoveredBy(cfg.kind, log, s.db))
  {
    CoveredIsNext(cfg.kind, log, s.db, s.history.applied);
    NoRepeats(s.history.applied);
    WalkBounds(s.history.applied);
  }

  // ---------------------------------------------------------------- the overcount happens

  const ClientId := seq(36, i => if i in {8, 13, 18, 23} then '-' else '0')
  const ContentId := "a content id"
  const SmallCatalog :=
    Catalog(map[ClientId := "a client"], map[ContentId := Content("a page", "/page", ClientId)], {StripDashes(ClientId)})
  const OneView := [Entry(7, Pageview(Some(ContentId), Some(0)))]

  lemma SmallCatalogOk()
    ensures CatalogOk(SmallCatalog)
  {
    assert CanonicalUuid(ClientId);
    assert ClientId in SmallCatalog.clients;
  }

  lemma ReferenceOfOne(cfg: Config, log: Log, s0: State, labels: seq<Label>, s: State)
    requires IsRun(cfg, log, s0, labels, s) && s.history.applied == [0] && 0 < |log|
    ensures Reference(cfg.kind, s.db) == Some(log[0].offset) && log[0].offset >= 0
  {
    RunInv(cfg, log, s0, labels, s);
  }

  /** After one committed entry: the process is killed, boots again, and `Start` times out. */
  lemma TimedOutRestart(cfg: Config, log: Log, s0: State, before: seq<Label>, a: State) returns (labels: seq<Label>, d: State)
    requires IsRun(cfg, log, s0, before, a) && a.history == History([0], [], 0) && 0 < |log|
    ensures Run(cfg, log, s0, labels) == Some(d) && SilentStarts(labels) == SilentStarts(before) + 1
    ensures d.consumer.phase == InnerHead && d.consumer.msgCounter == 0
    ensures d.consumer.now == 0 && d.consumer.lastCommitTime == 0
    ensures d.consumer.position == 0 && d.history == History([0], [], 1) && d.db == a.db
  {
    ReferenceOfOne(cfg, log, s0, before, a);
    var b := RunOne(cfg, log, s0, before, a, Kill);
    var c := RunOne(cfg, log, s0, before + [Kill], b, Boot);
    StartPosition(log, c, 0, TimedOut, 0, true);
    d := RunOne(cfg, log, s0, before + [Kill] + [Boot], c, Start(TimedOut, 0, true));
    labels := before + [Kill] + [Boot] + [Start(TimedOut, 0, true)] + [Tick(0)];
    d := RunOne(cfg, log, s0, before + [Kill] + [Boot] + [Start(TimedOut, 0, true)], d, Tick(0));
  }

  /** ... and the entry is read and committed a second time. */
  lemma SecondCommit(cfg: Config, log: Log, s0: State, labels: seq<Label>, d: State) returns (longer: seq<Label>, s: State)
    requires Run(cfg, log, s0, labels) == Some(d) && Inv(cfg, log, d) && 0 < |log|
    requires Processable(cfg.kind, d.db.catalog, log[0].payload)
    requires d.consumer.phase == InnerHead && d.consumer.msgCounter == 0
    requires d.consumer.now == 0 && d.consumer.lastCommitTime == 0
    requires d.consumer.position == 0 && d.history == History([0], [], 1)
    ensures Run(cfg, log, s0, longer) == Some(s) && SilentStarts(longer) == SilentStarts(labels)
    ensures s.history.applied == [0, 0]
  {
    hide Inv;
    hide Step;
    hide Run;
    var e := DeliverNext(cfg, log, d);
    e := RunOne(cfg, log, s0, labels, d, Deliver(true));
    longer := labels + [Deliver(true)];
    if e.consumer.phase == InnerHead {
      longer, s := CommitLate(cfg, log, s0, longer, e);
    } else {
      longer, s := CommitCycle(cfg, log, s0, longer, e);
    }
    assert [0] + ([] + [0]) == [0, 0];
  }

  /** The proviso of ExactlyOnce is needed, for every batch size and every log that begins with a page view: one
      silent restart after its commit counts it twice. */
  lemma SilentRestartOvercounts(cfg: Config, log: Log, s0: State) returns (labels: seq<Label>, s: State)
    requires LogOk(log) && cfg.batchSize > 0 && Initial(cfg, s0) && 0 < |log|
    requires log[0].payload.Pageview? && Processable(cfg.kind, s0.db.catalog, log[0].payload)
    ensures IsRun(cfg, log, s0, labels, s) && SilentStarts(labels) == 1
    ensures !Exact(cfg.kind, log, s.db)
  {
    hide Step;
    hide Run;
    hide CatalogOk;
    hide Inv;
    hide Processable;
    InitialInv(cfg, log, s0);
    NothingCovered(cfg, log, s0);
    var start, a := CatchesUp(cfg, log, s0, 1);
    AppliedIsPrefix(cfg, log, a);
    assert Prefix(1) == [0];
    var restart, d := TimedOutRestart(cfg, log, s0, start, a);
    RunInv(cfg, log, s0, restart, d);
    labels, s := SecondCommit(cfg, log, s0, restart, d);
    RunInv(cfg, log, s0, labels, s);
    InvCommitted(cfg, log, s);
    assert [0, 0][..1] == [0];
    ExactIffNoPageviewRepeated(cfg.kind, log, s.db, [0, 0]);
  }

  const SmallStart := State(Database(SmallCatalog, map[]), Stopped, History([], [], 0), [])

  lemma SmallStartInitial()
    ensures Initial(Config(ClientConsumer, 1), SmallStart)
    ensures Processable(ClientConsumer, SmallStart.db.catalog, OneView[0].payload)
  {
    SmallCatalogOk();
    FreshInitial(Config(ClientConsumer, 1), SmallCatalog);
    ProcessableIffKnown(ClientConsumer, SmallCatalog, Some(ContentId), Some(0));
  }

  /** Such logs exist: one client, one content row, one view of it. */
  lemma OvercountExample() returns (labels: seq<Label>, s: State)
    ensures IsRun(Config(ClientConsumer, 1), OneView, SmallStart, labels, s) && SilentStarts(labels) == 1
    ensures !Exact(ClientConsumer, OneView, s.db)
  {
    SmallStartInitial();
    labels, s := SilentRestartOvercounts(Config(ClientConsumer, 1), OneView, SmallStart);
  }
}
