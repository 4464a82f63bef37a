/** Where nothing goes wrong a consumer gets on: it reads every accepted entry, fills its batches, and commits by
    size and by time.
  */
module ConsumerProgress {
  import opened Wrappers
  import opened PageviewStore
  import opened Transactions
  import opened MessageLog
  import opened ConsumerMachine
  import opened ConsumerSafety
  import opened ConsumerInvariant
  import opened ConsumerTheorems

  // ---------------------------------------------------------------- steps that succeed

  /** An accepted entry is applied and counted, and the batch is saved when it is full and not before. */
  lemma DeliverNext(cfg: Config, log: Log, s: State) returns (s': State)
    requires Inv(cfg, log, s) && s.consumer.phase == InnerHead && s.consumer.position < |log|
    requires Processable(cfg.kind, s.db.catalog, log[s.consumer.position].payload)
    ensures Step(cfg, log, s, Deliver(true)) == Some(s')
    ensures s'.consumer.phase == if s.consumer.msgCounter + 1 == cfg.batchSize then Saving(true) else InnerHead
    ensures s'.consumer.position == s.consumer.position + 1 && s'.consumer.msgCounter == s.consumer.msgCounter + 1
    ensures s'.consumer.sourceReference == log[s.consumer.position].offset
    ensures s'.consumer.now == s.consumer.now && s'.consumer.lastCommitTime == s.consumer.lastCommitTime
    ensures s'.db == s.db && s'.consumer.txn.Open?
    ensures s'.history == s.history.(pending := s.history.pending + [s.consumer.position])
  {
    hide CountedRow;
    hide CatalogOk;
    hide CommittedOk;
    hide ResumesAt;
    hide AllProcessable;
    var payload := log[s.consumer.position].payload;
    if StatementFor(cfg.kind, payload).Some? {
      DeliveredEffect(cfg.kind, s.db, s.consumer.txn, payload, true);
    }
    SmallRemainder(s.consumer.msgCounter + 1, cfg.batchSize);
    s' := DeliverStep(cfg, log, s, true).value;
  }

  lemma SaveNext(cfg: Config, log: Log, s: State) returns (s': State)
    requires s.consumer.phase.Saving? && s.consumer.txn.Open?
    ensures Step(cfg, log, s, WriteReference(true)) == Some(s')
    ensures s'.consumer == s.consumer.(phase := Saved(s.consumer.phase.bySize), txn := s'.consumer.txn) && s'.consumer.txn.Open?
    ensures s'.db == s.db && s'.history == s.history
  {
    s' := WriteReferenceStep(cfg, s, true);
  }

  lemma CommitNext(cfg: Config, log: Log, s: State) returns (s': State)
    requires s.consumer.phase.Saved? && s.consumer.txn.Open?
    ensures Step(cfg, log, s, CommitBatch(Acknowledged)) == Some(s')
    ensures s'.consumer == s.consumer.(phase := Renewing(s.consumer.phase.bySize), txn := Idle, msgCounter := 0,
                                       lastCommitTime := s.consumer.now)
    ensures s'.db.catalog == s.db.catalog
    ensures s'.history == s.history.(applied := s.history.applied + s.history.pending, pending := [])
  {
    s' := CommitStep(s, Acknowledged);
  }

  lemma BeginAgain(cfg: Config, log: Log, s: State) returns (s': State)
    requires s.consumer.phase.Renewing? && s.consumer.txn == Idle
    ensures Step(cfg, log, s, BeginNext(true)) == Some(s')
    ensures s' == s.(consumer := s.consumer.(txn := Open(map[]),
                                             phase := if s.consumer.phase.bySize then InnerHead else OuterHead))
  {
    s' := BeginStep(s, true);
  }

  /** The time commit: due after 30 seconds, counted in nanoseconds, and only with something to commit. */
  lemma TimeCheck(cfg: Config, log: Log, s: State, polled: Polled) returns (s': State)
    requires s.consumer.phase == InnerHead && (polled == TimedOut || polled == EndOfPartition)
    ensures Step(cfg, log, s, NoMessage(polled)) == Some(s')
    ensures s'.db == s.db && s'.history == s.history
    ensures s'.consumer == s.consumer.(phase := s'.consumer.phase, lastCommitTime := s'.consumer.lastCommitTime)
    ensures s'.consumer.phase == Saving(false) <==>
              s.consumer.msgCounter > 0 && s.consumer.now - s.consumer.lastCommitTime >= 30_000_000_000
    ensures s'.consumer.phase != Saving(false) ==> s'.consumer.phase == OuterHead
    ensures s'.consumer.lastCommitTime == if s.consumer.msgCounter == 0 then s.consumer.now else s.consumer.lastCommitTime
  {
    s' := NoMessageStep(s, polled).value;
  }

  // ---------------------------------------------------------------- runs one step longer

  lemma SilentSnoc(labels: seq<Label>, l: Label)
    ensures SilentStarts(labels + [l]) == SilentStarts(labels) + if l.Start? && SilentPoll(l.polled) then 1 else 0
  {
    assert (labels + [l])[..|labels|] == labels;
  }

  lemma RunOne(cfg: Config, log: Log, s0: State, labels: seq<Label>, s: State, l: Label) returns (s': State)
    requires Run(cfg, log, s0, labels) == Some(s) && Step(cfg, log, s, l).Some?
    ensures Run(cfg, log, s0, labels + [l]) == Some(s') && Step(cfg, log, s, l) == Some(s')
    ensures Inv(cfg, log, s) ==> Inv(cfg, log, s')
    ensures SilentStarts(labels + [l]) == SilentStarts(labels) + if l.Start? && SilentPoll(l.polled) then 1 else 0
  {
    hide Inv;
    RunSnoc(cfg, log, s0, labels, l);
    SilentSnoc(labels, l);
    s' := Step(cfg, log, s, l).value;
    if Inv(cfg, log, s) {
      StepKeeps(cfg, log, s, l);
    }
  }

  /** The three actions of a commit. */
  lemma CommitCycle(cfg: Config, log: Log, s0: State, labels: seq<Label>, s: State) returns (longer: seq<Label>, s': State)
    requires Run(cfg, log, s0, labels) == Some(s) && Inv(cfg, log, s) && s.consumer.phase.Saving?
    ensures Run(cfg, log, s0, longer) == Some(s') && Inv(cfg, log, s')
    ensures SilentStarts(longer) == SilentStarts(labels)
    ensures s'.consumer == s.consumer.(phase := if s.consumer.phase.bySize then InnerHead else OuterHead, txn := Open(map[]),
                                       msgCounter := 0, lastCommitTime := s.consumer.now)
    ensures s'.db.catalog == s.db.catalog
    ensures s'.history == s.history.(applied := s.history.applied + s.history.pending, pending := [])
  {
    assert s.consumer.txn.Open?;
    hide Inv;
    hide Step;
    hide Run;
    var a := SaveNext(cfg, log, s);
    a := RunOne(cfg, log, s0, labels, s, WriteReference(true));
    var b := CommitNext(cfg, log, a);
    b := RunOne(cfg, log, s0, labels + [WriteReference(true)], a, CommitBatch(Acknowledged));
    s' := BeginAgain(cfg, log, b);
    longer := labels + [WriteReference(true)] + [CommitBatch(Acknowledged)] + [BeginNext(true)];
    s' := RunOne(cfg, log, s0, labels + [WriteReference(true)] + [CommitBatch(Acknowledged)], b, BeginNext(true));
  }

  // ---------------------------------------------------------------- reading on

  /** How many of `d` entries are left over by batches of size `b`. */
  function Rest(d: int, b: int): int
    requires b > 0
  {
    d % b
  }

  /** The consumer has read on from `first` without a pause: full batches are committed, the rest is pending. */
  ghost predicate Reading(cfg: Config, log: Log, first: nat, s: State) {
    && Inv(cfg, log, s) && s.consumer.phase == InnerHead
    && first <= s.consumer.position <= |log|
    && s.consumer.msgCounter == Rest(s.consumer.position - first, cfg.batchSize)
    && Next(s.history.applied) + s.consumer.msgCounter == s.consumer.position
    && (s.consumer.msgCounter > 0 ==>
          s.history.pending != [] && s.history.pending[|s.history.pending| - 1] + 1 == s.consumer.position)
    && s.consumer.now == 0 && s.consumer.lastCommitTime == 0
  }

  lemma SmallMultiple(b: int, k: int)
    requires b > 0
    ensures k >= 1 ==> b * k >= b
    ensures k <= -1 ==> b * k <= -b
  {
    if k >= 1 {
      assert b * k >= b * 1;
    } else if k <= -1 {
      assert b * k <= b * -1;
    }
  }

  /** Quotient and remainder are the only ones. */
  lemma QuotientOf(n: int, b: int, q: int, r: int)
    requires n == b * q + r && 0 <= r < b
    ensures n / b == q && n % b == r
  {
    var k := n / b - q;
    assert b * (n / b) + n % b == n;
    assert b * (q + k) == b * q + b * k;
    assert n / b == q + k;
    SmallMultiple(b, k);
  }

  lemma RestSucc(d: int, b: int)
    requires b > 0
    ensures Rest(d + 1, b) == if Rest(d, b) + 1 == b then 0 else Rest(d, b) + 1
  {
    var q, r := d / b, d % b;
    assert d == b * q + r;
    if r + 1 == b {
      assert b * (q + 1) == b * q + b;
      QuotientOf(d + 1, b, q + 1, 0);
    } else {
      QuotientOf(d + 1, b, q, r + 1);
    }
  }

  lemma FullBatches(d: int, b: int)
    requires b > 0
    ensures d - Rest(d, b) == b * (d / b)
  {
  }

  lemma NoRest(b: int)
    requires b > 0
    ensures Rest(0, b) == 0
  {
  }

  /** The last entry of `applied + pending`, if something is pending, is the one just read. */
  lemma NextAfterCommit(s: State)
    requires s.history.pending != []
    requires s.history.pending[|s.history.pending| - 1] + 1 == s.consumer.position
    ensures Next(s.history.applied + s.history.pending) == s.consumer.position
  {
    var h := s.history;
    assert (h.applied + h.pending)[|h.applied + h.pending| - 1] == h.pending[|h.pending| - 1];
  }

  lemma ReadOne(cfg: Config, log: Log, first: nat, s0: State, labels: seq<Label>, s: State) returns (longer: seq<Label>, s': State)
    requires Run(cfg, log, s0, labels) == Some(s) && Reading(cfg, log, first, s) && s.consumer.position < |log|
    requires Processable(cfg.kind, s.db.catalog, log[s.consumer.position].payload)
    ensures Run(cfg, log, s0, longer) == Some(s') && Reading(cfg, log, first, s')
    ensures SilentStarts(longer) == SilentStarts(labels)
    ensures s'.consumer.position == s.consumer.position + 1 && s'.db.catalog == s.db.catalog
    ensures s'.history.silent == s.history.silent
  {
    hide Inv;
    hide Step;
    hide Run;
    hide Rest;
    hide Processable;
    InvParts(cfg, log, s);
    HeadState(cfg, log, s);
    hide CommittedOk;
    RestSucc(s.consumer.position - first, cfg.batchSize);
    var d := DeliverNext(cfg, log, s);
    s' := RunOne(cfg, log, s0, labels, s, Deliver(true));
    longer := labels + [Deliver(true)];
    if s'.consumer.phase == Saving(true) {
      NextAfterCommit(s');
      longer, s' := CommitCycle(cfg, log, s0, longer, s');
    }
  }

  lemma {:induction false} ReadTo(cfg: Config, log: Log, first: nat, s0: State, labels: seq<Label>, s: State, n: nat)
    returns (longer: seq<Label>, s': State)
    requires Run(cfg, log, s0, labels) == Some(s) && Reading(cfg, log, first, s)
    requires s.consumer.position <= n <= |log|
    requires forall i | s.consumer.position <= i < n :: Processable(cfg.kind, s.db.catalog, log[i].payload)
    ensures Run(cfg, log, s0, longer) == Some(s') && Reading(cfg, log, first, s')
    ensures SilentStarts(longer) == SilentStarts(labels)
    ensures s'.consumer.position == n && s'.db.catalog == s.db.catalog && s'.history.silent == s.history.silent
    decreases n - s.consumer.position
  {
    hide Run;
    hide Inv;
    hide Rest;
    if s.consumer.position == n {
      longer, s' := labels, s;
    } else {
      longer, s' := ReadOne(cfg, log, first, s0, labels, s);
      longer, s' := ReadTo(cfg, log, first, s0, longer, s', n);
    }
  }

  lemma ResumePosition(cfg: Config, log: Log, s: State) returns (b: State, c: State)
    requires Inv(cfg, log, s) && s.consumer.phase == Down
    ensures Step(cfg, log, s, Boot) == Some(b) && Step(cfg, log, b, Start(Delivered, 0, true)) == Some(c)
    ensures c.db == s.db && c.history == s.history
    ensures c.consumer.phase == OuterHead && c.consumer.position == Next(s.history.applied)
    ensures c.consumer.msgCounter == 0 && c.consumer.lastCommitTime == 0
  {
    b := BootStep(cfg, s);
    BootKeeps(cfg, log, s);
    var applied := s.history.applied;
    if applied != [] {
      StartPosition(log, b, applied[|applied| - 1], Delivered, 0, true);
    }
    c := StartStep(log, b, Delivered, 0, true).value;
  }

  /** A start that obtains its message reads on from the first entry that is not covered. */
  lemma Resume(cfg: Config, log: Log, s: State) returns (labels: seq<Label>, s': State)
    requires Inv(cfg, log, s) && s.consumer.phase == Down
    ensures Run(cfg, log, s, labels) == Some(s') && SilentStarts(labels) == 0
    ensures CoveredBy(cfg.kind, log, s.db) <= |log| && Reading(cfg, log, CoveredBy(cfg.kind, log, s.db), s')
    ensures s'.consumer.position == CoveredBy(cfg.kind, log, s.db) && s'.consumer.msgCounter == 0
    ensures s'.db == s.db && s'.history == s.history
  {
    InvParts(cfg, log, s);
    NoRest(cfg.batchSize);
    hide Rest;
    CoveredIsNext(cfg.kind, log, s.db, s.history.applied);
    var b, c := ResumePosition(cfg, log, s);
    assert Run(cfg, log, s, []) == Some(s) && SilentStarts([]) == 0;
    hide Inv;
    hide Run;
    b := RunOne(cfg, log, s, [], s, Boot);
    c := RunOne(cfg, log, s, [] + [Boot], b, Start(Delivered, 0, true));
    s' := RunOne(cfg, log, s, [] + [Boot] + [Start(Delivered, 0, true)], c, Tick(0));
    labels := [] + [Boot] + [Start(Delivered, 0, true)] + [Tick(0)];
  }

  lemma InvParts(cfg: Config, log: Log, s: State)
    requires Inv(cfg, log, s)
    ensures LogOk(log) && cfg.batchSize > 0 && CommittedOk(cfg.kind, log, s.db, s.history.applied)
  {
  }

  // ---------------------------------------------------------------- progress

  /** From any stopped state the consumer can read all accepted entries up to `n`. */
  lemma ReadsUpTo(cfg: Config, log: Log, s: State, n: nat) returns (labels: seq<Label>, s': State)
    requires Inv(cfg, log, s) && s.consumer.phase == Down
    requires CoveredBy(cfg.kind, log, s.db) <= n <= |log|
    requires forall i | CoveredBy(cfg.kind, log, s.db) <= i < n :: Processable(cfg.kind, s.db.catalog, log[i].payload)
    ensures Run(cfg, log, s, labels) == Some(s') && SilentStarts(labels) == 0
    ensures Reading(cfg, log, CoveredBy(cfg.kind, log, s.db), s') && s'.consumer.position == n
    ensures s'.db.catalog == s.db.catalog && s'.history.silent == s.history.silent
    ensures CoveredBy(cfg.kind, log, s'.db) == Next(s'.history.applied)
  {
    hide Run;
    hide Inv;
    hide Rest;
    hide CommittedOk;
    labels, s' := Resume(cfg, log, s);
    labels, s' := ReadTo(cfg, log, CoveredBy(cfg.kind, log, s.db), s, labels, s', n);
    InvParts(cfg, log, s');
    CoveredIsNext(cfg.kind, log, s'.db, s'.history.applied);
  }

  /** With any batch size, from any stopped state: the consumer can read all accepted entries up to `n`, and has
      then committed the full batches among those that were not covered before. */
  lemma FillsBatches(cfg: Config, log: Log, s: State, n: nat) returns (labels: seq<Label>, s': State)
    requires Inv(cfg, log, s) && s.consumer.phase == Down && cfg.batchSize > 0
    requires CoveredBy(cfg.kind, log, s.db) <= n <= |log|
    requires forall i | CoveredBy(cfg.kind, log, s.db) <= i < n :: Processable(cfg.kind, s.db.catalog, log[i].payload)
    ensures Run(cfg, log, s, labels) == Some(s') && SilentStarts(labels) == 0
    ensures s'.consumer.phase == InnerHead && s'.consumer.position == n
    ensures var c := CoveredBy(cfg.kind, log, s.db);
            CoveredBy(cfg.kind, log, s'.db) == c + cfg.batchSize * ((n - c) / cfg.batchSize)
  {
    hide Run;
    hide Inv;
    hide CoveredBy;
    labels, s' := ReadsUpTo(cfg, log, s, n);
    FullBatches(n - CoveredBy(cfg.kind, log, s.db), cfg.batchSize);
  }

  /** ... and commits the rest too once 30 seconds have passed: it catches up with every accepted entry. */
  lemma CatchesUp(cfg: Config, log: Log, s: State, n: nat) returns (labels: seq<Label>, s': State)
    requires Inv(cfg, log, s) && s.consumer.phase == Down
    requires CoveredBy(cfg.kind, log, s.db) <= n <= |log|
    requires forall i | CoveredBy(cfg.kind, log, s.db) <= i < n :: Processable(cfg.kind, s.db.catalog, log[i].payload)
    ensures Run(cfg, log, s, labels) == Some(s') && Inv(cfg, log, s') && SilentStarts(labels) == 0
    ensures CoveredBy(cfg.kind, log, s'.db) == n && s'.db.catalog == s.db.catalog
    ensures s'.history.silent == s.history.silent && s'.consumer.msgCounter == 0
    ensures s'.history.pending == [] && s'.consumer.txn.Open?
    ensures s'.consumer.phase == InnerHead || s'.consumer.phase == OuterHead
  {
    hide Run;
    hide Inv;
    hide Rest;
    hide CommittedOk;
    labels, s' := ReadsUpTo(cfg, log, s, n);
    if s'.consumer.msgCounter > 0 {
      NextAfterCommit(s');
      labels, s' := CommitLate(cfg, log, s, labels, s');
    }
    InvParts(cfg, log, s');
    CoveredIsNext(cfg.kind, log, s'.db, s'.history.applied);
    HeadState(cfg, log, s');
  }

  lemma AfterRestore(cfg: Config, log: Log, s: State, i: nat) returns (r: State)
    requires Inv(cfg, log, s) && s.consumer.phase == Down && i < |s.backups|
    ensures Step(cfg, log, s, Restore(i)) == Some(r) && Inv(cfg, log, r)
    ensures r.db == s.backups[i].db && r.consumer == s.consumer && r.history.silent == s.history.silent
  {
    RestoreKeeps(cfg, log, s, i);
    r := Step(cfg, log, s, Restore(i)).value;
  }

  /** A restored backup is brought up to date: after any run, from any backup, the consumer reads the entries that
      the backup did not cover, and the counts are exact if no start before was silent. */
  lemma RecoversFromBackup(cfg: Config, log: Log, s0: State, labels: seq<Label>, s: State, i: nat, n: nat)
    returns (longer: seq<Label>, s': State)
    requires IsRun(cfg, log, s0, labels, s) && s.consumer.phase == Down && i < |s.backups|
    requires CoveredBy(cfg.kind, log, s.backups[i].db) <= n <= |log|
    requires forall k | CoveredBy(cfg.kind, log, s.backups[i].db) <= k < n ::
               Processable(cfg.kind, s.backups[i].db.catalog, log[k].payload)
    ensures labels + [Restore(i)] <= longer && IsRun(cfg, log, s0, longer, s') && SilentStarts(longer) == SilentStarts(labels)
    ensures CoveredBy(cfg.kind, log, s'.db) == n && s'.db.catalog == s.backups[i].db.catalog
    ensures SilentStarts(labels) == 0 ==> Exact(cfg.kind, log, s'.db)
  {
    RunInv(cfg, log, s0, labels, s);
    var r := AfterRestore(cfg, log, s, i);
    RunSnoc(cfg, log, s0, labels, Restore(i));
    hide Inv;
    hide Step;
    hide Run;
    hide Exact;
    var steps;
    steps, s' := CatchesUp(cfg, log, r, n);
    RunAppend(cfg, log, s0, labels + [Restore(i)], steps);
    longer := labels + [Restore(i)] + steps;
    RunInv(cfg, log, s0, longer, s');
    if SilentStarts(labels) == 0 {
      ExactlyOnce(cfg, log, s0, longer, s');
    }
  }

  lemma HeadState(cfg: Config, log: Log, s: State)
    requires Inv(cfg, log, s) && (s.consumer.phase == InnerHead || s.consumer.phase == OuterHead)
    ensures s.consumer.txn.Open? && |s.history.pending| == s.consumer.msgCounter
  {
  }

  /** One turn of the outer loop 30 seconds later. */
  lemma CommitLate(cfg: Config, log: Log, s0: State, labels: seq<Label>, s: State) returns (longer: seq<Label>, s': State)
    requires Run(cfg, log, s0, labels) == Some(s) && Inv(cfg, log, s) && s.consumer.phase == InnerHead
    requires s.consumer.msgCounter > 0 && s.consumer.now == 0 && s.consumer.lastCommitTime == 0
    ensures Run(cfg, log, s0, longer) == Some(s') && Inv(cfg, log, s') && SilentStarts(longer) == SilentStarts(labels)
    ensures s'.consumer.phase == OuterHead && s'.consumer.msgCounter == 0
    ensures s'.history == s.history.(applied := s.history.applied + s.history.pending, pending := [])
    ensures s'.db.catalog == s.db.catalog
  {
    hide Inv;
    hide Run;
    var a := TimeCheck(cfg, log, s, TimedOut);
    a := RunOne(cfg, log, s0, labels, s, NoMessage(TimedOut));
    var b := RunOne(cfg, log, s0, labels + [NoMessage(TimedOut)], a, Tick(30_000_000_000));
    var d := TimeCheck(cfg, log, b, TimedOut);
    longer := labels + [NoMessage(TimedOut)] + [Tick(30_000_000_000)] + [NoMessage(TimedOut)];
    d := RunOne(cfg, log, s0, labels + [NoMessage(TimedOut)] + [Tick(30_000_000_000)], b, NoMessage(TimedOut));
    longer, s' := CommitCycle(cfg, log, s0, longer, d);
  }

  // ---------------------------------------------------------------- what may go wrong, anywhere

  /** The process may die in every state, and the connection be lost around a COMMIT; neither touches a committed
      row that the COMMIT would not. Backups may be taken in every state and restored when the process is down. */
  lemma MayFailAnywhere(cfg: Config, log: Log, s: State)
    ensures Step(cfg, log, s, Kill) == Some(s.(consumer := Stopped, history := s.history.(pending := [])))
    ensures s.consumer.phase.Saved? ==>
              && Step(cfg, log, s, CommitBatch(LostBefore)).Some? && Step(cfg, log, s, CommitBatch(LostAfter)).Some?
              && Step(cfg, log, s, CommitBatch(LostBefore)).value.db == s.db
              && Step(cfg, log, s, CommitBatch(LostAfter)).value.db == Commit(s.db, s.consumer.txn)
    ensures Step(cfg, log, s, TakeBackup).Some?
    ensures forall i: nat | s.consumer.phase == Down && i < |s.backups| ::
              Step(cfg, log, s, Restore(i)).Some? && Step(cfg, log, s, Restore(i)).value.db == s.backups[i].db
  {
  }
}
