/** Every step of a consumer keeps the invariant of ConsumerSafety. */
module ConsumerInvariant {
  import opened Wrappers
  import opened PageviewStore
  import opened Transactions
  import opened MessageLog
  import opened ConsumerMachine
  import opened ConsumerSafety

  lemma BootKeeps(cfg: Config, log: Log, s: State)
    requires Inv(cfg, log, s) && s.consumer.phase == Down
    ensures Inv(cfg, log, BootStep(cfg, s))
  {
  }

  lemma DeadKeeps(cfg: Config, log: Log, s: State)
    requires Inv(cfg, log, s)
    ensures Inv(cfg, log, Dead(s))
  {
  }

  /** From a resuming `Start` that obtained its message the walk goes on; from one that did not, it
      repeats its last entry. */
  lemma ResumeAfterStart(xs: seq<nat>, silent: nat)
    requires Walk(xs) && Repeats(xs) <= silent
    ensures ResumesAt(xs, Next(xs), silent)
    ensures xs != [] ==> ResumesAt(xs, Next(xs) - 1, silent + 1)
  {
    WalkSnoc(xs, Next(xs));
    RepeatsSnoc(xs, Next(xs));
    if xs != [] {
      WalkSnoc(xs, Next(xs) - 1);
      RepeatsSnoc(xs, Next(xs) - 1);
    }
  }

  lemma EnterLoopKeeps(cfg: Config, log: Log, s: State, position: nat, silent: nat, clock: int, begun: bool)
    requires Inv(cfg, log, s) && s.consumer.phase == Booted
    requires silent >= s.history.silent && position <= |log|
    requires ResumesAt(s.history.applied, position, silent)
    ensures Inv(cfg, log, s.(consumer := EnterLoop(s.consumer.(position := position), clock, begun),
                             history := s.history.(silent := silent)))
  {
    var h := s.history;
    assert h.applied + [] == h.applied;
    assert s.db.rows + map[] == s.db.rows;
  }

  /** Once an exception is on its way only the committed state matters. */
  lemma UnwindKeeps(cfg: Config, log: Log, s: State, c: Consumer)
    requires Inv(cfg, log, s)
    ensures Inv(cfg, log, s.(consumer := Unwind(c)))
  {
  }

  lemma StartFresh(cfg: Config, log: Log, s: State, polled: Polled, clock: int, begun: bool)
    requires Inv(cfg, log, s) && s.consumer.phase == Booted
    requires s.history.applied == [] && polled.Delivered?
    ensures StartStep(log, s, polled, clock, begun).Some?
    ensures Inv(cfg, log, StartStep(log, s, polled, clock, begun).value)
  {
    ResumeAfterStart(s.history.applied, s.history.silent);
    EnterLoopKeeps(cfg, log, s, 0, s.history.silent, clock, begun);
    assert s.history.(silent := s.history.silent) == s.history;
  }

  /** Where a resuming `Start` leaves the position: after its message if it obtained it, on it otherwise. */
  lemma StartPosition(log: Log, s: State, last: nat, polled: Polled, clock: int, begun: bool)
    requires LogOk(log) && last < |log| && s.consumer.sourceReference == log[last].offset && !polled.PollError?
    ensures StartStep(log, s, polled, clock, begun)
         == Some(s.(consumer := EnterLoop(s.consumer.(position := if polled.Delivered? then last + 1 else last), clock, begun),
                    history := s.history.(silent := s.history.silent + if polled.Delivered? then 0 else 1)))
  {
    SeekFinds(log, last);
    assert s.history.(silent := s.history.silent) == s.history;
  }

  lemma BootedAt(cfg: Config, log: Log, s: State)
    requires Inv(cfg, log, s) && s.consumer.phase == Booted && s.history.applied != []
    ensures var h := s.history;
            var last := h.applied[|h.applied| - 1];
            && LogOk(log) && last < |log| && s.consumer.sourceReference == log[last].offset && Next(h.applied) == last + 1
            && Walk(h.applied) && Repeats(h.applied) <= h.silent
  {
  }

  lemma StartResuming(cfg: Config, log: Log, s: State, polled: Polled, clock: int, begun: bool)
    requires Inv(cfg, log, s) && s.consumer.phase == Booted
    requires s.history.applied != [] && !polled.PollError?
    ensures StartStep(log, s, polled, clock, begun).Some?
    ensures Inv(cfg, log, StartStep(log, s, polled, clock, begun).value)
  {
    hide Inv;
    hide StartStep;
    hide EnterLoop;
    hide ResumesAt;
    BootedAt(cfg, log, s);
    var h := s.history;
    var last := h.applied[|h.applied| - 1];
    ResumeAfterStart(h.applied, h.silent);
    StartPosition(log, s, last, polled, clock, begun);
    if polled.Delivered? {
      EnterLoopKeeps(cfg, log, s, last + 1, h.silent, clock, begun);
    } else {
      EnterLoopKeeps(cfg, log, s, last, h.silent + 1, clock, begun);
    }
  }

  lemma StartKeeps(cfg: Config, log: Log, s: State, polled: Polled, clock: int, begun: bool)
    requires Inv(cfg, log, s) && s.consumer.phase == Booted
    requires StartStep(log, s, polled, clock, begun).Some?
    ensures Inv(cfg, log, StartStep(log, s, polled, clock, begun).value)
  {
    if polled.PollError? {
      UnwindKeeps(cfg, log, s, s.consumer);
    } else if s.history.applied == [] {
      StartFresh(cfg, log, s, polled, clock, begun);
    } else {
      StartResuming(cfg, log, s, polled, clock, begun);
    }
  }

  lemma IncrementView(kind: Kind, db: Database, writes: Rows, key: RowKey)
    requires Owns(kind, key) && !key.RefRow?
    requires OwnKeys(kind, writes)
    ensures var e := Increment(db, Open(writes), Some(key));
            && e.db == db && e.txn.Open? && e.reply.Returned?
            && OwnKeys(kind, e.txn.writes)
            && CounterRows(kind, View(db, e.txn)) == Bump(CounterRows(kind, db.rows + writes), Some(key))
            && Lookup(e.txn.writes, RefRow(SourceId(kind))) == Lookup(writes, RefRow(SourceId(kind)))
  {
    hide CatalogOk;
    var view := db.rows + writes;
    var e := Increment(db, Open(writes), Some(key));
    assert View(db, e.txn) == view[key := if key in view then view[key] + 1 else 1];
    assert key in view <==> key in CounterRows(kind, view);
  }

  /** The statement sent for a payload increments its row, or fails exactly where it has none. */
  lemma DeliveredEffect(kind: Kind, db: Database, txn: Txn, payload: Payload, ok: bool)
    requires txn.Open? && OwnKeys(kind, txn.writes)
    requires StatementFor(kind, payload).Some?
    ensures var e := Execute(StatementFor(kind, payload).value, db, txn, ok);
            var row := EffectRow(kind, db.catalog, payload);
            && e.db == db
            && (e.reply.Failed? <==> !ok || row.None?)
            && (e.reply.Failed? ==> e.txn == Aborted)
            && (e.reply.Returned? ==>
                  && e.txn.Open? && OwnKeys(kind, e.txn.writes)
                  && Lookup(e.txn.writes, RefRow(SourceId(kind))) == Lookup(txn.writes, RefRow(SourceId(kind)))
                  && CounterRows(kind, View(db, e.txn)) == Bump(CounterRows(kind, View(db, txn)), row))
  {
    var row := EffectRow(kind, db.catalog, payload);
    EffectRowOwned(kind, db.catalog, payload);
    if row.Some? {
      IncrementView(kind, db, txn.writes, row.value);
    }
  }

  lemma ResumeAfterRead(xs: seq<nat>, position: nat, silent: nat)
    requires ResumesAt(xs, position, silent)
    ensures ResumesAt(xs + [position], position + 1, silent)
  {
    WalkSnoc(xs + [position], position + 1);
    RepeatsSnoc(xs + [position], position + 1);
  }

  /** After a read whose effect is in the open transaction, that transaction holds one message more. */
  lemma PendingAfterRead(kind: Kind, log: Log, s: State, s': State)
    requires PendingOk(kind, log, s) && s.consumer.position < |log|
    requires s'.db == s.db && s'.consumer.txn.Open? && OwnKeys(kind, s'.consumer.txn.writes)
    requires Processable(kind, s.db.catalog, log[s.consumer.position].payload)
    requires CounterRows(kind, View(s.db, s'.consumer.txn))
          == Bump(CounterRows(kind, View(s.db, s.consumer.txn)),
                  EffectRow(kind, s.db.catalog, log[s.consumer.position].payload))
    requires s'.consumer.position == s.consumer.position + 1 && s'.consumer.msgCounter == s.consumer.msgCounter + 1
    requires s'.consumer.sourceReference == log[s.consumer.position].offset
    requires s'.history == s.history.(pending := s.history.pending + [s.consumer.position])
    ensures PendingOk(kind, log, s')
  {
    var c, h := s.consumer, s.history;
    var whole := h.applied + h.pending;
    assert h.applied + s'.history.pending == whole + [c.position];
    ExtendIndices(kind, s.db.catalog, log, whole, c.position);
    CountersSnoc(Effects(kind, s.db.catalog, log), whole, c.position);
    ResumeAfterRead(whole, c.position, h.silent);
  }

  lemma ExtendIndices(kind: Kind, cat: Catalog, log: Log, indices: seq<nat>, i: nat)
    requires InLog(log, indices) && AllProcessable(kind, cat, log, indices)
    requires i < |log| && Processable(kind, cat, log[i].payload)
    ensures InLog(log, indices + [i]) && AllProcessable(kind, cat, log, indices + [i])
  {
  }

  lemma DeliverKeeps(cfg: Config, log: Log, s: State, ok: bool)
    requires Inv(cfg, log, s) && s.consumer.phase == InnerHead
    requires DeliverStep(cfg, log, s, ok).Some?
    ensures Inv(cfg, log, DeliverStep(cfg, log, s, ok).value)
  {
    var c := s.consumer;
    var s' := DeliverStep(cfg, log, s, ok).value;
    var payload := log[c.position].payload;
    if StatementFor(cfg.kind, payload).Some? {
      DeliveredEffect(cfg.kind, s.db, c.txn, payload, ok);
    }
    if s'.consumer.phase == Unwinding {
      UnwindKeeps(cfg, log, s, s'.consumer);
    } else {
      PendingAfterRead(cfg.kind, log, s, s');
      SmallRemainder(c.msgCounter + 1, cfg.batchSize);
    }
  }

  /** Below the batch size the counter is its own remainder. */
  lemma SmallRemainder(count: int, batchSize: int)
    requires 0 < count <= batchSize
    ensures count % batchSize == 0 <==> count == batchSize
  {
    if count < batchSize {
      assert count % batchSize == count;
    }
  }

  lemma NoMessageKeeps(cfg: Config, log: Log, s: State, polled: Polled)
    requires Inv(cfg, log, s) && s.consumer.phase == InnerHead
    requires NoMessageStep(s, polled).Some?
    ensures Inv(cfg, log, NoMessageStep(s, polled).value)
  {
    hide CatalogOk;
    hide AllProcessable;
    hide Counters;
    hide CounterRows;
    hide Walk;
    hide Repeats;
    hide LastOffset;
    hide Reference;
    hide OwnKeys;
    var s' := NoMessageStep(s, polled).value;
    if s'.consumer.phase != Unwinding {
      assert PendingOk(cfg.kind, log, s');
    }
  }

  lemma ReferenceOutsideCounters(kind: Kind, rows: Rows, writes: Rows, offset: int)
    ensures CounterRows(kind, rows + writes[RefRow(SourceId(kind)) := offset]) == CounterRows(kind, rows + writes)
  {
    var key := RefRow(SourceId(kind));
    assert rows + writes[key := offset] == (rows + writes)[key := offset];
  }

  lemma WriteReferenceKeeps(cfg: Config, log: Log, s: State, ok: bool)
    requires Inv(cfg, log, s) && s.consumer.phase.Saving?
    ensures Inv(cfg, log, WriteReferenceStep(cfg, s, ok))
  {
    hide CatalogOk;
    hide AllProcessable;
    hide Counters;
    hide Effects;
    hide Walk;
    hide Repeats;
    var s' := WriteReferenceStep(cfg, s, ok);
    if ok {
      ReferenceOutsideCounters(cfg.kind, s.db.rows, s.consumer.txn.writes, s.consumer.sourceReference);
      assert PendingOk(cfg.kind, log, s');
    } else {
      UnwindKeeps(cfg, log, s, s'.consumer);
    }
  }

  lemma WalkCommitted(whole: seq<nat>, position: nat, silent: nat)
    requires ResumesAt(whole, position, silent)
    ensures Walk(whole) && Repeats(whole) <= silent
  {
    RepeatsSnoc(whole, position);
    WalkPrefix(whole + [position], |whole|);
    assert (whole + [position])[..|whole|] == whole;
  }

  /** What the transaction holds becomes the committed state. */
  lemma BatchCommitted(kind: Kind, log: Log, s: State)
    requires CommittedOk(kind, log, s.db, s.history.applied) && PendingOk(kind, log, s) && 0 < s.consumer.msgCounter
    requires var key := RefRow(SourceId(kind));
             key in s.consumer.txn.writes && s.consumer.txn.writes[key] == s.consumer.sourceReference
    ensures CommittedOk(kind, log, Commit(s.db, s.consumer.txn), s.history.applied + s.history.pending)
    ensures Repeats(s.history.applied + s.history.pending) <= s.history.silent
  {
    hide CatalogOk;
    hide AllProcessable;
    hide Counters;
    hide CounterRows;
    hide Effects;
    var h := s.history;
    var whole := h.applied + h.pending;
    WalkCommitted(whole, s.consumer.position, h.silent);
    hide Walk;
    hide Repeats;
    hide ResumesAt;
    assert whole[|whole| - 1] == h.pending[|h.pending| - 1];
  }

  lemma CommitKeeps(cfg: Config, log: Log, s: State, reply: CommitReply)
    requires Inv(cfg, log, s) && s.consumer.phase.Saved?
    ensures Inv(cfg, log, CommitStep(s, reply))
  {
    hide CatalogOk;
    hide AllProcessable;
    hide Counters;
    hide CounterRows;
    hide Effects;
    hide Walk;
    hide Repeats;
    if !reply.LostBefore? {
      BatchCommitted(cfg.kind, log, s);
    }
  }

  lemma BeginKeeps(cfg: Config, log: Log, s: State, ok: bool)
    requires Inv(cfg, log, s) && s.consumer.phase.Renewing?
    ensures Inv(cfg, log, BeginStep(s, ok))
  {
    assert s.history.applied + [] == s.history.applied;
    assert s.db.rows + map[] == s.db.rows;
  }

  lemma CommittedForeign(kind: Kind, log: Log, before: Database, after: Database, applied: seq<nat>)
    requires CommittedOk(kind, log, before, applied) && Rely(kind, before, after)
    ensures CommittedOk(kind, log, after, applied)
  {
    NoNamelessPartition(before.catalog);
    PartsFromRows(kind, before.rows, after.rows);
    EffectsStable(kind, before.catalog, after.catalog, log, applied);
    CountersAgree(Effects(kind, before.catalog, log), Effects(kind, after.catalog, log), applied);
  }

  lemma PendingForeign(kind: Kind, log: Log, s: State, after: Database)
    requires CatalogOk(s.db.catalog) && PendingOk(kind, log, s) && Rely(kind, s.db, after)
    ensures PendingOk(kind, log, s.(db := after))
  {
    var before, whole := s.db, s.history.applied + s.history.pending;
    NoNamelessPartition(before.catalog);
    OwnOverlay(kind, before.rows, after.rows, s.consumer.txn.writes);
    PartsFromRows(kind, before.rows + s.consumer.txn.writes, after.rows + s.consumer.txn.writes);
    EffectsStable(kind, before.catalog, after.catalog, log, whole);
    CountersAgree(Effects(kind, before.catalog, log), Effects(kind, after.catalog, log), whole);
  }

  lemma ForeignKeeps(cfg: Config, log: Log, s: State, db: Database)
    requires Inv(cfg, log, s) && Rely(cfg.kind, s.db, db)
    ensures Inv(cfg, log, s.(db := db))
  {
    CommittedForeign(cfg.kind, log, s.db, db, s.history.applied);
    var phase := s.consumer.phase;
    if phase == OuterHead || phase == InnerHead || phase.Saving? || phase.Saved? {
      PendingForeign(cfg.kind, log, s, db);
    }
  }

  lemma BackupKeeps(cfg: Config, log: Log, s: State)
    requires Inv(cfg, log, s)
    ensures Inv(cfg, log, s.(backups := s.backups + [Backup(s.db, s.history.applied)]))
  {
    var s' := s.(backups := s.backups + [Backup(s.db, s.history.applied)]);
    var phase := s.consumer.phase;
    if phase == OuterHead || phase == InnerHead || phase.Saving? || phase.Saved? {
      assert PendingOk(cfg.kind, log, s');
    }
  }

  lemma RestoreKeeps(cfg: Config, log: Log, s: State, i: nat)
    requires Inv(cfg, log, s) && s.consumer.phase == Down && i < |s.backups|
    ensures Inv(cfg, log, s.(db := s.backups[i].db, history := s.history.(applied := s.backups[i].applied)))
  {
    assert s.backups[i] in s.backups;
  }

  lemma TickKeeps(cfg: Config, log: Log, s: State, clock: int)
    requires Inv(cfg, log, s) && s.consumer.phase == OuterHead
    ensures Inv(cfg, log, s.(consumer := s.consumer.(phase := InnerHead, now := clock)))
  {
    assert PendingOk(cfg.kind, log, s.(consumer := s.consumer.(phase := InnerHead, now := clock)));
  }

  lemma StepKeeps(cfg: Config, log: Log, s: State, l: Label)
    requires Inv(cfg, log, s) && Step(cfg, log, s, l).Some?
    ensures Inv(cfg, log, Step(cfg, log, s, l).value)
  {
    hide Inv;
    match l
    case Boot => BootKeeps(cfg, log, s);
    case Start(polled, clock, begun) => StartKeeps(cfg, log, s, polled, clock, begun);
    case Tick(clock) => TickKeeps(cfg, log, s, clock);
    case Stop => DeadKeeps(cfg, log, s);
    case Deliver(ok) => DeliverKeeps(cfg, log, s, ok);
    case NoMessage(polled) => NoMessageKeeps(cfg, log, s, polled);
    case WriteReference(ok) => WriteReferenceKeeps(cfg, log, s, ok);
    case CommitBatch(reply) => CommitKeeps(cfg, log, s, reply);
    case BeginNext(ok) => BeginKeeps(cfg, log, s, ok);
    case Kill => DeadKeeps(cfg, log, s);
    case Foreign(db) => ForeignKeeps(cfg, log, s, db);
    case TakeBackup => BackupKeeps(cfg, log, s);
    case Restore(i) => RestoreKeeps(cfg, log, s, i);
  }

  lemma {:induction false} RunKeeps(cfg: Config, log: Log, s: State, labels: seq<Label>)
    requires Inv(cfg, log, s) && Run(cfg, log, s, labels).Some?
    ensures Inv(cfg, log, Run(cfg, log, s, labels).value)
  {
    if labels != [] {
      var init := labels[..|labels| - 1];
      RunKeeps(cfg, log, s, init);
      StepKeeps(cfg, log, Run(cfg, log, s, init).value, labels[|labels| - 1]);
    }
  }

  lemma InitialInv(cfg: Config, log: Log, s: State)
    requires LogOk(log) && cfg.batchSize > 0 && Initial(cfg, s)
    ensures Inv(cfg, log, s)
  {
    var empty: Rows := map[];
    PartsFromRows(cfg.kind, s.db.rows, empty);
  }

  lemma ReachableInv(cfg: Config, log: Log, s: State)
    requires LogOk(log) && cfg.batchSize > 0 && Reachable(cfg, log, s)
    ensures Inv(cfg, log, s)
  {
    var s0, labels :| Initial(cfg, s0) && Run(cfg, log, s0, labels) == Some(s);
    InitialInv(cfg, log, s0);
    RunKeeps(cfg, log, s0, labels);
  }
}
