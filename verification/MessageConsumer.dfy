/** cpp/MessageConsumer.cpp with its two subclasses.  Every action is recorded as a step of the state machine
    of ConsumerMachine, so that a run of the program is a run of the machine.
  */
module MessageConsumers {
  import opened Wrappers
  import opened PageviewStore
  import opened Transactions
  import opened MessageLog
  import opened ConsumerMachine
  import opened ConsumerSafety
  import opened ConsumerTheorems
  import opened PostgresServer
  import opened PostgresClient
  import opened KafkaConsumer

  /** How a run of the thread ends: asked to stop, by an exception, or by a kill. */
  datatype Exit = Finished | Threw | Killed

  /** How broker and database answer in one turn of the read loop: the poll, the statement of the message, and
      the three actions that save a full batch. */
  datatype Turn = Turn(polled: Polled, statement: bool, save: bool, commit: CommitReply, begin: bool)

  /** No error of the broker, and no transaction that fails to end or to begin. */
  predicate Calm(turn: Turn) {
    !turn.polled.PollError? && turn.commit.Acknowledged? && turn.begin
  }

  /** The number of messages until a poll brings none. */
  function Messages(turns: nat -> Turn, from: nat, left: nat): nat
    decreases left
  {
    if left == 0 || !turns(from).polled.Delivered? then 0 else 1 + Messages(turns, from + 1, left - 1)
  }

  /** The statement of a message fails, or an earlier one has aborted the transaction it runs in. */
  predicate StatementFails(kind: Kind, payload: Payload, db: Database, txn: Txn, ok: bool) {
    StatementFor(kind, payload).Some? && Execute(StatementFor(kind, payload).value, db, txn, ok).reply.Failed?
  }

  class MessageConsumer {
    const config: Config
    const log: Log
    const dbh: PostgresDbh
    const sourceReference: SourceReference
    ghost const initial: State
    ghost var state: State
    ghost var trace: seq<Label>

    constructor (config: Config, log: Log, dbh: PostgresDbh, sourceReference: SourceReference, ghost initial: State)
      requires sourceReference.dbh == dbh && sourceReference.sourceId == SourceId(config.kind)
      requires initial.db == dbh.backend.server.db && initial.consumer.phase == Down
      requires !dbh.inTxn && dbh.backend.txn == Idle
      ensures this.config == config && this.log == log && this.dbh == dbh && this.sourceReference == sourceReference
      ensures this.initial == initial && state == initial && trace == []
      ensures Recorded()
    {
      this.config := config;
      this.log := log;
      this.dbh := dbh;
      this.sourceReference := sourceReference;
      this.initial := initial;
      this.state := initial;
      this.trace := [];
    }

    /** The steps taken so far are a run of the machine that ends in the database as it is. */
    ghost predicate Recorded()
      reads this, dbh.backend.server
    {
      && sourceReference.dbh == dbh && sourceReference.sourceId == SourceId(config.kind)
      && Run(config, log, initial, trace) == Some(state)
      && state.db == dbh.backend.server.db
    }

    ghost predicate Holds(kc: KafkaClient, phase: Phase, msgCounter: nat, now: int, lastCommitTime: int)
      reads this, dbh, dbh.backend, dbh.backend.server, kc
    {
      && Recorded() && kc.log == log && dbh.inTxn && !dbh.backend.txn.Idle?
      && state.consumer
         == Consumer(phase, dbh.backend.txn, kc.sourceReference, kc.position, msgCounter, now, lastCommitTime)
    }

    ghost method Record(l: Label)
      requires Run(config, log, initial, trace) == Some(state)
      requires Step(config, log, state, l).Some?
      modifies this`state, this`trace
      ensures Run(config, log, initial, trace) == Some(state)
      ensures Some(state) == Step(config, log, old(state), l)
      ensures trace == old(trace) + [l]
    {
      RunSnoc(config, log, initial, trace, l);
      state := Step(config, log, state, l).value;
      trace := trace + [l];
    }

    /** Other sessions may commit between any two actions. */
    method Others()
      requires Recorded()
      modifies this`state, this`trace, dbh.backend.server
      ensures Recorded() && old(trace) <= trace
      ensures state == old(state).(db := dbh.backend.server.db)
    {
      dbh.backend.server.OtherSessions(config.kind);
      if dbh.backend.server.db != state.db {
        Record(Foreign(dbh.backend.server.db));
      }
    }

    /** The rest of the constructor: the reference is read in a transaction of its own. */
    method Construct(answers: Answers) returns (thrown: bool)
      requires Recorded() && state.consumer.phase == Down && !dbh.inTxn && dbh.backend.txn == Idle
      modifies this`state, this`trace, sourceReference`sourceRef, sourceReference`isNull
      modifies dbh`inTxn, dbh.backend`txn, dbh.backend.server
      ensures Recorded() && old(trace) <= trace
      ensures thrown == !(answers.begin && answers.statement && answers.commit.Acknowledged?)
      ensures !thrown ==> Constructed()
    {
      Others();
      thrown := sourceReference.RefreshFromDatabase(answers);
      if !thrown {
        Record(Boot);
      }
    }

    ghost predicate Constructed()
      reads this, dbh, dbh.backend, sourceReference
    {
      && !dbh.inTxn && dbh.backend.txn == Idle
      && state.consumer
         == Stopped.(phase := Booted,
                     sourceReference := if sourceReference.isNull then OffsetBeginning else sourceReference.sourceRef)
    }

    /** The statement of the subclass for a page view; other documents need none, and ill-typed ones raise a
        LogicError that RunProcess catches. */
    method ProcessMessage(payload: Payload, ok: bool) returns (thrown: bool)
      requires dbh.inTxn && Recorded()
      modifies dbh`inTxn, dbh.backend`txn, dbh.backend.server
      ensures dbh.inTxn
      ensures var stmt := StatementFor(config.kind, payload);
              if stmt.None? then
                !thrown && dbh.backend.server.db == old(dbh.backend.server.db) && dbh.backend.txn == old(dbh.backend.txn)
              else
                var e := Execute(stmt.value, old(dbh.backend.server.db), old(dbh.backend.txn), ok);
                thrown == e.reply.Failed? && dbh.backend.server.db == e.db && dbh.backend.txn == e.txn
    {
      thrown := false;
      var answers := Answers(ok, ok, Acknowledged);
      match payload {
        case Pageview(content, day) =>
          var reply;
          if config.kind == ContentConsumer {
            reply, thrown := dbh.ExecuteStatement(ContentPageview(content, day), answers);
          } else {
            reply, thrown := dbh.ExecuteStatement(ClientContentPageview(content, day), answers);
          }
        case OtherType =>
        case IllTyped =>
      }
    }

    /** The thread has read the entry before its position, which has not taken effect yet. */
    ghost predicate HasRead(kc: KafkaClient, payload: Payload, msgCounter: nat, now: int, lastCommitTime: int)
      reads this, dbh, dbh.backend, dbh.backend.server, kc
    {
      && Recorded() && dbh.inTxn && !dbh.backend.txn.Idle? && kc.log == log
      && 0 < kc.position <= |log|
      && payload == log[kc.position - 1].payload && kc.sourceReference == log[kc.position - 1].offset
      && state.consumer
         == Consumer(InnerHead, dbh.backend.txn, state.consumer.sourceReference, kc.position - 1, msgCounter, now, lastCommitTime)
    }

    /** The body of the read loop up to the batch check: the message just read takes effect or the exception of
        its statement escapes. */
    method HandleMessage(kc: KafkaClient, payload: Payload, ok: bool, msgCounter: nat, ghost now: int, ghost lastCommitTime: int)
      returns (thrown: bool)
      requires config.batchSize > 0 && HasRead(kc, payload, msgCounter, now, lastCommitTime)
      modifies this`state, this`trace, dbh`inTxn, dbh.backend`txn, dbh.backend.server
      ensures Recorded() && old(trace) <= trace
      ensures thrown == StatementFails(config.kind, payload, old(dbh.backend.server.db), old(dbh.backend.txn), ok)
      ensures thrown ==> state.consumer.phase == Unwinding && dbh.backend.txn.Aborted?
      ensures !thrown ==>
                Holds(kc, if (msgCounter + 1) % config.batchSize == 0 then Saving(true) else InnerHead,
                      msgCounter + 1, now, lastCommitTime)
    {
      hide Execute;
      hide Rely;
      ghost var db, txn := dbh.backend.server.db, dbh.backend.txn;
      thrown := ProcessMessage(payload, ok);
      if StatementFor(config.kind, payload).Some? {
        StaysInTxn(StatementFor(config.kind, payload).value, db, txn, ok);
      }
      Record(Deliver(ok));
    }

    method SaveReference(kc: KafkaClient, ok: bool, ghost bySize: bool, ghost msgCounter: nat, ghost now: int, ghost lastCommitTime: int)
      returns (thrown: bool)
      requires Holds(kc, Saving(bySize), msgCounter, now, lastCommitTime)
      modifies this`state, this`trace, sourceReference`sourceRef, sourceReference`isNull
      modifies dbh`inTxn, dbh.backend`txn, dbh.backend.server
      ensures Recorded() && old(trace) <= trace
      ensures thrown == (old(dbh.backend.txn).Aborted? || !ok)
      ensures thrown ==> state.consumer.phase == Unwinding && dbh.backend.txn.Aborted?
      ensures !thrown ==> Holds(kc, Saved(bySize), msgCounter, now, lastCommitTime)
    {
      hide Execute;
      hide Rely;
      Others();
      ReferenceWritten(sourceReference.sourceId, kc.sourceReference, dbh.backend.server.db, dbh.backend.txn, ok);
      thrown := sourceReference.UpdateSourceRef(kc.sourceReference, Answers(ok, ok, Acknowledged));
      Record(WriteReference(ok));
    }

    method EndBatch(kc: KafkaClient, reply: CommitReply, ghost bySize: bool, ghost msgCounter: nat, ghost now: int,
                    ghost lastCommitTime: int)
      returns (thrown: bool)
      requires Holds(kc, Saved(bySize), msgCounter, now, lastCommitTime)
      modifies this`state, this`trace, dbh`inTxn, dbh.backend`txn, dbh.backend.server
      ensures Recorded() && old(trace) <= trace
      ensures thrown == !reply.Acknowledged?
      ensures thrown ==> state.consumer.phase == Unwinding && dbh.inTxn
      ensures !thrown ==> Between(kc, Renewing(bySize), now)
    {
      hide Rely;
      Others();
      thrown := dbh.CommitTxn(reply);
      Record(CommitBatch(reply));
    }

    /** Between two transactions. */
    ghost predicate Between(kc: KafkaClient, phase: Phase, now: int)
      reads this, dbh, dbh.backend, dbh.backend.server, kc
    {
      && Recorded() && kc.log == log && !dbh.inTxn && dbh.backend.txn == Idle
      && state.consumer == Consumer(phase, Idle, kc.sourceReference, kc.position, 0, now, now)
    }

    method Renew(kc: KafkaClient, ok: bool, bySize: bool, ghost now: int) returns (thrown: bool)
      requires Between(kc, Renewing(bySize), now)
      modifies this`state, this`trace, dbh`inTxn, dbh.backend`txn, dbh.backend.server
      ensures Recorded() && old(trace) <= trace
      ensures thrown == !ok
      ensures thrown ==> state.consumer.phase == Unwinding && !dbh.inTxn
      ensures !thrown ==> Holds(kc, if bySize then InnerHead else OuterHead, 0, now, now)
    {
      hide Rely;
      Others();
      thrown := dbh.StartTxn(ok);
      Record(BeginNext(!thrown));
    }

    /** UpdateSourceRef, CommitTxn, StartTxn. */
    method SaveBatch(kc: KafkaClient, turn: Turn, bySize: bool, ghost msgCounter: nat, ghost now: int, ghost lastCommitTime: int)
      returns (thrown: bool)
      requires Holds(kc, Saving(bySize), msgCounter, now, lastCommitTime)
      modifies this`state, this`trace, sourceReference`sourceRef, sourceReference`isNull
      modifies dbh`inTxn, dbh.backend`txn, dbh.backend.server
      ensures Recorded() && old(trace) <= trace
      ensures thrown == (old(dbh.backend.txn).Aborted? || !turn.save || !turn.commit.Acknowledged? || !turn.begin)
      ensures thrown ==> state.consumer.phase == Unwinding && (Calm(turn) ==> dbh.backend.txn.Aborted?)
      ensures !thrown ==> Holds(kc, if bySize then InnerHead else OuterHead, 0, now, now)
    {
      thrown := SaveReference(kc, turn.save, bySize, msgCounter, now, lastCommitTime);
      if thrown {
        return;
      }
      thrown := EndBatch(kc, turn.commit, bySize, msgCounter, now, lastCommitTime);
      if thrown {
        return;
      }
      thrown := Renew(kc, turn.begin, bySize, now);
    }

    /** One poll. Without a message the loop ends, and the batch may be due by time. */
    method Poll(kc: KafkaClient, broker: Polled, msgCounter: nat, n: int, last: int) returns (message: Option<Payload>, thrown: bool)
      requires Holds(kc, InnerHead, msgCounter, n, last) && kc.position <= |log|
      modifies this`state, this`trace, kc, dbh.backend.server
      ensures Recorded() && old(trace) <= trace
      ensures thrown == broker.PollError? && (message.Some? <==> broker.Delivered? && old(kc.position) < |log|)
      ensures thrown ==> state.consumer.phase == Unwinding
      ensures message.Some? ==> kc.position == old(kc.position) + 1 && HasRead(kc, message.value, msgCounter, n, last)
      ensures message.None? ==> kc.position == old(kc.position)
      ensures message.None? && !thrown && msgCounter > 0 && n - last >= CommitTime ==> Holds(kc, Saving(false), msgCounter, n, last)
      ensures message.None? && !thrown && !(msgCounter > 0 && n - last >= CommitTime) ==>
                Holds(kc, OuterHead, msgCounter, n, if msgCounter == 0 then n else last)
    {
      hide Rely;
      Others();
      var polled;
      polled, message, thrown := kc.Read(broker);
      if message.None? {
        Record(NoMessage(polled));
      }
    }

    /** One message: it takes effect, and a batch that it fills is saved. */
    method TakeMessage(kc: KafkaClient, payload: Payload, turn: Turn, counter: nat, n: int, last: int)
      returns (thrown: bool, msgCounter: nat, lastCommitTime: int)
      requires config.batchSize > 0 && HasRead(kc, payload, counter, n, last)
      modifies this`state, this`trace, sourceReference`sourceRef, sourceReference`isNull
      modifies dbh`inTxn, dbh.backend`txn, dbh.backend.server
      ensures Recorded() && old(trace) <= trace
      ensures thrown ==> state.consumer.phase == Unwinding && (Calm(turn) ==> dbh.backend.txn.Aborted?)
      ensures !thrown ==> Holds(kc, InnerHead, msgCounter, n, lastCommitTime)
      ensures !thrown ==>
                if (counter + 1) % config.batchSize == 0 then msgCounter == 0 && lastCommitTime == n
                else msgCounter == counter + 1 && lastCommitTime == last
    {
      hide Calm;
      msgCounter, lastCommitTime := counter + 1, last;
      thrown := HandleMessage(kc, payload, turn.statement, counter, n, last);
      if thrown {
        return;
      }
      if msgCounter % config.batchSize == 0 {
        thrown := SaveBatch(kc, turn, true, msgCounter, n, last);
        lastCommitTime := n;
        msgCounter := 0;
      }
    }

    /** The read loop: until a poll returns no message, each message takes effect and full batches are saved. */
    method ReadAll(kc: KafkaClient, turns: nat -> Turn, counter: nat, n: int, last: int)
      returns (thrown: bool, msgCounter: nat, lastCommitTime: int)
      requires config.batchSize > 0 && Holds(kc, InnerHead, counter, n, last) && kc.position <= |log|
      modifies this`state, this`trace, sourceReference`sourceRef, sourceReference`isNull, kc
      modifies dbh`inTxn, dbh.backend`txn, dbh.backend.server
      ensures Recorded() && old(trace) <= trace
      ensures thrown ==> state.consumer.phase == Unwinding
      ensures thrown && (forall i: nat :: Calm(turns(i))) ==> dbh.backend.txn.Aborted?
      ensures !thrown ==> kc.position == old(kc.position) + Messages(turns, 0, |log| - old(kc.position)) <= |log|
      ensures !thrown && msgCounter > 0 && n - lastCommitTime >= CommitTime ==>
                Holds(kc, Saving(false), msgCounter, n, lastCommitTime)
      ensures !thrown && !(msgCounter > 0 && n - lastCommitTime >= CommitTime) ==>
                Holds(kc, OuterHead, msgCounter, n, if msgCounter == 0 then n else lastCommitTime)
    {
      hide Run;
      msgCounter, lastCommitTime := counter, last;
      var i: nat := 0;
      while true
        invariant kc.log == log && kc.position <= |log|
        invariant kc.position + Messages(turns, i, |log| - kc.position)
               == old(kc.position) + Messages(turns, 0, |log| - old(kc.position))
        invariant Holds(kc, InnerHead, msgCounter, n, lastCommitTime)
        invariant old(trace) <= trace
        decreases |log| - kc.position
      {
        var message;
        message, thrown := Poll(kc, turns(i).polled, msgCounter, n, lastCommitTime);
        if message.None? {
          return;
        }
        thrown, msgCounter, lastCommitTime := TakeMessage(kc, message.value, turns(i), msgCounter, n, lastCommitTime);
        if thrown {
          return;
        }
        i := i + 1;
      }
    }

    /** The saved reference has no entry in the log, but a later one is there. */
    predicate StartsElsewhere()
      reads sourceReference
    {
      && !sourceReference.isNull && sourceReference.sourceRef != OffsetBeginning
      && var p := Seek(log, sourceReference.sourceRef);
         p < |log| && log[p].offset != sourceReference.sourceRef
    }

    /** Everything before the loops: seek, poll once, and open the first transaction. */
    method Begin(broker: Polled, clock: int, ok: bool) returns (kc: KafkaClient, thrown: bool)
      requires Recorded() && Constructed()
      modifies this`state, this`trace, dbh`inTxn, dbh.backend`txn, dbh.backend.server
      ensures fresh(kc) && Recorded() && old(trace) <= trace
      ensures thrown <==> broker.PollError? || !ok || (broker.Delivered? && StartsElsewhere())
      ensures thrown ==> state.consumer.phase == Unwinding && !dbh.inTxn
      ensures !thrown ==>
                kc.position <= |log| && Holds(kc, OuterHead, 0, Stopped.now, clock)
    {
      hide Rely;
      hide Execute;
      hide Run;
      hide Seek;
      kc := new KafkaClient(log);
      if !sourceReference.isNull {
        kc.SetSourceReference(sourceReference.sourceRef);
      }
      Others();
      var polled;
      polled, thrown := kc.Start(broker);
      if thrown {
        Record(Start(polled, clock, false));
        return;
      }
      Others();
      thrown := dbh.StartTxn(ok);
      Record(Start(polled, clock, !thrown));
    }

    /** RunProcess.  `rounds` bounds how many turns of the outer loop the process lives through before it is
        killed.  Every execution, whatever the broker, the database, the clock and the other sessions do,
        is a run of the machine. */
    method RunProcess(rounds: nat) returns (exit: Exit)
      requires config.batchSize > 0 && Recorded() && Constructed()
      modifies this`state, this`trace, sourceReference`sourceRef, sourceReference`isNull
      modifies dbh`inTxn, dbh.backend`txn, dbh.backend.server
      ensures Recorded() && old(trace) <= trace
      ensures exit == Finished ==> state.consumer.phase == Down && !dbh.inTxn && dbh.backend.txn == Idle
      ensures exit == Threw ==> state.consumer.phase == Unwinding || state.consumer.phase == Down
    {
      hide Run;
      hide Messages;
      hide DeliverStep;
      hide StartStep;
      hide CommitStep;
      hide NoMessageStep;
      var broker: Polled := *;
      var lastCommitTime: int := *;
      var ok: bool := *;
      var kc, thrown := Begin(broker, lastCommitTime, ok);
      if thrown {
        return Threw;
      }
      var msgCounter := 0;
      var left := rounds;
      var running: bool := *;
      ghost var now := Stopped.now;
      while running
        invariant kc.log == log && kc.position <= |log| && fresh(kc)
        invariant Holds(kc, OuterHead, msgCounter, now, lastCommitTime)
        invariant old(trace) <= trace
        decreases left
      {
        if left == 0 {
          return Killed;
        }
        left := left - 1;
        var n: int := *;
        Record(Tick(n));
        now := n;
        var turns: nat -> Turn := *;
        thrown, msgCounter, lastCommitTime := ReadAll(kc, turns, msgCounter, n, lastCommitTime);
        if thrown {
          return Threw;
        }
        if msgCounter > 0 && n - lastCommitTime >= CommitTime {
          var turn: Turn := *;
          thrown := SaveBatch(kc, turn, false, msgCounter, n, lastCommitTime);
          if thrown {
            return Threw;
          }
          lastCommitTime := n;
          msgCounter := 0;
        } else if msgCounter == 0 {
          lastCommitTime := n;
        }
        running := *;
      }
      var started := dbh.IsTxnStarted();
      if started {
        ok := *;
        thrown := dbh.RollbackTxn(ok);
        Record(Stop);
        if thrown {
          return Threw;
        }
      }
      return Finished;
    }
  }

  /** Any number of incarnations of the consumer on one server, each on a connection of its own and ended in
      any way.  Together they are one run of the machine, and so the theorems about runs hold of what they
      leave in the database. */
  method Incarnations(server: Server, config: Config, log: Log, lives: nat, ghost first: State)
    returns (ghost last: State, ghost trace: seq<Label>)
    requires LogOk(log) && config.batchSize > 0
    requires Initial(config, first) && first.db == server.db
    modifies server
    ensures IsRun(config, log, first, trace, last) && last.db == server.db
    ensures SilentStarts(trace) == 0 ==> Exact(config.kind, log, server.db)
    ensures ExactWithin(config.kind, log, server.db, SilentStarts(trace))
  {
    last, trace := first, [];
    assert Run(config, log, first, trace) == Some(last);
    hide Run;
    hide DeliverStep;
    hide StartStep;
    hide CommitStep;
    hide Exact;
    hide ExactWithin;
    for life := 0 to lives
      invariant Run(config, log, first, trace) == Some(last)
      invariant last.db == server.db && last.consumer.phase == Down
    {
      var backend := new Backend(server);
      var dbh := new PostgresDbh(backend);
      var reference := new SourceReference(SourceId(config.kind), dbh);
      var consumer := new MessageConsumer(config, log, dbh, reference, last);
      var answers: Answers := *;
      var thrown := consumer.Construct(answers);
      if !thrown {
        var rounds: nat := *;
        var exit := consumer.RunProcess(rounds);
      }
      consumer.Record(Kill);
      RunAppend(config, log, first, trace, consumer.trace);
      last, trace := consumer.state, trace + consumer.trace;
    }
    BoundedOvercount(config, log, first, trace, last);
    if SilentStarts(trace) == 0 {
      ExactlyOnce(config, log, first, trace, last);
    }
  }
}
