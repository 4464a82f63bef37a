/** One consumer thread of cpp/MessageConsumer.cpp as a state machine: a step for every point at which
    the process can be killed, the broker or the database can answer differently, or another session can
    commit.
  */
module ConsumerMachine {
  import opened Wrappers
  import opened PageviewStore
  import opened Transactions
  import opened MessageLog

  // ---------------------------------------------------------------- consumers

  /** The two subclasses of MessageConsumer. */
  datatype Kind = ContentConsumer | ClientConsumer

  datatype Config = Config(kind: Kind, batchSize: int)

  /** Elapsed clock ticks at which a batch is committed whatever its size. */
  const CommitTime: int := 30_000_000_000

  function SourceId(kind: Kind): string {
    if kind.ContentConsumer? then "content_pageview" else "client_pageview"
  }

  function PageviewStatement(kind: Kind, content: Option<Uuid>, day: Option<Day>): Statement {
    if kind.ContentConsumer? then ContentPageview(content, day) else ClientContentPageview(content, day)
  }

  /** The rows that belong to a consumer: its counter tables and its reference. */
  predicate Owns(kind: Kind, key: RowKey) {
    match key
    case ContentRow(_, _, _) => kind.ContentConsumer?
    case ClientRow(_, _) => kind.ClientConsumer?
    case RefRow(source) => source == SourceId(kind)
  }

  function OwnRows(kind: Kind, rows: Rows): Rows {
    map key | key in rows && Owns(kind, key) :: rows[key]
  }

  function Reference(kind: Kind, db: Database): Option<int> {
    Lookup(db.rows, RefRow(SourceId(kind)))
  }

  // ---------------------------------------------------------------- states

  /** Where the thread is. The flag of the last three says whether the commit was for batch size, inside
      the read loop, or for time, after it. */
  datatype Phase =
    | Down
    | Booted
    | OuterHead
    | InnerHead
    | Saving(bySize: bool)
    | Saved(bySize: bool)
    | Renewing(bySize: bool)
    | Unwinding

  datatype Consumer = Consumer(
    phase: Phase,
    txn: Txn,
    sourceReference: int,
    position: nat,
    msgCounter: nat,
    now: int,
    lastCommitTime: int)

  /** Model-only bookkeeping: the log indices whose effects are committed, in order, those read since,
      and how many times a resuming `Start` returned without its message. */
  datatype History = History(applied: seq<nat>, pending: seq<nat>, silent: nat)

  datatype Backup = Backup(db: Database, applied: seq<nat>)

  datatype State = State(db: Database, consumer: Consumer, history: History, backups: seq<Backup>)

  const Stopped: Consumer := Consumer(Down, Idle, OffsetBeginning, 0, 0, 0, 0)

  // ---------------------------------------------------------------- steps

  /** How a poll of the broker ends. */
  datatype Polled = Delivered | TimedOut | EndOfPartition | PollError

  /** How COMMIT ends: acknowledged, or the connection is lost before or after it took effect. */
  datatype CommitReply = Acknowledged | LostBefore | LostAfter

  datatype Label =
    | Boot
    | Start(polled: Polled, clock: int, begun: bool)
    | Tick(clock: int)
    | Stop
    | Deliver(ok: bool)
    | NoMessage(polled: Polled)
    | WriteReference(ok: bool)
    | CommitBatch(reply: CommitReply)
    | BeginNext(ok: bool)
    | Kill
    | Foreign(db: Database)
    | TakeBackup
    | Restore(index: nat)

  /** What other sessions may do: extend the catalog and write rows that are not this consumer's. */
  predicate Rely(kind: Kind, before: Database, after: Database) {
    && OwnRows(kind, before.rows) == OwnRows(kind, after.rows)
    && CatalogExtends(before.catalog, after.catalog)
    && CatalogOk(after.catalog)
  }

  function Dead(s: State): State {
    s.(consumer := Stopped, history := s.history.(pending := []))
  }

  function Unwind(c: Consumer): Consumer {
    c.(phase := Unwinding)
  }

  /** The constructor reads the reference; RunProcess hands it to the Kafka client unless it is null. */
  function BootStep(cfg: Config, s: State): State {
    var reference := Reference(cfg.kind, s.db);
    var from := if reference.Some? then reference.value else OffsetBeginning;
    s.(consumer := Stopped.(phase := Booted, sourceReference := from))
  }

  function EnterLoop(c: Consumer, clock: int, begun: bool): Consumer {
    if begun then c.(phase := OuterHead, txn := Begin(c.txn), msgCounter := 0, lastCommitTime := clock)
    else Unwind(c)
  }

  /** From the beginning nothing is polled and nothing can be missed, which counts as Delivered. */
  function StartStep(log: Log, s: State, polled: Polled, clock: int, begun: bool): Option<State> {
    var c := s.consumer;
    if polled.PollError? then Some(s.(consumer := Unwind(c)))
    else if c.sourceReference == OffsetBeginning then
      if polled.Delivered? then Some(s.(consumer := EnterLoop(c.(position := 0), clock, begun))) else None
    else
      var p := Seek(log, c.sourceReference);
      if polled.Delivered? then
        if p == |log| then None
        else if log[p].offset != c.sourceReference then
          Some(s.(consumer := Unwind(c.(position := p + 1, sourceReference := log[p].offset))))
        else
          Some(s.(consumer := EnterLoop(c.(position := p + 1), clock, begun)))
      else
        Some(s.(consumer := EnterLoop(c.(position := p), clock, begun),
                history := s.history.(silent := s.history.silent + 1)))
  }

  /** What `_ProcessMessage` sends for a payload, if anything. */
  function StatementFor(kind: Kind, payload: Payload): Option<Statement> {
    match payload
    case Pageview(content, day) => Some(PageviewStatement(kind, content, day))
    case OtherType => None
    case IllTyped => None
  }

  function DeliverStep(cfg: Config, log: Log, s: State, ok: bool): Option<State> {
    var c := s.consumer;
    if c.position >= |log| || cfg.batchSize <= 0 then None
    else
      var entry := log[c.position];
      var read := c.(sourceReference := entry.offset, position := c.position + 1);
      var stmt := StatementFor(cfg.kind, entry.payload);
      var e := if stmt.Some? then Execute(stmt.value, s.db, c.txn, ok) else Effect(s.db, c.txn, Returned(None));
      if e.reply.Failed? then
        Some(s.(db := e.db, consumer := Unwind(read.(txn := e.txn))))
      else
        var count := c.msgCounter + 1;
        var phase := if count % cfg.batchSize == 0 then Saving(true) else InnerHead;
        Some(s.(db := e.db,
                consumer := read.(txn := e.txn, msgCounter := count, phase := phase),
                history := s.history.(pending := s.history.pending + [c.position])))
  }

  /** The read loop ends; the batch may be due by time. */
  function NoMessageStep(s: State, polled: Polled): Option<State> {
    var c := s.consumer;
    match polled
    case Delivered => None
    case PollError => Some(s.(consumer := Unwind(c)))
    case _ =>
      var c' :=
        if c.msgCounter > 0 && c.now - c.lastCommitTime >= CommitTime then c.(phase := Saving(false))
        else if c.msgCounter == 0 then c.(phase := OuterHead, lastCommitTime := c.now)
        else c.(phase := OuterHead);
      Some(s.(consumer := c'))
  }

  function WriteReferenceStep(cfg: Config, s: State, ok: bool): State
    requires s.consumer.phase.Saving?
  {
    var c := s.consumer;
    var e := Execute(SetSourceRef(SourceId(cfg.kind), c.sourceReference), s.db, c.txn, ok);
    if e.reply.Failed? then s.(db := e.db, consumer := Unwind(c.(txn := e.txn)))
    else s.(db := e.db, consumer := c.(txn := e.txn, phase := Saved(c.phase.bySize)))
  }

  function CommitStep(s: State, reply: CommitReply): State
    requires s.consumer.phase.Saved?
  {
    var c := s.consumer;
    var done := s.(db := Commit(s.db, c.txn),
                   history := if c.txn.Open? then
                                s.history.(applied := s.history.applied + s.history.pending, pending := [])
                              else s.history.(pending := []));
    match reply
    case LostBefore => s.(consumer := Unwind(c))
    case LostAfter => done.(consumer := Unwind(c.(txn := Idle)))
    case Acknowledged =>
      done.(consumer := c.(txn := Idle, phase := Renewing(c.phase.bySize), msgCounter := 0, lastCommitTime := c.now))
  }

  function BeginStep(s: State, ok: bool): State
    requires s.consumer.phase.Renewing?
  {
    var c := s.consumer;
    if ok then s.(consumer := c.(txn := Begin(c.txn), phase := if c.phase.bySize then InnerHead else OuterHead))
    else s.(consumer := Unwind(c))
  }

  /** The state after a label, or None where the label cannot happen. */
  function Step(cfg: Config, log: Log, s: State, l: Label): Option<State> {
    var phase := s.consumer.phase;
    match l
    case Boot => if phase == Down then Some(BootStep(cfg, s)) else None
    case Start(polled, clock, begun) => if phase == Booted then StartStep(log, s, polled, clock, begun) else None
    case Tick(clock) =>
      if phase == OuterHead then Some(s.(consumer := s.consumer.(phase := InnerHead, now := clock))) else None
    case Stop => if phase == OuterHead then Some(Dead(s)) else None
    case Deliver(ok) => if phase == InnerHead then DeliverStep(cfg, log, s, ok) else None
    case NoMessage(polled) => if phase == InnerHead then NoMessageStep(s, polled) else None
    case WriteReference(ok) => if phase.Saving? then Some(WriteReferenceStep(cfg, s, ok)) else None
    case CommitBatch(reply) => if phase.Saved? then Some(CommitStep(s, reply)) else None
    case BeginNext(ok) => if phase.Renewing? then Some(BeginStep(s, ok)) else None
    case Kill => Some(Dead(s))
    case Foreign(db) => if Rely(cfg.kind, s.db, db) then Some(s.(db := db)) else None
    case TakeBackup => Some(s.(backups := s.backups + [Backup(s.db, s.history.applied)]))
    case Restore(i) =>
      if phase == Down && i < |s.backups| then
        Some(s.(db := s.backups[i].db, history := s.history.(applied := s.backups[i].applied)))
      else None
  }

  /** The state after a whole run. */
  function Run(cfg: Config, log: Log, s: State, labels: seq<Label>): Option<State> {
    if labels == [] then Some(s)
    else
      var before := Run(cfg, log, s, labels[..|labels| - 1]);
      if before.None? then None else Step(cfg, log, before.value, labels[|labels| - 1])
  }

  /** A database the consumer has never written to, with the process down. */
  ghost predicate Initial(cfg: Config, s: State) {
    && CatalogOk(s.db.catalog)
    && OwnRows(cfg.kind, s.db.rows) == map[]
    && s.consumer == Stopped
    && s.history == History([], [], 0)
    && s.backups == []
  }

  ghost predicate Reachable(cfg: Config, log: Log, s: State) {
    exists s0, labels :: Initial(cfg, s0) && Run(cfg, log, s0, labels) == Some(s)
  }

  lemma RunSnoc(cfg: Config, log: Log, s: State, labels: seq<Label>, l: Label)
    ensures Run(cfg, log, s, labels + [l])
         == var before := Run(cfg, log, s, labels);
            if before.None? then None else Step(cfg, log, before.value, l)
  {
    assert (labels + [l])[..|labels|] == labels;
  }

  lemma {:induction false} RunAppend(cfg: Config, log: Log, s: State, first: seq<Label>, second: seq<Label>)
    requires Run(cfg, log, s, first).Some?
    ensures Run(cfg, log, s, first + second) == Run(cfg, log, Run(cfg, log, s, first).value, second)
  {
    if second == [] {
      assert first + second == first;
    } else {
      var init, last := second[..|second| - 1], second[|second| - 1];
      RunAppend(cfg, log, s, first, init);
      assert first + second == (first + init) + [last];
      RunSnoc(cfg, log, s, first + init, last);
      assert second == init + [last];
      RunSnoc(cfg, log, Run(cfg, log, s, first).value, init, last);
    }
  }
}
