/** The two consumer threads of cpp/kafka_client.cpp side by side, over one log and one database. */
module Reconciliation {
  import opened Wrappers
  import opened PageviewStore
  import opened Transactions
  import opened MessageLog
  import opened ConsumerMachine
  import opened ConsumerSafety
  import opened ConsumerInvariant
  import opened ConsumerTheorems
  import opened RowSums

  // ---------------------------------------------------------------- the system

  datatype Side = Side(consumer: Consumer, history: History)

  datatype Snapshot = Snapshot(db: Database, content: seq<nat>, client: seq<nat>)

  datatype System = System(db: Database, content: Side, client: Side, snapshots: seq<Snapshot>)

  /** A step of one thread, the death of the process (an exception in either thread exits it), a call of
      the catalog procedures, a backup, or its restoration. */
  datatype Action =
    | Thread(kind: Kind, step: Label)
    | ExitProcess
    | GrowCatalog(catalog: Catalog)
    | Dump
    | Load(index: nat)

  function Other(kind: Kind): Kind {
    if kind.ContentConsumer? then ClientConsumer else ContentConsumer
  }

  function SideOf(sys: System, kind: Kind): Side {
    if kind.ContentConsumer? then sys.content else sys.client
  }

  function WithSide(sys: System, kind: Kind, side: Side): System {
    if kind.ContentConsumer? then sys.(content := side) else sys.(client := side)
  }

  /** The system as one consumer sees it. */
  function Local(sys: System, kind: Kind): State {
    State(sys.db, SideOf(sys, kind).consumer, SideOf(sys, kind).history,
          seq(|sys.snapshots|, i requires 0 <= i < |sys.snapshots| =>
            Backup(sys.snapshots[i].db,
                   if kind.ContentConsumer? then sys.snapshots[i].content else sys.snapshots[i].client)))
  }

  /** What a thread does by itself. */
  predicate ThreadLabel(l: Label) {
    !l.Kill? && !l.Foreign? && !l.TakeBackup? && !l.Restore?
  }

  ghost function Act(size: int, log: Log, sys: System, a: Action): Option<System> {
    match a
    case Thread(kind, step) =>
      if !ThreadLabel(step) then None
      else
        var after := Step(Config(kind, size), log, Local(sys, kind), step);
        if after.None? then None
        else Some(WithSide(sys, kind, Side(after.value.consumer, after.value.history)).(db := after.value.db))
    case ExitProcess =>
      Some(sys.(content := Side(Stopped, sys.content.history.(pending := [])),
                client := Side(Stopped, sys.client.history.(pending := []))))
    case GrowCatalog(catalog) =>
      if CatalogExtends(sys.db.catalog, catalog) && CatalogOk(catalog) then Some(sys.(db := sys.db.(catalog := catalog)))
      else None
    case Dump => Some(sys.(snapshots := sys.snapshots + [Snapshot(sys.db, sys.content.history.applied, sys.client.history.applied)]))
    case Load(i) =>
      if sys.content.consumer.phase == Down && sys.client.consumer.phase == Down && i < |sys.snapshots| then
        var shot := sys.snapshots[i];
        Some(sys.(db := shot.db,
                  content := sys.content.(history := sys.content.history.(applied := shot.content)),
                  client := sys.client.(history := sys.client.history.(applied := shot.client))))
      else None
  }

  /** Whatever a thread can do by itself it can do in the system, and the other thread stays where it is. */
  lemma ThreadsAreFree(size: int, log: Log, sys: System, kind: Kind, step: Label)
    requires ThreadLabel(step)
    ensures var after, sys' := Step(Config(kind, size), log, Local(sys, kind), step), Act(size, log, sys, Thread(kind, step));
            && (sys'.Some? <==> after.Some?)
            && (after.Some? ==>
                  && sys'.value.db == after.value.db
                  && SideOf(sys'.value, kind) == Side(after.value.consumer, after.value.history)
                  && SideOf(sys'.value, Other(kind)) == SideOf(sys, Other(kind)))
  {
    hide Step;
  }

  /** The process may die and a backup be taken at any time, the catalog may grow as its procedures let it, and a
      backup may be restored while both threads are down. */
  lemma WorldIsFree(size: int, log: Log, sys: System, catalog: Catalog, i: nat)
    ensures var died := Act(size, log, sys, ExitProcess);
            && died.Some? && died.value.db == sys.db && died.value.content.consumer == died.value.client.consumer == Stopped
    ensures CatalogExtends(sys.db.catalog, catalog) && CatalogOk(catalog) ==>
              Act(size, log, sys, GrowCatalog(catalog)) == Some(sys.(db := sys.db.(catalog := catalog)))
    ensures var dumped := Act(size, log, sys, Dump);
            && dumped.Some? && dumped.value.db == sys.db && |dumped.value.snapshots| == |sys.snapshots| + 1
            && dumped.value.snapshots[|sys.snapshots|].db == sys.db
    ensures sys.content.consumer.phase == Down && sys.client.consumer.phase == Down && i < |sys.snapshots| ==>
              && Act(size, log, sys, Load(i)).Some?
              && Act(size, log, sys, Load(i)).value.db == sys.snapshots[i].db
  {
    hide CatalogExtends;
    hide CatalogOk;
  }

  ghost function Play(size: int, log: Log, sys: System, actions: seq<Action>): Option<System> {
    if actions == [] then Some(sys)
    else
      var before := Play(size, log, sys, actions[..|actions| - 1]);
      if before.None? then None else Act(size, log, before.value, actions[|actions| - 1])
  }

  /** How many times a thread of this kind went past a `Start` that returned without a message. */
  function SilentOf(kind: Kind, actions: seq<Action>): nat {
    if actions == [] then 0
    else
      var last := actions[|actions| - 1];
      SilentOf(kind, actions[..|actions| - 1])
        + if last.Thread? && last.kind == kind && last.step.Start? && SilentPoll(last.step.polled) then 1 else 0
  }

  ghost predicate Untouched(sys: System) {
    && CatalogOk(sys.db.catalog)
    && sys.db.rows == map[]
    && sys.content == sys.client == Side(Stopped, History([], [], 0))
    && sys.snapshots == []
  }

  // ---------------------------------------------------------------- the threads do not disturb each other

  ghost predicate OtherRowsKept(kind: Kind, before: Database, after: Database) {
    && after.catalog == before.catalog
    && OwnRows(Other(kind), after.rows) == OwnRows(Other(kind), before.rows)
  }

  lemma OwnWritesOnly(kind: Kind, rows: Rows, writes: Rows)
    requires OwnKeys(kind, writes)
    ensures OwnRows(Other(kind), rows + writes) == OwnRows(Other(kind), rows)
  {
    assert forall key :: !(Owns(kind, key) && Owns(Other(kind), key));
  }

  lemma StepWritesOnlyAtCommit(cfg: Config, log: Log, s: State, l: Label)
    requires Inv(cfg, log, s) && Step(cfg, log, s, l).Some? && ThreadLabel(l) && !l.CommitBatch? && !l.Deliver?
    ensures Step(cfg, log, s, l).value.db == s.db
  {
  }

  lemma DeliverWritesNothing(cfg: Config, log: Log, s: State, ok: bool)
    requires Inv(cfg, log, s) && s.consumer.phase == InnerHead && DeliverStep(cfg, log, s, ok).Some?
    ensures DeliverStep(cfg, log, s, ok).value.db == s.db
  {
    var payload := log[s.consumer.position].payload;
    if StatementFor(cfg.kind, payload).Some? {
      DeliveredEffect(cfg.kind, s.db, s.consumer.txn, payload, ok);
    }
  }

  /** No step of a consumer changes the catalog, the other's counters or the other's reference. */
  lemma StepLeavesOther(cfg: Config, log: Log, s: State, l: Label)
    requires Inv(cfg, log, s) && Step(cfg, log, s, l).Some? && ThreadLabel(l)
    ensures OtherRowsKept(cfg.kind, s.db, Step(cfg, log, s, l).value.db)
  {
    if l.CommitBatch? {
      OwnWritesOnly(cfg.kind, s.db.rows, s.consumer.txn.writes);
    } else if l.Deliver? {
      DeliverWritesNothing(cfg, log, s, l.ok);
    } else {
      StepWritesOnlyAtCommit(cfg, log, s, l);
    }
  }

  ghost predicate SystemInv(size: int, log: Log, sys: System) {
    Inv(Config(ContentConsumer, size), log, Local(sys, ContentConsumer)) &&
    Inv(Config(ClientConsumer, size), log, Local(sys, ClientConsumer))
  }

  lemma SystemInvOf(size: int, log: Log, sys: System, kind: Kind)
    requires Inv(Config(kind, size), log, Local(sys, kind))
    requires Inv(Config(Other(kind), size), log, Local(sys, Other(kind)))
    ensures SystemInv(size, log, sys)
  {
  }

  lemma ThreadKeeps(size: int, log: Log, sys: System, kind: Kind, step: Label)
    requires SystemInv(size, log, sys) && Act(size, log, sys, Thread(kind, step)).Some?
    ensures SystemInv(size, log, Act(size, log, sys, Thread(kind, step)).value)
  {
    var cfg, s := Config(kind, size), Local(sys, kind);
    var s' := Step(cfg, log, s, step).value;
    var sys' := Act(size, log, sys, Thread(kind, step)).value;
    StepKeeps(cfg, log, s, step);
    StepLeavesOther(cfg, log, s, step);
    KeepsBackups(cfg, log, s, step);
    assert Local(sys', kind) == s';
    assert Local(sys', Other(kind)) == Local(sys, Other(kind)).(db := s'.db);
    assert Inv(cfg, log, s');
    ForeignKeeps(Config(Other(kind), size), log, Local(sys, Other(kind)), s'.db);
    SystemInvOf(size, log, sys', kind);
  }

  lemma KeepsBackups(cfg: Config, log: Log, s: State, l: Label)
    requires Step(cfg, log, s, l).Some? && ThreadLabel(l)
    ensures Step(cfg, log, s, l).value.backups == s.backups
  {
  }

  lemma ExitKeeps(size: int, log: Log, sys: System)
    requires SystemInv(size, log, sys)
    ensures SystemInv(size, log, Act(size, log, sys, ExitProcess).value)
  {
    var sys' := Act(size, log, sys, ExitProcess).value;
    DeadKeeps(Config(ContentConsumer, size), log, Local(sys, ContentConsumer));
    DeadKeeps(Config(ClientConsumer, size), log, Local(sys, ClientConsumer));
    assert Local(sys', ContentConsumer) == Dead(Local(sys, ContentConsumer));
    assert Local(sys', ClientConsumer) == Dead(Local(sys, ClientConsumer));
  }

  lemma GrowKeeps(size: int, log: Log, sys: System, catalog: Catalog)
    requires SystemInv(size, log, sys) && CatalogExtends(sys.db.catalog, catalog) && CatalogOk(catalog)
    ensures SystemInv(size, log, sys.(db := sys.db.(catalog := catalog)))
  {
    var db := sys.db.(catalog := catalog);
    ForeignKeeps(Config(ContentConsumer, size), log, Local(sys, ContentConsumer), db);
    ForeignKeeps(Config(ClientConsumer, size), log, Local(sys, ClientConsumer), db);
    assert Local(sys.(db := db), ContentConsumer) == Local(sys, ContentConsumer).(db := db);
    assert Local(sys.(db := db), ClientConsumer) == Local(sys, ClientConsumer).(db := db);
  }

  lemma LocalDump(size: int, log: Log, sys: System, kind: Kind)
    ensures var s := Local(sys, kind);
            Local(Act(size, log, sys, Dump).value, kind)
              == s.(backups := s.backups + [Backup(s.db, s.history.applied)])
  {
  }

  lemma LocalLoad(size: int, log: Log, sys: System, i: nat, kind: Kind)
    requires Act(size, log, sys, Load(i)).Some?
    ensures Step(Config(kind, size), log, Local(sys, kind), Restore(i)) == Some(Local(Act(size, log, sys, Load(i)).value, kind))
  {
  }

  lemma DumpKeeps(size: int, log: Log, sys: System, kind: Kind)
    requires Inv(Config(kind, size), log, Local(sys, kind))
    ensures Inv(Config(kind, size), log, Local(Act(size, log, sys, Dump).value, kind))
  {
    LocalDump(size, log, sys, kind);
    BackupKeeps(Config(kind, size), log, Local(sys, kind));
  }

  lemma LoadKeeps(size: int, log: Log, sys: System, i: nat, kind: Kind)
    requires Inv(Config(kind, size), log, Local(sys, kind)) && Act(size, log, sys, Load(i)).Some?
    ensures Inv(Config(kind, size), log, Local(Act(size, log, sys, Load(i)).value, kind))
  {
    LocalLoad(size, log, sys, i, kind);
    StepKeeps(Config(kind, size), log, Local(sys, kind), Restore(i));
  }

  lemma ActKeeps(size: int, log: Log, sys: System, a: Action)
    requires SystemInv(size, log, sys) && Act(size, log, sys, a).Some?
    ensures SystemInv(size, log, Act(size, log, sys, a).value)
  {
    match a
    case Thread(kind, step) => ThreadKeeps(size, log, sys, kind, step);
    case ExitProcess => ExitKeeps(size, log, sys);
    case GrowCatalog(catalog) => GrowKeeps(size, log, sys, catalog);
    case Dump =>
      DumpKeeps(size, log, sys, ContentConsumer);
      DumpKeeps(size, log, sys, ClientConsumer);
    case Load(i) =>
      LoadKeeps(size, log, sys, i, ContentConsumer);
      LoadKeeps(size, log, sys, i, ClientConsumer);
  }

  lemma {:induction false} PlayKeeps(size: int, log: Log, sys: System, actions: seq<Action>)
    requires SystemInv(size, log, sys) && Play(size, log, sys, actions).Some?
    ensures SystemInv(size, log, Play(size, log, sys, actions).value)
  {
    if actions != [] {
      var init := actions[..|actions| - 1];
      PlayKeeps(size, log, sys, init);
      ActKeeps(size, log, Play(size, log, sys, init).value, actions[|actions| - 1]);
    }
  }

  lemma {:induction false} SilentOfBound(size: int, log: Log, sys: System, actions: seq<Action>, kind: Kind)
    requires Play(size, log, sys, actions).Some?
    ensures SideOf(Play(size, log, sys, actions).value, kind).history.silent
         <= SideOf(sys, kind).history.silent + SilentOf(kind, actions)
  {
    hide Execute;
    hide CatalogOk;
    if actions != [] {
      SilentOfBound(size, log, sys, actions[..|actions| - 1], kind);
    }
  }

  /** A run of the whole system from a database without counters or references. */
  ghost predicate IsPlay(size: int, log: Log, sys0: System, actions: seq<Action>, sys: System) {
    LogOk(log) && size > 0 && Untouched(sys0) && Play(size, log, sys0, actions) == Some(sys)
  }

  lemma PlayInv(size: int, log: Log, sys0: System, actions: seq<Action>, sys: System)
    requires IsPlay(size, log, sys0, actions, sys)
    ensures SystemInv(size, log, sys)
    ensures forall kind :: SideOf(sys, kind).history.silent <= SilentOf(kind, actions)
  {
    forall kind: Kind
      ensures Inv(Config(kind, size), log, Local(sys0, kind))
      ensures SideOf(sys, kind).history.silent <= SilentOf(kind, actions)
    {
      InitialInv(Config(kind, size), log, Local(sys0, kind));
      SilentOfBound(size, log, sys0, actions, kind);
    }
    PlayKeeps(size, log, sys0, actions);
  }

  // ---------------------------------------------------------------- views of a client

  function ViewOf(cat: Catalog, payload: Payload, client: Uuid, day: Day): nat {
    match payload
    case Pageview(Some(content), Some(d)) =>
      if content in cat.contents && cat.contents[content].client == client && d == day then 1 else 0
    case _ => 0
  }

  /** For each entry of the log, whether it is a view of this client's content on this day. */
  function ViewFlags(cat: Catalog, log: Log, client: Uuid, day: Day): (f: seq<nat>)
    ensures |f| == |log| && forall i | 0 <= i < |log| :: f[i] == ViewOf(cat, log[i].payload, client, day)
  {
    seq(|log|, i requires 0 <= i < |log| => ViewOf(cat, log[i].payload, client, day))
  }

  function SumAt(flags: seq<nat>, xs: seq<nat>): nat
    requires Within(|flags|, xs)
  {
    if xs == [] then 0 else SumAt(flags, xs[..|xs| - 1]) + flags[xs[|xs| - 1]]
  }

  /** How many of the entries at the given indices are views of this client's content on this day. */
  function Views(cat: Catalog, log: Log, xs: seq<nat>, client: Uuid, day: Day): nat
    requires InLog(log, xs)
  {
    SumAt(ViewFlags(cat, log, client, day), xs)
  }

  function PartitionRows(rows: Rows, client: Uuid, day: Day): Rows {
    map key | key in rows && key.ContentRow? && key.partition == StripDashes(client) && key.day == day :: rows[key]
  }

  /** The sum of the day's counts in the partition of a client. */
  ghost function PartitionSum(rows: Rows, client: Uuid, day: Day): int {
    Total(PartitionRows(rows, client, day))
  }

  predicate InPartition(row: Option<RowKey>, client: Uuid, day: Day) {
    row.Some? && row.value.ContentRow? && row.value.partition == StripDashes(client) && row.value.day == day
  }

  lemma PartitionBump(rows: Rows, row: Option<RowKey>, client: Uuid, day: Day)
    ensures PartitionSum(Bump(rows, row), client, day) == PartitionSum(rows, client, day)
              + if InPartition(row, client, day) then 1 else 0
  {
    if row.Some? {
      var key := row.value;
      var part := PartitionRows(rows, client, day);
      if key.ContentRow? && key.partition == StripDashes(client) && key.day == day {
        var count := if key in rows then rows[key] + 1 else 1;
        assert PartitionRows(Bump(rows, row), client, day) == part[key := count];
        TotalUpdate(part, key, count);
      } else {
        assert PartitionRows(Bump(rows, row), client, day) == part;
      }
    }
  }

  /** A content row lies in the partition of a client exactly when its content is that client's. */
  lemma PartitionOfView(cat: Catalog, payload: Payload, client: Uuid, day: Day)
    requires CatalogOk(cat) && client in cat.clients && Processable(ContentConsumer, cat, payload)
    ensures InPartition(EffectRow(ContentConsumer, cat, payload), client, day) <==> ViewOf(cat, payload, client, day) == 1
  {
    NoNamelessPartition(cat);
    if payload.Pageview? {
      ProcessableIffKnown(ContentConsumer, cat, payload.content, payload.day);
      var owner := cat.contents[payload.content.value].client;
      assert owner in cat.clients;
      if StripDashes(owner) == StripDashes(client) {
        StripDashesInjective(owner, client);
      }
    }
  }

  lemma {:induction false} PartitionCounts(cat: Catalog, log: Log, xs: seq<nat>, client: Uuid, day: Day)
    requires InLog(log, xs) && AllProcessable(ContentConsumer, cat, log, xs)
    requires CatalogOk(cat) && client in cat.clients
    ensures PartitionSum(Counters(Effects(ContentConsumer, cat, log), xs), client, day) == Views(cat, log, xs, client, day)
  {
    if xs == [] {
      assert PartitionRows(map[], client, day) == map[];
    } else {
      var init, last := xs[..|xs| - 1], xs[|xs| - 1];
      PartitionCounts(cat, log, init, client, day);
      PartitionBump(Counters(Effects(ContentConsumer, cat, log), init), EffectRow(ContentConsumer, cat, log[last].payload), client, day);
      PartitionOfView(cat, log[last].payload, client, day);
    }
  }

  lemma {:induction false} ClientCounts(cat: Catalog, log: Log, xs: seq<nat>, client: Uuid, day: Day)
    requires InLog(log, xs) && AllProcessable(ClientConsumer, cat, log, xs)
    ensures CountOf(Counters(Effects(ClientConsumer, cat, log), xs), ClientRow(client, day)) == Views(cat, log, xs, client, day)
  {
    if xs != [] {
      ClientCounts(cat, log, xs[..|xs| - 1], client, day);
    }
  }

  lemma SumSnoc(flags: seq<nat>, xs: seq<nat>, x: nat)
    requires Within(|flags|, xs) && x < |flags|
    ensures Within(|flags|, xs + [x])
    ensures SumAt(flags, xs + [x]) == SumAt(flags, xs) + flags[x]
  {
    assert (xs + [x])[..|xs|] == xs;
  }

  lemma {:induction false} SumOfWalk(flags: seq<nat>, xs: seq<nat>)
    requires Within(|flags|, xs) && Walk(xs)
    requires forall i | 0 <= i < |flags| :: flags[i] <= 1
    ensures Next(xs) <= |flags|
    ensures SumAt(flags, Prefix(Next(xs))) <= SumAt(flags, xs) <= SumAt(flags, Prefix(Next(xs))) + Repeats(xs)
  {
    if xs != [] {
      var init, last := xs[..|xs| - 1], xs[|xs| - 1];
      SumOfWalk(flags, init);
      assert Prefix(last + 1) == Prefix(last) + [last];
      SumSnoc(flags, Prefix(last), last);
    }
  }

  lemma ViewsOfWalk(cat: Catalog, log: Log, xs: seq<nat>, client: Uuid, day: Day)
    requires InLog(log, xs) && Walk(xs)
    ensures Next(xs) <= |log|
    ensures Views(cat, log, Prefix(Next(xs)), client, day) <= Views(cat, log, xs, client, day)
    ensures Views(cat, log, xs, client, day) <= Views(cat, log, Prefix(Next(xs)), client, day) + Repeats(xs)
  {
    SumOfWalk(ViewFlags(cat, log, client, day), xs);
  }

  lemma PartitionSumOwn(rows: Rows, client: Uuid, day: Day)
    ensures PartitionSum(rows, client, day) == PartitionSum(CounterRows(ContentConsumer, rows), client, day)
  {
    assert PartitionRows(rows, client, day) == PartitionRows(CounterRows(ContentConsumer, rows), client, day);
  }

  lemma ClientCountOwn(rows: Rows, client: Uuid, day: Day)
    ensures CountOf(rows, ClientRow(client, day)) == CountOf(CounterRows(ClientConsumer, rows), ClientRow(client, day))
  {
  }

  /** The content counters of a client lie between the views in the covered prefix and that plus the
      silent starts of the content thread. */
  lemma PartitionBounds(log: Log, s: State, client: Uuid, day: Day)
    requires LogOk(log) && CommittedOk(ContentConsumer, log, s.db, s.history.applied)
    requires client in s.db.catalog.clients && Repeats(s.history.applied) <= s.history.silent
    ensures CoveredBy(ContentConsumer, log, s.db) <= |log|
    ensures var once := Views(s.db.catalog, log, Prefix(CoveredBy(ContentConsumer, log, s.db)), client, day);
            once <= PartitionSum(s.db.rows, client, day) <= once + s.history.silent
  {
    var applied := s.history.applied;
    CoveredIsNext(ContentConsumer, log, s.db, applied);
    PartitionSumOwn(s.db.rows, client, day);
    PartitionCounts(s.db.catalog, log, applied, client, day);
    ViewsOfWalk(s.db.catalog, log, applied, client, day);
  }

  lemma ClientBounds(log: Log, s: State, client: Uuid, day: Day)
    requires LogOk(log) && CommittedOk(ClientConsumer, log, s.db, s.history.applied)
    requires Repeats(s.history.applied) <= s.history.silent
    ensures CoveredBy(ClientConsumer, log, s.db) <= |log|
    ensures var once := Views(s.db.catalog, log, Prefix(CoveredBy(ClientConsumer, log, s.db)), client, day);
            once <= CountOf(s.db.rows, ClientRow(client, day)) <= once + s.history.silent
  {
    var applied := s.history.applied;
    CoveredIsNext(ClientConsumer, log, s.db, applied);
    ClientCountOwn(s.db.rows, client, day);
    ClientCounts(s.db.catalog, log, applied, client, day);
    ViewsOfWalk(s.db.catalog, log, applied, client, day);
  }

  // ---------------------------------------------------------------- reconciliation

  /** Under any interleaving, crash, failure, catalog growth and restored backup: whenever the two committed
      references are equal, a client's daily count and the sum of its content's daily counts both lie
      between the true number of views and that number plus the silent starts of their own thread. */
  lemma ReconcileWithin(size: int, log: Log, sys0: System, actions: seq<Action>, sys: System, client: Uuid, day: Day)
    requires IsPlay(size, log, sys0, actions, sys)
    requires Reference(ContentConsumer, sys.db) == Reference(ClientConsumer, sys.db)
    requires client in sys.db.catalog.clients
    ensures CoveredBy(ContentConsumer, log, sys.db) <= |log|
    ensures var once := Views(sys.db.catalog, log, Prefix(CoveredBy(ContentConsumer, log, sys.db)), client, day);
            && once <= PartitionSum(sys.db.rows, client, day) <= once + SilentOf(ContentConsumer, actions)
            && once <= CountOf(sys.db.rows, ClientRow(client, day)) <= once + SilentOf(ClientConsumer, actions)
  {
    PlayInv(size, log, sys0, actions, sys);
    assert SideOf(sys, ContentConsumer).history.silent <= SilentOf(ContentConsumer, actions);
    assert SideOf(sys, ClientConsumer).history.silent <= SilentOf(ClientConsumer, actions);
    PartitionBounds(log, Local(sys, ContentConsumer), client, day);
    ClientBounds(log, Local(sys, ClientConsumer), client, day);
  }

  /** When every resuming `Start` obtained its message, equal references mean equal figures. */
  lemma Reconcile(size: int, log: Log, sys0: System, actions: seq<Action>, sys: System, client: Uuid, day: Day)
    requires IsPlay(size, log, sys0, actions, sys)
    requires SilentOf(ContentConsumer, actions) == SilentOf(ClientConsumer, actions) == 0
    requires Reference(ContentConsumer, sys.db) == Reference(ClientConsumer, sys.db)
    requires client in sys.db.catalog.clients
    ensures PartitionSum(sys.db.rows, client, day) == CountOf(sys.db.rows, ClientRow(client, day))
  {
    ReconcileWithin(size, log, sys0, actions, sys, client, day);
  }
}
