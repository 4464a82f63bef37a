/** What the counter rows say: how often each content, and the content of each client, was viewed on each day. */
module ContentCounts {
  import opened Wrappers
  import opened PageviewStore
  import opened Transactions
  import opened MessageLog
  import opened ConsumerMachine
  import opened ConsumerSafety
  import opened ConsumerInvariant
  import opened ConsumerTheorems
  import opened Reconciliation

  /** How many of the first `n` messages are views of this content on this day. */
  function TimesViewed(log: Log, n: nat, content: Uuid, day: Day): nat
    requires n <= |log|
  {
    if n == 0 then 0
    else TimesViewed(log, n - 1, content, day) + if log[n - 1].payload == Pageview(Some(content), Some(day)) then 1 else 0
  }

  /** The row of a content: in the partition of its client, under its own id. */
  function RowOf(cat: Catalog, content: Uuid, day: Day): RowKey
    requires content in cat.contents
  {
    ContentRow(StripDashes(cat.contents[content].client), content, day)
  }

  function ContentFlags(log: Log, content: Uuid, day: Day): (f: seq<nat>)
    ensures |f| == |log|
    ensures forall i | 0 <= i < |log| :: f[i] == if log[i].payload == Pageview(Some(content), Some(day)) then 1 else 0
  {
    seq(|log|, i requires 0 <= i < |log| => if log[i].payload == Pageview(Some(content), Some(day)) then 1 else 0)
  }

  lemma {:induction false} PrefixSum(log: Log, n: nat, content: Uuid, day: Day)
    requires n <= |log|
    ensures SumAt(ContentFlags(log, content, day), Prefix(n)) == TimesViewed(log, n, content, day)
  {
    if n > 0 {
      PrefixSum(log, n - 1, content, day);
      assert Prefix(n) == Prefix(n - 1) + [n - 1];
      SumSnoc(ContentFlags(log, content, day), Prefix(n - 1), n - 1);
    }
  }

  /** An accepted message is counted in the row of a content if and only if it is a view of it on that day. */
  lemma CountedInRow(cat: Catalog, payload: Payload, content: Uuid, day: Day)
    requires CatalogOk(cat) && content in cat.contents && Processable(ContentConsumer, cat, payload)
    ensures EffectRow(ContentConsumer, cat, payload) == Some(RowOf(cat, content, day))
       <==> payload == Pageview(Some(content), Some(day))
  {
    if payload.Pageview? {
      ProcessableIffKnown(ContentConsumer, cat, payload.content, payload.day);
    }
  }

  lemma {:induction false} RowCounts(cat: Catalog, log: Log, xs: seq<nat>, content: Uuid, day: Day)
    requires InLog(log, xs) && AllProcessable(ContentConsumer, cat, log, xs)
    requires CatalogOk(cat) && content in cat.contents
    ensures CountOf(Counters(Effects(ContentConsumer, cat, log), xs), RowOf(cat, content, day))
         == SumAt(ContentFlags(log, content, day), xs)
  {
    hide CatalogOk;
    hide EffectRow;
    hide RowOf;
    hide Processable;
    if xs != [] {
      var last := xs[|xs| - 1];
      RowCounts(cat, log, xs[..|xs| - 1], content, day);
      CountedInRow(cat, log[last].payload, content, day);
    }
  }

  /** Every row is that of a content that was viewed. */
  lemma {:induction false} NoStrayRows(cat: Catalog, log: Log, xs: seq<nat>, key: RowKey)
    requires InLog(log, xs) && AllProcessable(ContentConsumer, cat, log, xs) && CatalogOk(cat)
    requires key in Counters(Effects(ContentConsumer, cat, log), xs)
    ensures key.ContentRow? && key.content in cat.contents && key == RowOf(cat, key.content, key.day)
    ensures exists i | i in xs :: log[i].payload == Pageview(Some(key.content), Some(key.day))
  {
    hide CatalogOk;
    var init, last := xs[..|xs| - 1], xs[|xs| - 1];
    if EffectRow(ContentConsumer, cat, log[last].payload) == Some(key) {
      RowOfContent(cat, log[last].payload, key);
      assert last in xs;
    } else {
      NoStrayRows(cat, log, init, key);
      var i :| i in init && log[i].payload == Pageview(Some(key.content), Some(key.day));
      assert i in xs;
    }
  }

  lemma RowOfContent(cat: Catalog, payload: Payload, key: RowKey)
    requires CatalogOk(cat) && EffectRow(ContentConsumer, cat, payload) == Some(key)
    ensures key.ContentRow? && key.content in cat.contents && key == RowOf(cat, key.content, key.day)
    ensures payload == Pageview(Some(key.content), Some(key.day))
  {
    ProcessableIffKnown(ContentConsumer, cat, payload.content, payload.day);
  }

  // ---------------------------------------------------------------- every run

  /** Each content is counted in its own row: in every run, for every content of the catalog and every day, the
      committed count lies between the number of its views in the covered prefix and that number plus the silent
      starts, and is exactly that number without one. */
  lemma ContentsCounted(cfg: Config, log: Log, s0: State, labels: seq<Label>, s: State, content: Uuid, day: Day)
    requires IsRun(cfg, log, s0, labels, s) && cfg.kind == ContentConsumer && content in s.db.catalog.contents
    ensures CoveredBy(ContentConsumer, log, s.db) <= |log|
    ensures var count := CountOf(s.db.rows, ContentRow(StripDashes(s.db.catalog.contents[content].client), content, day));
            var views := TimesViewed(log, CoveredBy(ContentConsumer, log, s.db), content, day);
            views <= count <= views + SilentStarts(labels)
  {
    RunInv(cfg, log, s0, labels, s);
    ContentBounds(cfg, log, s, content, day);
  }

  lemma ContentBounds(cfg: Config, log: Log, s: State, content: Uuid, day: Day)
    requires Inv(cfg, log, s) && cfg.kind == ContentConsumer && content in s.db.catalog.contents
    ensures CoveredBy(ContentConsumer, log, s.db) <= |log|
    ensures var views := TimesViewed(log, CoveredBy(ContentConsumer, log, s.db), content, day);
            views <= CountOf(s.db.rows, RowOf(s.db.catalog, content, day)) <= views + s.history.silent
  {
    hide CatalogOk;
    var applied := s.history.applied;
    CoveredIsNext(ContentConsumer, log, s.db, applied);
    RowCounts(s.db.catalog, log, applied, content, day);
    SumOfWalk(ContentFlags(log, content, day), applied);
    PrefixSum(log, Next(applied), content, day);
    assert CountOf(s.db.rows, RowOf(s.db.catalog, content, day))
        == CountOf(CounterRows(ContentConsumer, s.db.rows), RowOf(s.db.catalog, content, day));
  }

  /** No other content row is ever committed: each is the row of a content that was viewed on its day. */
  lemma OnlyViewedContents(cfg: Config, log: Log, s0: State, labels: seq<Label>, s: State, key: RowKey)
    requires IsRun(cfg, log, s0, labels, s) && cfg.kind == ContentConsumer && key in s.db.rows && key.ContentRow?
    ensures key.content in s.db.catalog.contents && key.partition == StripDashes(s.db.catalog.contents[key.content].client)
    ensures exists i | 0 <= i < |log| && i < CoveredBy(ContentConsumer, log, s.db) ::
              log[i].payload == Pageview(Some(key.content), Some(key.day))
  {
    RunInv(cfg, log, s0, labels, s);
    var applied := s.history.applied;
    CoveredIsNext(ContentConsumer, log, s.db, applied);
    assert key in CounterRows(ContentConsumer, s.db.rows);
    NoStrayRows(s.db.catalog, log, applied, key);
    WalkBounds(applied);
  }

  /** The client consumer counts, per client and day, the views of all of the client's contents. */
  lemma ClientsCounted(cfg: Config, log: Log, s0: State, labels: seq<Label>, s: State, client: Uuid, day: Day)
    requires IsRun(cfg, log, s0, labels, s) && cfg.kind == ClientConsumer
    ensures CoveredBy(ClientConsumer, log, s.db) <= |log|
    ensures var count := CountOf(s.db.rows, ClientRow(client, day));
            var views := Views(s.db.catalog, log, Prefix(CoveredBy(ClientConsumer, log, s.db)), client, day);
            views <= count <= views + SilentStarts(labels)
  {
    RunInv(cfg, log, s0, labels, s);
    ClientBounds(log, s, client, day);
  }
}
