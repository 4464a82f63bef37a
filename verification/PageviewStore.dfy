/** The `pageview` schema of pgsql/content.sql: its tables, the catalog invariant that its procedures
    keep, and the row that one page view message increments.
  */
module PageviewStore {
  import opened Wrappers

  type Uuid = string
  type Day = int

  /** One row of a counter table or of `source_ref`, named by its primary key.  The partition of a
      content row is the suffix of the table `content_counter_<suffix>` holding it. */
  datatype RowKey =
    | ContentRow(partition: string, content: Uuid, day: Day)
    | ClientRow(client: Uuid, day: Day)
    | RefRow(source: string)

  /** The single value column of each row: `pageview_count` or `source_ref_int`. */
  type Rows = map<RowKey, int>

  datatype Content = Content(name: string, url: string, client: Uuid)

  datatype Catalog = Catalog(clients: map<Uuid, string>, contents: map<Uuid, Content>, partitions: set<string>)

  datatype Database = Database(catalog: Catalog, rows: Rows)

  // ---------------------------------------------------------------- uuid text and partition names

  /** `replace(s, '-', '')`. */
  function StripDashes(s: string): (r: string)
    ensures '-' !in r
  {
    if s == "" then ""
    else if s[0] == '-' then StripDashes(s[1..])
    else [s[0]] + StripDashes(s[1..])
  }

  predicate HexDigit(c: char) {
    '0' <= c <= '9' || 'a' <= c <= 'f'
  }

  /** The text PostgreSQL prints for a `uuid`: 8-4-4-4-12 lower-case hexadecimal digits. */
  predicate CanonicalUuid(s: string) {
    && |s| == 36
    && s[8] == s[13] == s[18] == s[23] == '-'
    && forall i | 0 <= i < 36 && i !in {8, 13, 18, 23} :: HexDigit(s[i])
  }

  lemma {:induction false} StripDashesConcat(a: string, b: string)
    ensures StripDashes(a + b) == StripDashes(a) + StripDashes(b)
  {
    if a == "" {
      assert a + b == b;
    } else {
      assert (a + b)[1..] == a[1..] + b;
      StripDashesConcat(a[1..], b);
    }
  }

  lemma {:induction false} StripDashesKeeps(s: string)
    requires '-' !in s
    ensures StripDashes(s) == s
  {
    if s != "" {
      StripDashesKeeps(s[1..]);
    }
  }

  /** Dropping the dashes twice is dropping them once: the three-argument `content_pageview` strips
      a name that its caller already stripped. */
  lemma StripDashesIdempotent(s: string)
    ensures StripDashes(StripDashes(s)) == StripDashes(s)
  {
    StripDashesKeeps(StripDashes(s));
  }

  lemma StripFirstGroup(s: string, n: nat)
    requires n < |s| && '-' !in s[..n] && s[n] == '-'
    ensures StripDashes(s) == s[..n] + StripDashes(s[n + 1..])
  {
    assert s == s[..n] + s[n..];
    StripDashesConcat(s[..n], s[n..]);
    StripDashesKeeps(s[..n]);
  }

  lemma StripCanonical(s: string)
    requires CanonicalUuid(s)
    ensures StripDashes(s) == s[..8] + (s[9..13] + (s[14..18] + (s[19..23] + s[24..])))
  {
    StripFirstGroup(s, 8);
    StripFirstGroup(s[9..], 4);
    StripFirstGroup(s[14..], 4);
    StripFirstGroup(s[19..], 4);
    StripDashesKeeps(s[24..]);
    assert s[9..][..4] == s[9..13] && s[9..][5..] == s[14..];
    assert s[14..][..4] == s[14..18] && s[14..][5..] == s[19..];
    assert s[19..][..4] == s[19..23] && s[19..][5..] == s[24..];
  }

  /** The dashes put back. */
  function Redash(r: string): string
    requires |r| == 32
  {
    r[..8] + "-" + r[8..12] + "-" + r[12..16] + "-" + r[16..20] + "-" + r[20..]
  }

  /** Dropping the dashes loses nothing of a canonical uuid. */
  lemma StripThenRedash(s: string)
    requires CanonicalUuid(s)
    ensures |StripDashes(s)| == 32 && Redash(StripDashes(s)) == s
  {
    StripCanonical(s);
    hide StripDashes;
    var r := StripDashes(s);
    assert r[..8] == s[..8];
    assert r[8..12] == s[9..13];
    assert r[12..16] == s[14..18];
    assert r[16..20] == s[19..23];
    assert r[20..] == s[24..];
  }

  /** Two clients never share a partition. */
  lemma StripDashesInjective(s: string, t: string)
    requires CanonicalUuid(s) && CanonicalUuid(t)
    requires StripDashes(s) == StripDashes(t)
    ensures s == t
  {
    StripThenRedash(s);
    StripThenRedash(t);
  }

  // ---------------------------------------------------------------- catalog invariant

  /** Client names are unique, and the partitions are exactly the ones named after the clients. */
  predicate ClientsOk(clients: map<Uuid, string>, partitions: set<string>) {
    && (forall c | c in clients :: CanonicalUuid(c))
    && (forall c, d | c in clients && d in clients && clients[c] == clients[d] :: c == d)
    && (forall c | c in clients :: StripDashes(c) in partitions)
    && (forall p | p in partitions :: exists c :: c in clients && StripDashes(c) == p)
  }

  /** URLs are unique, and every content belongs to a client. */
  predicate ContentsOk(contents: map<Uuid, Content>, clients: map<Uuid, string>) {
    && (forall i, j | i in contents && j in contents && contents[i].url == contents[j].url :: i == j)
    && (forall i | i in contents :: contents[i].client in clients)
  }

  /** What the primary keys, unique indexes and foreign keys promise, and what create_client adds to that. */
  predicate CatalogOk(cat: Catalog) {
    ClientsOk(cat.clients, cat.partitions) && ContentsOk(cat.contents, cat.clients)
  }

  /** What the catalog procedures may do over time: add rows and partitions, change none. */
  predicate CatalogExtends(before: Catalog, after: Catalog) {
    && (forall c | c in before.clients :: c in after.clients && after.clients[c] == before.clients[c])
    && (forall i | i in before.contents :: i in after.contents && after.contents[i] == before.contents[i])
    && before.partitions <= after.partitions
  }

  const EmptyCatalog := Catalog(map[], map[], {})

  lemma NoNamelessPartition(cat: Catalog)
    requires CatalogOk(cat)
    ensures "" !in cat.partitions
  {
    if "" in cat.partitions {
      var c :| c in cat.clients && StripDashes(c) == "";
      StripCanonical(c);
      assert false;
    }
  }
}
