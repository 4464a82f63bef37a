/** create_client and content_add of pgsql/content.sql over sequences of calls. */
module CatalogProcedures {
  import opened Wrappers
  import opened PageviewStore

  /** A call with its arguments and the uuid that `uuid_generate_v1()` would hand out. */
  datatype Call =
    | CreateClient(name: string, uuid: Uuid)
    | ContentAdd(client: Uuid, name: string, url: string, uuid: Uuid)

  /** The catalog afterwards and the returned id, or None for a call that raises an error and is undone. */
  datatype Answer = Answer(catalog: Catalog, id: Option<Uuid>)

  ghost function ClientNamed(cat: Catalog, name: string): (r: Option<Uuid>)
    ensures r.Some? <==> exists c :: c in cat.clients && cat.clients[c] == name
    ensures r.Some? ==> r.value in cat.clients && cat.clients[r.value] == name
  {
    if exists c :: c in cat.clients && cat.clients[c] == name then
      var c :| c in cat.clients && cat.clients[c] == name;
      Some(c)
    else None
  }

  ghost function ContentAt(cat: Catalog, url: string): (r: Option<Uuid>)
    ensures r.Some? <==> exists i :: i in cat.contents && cat.contents[i].url == url
    ensures r.Some? ==> r.value in cat.contents && cat.contents[r.value].url == url
  {
    if exists i :: i in cat.contents && cat.contents[i].url == url then
      var i :| i in cat.contents && cat.contents[i].url == url;
      Some(i)
    else None
  }

  /** A known name or URL answers with its id.  A new one is inserted, unless a key, a foreign key or the
      name of the new partition table clashes. */
  ghost function Apply(cat: Catalog, call: Call): Answer {
    match call
    case CreateClient(name, uuid) =>
      var known := ClientNamed(cat, name);
      if known.Some? then Answer(cat, known)
      else if uuid in cat.clients || StripDashes(uuid) in cat.partitions then Answer(cat, None)
      else
        Answer(cat.(clients := cat.clients[uuid := name], partitions := cat.partitions + {StripDashes(uuid)}), Some(uuid))
    case ContentAdd(client, name, url, uuid) =>
      var known := ContentAt(cat, url);
      if known.Some? then Answer(cat, known)
      else if uuid in cat.contents || client !in cat.clients then Answer(cat, None)
      else Answer(cat.(contents := cat.contents[uuid := Content(name, url, client)]), Some(uuid))
  }

  ghost function ApplyAll(cat: Catalog, calls: seq<Call>): Catalog {
    if calls == [] then cat
    else Apply(ApplyAll(cat, calls[..|calls| - 1]), calls[|calls| - 1]).catalog
  }

  /** `uuid_generate_v1()` yields uuids, which print canonically. */
  ghost predicate Generated(calls: seq<Call>) {
    forall i | 0 <= i < |calls| :: CanonicalUuid(calls[i].uuid)
  }

  lemma ClientNameUnique(cat: Catalog, c: Uuid)
    requires ClientsOk(cat.clients, cat.partitions) && c in cat.clients
    ensures ClientNamed(cat, cat.clients[c]) == Some(c)
  {
  }

  lemma ContentUrlUnique(cat: Catalog, i: Uuid)
    requires ContentsOk(cat.contents, cat.clients) && i in cat.contents
    ensures ContentAt(cat, cat.contents[i].url) == Some(i)
  {
  }

  lemma InsertClient(clients: map<Uuid, string>, partitions: set<string>, uuid: Uuid, name: string)
    requires ClientsOk(clients, partitions) && CanonicalUuid(uuid) && uuid !in clients
    requires forall c | c in clients :: clients[c] != name
    ensures ClientsOk(clients[uuid := name], partitions + {StripDashes(uuid)})
  {
    hide StripDashes;
    hide CanonicalUuid;
    var after := clients[uuid := name];
    forall p | p in partitions + {StripDashes(uuid)}
      ensures exists c :: c in after && StripDashes(c) == p
    {
      if p == StripDashes(uuid) {
        assert uuid in after;
      } else {
        var c :| c in clients && StripDashes(c) == p;
        assert c in after;
      }
    }
  }

  lemma CreateKeeps(cat: Catalog, name: string, uuid: Uuid)
    requires CatalogOk(cat) && CanonicalUuid(uuid)
    ensures CatalogOk(Apply(cat, CreateClient(name, uuid)).catalog)
    ensures CatalogExtends(cat, Apply(cat, CreateClient(name, uuid)).catalog)
  {
    hide StripDashes;
    hide CanonicalUuid;
    hide ClientsOk;
    if ClientNamed(cat, name).None? && uuid !in cat.clients {
      InsertClient(cat.clients, cat.partitions, uuid, name);
    }
  }

  lemma InsertContent(contents: map<Uuid, Content>, clients: map<Uuid, string>, uuid: Uuid, row: Content)
    requires ContentsOk(contents, clients) && row.client in clients && uuid !in contents
    requires forall i | i in contents :: contents[i].url != row.url
    ensures ContentsOk(contents[uuid := row], clients)
  {
  }

  lemma AddKeeps(cat: Catalog, client: Uuid, name: string, url: string, uuid: Uuid)
    requires CatalogOk(cat)
    ensures CatalogOk(Apply(cat, ContentAdd(client, name, url, uuid)).catalog)
    ensures CatalogExtends(cat, Apply(cat, ContentAdd(client, name, url, uuid)).catalog)
  {
    if ContentAt(cat, url).None? && uuid !in cat.contents && client in cat.clients {
      InsertContent(cat.contents, cat.clients, uuid, Content(name, url, client));
    }
  }

  /** A new name is inserted under the new uuid, with one partition, and nothing else changes. */
  lemma NewClient(cat: Catalog, name: string, uuid: Uuid)
    requires CatalogOk(cat) && CanonicalUuid(uuid) && uuid !in cat.clients
    requires forall c | c in cat.clients :: cat.clients[c] != name
    ensures StripDashes(uuid) !in cat.partitions
    ensures Apply(cat, CreateClient(name, uuid))
         == Answer(Catalog(cat.clients[uuid := name], cat.contents, cat.partitions + {StripDashes(uuid)}), Some(uuid))
  {
    hide StripDashes;
    hide CanonicalUuid;
    if StripDashes(uuid) in cat.partitions {
      var c :| c in cat.clients && StripDashes(c) == StripDashes(uuid);
      StripDashesInjective(c, uuid);
    }
  }

  /** A new URL of a known client is inserted under the new uuid with its client, name and URL, and nothing else
      changes; for an unknown client the call fails and changes nothing. */
  lemma NewContent(cat: Catalog, client: Uuid, name: string, url: string, uuid: Uuid)
    requires uuid !in cat.contents && forall i | i in cat.contents :: cat.contents[i].url != url
    ensures var answer := Apply(cat, ContentAdd(client, name, url, uuid));
            if client in cat.clients then
              answer.id == Some(uuid) && answer.catalog.clients == cat.clients && answer.catalog.partitions == cat.partitions
              && answer.catalog.contents == cat.contents[uuid := Content(name, url, client)]
            else answer.id == None && answer.catalog == cat
  {
  }

  /** No sequence of calls breaks a key, an index, a foreign key or the naming of the partitions, or changes
      a row that an earlier call made. */
  lemma {:induction false} CallsKeepCatalog(cat: Catalog, calls: seq<Call>)
    requires CatalogOk(cat) && Generated(calls)
    ensures CatalogOk(ApplyAll(cat, calls)) && CatalogExtends(cat, ApplyAll(cat, calls))
  {
    if calls != [] {
      var init, last := calls[..|calls| - 1], calls[|calls| - 1];
      CallsKeepCatalog(cat, init);
      match last
      case CreateClient(name, uuid) => CreateKeeps(ApplyAll(cat, init), name, uuid);
      case ContentAdd(client, name, url, uuid) => AddKeeps(ApplyAll(cat, init), client, name, url, uuid);
    }
  }

  lemma {:induction false} StrippedCount(clients: set<Uuid>, stripped: set<string>)
    requires forall c | c in clients :: CanonicalUuid(c)
    requires forall c | c in clients :: StripDashes(c) in stripped
    requires forall p | p in stripped :: exists c :: c in clients && StripDashes(c) == p
    ensures |stripped| == |clients|
  {
    if clients == {} {
      assert stripped == {};
    } else {
      var c :| c in clients;
      var rest, others := clients - {c}, stripped - {StripDashes(c)};
      forall d | d in rest
        ensures StripDashes(d) in others
      {
        if StripDashes(d) == StripDashes(c) {
          StripDashesInjective(c, d);
        }
      }
      forall p | p in others
        ensures exists d :: d in rest && StripDashes(d) == p
      {
        var d :| d in clients && StripDashes(d) == p;
        assert d in rest;
      }
      StrippedCount(rest, others);
    }
  }

  /** Partitions and clients correspond one to one: every partition is that of one client and of no other,
      and there are as many of the one as of the other. */
  lemma OnePartitionPerClient(cat: Catalog)
    requires CatalogOk(cat)
    ensures |cat.partitions| == |cat.clients|
    ensures forall p | p in cat.partitions :: exists c :: c in cat.clients && StripDashes(c) == p
    ensures forall c, d | c in cat.clients && d in cat.clients && StripDashes(c) == StripDashes(d) :: c == d
  {
    StrippedCount(cat.clients.Keys, cat.partitions);
    forall c, d | c in cat.clients && d in cat.clients && StripDashes(c) == StripDashes(d)
      ensures c == d
    {
      StripDashesInjective(c, d);
    }
  }

  /** Asking again, at any later time and with any new uuid at hand, gives the same id and changes nothing. */
  lemma CreateClientTwice(cat: Catalog, name: string, first: Uuid, between: seq<Call>, second: Uuid)
    requires CatalogOk(cat) && CanonicalUuid(first) && Generated(between)
    requires Apply(cat, CreateClient(name, first)).id.Some?
    ensures var once := Apply(cat, CreateClient(name, first));
            var later := ApplyAll(once.catalog, between);
            Apply(later, CreateClient(name, second)) == Answer(later, once.id)
  {
    var once := Apply(cat, CreateClient(name, first));
    CreateKeeps(cat, name, first);
    CallsKeepCatalog(once.catalog, between);
    var later := ApplyAll(once.catalog, between);
    ClientNameUnique(later, once.id.value);
  }

  /** The URL decides: a second content_add for it returns the first content, whichever client asks. */
  lemma ContentAddTwice(cat: Catalog, client: Uuid, name: string, url: string, first: Uuid, between: seq<Call>,
                        other: Uuid, name': string, second: Uuid)
    requires CatalogOk(cat) && Generated(between)
    requires Apply(cat, ContentAdd(client, name, url, first)).id.Some?
    ensures var once := Apply(cat, ContentAdd(client, name, url, first));
            var later := ApplyAll(once.catalog, between);
            Apply(later, ContentAdd(other, name', url, second)) == Answer(later, once.id)
  {
    var once := Apply(cat, ContentAdd(client, name, url, first));
    AddKeeps(cat, client, name, url, first);
    CallsKeepCatalog(once.catalog, between);
    var later := ApplyAll(once.catalog, between);
    ContentUrlUnique(later, once.id.value);
  }

  /** The tables behind the procedures, which run in a transaction of their own. */
  class CatalogTables {
    var clients: map<Uuid, string>
    var contents: map<Uuid, Content>
    var partitions: set<string>

    constructor ()
      ensures Value() == EmptyCatalog
    {
      clients, contents, partitions := map[], map[], {};
    }

    ghost function Value(): Catalog
      reads this
    {
      Catalog(clients, contents, partitions)
    }

    method Create(name: string, uuid: Uuid) returns (id: Option<Uuid>)
      requires CatalogOk(Value())
      modifies this
      ensures Answer(Value(), id) == Apply(old(Value()), CreateClient(name, uuid))
    {
      if c :| c in clients && clients[c] == name {
        return Some(c);
      }
      if uuid in clients || StripDashes(uuid) in partitions {
        return None;
      }
      clients := clients[uuid := name];
      partitions := partitions + {StripDashes(uuid)};
      return Some(uuid);
    }

    method Add(client: Uuid, name: string, url: string, uuid: Uuid) returns (id: Option<Uuid>)
      requires CatalogOk(Value())
      modifies this
      ensures Answer(Value(), id) == Apply(old(Value()), ContentAdd(client, name, url, uuid))
    {
      if i :| i in contents && contents[i].url == url {
        return Some(i);
      }
      if uuid in contents || client !in clients {
        return None;
      }
      contents := contents[uuid := Content(name, url, client)];
      return Some(uuid);
    }
  }
}
