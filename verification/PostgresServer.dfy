/** The database server: the committed database, and one backend per connection that runs the stored
    procedures of pgsql/content.sql in the transaction of that connection.
  */
module PostgresServer {
  import opened Wrappers
  import opened PageviewStore
  import opened Transactions
  import opened ConsumerMachine

  class Server {
    var db: Database

    constructor (db: Database)
      ensures this.db == db
    {
      this.db := db;
    }

    /** Other sessions may commit here: any change that leaves the rows of `kind` alone. */
    method OtherSessions(kind: Kind)
      modifies this
      ensures db == old(db) || Rely(kind, old(db), db)
    {
      var proposed: Database := *;
      if Rely(kind, db, proposed) {
        db := proposed;
      }
    }
  }

  class Backend {
    const server: Server
    var txn: Txn

    constructor (server: Server)
      ensures this.server == server && txn == Idle
    {
      this.server := server;
      this.txn := Idle;
    }

    function Visible(): Rows
      reads this, server
    {
      View(server.db, txn)
    }

    method WriteRow(key: RowKey, value: int)
      requires !txn.Aborted?
      modifies this`txn, server`db
      ensures (server.db, txn) == Write(old(server.db), old(txn), key, value)
    {
      if txn.Open? {
        txn := Open(txn.writes[key := value]);
      } else {
        server.db := server.db.(rows := server.db.rows[key := value]);
      }
    }

    /** insert ... on conflict do update set pageview_count = pageview_count + 1 returning pageview_count */
    method Upsert(key: RowKey) returns (count: int)
      requires !txn.Aborted?
      modifies this`txn, server`db
      ensures Effect(server.db, txn, Returned(Some(count))) == Increment(old(server.db), old(txn), Some(key))
    {
      var rows := Visible();
      if key in rows {
        count := rows[key] + 1;
      } else {
        count := 1;
      }
      WriteRow(key, count);
    }

    method ReadSourceRef(sid: string) returns (rv: Option<int>)
      ensures rv == Lookup(Visible(), RefRow(sid))
    {
      var rows := Visible();
      rv := None;
      if RefRow(sid) in rows {
        rv := Some(rows[RefRow(sid)]);
      }
    }

    method WriteSourceRef(sid: string, sr: int) returns (rv: int)
      requires !txn.Aborted?
      modifies this`txn, server`db
      ensures rv == sr && (server.db, txn) == Write(old(server.db), old(txn), RefRow(sid), sr)
    {
      WriteRow(RefRow(sid), sr);
      rv := sr;
    }

    /** client_pageview; None where a not-null or foreign key constraint fails. */
    method ClientView(c: Option<Uuid>, day: Day) returns (rv: Option<int>)
      requires !txn.Aborted?
      modifies this`txn, server`db
      ensures c.None? || c.value !in old(server.db.catalog.clients) ==>
                rv == None && server.db == old(server.db) && txn == old(txn)
      ensures c.Some? && c.value in old(server.db.catalog.clients) ==>
                && rv.Some?
                && Effect(server.db, txn, Returned(rv)) == Increment(old(server.db), old(txn), Some(ClientRow(c.value, day)))
    {
      rv := None;
      if c.Some? && c.value in server.db.catalog.clients {
        var count := Upsert(ClientRow(c.value, day));
        rv := Some(count);
      }
    }

    /** client_content_pageview: the client comes from a sub-select, null if there is no such content. */
    method ClientContentView(i: Option<Uuid>, day: Option<Day>) returns (rv: Option<int>)
      requires !txn.Aborted?
      modifies this`txn, server`db
      ensures rv.Some? <==> CountedRow(false, old(server.db.catalog), i, day).Some?
      ensures rv.None? ==> server.db == old(server.db) && txn == old(txn)
      ensures rv.Some? ==>
                Effect(server.db, txn, Returned(rv))
                  == Increment(old(server.db), old(txn), CountedRow(false, old(server.db.catalog), i, day))
      ensures rv.Some? ==>
                i.Some? && day.Some? && i.value in old(server.db.catalog.contents) &&
                Effect(server.db, txn, Returned(rv))
                  == Increment(old(server.db), old(txn), Some(ClientRow(old(server.db.catalog.contents)[i.value].client, day.value)))
    {
      if i.None? || day.None? {
        return None;
      }
      var client: Option<Uuid> := None;
      if i.value in server.db.catalog.contents {
        client := Some(server.db.catalog.contents[i.value].client);
      }
      rv := ClientView(client, day.value);
    }

    /** The three-argument content_pageview: dynamic SQL on the table the stripped name denotes; a null name
        formats as the empty string.  None where that table does not exist. */
    method PartitionView(c: Option<string>, i: Uuid, day: Day) returns (rv: Option<int>)
      requires !txn.Aborted?
      modifies this`txn, server`db
      ensures var partition := if c.Some? then StripDashes(c.value) else "";
              if partition in old(server.db.catalog.partitions) then
                && rv.Some?
                && Effect(server.db, txn, Returned(rv))
                   == Increment(old(server.db), old(txn), Some(ContentRow(partition, i, day)))
              else
                rv == None && server.db == old(server.db) && txn == old(txn)
    {
      var partition := "";
      if c.Some? {
        partition := StripDashes(c.value);
      }
      rv := None;
      if partition in server.db.catalog.partitions {
        var count := Upsert(ContentRow(partition, i, day));
        rv := Some(count);
      }
    }

    /** The two-argument content_pageview: it strips the client id, and the procedure it calls strips it again. */
    method ContentView(i: Option<Uuid>, day: Option<Day>) returns (rv: Option<int>)
      requires !txn.Aborted?
      modifies this`txn, server`db
      ensures rv.Some? ==> i.Some? && day.Some?
      ensures rv.Some? <==> CountedRow(true, old(server.db.catalog), i, day).Some?
      ensures rv.None? ==> server.db == old(server.db) && txn == old(txn)
      ensures rv.Some? ==>
                Effect(server.db, txn, Returned(rv))
                  == Increment(old(server.db), old(txn), CountedRow(true, old(server.db.catalog), i, day))
      ensures rv.Some? && i.value in old(server.db.catalog.contents) ==>
                day.Some? &&
                Effect(server.db, txn, Returned(rv))
                  == Increment(old(server.db), old(txn),
                       Some(ContentRow(StripDashes(old(server.db.catalog.contents)[i.value].client), i.value, day.value)))
    {
      if i.None? || day.None? {
        return None;
      }
      var clientId: Option<string> := None;
      if i.value in server.db.catalog.contents {
        clientId := Some(StripDashes(server.db.catalog.contents[i.value].client));
        StripDashesIdempotent(server.db.catalog.contents[i.value].client);
      }
      rv := PartitionView(clientId, i.value, day.value);
    }

    /** One statement as the server handles it; `ok` is false when it fails for an outside reason. */
    method Exec(stmt: Statement, ok: bool) returns (reply: Reply)
      modifies this`txn, server`db
      ensures Effect(server.db, txn, reply) == Execute(stmt, old(server.db), old(txn), ok)
    {
      if txn.Aborted? || !ok {
        txn := Abort(txn);
        return Failed;
      }
      var rv: Option<int> := None;
      match stmt {
        case GetSourceRef(source) =>
          rv := ReadSourceRef(source);
          return Returned(rv);
        case SetSourceRef(source, offset) =>
          var written := WriteSourceRef(source, offset);
          return Returned(Some(written));
        case ContentPageview(content, day) =>
          rv := ContentView(content, day);
        case ClientContentPageview(content, day) =>
          rv := ClientContentView(content, day);
      }
      if rv.None? {
        txn := Abort(txn);
        return Failed;
      }
      reply := Returned(rv);
    }

    method BeginWork(ok: bool) returns (status: bool)
      modifies this`txn
      ensures status == (ok && !old(txn.Aborted?))
      ensures txn == if status then Begin(old(txn)) else old(txn)
    {
      if !ok || txn.Aborted? {
        return false;
      }
      txn := Begin(txn);
      return true;
    }

    /** COMMIT: acknowledged, or the connection is lost before or after it took effect. */
    method CommitWork(reply: CommitReply) returns (status: bool)
      modifies this`txn, server`db
      ensures status == reply.Acknowledged?
      ensures server.db == if reply.LostBefore? then old(server.db) else Commit(old(server.db), old(txn))
      ensures txn == if reply.LostBefore? then old(txn) else Idle
    {
      if reply.LostBefore? {
        return false;
      }
      if txn.Open? {
        server.db := server.db.(rows := server.db.rows + txn.writes);
      }
      txn := Idle;
      status := reply.Acknowledged?;
    }

    method RollbackWork(ok: bool) returns (status: bool)
      modifies this`txn
      ensures status == ok
      ensures txn == if ok then Idle else old(txn)
    {
      if ok {
        txn := Idle;
      }
      status := ok;
    }
  }
}
