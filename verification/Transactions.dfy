/** What one statement, BEGIN, COMMIT or ROLLBACK does to the committed database and to the
    transaction of the connection that sends it. */
module Transactions {
  import opened Wrappers
  import opened PageviewStore

  /** The transaction of one connection: none, open with the rows it has written so far, or aborted by
      a failed statement. */
  datatype Txn = Idle | Open(writes: Rows) | Aborted

  /** The calls that the consumers send. A content id or a timestamp that PostgreSQL cannot read as
      `uuid` or `timestamp` is None. */
  datatype Statement =
    | GetSourceRef(source: string)
    | SetSourceRef(source: string, offset: int)
    | ContentPageview(content: Option<Uuid>, day: Option<Day>)
    | ClientContentPageview(content: Option<Uuid>, day: Option<Day>)

  /** Every procedure called here returns one row with one nullable bigint. */
  datatype Reply = Returned(value: Option<int>) | Failed

  datatype Effect = Effect(db: Database, txn: Txn, reply: Reply)

  /** The rows that a statement of this connection sees: its own writes over the committed ones. */
  function View(db: Database, txn: Txn): Rows {
    if txn.Open? then db.rows + txn.writes else db.rows
  }

  function Write(db: Database, txn: Txn, key: RowKey, value: int): (Database, Txn)
    requires !txn.Aborted?
  {
    if txn.Open? then (db, Open(txn.writes[key := value]))
    else (db.(rows := db.rows[key := value]), Idle)
  }

  function Abort(txn: Txn): Txn {
    if txn.Open? then Aborted else txn
  }

  function Lookup(rows: Rows, key: RowKey): Option<int> {
    if key in rows then Some(rows[key]) else None
  }

  /** The counter row that a page view of `content` on `day` falls in, if the procedure can find it:
      the content's row in its client's partition, or the row of the client itself. */
  function CountedRow(perContent: bool, cat: Catalog, content: Option<Uuid>, day: Option<Day>): Option<RowKey> {
    if content.None? || day.None? then None
    else
      var client := if content.value in cat.contents then Some(cat.contents[content.value].client) else None;
      if perContent then
        var partition := if client.Some? then StripDashes(client.value) else "";
        if partition in cat.partitions then Some(ContentRow(partition, content.value, day.value)) else None
      else if client.Some? && client.value in cat.clients then Some(ClientRow(client.value, day.value))
      else None
  }

  function Increment(db: Database, txn: Txn, row: Option<RowKey>): Effect
    requires !txn.Aborted?
  {
    match row
    case None => Effect(db, Abort(txn), Failed)
    case Some(key) =>
      var view := View(db, txn);
      var count := if key in view then view[key] + 1 else 1;
      var (db', txn') := Write(db, txn, key, count);
      Effect(db', txn', Returned(Some(count)))
  }

  /** A statement; `ok` is false when it fails for a reason outside the schema (a lost connection, a
      resource limit). */
  function Execute(stmt: Statement, db: Database, txn: Txn, ok: bool): Effect {
    if txn.Aborted? || !ok then Effect(db, Abort(txn), Failed)
    else match stmt
      case GetSourceRef(source) => Effect(db, txn, Returned(Lookup(View(db, txn), RefRow(source))))
      case SetSourceRef(source, offset) =>
        var (db', txn') := Write(db, txn, RefRow(source), offset);
        Effect(db', txn', Returned(Some(offset)))
      case ContentPageview(content, day) => Increment(db, txn, CountedRow(true, db.catalog, content, day))
      case ClientContentPageview(content, day) => Increment(db, txn, CountedRow(false, db.catalog, content, day))
  }

  /** A statement never ends the transaction it runs in, and aborts it when it fails. */
  lemma StaysInTxn(stmt: Statement, db: Database, txn: Txn, ok: bool)
    requires !txn.Idle?
    ensures var e := Execute(stmt, db, txn, ok);
            !e.txn.Idle? && (e.reply.Failed? ==> e.txn.Aborted?)
  {
  }

  /** Inside a transaction a reference is saved unless the transaction is aborted or the statement fails. */
  lemma ReferenceWritten(source: string, offset: int, db: Database, txn: Txn, ok: bool)
    requires !txn.Idle?
    ensures var e := Execute(SetSourceRef(source, offset), db, txn, ok);
            && !e.txn.Idle? && (e.reply.Failed? <==> txn.Aborted? || !ok) && (e.reply.Failed? ==> e.txn.Aborted?)
  {
  }

  /** BEGIN; inside an open transaction it only warns. */
  function Begin(txn: Txn): Txn {
    if txn.Idle? then Open(map[]) else txn
  }

  /** COMMIT; on an aborted transaction PostgreSQL answers with success and rolls back. */
  function Commit(db: Database, txn: Txn): Database {
    if txn.Open? then db.(rows := db.rows + txn.writes) else db
  }
}
