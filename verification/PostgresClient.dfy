/** cpp/PostgresDbh.cpp and cpp/SourceReference.cpp.  A thrown ApplicationException is an out-parameter. */
module PostgresClient {
  import opened Wrappers
  import opened PageviewStore
  import opened Transactions
  import opened ConsumerMachine
  import opened PostgresServer

  /** How the environment answers the up to three commands of one statement. */
  datatype Answers = Answers(begin: bool, statement: bool, commit: CommitReply)

  class PostgresDbh {
    const backend: Backend
    var inTxn: bool

    constructor (backend: Backend)
      ensures this.backend == backend && !inTxn
    {
      this.backend := backend;
      this.inTxn := false;
    }

    method StartTxn(ok: bool) returns (thrown: bool)
      modifies this`inTxn, backend`txn
      ensures thrown == !(ok && !old(backend.txn.Aborted?))
      ensures backend.txn == if thrown then old(backend.txn) else Begin(old(backend.txn))
      ensures inTxn == (!thrown || old(inTxn))
    {
      var status := backend.BeginWork(ok);
      if !status {
        return true;
      }
      inTxn := true;
      return false;
    }

    /** Refuses when no transaction was started.  An aborted transaction is committed "successfully". */
    method CommitTxn(reply: CommitReply) returns (thrown: bool)
      modifies this`inTxn, backend`txn, backend.server`db
      ensures thrown == (!old(inTxn) || !reply.Acknowledged?)
      ensures inTxn == (old(inTxn) && thrown)
      ensures !old(inTxn) || reply.LostBefore? ==> backend.txn == old(backend.txn) && backend.server.db == old(backend.server.db)
      ensures old(inTxn) && !reply.LostBefore? ==>
                backend.txn == Idle && backend.server.db == Commit(old(backend.server.db), old(backend.txn))
    {
      if !inTxn {
        return true;
      }
      var status := backend.CommitWork(reply);
      if !status {
        return true;
      }
      inTxn := false;
      return false;
    }

    method RollbackTxn(ok: bool) returns (thrown: bool)
      modifies this`inTxn, backend`txn
      ensures thrown == !(old(inTxn) && ok)
      ensures inTxn == (old(inTxn) && thrown)
      ensures backend.txn == if old(inTxn) && ok then Idle else old(backend.txn)
    {
      if !inTxn {
        return true;
      }
      var status := backend.RollbackWork(ok);
      if !status {
        return true;
      }
      inTxn := false;
      return false;
    }

    method IsTxnStarted() returns (started: bool)
      ensures started == inTxn
    {
      started := inTxn;
    }

    /** Inside a transaction the statement runs in it.  Outside, it gets one of its own: a statement that
        returns normally has left `inTxn` as it found it and is committed; one that throws has committed
        nothing, unless only the acknowledgement was lost, and leaves the flag set once BEGIN succeeded. */
    method ExecuteStatement(stmt: Statement, answers: Answers) returns (reply: Reply, thrown: bool)
      modifies this`inTxn, backend`txn, backend.server`db
      ensures !thrown ==> inTxn == old(inTxn) && reply.Returned?
      ensures old(inTxn) ==>
                && inTxn && thrown == reply.Failed?
                && Effect(backend.server.db, backend.txn, reply)
                   == Execute(stmt, old(backend.server.db), old(backend.txn), answers.statement)
      ensures !old(inTxn) && old(backend.txn) == Idle ==>
                var e := Execute(stmt, old(backend.server.db), Open(map[]), answers.statement);
                && thrown == !(answers.begin && e.reply.Returned? && answers.commit.Acknowledged?)
                && (!thrown ==> reply == e.reply && backend.txn == Idle && backend.server.db == Commit(e.db, e.txn))
                && (thrown ==>
                      && inTxn == answers.begin
                      && (backend.server.db == old(backend.server.db) ||
                          (e.reply.Returned? && answers.commit.LostAfter? && backend.server.db == Commit(e.db, e.txn))))
    {
      var singleTxn := false;
      reply := Failed;
      if !inTxn {
        singleTxn := true;
        thrown := StartTxn(answers.begin);
        if thrown {
          return;
        }
      }
      reply := backend.Exec(stmt, answers.statement);
      if reply.Failed? {
        thrown := true;
        return;
      }
      thrown := false;
      if singleTxn {
        thrown := CommitTxn(answers.commit);
      }
    }
  }

  class SourceReference {
    const sourceId: string
    const dbh: PostgresDbh
    var sourceRef: int
    var isNull: bool

    constructor (sourceId: string, dbh: PostgresDbh)
      ensures this.sourceId == sourceId && this.dbh == dbh && sourceRef == 0 && isNull
    {
      this.sourceId := sourceId;
      this.dbh := dbh;
      this.sourceRef := 0;
      this.isNull := true;
    }

    /** Null exactly when the table has no row for this source. */
    method RefreshFromDatabase(answers: Answers) returns (thrown: bool)
      requires !dbh.inTxn && dbh.backend.txn == Idle
      modifies this`sourceRef, this`isNull, dbh`inTxn, dbh.backend`txn, dbh.backend.server`db
      ensures dbh.backend.server.db == old(dbh.backend.server.db)
      ensures thrown == !(answers.begin && answers.statement && answers.commit.Acknowledged?)
      ensures !thrown ==>
                && !dbh.inTxn && dbh.backend.txn == Idle
                && (if isNull then None else Some(sourceRef)) == Lookup(dbh.backend.server.db.rows, RefRow(sourceId))
    {
      sourceRef := 0;
      isNull := true;
      assert dbh.backend.server.db.rows + map[] == dbh.backend.server.db.rows;
      var reply;
      reply, thrown := dbh.ExecuteStatement(GetSourceRef(sourceId), answers);
      if !thrown && reply.value.Some? {
        sourceRef := reply.value.value;
        isNull := false;
      }
    }

    /** In the open transaction, or in one of its own. */
    method UpdateSourceRef(sr: int, answers: Answers) returns (thrown: bool)
      requires dbh.inTxn || dbh.backend.txn == Idle
      modifies this`sourceRef, this`isNull, dbh`inTxn, dbh.backend`txn, dbh.backend.server`db
      ensures old(dbh.inTxn) ==>
                var e := Execute(SetSourceRef(sourceId, sr), old(dbh.backend.server.db), old(dbh.backend.txn), answers.statement);
                && dbh.inTxn && thrown == e.reply.Failed?
                && dbh.backend.server.db == e.db && dbh.backend.txn == e.txn
      ensures !old(dbh.inTxn) ==>
                var rows := old(dbh.backend.server.db.rows);
                var saved := old(dbh.backend.server.db).(rows := rows[RefRow(sourceId) := sr]);
                && thrown == !(answers.begin && answers.statement && answers.commit.Acknowledged?)
                && (!thrown ==> !dbh.inTxn && dbh.backend.txn == Idle && dbh.backend.server.db == saved)
                && (thrown ==> dbh.backend.server.db == old(dbh.backend.server.db) || dbh.backend.server.db == saved)
      ensures !thrown ==> sourceRef == sr && !isNull
    {
      ghost var rows := dbh.backend.server.db.rows;
      assert rows + map[RefRow(sourceId) := sr] == rows[RefRow(sourceId) := sr];
      var reply;
      reply, thrown := dbh.ExecuteStatement(SetSourceRef(sourceId, sr), answers);
      if !thrown {
        sourceRef := reply.value.value;
        isNull := false;
      }
    }
  }
}
