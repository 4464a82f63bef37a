/** The data handler of dal_postgresql.go: it builds the text and the arguments of one statement and runs it. */
module DataHandlers {
  import opened Wrappers
  import opened Decimals
  import opened SqlText
  import opened SqlNames
  import opened SqlStatements
  import opened SqlExecution

  /** The database behind a handle. `allowed` stands for its constraints and `precedes` for its sort order. */
  class DatabaseHandle {
    const allowed: Database -> bool
    const precedes: (Cell, Cell) -> bool
    var db: Database

    constructor (db: Database, allowed: Database -> bool, precedes: (Cell, Cell) -> bool)
      ensures this.db == db && this.allowed == allowed && this.precedes == precedes
    {
      this.db := db;
      this.allowed := allowed;
      this.precedes := precedes;
    }

    method Exec(text: string, args: seq<Cell>) returns (affected: Option<nat>)
      modifies this`db
      ensures Change(db, affected) == Perform(old(db), text, args, allowed)
    {
      var change := Perform(db, text, args, allowed);
      db := change.db;
      return change.affected;
    }

    /** `listing` is the order in which the server lists the matching rows. */
    method Query(text: string, args: seq<Cell>, listing: seq<Row>) returns (answer: Option<seq<Row>>)
      requires var stmt := Read(text);
               stmt.Some? && Searches(db, stmt.value, args) ==>
                 Listing(listing, Found(db, stmt.value, args), stmt.value.keys[0], stmt.value.descending, precedes)
      ensures answer == Answer(db, text, args, listing)
    {
      answer := Answer(db, text, args, listing);
    }
  }

  datatype Outcome = Accomplished | Refused | Panic

  predicate HasNil(row: Row) {
    exists c | c in row :: row[c].None?
  }

  predicate AllSpelled(names: set<string>) {
    forall n | n in names :: Spelled(n)
  }

  /** Names that a comparison or a select list cannot take for values. */
  predicate Plain(names: set<string>) {
    forall n | n in names :: Spelled(n) && !TakenForValue(n)
  }

  /** A table name with its schema, as far as spelling goes. */
  predicate TableSpelled(w: string) {
    0 < |w| <= 63 && forall i | 0 <= i < |w| :: Letter(w[i]) || Digit(w[i]) || w[i] == '.'
  }

  /** The names that may stand unquoted in a statement: identifiers that are not reserved. */
  predicate Unquoted(table: string, columns: set<string>) {
    TableName(table) && forall c | c in columns :: ColumnName(c)
  }

  /** What a search leaves in the handler. */
  datatype Page = Page(record: seq<Row>, next: Option<Row>, last: Option<Row>, count: nat)

  /** A row with just the given columns of another, each with its value. */
  ghost predicate Shows(row: Row, source: Row, columns: set<string>) {
    && (forall c :: c in row <==> c in columns && c in source)
    && forall c | c in row :: row[c] == source[c]
  }

  /** A key: the value of each key column of a row that has it. */
  ghost predicate Identifies(key: Row, row: Row, primaryKey: seq<string>) {
    && (forall k :: k in key <==> k in primaryKey)
    && forall k | k in primaryKey && k in row :: key[k] == row[k]
  }

  /** The rows stand in the order of a column. */
  ghost predicate Ordered(rows: seq<Row>, column: string, descending: bool, precedes: (Cell, Cell) -> bool) {
    forall i, j | 0 <= i < j < |rows| ::
      if descending then precedes(At(rows[j], column), At(rows[i], column)) else precedes(At(rows[i], column), At(rows[j], column))
  }

  /** What a handler holds after its searches so far: a search appends its rows, and keeps an earlier
      continuation key or last row if it has none of its own. */
  datatype Results = Results(record: seq<Row>, next: Option<Row>, last: Option<Row>, count: int)

  function AddPage(results: Results, page: Page): Results {
    Results(results.record + page.record, if page.next.Some? then page.next else results.next,
      if page.last.Some? then page.last else results.last, page.count)
  }

  function KeyOf(row: Row, primaryKey: seq<string>): Row {
    map k | k in primaryKey :: At(row, k)
  }

  /** The rows kept of those fetched, and the key of the last row fetched if it lies beyond the batch. */
  function PageOf(fetched: seq<Row>, batch: nat, enforced: bool, primaryKey: seq<string>): Page {
    var last := if fetched == [] then None else Some(fetched[|fetched| - 1]);
    Page(if enforced then Limited(fetched, Some(batch)) else fetched,
      if |fetched| > batch then Some(KeyOf(last.value, primaryKey)) else None, last, |fetched|)
  }

  class DataHandler {
    const dbh: DatabaseHandle
    const tableName: string
    const primaryKey: seq<string>
    var projection: set<string>
    var searchCriteria: Row
    var batchSize: nat
    var enforceBatch: bool
    var descending: bool
    var dmlType: string
    var dmlStatement: string
    var dmlArguments: seq<Cell>
    var record: seq<Row>
    var recordNextIdx: Option<Row>
    var recordLastOp: Option<Row>
    var numAffectedLastOp: int

    /** The names that the handler writes into its statements are spelled like names, and those that it compares
        or selects are no values. */
    predicate Valid()
      reads this
    {
      && TableSpelled(tableName) && (forall k | k in primaryKey :: k in projection)
      && Plain(projection) && Plain(searchCriteria.Keys)
    }

    function Holdings(): Results
      reads this
    {
      Results(record, recordNextIdx, recordLastOp, numAffectedLastOp)
    }

    /** A handler as it is made for one operation. */
    predicate Fresh()
      reads this
    {
      dmlType == "" && dmlArguments == [] && record == [] && recordNextIdx == None
    }

    constructor (dbh: DatabaseHandle, tableName: string, pk: seq<string>)
      requires TableSpelled(tableName) && Plain(set k | k in pk)
      ensures Valid() && Fresh()
      ensures this.dbh == dbh && this.tableName == tableName && primaryKey == pk
      ensures projection == (set k | k in pk) && searchCriteria == map[]
      ensures batchSize == 10 && enforceBatch && descending
    {
      this.dbh, this.tableName, primaryKey := dbh, tableName, pk;
      projection, searchCriteria := set k | k in pk, map[];
      batchSize, enforceBatch, descending := 10, true, true;
      dmlType, dmlStatement, dmlArguments := "", "", [];
      record, recordNextIdx, recordLastOp, numAffectedLastOp := [], None, None, 0;
    }

    method SetBatchSize(b: nat)
      modifies this`batchSize
      ensures batchSize == if b == 0 then 10 else b
    {
      batchSize := if b == 0 then 10 else b;
    }

    method SetProjection(fields: seq<string>)
      modifies this`projection
      ensures projection == old(projection) + set f | f in fields
    {
      for i := 0 to |fields|
        invariant projection == old(projection) + set f | f in fields[..i]
      {
        assert fields[..i + 1] == fields[..i] + [fields[i]];
        projection := projection + {fields[i]};
      }
      assert fields[..|fields|] == fields;
    }

    method SetFindCriteria(findKeys: Row) returns (ok: bool)
      modifies this`searchCriteria
      ensures ok <==> forall k | k in primaryKey :: k in findKeys
      ensures searchCriteria == if ok then findKeys else old(searchCriteria)
    {
      for i := 0 to |primaryKey|
        invariant forall k | k in primaryKey[..i] :: k in findKeys
        invariant searchCriteria == old(searchCriteria)
      {
        if primaryKey[i] !in findKeys {
          return false;
        }
        assert primaryKey[..i + 1] == primaryKey[..i] + [primaryKey[i]];
      }
      searchCriteria := findKeys;
      return true;
    }

    predicate KeyGiven()
      reads this
    {
      forall k | k in primaryKey :: k in searchCriteria
    }

    method CheckPrimaryKey() returns (ok: bool)
      ensures ok <==> forall k | k in primaryKey :: k in searchCriteria
    {
      for i := 0 to |primaryKey|
        invariant forall k | k in primaryKey[..i] :: k in searchCriteria
      {
        var found := false;
        var pending := searchCriteria.Keys;
        while pending != {}
          invariant pending <= searchCriteria.Keys && !found
          invariant primaryKey[i] in searchCriteria ==> primaryKey[i] in pending
          decreases |pending|
        {
          var field :| field in pending;
          pending := pending - {field};
          if primaryKey[i] == field {
            found := true;
            break;
          }
        }
        if !found {
          return false;
        }
        assert primaryKey[..i + 1] == primaryKey[..i] + [primaryKey[i]];
      }
      return true;
    }

    /** One placeholder per entry, in whatever order the map is visited; the arguments go behind those present. */
    method AppendClauses(row: Row, first: nat) returns (outcome: Outcome, placeholders: seq<string>, ghost order: seq<string>)
      modifies this`dmlArguments
      ensures outcome == if HasNil(row) then Panic else Accomplished
      ensures outcome == Panic <==> None in row.Values
      ensures outcome == Accomplished ==> Lists(order, row.Keys) && placeholders == PrintAll(Clauses(order, first))
      ensures |placeholders| == |order|
      ensures outcome == Accomplished ==> dmlArguments == old(dmlArguments) + Cells(order, row)
    {
      placeholders, order := [], [];
      var pc := first;
      var pending := row.Keys;
      while pending != {}
        invariant pending <= row.Keys && pc == first + |order|
        invariant Lists(order, row.Keys - pending) && forall c | c in order :: c in row && row[c].Some?
        invariant placeholders == PrintAll(Clauses(order, first))
        invariant dmlArguments == old(dmlArguments) + Cells(order, row)
        decreases |pending|
      {
        var k :| k in pending;
        if row[k].None? {
          return Panic, placeholders, order;
        }
        placeholders := placeholders + [k + "=$" + Decimal(pc)];
        dmlArguments := dmlArguments + [row[k]];
        AppendOne(order, row, first, k);
        order, pending, pc := order + [k], pending - {k}, pc + 1;
      }
      outcome := Accomplished;
    }

    /** Allows the update of a single record. */
    method UpdateRecord(replacement: Row) returns (outcome: Outcome, ghost setOrder: seq<string>, ghost findOrder: seq<string>)
      requires Valid() && AllSpelled(replacement.Keys)
      modifies this`dmlArguments, this`dmlStatement, this`numAffectedLastOp, dbh`db
      ensures !KeyGiven() || replacement == map[] ==> outcome == Refused && dmlArguments == old(dmlArguments)
      ensures KeyGiven() && replacement != map[] ==> (outcome == Panic <==> HasNil(replacement) || HasNil(searchCriteria))
      ensures !KeyGiven() || replacement == map[] || outcome == Panic ==>
                dbh.db == old(dbh.db) && dmlStatement == old(dmlStatement) && numAffectedLastOp == old(numAffectedLastOp)
      ensures KeyGiven() && replacement != map[] && outcome != Panic ==>
                && Lists(setOrder, replacement.Keys) && Lists(findOrder, searchCriteria.Keys)
                && dmlStatement == Text(Update(tableName, Clauses(setOrder, 1), Clauses(findOrder, 1 + |setOrder|)))
                && dmlArguments == old(dmlArguments) + Cells(setOrder, replacement) + Cells(findOrder, searchCriteria)
                && Ended(outcome, old(dbh.db), dbh.db, old(numAffectedLastOp), numAffectedLastOp,
                     if old(dmlArguments) == [] && searchCriteria != map[] && Unquoted(tableName, replacement.Keys + searchCriteria.Keys)
                     then UpdateRows(old(dbh.db), tableName, replacement, searchCriteria, dbh.allowed)
                     else Change(old(dbh.db), None))
    {
      hide Perform;
      hide Read;
      hide Lists;
      hide UpdateRows;
      hide Unquoted;
      hide Spelled;
      hide TakenForValue;
      hide TableSpelled;
      hide Clauses;
      hide Cells;
      hide Text;
      hide Ended;
      hide HasNil;
      setOrder, findOrder := [], [];
      var keyed := CheckPrimaryKey();
      if !keyed {
        return Refused, setOrder, findOrder;
      }
      if |replacement| == 0 {
        return Refused, setOrder, findOrder;
      }
      outcome, setOrder, findOrder := WriteUpdate(replacement);
      if outcome == Panic {
        return;
      }
      UpdatePerforms(dbh.db, tableName, setOrder, replacement, findOrder, searchCriteria, old(dmlArguments), dbh.allowed);
      outcome := Finish();
    }

    method WriteUpdate(replacement: Row) returns (outcome: Outcome, ghost setOrder: seq<string>, ghost findOrder: seq<string>)
      modifies this`dmlArguments, this`dmlStatement
      ensures outcome == if HasNil(replacement) || HasNil(searchCriteria) then Panic else Accomplished
      ensures outcome == Panic ==> dmlStatement == old(dmlStatement)
      ensures outcome == Accomplished ==>
                && Lists(setOrder, replacement.Keys) && Lists(findOrder, searchCriteria.Keys)
                && dmlStatement == Text(Update(tableName, Clauses(setOrder, 1), Clauses(findOrder, 1 + |setOrder|)))
                && dmlArguments == old(dmlArguments) + Cells(setOrder, replacement) + Cells(findOrder, searchCriteria)
    {
      hide Lists;
      hide Clauses;
      hide Cells;
      hide PrintAll;
      hide Join;
      hide HasNil;
      findOrder := [];
      var updates, finds;
      outcome, updates, setOrder := AppendClauses(replacement, 1);
      if outcome == Panic {
        return;
      }
      outcome, finds, findOrder := AppendClauses(searchCriteria, 1 + |updates|);
      if outcome == Panic {
        return;
      }
      dmlStatement := "update " + tableName + " set\n    " + Join(updates, ",\n    ") + "\nwhere\n    " + Join(finds, "\nand ");
    }

    /** Allows the deletion of a single record. */
    method DeleteRecord() returns (outcome: Outcome, ghost findOrder: seq<string>)
      requires Valid()
      modifies this`dmlArguments, this`dmlStatement, this`numAffectedLastOp, dbh`db
      ensures !KeyGiven() ==> outcome == Refused && dmlArguments == old(dmlArguments)
      ensures KeyGiven() ==> (outcome == Panic <==> HasNil(searchCriteria))
      ensures !KeyGiven() || outcome == Panic ==>
                dbh.db == old(dbh.db) && dmlStatement == old(dmlStatement) && numAffectedLastOp == old(numAffectedLastOp)
      ensures KeyGiven() && outcome != Panic ==>
                && Lists(findOrder, searchCriteria.Keys)
                && dmlStatement == Text(Delete(tableName, Clauses(findOrder, 1)))
                && dmlArguments == old(dmlArguments) + Cells(findOrder, searchCriteria)
                && Ended(outcome, old(dbh.db), dbh.db, old(numAffectedLastOp), numAffectedLastOp,
                     if old(dmlArguments) == [] && searchCriteria != map[] && Unquoted(tableName, searchCriteria.Keys)
                     then DeleteRows(old(dbh.db), tableName, searchCriteria, dbh.allowed)
                     else Change(old(dbh.db), None))
    {
      hide Perform;
      hide Read;
      hide Lists;
      hide DeleteRows;
      hide Unquoted;
      hide Spelled;
      hide TakenForValue;
      hide TableSpelled;
      hide Clauses;
      hide Cells;
      hide PrintAll;
      hide Join;
      hide Ended;
      hide HasNil;
      findOrder := [];
      var keyed := CheckPrimaryKey();
      if !keyed {
        return Refused, findOrder;
      }
      var placeholders;
      outcome, placeholders, findOrder := AppendClauses(searchCriteria, 1);
      if outcome == Panic {
        return;
      }
      dmlStatement := "delete from " + tableName + "\nwhere\n    " + Join(placeholders, "\nand ");
      DeletePerforms(dbh.db, tableName, findOrder, searchCriteria, old(dmlArguments), dbh.allowed);
      outcome := Finish();
    }

    /** Exec and RowsAffected. */
    method Finish() returns (outcome: Outcome)
      modifies this`numAffectedLastOp, dbh`db
      ensures var change := Perform(old(dbh.db), dmlStatement, dmlArguments, dbh.allowed);
              if change.affected.Some? then
                outcome == Accomplished && dbh.db == change.db && numAffectedLastOp == change.affected.value
              else outcome == Refused && dbh.db == old(dbh.db) && numAffectedLastOp == old(numAffectedLastOp)
      ensures Ended(outcome, old(dbh.db), dbh.db, old(numAffectedLastOp), numAffectedLastOp,
                Perform(old(dbh.db), dmlStatement, dmlArguments, dbh.allowed))
    {
      RefusedChangesNothing(dbh.db, dmlStatement, dmlArguments, dbh.allowed);
      var affected := dbh.Exec(dmlStatement, dmlArguments);
      if affected.None? {
        return Refused;
      }
      numAffectedLastOp := affected.value;
      return Accomplished;
    }

    /** An insertion; the arguments of earlier calls are dropped, but only one insertion is ever staged. */
    method InsertRecord(row: Row) returns (outcome: Outcome, ghost order: seq<string>)
      requires Valid() && AllSpelled(row.Keys)
      modifies this`dmlArguments, this`dmlStatement, this`dmlType, this`numAffectedLastOp, dbh`db
      ensures old(dmlType) != "" || row == map[] ==>
                && outcome == Refused && dbh.db == old(dbh.db) && dmlType == old(dmlType)
                && dmlArguments == old(dmlArguments) && dmlStatement == old(dmlStatement) && numAffectedLastOp == old(numAffectedLastOp)
      ensures old(dmlType) == "" && row != map[] ==>
                && dmlType == "insert" && Lists(order, row.Keys)
                && dmlStatement == Text(Insert(tableName, order, Upto(1, |order|))) && dmlArguments == Cells(order, row)
                && Ended(outcome, old(dbh.db), dbh.db, old(numAffectedLastOp), numAffectedLastOp,
                     if Unquoted(tableName, row.Keys) then InsertRow(old(dbh.db), tableName, row, dbh.allowed)
                     else Change(old(dbh.db), None))
    {
      hide Perform;
      hide Lists;
      hide InsertRow;
      hide Unquoted;
      hide Spelled;
      hide TakenForValue;
      hide TableSpelled;
      hide Cells;
      hide PrintPlaceholders;
      hide Join;
      hide Ended;
      order := [];
      if dmlType != "" {
        return Refused, order;
      }
      if |row| == 0 {
        return Refused, order;
      }
      var fields, placeholders, values := ListRecord(row);
      order := fields;
      dmlStatement := "insert into " + tableName + " (" + Join(fields, ",") + ") values (" + Join(placeholders, ",") + ")";
      dmlType := "insert";
      dmlArguments := values;
      InsertPerforms(dbh.db, tableName, order, row, dbh.allowed);
      outcome := Finish();
    }

    method ListRecord(row: Row) returns (fields: seq<string>, placeholders: seq<string>, values: seq<Cell>)
      ensures Lists(fields, row.Keys) && placeholders == PrintPlaceholders(Upto(1, |fields|)) && values == Cells(fields, row)
    {
      fields, placeholders, values := [], [], [];
      var counter := 1;
      var pending := row.Keys;
      while pending != {}
        invariant pending <= row.Keys && counter == 1 + |fields|
        invariant Lists(fields, row.Keys - pending)
        invariant placeholders == PrintPlaceholders(Upto(1, |fields|))
        invariant values == Cells(fields, row)
        decreases |pending|
      {
        var k :| k in pending;
        AppendField(fields, row, k);
        fields := fields + [k];
        values := values + [row[k]];
        placeholders := placeholders + [Placeholder(counter)];
        counter, pending := counter + 1, pending - {k};
      }
    }

    /** How the handler sorts after the flags of a search. */
    predicate Sorts(flags: seq<string>)
      reads this
    {
      if multiset(flags)["reverse_sort"] % 2 == 0 then descending else !descending
    }

    method ReadFlags(flags: seq<string>) returns (returnMany: bool)
      modifies this`descending
      ensures returnMany <==> "return_many" in flags
      ensures descending == old(Sorts(flags))
      ensures descending == if multiset(flags)["reverse_sort"] % 2 == 0 then old(descending) else !old(descending)
    {
      returnMany := false;
      for i := 0 to |flags|
        invariant returnMany <==> "return_many" in flags[..i]
        invariant descending == old(Sorts(flags[..i]))
      {
        assert flags[..i + 1] == flags[..i] + [flags[i]];
        if flags[i] == "return_many" {
          returnMany := true;
        } else if flags[i] == "reverse_sort" {
          descending := !descending;
        }
      }
      assert flags[..|flags|] == flags;
    }

    /** The rows that the criteria select. */
    function Selected(): seq<Row>
      reads this`searchCriteria, dbh`db
    {
      if tableName in dbh.db then Matching(dbh.db[tableName].rows, searchCriteria) else []
    }

    /** The names of a search may stand unquoted, and are columns of its table. */
    predicate SearchKnown()
      reads this`projection, this`searchCriteria, dbh`db
    {
      && Unquoted(tableName, projection + searchCriteria.Keys)
      && tableName in dbh.db && projection + searchCriteria.Keys <= dbh.db[tableName].defaults.Keys
    }

    function RowLimit(): Option<nat>
      reads this
    {
      if enforceBatch then Some(batchSize + 1) else None
    }

    /** The checks of a search before it is written. */
    method Ready(flags: seq<string>) returns (ready: bool)
      modifies this`descending
      ensures descending == if dmlType == "" then old(Sorts(flags)) else old(descending)
      ensures descending == if dmlType == "" && multiset(flags)["reverse_sort"] % 2 == 1 then !old(descending) else old(descending)
      ensures ready <==> dmlType == "" && ("return_many" in flags || KeyGiven())
    {
      if dmlType != "" {
        return false;
      }
      var returnMany := ReadFlags(flags);
      if returnMany {
        return true;
      }
      ready := CheckPrimaryKey();
    }

    /** What a search adds to what the handler held before it: of the listed rows the first ones in the order of
        the key, at most a batch if batching is on; the number of rows fetched, one more than a batch if there are
        more; the last row fetched; and its key if it is beyond the batch size. */
    ghost predicate Adds(before: Results, found: seq<Row>, listing: seq<Row>)
      reads this
      requires primaryKey != []
    {
      var kept := if enforceBatch && batchSize < |listing| then batchSize else |listing|;
      var fetched := if enforceBatch && batchSize < |listing| then batchSize + 1 else |listing|;
      && record == before.record + found && |found| == kept
      && (forall i | 0 <= i < kept :: Shows(found[i], listing[i], projection))
      && Ordered(found, primaryKey[0], descending, dbh.precedes)
      && numAffectedLastOp == fetched
      && (if listing == [] then recordLastOp == before.last
          else recordLastOp.Some? && Shows(recordLastOp.value, listing[fetched - 1], projection))
      && (if |listing| <= batchSize then recordNextIdx == before.next
          else recordNextIdx.Some? && Identifies(recordNextIdx.value, listing[fetched - 1], primaryKey))
    }

    /** A search. The server may list the rows with equal keys in any order; `listing` is the order it chose. */
    method FindRecord(flags: seq<string>, listing: seq<Row>) returns (outcome: Outcome, ghost found: seq<Row>)
      requires Valid()
      requires |primaryKey| == 1 ==> Listing(listing, Selected(), primaryKey[0], Sorts(flags), dbh.precedes)
      modifies this`descending, this`dmlArguments, this`dmlStatement
      modifies this`record, this`recordNextIdx, this`recordLastOp, this`numAffectedLastOp
      ensures descending == if dmlType == "" && multiset(flags)["reverse_sort"] % 2 == 1 then !old(descending) else old(descending)
      ensures outcome == Panic <==> dmlType == "" && ("return_many" in flags || KeyGiven()) && HasNil(searchCriteria)
      ensures outcome == Accomplished <==>
                && dmlType == "" && ("return_many" in flags || KeyGiven()) && !HasNil(searchCriteria) && old(dmlArguments) == []
                && |primaryKey| == 1 && SearchKnown()
      ensures outcome != Accomplished ==> Holdings() == old(Holdings())
      ensures outcome == Accomplished ==> Adds(old(Holdings()), found, listing)
    {
      hide Listing;
      hide Selected;
      hide SearchKnown;
      hide HasNil;
      found := [];
      var ready := Ready(flags);
      hide Sorts;
      hide Adds;
      outcome := Refused;
      if ready {
        outcome, found := Search(listing);
      }
    }

    method Search(listing: seq<Row>) returns (outcome: Outcome, ghost found: seq<Row>)
      requires Valid()
      requires |primaryKey| == 1 ==> Listing(listing, Selected(), primaryKey[0], descending, dbh.precedes)
      modifies this`dmlArguments, this`dmlStatement
      modifies this`record, this`recordNextIdx, this`recordLastOp, this`numAffectedLastOp
      ensures outcome == Panic <==> HasNil(searchCriteria)
      ensures outcome == Accomplished <==> !HasNil(searchCriteria) && old(dmlArguments) == [] && |primaryKey| == 1 && SearchKnown()
      ensures outcome != Accomplished ==> Holdings() == old(Holdings())
      ensures outcome == Accomplished ==> Adds(old(Holdings()), found, listing)
    {
      hide Listing;
      hide Matching;
      hide Lists;
      hide Text;
      hide AddPage;
      hide PageOf;
      hide Projected;
      hide Limited;
      hide SearchKnown;
      hide HasNil;
      hide Adds;
      hide Cells;
      hide Clauses;
      found := [];
      var columns;
      ghost var order;
      outcome, columns, order := WriteSearch();
      if outcome == Accomplished {
        outcome := Fetch(columns, order, RowLimit(), old(dmlArguments), listing);
        if outcome == Accomplished {
          found := ShowFound(old(Holdings()), listing);
        }
      }
    }

    ghost method ShowFound(before: Results, listing: seq<Row>) returns (found: seq<Row>)
      requires Valid() && primaryKey != []
      requires Listing(listing, Selected(), primaryKey[0], descending, dbh.precedes)
      requires Holdings()
            == AddPage(before, PageOf(Projected(Limited(listing, RowLimit()), projection), batchSize, enforceBatch, primaryKey))
      ensures Adds(before, found, listing)
    {
      hide Listing;
      hide Matching;
      hide Selected;
      hide AddPage;
      hide PageOf;
      hide Projected;
      hide Limited;
      hide Shows;
      hide Ordered;
      hide Identifies;
      found := SearchShown(before, Holdings(), listing, Selected(), projection, batchSize, enforceBatch,
                           primaryKey, descending, dbh.precedes);
    }

    method WriteSearch() returns (outcome: Outcome, columns: seq<string>, ghost order: seq<string>)
      modifies this`dmlArguments, this`dmlStatement
      ensures outcome == if HasNil(searchCriteria) then Panic else Accomplished
      ensures outcome == Accomplished ==> Lists(columns, projection) && Lists(order, searchCriteria.Keys)
      ensures outcome == Accomplished ==> dmlArguments == old(dmlArguments) + Cells(order, searchCriteria)
      ensures outcome == Accomplished ==>
                dmlStatement == Text(Select(tableName, columns, Clauses(order, 1), primaryKey, descending, RowLimit()))
    {
      hide Lists;
      hide Cells;
      hide Clauses;
      hide HasNil;
      hide Join;
      hide WhereText;
      hide OrderText;
      hide LimitText;
      columns := ListProjection();
      var filter;
      outcome, filter, order := ListCriteria();
      if outcome == Panic {
        return;
      }
      var ordering := ListOrdering();
      dmlStatement := "select " + Join(columns, ",") + " from " + tableName + filter + " order by" + ordering + LimitText(RowLimit());
    }

    method ListCriteria() returns (outcome: Outcome, filter: string, ghost order: seq<string>)
      modifies this`dmlArguments
      ensures outcome == if HasNil(searchCriteria) then Panic else Accomplished
      ensures outcome == Accomplished ==> Lists(order, searchCriteria.Keys) && filter == WhereText(Clauses(order, 1))
      ensures outcome == Accomplished ==> dmlArguments == old(dmlArguments) + Cells(order, searchCriteria)
    {
      outcome, filter, order := Accomplished, "", [];
      if |searchCriteria| > 0 {
        var placeholders;
        outcome, placeholders, order := AppendClauses(searchCriteria, 1);
        if outcome == Panic {
          return;
        }
        var k :| k in searchCriteria;
        assert k in order;
        filter := " where " + Join(placeholders, " and ");
      }
    }

    method ListProjection() returns (columns: seq<string>)
      ensures Lists(columns, projection)
    {
      columns := [];
      var pending := projection;
      while pending != {}
        invariant pending <= projection && Lists(columns, projection - pending)
        decreases |pending|
      {
        var k :| k in pending;
        columns, pending := columns + [k], pending - {k};
      }
    }

    method ListOrdering() returns (ordering: string)
      ensures ordering == OrderText(primaryKey, descending)
    {
      ordering := "";
      for i := 0 to |primaryKey|
        invariant ordering + OrderText(primaryKey[i..], descending) == OrderText(primaryKey, descending)
      {
        var item := " " + primaryKey[i] + " " + Direction(descending);
        assert OrderText(primaryKey[i..], descending) == item + OrderText(primaryKey[i..][1..], descending);
        assert primaryKey[i..][1..] == primaryKey[i + 1..];
        var others := OrderText(primaryKey[i + 1..], descending);
        assert ordering + (item + others) == (ordering + item) + others;
        ordering := ordering + item;
      }
      assert ordering + "" == ordering;
    }

    /** Runs the search and keeps its rows. */
    method Fetch(columns: seq<string>, ghost order: seq<string>, limit: Option<nat>, ghost stale: seq<Cell>, listing: seq<Row>)
      returns (outcome: Outcome)
      requires Valid() && Lists(columns, projection) && Lists(order, searchCriteria.Keys)
      requires dmlStatement == Text(Select(tableName, columns, Clauses(order, 1), primaryKey, descending, limit))
      requires dmlArguments == stale + Cells(order, searchCriteria)
      requires |primaryKey| == 1 ==> Listing(listing, Selected(), primaryKey[0], descending, dbh.precedes)
      modifies this`record, this`recordNextIdx, this`recordLastOp, this`numAffectedLastOp
      ensures outcome == if stale == [] && |primaryKey| == 1 && SearchKnown() then Accomplished else Refused
      ensures Holdings() == if outcome != Accomplished then old(Holdings()) else
                AddPage(old(Holdings()), PageOf(Projected(Limited(listing, limit), projection), batchSize, enforceBatch, primaryKey))
    {
      hide Read;
      hide Searches;
      hide Found;
      hide Listing;
      hide Matching;
      hide PageOf;
      hide AddPage;
      SelectPerforms(dbh.db, tableName, columns, projection, order, searchCriteria, primaryKey, descending, limit, stale);
      var rows := dbh.Query(dmlStatement, dmlArguments, listing);
      if rows.None? {
        return Refused;
      }
      Keep(rows.value);
      return Accomplished;
    }

    /** Walks over the rows that the server sends. */
    method Keep(rows: seq<Row>)
      modifies this`record, this`recordNextIdx, this`recordLastOp, this`numAffectedLastOp
      ensures Holdings() == AddPage(old(Holdings()), PageOf(rows, batchSize, enforceBatch, primaryKey))
    {
      var row: Option<Row> := None;
      var counter := 0;
      for i := 0 to |rows|
        invariant counter == i && recordNextIdx == old(recordNextIdx) && recordLastOp == old(recordLastOp)
        invariant row == if i == 0 then None else Some(rows[i - 1])
        invariant record == old(record) + if enforceBatch then Limited(rows[..i], Some(batchSize)) else rows[..i]
      {
        assert rows[..i + 1] == rows[..i] + [rows[i]];
        row := Some(rows[i]);
        counter := counter + 1;
        if counter <= batchSize || !enforceBatch {
          record := record + [row.value];
        }
      }
      assert rows[..|rows|] == rows;
      numAffectedLastOp := counter;
      if counter > 0 {
        if counter > batchSize {
          recordNextIdx := Some(KeyOf(row.value, primaryKey));
        }
        recordLastOp := row;
      }
    }
  }

  /** How a modifying operation ends. */
  predicate Ended(outcome: Outcome, before: Database, after: Database, affectedBefore: int, affected: int, change: Change) {
    && after == change.db
    && outcome == (if change.affected.Some? then Accomplished else Refused)
    && affected == (if change.affected.Some? then change.affected.value else affectedBefore)
    && (outcome == Refused ==> after == before)
  }

  // ---------------------------------------------------------------- steps of the loops

  lemma AppendOne(order: seq<string>, row: Row, first: nat, k: string)
    requires k in row
    ensures PrintAll(Clauses(order + [k], first)) == PrintAll(Clauses(order, first)) + [k + "=$" + Decimal(first + |order|)]
    ensures Cells(order + [k], row) == Cells(order, row) + [row[k]]
  {
  }

  lemma AppendField(order: seq<string>, row: Row, k: string)
    requires k in row
    ensures PrintPlaceholders(Upto(1, |order| + 1)) == PrintPlaceholders(Upto(1, |order|)) + [Placeholder(|order| + 1)]
    ensures Cells(order + [k], row) == Cells(order, row) + [row[k]]
  {
    hide Placeholder;
    assert Upto(1, |order| + 1) == Upto(1, |order|) + [|order| + 1];
  }

  lemma SpelledIsWord(w: string)
    requires Spelled(w) || TableSpelled(w)
    ensures IsWord(w)
  {
  }

  lemma ClauseColumns(order: seq<string>, first: nat, names: set<string>)
    requires Lists(order, names) && AllSpelled(names)
    ensures Columns(Clauses(order, first)) && Names(order) && (names != {} <==> order != [])
    ensures ColumnsFit(order) <==> forall n | n in names :: ColumnName(n)
    ensures ClausesFit(Clauses(order, first)) <==> ColumnsFit(order)
  {
    hide ColumnName;
    forall i | 0 <= i < |order|
      ensures IsWord(order[i]) && order[i] in names
    {
      assert order[i] in names;
      SpelledIsWord(order[i]);
    }
    if ColumnsFit(order) {
      forall n | n in names
        ensures ColumnName(n)
      {
        assert n in order;
      }
    }
    if order != [] {
      assert order[0] in names;
    }
    ClausesParts(order, first);
    SameColumns(order, first);
  }

  lemma SameColumns(order: seq<string>, first: nat)
    ensures ClausesFit(Clauses(order, first)) <==> ColumnsFit(order)
  {
    hide ColumnName;
    assert forall i | 0 <= i < |order| :: Clauses(order, first)[i].column == order[i];
  }

  // ---------------------------------------------------------------- from text to rows

  lemma UpdatePerforms(db: Database, table: string, setOrder: seq<string>, replacement: Row, findOrder: seq<string>, criteria: Row,
                       stale: seq<Cell>, allowed: Database -> bool)
    requires TableSpelled(table) && AllSpelled(replacement.Keys) && AllSpelled(criteria.Keys) && replacement != map[]
    requires Lists(setOrder, replacement.Keys) && Lists(findOrder, criteria.Keys)
    ensures Perform(db, Text(Update(table, Clauses(setOrder, 1), Clauses(findOrder, 1 + |setOrder|))),
              stale + Cells(setOrder, replacement) + Cells(findOrder, criteria), allowed)
         == if stale == [] && criteria != map[] && Unquoted(table, replacement.Keys + criteria.Keys)
            then UpdateRows(db, table, replacement, criteria, allowed) else Change(db, None)
  {
    hide Run;
    hide UpdateRows;
    hide Text;
    hide Read;
    hide ColumnName;
    hide TableName;
    SpelledIsWord(table);
    ClauseColumns(setOrder, 1, replacement.Keys);
    ClauseColumns(findOrder, 1 + |setOrder|, criteria.Keys);
    hide ClausesFit;
    hide ColumnsFit;
    ReadPrinted(Update(table, Clauses(setOrder, 1), Clauses(findOrder, 1 + |setOrder|)));
    UpdateMeans(db, table, setOrder, replacement, findOrder, criteria, stale, allowed);
  }

  lemma DeletePerforms(db: Database, table: string, order: seq<string>, criteria: Row, stale: seq<Cell>, allowed: Database -> bool)
    requires TableSpelled(table) && AllSpelled(criteria.Keys) && Lists(order, criteria.Keys)
    ensures Perform(db, Text(Delete(table, Clauses(order, 1))), stale + Cells(order, criteria), allowed)
         == if stale == [] && criteria != map[] && Unquoted(table, criteria.Keys)
            then DeleteRows(db, table, criteria, allowed) else Change(db, None)
  {
    hide Run;
    hide DeleteRows;
    hide Text;
    hide Read;
    hide ColumnName;
    hide TableName;
    SpelledIsWord(table);
    ClauseColumns(order, 1, criteria.Keys);
    ReadPrinted(Delete(table, Clauses(order, 1)));
    DeleteMeans(db, table, order, criteria, stale, allowed);
  }

  lemma InsertPerforms(db: Database, table: string, order: seq<string>, row: Row, allowed: Database -> bool)
    requires TableSpelled(table) && AllSpelled(row.Keys) && Lists(order, row.Keys) && row != map[]
    ensures Perform(db, Text(Insert(table, order, Upto(1, |order|))), Cells(order, row), allowed)
         == if Unquoted(table, row.Keys) then InsertRow(db, table, row, allowed) else Change(db, None)
  {
    hide Run;
    hide InsertRow;
    hide Text;
    hide Read;
    hide ColumnName;
    hide TableName;
    SpelledIsWord(table);
    ClauseColumns(order, 1, row.Keys);
    ReadPrinted(Insert(table, order, Upto(1, |order|)));
    InsertMeans(db, table, order, row, allowed);
  }

  /** A search is accepted exactly on a fresh argument vector, with one key column and with names that may stand
      unquoted and are columns; it finds the rows that match its criteria. */
  lemma SelectPerforms(db: Database, table: string, columns: seq<string>, projection: set<string>, order: seq<string>, criteria: Row,
                       keys: seq<string>, descending: bool, limit: Option<nat>, stale: seq<Cell>)
    requires TableSpelled(table) && AllSpelled(projection) && AllSpelled(criteria.Keys)
    requires forall k | k in keys :: k in projection
    requires Lists(columns, projection) && Lists(order, criteria.Keys)
    ensures var stmt := Select(table, columns, Clauses(order, 1), keys, descending, limit);
            var args := stale + Cells(order, criteria);
            && (Read(Text(stmt)) == if |keys| == 1 && Unquoted(table, projection + criteria.Keys) then Some(stmt) else None)
            && (Searches(db, stmt, args) <==>
                stale == [] && |keys| == 1 && table in db && projection + criteria.Keys <= db[table].defaults.Keys)
            && (Searches(db, stmt, args) ==> Found(db, stmt, args) == Matching(db[table].rows, criteria))
            && (set c | c in columns) == projection
  {
    hide Text;
    hide Read;
    hide ColumnName;
    hide TableName;
    var stmt := Select(table, columns, Clauses(order, 1), keys, descending, limit);
    SpelledIsWord(table);
    ClauseColumns(order, 1, criteria.Keys);
    ClauseColumns(columns, 1, projection);
    KeysFit(keys, columns, projection);
    SelectNames(stmt, projection, criteria.Keys);
    ReadPrinted(stmt);
    SelectMeans(db, stmt, order, criteria, stale);
    if table in db {
      KnownJoins(columns, keys, db[table]);
      KnownMeans(columns, projection, db[table]);
    }
  }

  lemma SelectNames(stmt: Statement, projection: set<string>, criteria: set<string>)
    requires stmt.Select?
    requires ColumnsFit(stmt.columns) <==> forall n | n in projection :: ColumnName(n)
    requires ClausesFit(stmt.finds) <==> forall n | n in criteria :: ColumnName(n)
    requires ColumnsFit(stmt.columns) ==> ColumnsFit(stmt.keys)
    ensures NamesFit(stmt) <==> Unquoted(stmt.table, projection + criteria)
  {
    hide ColumnName;
    hide TableName;
    hide ColumnsFit;
    hide ClausesFit;
  }

  lemma KeysFit(keys: seq<string>, columns: seq<string>, projection: set<string>)
    requires Lists(columns, projection) && AllSpelled(projection) && forall k | k in keys :: k in projection
    ensures Names(keys) && (forall i | 0 <= i < |keys| :: keys[i] in columns)
    ensures ColumnsFit(columns) ==> ColumnsFit(keys)
  {
    hide ColumnName;
    forall i | 0 <= i < |keys|
      ensures IsWord(keys[i]) && keys[i] in columns
    {
      assert keys[i] in projection;
      SpelledIsWord(keys[i]);
    }
  }

  /** The text of a search by one column, as it is sent. */
  lemma SearchSpelledOut(table: string, columns: seq<string>, field: string, key: string, descending: bool, limit: nat)
    ensures Text(Select(table, columns, Clauses([field], 1), [key], descending, Some(limit)))
         == "select " + Join(columns, ",") + " from " + table + (" where " + (field + "=$1"))
            + " order by" + (" " + key + " " + (if descending then "desc" else "asc")) + (" limit " + Decimal(limit))
  {
    hide Decimal;
    WhereSpelledOut(field);
    OrderSpelledOut(key, descending);
    hide WhereText;
    hide OrderText;
    hide Join;
    hide Clauses;
  }

  lemma WhereSpelledOut(field: string)
    ensures WhereText(Clauses([field], 1)) == " where " + (field + "=$1")
  {
    hide Decimal;
    OneClause(field, 1);
    DecimalOfDigit(1);
  }

  lemma OrderSpelledOut(key: string, descending: bool)
    ensures OrderText([key], descending) == " " + key + " " + (if descending then "desc" else "asc")
  {
    var item := " " + key + " " + Direction(descending);
    assert OrderText([key], descending) == item + OrderText([], descending);
    assert item + "" == item;
  }

  /** The texts of an update of one field and of a deletion, by one column. */
  lemma ChangesSpelledOut(table: string, field: string, key: string)
    ensures Text(Update(table, Clauses([field], 1), Clauses([key], 2)))
         == "update " + table + " set\n    " + (field + "=$1") + "\nwhere\n    " + (key + "=$2")
    ensures Text(Delete(table, Clauses([key], 1))) == "delete from " + table + "\nwhere\n    " + (key + "=$1")
  {
    hide Decimal;
    OneClause(field, 1);
    OneClause(key, 1);
    OneClause(key, 2);
    DecimalOfDigit(1);
    DecimalOfDigit(2);
  }

  /** The text of an insertion of two fields. */
  lemma InsertionSpelledOut(table: string, first: string, second: string)
    ensures Text(Insert(table, [first, second], Upto(1, 2)))
         == "insert into " + table + " (" + (first + "," + second) + ") values (" + "$1,$2" + ")"
  {
    assert Join([first, second], ",") == first + "," + second;
    TwoPlaces();
    hide Join;
    hide PrintPlaceholders;
  }

  lemma TwoPlaces()
    ensures Join(PrintPlaceholders(Upto(1, 2)), ",") == "$1,$2"
  {
    hide Decimal;
    DecimalOfDigit(1);
    DecimalOfDigit(2);
    assert Placeholder(1) == "$1" && Placeholder(2) == "$2";
    hide Placeholder;
    assert Upto(1, 2) == [1, 2];
    assert PrintPlaceholders([1, 2]) == ["$1", "$2"];
    assert Join(["$1", "$2"], ",") == "$1" + "," + "$2";
  }

  lemma OneClause(column: string, n: nat)
    ensures PrintAll(Clauses([column], n)) == [column + "=$" + Decimal(n)]
  {
    hide Decimal;
  }

  lemma DecimalOfDigit(d: nat)
    requires d == 1 || d == 2
    ensures Decimal(d) == if d == 1 then "1" else "2"
  {
  }

  // ---------------------------------------------------------------- paging

  /** With batching on, the rows held are the first ones in sort order, and the continuation key is set exactly
      when more rows match; it is the key of the first row not held. */
  lemma LookaheadPage(listing: seq<Row>, columns: set<string>, batch: nat, primaryKey: seq<string>)
    requires forall k | k in primaryKey :: k in columns
    ensures var page := PageOf(Projected(Limited(listing, Some(batch + 1)), columns), batch, true, primaryKey);
            && |page.record| == (if batch < |listing| then batch else |listing|)
            && (forall i | 0 <= i < |page.record| :: Shows(page.record[i], listing[i], columns))
            && (page.next.Some? <==> batch < |listing|)
            && (batch < |listing| ==> Identifies(page.next.value, listing[batch], primaryKey))
  {
    hide Shows;
    hide Identifies;
    hide PageOf;
    hide Projected;
    RowsShown(listing, columns, batch, true, primaryKey);
    LastShown(listing, columns, batch, true, primaryKey);
  }

  /** With batching off every row is held, yet the continuation key is set whenever the batch size is exceeded,
      and it is then the key of the last row, which is held. */
  lemma UnlimitedPage(listing: seq<Row>, columns: set<string>, batch: nat, primaryKey: seq<string>)
    requires forall k | k in primaryKey :: k in columns
    ensures var page := PageOf(Projected(Limited(listing, None), columns), batch, false, primaryKey);
            && |page.record| == |listing| && (forall i | 0 <= i < |listing| :: Shows(page.record[i], listing[i], columns))
            && (page.next.Some? <==> batch < |listing|)
            && (batch < |listing| ==> Identifies(page.next.value, listing[|listing| - 1], primaryKey))
  {
    hide Shows;
    hide Identifies;
    hide PageOf;
    hide Projected;
    RowsShown(listing, columns, batch, false, primaryKey);
    LastShown(listing, columns, batch, false, primaryKey);
  }

  lemma PageAdded(results: Results, page: Page)
    ensures var after := AddPage(results, page);
            && after.record == results.record + page.record && after.count == page.count
            && after.next == (if page.next.Some? then page.next else results.next)
            && after.last == (if page.last.Some? then page.last else results.last)
  {
  }

  lemma ProjectedShows(rows: seq<Row>, columns: set<string>, i: nat)
    requires i < |rows|
    ensures Shows(Projected(rows, columns)[i], rows[i], columns)
  {
  }

  lemma KeyShown(row: Row, source: Row, columns: set<string>, primaryKey: seq<string>)
    requires Shows(row, source, columns) && forall k | k in primaryKey :: k in columns
    ensures Identifies(KeyOf(row, primaryKey), source, primaryKey)
  {
  }

  /** The rows that a search keeps, column by column: the first ones of the listing. */
  lemma RowsShown(listing: seq<Row>, columns: set<string>, batch: nat, enforced: bool, primaryKey: seq<string>)
    ensures var limit := if enforced then Some(batch + 1) else None;
            var rows := PageOf(Projected(Limited(listing, limit), columns), batch, enforced, primaryKey).record;
            && |rows| == (if enforced && batch < |listing| then batch else |listing|)
            && forall i | 0 <= i < |rows| :: Shows(rows[i], listing[i], columns)
  {
    hide Shows;
    var fetched := Limited(listing, if enforced then Some(batch + 1) else None);
    forall i | 0 <= i < |fetched|
      ensures Shows(Projected(fetched, columns)[i], listing[i], columns)
    {
      ProjectedShows(fetched, columns, i);
    }
  }

  /** The last row fetched, and its key where it lies beyond the batch size. */
  lemma LastShown(listing: seq<Row>, columns: set<string>, batch: nat, enforced: bool, primaryKey: seq<string>)
    requires forall k | k in primaryKey :: k in columns
    ensures var limit := if enforced then Some(batch + 1) else None;
            var page := PageOf(Projected(Limited(listing, limit), columns), batch, enforced, primaryKey);
            var fetched := if enforced && batch < |listing| then batch + 1 else |listing|;
            && page.count == fetched
            && (if listing == [] then page.last == None
                else page.last.Some? && Shows(page.last.value, listing[fetched - 1], columns))
            && (if |listing| <= batch then page.next == None
                else page.next.Some? && Identifies(page.next.value, listing[fetched - 1], primaryKey))
  {
    hide Shows;
    hide KeyOf;
    hide Identifies;
    var rows := Limited(listing, if enforced then Some(batch + 1) else None);
    if rows != [] {
      var last := |rows| - 1;
      ProjectedShows(rows, columns, last);
      KeyShown(Projected(rows, columns)[last], listing[last], columns, primaryKey);
    }
  }

  lemma RowsOrdered(found: seq<Row>, listing: seq<Row>, rows: seq<Row>, columns: set<string>, key: string,
                    descending: bool, precedes: (Cell, Cell) -> bool)
    requires |found| <= |listing| && (forall i | 0 <= i < |found| :: Shows(found[i], listing[i], columns)) && key in columns
    requires Listing(listing, rows, key, descending, precedes)
    ensures Ordered(found, key, descending, precedes)
  {
    forall i | 0 <= i < |found|
      ensures At(found[i], key) == At(listing[i], key)
    {
      assert Shows(found[i], listing[i], columns);
    }
  }

  /** What a search adds to what the handler held. */
  lemma SearchShown(before: Results, after: Results, listing: seq<Row>, rows: seq<Row>, columns: set<string>, batch: nat,
                    enforced: bool, primaryKey: seq<string>, descending: bool, precedes: (Cell, Cell) -> bool)
    returns (found: seq<Row>)
    requires (forall k | k in primaryKey :: k in columns) && primaryKey != []
    requires Listing(listing, rows, primaryKey[0], descending, precedes)
    requires var limit := if enforced then Some(batch + 1) else None;
             after == AddPage(before, PageOf(Projected(Limited(listing, limit), columns), batch, enforced, primaryKey))
    ensures after.record == before.record + found
    ensures |found| == if enforced && batch < |listing| then batch else |listing|
    ensures forall i | 0 <= i < |found| :: Shows(found[i], listing[i], columns)
    ensures Ordered(found, primaryKey[0], descending, precedes)
    ensures var fetched := if enforced && batch < |listing| then batch + 1 else |listing|;
            && after.count == fetched
            && (if listing == [] then after.last == before.last
                else after.last.Some? && Shows(after.last.value, listing[fetched - 1], columns))
            && (if |listing| <= batch then after.next == before.next
                else after.next.Some? && Identifies(after.next.value, listing[fetched - 1], primaryKey))
  {
    hide AddPage;
    hide PageOf;
    hide Shows;
    hide Ordered;
    hide Identifies;
    hide Listing;
    var limit := if enforced then Some(batch + 1) else None;
    var page := PageOf(Projected(Limited(listing, limit), columns), batch, enforced, primaryKey);
    found := page.record;
    PageAdded(before, page);
    RowsShown(listing, columns, batch, enforced, primaryKey);
    LastShown(listing, columns, batch, enforced, primaryKey);
    RowsOrdered(found, listing, rows, columns, primaryKey[0], descending, precedes);
  }
}
