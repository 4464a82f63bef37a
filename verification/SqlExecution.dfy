/** What the statements of the data handler do to a database, and the operations on rows that they stand for. */
module SqlExecution {
  import opened Wrappers
  import opened SqlText
  import opened SqlStatements

  datatype Scalar = TextScalar(text: string) | NumberScalar(number: int)

  /** A column value; None is null. */
  type Cell = Option<Scalar>
  type Row = map<string, Cell>

  /** A table: the default value of each of its columns, and its rows. */
  datatype Table = Table(defaults: Row, rows: seq<Row>)
  type Database = map<string, Table>

  /** The database after a statement, and the number of affected rows unless the statement was refused. */
  datatype Change = Change(db: Database, affected: Option<nat>)

  // ---------------------------------------------------------------- the operations on rows

  predicate Matches(row: Row, criteria: Row) {
    forall c | c in criteria :: criteria[c].Some? && c in row && row[c] == criteria[c]
  }

  function Matching(rows: seq<Row>, criteria: Row): seq<Row> {
    if rows == [] then []
    else (if Matches(rows[0], criteria) then [rows[0]] else []) + Matching(rows[1..], criteria)
  }

  function Without(rows: seq<Row>, criteria: Row): seq<Row> {
    if rows == [] then []
    else (if Matches(rows[0], criteria) then [] else [rows[0]]) + Without(rows[1..], criteria)
  }

  function Replaced(rows: seq<Row>, replacement: Row, criteria: Row): seq<Row> {
    seq(|rows|, i requires 0 <= i < |rows| => if Matches(rows[i], criteria) then rows[i] + replacement else rows[i])
  }

  /** Stores the new rows of a table if the constraints of the database allow them. */
  function Store(db: Database, table: string, rows: seq<Row>, affected: nat, allowed: Database -> bool): Change
    requires table in db
  {
    var after := db[table := db[table].(rows := rows)];
    if allowed(after) then Change(after, Some(affected)) else Change(db, None)
  }

  function UpdateRows(db: Database, table: string, replacement: Row, criteria: Row, allowed: Database -> bool): Change {
    if table !in db || !(replacement.Keys + criteria.Keys <= db[table].defaults.Keys) then Change(db, None)
    else
      var rows := db[table].rows;
      Store(db, table, Replaced(rows, replacement, criteria), |Matching(rows, criteria)|, allowed)
  }

  function DeleteRows(db: Database, table: string, criteria: Row, allowed: Database -> bool): Change {
    if table !in db || !(criteria.Keys <= db[table].defaults.Keys) then Change(db, None)
    else
      var rows := db[table].rows;
      Store(db, table, Without(rows, criteria), |Matching(rows, criteria)|, allowed)
  }

  function InsertRow(db: Database, table: string, record: Row, allowed: Database -> bool): Change {
    if table !in db || !(record.Keys <= db[table].defaults.Keys) then Change(db, None)
    else Store(db, table, db[table].rows + [db[table].defaults + record], 1, allowed)
  }

  lemma {:induction false} AppendedRow(rows: seq<Row>, row: Row, criteria: Row)
    requires Matches(row, criteria)
    ensures Matching(rows + [row], criteria) == Matching(rows, criteria) + [row]
    ensures Without(rows + [row], criteria) == Without(rows, criteria)
  {
    if rows == [] {
      assert rows + [row] == [row];
    } else {
      assert (rows + [row])[1..] == rows[1..] + [row];
      AppendedRow(rows[1..], row, criteria);
    }
  }

  lemma {:induction false} NothingMatches(rows: seq<Row>, criteria: Row)
    ensures Matching(rows, criteria) == [] ==> Without(rows, criteria) == rows
  {
    if rows != [] {
      NothingMatches(rows[1..], criteria);
    }
  }

  /** Matching keeps the rows that match, and Without the others. */
  lemma {:induction false} RowsDivided(rows: seq<Row>, criteria: Row)
    ensures multiset(Matching(rows, criteria)) + multiset(Without(rows, criteria)) == multiset(rows)
    ensures forall row | row in Matching(rows, criteria) :: Matches(row, criteria)
    ensures forall row | row in Without(rows, criteria) :: !Matches(row, criteria)
  {
    hide Matches;
    if rows != [] {
      RowsDivided(rows[1..], criteria);
      assert rows == [rows[0]] + rows[1..];
    }
  }

  /** An update that the constraints allow: every matching row gets the values of the replacement and keeps its
      other columns, every other row and table stays; one that they do not allow changes nothing. */
  lemma UpdateSpelledOut(db: Database, table: string, replacement: Row, criteria: Row, allowed: Database -> bool)
    requires table in db && replacement.Keys + criteria.Keys <= db[table].defaults.Keys
    ensures var rows, change := db[table].rows, UpdateRows(db, table, replacement, criteria, allowed);
            var after := Replaced(rows, replacement, criteria);
            && |after| == |rows|
            && (forall i | 0 <= i < |rows| && !Matches(rows[i], criteria) :: after[i] == rows[i])
            && (forall i | 0 <= i < |rows| && Matches(rows[i], criteria) ::
                  && after[i].Keys == rows[i].Keys + replacement.Keys
                  && forall c | c in after[i] :: after[i][c] == if c in replacement then replacement[c] else rows[i][c])
            && (if allowed(db[table := Table(db[table].defaults, after)])
                then change == Change(db[table := Table(db[table].defaults, after)], Some(|Matching(rows, criteria)|))
                else change == Change(db, None))
  {
    assert db[table].(rows := Replaced(db[table].rows, replacement, criteria))
        == Table(db[table].defaults, Replaced(db[table].rows, replacement, criteria));
  }

  /** A deletion that the constraints allow takes out the matching rows and counts them. */
  lemma DeleteSpelledOut(db: Database, table: string, criteria: Row, allowed: Database -> bool)
    requires table in db && criteria.Keys <= db[table].defaults.Keys
    ensures var rows, change := db[table].rows, DeleteRows(db, table, criteria, allowed);
            var after := db[table := Table(db[table].defaults, Without(rows, criteria))];
            change == if allowed(after) then Change(after, Some(|Matching(rows, criteria)|)) else Change(db, None)
    ensures var rows := db[table].rows;
            && multiset(Matching(rows, criteria)) + multiset(Without(rows, criteria)) == multiset(rows)
            && (forall row | row in Matching(rows, criteria) :: Matches(row, criteria))
            && (forall row | row in Without(rows, criteria) :: !Matches(row, criteria))
  {
    RowsDivided(db[table].rows, criteria);
  }

  /** An insertion that the constraints allow adds one row: the record, and the defaults where it is silent. */
  lemma InsertSpelledOut(db: Database, table: string, record: Row, allowed: Database -> bool)
    requires table in db && record.Keys <= db[table].defaults.Keys
    ensures var row := db[table].defaults + record;
            && row.Keys == db[table].defaults.Keys
            && (forall c | c in row :: row[c] == if c in record then record[c] else db[table].defaults[c])
            && var after := db[table := Table(db[table].defaults, db[table].rows + [row])];
               InsertRow(db, table, record, allowed) == if allowed(after) then Change(after, Some(1)) else Change(db, None)
  {
  }

  /** A new row is the one that its own entries find, and deleting by them undoes the insertion, if nothing
      matched them before. */
  lemma DeleteUndoesInsert(db: Database, table: string, record: Row, criteria: Row, allowed: Database -> bool)
    requires table in db && record.Keys <= db[table].defaults.Keys && Matching(db[table].rows, criteria) == []
    requires Matches(record, criteria)
    requires allowed(db) && InsertRow(db, table, record, allowed).affected.Some?
    ensures var after := InsertRow(db, table, record, allowed).db;
            && Matching(after[table].rows, criteria) == [db[table].defaults + record]
            && DeleteRows(after, table, criteria, allowed) == Change(db, Some(1))
  {
    var rows := db[table].rows;
    AppendedRow(rows, db[table].defaults + record, criteria);
    NothingMatches(rows, criteria);
    var after := InsertRow(db, table, record, allowed).db;
    assert db[table].(rows := rows) == db[table];
    assert after[table := db[table]] == db;
  }

  // ---------------------------------------------------------------- running a statement

  function Numbers(clauses: seq<Clause>): seq<nat> {
    seq(|clauses|, i requires 0 <= i < |clauses| => clauses[i].placeholder)
  }

  function Named(clauses: seq<Clause>): seq<string> {
    seq(|clauses|, i requires 0 <= i < |clauses| => clauses[i].column)
  }

  /** The driver wants one argument for every number from 1 up, and every number in the text. */
  predicate Bound(numbers: seq<nat>, count: nat) {
    (forall i | 0 <= i < |numbers| :: 1 <= numbers[i] <= count) && forall n | 1 <= n <= count :: n in numbers
  }

  predicate Distinct(names: seq<string>) {
    forall i, j | 0 <= i < j < |names| :: names[i] != names[j]
  }

  predicate Known(names: seq<string>, table: Table) {
    forall i | 0 <= i < |names| :: names[i] in table.defaults
  }

  predicate Holds(row: Row, finds: seq<Clause>, args: seq<Cell>)
    requires forall i | 0 <= i < |finds| :: 1 <= finds[i].placeholder <= |args|
  {
    forall i | 0 <= i < |finds| ::
      args[finds[i].placeholder - 1].Some? && finds[i].column in row && row[finds[i].column] == args[finds[i].placeholder - 1]
  }

  function Held(rows: seq<Row>, finds: seq<Clause>, args: seq<Cell>): seq<Row>
    requires forall i | 0 <= i < |finds| :: 1 <= finds[i].placeholder <= |args|
  {
    if rows == [] then []
    else (if Holds(rows[0], finds, args) then [rows[0]] else []) + Held(rows[1..], finds, args)
  }

  function NotHeld(rows: seq<Row>, finds: seq<Clause>, args: seq<Cell>): seq<Row>
    requires forall i | 0 <= i < |finds| :: 1 <= finds[i].placeholder <= |args|
  {
    if rows == [] then []
    else (if Holds(rows[0], finds, args) then [] else [rows[0]]) + NotHeld(rows[1..], finds, args)
  }

  /** A row after the assignments, from left to right. */
  function Assigned(row: Row, columns: seq<string>, numbers: seq<nat>, args: seq<Cell>): Row
    requires |columns| == |numbers| && forall i | 0 <= i < |numbers| :: 1 <= numbers[i] <= |args|
  {
    if columns == [] then row
    else
      var last := |columns| - 1;
      Assigned(row, columns[..last], numbers[..last], args)[columns[last] := args[numbers[last] - 1]]
  }

  function AssignedRows(rows: seq<Row>, columns: seq<string>, numbers: seq<nat>, finds: seq<Clause>, args: seq<Cell>): seq<Row>
    requires |columns| == |numbers| && forall i | 0 <= i < |numbers| :: 1 <= numbers[i] <= |args|
    requires forall i | 0 <= i < |finds| :: 1 <= finds[i].placeholder <= |args|
  {
    seq(|rows|, i requires 0 <= i < |rows| => if Holds(rows[i], finds, args) then Assigned(rows[i], columns, numbers, args) else rows[i])
  }

  function Run(db: Database, stmt: Statement, args: seq<Cell>, allowed: Database -> bool): Change {
    if stmt.table !in db then Change(db, None)
    else
      var table := db[stmt.table];
      match stmt
      case Update(name, sets, finds) =>
        if !Bound(Numbers(sets) + Numbers(finds), |args|) || !Known(Named(sets) + Named(finds), table) || !Distinct(Named(sets)) then
          Change(db, None)
        else
          assert forall i | 0 <= i < |finds| :: finds[i].placeholder == (Numbers(sets) + Numbers(finds))[|sets| + i];
          assert forall i | 0 <= i < |sets| :: sets[i].placeholder == (Numbers(sets) + Numbers(finds))[i];
          var rows := AssignedRows(table.rows, Named(sets), Numbers(sets), finds, args);
          Store(db, name, rows, |Held(table.rows, finds, args)|, allowed)
      case Delete(name, finds) =>
        if !Bound(Numbers(finds), |args|) || !Known(Named(finds), table) then Change(db, None)
        else
          assert forall i | 0 <= i < |finds| :: finds[i].placeholder == Numbers(finds)[i];
          Store(db, name, NotHeld(table.rows, finds, args), |Held(table.rows, finds, args)|, allowed)
      case Insert(name, columns, numbers) =>
        if !Bound(numbers, |args|) || !Known(columns, table) || !Distinct(columns) || |columns| != |numbers| then Change(db, None)
        else Store(db, name, table.rows + [Assigned(table.defaults, columns, numbers, args)], 1, allowed)
      case Select(_, _, _, _, _, _) => Change(db, None)
  }

  /** A statement as the server receives it. */
  function Perform(db: Database, text: string, args: seq<Cell>, allowed: Database -> bool): Change {
    match Read(text)
    case Some(stmt) => Run(db, stmt, args, allowed)
    case None => Change(db, None)
  }

  /** A refused statement has changed nothing. */
  lemma RefusedChangesNothing(db: Database, text: string, args: seq<Cell>, allowed: Database -> bool)
    ensures Perform(db, text, args, allowed).affected.None? ==> Perform(db, text, args, allowed).db == db
  {
    hide Held;
    hide NotHeld;
    hide AssignedRows;
    hide Assigned;
    hide Bound;
    hide Known;
    hide Distinct;
    hide Read;
  }

  // ---------------------------------------------------------------- searches

  /** The search is accepted. */
  predicate Searches(db: Database, stmt: Statement, args: seq<Cell>) {
    && stmt.Select? && stmt.table in db && |stmt.keys| == 1
    && Bound(Numbers(stmt.finds), |args|)
    && Known(stmt.columns + Named(stmt.finds) + stmt.keys, db[stmt.table])
  }

  function Found(db: Database, stmt: Statement, args: seq<Cell>): seq<Row>
    requires Searches(db, stmt, args)
  {
    assert forall i | 0 <= i < |stmt.finds| :: stmt.finds[i].placeholder == Numbers(stmt.finds)[i];
    Held(db[stmt.table].rows, stmt.finds, args)
  }

  function At(row: Row, column: string): Cell {
    if column in row then row[column] else None
  }

  /** The rows in the order of a column; rows that agree on it stand in any order. */
  ghost predicate Listing(listing: seq<Row>, rows: seq<Row>, key: string, descending: bool, precedes: (Cell, Cell) -> bool) {
    && multiset(listing) == multiset(rows)
    && forall i, j | 0 <= i < j < |listing| ::
         if descending then precedes(At(listing[j], key), At(listing[i], key)) else precedes(At(listing[i], key), At(listing[j], key))
  }

  function Projected(rows: seq<Row>, columns: set<string>): seq<Row> {
    seq(|rows|, i requires 0 <= i < |rows| => map c | c in columns && c in rows[i] :: rows[i][c])
  }

  function Limited(rows: seq<Row>, limit: Option<nat>): seq<Row> {
    if limit.Some? && limit.value < |rows| then rows[..limit.value] else rows
  }

  /** The answer to a search whose matching rows the server lists in the given order. */
  function Answer(db: Database, text: string, args: seq<Cell>, listing: seq<Row>): Option<seq<Row>> {
    match Read(text)
    case Some(stmt) =>
      if Searches(db, stmt, args) then Some(Projected(Limited(listing, stmt.limit), set c | c in stmt.columns)) else None
    case None => None
  }

  // ---------------------------------------------------------------- what the builders write

  /** An order in which the keys of a map may be visited. */
  ghost predicate Lists(order: seq<string>, names: set<string>) {
    Distinct(order) && forall n :: n in order <==> n in names
  }

  /** One clause per key, numbered from `first` up. */
  function Clauses(order: seq<string>, first: nat): seq<Clause> {
    seq(|order|, i requires 0 <= i < |order| => Clause(order[i], first + i))
  }

  function Upto(first: nat, count: nat): seq<nat> {
    seq(count, i requires 0 <= i < count => first + i)
  }

  function Cells(order: seq<string>, row: Row): seq<Cell> {
    seq(|order|, i requires 0 <= i < |order| => At(row, order[i]))
  }

  lemma ClausesParts(order: seq<string>, first: nat)
    ensures Numbers(Clauses(order, first)) == Upto(first, |order|) && Named(Clauses(order, first)) == order
  {
  }

  lemma UptoJoins(first: nat, m: nat, n: nat)
    ensures Upto(first, m) + Upto(first + m, n) == Upto(first, m + n)
  {
  }

  /** Placeholders 1 to n are bound by exactly n arguments. */
  lemma BoundExactly(n: nat, count: nat)
    ensures Bound(Upto(1, n), count) <==> count == n
  {
    if count == n {
      forall k | 1 <= k <= count
        ensures k in Upto(1, n)
      {
        assert Upto(1, n)[k - 1] == k;
      }
    } else if count < n {
      assert Upto(1, n)[n - 1] == n;
    } else {
      assert n + 1 !in Upto(1, n);
    }
  }

  lemma KnownMeans(order: seq<string>, names: set<string>, table: Table)
    requires Lists(order, names)
    ensures Known(order, table) <==> names <= table.defaults.Keys
  {
    if Known(order, table) {
      forall n | n in names
        ensures n in table.defaults
      {
        assert n in order;
      }
    } else {
      var i :| 0 <= i < |order| && order[i] !in table.defaults;
      assert order[i] in names;
    }
  }

  lemma KnownJoins(a: seq<string>, b: seq<string>, table: Table)
    ensures Known(a + b, table) <==> Known(a, table) && Known(b, table)
  {
    if Known(a + b, table) {
      assert forall i | 0 <= i < |a| :: a[i] == (a + b)[i];
      assert forall i | 0 <= i < |b| :: b[i] == (a + b)[|a| + i];
    }
  }

  /** The arguments of the clauses stand where their numbers point. */
  predicate Carries(args: seq<Cell>, order: seq<string>, first: nat, row: Row) {
    1 <= first && first - 1 + |order| <= |args| && forall i | 0 <= i < |order| :: args[first - 1 + i] == At(row, order[i])
  }

  lemma HoldsMeans(row: Row, order: seq<string>, first: nat, args: seq<Cell>, criteria: Row)
    requires Lists(order, criteria.Keys) && Carries(args, order, first, criteria)
    ensures Holds(row, Clauses(order, first), args) <==> Matches(row, criteria)
  {
    var finds := Clauses(order, first);
    if Holds(row, finds, args) {
      forall c | c in criteria
        ensures criteria[c].Some? && c in row && row[c] == criteria[c]
      {
        assert c in order;
        var i :| 0 <= i < |order| && order[i] == c;
        assert finds[i].column == c;
      }
    }
  }

  lemma {:induction false} HeldMeans(rows: seq<Row>, order: seq<string>, first: nat, args: seq<Cell>, criteria: Row)
    requires Lists(order, criteria.Keys) && Carries(args, order, first, criteria)
    ensures Held(rows, Clauses(order, first), args) == Matching(rows, criteria)
    ensures NotHeld(rows, Clauses(order, first), args) == Without(rows, criteria)
  {
    if rows != [] {
      HoldsMeans(rows[0], order, first, args, criteria);
      HeldMeans(rows[1..], order, first, args, criteria);
    }
  }

  function Valued(order: seq<string>, values: Row): Row {
    map c | c in order :: At(values, c)
  }

  lemma AssignOne(row: Row, columns: seq<string>, values: Row)
    requires columns != []
    ensures var last := |columns| - 1;
            (row + Valued(columns[..last], values))[columns[last] := At(values, columns[last])] == row + Valued(columns, values)
  {
    var last := |columns| - 1;
    assert columns == columns[..last] + [columns[last]];
  }

  lemma {:induction false} AssignedInOrder(row: Row, order: seq<string>, numbers: seq<nat>, args: seq<Cell>, values: Row)
    requires |order| == |numbers| && forall i | 0 <= i < |numbers| :: 1 <= numbers[i] <= |args|
    requires forall i | 0 <= i < |order| :: args[numbers[i] - 1] == At(values, order[i])
    ensures Assigned(row, order, numbers, args) == row + Valued(order, values)
  {
    hide Valued;
    hide At;
    if order == [] {
      NothingValued(values);
      assert row + map[] == row;
    } else {
      AssignedInOrder(row, order[..|order| - 1], numbers[..|order| - 1], args, values);
      AssignOne(row, order, values);
    }
  }

  lemma NothingValued(values: Row)
    ensures Valued([], values) == map[]
  {
  }

  lemma AssignedMeans(row: Row, order: seq<string>, first: nat, args: seq<Cell>, values: Row)
    requires Lists(order, values.Keys) && Carries(args, order, first, values)
    ensures Assigned(row, order, Upto(first, |order|), args) == row + values
  {
    AssignedInOrder(row, order, Upto(first, |order|), args, values);
    assert Valued(order, values) == values;
  }

  // ---------------------------------------------------------------- meaning preserved

  /** Each part of an argument vector stands where the numbers of its clauses point. */
  lemma ArgumentsCarry(setOrder: seq<string>, replacement: Row, findOrder: seq<string>, criteria: Row)
    ensures var args := [] + Cells(setOrder, replacement) + Cells(findOrder, criteria);
            Carries(args, setOrder, 1, replacement) && Carries(args, findOrder, 1 + |setOrder|, criteria)
  {
  }

  lemma ListsDistinct(order: seq<string>, names: set<string>)
    requires Lists(order, names)
    ensures Distinct(order)
  {
  }

  /** An update with its arguments does what the replacement and the criteria say, whatever the order in which
      either map was visited; with arguments left from an earlier call it is refused. */
  lemma UpdateMeans(db: Database, table: string, setOrder: seq<string>, replacement: Row, findOrder: seq<string>, criteria: Row,
                    stale: seq<Cell>, allowed: Database -> bool)
    requires Lists(setOrder, replacement.Keys) && Lists(findOrder, criteria.Keys)
    ensures Run(db, Update(table, Clauses(setOrder, 1), Clauses(findOrder, 1 + |setOrder|)),
              stale + Cells(setOrder, replacement) + Cells(findOrder, criteria), allowed)
         == if stale == [] then UpdateRows(db, table, replacement, criteria, allowed) else Change(db, None)
  {
    hide Matches;
    hide Matching;
    hide Holds;
    hide Held;
    hide Assigned;
    hide AssignedRows;
    hide Replaced;
    hide Lists;
    var sets, finds := Clauses(setOrder, 1), Clauses(findOrder, 1 + |setOrder|);
    var args := stale + Cells(setOrder, replacement) + Cells(findOrder, criteria);
    ClausesParts(setOrder, 1);
    ClausesParts(findOrder, 1 + |setOrder|);
    UptoJoins(1, |setOrder|, |findOrder|);
    BoundExactly(|setOrder| + |findOrder|, |args|);
    if table in db && stale == [] {
      KnownJoins(setOrder, findOrder, db[table]);
      KnownMeans(setOrder, replacement.Keys, db[table]);
      KnownMeans(findOrder, criteria.Keys, db[table]);
      ListsDistinct(setOrder, replacement.Keys);
      ArgumentsCarry(setOrder, replacement, findOrder, criteria);
      hide Carries;
      UpdatedRows(db[table].rows, setOrder, replacement, findOrder, criteria, args);
      HeldMeans(db[table].rows, findOrder, 1 + |setOrder|, args, criteria);
    }
  }

  lemma UpdatedRows(rows: seq<Row>, setOrder: seq<string>, replacement: Row, findOrder: seq<string>, criteria: Row, args: seq<Cell>)
    requires Lists(setOrder, replacement.Keys) && Lists(findOrder, criteria.Keys)
    requires Carries(args, setOrder, 1, replacement) && Carries(args, findOrder, 1 + |setOrder|, criteria)
    ensures AssignedRows(rows, setOrder, Upto(1, |setOrder|), Clauses(findOrder, 1 + |setOrder|), args)
         == Replaced(rows, replacement, criteria)
  {
    forall i | 0 <= i < |rows|
      ensures Holds(rows[i], Clauses(findOrder, 1 + |setOrder|), args) <==> Matches(rows[i], criteria)
      ensures Assigned(rows[i], setOrder, Upto(1, |setOrder|), args) == rows[i] + replacement
    {
      HoldsMeans(rows[i], findOrder, 1 + |setOrder|, args, criteria);
      AssignedMeans(rows[i], setOrder, 1, args, replacement);
    }
  }

  lemma DeleteMeans(db: Database, table: string, order: seq<string>, criteria: Row, stale: seq<Cell>, allowed: Database -> bool)
    requires Lists(order, criteria.Keys)
    ensures Run(db, Delete(table, Clauses(order, 1)), stale + Cells(order, criteria), allowed)
         == if stale == [] then DeleteRows(db, table, criteria, allowed) else Change(db, None)
  {
    ClausesParts(order, 1);
    BoundExactly(|order|, |stale| + |order|);
    if table in db && stale == [] {
      KnownMeans(order, criteria.Keys, db[table]);
      HeldMeans(db[table].rows, order, 1, stale + Cells(order, criteria), criteria);
    }
  }

  lemma InsertMeans(db: Database, table: string, order: seq<string>, record: Row, allowed: Database -> bool)
    requires Lists(order, record.Keys)
    ensures Run(db, Insert(table, order, Upto(1, |order|)), Cells(order, record), allowed) == InsertRow(db, table, record, allowed)
  {
    BoundExactly(|order|, |order|);
    if table in db {
      KnownMeans(order, record.Keys, db[table]);
      AssignedMeans(db[table].defaults, order, 1, Cells(order, record), record);
    }
  }

  /** A search with its arguments finds the rows that match the criteria; with left-over arguments it is refused. */
  lemma SelectMeans(db: Database, stmt: Statement, order: seq<string>, criteria: Row, stale: seq<Cell>)
    requires stmt.Select? && stmt.finds == Clauses(order, 1) && Lists(order, criteria.Keys)
    ensures Searches(db, stmt, stale + Cells(order, criteria)) <==>
            (&& stale == [] && stmt.table in db && |stmt.keys| == 1
             && Known(stmt.columns + stmt.keys, db[stmt.table]) && criteria.Keys <= db[stmt.table].defaults.Keys)
    ensures Searches(db, stmt, stale + Cells(order, criteria)) ==>
            Found(db, stmt, stale + Cells(order, criteria)) == Matching(db[stmt.table].rows, criteria)
  {
    ClausesParts(order, 1);
    BoundExactly(|order|, |stale| + |order|);
    if stmt.table in db {
      var table := db[stmt.table];
      KnownJoins(stmt.columns + order, stmt.keys, table);
      KnownJoins(stmt.columns, order, table);
      KnownJoins(stmt.columns, stmt.keys, table);
      KnownMeans(order, criteria.Keys, table);
      if stale == [] {
        HeldMeans(table.rows, order, 1, stale + Cells(order, criteria), criteria);
      }
    }
  }
}
