/** Sums over counter tables. */
module RowSums {
  import opened PageviewStore

  /** The sum of all counts. */
  ghost function Total(rows: Rows): int
    decreases |rows|
  {
    if rows == map[] then 0
    else
      var key :| key in rows;
      rows[key] + Total(rows - {key})
  }

  /** Any row may be taken out first. */
  lemma {:induction false} TotalRemove(rows: Rows, key: RowKey)
    requires key in rows
    ensures Total(rows) == rows[key] + Total(rows - {key})
    decreases |rows|
  {
    var first :| first in rows && Total(rows) == rows[first] + Total(rows - {first});
    if first != key {
      TotalRemove(rows - {first}, key);
      TotalRemove(rows - {key}, first);
      assert rows - {first} - {key} == rows - {key} - {first};
    }
  }

  lemma TotalUpdate(rows: Rows, key: RowKey, value: int)
    ensures Total(rows[key := value]) == Total(rows) - (if key in rows then rows[key] else 0) + value
  {
    var updated := rows[key := value];
    TotalRemove(updated, key);
    if key in rows {
      TotalRemove(rows, key);
      assert updated - {key} == rows - {key};
    } else {
      assert updated - {key} == rows;
    }
  }
}
