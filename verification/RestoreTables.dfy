/**
 * One table of a backup restore, whatever its rows are (internal/db/backup.go): the loop that skips,
 * restores and upserts the payload's rows one after the other, and what it leaves behind.
 */
module RestoreTables {
  import opened Wrappers

  /**
   * id: the primary key. skips: rows the loop passes over. restored: credential preservation and
   * time stamps. updated: the row after ON CONFLICT DO UPDATE. unique: the value of a further UNIQUE
   * column, if the table has one.
   */
  datatype Rules<!K, !R> = Rules(
    id: R -> K,
    skips: R -> bool,
    restored: R -> R,
    updated: (R, R) -> R,
    unique: R -> Option<string>)

  /** Another row already holds the unique value. */
  predicate Clashes<K(==), R>(rules: Rules<K, R>, table: map<K, R>, id: K, row: R) {
    rules.unique(row).Some? && exists other :: other in table && other != id && rules.unique(table[other]) == rules.unique(row)
  }

  /** One upsert, None when the database refuses it. */
  function Upserted<K, R>(rules: Rules<K, R>, table: map<K, R>, id: K, row: R): Option<map<K, R>> {
    if Clashes(rules, table, id, row) then None
    else Some(table[id := if id in table then rules.updated(table[id], row) else row])
  }

  function RestoredRow<K, R>(rules: Rules<K, R>, table: map<K, R>, row: R): Option<map<K, R>> {
    if rules.skips(row) then Some(table) else Upserted(rules, table, rules.id(row), rules.restored(row))
  }

  function RestoredTable<K, R>(rules: Rules<K, R>, table: map<K, R>, rows: seq<R>): Option<map<K, R>> {
    if rows == [] then Some(table)
    else
      match RestoredTable(rules, table, rows[..|rows| - 1])
      case None => None
      case Some(t) => RestoredRow(rules, t, rows[|rows| - 1])
  }

  // ---------------------------------------------------------------- any payload

  predicate Writes<K(==), R>(rules: Rules<K, R>, row: R, id: K) { !rules.skips(row) && rules.id(row) == id }

  /** Rows that no payload row writes stay; the others hold the last row that wrote them. */
  lemma {:induction false} LastWrite<K, R(!new)>(rules: Rules<K, R>, table: map<K, R>, rows: seq<R>, id: K) returns (last: int)
    ensures -1 <= last < |rows|
    ensures last >= 0 ==> Writes(rules, rows[last], id)
    ensures forall i :: last < i < |rows| ==> !Writes(rules, rows[i], id)
    ensures RestoredTable(rules, table, rows).Some? ==>
      var t := RestoredTable(rules, table, rows).value;
      if last < 0 then (id in t <==> id in table) && (id in t ==> t[id] == table[id])
      else id in t && Holds(rules, t[id], rules.restored(rows[last]))
  {
    last := -1;
    if rows != [] {
      var n := |rows| - 1;
      last := LastWrite(rules, table, rows[..n], id);
      if RestoredTable(rules, table, rows).Some? {
        LastStep(rules, RestoredTable(rules, table, rows[..n]).value, rows[n], id);
      }
      if Writes(rules, rows[n], id) { last := n; }
    }
  }

  /** The stored row is the written one, as an insert or as an update of some earlier row. */
  ghost predicate Holds<K, R(!new)>(rules: Rules<K, R>, stored: R, written: R) {
    stored == written || exists before :: stored == rules.updated(before, written)
  }

  lemma LastStep<K, R(!new)>(rules: Rules<K, R>, table: map<K, R>, row: R, id: K)
    requires RestoredRow(rules, table, row).Some?
    ensures var t := RestoredRow(rules, table, row).value;
      if Writes(rules, row, id) then id in t && Holds(rules, t[id], rules.restored(row))
      else (id in t <==> id in table) && (id in t ==> t[id] == table[id])
  {
  }

  /** Unique values stay unique. */
  ghost predicate IsUnique<K(!new), R>(rules: Rules<K, R>, table: map<K, R>) {
    forall a, b :: a in table && b in table && a != b && rules.unique(table[a]).Some? ==>
      rules.unique(table[a]) != rules.unique(table[b])
  }

  /** An update takes the new row's unique value. */
  ghost predicate UpdatesUnique<K, R(!new)>(rules: Rules<K, R>) {
    forall old_, new_ :: rules.unique(rules.updated(old_, new_)) == rules.unique(new_)
  }

  lemma {:induction false} RestoreKeepsUnique<K(!new), R(!new)>(rules: Rules<K, R>, table: map<K, R>, rows: seq<R>)
    requires IsUnique(rules, table) && UpdatesUnique(rules)
    ensures RestoredTable(rules, table, rows).Some? ==> IsUnique(rules, RestoredTable(rules, table, rows).value)
  {
    if rows != [] { RestoreKeepsUnique(rules, table, rows[..|rows| - 1]); }
  }

  // ---------------------------------------------------------------- the table's own rows

  /** rows are the rows of table in some order, each as view shows it under the same id. */
  ghost predicate Lists<K(!new), R>(id: R -> K, table: map<K, R>, view: R -> R, rows: seq<R>) {
    && (forall i :: 0 <= i < |rows| ==> id(rows[i]) in table && rows[i] == view(table[id(rows[i])]))
    && (forall i, j :: 0 <= i < j < |rows| ==> id(rows[i]) != id(rows[j]))
    && (forall k :: k in table ==> Has(id, rows, k))
  }

  ghost predicate Has<K, R>(id: R -> K, rows: seq<R>, k: K) { exists i :: 0 <= i < |rows| && id(rows[i]) == k }

  lemma HasPush<K, R>(id: R -> K, rows: seq<R>, row: R, k: K)
    ensures Has(id, rows + [row], k) <==> Has(id, rows, k) || id(row) == k
  {
    var all := rows + [row];
    assert all[|rows|] == row;
    if Has(id, rows, k) {
      var i :| 0 <= i < |rows| && id(rows[i]) == k;
      assert id(all[i]) == k;
    }
    if id(row) == k { assert id(all[|rows|]) == k; }
  }

  /** Every row is stored under its own id. */
  ghost predicate Keyed<K(!new), R>(id: R -> K, table: map<K, R>) { forall k :: k in table ==> id(table[k]) == k }

  /** SELECT: all rows, in an order the database chooses. */
  method ListRows<K(!new, ==), R>(id: R -> K, table: map<K, R>) returns (rows: seq<R>)
    requires Keyed(id, table)
    ensures Lists(id, table, r => r, rows)
  {
    rows := [];
    var left := table.Keys;
    while left != {}
      invariant left <= table.Keys
      invariant forall i :: 0 <= i < |rows| ==> id(rows[i]) in table.Keys - left && rows[i] == table[id(rows[i])]
      invariant forall i, j :: 0 <= i < j < |rows| ==> id(rows[i]) != id(rows[j])
      invariant forall k :: k in table.Keys - left ==> Has(id, rows, k)
      decreases |left|
    {
      var k :| k in left;
      assert id(table[k]) == k;
      forall j | j in table.Keys - (left - {k}) ensures Has(id, rows + [table[k]], j) {
        HasPush(id, rows, table[k], j);
      }
      rows := rows + [table[k]];
      left := left - {k};
    }
    assert table.Keys - left == table.Keys;
  }

  /** Restoring and updating leave a row its id. */
  ghost predicate KeepsId<K(!new), R(!new)>(rules: Rules<K, R>) {
    && (forall a :: rules.id(rules.restored(a)) == rules.id(a))
    && (forall a, b :: rules.id(rules.updated(a, b)) == rules.id(b))
  }

  lemma {:induction false} RestoreKeepsKeyed<K(!new), R(!new)>(rules: Rules<K, R>, table: map<K, R>, rows: seq<R>)
    requires Keyed(rules.id, table) && KeepsId(rules)
    ensures RestoredTable(rules, table, rows).Some? ==> Keyed(rules.id, RestoredTable(rules, table, rows).value)
  {
    hide Clashes;
    if rows != [] && RestoredTable(rules, table, rows[..|rows| - 1]).Some? {
      RestoreKeepsKeyed(rules, table, rows[..|rows| - 1]);
      RowKeepsKeyed(rules, RestoredTable(rules, table, rows[..|rows| - 1]).value, rows[|rows| - 1]);
    }
  }

  lemma RowKeepsKeyed<K(!new), R(!new)>(rules: Rules<K, R>, table: map<K, R>, row: R)
    requires Keyed(rules.id, table) && KeepsId(rules)
    ensures RestoredRow(rules, table, row).Some? ==> Keyed(rules.id, RestoredRow(rules, table, row).value)
  {
    hide Clashes;
  }

  /** Restoring a row from its view keeps its unique value. */
  ghost predicate KeepsUnique<K(!new), R>(rules: Rules<K, R>, table: map<K, R>, view: R -> R) {
    forall k :: k in table && !rules.skips(view(table[k])) ==>
      rules.unique(rules.restored(view(table[k]))) == rules.unique(table[k])
  }

  /** The row that listing and restoring leave under k, from a start that is the table itself or nothing. */
  function Back<K, R>(rules: Rules<K, R>, row: R, view: R -> R, replace: bool): R {
    var again := rules.restored(view(row));
    if replace then again else rules.updated(row, again)
  }

  /** After the first n rows. */
  ghost predicate BackSoFar<K(!new), R>(
    rules: Rules<K, R>, table: map<K, R>, view: R -> R, rows: seq<R>, replace: bool, n: nat, t: map<K, R>)
    requires n <= |rows|
  {
    forall k ::
      if k in table && !rules.skips(view(table[k])) && Has(rules.id, rows[..n], k)
      then k in t && t[k] == Back(rules, table[k], view, replace)
      else (k in t <==> k in table && !replace) && (k in t ==> t[k] == table[k])
  }

  lemma BackKeepsUnique<K(!new), R(!new)>(
    rules: Rules<K, R>, table: map<K, R>, view: R -> R, rows: seq<R>, replace: bool, n: nat, t: map<K, R>, k: K)
    requires n <= |rows| && BackSoFar(rules, table, view, rows, replace, n, t)
    requires KeepsUnique(rules, table, view) && UpdatesUnique(rules) && k in t
    ensures k in table && rules.unique(t[k]) == rules.unique(table[k])
  {
  }

  lemma NoClash<K(!new), R(!new)>(
    rules: Rules<K, R>, table: map<K, R>, view: R -> R, rows: seq<R>, replace: bool, n: nat, t: map<K, R>)
    requires n < |rows| && Lists(rules.id, table, view, rows) && BackSoFar(rules, table, view, rows, replace, n, t)
    requires IsUnique(rules, table) && KeepsUnique(rules, table, view) && UpdatesUnique(rules)
    requires !rules.skips(rows[n])
    ensures !Clashes(rules, t, rules.id(rows[n]), rules.restored(rows[n]))
  {
    var k := rules.id(rows[n]);
    assert rules.unique(rules.restored(rows[n])) == rules.unique(table[k]);
    forall other | other in t && other != k && rules.unique(table[k]).Some?
      ensures rules.unique(t[other]) != rules.unique(table[k])
    {
      BackKeepsUnique(rules, table, view, rows, replace, n, t, other);
    }
  }

  lemma {:induction false} BackAfter<K(!new), R(!new)>(
    rules: Rules<K, R>, table: map<K, R>, view: R -> R, rows: seq<R>, replace: bool, n: nat)
    requires n <= |rows| && Lists(rules.id, table, view, rows)
    requires IsUnique(rules, table) && KeepsUnique(rules, table, view) && UpdatesUnique(rules)
    ensures var start := if replace then map[] else table;
      && RestoredTable(rules, start, rows[..n]).Some?
      && BackSoFar(rules, table, view, rows, replace, n, RestoredTable(rules, start, rows[..n]).value)
  {
    if n > 0 {
      BackAfter(rules, table, view, rows, replace, n - 1);
      assert rows[..n][..n - 1] == rows[..n - 1];
      var start := if replace then map[] else table;
      var t := RestoredTable(rules, start, rows[..n - 1]).value;
      if !rules.skips(rows[n - 1]) {
        NoClash(rules, table, view, rows, replace, n - 1, t);
      }
      BackStep(rules, table, view, rows, replace, n - 1, t);
    }
  }

  lemma BackStep<K(!new), R(!new)>(
    rules: Rules<K, R>, table: map<K, R>, view: R -> R, rows: seq<R>, replace: bool, n: nat, t: map<K, R>)
    requires n < |rows| && Lists(rules.id, table, view, rows) && BackSoFar(rules, table, view, rows, replace, n, t)
    requires RestoredRow(rules, t, rows[n]).Some?
    ensures BackSoFar(rules, table, view, rows, replace, n + 1, RestoredRow(rules, t, rows[n]).value)
  {
    hide Clashes;
    var next := RestoredRow(rules, t, rows[n]).value;
    forall k
      ensures if k in table && !rules.skips(view(table[k])) && Has(rules.id, rows[..n + 1], k)
              then k in next && next[k] == Back(rules, table[k], view, replace)
              else (k in next <==> k in table && !replace) && (k in next ==> next[k] == table[k])
    {
      HasPush(rules.id, rows[..n], rows[n], k);
      assert rows[..n] + [rows[n]] == rows[..n + 1];
    }
  }

  /**
   * Exporting a table through view and restoring it into itself succeeds and brings every row back as
   * Back says. Rows that are skipped survive a merge and are lost by a replace.
   */
  lemma RoundTrip<K(!new), R(!new)>(
    rules: Rules<K, R>, table: map<K, R>, view: R -> R, rows: seq<R>, replace: bool)
    requires Lists(rules.id, table, view, rows)
    requires IsUnique(rules, table) && KeepsUnique(rules, table, view) && UpdatesUnique(rules)
    ensures var t := RestoredTable(rules, if replace then map[] else table, rows);
      && t.Some?
      && (forall k :: k in t.value <==> k in table && (!replace || !rules.skips(view(table[k]))))
      && (forall k :: k in t.value ==>
            t.value[k] == if rules.skips(view(table[k])) then table[k] else Back(rules, table[k], view, replace))
  {
    hide Back;
    BackAfter(rules, table, view, rows, replace, |rows|);
    assert rows[..|rows|] == rows;
  }
}
