/** The session affinity table (internal/provider/affinity.go). */
module SessionAffinity {
  import opened Wrappers

  const TTL := 30 * 60 * 1_000_000_000
  const MAX_ENTRIES := 8192

  datatype Binding = Binding(connId: string, seen: int)

  type Table = map<string, Binding>

  /** now.Sub(e.seen) > sessionAffinityTTL */
  predicate Expired(b: Binding, now: int) { now - b.seen > TTL }

  function Looked(t: Table, key: string, now: int): (Table, Option<string>) {
    if key !in t then (t, None)
    else if Expired(t[key], now) then (t - {key}, None)
    else (t[key := t[key].(seen := now)], Some(t[key].connId))
  }

  /**
    What an eviction leaves: every expired binding goes, and an unexpired one goes only if it was seen
    no later than all that stay, and if those that stay are all the table has room for.
   */
  ghost predicate FairEviction(before: Table, after: Table, now: int) {
    && |after| < MAX_ENTRIES
    && (forall k :: k in after ==> k in before && after[k] == before[k] && !Expired(after[k], now))
    && (forall k :: k in before && k !in after && !Expired(before[k], now) ==>
          |after| == MAX_ENTRIES - 1 && forall j :: j in after ==> before[k].seen <= after[j].seen)
  }

  /** Everything a bind may do to the table, whichever bindings it evicts. */
  ghost predicate BindStep(before: Table, key: string, connId: string, now: int, after: Table) {
    && key in after && after[key] == Binding(connId, now)
    && (key in before || |before| < MAX_ENTRIES ==> after == before[key := Binding(connId, now)])
    && (forall k :: k in after && k != key ==> k in before && after[k] == before[k])
    && (|before| <= MAX_ENTRIES ==> |after| <= MAX_ENTRIES)
    && ("" !in before && key !in before && |before| >= MAX_ENTRIES ==> FairEviction(before, after - {key}, now))
  }

  class Affinity {
    var entries: Table

    constructor ()
      ensures entries == map[]
    {
      entries := map[];
    }

    method Get(key: string, now: int) returns (r: Option<string>)
      modifies this
      ensures (entries, r) == Looked(old(entries), key, now)
    {
      if key !in entries {
        return None;
      }
      var e := entries[key];
      if Expired(e, now) {
        entries := entries - {key};
        return None;
      }
      entries := entries[key := e.(seen := now)];
      r := Some(e.connId);
    }

    method Bind(key: string, connId: string, now: int)
      modifies this
      ensures BindStep(old(entries), key, connId, now, entries)
    {
      if key !in entries && |entries| >= MAX_ENTRIES {
        Evict(now);
      }
      ghost var kept := entries;
      entries := entries[key := Binding(connId, now)];
      assert key !in kept ==> entries - {key} == kept;
      assert entries.Keys == kept.Keys + {key};
    }

    method Evict(now: int)
      modifies this
      ensures |entries| < MAX_ENTRIES
      ensures forall k :: k in entries ==> k in old(entries) && entries[k] == old(entries)[k]
      ensures "" !in old(entries) ==> FairEviction(old(entries), entries, now)
    {
      ghost var was := entries;
      var rest := entries.Keys;
      while rest != {}
        invariant rest <= was.Keys
        invariant forall k :: k in entries <==> k in was && (k in rest || !Expired(was[k], now))
        invariant forall k :: k in entries ==> entries[k] == was[k]
        decreases |rest|
      {
        var k :| k in rest;
        rest := rest - {k};
        if Expired(entries[k], now) {
          entries := entries - {k};
        }
      }
      while |entries| >= MAX_ENTRIES
        invariant forall k :: k in entries ==> k in was && entries[k] == was[k] && !Expired(was[k], now)
        invariant forall k :: k in was && k !in entries && !Expired(was[k], now) ==> |entries| >= MAX_ENTRIES - 1
        invariant "" !in was ==> forall k, j :: k in was && k !in entries && !Expired(was[k], now) && j in entries ==>
                    was[k].seen <= entries[j].seen
        decreases |entries|
      {
        ghost var before := entries;
        var oldestKey := FindOldest(entries);
        entries := entries - {oldestKey};
        assert entries.Keys == before.Keys - {oldestKey};
      }
    }
  }

  /**
    The scan for the least recently seen binding. An empty key doubles as "none found yet",
    so the scan is exact on tables without the empty key.
   */
  method FindOldest(entries: Table) returns (oldestKey: string)
    requires entries != map[]
    ensures oldestKey in entries
    ensures "" !in entries ==> forall k :: k in entries ==> entries[oldestKey].seen <= entries[k].seen
  {
    var oldest := 0;
    oldestKey := "";
    var rest := entries.Keys;
    while rest != {}
      invariant rest <= entries.Keys
      invariant rest != entries.Keys ==> oldestKey in entries && oldest == entries[oldestKey].seen
      invariant rest == entries.Keys ==> oldestKey == ""
      invariant "" !in entries ==> forall k :: k in entries && k !in rest ==>
                  oldestKey in entries && oldestKey != "" && entries[oldestKey].seen <= entries[k].seen
      decreases |rest|
    {
      var k :| k in rest;
      rest := rest - {k};
      if oldestKey == "" || entries[k].seen < oldest {
        oldestKey, oldest := k, entries[k].seen;
      }
    }
  }

  // ---------------------------------------------------------------- whole runs

  /** One turn of a conversation: the accounts it may use and the one it got. */
  datatype Turn = Turn(key: string, now: int, pool: set<string>, chosen: string)

  /** What sticky selection does to the table and which account it takes. */
  ghost predicate TurnStep(before: Table, turn: Turn, after: Table) {
    var (looked, bound) := Looked(before, turn.key, turn.now);
    if bound.Some? && bound.value in turn.pool
    then turn.chosen == bound.value && after == looked
    else turn.chosen in turn.pool && BindStep(looked, turn.key, turn.chosen, turn.now, after)
  }

  ghost predicate IsRun(tables: seq<Table>, turns: seq<Turn>) {
    && |tables| == |turns| + 1 && tables[0] == map[]
    && forall i :: 0 <= i < |turns| ==> TurnStep(tables[i], turns[i], tables[i + 1])
  }

  /** The table never outgrows its bound. */
  lemma {:induction false} TableStaysBounded(tables: seq<Table>, turns: seq<Turn>, i: nat)
    requires IsRun(tables, turns) && i <= |turns|
    ensures |tables[i]| <= 8192
  {
    if i > 0 {
      TableStaysBounded(tables, turns, i - 1);
      assert TurnStep(tables[i - 1], turns[i - 1], tables[i]);
      LookedIsNoLarger(tables[i - 1], turns[i - 1].key, turns[i - 1].now);
    }
  }

  lemma LookedIsNoLarger(t: Table, key: string, now: int)
    ensures |Looked(t, key, now).0| <= |t|
  {
    var r := Looked(t, key, now).0;
    assert r.Keys <= t.Keys;
    SubsetSize(r.Keys, t.Keys);
    assert |r.Keys| == |r| && |t.Keys| == |t|;
  }

  lemma {:induction false} SubsetSize(a: set<string>, b: set<string>)
    requires a <= b
    ensures |a| <= |b|
  {
    assert b == a + (b - a);
    assert |b| == |a| + |b - a|;
  }

  /** A turn leaves its own account bound, as of its own time. */
  lemma TurnBinds(before: Table, turn: Turn, after: Table)
    requires TurnStep(before, turn, after)
    ensures turn.key in after && after[turn.key] == Binding(turn.chosen, turn.now)
  {
  }

  /** The turns of other sessions can evict a binding but never change it. */
  lemma {:induction false} OthersKeepBinding(tables: seq<Table>, turns: seq<Turn>, key: string, i: nat, j: nat)
    requires IsRun(tables, turns) && i <= j <= |turns|
    requires forall m :: i <= m < j ==> turns[m].key != key
    requires key in tables[j]
    ensures key in tables[i] && tables[i][key] == tables[j][key]
    decreases j - i
  {
    if i < j {
      assert TurnStep(tables[j - 1], turns[j - 1], tables[j]);
      assert turns[j - 1].key != key;
      OthersKeepBinding(tables, turns, key, i, j - 1);
    }
  }

  /** The gateway's keys are provider, a bar and a session token, and so never empty. */
  predicate NonEmptyKeys(turns: seq<Turn>) { forall i :: 0 <= i < |turns| ==> turns[i].key != "" }

  lemma {:induction false} NoEmptyKey(tables: seq<Table>, turns: seq<Turn>, i: nat)
    requires IsRun(tables, turns) && NonEmptyKeys(turns) && i <= |turns|
    ensures "" !in tables[i]
  {
    if i > 0 {
      NoEmptyKey(tables, turns, i - 1);
      assert TurnStep(tables[i - 1], turns[i - 1], tables[i]);
    }
  }

  /**
    Over every run: a binding vanishes only when a new session finds the table full; then no expired
    binding stays, and an unexpired one goes only to make room, after all that were seen before it.
   */
  lemma EvictionsAreFair(tables: seq<Table>, turns: seq<Turn>, i: nat, k: string)
    requires IsRun(tables, turns) && NonEmptyKeys(turns) && i < |turns|
    requires k in tables[i] && k !in tables[i + 1]
    ensures var t, after := turns[i], tables[i + 1];
      && k != t.key && t.key in after && (t.key !in tables[i] || Expired(tables[i][t.key], t.now))
      && |tables[i]| >= 8192
      && (forall j :: j in after && j != t.key ==> j in tables[i] && after[j] == tables[i][j] && !Expired(after[j], t.now))
      && (!Expired(tables[i][k], t.now) ==>
           |after| == 8192 && forall j :: j in after && j != t.key ==> tables[i][k].seen <= after[j].seen)
  {
    var t, after := turns[i], tables[i + 1];
    assert TurnStep(tables[i], t, after);
    TurnBinds(tables[i], t, after);
    NoEmptyKey(tables, turns, i);
    LookedIsNoLarger(tables[i], t.key, t.now);
    assert |after.Keys - {t.key}| == |after.Keys| - 1;
    assert (after - {t.key}).Keys == after.Keys - {t.key};
    assert |after - {t.key}| == |(after - {t.key}).Keys| && |after| == |after.Keys|;
  }

  /** A binding carries the time of some turn of its session. */
  lemma {:induction false} SeenByTurn(tables: seq<Table>, turns: seq<Turn>, m: nat, key: string) returns (n: nat)
    requires IsRun(tables, turns) && m <= |turns| && key in tables[m]
    ensures n < m && turns[n].key == key && turns[n].now == tables[m][key].seen
  {
    assert TurnStep(tables[m - 1], turns[m - 1], tables[m]);
    if turns[m - 1].key == key {
      TurnBinds(tables[m - 1], turns[m - 1], tables[m]);
      n := m - 1;
    } else {
      n := SeenByTurn(tables, turns, m - 1, key);
    }
  }

  /** time.Now never runs backwards. */
  predicate Monotone(turns: seq<Turn>) { forall i, j :: 0 <= i < j < |turns| ==> turns[i].now <= turns[j].now }

  /** The other sessions that took a turn at or after a given time. */
  function Rivals(turns: seq<Turn>, key: string, since: int): set<string> {
    set m | 0 <= m < |turns| && turns[m].now >= since && turns[m].key != key :: turns[m].key
  }

  /** A binding stays while it is unexpired and fewer other sessions than the table holds have been active since. */
  lemma {:induction false} BindingIsKept(tables: seq<Table>, turns: seq<Turn>, i: nat, j: nat)
    requires IsRun(tables, turns) && NonEmptyKeys(turns) && Monotone(turns) && i < j < |turns|
    requires forall m :: i < m < j ==> turns[m].key != turns[i].key
    requires turns[j].now - turns[i].now <= 1_800_000_000_000
    requires |Rivals(turns[..j], turns[i].key, turns[i].now)| < 8192
    ensures turns[i].key in tables[j] && tables[j][turns[i].key] == Binding(turns[i].chosen, turns[i].now)
    decreases j
  {
    hide TurnStep, Expired;
    var key, now := turns[i].key, turns[i].now;
    assert TurnStep(tables[i], turns[i], tables[i + 1]);
    TurnBinds(tables[i], turns[i], tables[i + 1]);
    if i + 1 < j {
      FewerRivals(turns, j - 1, j, key, now);
      BindingIsKept(tables, turns, i, j - 1);
      StepKeeps(tables, turns, i, j - 1);
    }
  }

  lemma FewerRivals(turns: seq<Turn>, m: nat, n: nat, key: string, since: int)
    requires m <= n <= |turns|
    ensures Rivals(turns[..m], key, since) <= Rivals(turns[..n], key, since)
    ensures |Rivals(turns[..m], key, since)| <= |Rivals(turns[..n], key, since)|
  {
    var few, many := Rivals(turns[..m], key, since), Rivals(turns[..n], key, since);
    forall k | k in few ensures k in many {
      var x :| 0 <= x < m && turns[..m][x].now >= since && turns[..m][x].key != key && turns[..m][x].key == k;
      assert turns[..n][x] == turns[..m][x];
    }
    SubsetSize(few, many);
  }

  lemma StepKeeps(tables: seq<Table>, turns: seq<Turn>, i: nat, m: nat)
    requires IsRun(tables, turns) && NonEmptyKeys(turns) && Monotone(turns) && i < m < |turns| - 1
    requires turns[m].key != turns[i].key && turns[m + 1].now - turns[i].now <= TTL
    requires |Rivals(turns[..m + 1], turns[i].key, turns[i].now)| < MAX_ENTRIES
    requires turns[i].key in tables[m] && tables[m][turns[i].key] == Binding(turns[i].chosen, turns[i].now)
    ensures turns[i].key in tables[m + 1]
    ensures tables[m + 1][turns[i].key] == Binding(turns[i].chosen, turns[i].now)
  {
    var key := turns[i].key;
    if key !in tables[m + 1] {
      EvictionsAreFair(tables, turns, m, key);
      assert turns[m].now <= turns[m + 1].now;
      FullOfRivals(tables, turns, i, m, tables[m + 1]);
    } else {
      assert TurnStep(tables[m], turns[m], tables[m + 1]);
      OthersKeepBinding(tables, turns, key, m, m + 1);
    }
  }

  /** A table whose bindings were all seen since a turn is no larger than the rivals of that turn are many. */
  lemma FullOfRivals(tables: seq<Table>, turns: seq<Turn>, i: nat, m: nat, after: Table)
    requires IsRun(tables, turns) && Monotone(turns) && i < m < |turns| && after == tables[m + 1]
    requires turns[i].key !in after
    requires forall j :: j in after && j != turns[m].key ==> turns[i].now <= after[j].seen
    ensures |after| <= |Rivals(turns[..m + 1], turns[i].key, turns[i].now)|
  {
    var rivals := Rivals(turns[..m + 1], turns[i].key, turns[i].now);
    forall k | k in after ensures k in rivals {
      var n := SeenByTurn(tables, turns, m + 1, k);
      if k == turns[m].key { n := m; }
      assert turns[..m + 1][n] == turns[n];
    }
    SubsetSize(after.Keys, rivals);
    assert |after.Keys| == |after|;
  }

  /**
    A session whose next turn comes at most thirty minutes later keeps its account, provided
    the account is still in the pool and the binding has not been evicted meanwhile.
   */
  lemma SessionKeepsAccount(tables: seq<Table>, turns: seq<Turn>, i: nat, j: nat)
    requires IsRun(tables, turns) && i < j < |turns|
    requires turns[i].key == turns[j].key
    requires forall m :: i < m < j ==> turns[m].key != turns[i].key
    requires turns[j].now - turns[i].now <= 1_800_000_000_000
    requires turns[i].chosen in turns[j].pool
    requires turns[j].key in tables[j]
    ensures turns[j].chosen == turns[i].chosen
  {
    assert TurnStep(tables[i], turns[i], tables[i + 1]) && TurnStep(tables[j], turns[j], tables[j + 1]);
    TurnBinds(tables[i], turns[i], tables[i + 1]);
    OthersKeepBinding(tables, turns, turns[i].key, i + 1, j);
  }

  /**
    The same from what callers can see: with a clock that never runs backwards, the session keeps its
    account if that is still in the pool and fewer than 8192 other sessions were active since its turn.
   */
  lemma ActiveSessionKeepsAccount(tables: seq<Table>, turns: seq<Turn>, i: nat, j: nat)
    requires IsRun(tables, turns) && NonEmptyKeys(turns) && Monotone(turns) && i < j < |turns|
    requires turns[i].key == turns[j].key
    requires forall m :: i < m < j ==> turns[m].key != turns[i].key
    requires turns[j].now - turns[i].now <= 1_800_000_000_000
    requires turns[i].chosen in turns[j].pool
    requires |Rivals(turns[..j], turns[i].key, turns[i].now)| < 8192
    ensures turns[j].chosen == turns[i].chosen
  {
    BindingIsKept(tables, turns, i, j);
    SessionKeepsAccount(tables, turns, i, j);
  }

  /** A session that stays away for more than thirty minutes finds no binding any more. */
  lemma StaleBindingIsForgotten(tables: seq<Table>, turns: seq<Turn>, i: nat, j: nat)
    requires IsRun(tables, turns) && i < j < |turns|
    requires turns[i].key == turns[j].key
    requires forall m :: i < m < j ==> turns[m].key != turns[i].key
    requires turns[j].now - turns[i].now > 1_800_000_000_000
    ensures Looked(tables[j], turns[j].key, turns[j].now) == (tables[j] - {turns[j].key}, None)
  {
    var key := turns[j].key;
    if key in tables[j] {
      assert TurnStep(tables[i], turns[i], tables[i + 1]);
      TurnBinds(tables[i], turns[i], tables[i + 1]);
      OthersKeepBinding(tables, turns, key, i + 1, j);
    } else {
      assert tables[j] - {key} == tables[j];
    }
  }
}
