/**
  Round-robin: the per-tier account rotator (internal/provider/rotation.go) and the
  round-robin branch of GetRotatedModels (internal/provider/combo.go).
 */
module Rotation {
  // ---------------------------------------------------------------- accounts

  function PositionOf(position: map<string, nat>, key: string): nat {
    if key in position then position[key] else 0
  }

  function SlotAt(position: map<string, nat>, key: string, n: int): (slot: nat)
    ensures n > 0 ==> slot < n
  {
    if n <= 1 then 0 else PositionOf(position, key) % n
  }

  function Moved(position: map<string, nat>, key: string, n: int): map<string, nat> {
    if n <= 1 then position else position[key := PositionOf(position, key) + 1]
  }

  class CredentialRotator {
    var position: map<string, nat>

    constructor ()
      ensures position == map[]
    {
      position := map[];
    }

    /** Next takes no slot from the rotation when there is no choice. */
    method Next(key: string, n: int) returns (slot: nat)
      modifies this
      ensures n > 0 ==> slot < n
      ensures slot == SlotAt(old(position), key, n) && position == Moved(old(position), key, n)
    {
      if n <= 1 {
        return 0;
      }
      slot := PositionOf(position, key) % n;
      position := position[key := PositionOf(position, key) + 1];
    }
  }

  datatype Call = Call(key: string, n: nat)

  function After(position: map<string, nat>, calls: seq<Call>): map<string, nat> {
    if calls == [] then position
    else
      var before, last := After(position, calls[..|calls| - 1]), calls[|calls| - 1];
      Moved(before, last.key, last.n)
  }

  /** The slots handed out for one key, in order, whatever other keys do in between. */
  function SlotsOf(position: map<string, nat>, calls: seq<Call>, key: string): seq<nat> {
    if calls == [] then []
    else
      var front, last := calls[..|calls| - 1], calls[|calls| - 1];
      var rest := SlotsOf(position, front, key);
      if last.key != key then rest
      else rest + [SlotAt(After(position, front), key, last.n)]
  }

  predicate SizeIs(calls: seq<Call>, key: string, n: nat) {
    forall i :: 0 <= i < |calls| && calls[i].key == key ==> calls[i].n == n
  }

  lemma {:induction false} SlotsAreCyclic(position: map<string, nat>, calls: seq<Call>, key: string, n: nat)
    requires SizeIs(calls, key, n) && n > 1
    ensures PositionOf(After(position, calls), key)
         == PositionOf(position, key) + |SlotsOf(position, calls, key)|
    ensures forall i :: 0 <= i < |SlotsOf(position, calls, key)| ==>
      SlotsOf(position, calls, key)[i] == (PositionOf(position, key) + i) % n
  {
    if calls != [] { SlotsAreCyclic(position, calls[..|calls| - 1], key, n); }
  }

  /** Where in a window of n consecutive positions a slot comes up. */
  function TurnOf(start: nat, n: nat, slot: nat): (k: nat)
    requires slot < n
    ensures k < n && (start + k) % n == slot
  {
    var r := start % n;
    ModOfSum(start, n, if slot >= r then slot - r else slot + n - r);
    if slot >= r then slot - r else slot + n - r
  }

  lemma ModOfSum(a: nat, n: nat, k: nat)
    requires n > 0 && k < n
    ensures (a + k) % n == if a % n + k < n then a % n + k else a % n + k - n
  {
    var q, r := a / n, a % n;
    assert a == q * n + r;
    if r + k < n {
      ModUnique(a + k, n, q, r + k);
    } else {
      assert (q + 1) * n == q * n + n;
      ModUnique(a + k, n, q + 1, r + k - n);
    }
  }

  lemma ModUnique(a: nat, n: nat, q: nat, r: nat)
    requires r < n && a == q * n + r
    ensures a % n == r
  {
    var d := a / n - q;
    assert a % n - r == -d * n;
    NoSmallMultiple(d, n, r - a % n);
  }

  lemma NoSmallMultiple(d: int, n: int, x: int)
    requires x == d * n && n > 0
    ensures d == 0 || x <= -n || x >= n
  {
    if d > 0 { assert d * n >= n; } else if d < 0 { assert d * n <= -n; }
  }

  /** Any n consecutive turns of a key give each slot exactly once. */
  lemma RotationIsFair(position: map<string, nat>, calls: seq<Call>, key: string, n: nat, from: nat, slot: nat)
    requires SizeIs(calls, key, n) && n > 1 && slot < n
    requires from + n <= |SlotsOf(position, calls, key)|
    ensures exists k :: from <= k < from + n && SlotsOf(position, calls, key)[k] == slot
    ensures forall k, l :: from <= k < l < from + n ==>
      SlotsOf(position, calls, key)[k] != SlotsOf(position, calls, key)[l]
  {
    hide SlotsOf, After;
    SlotsAreCyclic(position, calls, key, n);
    var slots, p := SlotsOf(position, calls, key), PositionOf(position, key);
    var turn := TurnOf(p + from, n, slot);
    assert slots[from + turn] == (p + (from + turn)) % n;
    forall k, l | from <= k < l < from + n ensures slots[k] != slots[l] {
      TurnsDiffer(p + k, n, l - k);
      assert p + l == p + k + (l - k);
    }
  }

  lemma TurnsDiffer(a: nat, n: nat, gap: nat)
    requires 0 < gap < n
    ensures a % n != (a + gap) % n
  {
    ModOfSum(a, n, gap);
  }

  // ---------------------------------------------------------------- combo models

  /** The rotation state of one combo. */
  datatype Turn = Turn(index: nat, uses: int)

  function Rotated<T>(models: seq<T>, index: nat): seq<T>
    requires index <= |models|
  {
    models[index..] + models[..index]
  }

  /** rotateFromIndex copies the two halves into a fresh slice. */
  method RotateFromIndex(models: seq<string>, index: int) returns (r: seq<string>)
    ensures r == if 0 <= index <= |models| then Rotated(models, index) else models
  {
    if index <= 0 || index >= |models| {
      return models;
    }
    var rotated := new string[|models|](_ => "");
    forall i | 0 <= i < |models| - index { rotated[i] := models[index + i]; }
    forall i | 0 <= i < index { rotated[|models| - index + i] := models[i]; }
    r := rotated[..];
  }

  function Limit(stickyLimit: int): int { if stickyLimit <= 0 then 1 else stickyLimit }

  function TurnAt(rotation: map<string, Turn>, key: string): Turn {
    if key in rotation then rotation[key] else Turn(0, 0)
  }

  /** The state after one round-robin call over n models. */
  function Advance(t: Turn, n: nat, stickyLimit: int): Turn
    requires n > 0
  {
    var current := t.index % n;
    if t.uses + 1 >= Limit(stickyLimit) then Turn((current + 1) % n, 0) else Turn(current, t.uses + 1)
  }

  class ComboManager {
    var rotation: map<string, Turn>

    constructor ()
      ensures rotation == map[]
    {
      rotation := map[];
    }

    method GetRoundRobinModels(models: seq<string>, comboName: string, stickyLimit: int)
      returns (r: seq<string>)
      modifies this
      ensures |models| <= 1 ==> r == models && rotation == old(rotation)
      ensures |models| > 1 ==>
        var key, n := if comboName == "" then "__default__" else comboName, |models|;
        var t := TurnAt(old(rotation), key);
        && r == Rotated(models, t.index % n)
        && rotation == old(rotation)[key := Advance(t, n, stickyLimit)]
    {
      if |models| <= 1 {
        return models;
      }
      var limit := if stickyLimit <= 0 then 1 else stickyLimit;
      var key := if comboName == "" then "__default__" else comboName;
      var state := TurnAt(rotation, key);
      var currentIndex := state.index % |models|;
      state := Turn(currentIndex, state.uses + 1);
      if state.uses >= limit {
        state := Turn((currentIndex + 1) % |models|, 0);
      }
      rotation := rotation[key := state];
      r := RotateFromIndex(models, currentIndex);
    }
  }

  /** The state of a combo after k calls from a fresh start, all over n models. */
  function TurnAfter(n: nat, stickyLimit: int, k: nat): Turn
    requires n > 0
  {
    if k == 0 then Turn(0, 0) else Advance(TurnAfter(n, stickyLimit, k - 1), n, stickyLimit)
  }

  lemma {:induction false} TurnsFollowDivision(n: nat, stickyLimit: int, k: nat)
    requires n > 1
    ensures var limit := if stickyLimit > 0 then stickyLimit else 1;
      TurnAfter(n, stickyLimit, k) == Turn((k / limit) % n, k % limit)
  {
    var limit := Limit(stickyLimit);
    if k > 0 {
      TurnsFollowDivision(n, stickyLimit, k - 1);
      DivStep(k - 1, limit);
      SuccMod((k - 1) / limit, n);
    }
  }

  lemma DivStep(k: nat, limit: nat)
    requires limit > 0
    ensures if k % limit + 1 >= limit
            then (k + 1) / limit == k / limit + 1 && (k + 1) % limit == 0
            else (k + 1) / limit == k / limit && (k + 1) % limit == k % limit + 1
  {
    var q, r := k / limit, k % limit;
    assert k == q * limit + r;
    if r + 1 >= limit {
      assert (q + 1) * limit == q * limit + limit;
      DivUnique(k + 1, limit, q + 1, 0);
    } else {
      DivUnique(k + 1, limit, q, r + 1);
    }
  }

  lemma DivUnique(a: nat, n: nat, q: nat, r: nat)
    requires r < n && a == q * n + r
    ensures a % n == r && a / n == q
  {
    ModUnique(a, n, q, r);
    assert (a / n - q) * n == 0;
    NoSmallMultiple(a / n - q, n, 0);
  }

  lemma SuccMod(q: nat, n: nat)
    requires n > 1
    ensures (q % n) % n == q % n && (q % n + 1) % n == (q + 1) % n
  {
    ModOfSum(q, n, 1);
    ModUnique(q % n, n, 0, q % n);
    if q % n + 1 < n { ModUnique(q % n + 1, n, 0, q % n + 1); } else { ModUnique(n, n, 1, 0); }
  }

  /** The model a call puts first: each stays for stickyLimit consecutive calls, in turn. */
  lemma FirstModelOfCall(models: seq<string>, stickyLimit: int, k: nat)
    requires |models| > 1
    ensures var n := |models|;
      var turn := (k / (if stickyLimit > 0 then stickyLimit else 1)) % n;
      TurnAfter(n, stickyLimit, k).index % n == turn && Rotated(models, turn)[0] == models[turn]
  {
    TurnsFollowDivision(|models|, stickyLimit, k);
    SuccMod(k / Limit(stickyLimit), |models|);
  }

  /** Over n times limit calls from a fresh start the calls of model m are one block. */
  lemma EachModelLeadsEquallyOften(models: seq<string>, stickyLimit: int, limit: nat, m: nat, k: nat)
    requires limit == if stickyLimit > 0 then stickyLimit else 1
    requires |models| > 1 && m < |models| && k < |models| * limit
    requires forall i, j :: 0 <= i < j < |models| ==> models[i] != models[j]
    ensures var t := TurnAfter(|models|, stickyLimit, k);
      Rotated(models, t.index % |models|)[0] == models[m] <==> m * limit <= k < (m + 1) * limit
  {
    hide TurnAfter, Rotated;
    FirstModelOfCall(models, stickyLimit, k);
    BlockOfCall(k, limit, |models|, m);
  }

  lemma BlockOfCall(k: nat, limit: nat, n: nat, m: nat)
    requires limit > 0 && k < n * limit
    ensures (k / limit) % n < n
    ensures (k / limit) % n == m <==> m * limit <= k < (m + 1) * limit
  {
    var q, r := k / limit, k % limit;
    assert k == q * limit + r;
    QuotientBelow(k, limit, n);
    ModUnique(q, n, 0, q);
    BlockOf(q, r, limit, m);
  }

  lemma QuotientBelow(k: nat, limit: nat, n: nat)
    requires limit > 0 && k < n * limit
    ensures k / limit < n
  {
    if k / limit >= n { Scale(n, k / limit, limit); }
  }

  lemma Scale(a: nat, b: nat, c: nat)
    requires a <= b
    ensures a * c <= b * c
  {
  }

  lemma BlockOf(q: nat, r: nat, limit: nat, m: nat)
    requires r < limit
    ensures q == m <==> m * limit <= q * limit + r < (m + 1) * limit
  {
    assert (m + 1) * limit == m * limit + limit;
    if q < m { Scale(q + 1, m, limit); assert (q + 1) * limit == q * limit + limit; }
    if q > m { Scale(m + 1, q, limit); }
  }

  /** Nothing is dropped or repeated: the returned list is the input, rotated. */
  lemma RotationKeepsModels(models: seq<string>, index: nat)
    requires index <= |models|
    ensures multiset(Rotated(models, index)) == multiset(models)
    ensures forall i :: 0 <= i < |models| ==>
      Rotated(models, index)[i] == models[if index + i < |models| then index + i else index + i - |models|]
  {
    assert models == models[..index] + models[index..];
  }
}
