/** What a response cache serves: the single operations entry by entry, and which lookups of a trace hit. */
module CacheServing {
  import opened Wrappers
  import opened CacheModel
  import opened CacheTraces

  /** i is where the key stands. */
  predicate StandsFor(s: seq<Entry>, key: string, i: nat) {
    i < |s| && s[i].key == key && forall j :: 0 <= j < |s| && j != i ==> s[j].key != key
  }

  predicate Absent(s: seq<Entry>, key: string) { forall j :: 0 <= j < |s| ==> s[j].key != key }

  lemma FindStands(s: seq<Entry>, key: string, i: nat)
    requires StandsFor(s, key, i)
    ensures Find(s, key) == i
  {
    if Find(s, key) < i { assert s[Find(s, key)].key == key; }
  }

  /** Up to its expiry an entry is served, counted and moved to the front; later it is dropped. */
  lemma LookupServes(s: seq<Entry>, key: string, now: int, i: nat)
    requires StandsFor(s, key, i)
    ensures var (s', r) := Got(s, key, now);
      if now <= s[i].expiresAt
      then r.Some? && s' == [r.value] + s[..i] + s[i + 1..] && r.value == s[i].(hits := s[i].hits + 1)
      else r.None? && s' == s[..i] + s[i + 1..]
  {
    FindStands(s, key, i);
    if now <= s[i].expiresAt {
      assert [s[i].(hits := s[i].hits + 1)] + (s[..i] + s[i + 1..])
          == [s[i].(hits := s[i].hits + 1)] + s[..i] + s[i + 1..];
    }
  }

  lemma LookupMisses(s: seq<Entry>, key: string, now: int)
    requires Absent(s, key)
    ensures Got(s, key, now) == (s, None)
  {
  }

  /** e holds the response under the key from now on for the given lifetime. */
  predicate Holds(e: Entry, key: string, r: Response, now: int, ttl: int) {
    && e.key == key && e.statusCode == r.statusCode && e.headers == r.headers && e.body == r.body
    && e.servedModel == r.servedModel && e.tokensSaved == r.tokensSaved && e.expiresAt == now + ttl
  }

  /** A body over 2 MiB is not stored; a known key keeps its creation time and hit count. */
  lemma StoreHolds(s: seq<Entry>, capacity: int, key: string, r: Response, now: int, ttl: int)
    requires capacity > 0 && |s| <= capacity
    ensures var s' := Put(s, capacity, key, r, now, ttl);
      && (|r.body| > 2_097_152 ==> s' == s)
      && (|r.body| <= 2_097_152 ==> s' != [] && Holds(s'[0], key, r, now, ttl))
      && (|r.body| <= 2_097_152 && Absent(s, key) ==>
            s'[0].createdAt == now && s'[0].hits == 0 && s'[1..] == if |s| < capacity then s else s[..|s| - 1])
      && forall i: nat :: |r.body| <= 2_097_152 && StandsFor(s, key, i) ==>
           s'[0].createdAt == s[i].createdAt && s'[0].hits == s[i].hits && s'[1..] == s[..i] + s[i + 1..]
  {
    forall i: nat | StandsFor(s, key, i) ensures Find(s, key) == i { FindStands(s, key, i); }
  }

  lemma DeleteDrops(s: seq<Entry>, key: string)
    ensures Absent(s, key) ==> Deleted(s, key) == s
    ensures forall i: nat :: StandsFor(s, key, i) ==> Deleted(s, key) == s[..i] + s[i + 1..]
  {
    forall i: nat | StandsFor(s, key, i) ensures Find(s, key) == i { FindStands(s, key, i); }
  }

  // ---------------------------------------------------------------- traces

  /**
    After a use, as long as nothing deletes or looks up the key or clears the cache and fewer other keys
    than the capacity are looked up or stored, a lookup is a hit exactly until the expiry of the last Set.
   */
  lemma RetainedIsServed(capacity: int, defaultTTL: int, ops: seq<Op>, since: seq<Op>, key: string, now: int)
    requires capacity > 0
    requires Run(capacity, defaultTTL, ops) != [] && Run(capacity, defaultTTL, ops)[0].key == key
    requires forall i :: 0 <= i < |since| ==> Spares(since[i], key)
    requires |AllTouched(since)| < capacity
    ensures var got, last := Got(Run(capacity, defaultTTL, ops + since), key, now).1, LastSet(defaultTTL, ops, key);
      && last.Some? && (got.Some? <==> now <= last.value.expiresAt)
      && (got.Some? ==> Same(got.value, last.value))
  {
    hide Step, Same;
    var p := RecentKeyIsRetained(capacity, defaultTTL, ops, since, key);
    EntriesAreLastSets(capacity, defaultTTL, ops + since);
    LastSetSpared(defaultTTL, ops, since, key);
    var s := Run(capacity, defaultTTL, ops + since);
    FindIs(s, key, p);
    SameSpan(s[p], LastSet(defaultTTL, ops, key).value);
  }

  lemma SameSpan(a: Entry, b: Entry)
    requires Same(a, b)
    ensures a.expiresAt == b.expiresAt && Same(a.(hits := a.hits + 1), b)
  {
  }

  lemma {:induction false} LastSetSpared(defaultTTL: int, ops: seq<Op>, since: seq<Op>, key: string)
    requires forall i :: 0 <= i < |since| ==> Spares(since[i], key)
    ensures LastSet(defaultTTL, ops + since, key) == LastSet(defaultTTL, ops, key)
  {
    if since == [] {
      assert ops + since == ops;
    } else {
      assert (ops + since)[..|ops + since| - 1] == ops + since[..|since| - 1];
      LastSetSpared(defaultTTL, ops, since[..|since| - 1], key);
    }
  }

  /** The other keys that a stretch of operations looks up or stores. */
  function KeysUsed(since: seq<Op>): set<string> {
    set i | 0 <= i < |since| && (since[i].Get? || since[i].Set?) :: since[i].key
  }

  lemma {:induction false} TouchedIsUsed(since: seq<Op>)
    ensures AllTouched(since) == KeysUsed(since)
  {
    if since != [] {
      var front, last := since[..|since| - 1], since[|since| - 1];
      TouchedIsUsed(front);
      forall k | k in KeysUsed(front) + Touched(last) ensures k in KeysUsed(since) {
        if k in KeysUsed(front) {
          var i :| 0 <= i < |front| && (front[i].Get? || front[i].Set?) && front[i].key == k;
          assert since[i] == front[i];
        } else {
          assert since[|since| - 1].key == k;
        }
      }
      forall k | k in KeysUsed(since) ensures k in KeysUsed(front) + Touched(last) {
        var i :| 0 <= i < |since| && (since[i].Get? || since[i].Set?) && since[i].key == k;
        if i < |front| { assert front[i] == since[i]; }
      }
    }
  }

  /**
    A response of at most 2 MiB is served to a lookup exactly as long as its lifetime lasts, the default
    one if none is asked for, while fewer other keys than the capacity have been looked up or stored since.
   */
  lemma StoredIsServed(capacity: int, defaultTTL: int, before: seq<Op>, key: string, r: Response, ttl: int, stored: int,
                       since: seq<Op>, now: int)
    requires capacity > 0 && |r.body| <= 2_097_152
    requires forall i :: 0 <= i < |since| ==> !since[i].Clear? && since[i].key != key
    requires |KeysUsed(since)| < capacity
    ensures var got := Got(Run(capacity, defaultTTL, before + [Set(key, r, ttl, stored)] + since), key, now).1;
      var lifetime := if ttl > 0 then ttl else defaultTTL;
      && (got.Some? <==> now <= stored + lifetime)
      && (got.Some? ==> Holds(got.value, key, r, stored, lifetime))
  {
    hide Got;
    var ops := before + [Set(key, r, ttl, stored)];
    assert ops[..|ops| - 1] == before;
    UseComesFirst(capacity, defaultTTL, before, Set(key, r, ttl, stored));
    TouchedIsUsed(since);
    RetainedIsServed(capacity, defaultTTL, ops, since, key, now);
  }

  /** A hit counts as a use, so that the key stays for another such stretch, but it does not prolong the lifetime. */
  lemma HitRenewsPlaceOnly(capacity: int, defaultTTL: int, ops: seq<Op>, key: string, hit: int, since: seq<Op>, now: int)
    requires capacity > 0 && Got(Run(capacity, defaultTTL, ops), key, hit).1.Some?
    requires forall i :: 0 <= i < |since| ==> !since[i].Clear? && since[i].key != key
    requires |KeysUsed(since)| < capacity
    ensures var first := Got(Run(capacity, defaultTTL, ops), key, hit).1.value;
      var got := Got(Run(capacity, defaultTTL, ops + [Get(key, hit)] + since), key, now).1;
      && (got.Some? <==> now <= first.expiresAt)
      && (got.Some? ==> Same(got.value, first))
  {
    var use := ops + [Get(key, hit)];
    assert use[..|use| - 1] == ops;
    UseComesFirst(capacity, defaultTTL, ops, Get(key, hit));
    TouchedIsUsed(since);
    HitIsLastUnexpiredSet(capacity, defaultTTL, ops, key, hit);
    RetainedIsServed(capacity, defaultTTL, use, since, key, now);
  }
}
