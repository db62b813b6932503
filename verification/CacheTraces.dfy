/** Whole traces of cache operations: inclusion between capacities, recency, freshness. */
module CacheTraces {
  import opened Wrappers
  import opened CacheModel

  datatype Op =
    | Get(key: string, now: int)
    | Set(key: string, response: Response, ttl: int, now: int)
    | Delete(key: string)
    | Clear

  function Step(s: seq<Entry>, capacity: int, defaultTTL: int, op: Op): seq<Entry>
    requires capacity > 0
  {
    match op
    case Get(key, now) => Got(s, key, now).0
    case Set(key, response, ttl, now) => Put(s, capacity, key, response, now, Effective(ttl, defaultTTL))
    case Delete(key) => Deleted(s, key)
    case Clear => []
  }

  function Run(capacity: int, defaultTTL: int, ops: seq<Op>): seq<Entry>
    requires capacity > 0
  {
    if ops == [] then []
    else Step(Run(capacity, defaultTTL, ops[..|ops| - 1]), capacity, defaultTTL, ops[|ops| - 1])
  }

  // ---------------------------------------------------------------- inclusion

  /** Equal but for the hit count and creation time, which depend on how long an entry stayed. */
  predicate Same(a: Entry, b: Entry) {
    a.(createdAt := 0, hits := 0) == b.(createdAt := 0, hits := 0)
  }

  /** The smaller cache, in order, is a subsequence of the larger one. */
  predicate Within(s: seq<Entry>, l: seq<Entry>) {
    if s == [] then true
    else if l == [] then false
    else if s[0].key == l[0].key then Same(s[0], l[0]) && Within(s[1..], l[1..])
    else Within(s, l[1..])
  }

  lemma DistinctTail(s: seq<Entry>)
    requires Distinct(s) && s != []
    ensures Distinct(s[1..]) && Find(s[1..], s[0].key) == |s| - 1
  {
    forall i | 0 <= i < |s| - 1 ensures s[1..][i].key != s[0].key {
      assert s[1..][i] == s[i + 1];
    }
  }

  lemma {:induction false} WithinFinds(s: seq<Entry>, l: seq<Entry>, key: string)
    requires Within(s, l) && Distinct(l) && Find(s, key) < |s|
    ensures Find(l, key) < |l| && Same(s[Find(s, key)], l[Find(l, key)])
    decreases |l|
  {
    DistinctTail(l);
    if s[0].key == l[0].key {
      if s[0].key != key { WithinFinds(s[1..], l[1..], key); }
    } else {
      WithinFinds(s, l[1..], key);
    }
  }

  lemma {:induction false} DeletedTail(s: seq<Entry>, key: string)
    requires s != [] && s[0].key != key
    ensures Deleted(s, key) == [s[0]] + Deleted(s[1..], key)
    ensures Find(s, key) < |s| <==> Find(s[1..], key) < |s| - 1
  {
    assert Find(s, key) == 1 + Find(s[1..], key);
  }

  /** Dropping a key from both caches, whichever of them holds it. */
  lemma {:induction false} WithinDeleted(s: seq<Entry>, l: seq<Entry>, key: string)
    requires Within(s, l) && Distinct(s) && Distinct(l)
    ensures Within(Deleted(s, key), Deleted(l, key))
    decreases |l|
  {
    if s != [] {
      DistinctTail(l);
      DistinctTail(s);
      if s[0].key == l[0].key {
        if s[0].key == key {
          assert Deleted(s, key) == s[1..] && Deleted(l, key) == l[1..];
        } else {
          DeletedTail(s, key);
          DeletedTail(l, key);
          WithinDeleted(s[1..], l[1..], key);
          WithinBothFront(s[0], l[0], Deleted(s[1..], key), Deleted(l[1..], key));
        }
      } else {
        if Find(s, l[0].key) < |s| { WithinFinds(s, l[1..], l[0].key); }
        if l[0].key == key {
          assert Deleted(l, key) == l[1..] && Deleted(s, key) == s;
        } else {
          DeletedTail(l, key);
          WithinDeleted(s, l[1..], key);
          DeletedKeepsOut(s, key, l[0].key);
          WithinLargerFront(l[0], Deleted(s, key), Deleted(l[1..], key));
        }
      }
    }
  }

  lemma DeletedKeepsOut(s: seq<Entry>, key: string, other: string)
    requires Find(s, other) == |s|
    ensures Find(Deleted(s, key), other) == |Deleted(s, key)|
  {
    var d, k := Deleted(s, key), Find(s, key);
    forall i | 0 <= i < |d| ensures d[i].key != other {
      assert d[i] == s[if i < k then i else i + 1];
    }
  }

  lemma WithinBothFront(a: Entry, b: Entry, s: seq<Entry>, l: seq<Entry>)
    requires Within(s, l) && Same(a, b)
    ensures Within([a] + s, [b] + l)
  {
    assert ([a] + s)[1..] == s && ([b] + l)[1..] == l;
  }

  lemma WithinLargerFront(b: Entry, s: seq<Entry>, l: seq<Entry>)
    requires Within(s, l) && Find(s, b.key) == |s|
    ensures Within(s, [b] + l)
  {
    assert ([b] + l)[1..] == l;
  }

  /** Dropping the oldest entry of the smaller cache, or of both. */
  lemma {:induction false} WithinTrimmed(s: seq<Entry>, l: seq<Entry>)
    requires Within(s, l) && s != []
    ensures l != [] && Within(s[..|s| - 1], l) && Within(s[..|s| - 1], l[..|l| - 1])
    decreases |l|
  {
    if s[0].key == l[0].key {
      if |s| > 1 {
        WithinTrimmed(s[1..], l[1..]);
        assert s[1..][..|s| - 2] == s[..|s| - 1][1..];
        assert l[1..][..|l| - 2] == l[..|l| - 1][1..];
      }
    } else {
      WithinTrimmed(s, l[1..]);
      assert l[1..][..|l| - 2] == l[..|l| - 1][1..];
    }
  }

  /**
    The invariant: besides inclusion, the larger cache has at least as much free room, so it
    is full only when the smaller one is.
   */
  ghost predicate Included(s: seq<Entry>, l: seq<Entry>, m: int, M: int) {
    && Distinct(s) && Distinct(l) && |s| <= m && |l| <= M && m <= M
    && Within(s, l)
    && m - |s| <= M - |l|
  }

  lemma DistinctDeleted(s: seq<Entry>, key: string)
    requires Distinct(s)
    ensures Distinct(Deleted(s, key)) && Find(Deleted(s, key), key) == |Deleted(s, key)|
  {
    var i, d := Find(s, key), Deleted(s, key);
    if i < |s| {
      KeysWithout(s, i);
      FindInKeys(d, key);
    }
  }

  lemma DistinctFront(e: Entry, s: seq<Entry>)
    requires Distinct(s) && Find(s, e.key) == |s|
    ensures Distinct([e] + s)
  {
    FindInKeys(s, e.key);
    KeysFront(s, e);
  }

  lemma GetKeepsInclusion(s: seq<Entry>, l: seq<Entry>, m: int, M: int, key: string, now: int)
    requires Included(s, l, m, M)
    ensures Included(Got(s, key, now).0, Got(l, key, now).0, m, M)
    ensures Got(s, key, now).1.Some? ==>
      Got(l, key, now).1.Some? && Same(Got(s, key, now).1.value, Got(l, key, now).1.value)
  {
    hide Within, Distinct, Find;
    var i, j := Find(s, key), Find(l, key);
    if i < |s| { WithinFinds(s, l, key); }
    if j < |l| {
      WithinDeleted(s, l, key);
      DistinctDeleted(s, key);
      DistinctDeleted(l, key);
      var hit := l[j].(hits := l[j].hits + 1);
      if i < |s| {
        WithinBothFront(s[i].(hits := s[i].hits + 1), hit, Deleted(s, key), Deleted(l, key));
        DistinctFront(s[i].(hits := s[i].hits + 1), Deleted(s, key));
      } else {
        WithinLargerFront(hit, s, Deleted(l, key));
      }
      DistinctFront(hit, Deleted(l, key));
    }
  }

  lemma TrimKeeps(s: seq<Entry>, capacity: int, key: string)
    requires Distinct(s) && |s| <= capacity && capacity > 0 && Find(s, key) == |s|
    ensures Distinct(Trimmed(s, capacity)) && Find(Trimmed(s, capacity), key) == |Trimmed(s, capacity)|
  {
    var t := Trimmed(s, capacity);
    forall i | 0 <= i < |t| ensures t[i].key != key { assert t[i] == s[i]; }
  }

  /** What a Set leaves of the entries besides the one it stores. */
  function Rest(s: seq<Entry>, capacity: int, key: string): seq<Entry>
    requires capacity > 0
  {
    if Find(s, key) < |s| then Deleted(s, key) else Trimmed(s, capacity)
  }

  lemma PutIsFront(s: seq<Entry>, capacity: int, key: string, r: Response, now: int, ttl: int) returns (e: Entry)
    requires capacity > 0 && |r.body| <= MAX_ENTRY_BYTES
    ensures Put(s, capacity, key, r, now, ttl) == [e] + Rest(s, capacity, key)
    ensures e.key == key && Same(e, Stored(key, r, now, ttl))
  {
    hide Find;
    e := Put(s, capacity, key, r, now, ttl)[0];
  }

  lemma RestHasRoom(s: seq<Entry>, capacity: int, key: string)
    requires Distinct(s) && |s| <= capacity && capacity > 0
    ensures var rest := Rest(s, capacity, key);
      Distinct(rest) && Find(rest, key) == |rest| && |rest| < capacity
  {
    hide Distinct, Find;
    if Find(s, key) < |s| { DistinctDeleted(s, key); } else { TrimKeeps(s, capacity, key); }
  }

  lemma RestKeepsInclusion(s: seq<Entry>, l: seq<Entry>, m: int, M: int, key: string)
    requires Included(s, l, m, M) && 0 < m
    ensures Within(Rest(s, m, key), Rest(l, M, key))
    ensures m - |Rest(s, m, key)| <= M - |Rest(l, M, key)|
  {
    hide Within, Distinct, Find;
    WithinDeleted(s, l, key);
    if Find(s, key) < |s| {
      WithinFinds(s, l, key);
    } else if |s| >= m {
      WithinTrimmed(s, Deleted(l, key));
    }
  }

  lemma SetKeepsInclusion(s: seq<Entry>, l: seq<Entry>, m: int, M: int, key: string, r: Response, now: int, ttl: int)
    requires Included(s, l, m, M) && 0 < m
    ensures Included(Put(s, m, key, r, now, ttl), Put(l, M, key, r, now, ttl), m, M)
  {
    hide Within, Distinct, Find, Rest;
    if |r.body| <= MAX_ENTRY_BYTES {
      RestHasRoom(s, m, key);
      RestHasRoom(l, M, key);
      RestKeepsInclusion(s, l, m, M, key);
      hide Put;
      var a := PutIsFront(s, m, key, r, now, ttl);
      var b := PutIsFront(l, M, key, r, now, ttl);
      WithinBothFront(a, b, Rest(s, m, key), Rest(l, M, key));
      DistinctFront(a, Rest(s, m, key));
      DistinctFront(b, Rest(l, M, key));
    }
  }

  lemma StepKeepsInclusion(s: seq<Entry>, l: seq<Entry>, m: int, M: int, defaultTTL: int, op: Op)
    requires Included(s, l, m, M) && 0 < m
    ensures Included(Step(s, m, defaultTTL, op), Step(l, M, defaultTTL, op), m, M)
  {
    match op
    case Get(key, now) => GetKeepsInclusion(s, l, m, M, key, now);
    case Set(key, r, ttl, now) => SetKeepsInclusion(s, l, m, M, key, r, now, Effective(ttl, defaultTTL));
    case Delete(key) =>
      if Find(s, key) < |s| { WithinFinds(s, l, key); }
      WithinDeleted(s, l, key);
      DistinctDeleted(s, key);
      DistinctDeleted(l, key);
    case Clear =>
  }

  /** On every trace the smaller cache stays inside the larger one. */
  lemma {:induction false} SmallerIsIncluded(m: int, M: int, defaultTTL: int, ops: seq<Op>)
    requires 0 < m <= M
    ensures Included(Run(m, defaultTTL, ops), Run(M, defaultTTL, ops), m, M)
  {
    hide Included;
    if ops == [] {
      NothingIncluded(m, M);
    } else {
      SmallerIsIncluded(m, M, defaultTTL, ops[..|ops| - 1]);
      StepKeepsInclusion(Run(m, defaultTTL, ops[..|ops| - 1]), Run(M, defaultTTL, ops[..|ops| - 1]),
                         m, M, defaultTTL, ops[|ops| - 1]);
    }
  }

  lemma NothingIncluded(m: int, M: int)
    requires 0 < m <= M
    ensures Included([], [], m, M)
  {
  }

  /** Hence every hit of the smaller cache is a hit of the larger one, with the same response. */
  lemma HitsAreMonotone(m: int, M: int, defaultTTL: int, ops: seq<Op>, key: string, now: int)
    requires 0 < m <= M
    requires Got(Run(m, defaultTTL, ops), key, now).1.Some?
    ensures Got(Run(M, defaultTTL, ops), key, now).1.Some?
    ensures Same(Got(Run(m, defaultTTL, ops), key, now).1.value, Got(Run(M, defaultTTL, ops), key, now).1.value)
  {
    SmallerIsIncluded(m, M, defaultTTL, ops);
    GetKeepsInclusion(Run(m, defaultTTL, ops), Run(M, defaultTTL, ops), m, M, key, now);
  }

  // ---------------------------------------------------------------- recency

  /** A trace with a record of when each key was last stored or hit. */
  datatype Used = Used(entries: seq<Entry>, lastUse: map<string, nat>, clock: nat)

  predicate Uses(s: seq<Entry>, op: Op) {
    match op
    case Get(key, now) => Got(s, key, now).1.Some?
    case Set(key, r, ttl, now) => |r.body| <= MAX_ENTRY_BYTES
    case Delete(_) => false
    case Clear => false
  }

  function Observe(capacity: int, defaultTTL: int, ops: seq<Op>): Used
    requires capacity > 0
  {
    if ops == [] then Used([], map[], 0)
    else
      var before, op := Observe(capacity, defaultTTL, ops[..|ops| - 1]), ops[|ops| - 1];
      Used(Step(before.entries, capacity, defaultTTL, op),
           if Uses(before.entries, op) then before.lastUse[op.key := before.clock] else before.lastUse,
           before.clock + 1)
  }

  predicate ByRecency(u: Used) {
    && Distinct(u.entries)
    && (forall i :: 0 <= i < |u.entries| ==> u.entries[i].key in u.lastUse)
    && (forall i :: 0 <= i < |u.entries| ==> u.lastUse[u.entries[i].key] < u.clock)
    && (forall i, j :: 0 <= i < j < |u.entries| ==>
         u.lastUse[u.entries[i].key] > u.lastUse[u.entries[j].key])
  }

  lemma DeletedAt(s: seq<Entry>, key: string)
    ensures var d, k := Deleted(s, key), Find(s, key);
      |d| <= |s| && forall i :: 0 <= i < |d| ==> i + (if i < k then 0 else 1) < |s| && d[i] == s[if i < k then i else i + 1]
  {
  }

  lemma DeletedRecency(u: Used, key: string)
    requires ByRecency(u)
    ensures ByRecency(u.(entries := Deleted(u.entries, key)))
  {
    hide Deleted, Find, Distinct;
    DistinctDeleted(u.entries, key);
    DeletedAt(u.entries, key);
  }

  lemma RecencyAfterUse(u: Used, e: Entry)
    requires ByRecency(u) && Find(u.entries, e.key) == |u.entries|
    ensures ByRecency(Used([e] + u.entries, u.lastUse[e.key := u.clock], u.clock + 1))
  {
    DistinctFront(e, u.entries);
    var s, t := u.entries, [e] + u.entries;
    forall i | 0 < i < |t| ensures t[i] == s[i - 1] && t[i].key != e.key {
    }
  }

  lemma RecencyAfterTrim(u: Used, capacity: int)
    requires ByRecency(u) && capacity > 0
    ensures ByRecency(u.(entries := Trimmed(u.entries, capacity)))
  {
  }

  lemma {:induction false} EntriesOrderedByUse(capacity: int, defaultTTL: int, ops: seq<Op>)
    requires capacity > 0
    ensures ByRecency(Observe(capacity, defaultTTL, ops))
    ensures Observe(capacity, defaultTTL, ops).entries == Run(capacity, defaultTTL, ops)
  {
    if ops != [] {
      EntriesOrderedByUse(capacity, defaultTTL, ops[..|ops| - 1]);
      StepKeepsRecency(Observe(capacity, defaultTTL, ops[..|ops| - 1]), capacity, defaultTTL, ops[|ops| - 1]);
    }
  }

  lemma StepKeepsRecency(u: Used, capacity: int, defaultTTL: int, op: Op)
    requires ByRecency(u) && capacity > 0
    ensures ByRecency(Used(
      Step(u.entries, capacity, defaultTTL, op),
      if Uses(u.entries, op) then u.lastUse[op.key := u.clock] else u.lastUse, u.clock + 1))
  {
    hide ByRecency, Find;
    match op
    case Get(key, now) =>
      GetKeepsRecency(u, key, now);
    case Set(key, r, ttl, now) =>
      SetKeepsRecency(u, capacity, key, r, now, Effective(ttl, defaultTTL));
    case Delete(key) =>
      DeletedRecency(u, key);
      Later(u.(entries := Deleted(u.entries, key)));
    case Clear => NothingToOrder(u);
  }

  lemma NothingToOrder(u: Used)
    ensures ByRecency(Used([], u.lastUse, u.clock + 1))
  {
  }

  lemma Later(u: Used)
    requires ByRecency(u)
    ensures ByRecency(u.(clock := u.clock + 1)) && Distinct(u.entries)
  {
  }

  lemma GetKeepsRecency(u: Used, key: string, now: int)
    requires ByRecency(u)
    ensures ByRecency(Used(
      Got(u.entries, key, now).0,
      if Got(u.entries, key, now).1.Some? then u.lastUse[key := u.clock] else u.lastUse, u.clock + 1))
  {
    hide ByRecency, Find, Distinct;
    var i := Find(u.entries, key);
    Later(u);
    if i < |u.entries| {
      DeletedRecency(u, key);
      DistinctDeleted(u.entries, key);
      Later(u.(entries := Deleted(u.entries, key)));
      RecencyAfterUse(u.(entries := Deleted(u.entries, key)), u.entries[i].(hits := u.entries[i].hits + 1));
    }
  }

  lemma SetKeepsRecency(u: Used, capacity: int, key: string, r: Response, now: int, ttl: int)
    requires ByRecency(u) && capacity > 0
    ensures ByRecency(Used(
      Put(u.entries, capacity, key, r, now, ttl),
      if |r.body| <= MAX_ENTRY_BYTES then u.lastUse[key := u.clock] else u.lastUse, u.clock + 1))
  {
    hide ByRecency, Find, Distinct;
    var i, e := Find(u.entries, key), Stored(key, r, now, ttl);
    Later(u);
    if |r.body| <= MAX_ENTRY_BYTES {
      if i < |u.entries| {
        DistinctDeleted(u.entries, key);
        DeletedRecency(u, key);
        RecencyAfterUse(u.(entries := Deleted(u.entries, key)),
                        e.(createdAt := u.entries[i].createdAt, hits := u.entries[i].hits));
      } else {
        RecencyAfterTrim(u, capacity);
        TrimmedMisses(u.entries, capacity, key);
        RecencyAfterUse(u.(entries := Trimmed(u.entries, capacity)), e);
      }
    }
  }

  lemma TrimmedMisses(s: seq<Entry>, capacity: int, key: string)
    requires capacity > 0 && Find(s, key) == |s|
    ensures Find(Trimmed(s, capacity), key) == |Trimmed(s, capacity)|
  {
    var t := Trimmed(s, capacity);
    forall i | 0 <= i < |t| ensures t[i].key != key { assert t[i] == s[i]; }
  }

  /** A Set of a new key in a full cache evicts the least recently used key and no other. */
  lemma EvictsLeastRecentlyUsed(capacity: int, defaultTTL: int, ops: seq<Op>, key: string, r: Response, now: int, ttl: int)
    requires capacity > 0 && |r.body| <= MAX_ENTRY_BYTES
    requires var u := Observe(capacity, defaultTTL, ops);
      |u.entries| == capacity && Find(u.entries, key) == capacity
    ensures var u := Observe(capacity, defaultTTL, ops);
      var evicted := u.entries[capacity - 1].key;
      && Keys(Put(u.entries, capacity, key, r, now, ttl)) == Keys(u.entries) - {evicted} + {key}
      && forall k :: k in Keys(u.entries) && k != evicted ==>
           k in u.lastUse && evicted in u.lastUse && u.lastUse[evicted] < u.lastUse[k]
  {
    hide Find;
    EntriesOrderedByUse(capacity, defaultTTL, ops);
    var u := Observe(capacity, defaultTTL, ops);
    KeysWithout(u.entries, capacity - 1);
    assert Without(u.entries, capacity - 1) == u.entries[..capacity - 1];
    FindInKeys(u.entries, key);
    KeysFront(u.entries[..capacity - 1], Stored(key, r, now, ttl));
  }

  // ---------------------------------------------------------------- retention

  /** key stands at position p, behind none but keys of ks. */
  predicate StandsAt(s: seq<Entry>, p: nat, key: string, ks: set<string>) {
    p < |s| && s[p].key == key && forall i :: 0 <= i < p ==> s[i].key in ks
  }

  /** An operation that leaves key alone: it names another key and does not clear the cache. */
  predicate Spares(op: Op, key: string) { !op.Clear? && op.key != key }

  function Touched(op: Op): set<string> { if op.Get? || op.Set? then {op.key} else {} }

  function AllTouched(ops: seq<Op>): set<string> {
    if ops == [] then {} else AllTouched(ops[..|ops| - 1]) + Touched(ops[|ops| - 1])
  }

  lemma WithoutStands(s: seq<Entry>, p: nat, key: string, ks: set<string>, k: nat) returns (q: nat)
    requires StandsAt(s, p, key, ks) && k < |s| && k != p
    ensures StandsAt(Without(s, k), q, key, ks)
  {
    q := if k < p then p - 1 else p;
    assert forall i :: 0 <= i < |s| - 1 ==> Without(s, k)[i] == s[if i < k then i else i + 1];
  }

  lemma FrontStands(e: Entry, s: seq<Entry>, p: nat, key: string, ks: set<string>)
    requires StandsAt(s, p, key, ks)
    ensures StandsAt([e] + s, p + 1, key, ks + {e.key})
  {
  }

  /** So many distinct keys stand before it. */
  lemma BehindDistinct(s: seq<Entry>, p: nat, key: string, ks: set<string>, other: string)
    requires Distinct(s) && StandsAt(s, p, key, ks) && Find(s, other) == |s|
    ensures p < |ks + {other}|
  {
    var front := s[..p];
    assert Distinct(front);
    KeysCount(front);
    assert forall i :: 0 <= i < p ==> front[i].key != other;
    assert Keys(front) <= ks + {other} - {other};
    assert |ks + {other} - {other}| == |ks + {other}| - 1;
    SmallerSet(Keys(front), ks + {other} - {other});
  }

  lemma SmallerSet(a: set<string>, b: set<string>)
    requires a <= b
    ensures |a| <= |b|
  {
    assert |b - a| == |b| - |a|;
  }

  lemma StepRetains(s: seq<Entry>, capacity: int, defaultTTL: int, op: Op, p: nat, key: string, ks: set<string>) returns (q: nat)
    requires capacity > 0 && Distinct(s) && StandsAt(s, p, key, ks) && Spares(op, key)
    requires |ks + Touched(op)| < capacity
    ensures StandsAt(Step(s, capacity, defaultTTL, op), q, key, ks + Touched(op))
  {
    hide Find, Distinct, Without;
    var k := Find(s, op.key);
    q := p;
    if k < |s| {
      var w := WithoutStands(s, p, key, ks, k);
      q := w;
      match op
      case Get(_, now) =>
        if now <= s[k].expiresAt {
          FrontStands(s[k].(hits := s[k].hits + 1), Without(s, k), w, key, ks);
          q := w + 1;
        }
      case Set(_, r, ttl, now) =>
        if |r.body| <= MAX_ENTRY_BYTES {
          var e := Stored(op.key, r, now, Effective(ttl, defaultTTL));
          FrontStands(e.(createdAt := s[k].createdAt, hits := s[k].hits), Without(s, k), w, key, ks);
          q := w + 1;
        } else {
          q := p;
        }
      case Delete(_) =>
      case Clear =>
    } else if op.Set? && |op.response.body| <= MAX_ENTRY_BYTES {
      BehindDistinct(s, p, key, ks, op.key);
      var e := Stored(op.key, op.response, op.now, Effective(op.ttl, defaultTTL));
      FrontStands(e, Trimmed(s, capacity), p, key, ks);
      q := p + 1;
    }
  }

  /** A stored or hit key comes first. */
  lemma UseComesFirst(capacity: int, defaultTTL: int, ops: seq<Op>, op: Op)
    requires capacity > 0 && Uses(Run(capacity, defaultTTL, ops), op)
    ensures Run(capacity, defaultTTL, ops + [op]) != [] && Run(capacity, defaultTTL, ops + [op])[0].key == op.key
  {
    assert (ops + [op])[..|ops + [op]| - 1] == ops;
  }

  /**
    After a use a key stays cached as long as nothing deletes it, looks it up or clears the cache, and
    fewer other keys than the capacity have been asked for or stored since.
   */
  lemma {:induction false} RecentKeyIsRetained(
    capacity: int, defaultTTL: int, ops: seq<Op>, since: seq<Op>, key: string) returns (p: nat)
    requires capacity > 0
    requires Run(capacity, defaultTTL, ops) != [] && Run(capacity, defaultTTL, ops)[0].key == key
    requires forall i :: 0 <= i < |since| ==> Spares(since[i], key)
    requires |AllTouched(since)| < capacity
    ensures StandsAt(Run(capacity, defaultTTL, ops + since), p, key, AllTouched(since))
  {
    if since == [] {
      assert ops + since == ops;
      p := 0;
    } else {
      var front, op := since[..|since| - 1], since[|since| - 1];
      assert (ops + since)[..|ops + since| - 1] == ops + front;
      SmallerSet(AllTouched(front), AllTouched(since));
      var q := RecentKeyIsRetained(capacity, defaultTTL, ops, front, key);
      EntriesOrderedByUse(capacity, defaultTTL, ops + front);
      p := StepRetains(Run(capacity, defaultTTL, ops + front), capacity, defaultTTL, op, q, key, AllTouched(front));
    }
  }

  // ---------------------------------------------------------------- counters

  /** How many lookups of a trace hit, and how many miss. */
  function Counted(capacity: int, defaultTTL: int, ops: seq<Op>): (nat, nat)
    requires capacity > 0
  {
    if ops == [] then (0, 0)
    else
      var front, op := ops[..|ops| - 1], ops[|ops| - 1];
      var (hits, misses) := Counted(capacity, defaultTTL, front);
      if !op.Get? then (hits, misses)
      else if Got(Run(capacity, defaultTTL, front), op.key, op.now).1.Some? then (hits + 1, misses)
      else (hits, misses + 1)
  }

  function Lookups(ops: seq<Op>): nat {
    if ops == [] then 0 else Lookups(ops[..|ops| - 1]) + if ops[|ops| - 1].Get? then 1 else 0
  }

  /** Every lookup is counted once, and a larger cache never hits less often. */
  lemma {:induction false} CountersAddUp(m: int, M: int, defaultTTL: int, ops: seq<Op>)
    requires 0 < m <= M
    ensures Counted(m, defaultTTL, ops).0 + Counted(m, defaultTTL, ops).1 == Lookups(ops)
    ensures Counted(m, defaultTTL, ops).0 <= Counted(M, defaultTTL, ops).0
  {
    hide Got, Run;
    if ops != [] {
      var front, op := ops[..|ops| - 1], ops[|ops| - 1];
      CountersAddUp(m, M, defaultTTL, front);
      if op.Get? && Got(Run(m, defaultTTL, front), op.key, op.now).1.Some? {
        HitsAreMonotone(m, M, defaultTTL, front, op.key, op.now);
      }
    }
  }

  // ---------------------------------------------------------------- freshness

  /** What the last Set of a key stored, unless the key was deleted or the cache cleared since. */
  function LastSet(defaultTTL: int, ops: seq<Op>, key: string): Option<Entry> {
    if ops == [] then None
    else
      var before := LastSet(defaultTTL, ops[..|ops| - 1], key);
      match ops[|ops| - 1]
      case Get(_, _) => before
      case Set(k, r, ttl, now) =>
        if k == key && |r.body| <= MAX_ENTRY_BYTES
        then Some(Stored(key, r, now, Effective(ttl, defaultTTL))) else before
      case Delete(k) => if k == key then None else before
      case Clear => None
  }

  ghost predicate HoldsLastSets(s: seq<Entry>, defaultTTL: int, ops: seq<Op>) {
    forall i :: 0 <= i < |s| ==>
      var last := LastSet(defaultTTL, ops, s[i].key);
      last.Some? && Same(s[i], last.value)
  }

  lemma {:induction false} EntriesAreLastSets(capacity: int, defaultTTL: int, ops: seq<Op>)
    requires capacity > 0
    ensures Distinct(Run(capacity, defaultTTL, ops))
    ensures HoldsLastSets(Run(capacity, defaultTTL, ops), defaultTTL, ops)
  {
    EntriesOrderedByUse(capacity, defaultTTL, ops);
    if ops != [] {
      var front, op := ops[..|ops| - 1], ops[|ops| - 1];
      EntriesAreLastSets(capacity, defaultTTL, front);
      StepKeepsLastSets(Run(capacity, defaultTTL, front), capacity, defaultTTL, ops, op);
    }
  }

  lemma StepKeepsLastSets(s: seq<Entry>, capacity: int, defaultTTL: int, ops: seq<Op>, op: Op)
    requires capacity > 0 && ops != [] && op == ops[|ops| - 1]
    requires Distinct(s) && HoldsLastSets(s, defaultTTL, ops[..|ops| - 1])
    ensures HoldsLastSets(Step(s, capacity, defaultTTL, op), defaultTTL, ops)
  {
    var t := Step(s, capacity, defaultTTL, op);
    forall i | 0 <= i < |t|
      ensures LastSet(defaultTTL, ops, t[i].key).Some? && Same(t[i], LastSet(defaultTTL, ops, t[i].key).value)
    {
      ComesFrom(s, capacity, defaultTTL, op, i);
    }
  }

  predicate Copied(e: Entry, s: seq<Entry>) { exists j :: 0 <= j < |s| && Same(e, s[j]) }

  predicate Refused(op: Op) { op.Set? && |op.response.body| > MAX_ENTRY_BYTES }

  /** Every entry after a step was there before with the same content, or was just stored. */
  lemma ComesFrom(s: seq<Entry>, capacity: int, defaultTTL: int, op: Op, i: nat)
    requires capacity > 0 && Distinct(s) && i < |Step(s, capacity, defaultTTL, op)|
    ensures var e := Step(s, capacity, defaultTTL, op)[i];
      || (op.Set? && !Refused(op) && e.key == op.key
          && Same(e, Stored(op.key, op.response, op.now, Effective(op.ttl, defaultTTL))))
      || ((op.Set? && !Refused(op) ==> e.key != op.key)
          && (op.Delete? ==> e.key != op.key) && !op.Clear? && Copied(e, s))
  {
    hide Find, Distinct, Without;
    match op
    case Get(key, now) =>
      var k := Find(s, key);
      if k == |s| {
        assert Same(s[i], s[i]);
      } else if now > s[k].expiresAt {
        WithoutIsOld(s, k, i);
      } else if i > 0 {
        WithoutIsOld(s, k, i - 1);
      } else {
        assert Same(s[k].(hits := s[k].hits + 1), s[k]);
      }
    case Set(key, r, ttl, now) =>
      PutIsOld(s, capacity, key, r, now, Effective(ttl, defaultTTL), i);
    case Delete(key) =>
      var k := Find(s, key);
      if k == |s| {
        assert Same(s[i], s[i]);
      } else {
        WithoutIsOld(s, k, i);
      }
    case Clear =>
  }

  lemma WithoutIsOld(s: seq<Entry>, k: nat, i: nat)
    requires Distinct(s) && k < |s|
    ensures |Without(s, k)| == |s| - 1
    ensures i < |s| - 1 ==> Without(s, k)[i].key != s[k].key && Copied(Without(s, k)[i], s)
  {
    if i < |s| - 1 {
      var j := if i < k then i else i + 1;
      assert Without(s, k)[i] == s[j] && Same(s[j], s[j]);
    }
  }

  lemma PutIsOld(s: seq<Entry>, capacity: int, key: string, r: Response, now: int, ttl: int, i: nat)
    requires capacity > 0 && Distinct(s) && i < |Put(s, capacity, key, r, now, ttl)|
    ensures var e := Put(s, capacity, key, r, now, ttl)[i];
      if |r.body| <= MAX_ENTRY_BYTES && i == 0 then e.key == key && Same(e, Stored(key, r, now, ttl))
      else Copied(e, s) && (|r.body| <= MAX_ENTRY_BYTES ==> e.key != key)
  {
    hide Find, Distinct, Without;
    var k := Find(s, key);
    if |r.body| > MAX_ENTRY_BYTES {
      assert Same(s[i], s[i]);
    } else if i > 0 {
      if k < |s| {
        WithoutIsOld(s, k, i - 1);
      } else {
        assert Trimmed(s, capacity)[i - 1] == s[i - 1] && Same(s[i - 1], s[i - 1]);
      }
    }
  }

  /** A hit returns what the last Set of that key stored, and never after its expiry. */
  lemma HitIsLastUnexpiredSet(capacity: int, defaultTTL: int, ops: seq<Op>, key: string, now: int)
    requires capacity > 0
    requires Got(Run(capacity, defaultTTL, ops), key, now).1.Some?
    ensures var hit := Got(Run(capacity, defaultTTL, ops), key, now).1.value;
      var last := LastSet(defaultTTL, ops, key);
      last.Some? && Same(hit, last.value) && now <= last.value.expiresAt
  {
    EntriesAreLastSets(capacity, defaultTTL, ops);
  }
}
