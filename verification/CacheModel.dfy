/**
  The response cache as a sequence of entries, most recently used first. These functions
  say what each operation of internal/cache/cache.go does to that sequence.
 */
module CacheModel {
  import opened Wrappers

  type Bytes = seq<bv8>

  datatype Entry = Entry(
    key: string, statusCode: int, headers: map<string, string>, body: Bytes,
    createdAt: int, expiresAt: int, servedModel: string, tokensSaved: int, hits: int)

  /** The arguments of a Set besides its key and lifetime. */
  datatype Response = Response(
    statusCode: int, headers: map<string, string>, body: Bytes, servedModel: string, tokensSaved: int)

  const MAX_ENTRY_BYTES := 2 * 1024 * 1024
  const HOUR := 60 * 60 * 1_000_000_000

  function Effective(value: int, default: int): int { if value <= 0 then default else value }

  predicate Distinct(s: seq<Entry>) {
    forall i, j :: 0 <= i < j < |s| ==> s[i].key != s[j].key
  }

  /** The position of a key, or the length when it is absent. */
  function Find(s: seq<Entry>, key: string): (i: nat)
    ensures i <= |s|
    ensures i < |s| ==> s[i].key == key
    ensures forall j :: 0 <= j < i ==> s[j].key != key
  {
    if s == [] || s[0].key == key then 0 else 1 + Find(s[1..], key)
  }

  function Without(s: seq<Entry>, i: nat): seq<Entry>
    requires i < |s|
  {
    s[..i] + s[i + 1..]
  }

  function Stored(key: string, r: Response, now: int, ttl: int): Entry {
    Entry(key, r.statusCode, r.headers, r.body, now, now + ttl, r.servedModel, r.tokensSaved, 0)
  }

  /** The sequence after a Get and the entry it returns, if any. */
  function Got(s: seq<Entry>, key: string, now: int): (seq<Entry>, Option<Entry>) {
    var i := Find(s, key);
    if i == |s| then (s, None)
    else if now > s[i].expiresAt then (Without(s, i), None)
    else
      var hit := s[i].(hits := s[i].hits + 1);
      ([hit] + Without(s, i), Some(hit))
  }

  /** Keep the most recent entries so that one more fits. */
  function Trimmed(s: seq<Entry>, capacity: int): seq<Entry>
    requires capacity > 0
  {
    if |s| >= capacity then s[..capacity - 1] else s
  }

  function Put(s: seq<Entry>, capacity: int, key: string, r: Response, now: int, ttl: int): seq<Entry>
    requires capacity > 0
  {
    var e := Stored(key, r, now, ttl);
    var i := Find(s, key);
    if |r.body| > MAX_ENTRY_BYTES then s
    else if i < |s| then [e.(createdAt := s[i].createdAt, hits := s[i].hits)] + Without(s, i)
    else [e] + Trimmed(s, capacity)
  }

  function Deleted(s: seq<Entry>, key: string): seq<Entry> {
    var i := Find(s, key);
    if i == |s| then s else Without(s, i)
  }

  function BodyBytes(s: seq<Entry>): int {
    if s == [] then 0 else BodyBytes(s[..|s| - 1]) + |s[|s| - 1].body|
  }

  predicate Bounded(s: seq<Entry>) { forall i :: 0 <= i < |s| ==> |s[i].body| <= MAX_ENTRY_BYTES }

  lemma FindIs(s: seq<Entry>, key: string, i: nat)
    requires Distinct(s) && i < |s| && s[i].key == key
    ensures Find(s, key) == i
  {
    var f := Find(s, key);
    assert f <= i;
    assert s[f].key == key;
  }

  lemma {:induction false} BodyBytesConcat(a: seq<Entry>, b: seq<Entry>)
    ensures BodyBytes(a + b) == BodyBytes(a) + BodyBytes(b)
  {
    if b == [] {
      assert a + b == a;
    } else {
      assert (a + b)[..|a + b| - 1] == a + b[..|b| - 1];
      BodyBytesConcat(a, b[..|b| - 1]);
    }
  }

  lemma BodyBytesOne(e: Entry)
    ensures BodyBytes([e]) == |e.body|
  {
    assert [e][..0] == [];
  }

  lemma BodyBytesWithout(s: seq<Entry>, i: nat)
    requires i < |s|
    ensures BodyBytes(Without(s, i)) == BodyBytes(s) - |s[i].body|
  {
    assert s == s[..i] + ([s[i]] + s[i + 1..]);
    BodyBytesConcat(s[..i], [s[i]] + s[i + 1..]);
    BodyBytesConcat([s[i]], s[i + 1..]);
    BodyBytesConcat(s[..i], s[i + 1..]);
    BodyBytesOne(s[i]);
  }

  lemma BodyBytesFront(e: Entry, s: seq<Entry>)
    ensures BodyBytes([e] + s) == |e.body| + BodyBytes(s)
  {
    BodyBytesConcat([e], s);
    BodyBytesOne(e);
  }

  /** The memory bound: at most the capacity times the largest entry. */
  lemma {:induction false} BodyBytesBound(s: seq<Entry>, capacity: nat)
    requires Bounded(s) && |s| <= capacity
    ensures 0 <= BodyBytes(s) <= capacity * MAX_ENTRY_BYTES
  {
    if s != [] {
      BodyBytesBound(s[..|s| - 1], capacity - 1);
    }
  }

  function Keys(s: seq<Entry>): set<string> { set i | 0 <= i < |s| :: s[i].key }

  lemma KeysWithout(s: seq<Entry>, k: nat)
    requires Distinct(s) && k < |s|
    ensures Keys(Without(s, k)) == Keys(s) - {s[k].key}
    ensures Distinct(Without(s, k))
  {
    var t := Without(s, k);
    assert forall i :: 0 <= i < |t| ==> t[i] == s[if i < k then i else i + 1];
    forall key | key in Keys(s) - {s[k].key} ensures key in Keys(t) {
      var i :| 0 <= i < |s| && s[i].key == key;
      assert t[if i < k then i else i - 1] == s[i];
    }
  }

  lemma KeysFront(s: seq<Entry>, e: Entry)
    requires Distinct(s) && e.key !in Keys(s)
    ensures Keys([e] + s) == {e.key} + Keys(s)
    ensures Distinct([e] + s)
  {
    var t := [e] + s;
    assert forall i :: 0 < i < |t| ==> t[i] == s[i - 1] && t[i].key in Keys(s);
    forall key | key in {e.key} + Keys(s) ensures key in Keys(t) {
      if key == e.key {
        assert t[0].key == key;
      } else {
        var i :| 0 <= i < |s| && s[i].key == key;
        assert t[i + 1] == s[i];
      }
    }
  }

  /** Distinct keys: as many of them as entries. */
  lemma {:induction false} KeysCount(s: seq<Entry>)
    requires Distinct(s)
    ensures |Keys(s)| == |s|
  {
    if s != [] {
      var last := |s| - 1;
      KeysCount(s[..last]);
      KeysWithout(s, last);
      assert Without(s, last) == s[..last];
      assert s[last].key in Keys(s);
    }
  }

  lemma FindInKeys(s: seq<Entry>, key: string)
    ensures Find(s, key) < |s| <==> key in Keys(s)
  {
    if Find(s, key) < |s| { assert s[Find(s, key)].key == key; }
  }
}
