/**
  The response cache of internal/cache/cache.go, proved against CacheModel. The list of the
  Go standard library is the sequence of its elements, front first; an element is an object,
  so the map and the list refer to the same one and a Set replaces its value in place.
 */
module ResponseCache {
  import opened Wrappers
  import opened CacheModel

  class Element {
    var value: Entry

    constructor (value: Entry)
      ensures this.value == value
    {
      this.value := value;
    }
  }

  /** The entries the elements hold, in list order. */
  ghost function Values(es: seq<Element>): (r: seq<Entry>)
    reads es
    ensures |r| == |es| && forall i :: 0 <= i < |es| ==> r[i] == es[i].value
  {
    if es == [] then [] else [es[0].value] + Values(es[1..])
  }

  /** Under the key of each entry the map holds that entry's element. */
  ghost predicate Indexed(items: map<string, Element>, es: seq<Element>, view: seq<Entry>) {
    && |es| == |view|
    && forall k :: 0 <= k < |es| ==> view[k].key in items && items[view[k].key] == es[k]
  }

  /** The list without one of its elements, as list.Remove leaves it. */
  function Unlinked(es: seq<Element>, e: Element): seq<Element> {
    if es == [] then []
    else if es[0] == e then es[1..]
    else [es[0]] + Unlinked(es[1..], e)
  }

  lemma {:induction false} UnlinkedAt(es: seq<Element>, k: nat)
    requires k < |es| && forall i :: 0 <= i < k ==> es[i] != es[k]
    ensures Unlinked(es, es[k]) == es[..k] + es[k + 1..]
  {
    if k > 0 {
      assert es[1..][k - 1] == es[k];
      UnlinkedAt(es[1..], k - 1);
    }
  }

  lemma IndexedWithout(items: map<string, Element>, es: seq<Element>, view: seq<Entry>, k: nat)
    requires Indexed(items, es, view) && Distinct(view) && k < |es|
    ensures Indexed(items - {view[k].key}, es[..k] + es[k + 1..], Without(view, k))
  {
    var es', view' := es[..k] + es[k + 1..], Without(view, k);
    forall i | 0 <= i < |es'|
      ensures view'[i].key in items && view'[i].key != view[k].key && items[view'[i].key] == es'[i]
    {
      var j := if i < k then i else i + 1;
      assert view'[i] == view[j] && es'[i] == es[j];
    }
  }

  lemma IndexedFront(items: map<string, Element>, es: seq<Element>, view: seq<Entry>, e: Element, entry: Entry)
    requires Indexed(items, es, view) && entry.key !in Keys(view)
    ensures Indexed(items[entry.key := e], [e] + es, [entry] + view)
  {
    var es', view' := [e] + es, [entry] + view;
    forall i | 0 < i < |es'| ensures view'[i] == view[i - 1] && es'[i] == es[i - 1] && view'[i].key in Keys(view) {
    }
  }

  lemma IndexedMove(items: map<string, Element>, es: seq<Element>, view: seq<Entry>, k: nat, entry: Entry)
    requires Indexed(items, es, view) && Distinct(view) && k < |es| && entry.key == view[k].key
    ensures Indexed(items, [es[k]] + (es[..k] + es[k + 1..]), [entry] + Without(view, k))
    ensures Keys([entry] + Without(view, k)) == Keys(view) && Distinct([entry] + Without(view, k))
  {
    hide Keys;
    IndexedWithout(items, es, view, k);
    KeysWithout(view, k);
    KeysFront(Without(view, k), entry);
    InKeys(view, k);
    var es', view' := [es[k]] + (es[..k] + es[k + 1..]), [entry] + Without(view, k);
    forall i | 0 < i < |es'| ensures view'[i].key in items && items[view'[i].key] == es'[i] {
      assert view'[i] == Without(view, k)[i - 1] && es'[i] == (es[..k] + es[k + 1..])[i - 1];
    }
  }

  lemma InKeys(view: seq<Entry>, k: nat)
    requires k < |view|
    ensures view[k].key in Keys(view)
  {
  }

  lemma ValuesWithout(es: seq<Element>, k: nat)
    requires k < |es|
    ensures Values(es[..k] + es[k + 1..]) == Without(Values(es), k)
  {
    hide Values;
    var l, r := Values(es[..k] + es[k + 1..]), Without(Values(es), k);
    forall i | 0 <= i < |es| - 1 ensures l[i] == r[i] {
      var j := if i < k then i else i + 1;
      assert (es[..k] + es[k + 1..])[i] == es[j];
    }
    assert l == r;
  }

  lemma ValuesFront(e: Element, es: seq<Element>)
    ensures Values([e] + es) == [e.value] + Values(es)
  {
    assert ([e] + es)[1..] == es;
  }

  class Cache {
    var items: map<string, Element>
    var evictList: seq<Element>
    const maxEntries: int
    const defaultTTL: int
    var hits: nat
    var misses: nat
    var tokensSaved: int
    var bytesUsed: int

    /** The entries, most recently used first. */
    ghost function View(): seq<Entry>
      reads this, evictList
    {
      Values(evictList)
    }

    ghost predicate Valid()
      reads this, evictList
    {
      && Indexed(items, evictList, View())
      && items.Keys == Keys(View()) && Distinct(View())
      && 0 < maxEntries && 0 < defaultTTL
      && |evictList| <= maxEntries
      && Bounded(View())
      && bytesUsed == BodyBytes(View())
    }

    constructor (capacity: int, ttl: int)
      ensures Valid() && View() == []
      ensures maxEntries == if capacity > 0 then capacity else 2000
      ensures defaultTTL == if ttl > 0 then ttl else 3_600_000_000_000
      ensures hits == misses == 0 && tokensSaved == 0
    {
      items, evictList, hits, misses, tokensSaved, bytesUsed := map[], [], 0, 0, 0, 0;
      maxEntries := if capacity <= 0 then 2000 else capacity;
      defaultTTL := if ttl <= 0 then HOUR else ttl;
    }

    lemma ElementAt(key: string) returns (k: nat)
      requires Valid()
      ensures k == Find(View(), key)
      ensures key in items <==> k < |evictList|
      ensures key in items ==> evictList[k] == items[key] && View()[k] == items[key].value
      ensures key in items ==> items[key].value.key == key && |items[key].value.body| <= MAX_ENTRY_BYTES
      ensures key in items ==> Unlinked(evictList, items[key]) == evictList[..k] + evictList[k + 1..]
    {
      k := Find(View(), key);
      FindInKeys(View(), key);
      if k < |evictList| {
        assert evictList[k] == items[key];
        forall i | 0 <= i < k ensures evictList[i] != evictList[k] { assert View()[i].key != View()[k].key; }
        UnlinkedAt(evictList, k);
      }
    }

    method RemoveElement(e: Element, ghost k: nat)
      requires Valid() && k < |evictList| && evictList[k] == e
      requires Unlinked(evictList, e) == evictList[..k] + evictList[k + 1..]
      modifies `items, `evictList, `bytesUsed
      ensures Valid() && View() == Without(old(View()), k)
      ensures items.Keys <= old(items).Keys
    {
      hide Values, BodyBytes, Indexed, Keys, Distinct, Without;
      ghost var view := View();
      IndexedWithout(items, evictList, view, k);
      KeysWithout(view, k);
      BodyBytesWithout(view, k);
      ValuesWithout(evictList, k);
      evictList := Unlinked(evictList, e);
      var entry := e.value;
      items := items - {entry.key};
      bytesUsed := bytesUsed - |entry.body|;
    }

    /** The element moves to the front of the list and its value is replaced in place. */
    method MoveToFront(e: Element, value: Entry, ghost k: nat)
      requires Valid() && k < |evictList| && evictList[k] == e
      requires Unlinked(evictList, e) == evictList[..k] + evictList[k + 1..]
      requires value.key == e.value.key && |value.body| <= MAX_ENTRY_BYTES
      modifies `evictList, `bytesUsed, e
      ensures Valid() && View() == [value] + Without(old(View()), k)
    {
      hide Values, BodyBytes, Keys;
      ghost var view, rest := View(), evictList[..k] + evictList[k + 1..];
      IndexedMove(items, evictList, view, k, value);
      BodyBytesWithout(view, k);
      BodyBytesFront(value, Without(view, k));
      ValuesWithout(evictList, k);
      forall i | 0 <= i < |rest| ensures rest[i] != e {
        assert Values(rest)[i].key != view[k].key by {
          assert rest[i] == evictList[if i < k then i else i + 1];
        }
      }
      evictList := [e] + Unlinked(evictList, e);
      bytesUsed := bytesUsed - |e.value.body| + |value.body|;
      e.value := value;
      ValuesFront(e, rest);
      assert Values(rest) == Without(view, k);
    }

    method RemoveOldest()
      requires Valid() && evictList != []
      modifies `items, `evictList, `bytesUsed
      ensures Valid() && View() == old(View())[..|old(View())| - 1]
      ensures items.Keys <= old(items).Keys
    {
      var e := evictList[|evictList| - 1];
      ghost var k := ElementAt(View()[|evictList| - 1].key);
      FindIs(View(), View()[|evictList| - 1].key, |evictList| - 1);
      RemoveElement(e, k);
    }

    method Get(key: string, now: int) returns (r: Option<Entry>)
      requires Valid()
      modifies this, evictList
      ensures Valid()
      ensures (View(), r) == Got(old(View()), key, now)
      ensures r.Some? ==> hits == old(hits) + 1 && misses == old(misses)
      ensures r.None? ==> hits == old(hits) && misses == old(misses) + 1
      ensures tokensSaved == old(tokensSaved) + if r.Some? && r.value.tokensSaved > 0 then r.value.tokensSaved else 0
    {
      hide Values, Keys, Find, Indexed, BodyBytes, Without, Distinct, Bounded;
      ghost var k := ElementAt(key);
      if key !in items {
        misses := misses + 1;
        return None;
      }
      var e := items[key];
      var entry := e.value;
      if now > entry.expiresAt {
        RemoveElement(e, k);
        misses := misses + 1;
        return None;
      }
      var hit := entry.(hits := entry.hits + 1);
      MoveToFront(e, hit, k);
      hits := hits + 1;
      if entry.tokensSaved > 0 {
        tokensSaved := tokensSaved + entry.tokensSaved;
      }
      r := Some(hit);
    }

    /** The element list grows at the front; the key is new and there is room. */
    method PushFront(entry: Entry)
      requires Valid() && entry.key !in items && |evictList| < maxEntries
      requires |entry.body| <= MAX_ENTRY_BYTES
      modifies `items, `evictList, `bytesUsed
      ensures Valid() && View() == [entry] + old(View())
    {
      hide Values, BodyBytes, Keys, Find;
      var e := new Element(entry);
      IndexedFront(items, evictList, View(), e, entry);
      KeysFront(View(), entry);
      BodyBytesFront(entry, View());
      ValuesFront(e, evictList);
      evictList := [e] + evictList;
      items := items[entry.key := e];
      bytesUsed := bytesUsed + |entry.body|;
    }

    method Set(key: string, response: Response, requestedTTL: int, now: int)
      requires Valid()
      modifies this, evictList
      ensures Valid()
      ensures View() == Put(old(View()), maxEntries, key, response, now, Effective(requestedTTL, defaultTTL))
      ensures hits == old(hits) && misses == old(misses) && tokensSaved == old(tokensSaved)
    {
      hide Values, Keys, Find, Indexed, BodyBytes, Without, Distinct, Bounded;
      if |response.body| > MAX_ENTRY_BYTES {
        return;
      }
      var ttl := if requestedTTL <= 0 then defaultTTL else requestedTTL;
      var entry := Entry(key, response.statusCode, response.headers, response.body, now, now + ttl,
                         response.servedModel, response.tokensSaved, 0);
      ghost var k := ElementAt(key);
      if key in items {
        var e := items[key];
        MoveToFront(e, entry.(createdAt := e.value.createdAt, hits := e.value.hits), k);
        return;
      }
      ghost var view := View();
      while |evictList| >= maxEntries
        invariant Valid() && key !in items
        invariant |view| == |old(evictList)| <= maxEntries
        invariant View() == view || (|view| == maxEntries && View() == view[..maxEntries - 1])
        modifies `items, `evictList, `bytesUsed
        decreases |evictList|
      {
        RemoveOldest();
      }
      PushFront(entry);
    }

    method Delete(key: string) returns (found: bool)
      requires Valid()
      modifies this, evictList
      ensures Valid() && View() == Deleted(old(View()), key)
      ensures found <==> key in old(items)
      ensures hits == old(hits) && misses == old(misses) && tokensSaved == old(tokensSaved)
    {
      hide Values, Keys, Find, Indexed, BodyBytes, Without, Distinct, Bounded;
      ghost var k := ElementAt(key);
      if key in items {
        RemoveElement(items[key], k);
        return true;
      }
      found := false;
    }

    method Clear()
      requires Valid()
      modifies this
      ensures Valid() && View() == []
      ensures hits == old(hits) && misses == old(misses) && tokensSaved == old(tokensSaved)
    {
      items, evictList, bytesUsed := map[], [], 0;
    }

    /** The metrics as they stand, with the bounds the cache promises. */
    method Stats() returns (stats: Metrics)
      requires Valid()
      ensures stats.hits == hits && stats.misses == misses && stats.tokensSaved == tokensSaved
      ensures stats.hitRate * (hits + misses) as real == hits as real && 0.0 <= stats.hitRate <= 1.0
      ensures stats.entries == |items| == |evictList| <= maxEntries == stats.maxEntries
      ensures 0 <= stats.bytesUsed == bytesUsed <= maxEntries * 2_097_152
    {
      KeysCount(View());
      assert |items.Keys| == |items|;
      BodyBytesBound(View(), maxEntries);
      var total := hits + misses;
      var hitRate := 0.0;
      if total > 0 {
        RateBounds(hits, total);
        hitRate := hits as real / total as real;
      }
      stats := Metrics(hits, misses, hitRate, |items|, maxEntries, bytesUsed, tokensSaved);
    }
  }

  lemma RateBounds(part: nat, total: nat)
    requires part <= total && total > 0
    ensures part as real / total as real * total as real == part as real
    ensures 0.0 <= part as real / total as real <= 1.0
  {
  }

  datatype Metrics = Metrics(
    hits: nat, misses: nat, hitRate: real, entries: int, maxEntries: int, bytesUsed: int, tokensSaved: int)
}
