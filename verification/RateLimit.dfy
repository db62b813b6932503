/** The fixed-window rate limiter (internal/middleware/ratelimit.go). */
module RateLimit {
  import opened Wrappers

  const MINUTE := 60 * 1_000_000_000
  const CLEANUP_SIZE := 4096

  datatype Window = Window(count: int, windowAt: int)

  /** now.Sub(e.windowAt) >= time.Minute */
  predicate Expired(w: Window, now: int) { now - w.windowAt >= MINUTE }

  function Entry(entries: map<string, Window>, key: string): Option<Window> {
    if key in entries then Some(entries[key]) else None
  }

  /** The answer for one key, and the key's window afterwards. */
  function Decide(w: Option<Window>, limit: int, now: int): (bool, Option<Window>) {
    if limit <= 0 then (true, w)
    else if w.None? || Expired(w.value, now) then (true, Some(Window(1, now)))
    else if w.value.count >= limit then (false, w)
    else (true, Some(Window(w.value.count + 1, w.value.windowAt)))
  }

  /** What the opportunistic cleanup keeps. */
  function Swept(entries: map<string, Window>, now: int): map<string, Window> {
    map k | k in entries && !Expired(entries[k], now) :: entries[k]
  }

  function CleanedUp(entries: map<string, Window>, now: int): map<string, Window> {
    if |entries| > CLEANUP_SIZE then Swept(entries, now) else entries
  }

  datatype Call = Call(key: string, limit: int, now: int)

  /** One call, with or without the cleanup in front of it. */
  function Step(entries: map<string, Window>, call: Call, cleans: bool): (bool, map<string, Window>) {
    var before := if cleans && call.limit > 0 then CleanedUp(entries, call.now) else entries;
    var d := Decide(Entry(before, call.key), call.limit, call.now);
    (d.0, if d.1.Some? then before[call.key := d.1.value] else before)
  }

  class RateLimiter {
    var entries: map<string, Window>

    constructor ()
      ensures entries == map[]
    {
      entries := map[];
    }

    method AllowWithLimit(key: string, limit: int, now: int) returns (allowed: bool)
      modifies this
      ensures limit <= 0 ==> allowed && entries == old(entries)
      ensures limit > 0 ==>
        var before := CleanedUp(old(entries), now);
        && allowed == Decide(Entry(before, key), limit, now).0
        && Entry(entries, key) == Decide(Entry(before, key), limit, now).1
        && forall k :: k != key ==> Entry(entries, k) == Entry(before, k)
      ensures limit > 0 && |old(entries)| > 4096 ==>
        forall k :: k in entries && k != key ==> now < entries[k].windowAt + 60_000_000_000
      ensures (allowed, entries) == Step(old(entries), Call(key, limit, now), true)
    {
      assert key in entries ==> entries[key := entries[key]] == entries;
      if limit <= 0 {
        return true;
      }
      if |entries| > CLEANUP_SIZE {
        var rest := entries.Keys;
        ghost var was := entries;
        while rest != {}
          invariant rest <= was.Keys
          invariant forall k :: k in entries <==> k in was && (k in rest || !Expired(was[k], now))
          invariant forall k :: k in entries ==> entries[k] == was[k]
          decreases |rest|
        {
          var k :| k in rest;
          rest := rest - {k};
          if Expired(entries[k], now) {
            entries := entries - {k};
          }
        }
        assert entries == Swept(was, now);
      }
      if key !in entries || Expired(entries[key], now) {
        entries := entries[key := Window(1, now)];
        return true;
      }
      var e := entries[key];
      if e.count >= limit {
        assert entries[key := e] == entries;
        return false;
      }
      entries := entries[key := e.(count := e.count + 1)];
      return true;
    }
  }

  // ---------------------------------------------------------------- cleanup is unobservable

  function Table(calls: seq<Call>, cleans: bool): map<string, Window> {
    if calls == [] then map[] else Step(Table(calls[..|calls| - 1], cleans), calls[|calls| - 1], cleans).1
  }

  function Answers(calls: seq<Call>, cleans: bool): seq<bool> {
    if calls == [] then []
    else Answers(calls[..|calls| - 1], cleans)
         + [Step(Table(calls[..|calls| - 1], cleans), calls[|calls| - 1], cleans).0]
  }

  /** The clock of the calls never runs backwards. */
  predicate Monotone(calls: seq<Call>) {
    forall i, j :: 0 <= i < j < |calls| ==> calls[i].now <= calls[j].now
  }

  /** A swept table differs from an unswept one only in windows that are over. */
  predicate SameLive(a: map<string, Window>, b: map<string, Window>, now: int) {
    && (forall k :: k in a ==> k in b && a[k] == b[k])
    && (forall k :: k in b && k !in a ==> Expired(b[k], now))
  }

  lemma StepIgnoresCleanup(a: map<string, Window>, b: map<string, Window>, call: Call)
    requires SameLive(a, b, call.now)
    ensures Step(a, call, true).0 == Step(b, call, false).0
    ensures SameLive(Step(a, call, true).1, Step(b, call, false).1, call.now)
  {
  }

  lemma {:induction false} CleanupIsUnobservable(calls: seq<Call>)
    requires Monotone(calls)
    ensures Answers(calls, true) == Answers(calls, false)
    ensures calls != [] ==> SameLive(Table(calls, true), Table(calls, false), calls[|calls| - 1].now)
  {
    if calls != [] {
      var front, last := calls[..|calls| - 1], calls[|calls| - 1];
      CleanupIsUnobservable(front);
      if front != [] { assert front[|front| - 1].now <= last.now; }
      StepIgnoresCleanup(Table(front, true), Table(front, false), last);
    }
  }

  // ---------------------------------------------------------------- one key at a time

  /** The calls of one key, under the one limit it has. */
  function TimesOf(calls: seq<Call>, key: string): seq<int> {
    if calls == [] then []
    else
      var rest, last := TimesOf(calls[..|calls| - 1], key), calls[|calls| - 1];
      if last.key == key then rest + [last.now] else rest
  }

  function WindowAfter(times: seq<int>, limit: int): Option<Window> {
    if times == [] then None
    else Decide(WindowAfter(times[..|times| - 1], limit), limit, times[|times| - 1]).1
  }

  predicate LimitIs(calls: seq<Call>, key: string, limit: int) {
    forall i :: 0 <= i < |calls| && calls[i].key == key ==> calls[i].limit == limit
  }

  /** Keys do not influence each other. */
  lemma {:induction false} KeysAreIndependent(calls: seq<Call>, key: string, limit: int)
    requires LimitIs(calls, key, limit)
    ensures Entry(Table(calls, false), key) == WindowAfter(TimesOf(calls, key), limit)
  {
    if calls != [] {
      var front, last := calls[..|calls| - 1], calls[|calls| - 1];
      KeysAreIndependent(front, key, limit);
      var times := TimesOf(front, key);
      assert (times + [last.now])[..|times|] == times;
    }
  }

  // ---------------------------------------------------------------- the bound

  predicate Sorted(times: seq<int>) { forall i, j :: 0 <= i < j < |times| ==> times[i] <= times[j] }

  /** Admissions with a time in [from, to). */
  function Admitted(times: seq<int>, limit: int, from: int, to: int): nat {
    if times == [] then 0
    else
      var front, last := times[..|times| - 1], times[|times| - 1];
      Admitted(front, limit, from, to)
        + if Decide(WindowAfter(front, limit), limit, last).0 && from <= last < to then 1 else 0
  }

  lemma {:induction false} NothingAdmittedYet(times: seq<int>, limit: int, from: int, to: int)
    requires Sorted(times) && (times != [] ==> times[|times| - 1] < from)
    ensures Admitted(times, limit, from, to) == 0
  {
    if times != [] { NothingAdmittedYet(times[..|times| - 1], limit, from, to); }
  }

  /** How many admissions an interval can have seen, given the window now open. */
  ghost predicate WithinBudget(times: seq<int>, limit: int, from: int, to: int) {
    var a, w := Admitted(times, limit, from, to), WindowAfter(times, limit);
    if w.None? then times == []
    else
      var c, s := w.value.count, w.value.windowAt;
      && 1 <= c <= limit && times != [] && s <= times[|times| - 1]
      && (s < from ==> a <= c - 1)
      && (from <= s < to ==> a <= limit - 1 + c)
      && (to <= s ==> a <= 2 * limit - 1)
  }

  lemma {:induction false} BudgetHolds(times: seq<int>, limit: int, from: int, to: int)
    requires limit > 0 && Sorted(times) && to <= from + MINUTE
    ensures WithinBudget(times, limit, from, to)
  {
    if times != [] {
      var front, last := times[..|times| - 1], times[|times| - 1];
      BudgetHolds(front, limit, from, to);
      if last < from { NothingAdmittedYet(times, limit, from, to); }
      if front != [] { assert front[|front| - 1] <= last; }
    }
  }

  /**
    No half-open interval of one minute admits more than 2 * limit - 1 requests of a key:
    the request that opens the earlier of the two windows it can touch lies outside it.
   */
  lemma AnyMinuteIsBounded(times: seq<int>, limit: int, from: int)
    requires limit > 0 && Sorted(times)
    ensures Admitted(times, limit, from, from + 60_000_000_000) <= 2 * limit - 1
  {
    BudgetHolds(times, limit, from, from + MINUTE);
  }

  /** While a window lasts, its count is the number of calls seen, up to the limit. */
  lemma {:induction false} WindowCounts(times: seq<int>, limit: int, more: seq<int>)
    requires limit > 0 && times != []
    requires WindowAfter(times, limit) == Some(Window(1, times[|times| - 1]))
    requires forall j :: 0 <= j < |more| ==> more[j] < times[|times| - 1] + MINUTE
    ensures WindowAfter(times + more, limit)
         == Some(Window(if |more| + 1 < limit then |more| + 1 else limit, times[|times| - 1]))
  {
    if more == [] {
      assert times + more == times;
    } else {
      WindowCounts(times, limit, more[..|more| - 1]);
      assert (times + more)[..|times + more| - 1] == times + more[..|more| - 1];
    }
  }

  /** Each window admits exactly its first limit calls: the opening one and limit - 1 more. */
  lemma WindowAdmitsFirstCalls(times: seq<int>, limit: int, more: seq<int>, j: nat)
    requires limit > 0 && times != [] && j < |more|
    requires WindowAfter(times, limit) == Some(Window(1, times[|times| - 1]))
    requires forall i :: 0 <= i < |more| ==> more[i] < times[|times| - 1] + 60_000_000_000
    ensures Decide(WindowAfter(times + more[..j], limit), limit, more[j]).0 <==> j + 1 < limit
  {
    WindowCounts(times, limit, more[..j]);
  }

  /** A minute after it was opened a window is over: the next call is admitted and opens a new one. */
  lemma WindowReopens(times: seq<int>, limit: int, now: int)
    requires limit > 0 && WindowAfter(times, limit).Some?
    requires now >= WindowAfter(times, limit).value.windowAt + 60_000_000_000
    ensures Decide(WindowAfter(times, limit), limit, now) == (true, Some(Window(1, now)))
  {
  }

  /** One call at the start of a window, the rest late in it, and a full window right after. */
  function WorstCase(limit: int): seq<int>
    requires limit > 0
  {
    [0] + seq(limit - 1, _ => 1) + [MINUTE] + seq(limit - 1, _ => MINUTE)
  }

  /** The bound is attained for every limit. */
  lemma BoundIsTight(limit: int)
    requires limit > 0
    ensures Sorted(WorstCase(limit))
    ensures Admitted(WorstCase(limit), limit, 1, 1 + MINUTE) == 2 * limit - 1
  {
    var first, second := seq(limit - 1, _ => 1), seq(limit - 1, _ => MINUTE);
    var start, middle := [0], [0] + first + [MINUTE];
    assert start[..0] == [];
    BurstAdmitted(start, limit, first, 1, 1 + MINUTE);
    assert middle[..|middle| - 1] == start + first;
    BurstAdmitted(middle, limit, second, 1, 1 + MINUTE);
    assert WorstCase(limit) == middle + second;
  }

  /** limit - 1 calls right behind an opening call are all admitted. */
  lemma {:induction false} BurstAdmitted(times: seq<int>, limit: int, more: seq<int>, from: int, to: int)
    requires limit > 0 && times != [] && |more| < limit
    requires WindowAfter(times, limit) == Some(Window(1, times[|times| - 1]))
    requires forall j :: 0 <= j < |more| ==> from <= more[j] < to && more[j] < times[|times| - 1] + MINUTE
    ensures Admitted(times + more, limit, from, to) == Admitted(times, limit, from, to) + |more|
    ensures WindowAfter(times + more, limit) == Some(Window(|more| + 1, times[|times| - 1]))
  {
    if more == [] {
      assert times + more == times;
    } else {
      BurstAdmitted(times, limit, more[..|more| - 1], from, to);
      assert (times + more)[..|times + more| - 1] == times + more[..|more| - 1];
    }
  }

  /** The bound for the limiter itself, many keys and cleanup included. */
  function AdmittedCalls(calls: seq<Call>, cleans: bool, key: string, from: int, to: int): nat {
    if calls == [] then 0
    else
      var front, last := calls[..|calls| - 1], calls[|calls| - 1];
      AdmittedCalls(front, cleans, key, from, to)
        + if last.key == key && Step(Table(front, cleans), last, cleans).0 && from <= last.now < to then 1 else 0
  }

  lemma {:induction false} SameAdmissions(calls: seq<Call>, key: string, limit: int, from: int, to: int)
    requires Monotone(calls) && LimitIs(calls, key, limit)
    ensures AdmittedCalls(calls, true, key, from, to) == Admitted(TimesOf(calls, key), limit, from, to)
  {
    if calls != [] {
      var front, last := calls[..|calls| - 1], calls[|calls| - 1];
      SameAdmissions(front, key, limit, from, to);
      CleanupIsUnobservable(front);
      if front != [] { assert front[|front| - 1].now <= last.now; }
      StepIgnoresCleanup(Table(front, true), Table(front, false), last);
      KeysAreIndependent(front, key, limit);
      var times := TimesOf(front, key);
      assert (times + [last.now])[..|times|] == times;
    }
  }

  lemma {:induction false} TimesAreSorted(calls: seq<Call>, key: string)
    requires Monotone(calls)
    ensures Sorted(TimesOf(calls, key))
    ensures forall i :: 0 <= i < |TimesOf(calls, key)| ==> TimesOf(calls, key)[i] <= calls[|calls| - 1].now
  {
    if calls != [] { TimesAreSorted(calls[..|calls| - 1], key); }
  }

  lemma LimiterBound(calls: seq<Call>, key: string, limit: int, from: int)
    requires Monotone(calls) && LimitIs(calls, key, limit) && limit > 0
    ensures AdmittedCalls(calls, true, key, from, from + 60_000_000_000) <= 2 * limit - 1
  {
    SameAdmissions(calls, key, limit, from, from + MINUTE);
    TimesAreSorted(calls, key);
    AnyMinuteIsBounded(TimesOf(calls, key), limit, from);
  }
}
