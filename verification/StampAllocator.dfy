/**
  The lock-free stamp allocator (internal/handler/request_detail_id.go) as interleaved
  steps: any number of threads share one integer, and each load, clock reading and
  compare-and-swap is a step of its own. The clock may return anything, even go backwards.
 */
module StampAllocator {
  type Thread = nat

  /** Where a thread stands in its retry loop. loadedAt counts the successes at its load. */
  datatype Phase =
    | Idle
    | Loaded(last: int, loadedAt: nat)
    | Ready(last: int, next: int, loadedAt: nat)

  /** returned lists the stamps in the order of the swaps that minted them. */
  datatype State = State(shared: int, phases: map<Thread, Phase>, returned: seq<(Thread, int)>)

  datatype Event =
    | Load(thread: Thread)
    | ReadClock(thread: Thread, now: int)
    | CompareAndSwap(thread: Thread)

  const INITIAL := State(0, map[], [])

  function PhaseOf(s: State, t: Thread): Phase { if t in s.phases then s.phases[t] else Idle }

  predicate Enabled(s: State, e: Event) {
    match e
    case Load(t) => PhaseOf(s, t).Idle?
    case ReadClock(t, _) => PhaseOf(s, t).Loaded?
    case CompareAndSwap(t) => PhaseOf(s, t).Ready?
  }

  predicate Succeeds(s: State, t: Thread) {
    PhaseOf(s, t).Ready? && s.shared == PhaseOf(s, t).last
  }

  function Next(s: State, e: Event): State
    requires Enabled(s, e)
  {
    var t := e.thread;
    match e
    case Load(_) => s.(phases := s.phases[t := Loaded(s.shared, |s.returned|)])
    case ReadClock(_, now) =>
      var p := PhaseOf(s, t);
      var next := if now <= p.last then p.last + 1 else now;
      s.(phases := s.phases[t := Ready(p.last, next, p.loadedAt)])
    case CompareAndSwap(_) =>
      var p := PhaseOf(s, t);
      if s.shared == p.last
      then State(p.next, s.phases[t := Idle], s.returned + [(t, p.next)])
      else s.(phases := s.phases[t := Idle])
  }

  /** A failed swap goes back to the load; a successful one returns. Either way Idle. */
  ghost predicate IsRun(events: seq<Event>)
    decreases |events|, 0
  {
    events == [] || (IsRun(events[..|events| - 1])
                     && Enabled(After(events[..|events| - 1]), events[|events| - 1]))
  }

  ghost function After(events: seq<Event>): State
    requires IsRun(events)
    decreases |events|, 1
  {
    if events == [] then INITIAL else Next(After(events[..|events| - 1]), events[|events| - 1])
  }

  // ---------------------------------------------------------------- the invariant

  function Latest(s: State): int {
    if s.returned == [] then 0 else s.returned[|s.returned| - 1].1
  }

  /** The value shared after the first n successful swaps. */
  function ValueAfter(s: State, n: nat): int
    requires n <= |s.returned|
  {
    if n == 0 then 0 else s.returned[n - 1].1
  }

  predicate Increasing(s: State) {
    forall i, j :: 0 <= i < j < |s.returned| ==> s.returned[i].1 < s.returned[j].1
  }

  ghost predicate PhaseOk(s: State, p: Phase) {
    match p
    case Idle => true
    case Loaded(last, at) => at <= |s.returned| && last == ValueAfter(s, at)
    case Ready(last, next, at) => at <= |s.returned| && last == ValueAfter(s, at) && last < next
  }

  ghost predicate Inv(s: State) {
    && s.shared == Latest(s)
    && Increasing(s)
    && (s.returned != [] ==> s.returned[0].1 > 0)
    && forall t :: PhaseOk(s, PhaseOf(s, t))
  }

  /** Values only grow, so two equal ones were read at the same point. */
  lemma SameValueSamePoint(s: State, n: nat)
    requires Inv(s) && n <= |s.returned|
    ensures ValueAfter(s, n) == s.shared <==> n == |s.returned|
    ensures ValueAfter(s, n) <= s.shared
  {
    var size := |s.returned|;
    if 0 < n < size { assert s.returned[n - 1].1 < s.returned[size - 1].1; }
    if n == 0 < size && size > 1 { assert s.returned[0].1 < s.returned[size - 1].1; }
  }

  lemma NextKeepsInv(s: State, e: Event)
    requires Inv(s) && Enabled(s, e)
    ensures Inv(Next(s, e))
  {
    var s' := Next(s, e);
    var p := PhaseOf(s, e.thread);
    assert PhaseOk(s, p);
    if e.CompareAndSwap? && s.shared == p.last {
      forall i | 0 <= i < |s.returned| ensures s.returned[i].1 < p.next {
        assert i < |s.returned| - 1 ==> s.returned[i].1 < s.returned[|s.returned| - 1].1;
      }
      forall t ensures PhaseOk(s', PhaseOf(s', t)) { assert PhaseOk(s, PhaseOf(s, t)); }
    } else {
      forall t ensures PhaseOk(s', PhaseOf(s', t)) { assert PhaseOk(s, PhaseOf(s, t)); }
    }
  }

  lemma {:induction false} RunsKeepInv(events: seq<Event>)
    requires IsRun(events)
    ensures Inv(After(events))
  {
    if events != [] {
      RunsKeepInv(events[..|events| - 1]);
      NextKeepsInv(After(events[..|events| - 1]), events[|events| - 1]);
    }
  }

  // ---------------------------------------------------------------- what callers rely on

  /** In every interleaving all stamps differ and grow in the order of their swaps. */
  lemma StampsAreUniqueAndIncreasing(events: seq<Event>, i: nat, j: nat)
    requires IsRun(events) && i < j < |After(events).returned|
    ensures After(events).returned[i].1 < After(events).returned[j].1
  {
    RunsKeepInv(events);
  }

  /** Between its load and its swap a thread adds no stamp, whatever it and the others do meanwhile. */
  lemma {:induction false} StampsSinceLoadAreForeign(events: seq<Event>, t: Thread, i: nat)
    requires IsRun(events) && !PhaseOf(After(events), t).Idle?
    requires PhaseOf(After(events), t).loadedAt <= i < |After(events).returned|
    ensures After(events).returned[i].0 != t
  {
    var front, e := events[..|events| - 1], events[|events| - 1];
    if !e.Load? || e.thread != t {
      var s := After(front);
      assert !PhaseOf(s, t).Idle? && PhaseOf(s, t).loadedAt == PhaseOf(After(events), t).loadedAt;
      if i < |s.returned| { StampsSinceLoadAreForeign(front, t, i); }
    }
  }

  /** A swap fails exactly when another thread's swap has succeeded since this thread's load. */
  lemma SwapFailsOnlyByInterference(events: seq<Event>, t: Thread)
    requires IsRun(events) && PhaseOf(After(events), t).Ready?
    ensures var s, at := After(events), PhaseOf(After(events), t).loadedAt;
      && (!Succeeds(s, t) <==> exists i :: at <= i < |s.returned| && s.returned[i].0 != t)
      && (!Succeeds(s, t) <==> |s.returned| > at)
  {
    RunsKeepInv(events);
    var s := After(events);
    var at := PhaseOf(s, t).loadedAt;
    assert PhaseOk(s, PhaseOf(s, t));
    SameValueSamePoint(s, at);
    if |s.returned| > at { StampsSinceLoadAreForeign(events, t, at); }
  }

  predicate Active(e: Event, t: Thread) { e.thread == t }

  /** While a thread waits on its swap, only other threads add stamps. */
  lemma {:induction false} InterferenceIsForeign(before: seq<Event>, others: seq<Event>, t: Thread)
    requires IsRun(before + others)
    requires forall i :: 0 <= i < |others| ==> !Active(others[i], t)
    ensures IsRun(before)
    ensures PhaseOf(After(before + others), t) == PhaseOf(After(before), t)
    ensures var was, now := After(before).returned, After(before + others).returned;
      |was| <= |now| && now[..|was|] == was
      && forall i :: |was| <= i < |now| ==> now[i].0 != t
  {
    if others == [] {
      assert before + others == before;
    } else {
      var front := others[..|others| - 1];
      assert (before + others)[..|before + others| - 1] == before + front;
      InterferenceIsForeign(before, front, t);
      assert !Active(others[|others| - 1], t);
    }
  }

  /** A thread left alone for its three steps returns: some thread always makes progress. */
  lemma UndisturbedThreadReturns(events: seq<Event>, t: Thread, now: int)
    requires IsRun(events) && PhaseOf(After(events), t).Idle?
    ensures var e := events + [Load(t)] + [ReadClock(t, now)] + [CompareAndSwap(t)];
      IsRun(e) && |After(e).returned| == |After(events).returned| + 1
      && After(e).returned[|After(events).returned|].0 == t
      && After(e).returned[|After(events).returned|].1 > After(events).shared
  {
    RunPush(events, Load(t));
    RunPush(events + [Load(t)], ReadClock(t, now));
    RunPush(events + [Load(t)] + [ReadClock(t, now)], CompareAndSwap(t));
  }

  lemma RunPush(events: seq<Event>, e: Event)
    requires IsRun(events) && Enabled(After(events), e)
    ensures IsRun(events + [e]) && After(events + [e]) == Next(After(events), e)
  {
    assert (events + [e])[..|events + [e]| - 1] == events;
  }

  /**
    A stamp is the reading of the clock it was made from, or, when the clock does not exceed the value
    loaded before, the next number after that value; so it is never earlier than the reading.
   */
  lemma StampIsReadingOrNext(before: seq<Event>, t: Thread, now: int, others: seq<Event>)
    requires IsRun(before + [ReadClock(t, now)] + others + [CompareAndSwap(t)])
    requires forall i :: 0 <= i < |others| ==> !Active(others[i], t)
    ensures IsRun(before) && PhaseOf(After(before), t).Loaded?
    ensures var read := before + [ReadClock(t, now)];
      var done, last := read + others + [CompareAndSwap(t)], PhaseOf(After(before), t).last;
      IsRun(read + others) &&
      var was, minted := After(read + others).returned, After(done).returned;
      && (minted == was || minted == was + [(t, if now > last then now else last + 1)])
      && (minted != was ==> minted[|was|].1 >= now && minted[|was|].1 > last)
      && (minted != was <==> After(read + others).shared == last)
  {
    var read := before + [ReadClock(t, now)];
    var done := read + others + [CompareAndSwap(t)];
    assert done[..|done| - 1] == read + others;
    InterferenceIsForeign(read, others, t);
    assert read[..|read| - 1] == before;
  }
}
