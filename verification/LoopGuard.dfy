/** The tool-call part of the loop detector (internal/loopguard/loopguard.go). */
module LoopGuard {
  const SINGLE_REPEAT_THRESHOLD := 3
  const SEQUENCE_REPEAT_THRESHOLD := 2
  const MIN_SEQUENCE_LENGTH := 2

  type Call = string  // the hash of one tool call

  // ---------------------------------------------------------------- joining

  /** strings.Join(calls, "|") */
  function Join(calls: seq<Call>): string {
    if calls == [] then ""
    else if |calls| == 1 then calls[0]
    else Join(calls[..|calls| - 1]) + "|" + calls[|calls| - 1]
  }

  /** The offset at which a call starts, were the join continued. */
  function Offset(calls: seq<Call>): nat {
    if calls == [] then 0 else Offset(calls[..|calls| - 1]) + |calls[|calls| - 1]| + 1
  }

  lemma {:induction false} JoinLength(calls: seq<Call>)
    requires calls != []
    ensures |Join(calls)| == Offset(calls) - 1
  {
    if |calls| > 1 { JoinLength(calls[..|calls| - 1]); } else { assert calls[..0] == []; }
  }

  lemma {:induction false} JoinAppend(a: seq<Call>, b: seq<Call>)
    requires a != [] && b != []
    ensures Join(a + b) == Join(a) + "|" + Join(b)
  {
    var ab := a + b;
    assert ab[|ab| - 1] == b[|b| - 1];
    if |b| == 1 {
      assert ab[..|ab| - 1] == a;
      assert b == [b[0]];
    } else {
      assert ab[..|ab| - 1] == a + b[..|b| - 1];
      JoinAppend(a, b[..|b| - 1]);
    }
  }

  /** The join of the last calls of a history is what follows the offset of the first of them. */
  lemma SuffixIsJoin(calls: seq<Call>, i: nat)
    requires i < |calls|
    ensures Offset(calls[..i]) <= |Join(calls)| == Offset(calls) - 1
    ensures Join(calls)[Offset(calls[..i])..] == Join(calls[i..])
  {
    hide Join, Offset;
    JoinLength(calls);
    if i > 0 {
      assert calls == calls[..i] + calls[i..];
      JoinAppend(calls[..i], calls[i..]);
      JoinLength(calls[..i]);
    } else {
      assert calls == calls[i..] && calls[..i] == [];
      OffsetOfNone();
    }
  }

  /** The join of the first calls is a prefix of the whole. */
  lemma PrefixIsJoin(calls: seq<Call>, j: nat)
    requires 0 < j <= |calls|
    ensures 0 <= Offset(calls[..j]) - 1 <= |Join(calls)|
    ensures Join(calls)[..Offset(calls[..j]) - 1] == Join(calls[..j])
  {
    hide Join, Offset;
    JoinLength(calls[..j]);
    if j < |calls| {
      assert calls == calls[..j] + calls[j..];
      JoinAppend(calls[..j], calls[j..]);
    } else {
      assert calls == calls[..j];
    }
  }

  /** A slice of the one joined string is the join of the calls between the two offsets. */
  lemma WindowIsJoin(calls: seq<Call>, i: nat, j: nat)
    requires i < j <= |calls|
    ensures 0 <= Offset(calls[..i]) <= Offset(calls[..j]) - 1 <= |Join(calls)|
    ensures Join(calls)[Offset(calls[..i])..Offset(calls[..j]) - 1] == Join(calls[i..j])
  {
    hide Join, Offset;
    var upTo := calls[..j];
    PrefixIsJoin(calls, j);
    SuffixIsJoin(upTo, i);
    assert upTo[..i] == calls[..i] && upTo[i..] == calls[i..j];
  }

  // ---------------------------------------------------------------- occurrences

  predicate OccursAt(calls: seq<Call>, window: string, length: nat, p: nat) {
    p + length <= |calls| && Join(calls[p..p + length]) == window
  }

  /** Positions that do not overlap, each an occurrence of the window. */
  ghost predicate DisjointOccurrences(calls: seq<Call>, window: string, length: nat, ps: seq<nat>) {
    && (forall i :: 0 <= i < |ps| ==> OccursAt(calls, window, length, ps[i]))
    && (forall i :: 0 <= i < |ps| - 1 ==> ps[i] + length <= ps[i + 1])
  }

  /** The leftmost greedy choice among the positions before end. */
  function Greedy(calls: seq<Call>, window: string, length: nat, end: nat): seq<nat> {
    if end == 0 then []
    else
      var chosen := Greedy(calls, window, length, end - 1);
      if OccursAt(calls, window, length, end - 1)
         && (chosen == [] || chosen[|chosen| - 1] + length <= end - 1)
      then chosen + [end - 1] else chosen
  }

  lemma {:induction false} GreedyIsDisjoint(calls: seq<Call>, window: string, length: nat, end: nat)
    ensures DisjointOccurrences(calls, window, length, Greedy(calls, window, length, end))
    ensures forall i :: 0 <= i < |Greedy(calls, window, length, end)| ==> Greedy(calls, window, length, end)[i] < end
  {
    if end > 0 { GreedyIsDisjoint(calls, window, length, end - 1); }
  }

  /** Greedy is optimal, and among optimal choices it ends earliest. */
  lemma {:induction false} GreedyStaysAhead(calls: seq<Call>, window: string, length: nat, end: nat, ps: seq<nat>)
    requires length > 0 && ps != []
    requires DisjointOccurrences(calls, window, length, ps)
    requires ps[|ps| - 1] < end
    ensures |Greedy(calls, window, length, end)| >= |ps|
    ensures Greedy(calls, window, length, end)[|ps| - 1] <= ps[|ps| - 1]
    decreases end
  {
    hide OccursAt;
    var last := ps[|ps| - 1];
    GreedyIsDisjoint(calls, window, length, end - 1);
    if last < end - 1 {
      GreedyStaysAhead(calls, window, length, end - 1, ps);
    } else if |ps| > 1 {
      var front := ps[..|ps| - 1];
      assert forall i :: 0 <= i < |front| ==> front[i] == ps[i];
      assert front[|front| - 1] + length <= last;
      GreedyStaysAhead(calls, window, length, end - 1, front);
    }
  }

  /** Hence the greedy count is the largest number of disjoint occurrences of a window. */
  lemma GreedyIsMaximal(calls: seq<Call>, window: string, length: nat, ps: seq<nat>)
    requires length > 0 && DisjointOccurrences(calls, window, length, ps)
    ensures DisjointOccurrences(calls, window, length, Greedy(calls, window, length, |calls|))
    ensures |ps| <= |Greedy(calls, window, length, |calls|)|
  {
    GreedyIsDisjoint(calls, window, length, |calls|);
    if ps != [] {
      assert OccursAt(calls, window, length, ps[|ps| - 1]);
      GreedyStaysAhead(calls, window, length, |calls|, ps);
    }
  }

  // ---------------------------------------------------------------- the detector

  /** Some window of the given length occurs at threshold disjoint positions. */
  ghost predicate RepeatsAt(calls: seq<Call>, length: nat, threshold: nat) {
    exists window, ps :: DisjointOccurrences(calls, window, length, ps) && |ps| >= threshold
  }

  ghost predicate Repeats(calls: seq<Call>, minLength: nat, threshold: nat) {
    exists length: nat :: minLength <= length && RepeatsAt(calls, length, threshold)
  }

  lemma {:induction false} RoomBefore(calls: seq<Call>, window: string, length: nat, ps: seq<nat>, k: nat)
    requires DisjointOccurrences(calls, window, length, ps) && k < |ps|
    ensures ps[k] >= k * length
  {
    if k > 0 { RoomBefore(calls, window, length, ps, k - 1); }
  }

  lemma RoomFor(calls: seq<Call>, window: string, length: nat, ps: seq<nat>)
    requires DisjointOccurrences(calls, window, length, ps)
    ensures |ps| * length <= |calls|
  {
    if ps != [] { RoomBefore(calls, window, length, ps, |ps| - 1); }
  }

  /** Too long a window has no room for that many disjoint occurrences. */
  lemma NoRoom(calls: seq<Call>, length: nat, threshold: nat)
    requires length * threshold > |calls|
    ensures !RepeatsAt(calls, length, threshold)
  {
    forall window, ps | DisjointOccurrences(calls, window, length, ps) ensures |ps| < threshold {
      RoomFor(calls, window, length, ps);
      ScaleUp(threshold, if |ps| >= threshold then |ps| else threshold, length);
    }
  }

  lemma ScaleUp(a: nat, b: nat, c: nat)
    requires a <= b
    ensures a * c <= b * c
  {
  }

  datatype Match = Match(next: nat, count: nat)

  function MatchOf(seen: map<string, Match>, window: string): Match {
    if window in seen then seen[window] else Match(0, 0)
  }

  ghost predicate Records(m: Match, chosen: seq<nat>, length: nat) {
    m.count == |chosen| && (chosen != [] ==> m.next == chosen[|chosen| - 1] + length)
  }

  /** What the map knows once every start before this one has been visited. */
  ghost predicate Visited(calls: seq<Call>, seen: map<string, Match>, length: nat, threshold: nat, start: nat) {
    forall window ::
      && Records(MatchOf(seen, window), Greedy(calls, window, length, start), length)
      && |Greedy(calls, window, length, start)| < threshold
  }

  lemma OtherWindow(calls: seq<Call>, window: string, length: nat, start: nat)
    requires start + length <= |calls| && window != Join(calls[start..start + length])
    ensures Greedy(calls, window, length, start + 1) == Greedy(calls, window, length, start)
  {
  }

  lemma ThisWindow(calls: seq<Call>, length: nat, start: nat)
    requires start + length <= |calls|
    ensures var window := Join(calls[start..start + length]);
      var chosen := Greedy(calls, window, length, start);
      Greedy(calls, window, length, start + 1)
        == if chosen == [] || chosen[|chosen| - 1] + length <= start then chosen + [start] else chosen
  {
  }

  lemma VisitSkips(calls: seq<Call>, seen: map<string, Match>, length: nat, threshold: nat, start: nat)
    requires start + length <= |calls| && Visited(calls, seen, length, threshold, start)
    requires var m := MatchOf(seen, Join(calls[start..start + length])); m.count > 0 && start < m.next
    ensures Visited(calls, seen, length, threshold, start + 1)
  {
    hide Greedy, OccursAt;
    forall window ensures Greedy(calls, window, length, start + 1) == Greedy(calls, window, length, start) {
      if window == Join(calls[start..start + length]) { ThisWindow(calls, length, start); }
      else { OtherWindow(calls, window, length, start); }
    }
  }

  lemma VisitCounts(calls: seq<Call>, seen: map<string, Match>, length: nat, threshold: nat, start: nat)
    requires start + length <= |calls| && Visited(calls, seen, length, threshold, start)
    requires var m := MatchOf(seen, Join(calls[start..start + length])); !(m.count > 0 && start < m.next)
    ensures var window := Join(calls[start..start + length]);
      var count := MatchOf(seen, window).count + 1;
      && (count < threshold ==>
           Visited(calls, seen[window := Match(start + length, count)], length, threshold, start + 1))
      && |Greedy(calls, window, length, start + 1)| == count
  {
    hide Greedy, OccursAt;
    var w := Join(calls[start..start + length]);
    ThisWindow(calls, length, start);
    assert Records(MatchOf(seen, w), Greedy(calls, w, length, start), length);
    var seen' := seen[w := Match(start + length, MatchOf(seen, w).count + 1)];
    forall window | window != w
      ensures Greedy(calls, window, length, start + 1) == Greedy(calls, window, length, start)
      ensures MatchOf(seen', window) == MatchOf(seen, window)
    {
      OtherWindow(calls, window, length, start);
    }
  }

  lemma NothingRepeats(calls: seq<Call>, seen: map<string, Match>, length: nat, threshold: nat)
    requires 0 < length <= |calls| && threshold > 0
    requires Visited(calls, seen, length, threshold, |calls| - length + 1)
    ensures !RepeatsAt(calls, length, threshold)
  {
    if window, ps :| DisjointOccurrences(calls, window, length, ps) && |ps| >= threshold {
      assert ps[|ps| - 1] + length <= |calls|;
      GreedyStaysAhead(calls, window, length, |calls| - length + 1, ps);
      assert false;
    }
  }

  method DetectSequenceRepeat(calls: seq<Call>, minLength: nat := MIN_SEQUENCE_LENGTH,
                              threshold: nat := SEQUENCE_REPEAT_THRESHOLD) returns (detected: bool)
    requires minLength > 0 && threshold > 0
    ensures detected <==> Repeats(calls, minLength, threshold)
  {
    hide RepeatsAt, Join, Offset;
    var n := |calls|;
    if n < minLength * threshold {
      LongWindowsDoNotRepeat(calls, minLength, threshold);
      return false;
    }
    var joined := Join(calls);
    var offsets := FillOffsets(calls);
    var length := n / threshold;
    QuotientBounds(n, threshold);
    LongWindowsDoNotRepeat(calls, length + 1, threshold);
    while length >= minLength
      invariant length <= n
      invariant forall k :: 0 <= k <= n ==> offsets[k] == Offset(calls[..k])
      invariant forall l: nat :: length < l ==> !RepeatsAt(calls, l, threshold)
      decreases length
    {
      var found := ScanLength(calls, joined, offsets, length, threshold);
      if found {
        return true;
      }
      length := length - 1;
    }
    detected := false;
  }

  lemma QuotientBounds(n: nat, d: nat)
    requires d > 0
    ensures n / d <= n && (n / d + 1) * d > n
  {
    var q := n / d;
    assert n == q * d + n % d;
    ScaleUp(1, d, q);
    Distribute(q, d);
  }

  lemma Distribute(q: nat, d: nat)
    ensures (q + 1) * d == q * d + d
  {
  }

  lemma LongWindowsDoNotRepeat(calls: seq<Call>, length: nat, threshold: nat)
    requires length * threshold > |calls|
    ensures forall l: nat :: length <= l ==> !RepeatsAt(calls, l, threshold)
  {
    forall l: nat | length <= l ensures !RepeatsAt(calls, l, threshold) {
      ScaleUp(length, l, threshold);
      NoRoom(calls, l, threshold);
    }
  }

  method FillOffsets(calls: seq<Call>) returns (offsets: array<nat>)
    ensures fresh(offsets) && offsets.Length == |calls| + 1
    ensures forall k :: 0 <= k <= |calls| ==> offsets[k] == Offset(calls[..k])
  {
    hide Offset;
    offsets := new nat[|calls| + 1](_ => 0);
    assert calls[..0] == [];
    OffsetOfNone();
    for i := 0 to |calls|
      invariant forall k :: 0 <= k <= i ==> offsets[k] == Offset(calls[..k])
    {
      OffsetPush(calls, i);
      offsets[i + 1] := offsets[i] + |calls[i]| + 1;
    }
  }

  lemma OffsetOfNone()
    ensures Offset([]) == 0
  {
  }

  lemma OffsetPush(calls: seq<Call>, i: nat)
    requires i < |calls|
    ensures Offset(calls[..i + 1]) == Offset(calls[..i]) + |calls[i]| + 1
  {
    assert calls[..i + 1][..i] == calls[..i];
  }

  /** The inner loop: one pass over the starts for one window length. */
  method ScanLength(calls: seq<Call>, joined: string, offsets: array<nat>, length: nat, threshold: nat)
    returns (found: bool)
    requires 0 < length <= |calls| && threshold > 0
    requires joined == Join(calls) && offsets.Length == |calls| + 1
    requires forall k :: 0 <= k <= |calls| ==> offsets[k] == Offset(calls[..k])
    ensures found <==> RepeatsAt(calls, length, threshold)
  {
    hide Visited, RepeatsAt, Greedy, OccursAt, Join, Offset;
    var n := |calls|;
    var seen: map<string, Match> := map[];
    NothingVisited(calls, length, threshold);
    var start := 0;
    while start <= n - length
      invariant 0 <= start <= n - length + 1
      invariant Visited(calls, seen, length, threshold, start)
    {
      WindowIsJoin(calls, start, start + length);
      var window := joined[offsets[start]..offsets[start + length] - 1];
      var previous := MatchOf(seen, window);
      if previous.count > 0 && start < previous.next {
        VisitSkips(calls, seen, length, threshold, start);
        start := start + 1;
        continue;
      }
      VisitCounts(calls, seen, length, threshold, start);
      var count := previous.count + 1;
      if count >= threshold {
        FoundRepeat(calls, window, length, threshold, start + 1);
        return true;
      }
      seen := seen[window := Match(start + length, count)];
      start := start + 1;
    }
    NothingRepeats(calls, seen, length, threshold);
    found := false;
  }

  lemma NothingVisited(calls: seq<Call>, length: nat, threshold: nat)
    requires threshold > 0
    ensures Visited(calls, map[], length, threshold, 0)
  {
  }

  lemma FoundRepeat(calls: seq<Call>, window: string, length: nat, threshold: nat, end: nat)
    requires |Greedy(calls, window, length, end)| >= threshold
    ensures RepeatsAt(calls, length, threshold)
  {
    GreedyIsDisjoint(calls, window, length, end);
    assert DisjointOccurrences(calls, window, length, Greedy(calls, window, length, end));
  }

  // ---------------------------------------------------------------- exactness

  predicate BarFree(calls: seq<Call>) { forall i :: 0 <= i < |calls| ==> '|' !in calls[i] }

  lemma {:induction false} JoinIsInjective(a: seq<Call>, b: seq<Call>)
    requires BarFree(a) && BarFree(b) && |a| == |b| && Join(a) == Join(b)
    ensures a == b
  {
    if |a| > 1 {
      var x, y := a[|a| - 1], b[|b| - 1];
      var u, v := Join(a[..|a| - 1]), Join(b[..|b| - 1]);
      assert u + "|" + x == v + "|" + y;
      BarSplits(u, x, v, y);
      JoinIsInjective(a[..|a| - 1], b[..|b| - 1]);
      assert a == a[..|a| - 1] + [x] && b == b[..|b| - 1] + [y];
    } else if |a| == 1 {
      assert a == [a[0]] && b == [b[0]];
    }
  }

  function LastBar(t: string): nat {
    if t == [] || t[|t| - 1] == '|' then |t| else LastBar(t[..|t| - 1])
  }

  lemma {:induction false} LastBarIs(u: string, x: string)
    requires '|' !in x
    ensures LastBar(u + "|" + x) == |u| + 1
  {
    if x != [] {
      assert (u + "|" + x)[..|u + "|" + x| - 1] == u + "|" + x[..|x| - 1];
      LastBarIs(u, x[..|x| - 1]);
    }
  }

  /** The last bar of a text splits it in one way only. */
  lemma BarSplits(u: string, x: string, v: string, y: string)
    requires u + "|" + x == v + "|" + y && '|' !in x && '|' !in y
    ensures u == v && x == y
  {
    LastBarIs(u, x);
    LastBarIs(v, y);
    assert u == (u + "|" + x)[..|u|] && v == (v + "|" + y)[..|v|];
    assert x == (u + "|" + x)[|u| + 1..] && y == (v + "|" + y)[|v| + 1..];
  }

  /** The same block of calls, call for call, at disjoint positions. */
  ghost predicate DisjointBlocks(calls: seq<Call>, block: seq<Call>, ps: seq<nat>) {
    && (forall i :: 0 <= i < |ps| ==> ps[i] + |block| <= |calls| && calls[ps[i]..ps[i] + |block|] == block)
    && (forall i :: 0 <= i < |ps| - 1 ==> ps[i] + |block| <= ps[i + 1])
  }

  ghost predicate BlockRepeats(calls: seq<Call>, length: nat, threshold: nat) {
    exists block, ps :: |block| == length && DisjointBlocks(calls, block, ps) && |ps| >= threshold
  }

  /** A repeated block is always detected, whatever its calls contain. */
  lemma BlockIsWindow(calls: seq<Call>, length: nat, threshold: nat)
    requires BlockRepeats(calls, length, threshold)
    ensures RepeatsAt(calls, length, threshold)
  {
    var block, ps :| |block| == length && DisjointBlocks(calls, block, ps) && |ps| >= threshold;
    assert DisjointOccurrences(calls, Join(block), length, ps);
  }

  lemma WindowIsBlock(calls: seq<Call>, length: nat, threshold: nat)
    requires BarFree(calls) && RepeatsAt(calls, length, threshold) && threshold > 0
    ensures BlockRepeats(calls, length, threshold)
  {
    var window, ps :| DisjointOccurrences(calls, window, length, ps) && |ps| >= threshold;
    assert OccursAt(calls, window, length, ps[0]);
    var block := calls[ps[0]..ps[0] + length];
    forall i | 0 <= i < |ps| ensures ps[i] + length <= |calls| && calls[ps[i]..ps[i] + length] == block {
      assert OccursAt(calls, window, length, ps[i]);
      JoinIsInjective(calls[ps[i]..ps[i] + length], block);
    }
    assert DisjointBlocks(calls, block, ps);
  }

  /** A long repeated block begins with a shorter one. */
  lemma PrefixRepeats(calls: seq<Call>, length: nat, shorter: nat, threshold: nat)
    requires BlockRepeats(calls, length, threshold) && shorter <= length
    ensures BlockRepeats(calls, shorter, threshold)
  {
    var block, ps :| |block| == length && DisjointBlocks(calls, block, ps) && |ps| >= threshold;
    forall i | 0 <= i < |ps| ensures calls[ps[i]..ps[i] + shorter] == block[..shorter] {
      assert calls[ps[i]..ps[i] + length] == block;
      assert calls[ps[i]..ps[i] + shorter] == calls[ps[i]..ps[i] + length][..shorter];
    }
    assert DisjointBlocks(calls, block[..shorter], ps);
  }

  /** Without a bar in any call, detection means repeated blocks, and the shortest length decides. */
  lemma DetectionIsExact(calls: seq<Call>, minLength: nat, threshold: nat)
    requires BarFree(calls) && threshold > 0
    ensures Repeats(calls, minLength, threshold) <==>
              exists length: nat :: minLength <= length && BlockRepeats(calls, length, threshold)
    ensures Repeats(calls, minLength, threshold) <==> BlockRepeats(calls, minLength, threshold)
  {
    if Repeats(calls, minLength, threshold) {
      var length: nat :| minLength <= length && RepeatsAt(calls, length, threshold);
      WindowIsBlock(calls, length, threshold);
      PrefixRepeats(calls, length, minLength, threshold);
    }
    if length: nat :| minLength <= length && BlockRepeats(calls, length, threshold) {
      BlockIsWindow(calls, length, threshold);
      PrefixRepeats(calls, length, minLength, threshold);
    }
  }

  predicate PairComesBack(calls: seq<Call>, i: nat, j: nat) {
    i + 2 <= j && j + 2 <= |calls| && calls[i] == calls[j] && calls[i + 1] == calls[j + 1]
  }

  lemma RepeatedBlockIsPair(calls: seq<Call>)
    requires BlockRepeats(calls, 2, 2)
    ensures exists i, j :: PairComesBack(calls, i, j)
  {
    var block, ps :| |block| == 2 && DisjointBlocks(calls, block, ps) && |ps| >= 2;
    var i, j := ps[0], ps[1];
    assert calls[i..i + 2] == block && calls[j..j + 2] == block;
    assert calls[i] == block[0] && calls[i + 1] == block[1];
    assert calls[j] == block[0] && calls[j + 1] == block[1];
    assert PairComesBack(calls, i, j);
  }

  lemma PairIsRepeatedBlock(calls: seq<Call>, i: nat, j: nat)
    requires PairComesBack(calls, i, j)
    ensures BlockRepeats(calls, 2, 2)
  {
    assert calls[i..i + 2] == calls[j..j + 2];
    assert DisjointBlocks(calls, calls[i..i + 2], [i, j]);
  }

  /** With the source's constants: two calls in a row come back later. */
  lemma DetectsRepeatedPairs(calls: seq<Call>)
    requires BarFree(calls)
    ensures Repeats(calls, MIN_SEQUENCE_LENGTH, SEQUENCE_REPEAT_THRESHOLD) <==>
              exists i, j :: PairComesBack(calls, i, j)
  {
    hide Repeats, BlockRepeats, PairComesBack;
    DetectionIsExact(calls, 2, 2);
    if BlockRepeats(calls, 2, 2) { RepeatedBlockIsPair(calls); }
    if i, j :| PairComesBack(calls, i, j) { PairIsRepeatedBlock(calls, i, j); }
  }

  lemma PairJoins(a: Call, b: Call)
    ensures Join([a, b]) == a + "|" + b
  {
    assert [a, b][..1] == [a];
  }

  /** Two pairs that read alike although they begin differently. */
  lemma AlikePairs(calls: seq<Call>)
    requires |calls| == 4 && calls[0] != calls[2]
    requires calls[0] + "|" + calls[1] == calls[2] + "|" + calls[3]
    ensures Repeats(calls, 2, 2) && !BlockRepeats(calls, 2, 2)
  {
    PairJoins(calls[0], calls[1]);
    PairJoins(calls[2], calls[3]);
    assert calls[0..2] == [calls[0], calls[1]] && calls[2..4] == [calls[2], calls[3]];
    assert DisjointOccurrences(calls, Join(calls[0..2]), 2, [0, 2]);
    assert RepeatsAt(calls, 2, 2);
    assert !exists i, j :: PairComesBack(calls, i, j);
    if BlockRepeats(calls, 2, 2) { RepeatedBlockIsPair(calls); }
  }

  // ---------------------------------------------------------------- tool calls

  /** The arguments are those that normalizeArgs returns. */
  datatype ToolCall = ToolCall(name: string, arguments: string)

  function ToolCallHash(tc: ToolCall): (r: Call)
    ensures r != ""
  {
    tc.name + "::" + tc.arguments
  }

  function Hashes(tcs: seq<ToolCall>): (r: seq<Call>)
    ensures |r| == |tcs| && forall i :: 0 <= i < |tcs| ==> r[i] == ToolCallHash(tcs[i])
  {
    seq(|tcs|, i requires 0 <= i < |tcs| => ToolCallHash(tcs[i]))
  }

  predicate Over(text: string, chars: set<char>) { forall i :: 0 <= i < |text| ==> text[i] in chars }

  ghost predicate CallsOver(tcs: seq<ToolCall>, names: set<char>, arguments: set<char>) {
    forall i :: 0 <= i < |tcs| ==> Over(tcs[i].name, names) && Over(tcs[i].arguments, arguments)
  }

  /** Whether detection means a repeated block on every history of tool calls written in these characters. */
  ghost predicate ExactOver(chars: set<char>) {
    forall tcs :: CallsOver(tcs, chars, chars) ==> (Repeats(Hashes(tcs), 2, 2) <==> BlockRepeats(Hashes(tcs), 2, 2))
  }

  /** Detection is exact for exactly those character sets that leave out the bar. */
  lemma BarsDecideExactness(chars: set<char>)
    ensures ExactOver(chars) <==> '|' !in chars
  {
    hide Repeats, BlockRepeats;
    if '|' in chars {
      var tcs := [ToolCall("|", "|"), ToolCall("|", ""), ToolCall("|", ""), ToolCall("||", "")];
      assert ToolCallHash(tcs[0]) == "|::|" && ToolCallHash(tcs[1]) == "|::" && ToolCallHash(tcs[3]) == "||::";
      assert Hashes(tcs) == ["|::|", "|::", "|::", "||::"];
      AlikePairs(Hashes(tcs));
      assert Over("", chars) && Over("|", chars) && Over("||", chars);
      assert CallsOver(tcs, chars, chars);
    } else {
      forall tcs | CallsOver(tcs, chars, chars)
        ensures Repeats(Hashes(tcs), 2, 2) <==> BlockRepeats(Hashes(tcs), 2, 2)
      {
        BarsStayOut(tcs, chars, chars);
        DetectionIsExact(Hashes(tcs), 2, 2);
      }
    }
  }

  lemma BarsStayOut(tcs: seq<ToolCall>, names: set<char>, arguments: set<char>)
    requires CallsOver(tcs, names, arguments) && '|' !in names && '|' !in arguments
    ensures BarFree(Hashes(tcs))
  {
    forall i | 0 <= i < |tcs| ensures '|' !in Hashes(tcs)[i] {
      assert '|' !in tcs[i].name && '|' !in tcs[i].arguments;
    }
  }

  /** Four calls with a bar in their arguments, no two alike, that are taken for a loop. */
  lemma BarsCanMislead()
    ensures var calls := Hashes([ToolCall("f", "a|g::b"), ToolCall("h", "c"), ToolCall("f", "a"), ToolCall("g", "b|h::c")]);
      Repeats(calls, 2, 2) && !BlockRepeats(calls, 2, 2)
  {
    var tcs := [ToolCall("f", "a|g::b"), ToolCall("h", "c"), ToolCall("f", "a"), ToolCall("g", "b|h::c")];
    assert ToolCallHash(tcs[0]) == "f::a|g::b" && ToolCallHash(tcs[1]) == "h::c";
    assert ToolCallHash(tcs[2]) == "f::a" && ToolCallHash(tcs[3]) == "g::b|h::c";
    assert Hashes(tcs) == ["f::a|g::b", "h::c", "f::a", "g::b|h::c"];
    assert |Hashes(tcs)[0]| != |Hashes(tcs)[2]|;
    AlikePairs(Hashes(tcs));
  }

  ghost predicate HashIsInjective(names: set<char>, arguments: set<char>) {
    forall a, b :: CallsOver([a, b], names, arguments) && ToolCallHash(a) == ToolCallHash(b) ==> a == b
  }

  /** A hash tells calls apart unless both names and arguments may hold a colon. */
  lemma ColonsDecideHashes(names: set<char>, arguments: set<char>)
    ensures HashIsInjective(names, arguments) <==> ':' !in names || ':' !in arguments
  {
    if ':' in names && ':' in arguments {
      var a, b := ToolCall(":", ""), ToolCall("", ":");
      assert ToolCallHash(a) == ":::" == ToolCallHash(b);
      assert Over("", names) && Over(":", names) && Over("", arguments) && Over(":", arguments);
      assert CallsOver([a, b], names, arguments);
    } else {
      forall a, b | CallsOver([a, b], names, arguments) && ToolCallHash(a) == ToolCallHash(b) ensures a == b {
        assert CallsOver([a, b], names, arguments) && [a, b][0] == a && [a, b][1] == b;
        if ':' !in names { ColonFreeNames(a, b); } else { ColonFreeArguments(a, b); }
      }
    }
  }

  lemma ColonFreeNames(a: ToolCall, b: ToolCall)
    requires ':' !in a.name && ':' !in b.name && ToolCallHash(a) == ToolCallHash(b)
    ensures a == b
  {
    var h, n, m := ToolCallHash(a), |a.name|, |b.name|;
    assert forall i :: 0 <= i < n ==> h[i] == a.name[i];
    assert forall i :: 0 <= i < m ==> h[i] == b.name[i];
    assert h[n] == ':' && h[m] == ':';
    assert n == m;
    assert a.name == h[..n] && b.name == h[..n];
    assert a.arguments == h[n + 2..] && b.arguments == h[n + 2..];
  }

  lemma ColonFreeArguments(a: ToolCall, b: ToolCall)
    requires ':' !in a.arguments && ':' !in b.arguments && ToolCallHash(a) == ToolCallHash(b)
    ensures a == b
  {
    var h, n, m := ToolCallHash(a), |a.name|, |b.name|;
    assert forall i :: n + 2 <= i < |h| ==> h[i] == a.arguments[i - n - 2];
    assert forall i :: m + 2 <= i < |h| ==> h[i] == b.arguments[i - m - 2];
    assert h[n + 1] == ':' && h[m + 1] == ':';
    assert n == m;
    assert a.name == h[..n] && b.name == h[..n];
    assert a.arguments == h[n + 2..] && b.arguments == h[n + 2..];
  }

  predicate CallsComeBack(tcs: seq<ToolCall>, i: nat, j: nat) {
    i + 2 <= j && j + 2 <= |tcs| && tcs[i] == tcs[j] && tcs[i + 1] == tcs[j + 1]
  }

  /** On the calls themselves: no colon in a name and no bar anywhere make detection exact. */
  lemma DetectsRepeatedCalls(tcs: seq<ToolCall>, names: set<char>, arguments: set<char>)
    requires CallsOver(tcs, names, arguments)
    requires ':' !in names && '|' !in names && '|' !in arguments
    ensures Repeats(Hashes(tcs), MIN_SEQUENCE_LENGTH, SEQUENCE_REPEAT_THRESHOLD) <==>
              exists i, j :: CallsComeBack(tcs, i, j)
  {
    hide Repeats, ToolCallHash;
    BarsStayOut(tcs, names, arguments);
    DetectsRepeatedPairs(Hashes(tcs));
    forall i: nat, j: nat ensures PairComesBack(Hashes(tcs), i, j) <==> CallsComeBack(tcs, i, j) {
      if PairComesBack(Hashes(tcs), i, j) {
        ColonFreeNames(tcs[i], tcs[j]);
        ColonFreeNames(tcs[i + 1], tcs[j + 1]);
      }
    }
  }

  // ---------------------------------------------------------------- single repeats

  function CountOf(counts: map<Call, nat>, call: Call): nat { if call in counts then counts[call] else 0 }

  method DetectSingleRepeat(calls: seq<Call>) returns (r: Call)
    ensures r != "" ==> multiset(calls)[r] >= 3
    ensures "" !in calls ==> (r != "" <==> exists h :: multiset(calls)[h] >= 3)
  {
    var counts: map<Call, nat> := map[];
    for i := 0 to |calls|
      invariant forall h :: CountOf(counts, h) == multiset(calls[..i])[h] < SINGLE_REPEAT_THRESHOLD
    {
      var h := calls[i];
      assert calls[..i + 1] == calls[..i] + [h];
      counts := counts[h := CountOf(counts, h) + 1];
      if counts[h] >= SINGLE_REPEAT_THRESHOLD {
        assert calls == calls[..i + 1] + calls[i + 1..];
        return h;
      }
    }
    assert calls[..|calls|] == calls;
    r := "";
  }

  /** The length guard in front of both checks never hides a loop. */
  method DetectToolLoop(tcs: seq<ToolCall>) returns (detected: bool)
    ensures detected <==>
      || (exists h :: multiset(Hashes(tcs))[h] >= 3)
      || Repeats(Hashes(tcs), 2, 2)
  {
    hide Repeats;
    var calls: seq<Call> := [];
    for i := 0 to |tcs|
      invariant calls == Hashes(tcs[..i])
    {
      assert Hashes(tcs[..i + 1]) == Hashes(tcs[..i]) + [ToolCallHash(tcs[i])];
      calls := calls + [ToolCallHash(tcs[i])];
    }
    assert tcs[..|tcs|] == tcs;
    ShortHistories(calls);
    detected := false;
    if |calls| >= SINGLE_REPEAT_THRESHOLD {
      var h := DetectSingleRepeat(calls);
      if h != "" {
        return true;
      }
      detected := DetectSequenceRepeat(calls);
    }
  }

  lemma ShortHistories(calls: seq<Call>)
    ensures forall h :: multiset(calls)[h] <= |calls|
    ensures |calls| < 4 ==> !Repeats(calls, 2, 2)
  {
    forall h ensures multiset(calls)[h] <= |calls| {
      assert |multiset(calls)| == |calls|;
      assert multiset(calls)[h := 0] <= multiset(calls);
    }
    if |calls| < 4 { LongWindowsDoNotRepeat(calls, 2, 2); }
  }
}
