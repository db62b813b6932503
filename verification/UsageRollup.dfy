/**
  The two ways the statistics panel can total a period: summing daily rows
  (internal/handler/usage.go) and scanning the retained events (GetUsageSummary in
  internal/db/usage.go).
 */
module UsageRollup {
  import opened Wrappers
  import opened UsageModel
  import opened MapSums
  import opened UsageImport
  import opened UsageLedger
  import opened UsageLifetime

  // ---------------------------------------------------------------- the scan

  /** start is None for the unbounded period; end is the time of the request. */
  datatype Window = Window(start: Option<int>, end: int)
  {
    function DayStart(): Option<int> {
      match start case None => None case Some(t) => Some(DayOfInstant(t) * DAY)
    }

    predicate Skips(t: int) {
      (start.Some? && t < DayStart().value) || t > end
    }

    /** The events the scan adds to its totals. */
    predicate Holds(e: Entry) {
      e.timestamp.instant.Some? && var t := e.timestamp.instant.value;
        !Skips(t) && (start.Some? ==> start.value <= t)
    }

    /** The daily rows the panel sums: from the first day of the window up to today. */
    predicate HoldsDate(date: DateKey) {
      && date.Date?
      && (start.Some? ==> DayOfInstant(start.value) <= date.day)
      && date.day <= DayOfInstant(end)
    }
  }

  function Scanned(entries: seq<Entry>, w: Window): seq<Entry> {
    if entries == [] then []
    else
      var rest := Scanned(entries[..|entries| - 1], w);
      var e := entries[|entries| - 1];
      if w.Holds(e) then rest + [e] else rest
  }

  /** Events on each date of the scan, counting the whole first day of the window. */
  function Observed(entries: seq<Entry>, w: Window, date: DateKey): int {
    if entries == [] then 0
    else
      var e := entries[|entries| - 1];
      Observed(entries[..|entries| - 1], w, date)
        + Seen(e, w, date)
  }

  function Seen(e: Entry, w: Window, date: DateKey): int {
    if OnDate(e, date) && !w.Skips(e.timestamp.instant.value) then 1 else 0
  }

  function CountAt(counts: map<DateKey, int>, date: DateKey): int {
    if date in counts then counts[date] else 0
  }

  /** The string fields of the meta text that the scan groups by; "" or "unknown" where they are missing. */
  datatype MetaReader = MetaReader(keyId: Meta -> string, client: Meta -> string)

  function KeyLabel(reader: MetaReader): Entry -> string {
    (e: Entry) =>
      if reader.keyId(e.meta) != "" then reader.keyId(e.meta)
      else if e.apiKey == "" then "default" else e.apiKey
  }

  function EndpointLabel(): Entry -> string { (e: Entry) => if e.endpoint == "" then "other" else e.endpoint }

  function ClientLabel(reader: MetaReader): Entry -> string { (e: Entry) => reader.client(e.meta) }

  /** The events counted under their labels. */
  function GroupBy(entries: seq<Entry>, labelOf: Entry -> string): map<string, DayCounter> {
    if entries == [] then map[]
    else
      var groups, e := GroupBy(entries[..|entries| - 1], labelOf), entries[|entries| - 1];
      groups[labelOf(e) := AddUsageToCounter(Lookup(groups, labelOf(e)), e)]
  }

  datatype Summary = Summary(
    day: DayData, byKey: map<string, DayCounter>, byEndpoint: map<string, DayCounter>, byClient: map<string, DayCounter>)

  function SummaryOf(entries: seq<Entry>, reader: MetaReader): Summary {
    Summary(AddAll(EMPTY_DAY, entries), GroupBy(entries, KeyLabel(reader)), GroupBy(entries, EndpointLabel()),
            GroupBy(entries, ClientLabel(reader)))
  }

  lemma CountPush(counts: map<DateKey, int>, date: DateKey)
    ensures forall d :: CountAt(counts[date := CountAt(counts, date) + 1], d) ==
              CountAt(counts, d) + if d == date then 1 else 0
  {
  }

  method GetUsageSummary(rows: seq<Entry>, w: Window, reader: MetaReader)
    returns (r: Option<Summary>, requestsByDay: map<DateKey, int>)
    ensures r == if AllDated(rows) then Some(SummaryOf(Scanned(rows, w), reader)) else None
    ensures r.Some? ==> forall d :: CountAt(requestsByDay, d) == Observed(rows, w, d)
  {
    hide AddUsageToDay, AddUsageToCounter, Scanned, SummaryOf, Lookup;
    NothingScanned(w, reader);
    var day, byKey, byEndpoint, byClient := EMPTY_DAY, map[], map[], map[];
    requestsByDay := map[];
    assert rows[..0] == [];
    for i := 0 to |rows|
      invariant AllDated(rows[..i])
      invariant Summary(day, byKey, byEndpoint, byClient) == SummaryOf(Scanned(rows[..i], w), reader)
      invariant forall d :: CountAt(requestsByDay, d) == Observed(rows[..i], w, d)
    {
      var e := rows[i];
      ScanPush(rows, w, i);
      if e.timestamp.instant.None? {
        return None, requestsByDay;
      }
      var t := e.timestamp.instant.value;
      var date := Date(DayOfInstant(t));
      assert forall d :: Seen(e, w, d) == if d == date && !w.Skips(t) then 1 else 0;
      if w.Skips(t) {
        continue;
      }
      CountPush(requestsByDay, date);
      requestsByDay := requestsByDay[date := CountAt(requestsByDay, date) + 1];
      if w.start.Some? && t < w.start.value {
        continue;
      }
      SummaryPush(Scanned(rows[..i], w), e, reader);
      day := AddUsageToDay(day, e);
      var key, endpoint := e.apiKey, e.endpoint;
      var id := reader.keyId(e.meta);
      if id != "" {
        key := id;
      }
      if key == "" {
        key := "default";
      }
      if endpoint == "" {
        endpoint := "other";
      }
      byKey := byKey[key := AddUsageToCounter(Lookup(byKey, key), e)];
      byEndpoint := byEndpoint[endpoint := AddUsageToCounter(Lookup(byEndpoint, endpoint), e)];
      var client := reader.client(e.meta);
      byClient := byClient[client := AddUsageToCounter(Lookup(byClient, client), e)];
    }
    assert rows[..|rows|] == rows;
    return Some(Summary(day, byKey, byEndpoint, byClient)), requestsByDay;
  }

  lemma NothingScanned(w: Window, reader: MetaReader)
    ensures SummaryOf(Scanned([], w), reader) == Summary(EMPTY_DAY, map[], map[], map[])
    ensures forall d :: Observed([], w, d) == 0
  {
  }

  lemma ScanPush(rows: seq<Entry>, w: Window, i: nat)
    requires i < |rows|
    ensures Scanned(rows[..i + 1], w) == if w.Holds(rows[i]) then Scanned(rows[..i], w) + [rows[i]] else Scanned(rows[..i], w)
    ensures forall d :: Observed(rows[..i + 1], w, d) == Observed(rows[..i], w, d) + Seen(rows[i], w, d)
    ensures HasDate(rows[i]) && AllDated(rows[..i]) ==> AllDated(rows[..i + 1])
  {
    assert rows[..i + 1][..i] == rows[..i];
  }

  lemma SummaryPush(entries: seq<Entry>, e: Entry, reader: MetaReader)
    ensures var s := SummaryOf(entries, reader);
      SummaryOf(entries + [e], reader) == Summary(
        AddUsageToDay(s.day, e),
        s.byKey[KeyLabel(reader)(e) := AddUsageToCounter(Lookup(s.byKey, KeyLabel(reader)(e)), e)],
        s.byEndpoint[EndpointLabel()(e) := AddUsageToCounter(Lookup(s.byEndpoint, EndpointLabel()(e)), e)],
        s.byClient[ClientLabel(reader)(e) := AddUsageToCounter(Lookup(s.byClient, ClientLabel(reader)(e)), e)])
  {
    hide AddUsageToDay, AddUsageToCounter;
    assert (entries + [e])[..|entries + [e]| - 1] == entries;
  }

  /** Every event is counted under exactly one labelOf: the groups add up to the total. */
  lemma {:induction false} GroupsAddUp(entries: seq<Entry>, labelOf: Entry -> string)
    ensures SumCounters(GroupBy(entries, labelOf)) == AddAll(EMPTY_DAY, entries).total
  {
    if entries != [] {
      var front, e := entries[..|entries| - 1], entries[|entries| - 1];
      var groups := GroupBy(front, labelOf);
      GroupsAddUp(front, labelOf);
      SumCountersPut(groups, labelOf(e), AddUsageToCounter(Lookup(groups, labelOf(e)), e));
    }
  }

  // ---------------------------------------------------------------- the sum over daily rows

  ghost function SumAt(days: map<DateKey, DayData>, dim: Dimension): DayCounter {
    SumCounters(map d | d in days :: At(days[d], dim))
  }

  function PlusMaps(a: map<string, DayCounter>, b: map<string, DayCounter>): map<string, DayCounter> {
    map k | k in a.Keys + b.Keys :: Plus(Lookup(a, k), Lookup(b, k))
  }

  method AddBreakdown(acc: map<string, DayCounter>, m: map<string, DayCounter>)
    returns (r: map<string, DayCounter>)
    ensures r == PlusMaps(acc, m)
  {
    hide PlusMaps, Plus;
    r := acc;
    var rest := m;
    ghost var done: map<string, DayCounter> := map[];
    PlusNoMap(acc);
    while rest != map[]
      invariant rest == m - done.Keys && done.Keys <= m.Keys
      invariant forall k :: k in done ==> done[k] == m[k]
      invariant r == PlusMaps(acc, done)
      decreases |rest|
    {
      var k :| k in rest;
      PlusMapsPut(acc, done, k, rest[k]);
      r := r[k := Plus(Lookup(r, k), rest[k])];
      done := done[k := rest[k]];
      rest := rest - {k};
    }
    assert done == m;
  }

  lemma PlusNoMap(acc: map<string, DayCounter>)
    ensures PlusMaps(acc, map[]) == acc
  {
  }

  lemma PlusMapsPut(acc: map<string, DayCounter>, done: map<string, DayCounter>, k: string, v: DayCounter)
    requires k !in done
    ensures PlusMaps(acc, done[k := v])
         == PlusMaps(acc, done)[k := Plus(Lookup(PlusMaps(acc, done), k), v)]
  {
  }

  /** What the summing loop holds after the given days, in terms of each dimension. */
  ghost predicate SumsUp(sum: DayData, days: map<DateKey, DayData>) {
    && (forall dim :: At(sum, dim) == SumAt(days, dim))
    && (forall k :: k in sum.byProvider <==> exists d :: d in days && k in days[d].byProvider)
    && (forall k :: k in sum.byModel <==> exists d :: d in days && k in days[d].byModel)
  }

  lemma SumsUpStep(sum: DayData, days: map<DateKey, DayData>, d: DateKey, day: DayData)
    requires SumsUp(sum, days) && d !in days
    ensures SumsUp(DayData(Plus(sum.total, day.total), PlusMaps(sum.byProvider, day.byProvider),
                          PlusMaps(sum.byModel, day.byModel)), days[d := day])
  {
    var sum' := DayData(Plus(sum.total, day.total), PlusMaps(sum.byProvider, day.byProvider),
                        PlusMaps(sum.byModel, day.byModel));
    var days' := days[d := day];
    forall dim ensures At(sum', dim) == SumAt(days', dim) {
      SumAtPut(days, d, day, dim);
      PlusMapsAt(sum, day, dim);
    }
    forall k ensures k in sum'.byProvider <==> exists c :: c in days' && k in days'[c].byProvider {
      if k in day.byProvider { assert k in days'[d].byProvider; }
      if c :| c in days && k in days[c].byProvider { assert k in days'[c].byProvider; }
    }
    forall k ensures k in sum'.byModel <==> exists c :: c in days' && k in days'[c].byModel {
      if k in day.byModel { assert k in days'[d].byModel; }
      if c :| c in days && k in days[c].byModel { assert k in days'[c].byModel; }
    }
  }

  lemma PlusMapsAt(a: DayData, b: DayData, dim: Dimension)
    ensures At(DayData(Plus(a.total, b.total), PlusMaps(a.byProvider, b.byProvider),
                       PlusMaps(a.byModel, b.byModel)), dim) == Plus(At(a, dim), At(b, dim))
  {
  }

  lemma SumAtPut(days: map<DateKey, DayData>, d: DateKey, day: DayData, dim: Dimension)
    requires d !in days
    ensures SumAt(days[d := day], dim) == Plus(SumAt(days, dim), At(day, dim))
  {
    var m := map c | c in days :: At(days[c], dim);
    var days' := days[d := day];
    assert (map c | c in days' :: At(days'[c], dim)) == m[d := At(day, dim)];
    SumCountersPut(m, d, At(day, dim));
  }

  function InWindow(days: map<DateKey, DayData>, w: Window): map<DateKey, DayData> {
    map d | d in days && w.HoldsDate(d) :: days[d]
  }

  /** The days of which the rows know more requests than the scan has seen. */
  function MissingDates(days: map<DateKey, DayData>, counts: map<DateKey, int>): set<DateKey> {
    set d | d in days && days[d].total.requests > CountAt(counts, d)
  }

  method SumDailyRows(days: map<DateKey, DayData>, w: Window, counts: map<DateKey, int>)
    returns (sum: DayData, missing: set<DateKey>)
    ensures SumsUp(sum, InWindow(days, w))
    ensures missing == MissingDates(InWindow(days, w), counts)
  {
    hide SumsUp, MissingDates, InWindow, Window.HoldsDate, PlusMaps, Plus;
    sum, missing := EMPTY_DAY, {};
    ghost var done: map<DateKey, DayData> := map[];
    SumsUpNothing();
    NothingMissing(counts);
    var rest := days.Keys;
    WindowDone(days, w);
    while rest != {}
      invariant rest <= days.Keys
      invariant done == InWindow(days, w) - rest
      invariant SumsUp(sum, done) && missing == MissingDates(done, counts)
      decreases |rest|
    {
      var d :| d in rest;
      WindowStep(days, w, rest, d);
      rest := rest - {d};
      if w.HoldsDate(d) {
        MissingPut(done, d, days[d], counts);
        if days[d].total.requests > CountAt(counts, d) {
          missing := missing + {d};
        }
        SumsUpStep(sum, done, d, days[d]);
        var byProvider := AddBreakdown(sum.byProvider, days[d].byProvider);
        var byModel := AddBreakdown(sum.byModel, days[d].byModel);
        sum := DayData(Plus(sum.total, days[d].total), byProvider, byModel);
        done := done[d := days[d]];
      }
    }
    assert done == InWindow(days, w);
  }

  lemma WindowDone(days: map<DateKey, DayData>, w: Window)
    ensures InWindow(days, w) - days.Keys == map[]
  {
  }

  lemma WindowStep(days: map<DateKey, DayData>, w: Window, rest: set<DateKey>, d: DateKey)
    requires d in rest && rest <= days.Keys
    ensures d !in InWindow(days, w) - rest
    ensures InWindow(days, w) - (rest - {d}) ==
      if w.HoldsDate(d) then (InWindow(days, w) - rest)[d := days[d]] else InWindow(days, w) - rest
  {
    hide Window.HoldsDate;
  }

  lemma NothingMissing(counts: map<DateKey, int>)
    ensures MissingDates(map[], counts) == {}
  {
  }

  lemma MissingPut(days: map<DateKey, DayData>, d: DateKey, day: DayData, counts: map<DateKey, int>)
    requires d !in days
    ensures MissingDates(days[d := day], counts)
         == MissingDates(days, counts) + if day.total.requests > CountAt(counts, d) then {d} else {}
  {
  }

  lemma SumAtNone(days: map<DateKey, DayData>, dim: Dimension)
    ensures days.Keys == {} ==> SumAt(days, dim) == ZERO
  {
    var counters := map d | d in days :: At(days[d], dim);
    assert counters.Keys == days.Keys;
  }

  lemma SumsUpNothing()
    ensures SumsUp(EMPTY_DAY, map[])
  {
    forall dim ensures SumAt(map[], dim) == ZERO { SumAtNone(map[], dim); }
  }

  // ---------------------------------------------------------------- runs of saves

  /** A save whose timestamp, possibly filled in, can be parsed. */
  predicate SavesDated(step: Step) { step.SaveStep? && HasDate(Defaulted(step.e, step.now)) }

  ghost predicate Exact(l: Ledger) {
    && AllDated(l.history)
    && l.daily.Keys == Dates(l.history)
    && forall d :: d in l.daily ==> l.daily[d] == Json(DayOf(l.history, d))
  }

  lemma DayOfPush(entries: seq<Entry>, e: Entry, d: DateKey)
    ensures DayOf(entries + [e], d) ==
      if OnDate(e, d) then AddUsageToDay(DayOf(entries, d), e) else DayOf(entries, d)
    ensures d in Dates(entries + [e]) <==> d in Dates(entries) || OnDate(e, d)
  {
    assert (entries + [e])[..|entries + [e]| - 1] == entries;
  }

  lemma SaveIsExact(l: Ledger, e: Entry, now: Clock)
    requires Exact(l) && HasDate(Defaulted(e, now))
    ensures Exact(Save(l, e, now))
  {
    hide AddUsageToDay, DayOf, Dates, Defaulted, OnDate;
    OnItsDate(Defaulted(e, now), l.nextId, DayOfInstant(now.instant));
    var l' := Save(l, e, now);
    var e' := Defaulted(e, now).(id := l.nextId);
    var date := DateKeyOf(e'.timestamp, DayOfInstant(now.instant));
    if date !in l.daily { DayOfAbsent(l.history, date); }
    IdIsNotCounted(RowAt(l.daily, date), Defaulted(e, now), l.nextId);
    forall d
      ensures d in l'.daily <==> d in Dates(l'.history)
      ensures d in l'.daily ==> l'.daily[d] == Json(DayOf(l'.history, d))
    {
      DayOfPush(l.history, e', d);
    }
  }

  lemma OnItsDate(e: Entry, id: int, today: int)
    ensures HasDate(e) ==> forall d :: OnDate(e.(id := id), d) <==> d == DateKeyOf(e.timestamp, today)
  {
  }

  lemma IdIsNotCounted(day: DayData, e: Entry, id: int)
    ensures AddUsageToDay(day, e.(id := id)) == AddUsageToDay(day, e)
  {
  }

  lemma {:induction false} SavesStayExact(steps: seq<Step>)
    requires forall i :: 0 <= i < |steps| ==> SavesDated(steps[i])
    ensures Exact(Run(EMPTY, steps))
  {
    if steps != [] {
      var last := steps[|steps| - 1];
      SavesStayExact(steps[..|steps| - 1]);
      SaveIsExact(Run(EMPTY, steps[..|steps| - 1]), last.e, last.now);
    }
  }

  // ---------------------------------------------------------------- rollup against scan

  /** Events on the days of the window that the scan nevertheless leaves out. */
  function Outside(entries: seq<Entry>, w: Window): seq<Entry> {
    if entries == [] then []
    else
      var rest := Outside(entries[..|entries| - 1], w);
      var e := entries[|entries| - 1];
      if HasDate(e) && w.HoldsDate(Date(DayOfInstant(e.timestamp.instant.value))) && !w.Holds(e)
      then rest + [e] else rest
  }

  function Part(e: Entry, dim: Dimension): DayCounter {
    if Counts(dim, e) then AddUsageToCounter(ZERO, e) else ZERO
  }

  function Folded(entries: seq<Entry>, dim: Dimension): DayCounter { At(AddAll(EMPTY_DAY, entries), dim) }

  lemma FoldedPush(entries: seq<Entry>, e: Entry, dim: Dimension)
    ensures Folded(entries + [e], dim) == Plus(Folded(entries, dim), Part(e, dim))
  {
    assert (entries + [e])[..|entries + [e]| - 1] == entries;
    AddUsageAt(AddAll(EMPTY_DAY, entries), e, dim);
  }

  lemma TallyPart(entries: seq<Entry>, e: Entry, d: DateKey, dim: Dimension)
    ensures Tally(entries + [e], d, dim) ==
      if OnDate(e, d) then Plus(Tally(entries, d, dim), Part(e, dim)) else Tally(entries, d, dim)
  {
    TallyPush(entries, e, d, dim);
  }

  ghost function TallySum(entries: seq<Entry>, dates: set<DateKey>, dim: Dimension): DayCounter {
    SumCounters(map d | d in dates :: Tally(entries, d, dim))
  }

  lemma TallySumPush(entries: seq<Entry>, e: Entry, dates: set<DateKey>, dim: Dimension)
    ensures TallySum(entries + [e], dates, dim) ==
      if exists d :: d in dates && OnDate(e, d) then Plus(TallySum(entries, dates, dim), Part(e, dim))
      else TallySum(entries, dates, dim)
  {
    hide Tally, Part, Plus;
    var before := map d | d in dates :: Tally(entries, d, dim);
    var after := map d | d in dates :: Tally(entries + [e], d, dim);
    forall d | d in dates
      ensures after[d] == if OnDate(e, d) then Plus(before[d], Part(e, dim)) else before[d]
    {
      TallyPart(entries, e, d, dim);
    }
    if d :| d in dates && OnDate(e, d) {
      assert after == before[d := Plus(before[d], Part(e, dim))];
      SumCountersPut(before, d, Plus(before[d], Part(e, dim)));
      CancelPlus(SumCounters(after), SumCounters(before), before[d], Part(e, dim));
    } else {
      assert after == before;
    }
  }

  lemma CancelPlus(x: DayCounter, y: DayCounter, c: DayCounter, p: DayCounter)
    requires Plus(x, c) == Plus(y, Plus(c, p))
    ensures x == Plus(y, p)
  {
  }

  /** dates are the days of the window on which anything happened. */
  ghost predicate WindowDates(entries: seq<Entry>, w: Window, dates: set<DateKey>) {
    && (forall d :: d in dates ==> w.HoldsDate(d))
    && forall i, d :: 0 <= i < |entries| && OnDate(entries[i], d) && w.HoldsDate(d) ==> d in dates
  }

  lemma HeldOnHeldDate(w: Window, e: Entry)
    requires w.Holds(e)
    ensures w.HoldsDate(Date(DayOfInstant(e.timestamp.instant.value)))
  {
  }

  lemma {:induction false} SumSplits(entries: seq<Entry>, w: Window, dates: set<DateKey>, dim: Dimension)
    requires WindowDates(entries, w, dates)
    ensures TallySum(entries, dates, dim)
         == Plus(Folded(Scanned(entries, w), dim), Folded(Outside(entries, w), dim))
  {
    hide TallySum, Folded, Scanned, Outside, Window.HoldsDate;
    if entries == [] {
      NothingSplits(w, dates, dim);
    } else {
      var front, e := entries[..|entries| - 1], entries[|entries| - 1];
      assert forall i :: 0 <= i < |front| ==> front[i] == entries[i];
      SumSplits(front, w, dates, dim);
      assert entries == front + [e];
      SumSplitsPush(front, e, w, dates, dim);
    }
  }

  lemma SumSplitsPush(front: seq<Entry>, e: Entry, w: Window, dates: set<DateKey>, dim: Dimension)
    requires WindowDates(front + [e], w, dates)
    requires TallySum(front, dates, dim)
          == Plus(Folded(Scanned(front, w), dim), Folded(Outside(front, w), dim))
    ensures TallySum(front + [e], dates, dim)
         == Plus(Folded(Scanned(front + [e], w), dim), Folded(Outside(front + [e], w), dim))
  {
    hide TallySum, Folded, Part, Window.Holds, Window.HoldsDate;
    assert (front + [e])[..|front + [e]| - 1] == front && (front + [e])[|front|] == e;
    TallySumPush(front, e, dates, dim);
    FoldedPush(Scanned(front, w), e, dim);
    FoldedPush(Outside(front, w), e, dim);
    if HasDate(e) {
      var date := Date(DayOfInstant(e.timestamp.instant.value));
      assert OnDate(e, date);
      if w.Holds(e) { HeldOnHeldDate(w, e); }
    } else {
      Undated(w, e);
    }
  }

  lemma NothingSplits(w: Window, dates: set<DateKey>, dim: Dimension)
    ensures TallySum([], dates, dim)
         == Plus(Folded(Scanned([], w), dim), Folded(Outside([], w), dim))
  {
    SumOfZeros(dates, dim);
  }

  lemma Undated(w: Window, e: Entry)
    requires !HasDate(e)
    ensures !w.Holds(e)
  {
  }

  lemma SumOfZeros(dates: set<DateKey>, dim: Dimension)
    ensures TallySum([], dates, dim) == ZERO
  {
    var m := map d | d in dates :: Tally([], d, dim);
    AllZero(m);
  }

  lemma {:induction false} AllZero(m: map<DateKey, DayCounter>)
    requires forall d :: d in m ==> m[d] == ZERO
    ensures SumCounters(m) == ZERO
    decreases |m|
  {
    if m != map[] {
      var d :| d in m;
      SumCountersPick(m, d);
      AllZero(m - {d});
    }
  }

  // ---------------------------------------------------------------- the two totals

  function DaysIn(daily: map<DateKey, DayBlob>): map<DateKey, DayData> {
    map d | d in daily :: DayIn(daily[d])
  }

  /** rows is what the database returns for the history table, in whatever order. */
  lemma RollupSplits(l: Ledger, rows: seq<Entry>, w: Window, sum: DayData, dim: Dimension)
    requires Exact(l) && multiset(rows) == multiset(l.history)
    requires SumsUp(sum, InWindow(DaysIn(l.daily), w))
    ensures At(sum, dim) == Plus(Folded(Scanned(rows, w), dim), Folded(Outside(rows, w), dim))
  {
    hide Tally, Scanned, Outside, Folded, Window.HoldsDate, DayOf, SumCounters, At, OnDate;
    var days := InWindow(DaysIn(l.daily), w);
    RowsAreTallies(l, rows, w, dim);
    assert (map d | d in days :: At(days[d], dim)) == (map d | d in days.Keys :: Tally(rows, d, dim));
    DatesOfWindow(l, rows, w);
    SumSplits(rows, w, days.Keys, dim);
  }

  lemma RowsAreTallies(l: Ledger, rows: seq<Entry>, w: Window, dim: Dimension)
    requires Exact(l) && multiset(rows) == multiset(l.history)
    ensures forall d :: d in InWindow(DaysIn(l.daily), w) ==>
      At(InWindow(DaysIn(l.daily), w)[d], dim) == Tally(rows, d, dim)
  {
    hide Tally, Window.HoldsDate, DayOf, At;
    var days := InWindow(DaysIn(l.daily), w);
    forall d | d in days ensures At(days[d], dim) == Tally(rows, d, dim) {
      DayOfAt(l.history, d, dim);
      TallyIgnoresOrder(rows, l.history, d, dim);
    }
  }

  lemma DatesOfWindow(l: Ledger, rows: seq<Entry>, w: Window)
    requires Exact(l) && multiset(rows) == multiset(l.history)
    ensures WindowDates(rows, w, InWindow(DaysIn(l.daily), w).Keys)
  {
    forall i, d | 0 <= i < |rows| && OnDate(rows[i], d) && w.HoldsDate(d)
      ensures d in InWindow(DaysIn(l.daily), w)
    {
      assert rows[i] in multiset(l.history);
      var j :| 0 <= j < |l.history| && l.history[j] == rows[i];
      assert OnDate(l.history[j], d);
    }
  }

  lemma {:induction false} FoldedRequests(entries: seq<Entry>, dim: Dimension)
    ensures Folded(entries, Total).requests == |entries|
    ensures Folded(entries, dim).requests >= 0
  {
    if entries != [] {
      var front, e := entries[..|entries| - 1], entries[|entries| - 1];
      FoldedRequests(front, dim);
      assert entries == front + [e];
      FoldedPush(front, e, Total);
      FoldedPush(front, e, dim);
    }
  }

  /** A breakdown lists exactly the keys something was counted for. */
  ghost predicate ListsCounted(day: DayData) {
    && (forall k :: k in day.byProvider <==> At(day, Provider(k)).requests > 0)
    && (forall k :: k in day.byModel <==> At(day, Model(k)).requests > 0)
  }

  lemma {:induction false} FoldListsCounted(entries: seq<Entry>)
    ensures ListsCounted(AddAll(EMPTY_DAY, entries))
  {
    if entries != [] {
      var front, e := entries[..|entries| - 1], entries[|entries| - 1];
      FoldListsCounted(front);
      forall dim ensures At(AddAll(EMPTY_DAY, front), dim).requests >= 0 { FoldedRequests(front, dim); }
      AddListsCounted(AddAll(EMPTY_DAY, front), e);
    }
  }

  lemma AddListsCounted(day: DayData, e: Entry)
    requires ListsCounted(day) && forall dim :: At(day, dim).requests >= 0
    ensures ListsCounted(AddUsageToDay(day, e))
  {
    var day' := AddUsageToDay(day, e);
    forall k ensures k in day'.byProvider <==> At(day', Provider(k)).requests > 0 {
      AddUsageAt(day, e, Provider(k));
      assert At(day, Provider(k)).requests >= 0;
    }
    forall k ensures k in day'.byModel <==> At(day', Model(k)).requests > 0 {
      AddUsageAt(day, e, Model(k));
      assert At(day, Model(k)).requests >= 0;
    }
  }

  lemma {:induction false} SumPositive(m: map<DateKey, DayCounter>)
    requires forall d :: d in m ==> m[d].requests >= 0
    ensures SumCounters(m).requests >= 0
    ensures SumCounters(m).requests > 0 <==> exists d :: d in m && m[d].requests > 0
    decreases |m|
  {
    if m != map[] {
      var d :| d in m;
      SumCountersPick(m, d);
      SumPositive(m - {d});
      if c :| c in m && m[c].requests > 0 { assert c == d || (m - {d})[c].requests > 0; }
      if c :| c in m - {d} && (m - {d})[c].requests > 0 { assert m[c].requests > 0; }
    }
  }

  lemma SumListsCounted(l: Ledger, w: Window, sum: DayData)
    requires Exact(l) && SumsUp(sum, InWindow(DaysIn(l.daily), w))
    ensures ListsCounted(sum)
  {
    hide SumsUp, ListsCounted, Window.HoldsDate, DayOf;
    var days := InWindow(DaysIn(l.daily), w);
    forall d | d in days ensures ListsCounted(days[d]) && forall dim :: At(days[d], dim).requests >= 0 {
      DayListsCounted(l.history, d);
    }
    SumKeys(days, sum);
  }

  lemma DayListsCounted(entries: seq<Entry>, d: DateKey)
    ensures ListsCounted(DayOf(entries, d)) && forall dim :: At(DayOf(entries, d), dim).requests >= 0
  {
    hide DayOf, Tally, At;
    forall dim ensures At(DayOf(entries, d), dim).requests >= 0 {
      DayOfAt(entries, d, dim);
      TallyRequests(entries, d, dim);
    }
    forall k
      ensures k in DayOf(entries, d).byProvider <==> At(DayOf(entries, d), Provider(k)).requests > 0
      ensures k in DayOf(entries, d).byModel <==> At(DayOf(entries, d), Model(k)).requests > 0
    {
      DayOfKeys(entries, d, k);
      DayOfAt(entries, d, Provider(k));
      DayOfAt(entries, d, Model(k));
    }
  }

  lemma SumKeys(days: map<DateKey, DayData>, sum: DayData)
    requires SumsUp(sum, days)
    requires forall d :: d in days ==> ListsCounted(days[d]) && forall dim :: At(days[d], dim).requests >= 0
    ensures ListsCounted(sum)
  {
    hide At, SumsUp;
    forall k ensures k in sum.byProvider <==> At(sum, Provider(k)).requests > 0 { ProviderListed(days, sum, k); }
    forall k ensures k in sum.byModel <==> At(sum, Model(k)).requests > 0 { ModelListed(days, sum, k); }
  }

  lemma ProviderListed(days: map<DateKey, DayData>, sum: DayData, k: string)
    requires SumsUp(sum, days)
    requires forall d :: d in days ==> At(days[d], Provider(k)).requests >= 0
    requires forall d :: d in days ==> (k in days[d].byProvider <==> At(days[d], Provider(k)).requests > 0)
    ensures k in sum.byProvider <==> At(sum, Provider(k)).requests > 0
  {
    hide At, SumAt;
    SumKey(days, sum, Provider(k));
  }

  lemma ModelListed(days: map<DateKey, DayData>, sum: DayData, k: string)
    requires SumsUp(sum, days)
    requires forall d :: d in days ==> At(days[d], Model(k)).requests >= 0
    requires forall d :: d in days ==> (k in days[d].byModel <==> At(days[d], Model(k)).requests > 0)
    ensures k in sum.byModel <==> At(sum, Model(k)).requests > 0
  {
    hide At, SumAt;
    SumKey(days, sum, Model(k));
  }

  lemma SumKey(days: map<DateKey, DayData>, sum: DayData, dim: Dimension)
    requires SumsUp(sum, days)
    requires forall d :: d in days ==> At(days[d], dim).requests >= 0
    ensures At(sum, dim).requests > 0 <==> exists d :: d in days && At(days[d], dim).requests > 0
  {
    var m := map d | d in days :: At(days[d], dim);
    SumPositive(m);
    if d :| d in m && m[d].requests > 0 { assert At(days[d], dim).requests > 0; }
    if d :| d in days && At(days[d], dim).requests > 0 { assert m[d].requests > 0; }
  }

  lemma SameDay(a: DayData, b: DayData)
    requires ListsCounted(a) && ListsCounted(b)
    requires forall dim :: At(a, dim) == At(b, dim)
    ensures a == b
  {
    assert At(a, Total) == At(b, Total);
    forall k ensures (k in a.byProvider <==> k in b.byProvider) && (k in a.byProvider ==> a.byProvider[k] == b.byProvider[k]) {
      assert At(a, Provider(k)) == At(b, Provider(k));
    }
    forall k ensures (k in a.byModel <==> k in b.byModel) && (k in a.byModel ==> a.byModel[k] == b.byModel[k]) {
      assert At(a, Model(k)) == At(b, Model(k));
    }
  }

  /** An event on the last day of the window but after the moment of the request. */
  predicate Pending(e: Entry, w: Window) {
    e.timestamp.instant.Some? && var t := e.timestamp.instant.value;
      t > w.end && DayOfInstant(t) == DayOfInstant(w.end) && (w.start.Some? ==> w.start.value <= t)
  }

  lemma {:induction false} OutsideIsPending(entries: seq<Entry>, w: Window)
    requires w.start.Some? ==> w.start.value == DayOfInstant(w.start.value) * DAY
    ensures Outside(entries, w) == [] <==> forall i :: 0 <= i < |entries| ==> !Pending(entries[i], w)
  {
    if entries != [] {
      var front, e := entries[..|entries| - 1], entries[|entries| - 1];
      OutsideIsPending(front, w);
      assert forall i :: 0 <= i < |front| ==> front[i] == entries[i];
    }
  }

  /**
    After saves alone, with every event time at hand, the rollup and the scan agree on a
    window that starts on a day boundary exactly when no retained event of the current day
    lies in the future; the row order of the scan plays no part.
   */
  lemma RollupRefinesScan(steps: seq<Step>, rows: seq<Entry>, w: Window, sum: DayData)
    requires forall i :: 0 <= i < |steps| ==> SavesDated(steps[i])
    requires multiset(rows) == multiset(Run(EMPTY, steps).history)
    requires SumsUp(sum, InWindow(DaysIn(Run(EMPTY, steps).daily), w))
    requires w.start.Some? ==> w.start.value == DayOfInstant(w.start.value) * DAY
    ensures sum == AddAll(EMPTY_DAY, Scanned(rows, w)) <==>
              forall i :: 0 <= i < |rows| ==> !Pending(rows[i], w)
  {
    hide SumsUp, Run, Exact, Pending, Outside, Scanned;
    var l := Run(EMPTY, steps);
    SavesStayExact(steps);
    OutsideIsPending(rows, w);
    if Outside(rows, w) == [] { NothingOutside(l, rows, w, sum); } else { SomethingOutside(l, rows, w, sum); }
  }

  lemma NothingOutside(l: Ledger, rows: seq<Entry>, w: Window, sum: DayData)
    requires Exact(l) && multiset(rows) == multiset(l.history)
    requires SumsUp(sum, InWindow(DaysIn(l.daily), w))
    requires Outside(rows, w) == []
    ensures sum == AddAll(EMPTY_DAY, Scanned(rows, w))
  {
    hide SumsUp, Exact, ListsCounted, Outside, Scanned, AddAll, At;
    var scan := AddAll(EMPTY_DAY, Scanned(rows, w));
    FoldListsCounted(Scanned(rows, w));
    SumListsCounted(l, w, sum);
    forall dim ensures At(sum, dim) == At(scan, dim) {
      RollupSplits(l, rows, w, sum, dim);
      FoldedNothing(dim);
      NothingToAdd(At(scan, dim));
    }
    SameDay(sum, scan);
  }

  lemma FoldedNothing(dim: Dimension)
    ensures Folded([], dim) == ZERO
  {
  }

  lemma NothingToAdd(c: DayCounter)
    ensures Plus(c, ZERO) == c
  {
  }

  lemma SomethingOutside(l: Ledger, rows: seq<Entry>, w: Window, sum: DayData)
    requires Exact(l) && multiset(rows) == multiset(l.history)
    requires SumsUp(sum, InWindow(DaysIn(l.daily), w))
    requires Outside(rows, w) != []
    ensures sum.total.requests > AddAll(EMPTY_DAY, Scanned(rows, w)).total.requests
  {
    hide SumsUp, Exact, Outside, Scanned, AddAll;
    RollupSplits(l, rows, w, sum, Total);
    FoldedRequests(Outside(rows, w), Total);
  }

  // ---------------------------------------------------------------- when nothing is pending

  /** One event of later today is enough to tell the two totals apart. */
  lemma FutureEventShows(e: Entry, now: Clock, w: Window, rows: seq<Entry>, sum: DayData)
    requires Pending(e, w) && e.timestamp.text != ""
    requires w.start.Some? ==> w.start.value == DayOfInstant(w.start.value) * DAY
    requires multiset(rows) == multiset(Run(EMPTY, [SaveStep(e, now)]).history)
    requires SumsUp(sum, InWindow(DaysIn(Run(EMPTY, [SaveStep(e, now)]).daily), w))
    ensures sum != AddAll(EMPTY_DAY, Scanned(rows, w))
  {
    hide SumsUp, InWindow, DaysIn, Scanned, AddAll;
    var steps := [SaveStep(e, now)];
    assert steps[..0] == [];
    var stored := Defaulted(e, now).(id := 1);
    assert Run(EMPTY, steps).history == [stored];
    assert stored in multiset(rows);
    var i :| 0 <= i < |rows| && rows[i] == stored;
    assert Pending(rows[i], w);
    RollupRefinesScan(steps, rows, w, sum);
  }

  /** Such an event exists for every window that does not end with its day. */
  lemma FutureEventExists(w: Window) returns (e: Entry)
    requires DayOfInstant(w.end + 1) == DayOfInstant(w.end) && (w.start.Some? ==> w.start.value <= w.end)
    ensures Pending(e, w) && e.timestamp.text != ""
  {
    e := Entry("", Timestamp("later", Some(w.end + 1)), "", "m", "", "", "", "", Meta("", 0), 0, 1, 1, 0.0);
  }

  /** The gateway's own saves leave the timestamp empty, and so are stamped with the clock. */
  predicate StampedBy(step: Step, end: int) { step.SaveStep? && step.e.timestamp.text == "" && step.now.instant <= end }

  lemma {:induction false} StampedEventsAreNotPending(steps: seq<Step>, w: Window)
    requires forall i :: 0 <= i < |steps| ==> StampedBy(steps[i], w.end)
    ensures forall e :: e in Run(EMPTY, steps).history ==> !Pending(e, w)
  {
    if steps != [] {
      StampedEventsAreNotPending(steps[..|steps| - 1], w);
      assert StampedBy(steps[|steps| - 1], w.end);
    }
  }

  lemma {:induction false} ObservedIsRetained(entries: seq<Entry>, w: Window, d: DateKey)
    requires w.HoldsDate(d)
    requires forall i :: 0 <= i < |entries| && OnDate(entries[i], d) ==> entries[i].timestamp.instant.value <= w.end
    ensures Observed(entries, w, d) == Tally(entries, d, Total).requests
  {
    if entries != [] {
      var front := entries[..|entries| - 1];
      assert forall i :: 0 <= i < |front| ==> front[i] == entries[i];
      ObservedIsRetained(front, w, d);
    }
  }

  /**
    On any ledger whose events of the window are not in the future, a day is reported as incomplete
    exactly when its row has counted more requests than events of that day are retained.
   */
  lemma MissingMeansPruned(l: Ledger, rows: seq<Entry>, w: Window, counts: map<DateKey, int>, d: DateKey)
    requires multiset(rows) == multiset(l.history) && d in l.daily
    requires forall c :: CountAt(counts, c) == Observed(rows, w, c)
    requires forall i :: 0 <= i < |rows| && OnDate(rows[i], d) ==> rows[i].timestamp.instant.value <= w.end
    ensures d in MissingDates(InWindow(DaysIn(l.daily), w), counts) <==>
              w.HoldsDate(d) && RowRequests(l, d) > Retained(l, d)
  {
    hide Tally, Observed, Window.HoldsDate;
    if w.HoldsDate(d) {
      ObservedIsRetained(rows, w, d);
      TallyIgnoresOrder(rows, l.history, d, Total);
    }
  }

  /** Hence for them the two totals agree without any condition on the stored events. */
  lemma GatewaySavesRollUpExactly(steps: seq<Step>, rows: seq<Entry>, w: Window, sum: DayData)
    requires forall i :: 0 <= i < |steps| ==> StampedBy(steps[i], w.end)
    requires multiset(rows) == multiset(Run(EMPTY, steps).history)
    requires SumsUp(sum, InWindow(DaysIn(Run(EMPTY, steps).daily), w))
    requires w.start.Some? ==> w.start.value == DayOfInstant(w.start.value) * DAY
    ensures sum == AddAll(EMPTY_DAY, Scanned(rows, w))
  {
    hide SumsUp, InWindow, DaysIn, Scanned, AddAll, Run, Pending;
    StampedEventsAreNotPending(steps, w);
    forall i | 0 <= i < |rows| ensures !Pending(rows[i], w) {
      assert rows[i] in multiset(Run(EMPTY, steps).history);
    }
    forall i | 0 <= i < |steps| ensures SavesDated(steps[i]) { assert StampedBy(steps[i], w.end); }
    RollupRefinesScan(steps, rows, w, sum);
  }
}
