/**
  Planning an import of usage data (internal/db/backup.go). Everything here runs before
  the first write of the transaction; a result of None is the source's error return.
 */
module UsageImport {
  import opened Wrappers
  import opened UsageModel
  import opened MapSums

  /** The data column of a usageDaily row. */
  datatype DayBlob = Json(day: DayData) | NotJson(text: string)

  datatype DailyEntry = DailyEntry(dateKey: DateKey, data: DayBlob)

  datatype Payload = Payload(usageHistory: seq<Entry>, usageDaily: seq<DailyEntry>)

  datatype Plan = Plan(
    additions: seq<Entry>, daily: map<DateKey, DayBlob>, lifetime: int)

  // ---------------------------------------------------------------- covering

  const TOLERANCE := 0.000000000001

  function Abs(x: real): real { if x < 0.0 then -x else x }

  function Larger(x: real, y: real): real { if x < y then y else x }

  function Max(x: int, y: int): int { if x < y then y else x }

  function Epsilon(x: real, y: real): real {
    TOLERANCE * Larger(1.0, Larger(Abs(x), Abs(y)))
  }

  predicate CounterCovers(a: DayCounter, b: DayCounter) {
    && a.requests >= b.requests
    && a.promptTokens >= b.promptTokens
    && a.completionTokens >= b.completionTokens
    && a.cost + Epsilon(a.cost, b.cost) >= b.cost
  }

  predicate DayCovers(a: DayData, b: DayData) {
    && CounterCovers(a.total, b.total)
    && (forall k :: k in b.byProvider ==> CounterCovers(Lookup(a.byProvider, k), b.byProvider[k]))
    && (forall k :: k in b.byModel ==> CounterCovers(Lookup(a.byModel, k), b.byModel[k]))
  }

  ghost predicate CoversBreakdown(total: DayCounter, dimension: map<string, DayCounter>) {
    && (forall k :: k in dimension ==> CounterCovers(dimension[k], ZERO))
    && CounterCovers(total, SumCounters(dimension))
  }

  ghost predicate ValidDay(day: DayData) {
    && CounterCovers(day.total, ZERO)
    && CoversBreakdown(day.total, day.byProvider)
    && CoversBreakdown(day.total, day.byModel)
  }

  lemma CoversSameAmounts(a: DayCounter, b: DayCounter, c: DayCounter)
    requires b.requests == c.requests && b.promptTokens == c.promptTokens
    requires b.completionTokens == c.completionTokens && b.cost == c.cost
    ensures CounterCovers(a, b) == CounterCovers(a, c)
  {
  }

  method CheckBreakdown(total: DayCounter, dimension: map<string, DayCounter>) returns (ok: bool)
    ensures ok == CoversBreakdown(total, dimension)
  {
    var sum := ZERO;
    var rest := dimension;
    while rest != map[]
      invariant rest.Keys <= dimension.Keys
      invariant forall k :: k in rest ==> rest[k] == dimension[k]
      invariant forall k :: k in dimension && k !in rest ==> CounterCovers(dimension[k], ZERO)
      invariant Plus(sum, SumCounters(rest)).(cachedTokens := 0, failed := 0)
             == SumCounters(dimension).(cachedTokens := 0, failed := 0)
      decreases |rest|
    {
      var k :| k in rest;
      SumCountersPick(rest, k);
      var c := rest[k];
      if !CounterCovers(c, ZERO) {
        assert CounterCovers(dimension[k], ZERO) == false;
        return false;
      }
      sum := sum.(
        requests := sum.requests + c.requests,
        promptTokens := sum.promptTokens + c.promptTokens,
        completionTokens := sum.completionTokens + c.completionTokens,
        cost := sum.cost + c.cost);
      rest := rest - {k};
    }
    CoversSameAmounts(total, sum, SumCounters(dimension));
    ok := CounterCovers(total, sum);
  }

  method ValidUsageDay(day: DayData) returns (ok: bool)
    ensures ok == ValidDay(day)
  {
    if !CounterCovers(day.total, ZERO) {
      return false;
    }
    ok := CheckBreakdown(day.total, day.byProvider);
    if ok {
      ok := CheckBreakdown(day.total, day.byModel);
    }
  }

  // ---------------------------------------------------------------- days from history

  predicate AllDated(entries: seq<Entry>) {
    forall i :: 0 <= i < |entries| ==> HasDate(entries[i])
  }

  function DaysOf(entries: seq<Entry>): map<DateKey, DayData> {
    map d | d in Dates(entries) :: DayOf(entries, d)
  }

  function DayAt(days: map<DateKey, DayData>, date: DateKey): DayData {
    if date in days then days[date] else EMPTY_DAY
  }

  lemma {:induction false} DayOfAbsent(entries: seq<Entry>, date: DateKey)
    requires date !in Dates(entries)
    ensures DayOf(entries, date) == EMPTY_DAY
  {
    if entries != [] {
      var rest := entries[..|entries| - 1];
      assert forall i :: 0 <= i < |rest| ==> rest[i] == entries[i];
      assert date !in Dates(rest);
      DayOfAbsent(rest, date);
    }
  }

  lemma DaysOfAt(entries: seq<Entry>, date: DateKey)
    ensures DayAt(DaysOf(entries), date) == DayOf(entries, date)
  {
    if date !in Dates(entries) { DayOfAbsent(entries, date); }
  }

  lemma DaysOfPush(entries: seq<Entry>, e: Entry, date: DateKey)
    requires OnDate(e, date)
    ensures DaysOf(entries + [e])
         == DaysOf(entries)[date := AddUsageToDay(DayAt(DaysOf(entries), date), e)]
  {
    assert (entries + [e])[..|entries + [e]| - 1] == entries;
    assert Dates(entries + [e]) == Dates(entries) + {date};
    DaysOfAt(entries, date);
    forall d | d in Dates(entries + [e])
      ensures DayOf(entries + [e], d)
           == (if d == date then AddUsageToDay(DayOf(entries, date), e) else DayOf(entries, d))
    {
    }
  }

  method UsageDaysFromHistory(entries: seq<Entry>) returns (r: Option<map<DateKey, DayData>>)
    ensures r == if AllDated(entries) then Some(DaysOf(entries)) else None
  {
    var days: map<DateKey, DayData> := map[];
    assert entries[..0] == [];
    for i := 0 to |entries|
      invariant AllDated(entries[..i])
      invariant days == DaysOf(entries[..i])
    {
      var e := entries[i];
      if !HasDate(e) {
        return None;
      }
      var date := Date(DayOfInstant(e.timestamp.instant.value));
      DaysOfPush(entries[..i], e, date);
      assert entries[..i + 1] == entries[..i] + [e];
      days := days[date := AddUsageToDay(DayAt(days, date), e)];
    }
    assert entries[..|entries|] == entries;
    return Some(days);
  }

  // ---------------------------------------------------------------- daily rows

  predicate DistinctDates(rows: seq<DailyEntry>) {
    forall i, j :: 0 <= i < j < |rows| ==> rows[i].dateKey != rows[j].dateKey
  }

  /** The table the rows leave behind when they are upserted in order. */
  function Upserted(table: map<DateKey, DayBlob>, rows: seq<DailyEntry>): map<DateKey, DayBlob> {
    if rows == [] then table
    else Upserted(table, rows[..|rows| - 1])[rows[|rows| - 1].dateKey := rows[|rows| - 1].data]
  }

  ghost predicate Trusted(key: DateKey, blob: DayBlob, history: map<DateKey, DayData>) {
    && key.Date? && blob.Json?
    && DayCovers(blob.day, DayAt(history, key)) && ValidDay(blob.day)
  }

  function DayIn(blob: DayBlob): DayData {
    match blob case Json(day) => day case NotJson(_) => EMPTY_DAY
  }

  ghost predicate AllTrusted(table: map<DateKey, DayBlob>, history: map<DateKey, DayData>) {
    forall k :: k in table ==> Trusted(k, table[k], history)
  }

  function Overlay(history: map<DateKey, DayData>, table: map<DateKey, DayBlob>): map<DateKey, DayData> {
    history + map k | k in table :: DayIn(table[k])
  }

  /** History with every stored aggregate on top, provided each row can be trusted. */
  ghost function DaysForImport(table: map<DateKey, DayBlob>, history: map<DateKey, DayData>)
    : Option<map<DateKey, DayData>>
  {
    if AllTrusted(table, history) then Some(Overlay(history, table)) else None
  }

  lemma OverlayPut(history: map<DateKey, DayData>, table: map<DateKey, DayBlob>, key: DateKey, blob: DayBlob)
    ensures Overlay(history, table[key := blob]) == Overlay(history, table)[key := DayIn(blob)]
  {
  }

  lemma TrustedPut(history: map<DateKey, DayData>, table: map<DateKey, DayBlob>, key: DateKey, blob: DayBlob)
    requires AllTrusted(table, history) && Trusted(key, blob, history)
    ensures AllTrusted(table[key := blob], history)
  {
  }

  lemma {:induction false} UpsertedKeys(rows: seq<DailyEntry>, table: map<DateKey, DayBlob>, key: DateKey)
    ensures key in Upserted(table, rows) <==>
              key in table || exists i :: 0 <= i < |rows| && rows[i].dateKey == key
  {
    if rows != [] {
      var rest := rows[..|rows| - 1];
      UpsertedKeys(rest, table, key);
      assert forall i :: 0 <= i < |rest| ==> rest[i] == rows[i];
      assert rows[|rows| - 1] == rows[|rows| - 1];
    }
  }

  lemma {:induction false} UpsertedAt(rows: seq<DailyEntry>, table: map<DateKey, DayBlob>, i: nat)
    requires DistinctDates(rows) && i < |rows|
    ensures rows[i].dateKey in Upserted(table, rows)
    ensures Upserted(table, rows)[rows[i].dateKey] == rows[i].data
  {
    if i < |rows| - 1 {
      UpsertedAt(rows[..|rows| - 1], table, i);
      assert rows[i].dateKey != rows[|rows| - 1].dateKey;
    }
  }

  method UsageDaysForImport(rows: seq<DailyEntry>, history: map<DateKey, DayData>)
    returns (r: Option<map<DateKey, DayData>>)
    ensures r == if DistinctDates(rows) then DaysForImport(Upserted(map[], rows), history) else None
  {
    hide ValidDay, DayCovers, Overlay, DistinctDates;
    NothingStored(history);
    var days := history;
    var seen: set<DateKey> := {};
    ghost var table: map<DateKey, DayBlob> := map[];
    for i := 0 to |rows|
      invariant table == Upserted(map[], rows[..i])
      invariant DistinctDates(rows[..i])
      invariant seen == table.Keys
      invariant AllTrusted(table, history)
      invariant days == Overlay(history, table)
    {
      var row := rows[i];
      assert rows[..i + 1][..i] == rows[..i];
      var repeated := row.dateKey in seen;
      UpsertedKeys(rows[..i], map[], row.dateKey);
      if row.data.NotJson? || row.dateKey.Malformed? || repeated {
        Rejected(rows, history, i, repeated);
        return None;
      }
      seen := seen + {row.dateKey};
      var day := row.data.day;
      var valid := ValidUsageDay(day);
      if !DayCovers(day, DayAt(history, row.dateKey)) || !valid {
        Rejected(rows, history, i, repeated);
        return None;
      }
      OverlayPut(history, table, row.dateKey, row.data);
      TrustedPut(history, table, row.dateKey, row.data);
      DistinctPush(rows, i);
      table := table[row.dateKey := row.data];
      days := days[row.dateKey := day];
    }
    assert rows[..|rows|] == rows;
    return Some(days);
  }

  lemma NothingStored(history: map<DateKey, DayData>)
    ensures Overlay(history, map[]) == history && DistinctDates([])
  {
  }

  lemma DistinctPush(rows: seq<DailyEntry>, i: nat)
    requires i < |rows| && DistinctDates(rows[..i])
    requires rows[i].dateKey !in Upserted(map[], rows[..i])
    ensures DistinctDates(rows[..i + 1])
  {
    UpsertedKeys(rows[..i], map[], rows[i].dateKey);
    forall j, k | 0 <= j < k < i + 1 ensures rows[j].dateKey != rows[k].dateKey {
      assert rows[..i][j] == rows[j];
    }
  }

  lemma Rejected(rows: seq<DailyEntry>, history: map<DateKey, DayData>, i: nat, repeated: bool)
    requires i < |rows|
    requires repeated ==> exists j :: 0 <= j < i && rows[..i][j].dateKey == rows[i].dateKey
    requires !repeated ==> !Trusted(rows[i].dateKey, rows[i].data, history)
    ensures DistinctDates(rows) ==> DaysForImport(Upserted(map[], rows), history).None?
  {
    if repeated {
      var j :| 0 <= j < i && rows[..i][j].dateKey == rows[i].dateKey;
      assert rows[j].dateKey == rows[i].dateKey;
    } else if DistinctDates(rows) {
      UpsertedAt(rows, map[], i);
      var table := Upserted(map[], rows);
      assert !Trusted(rows[i].dateKey, table[rows[i].dateKey], history);
    }
  }

  // ---------------------------------------------------------------- merging

  /** Row identifiers are local to one database; the source zeroes them before comparing. */
  function Erase(e: Entry): Entry { e.(id := 0) }

  function Erased(entries: seq<Entry>): (r: seq<Entry>)
    ensures |r| == |entries|
    ensures forall i :: 0 <= i < |entries| ==> r[i] == Erase(entries[i])
  {
    if entries == [] then [] else Erased(entries[..|entries| - 1]) + [Erase(entries[|entries| - 1])]
  }

  /** The events a database holds, as a multiset in which identifiers do not matter. */
  function Events(entries: seq<Entry>): multiset<Entry> { multiset(Erased(entries)) }

  lemma EventsPush(entries: seq<Entry>, e: Entry)
    ensures Events(entries + [e]) == Events(entries) + multiset{Erase(e)}
  {
    assert (entries + [e])[..|entries + [e]| - 1] == entries;
  }

  lemma EventsPop(entries: seq<Entry>)
    requires entries != []
    ensures Events(entries)
         == Events(entries[..|entries| - 1]) + multiset{Erase(entries[|entries| - 1])}
  {
  }

  /** The incoming events left after each local event has absorbed one equal event. */
  function Additions(local: multiset<Entry>, incoming: seq<Entry>): seq<Entry> {
    if incoming == [] then []
    else Absorb(local, Events(incoming[..|incoming| - 1]), Additions(local, incoming[..|incoming| - 1]),
                Erase(incoming[|incoming| - 1]))
  }

  function Absorb(local: multiset<Entry>, seen: multiset<Entry>, kept: seq<Entry>, e: Entry): seq<Entry> {
    if seen[e] < local[e] then kept else kept + [e]
  }

  lemma {:induction false} AdditionsAreTheDifference(local: multiset<Entry>, incoming: seq<Entry>)
    ensures multiset(Additions(local, incoming)) == Events(incoming) - local
  {
    if incoming != [] {
      var front := incoming[..|incoming| - 1];
      AdditionsAreTheDifference(local, front);
      EventsPop(incoming);
    }
  }

  lemma {:induction false} AdditionsHaveNoId(local: multiset<Entry>, incoming: seq<Entry>)
    ensures forall i :: 0 <= i < |Additions(local, incoming)| ==> Additions(local, incoming)[i].id == 0
    ensures AllDated(incoming) ==> AllDated(Additions(local, incoming))
  {
    if incoming != [] {
      var front := incoming[..|incoming| - 1];
      AdditionsHaveNoId(local, front);
    }
  }

  /** The incoming events that did find an equal local one. */
  ghost function Absorbed(local: multiset<Entry>, incoming: seq<Entry>): seq<Entry> {
    if incoming == [] then []
    else
      var front := incoming[..|incoming| - 1];
      var e := Erase(incoming[|incoming| - 1]);
      if Events(front)[e] < local[e] then Absorbed(local, front) + [e] else Absorbed(local, front)
  }

  lemma TallyPush(entries: seq<Entry>, e: Entry, date: DateKey, dim: Dimension)
    ensures Tally(entries + [e], date, dim)
         == if OnDate(e, date) && Counts(dim, e) then AddUsageToCounter(Tally(entries, date, dim), e)
            else Tally(entries, date, dim)
  {
    assert (entries + [e])[..|entries + [e]| - 1] == entries;
  }

  /** The tally of one event; the order of addition plays no part. */
  lemma TallyPushSum(entries: seq<Entry>, e: Entry, date: DateKey, dim: Dimension)
    ensures Tally(entries + [e], date, dim) == Plus(Tally(entries, date, dim), Single(e, date, dim))
    ensures Single(Erase(e), date, dim) == Single(e, date, dim)
  {
    TallyPush(entries, e, date, dim);
  }

  lemma TallyOfNone(date: DateKey, dim: Dimension)
    ensures Tally([], date, dim) == ZERO
  {
  }

  function Single(e: Entry, date: DateKey, dim: Dimension): DayCounter {
    if OnDate(e, date) && Counts(dim, e) then AddUsageToCounter(ZERO, e) else ZERO
  }

  lemma {:induction false} SplitIncoming(local: multiset<Entry>, incoming: seq<Entry>, date: DateKey, dim: Dimension)
    ensures Tally(incoming, date, dim)
         == Plus(Tally(Additions(local, incoming), date, dim), Tally(Absorbed(local, incoming), date, dim))
  {
    hide Erase, Single, Events, Tally;
    if incoming == [] {
      TallyOfNone(date, dim);
    } else {
      var front, e := incoming[..|incoming| - 1], Erase(incoming[|incoming| - 1]);
      SplitIncoming(local, front, date, dim);
      TallyPushSum(front, incoming[|incoming| - 1], date, dim);
      assert incoming == front + [incoming[|incoming| - 1]];
      TallyPushSum(Additions(local, front), e, date, dim);
      TallyPushSum(Absorbed(local, front), e, date, dim);
    }
  }

  lemma {:induction false} EventsAreHeld(entries: seq<Entry>, e: Entry)
    requires Events(entries)[e] > 0
    ensures exists i :: 0 <= i < |entries| && Erase(entries[i]) == e
  {
    assert e in Erased(entries);
  }

  function OfDate(entries: seq<Entry>, date: DateKey): (r: seq<Entry>)
    ensures forall i :: 0 <= i < |r| ==> OnDate(r[i], date)
  {
    if entries == [] then []
    else
      var rest := OfDate(entries[..|entries| - 1], date);
      if OnDate(entries[|entries| - 1], date) then rest + [entries[|entries| - 1]] else rest
  }

  /** Everything the planner knows about one date. */
  datatype DateView = DateView(
    incoming: DayData, incomingHistory: DayData, local: DayData, localHistory: DayData,
    added: seq<Entry>)

  predicate Mergeable(v: DateView) {
    v.local.total.requests > 0 ==>
      && DayCovers(v.incomingHistory, v.incoming)
      && (DayCovers(v.localHistory, v.local) || v.added == [])
  }

  function MergedDay(v: DateView): DayData {
    if v.local.total.requests > 0 then AddAll(v.local, v.added) else v.incoming
  }

  /** What both sides of a merge amount to once every row has been checked. */
  datatype Sides = Sides(
    incomingDays: map<DateKey, DayData>, incomingHistory: map<DateKey, DayData>,
    localDays: map<DateKey, DayData>, localHistory: map<DateKey, DayData>,
    additions: seq<Entry>)
  {
    function View(date: DateKey): DateView {
      DateView(DayAt(incomingDays, date), DayAt(incomingHistory, date), DayAt(localDays, date),
               DayAt(localHistory, date), OfDate(additions, date))
    }

    function Merged(date: DateKey): DayData { MergedDay(View(date)) }

    function Rows(): map<DateKey, DayBlob> {
      map date | date in incomingDays :: Json(Merged(date))
    }

    function Growth(): map<DateKey, int> {
      map date | date in incomingDays ::
        Merged(date).total.requests - DayAt(localDays, date).total.requests
    }

    predicate AllMergeable() { forall date :: date in incomingDays ==> Mergeable(View(date)) }
  }

  function RequestsOf(days: map<DateKey, DayData>): map<DateKey, int> {
    map date | date in days :: days[date].total.requests
  }

  ghost function MergeSides(history: seq<Entry>, daily: map<DateKey, DayBlob>, payload: Payload)
    : Option<Sides>
  {
    if !AllDated(payload.usageHistory) || !AllDated(history) || !DistinctDates(payload.usageDaily)
    then None
    else
      var incomingHistory, localHistory := DaysOf(payload.usageHistory), DaysOf(history);
      var incomingDays := DaysForImport(Upserted(map[], payload.usageDaily), incomingHistory);
      var localDays := DaysForImport(daily, localHistory);
      if incomingDays.None? || localDays.None? then None
      else Some(Sides(incomingDays.value, incomingHistory, localDays.value, localHistory,
                      Additions(Events(history), payload.usageHistory)))
  }

  ghost function MergePlan(history: seq<Entry>, daily: map<DateKey, DayBlob>, lifetime: int,
                           payload: Payload): Option<Plan>
  {
    var sides := MergeSides(history, daily, payload);
    if sides.None? || !sides.value.AllMergeable() then None
    else Some(Plan(sides.value.additions, sides.value.Rows(),
                   Max(Sum(RequestsOf(sides.value.localDays)), lifetime) + Sum(sides.value.Growth())))
  }

  function CountIn(counts: map<Entry, int>, e: Entry): int { if e in counts then counts[e] else 0 }

  method CountEvents(history: seq<Entry>) returns (counts: map<Entry, int>)
    ensures forall e :: CountIn(counts, e) == Events(history)[e]
  {
    counts := map[];
    for i := 0 to |history|
      invariant forall e :: CountIn(counts, e) == Events(history[..i])[e]
    {
      var e := Erase(history[i]);
      assert history[..i + 1] == history[..i] + [history[i]];
      EventsPush(history[..i], history[i]);
      counts := counts[e := CountIn(counts, e) + 1];
    }
    assert history[..|history|] == history;
  }

  function ListAt(m: map<DateKey, seq<Entry>>, date: DateKey): seq<Entry> {
    if date in m then m[date] else []
  }

  lemma OfDatePush(entries: seq<Entry>, e: Entry, date: DateKey)
    ensures OfDate(entries + [e], date) == OfDate(entries, date) + if OnDate(e, date) then [e] else []
  {
    assert (entries + [e])[..|entries + [e]| - 1] == entries;
  }

  function Left(local: int, seen: int): int { if local <= seen then 0 else local - seen }

  /** counts holds what the events seen so far have left of the local ones. */
  ghost predicate Budget(counts: map<Entry, int>, local: multiset<Entry>, seen: multiset<Entry>) {
    forall e :: CountIn(counts, e) == Left(local[e], seen[e])
  }

  lemma BudgetStep(counts: map<Entry, int>, local: multiset<Entry>, seen: multiset<Entry>, e: Entry)
    requires Budget(counts, local, seen)
    ensures CountIn(counts, e) > 0 <==> seen[e] < local[e]
    ensures CountIn(counts, e) > 0 ==> Budget(counts[e := counts[e] - 1], local, seen + multiset{e})
    ensures CountIn(counts, e) <= 0 ==> Budget(counts, local, seen + multiset{e})
  {
  }

  ghost predicate Grouped(groups: map<DateKey, seq<Entry>>, entries: seq<Entry>) {
    forall date :: ListAt(groups, date) == OfDate(entries, date)
  }

  lemma GroupedPush(groups: map<DateKey, seq<Entry>>, entries: seq<Entry>, e: Entry, date: DateKey)
    requires Grouped(groups, entries) && OnDate(e, date)
    ensures Grouped(groups[date := ListAt(groups, date) + [e]], entries + [e])
  {
    forall d ensures ListAt(groups[date := ListAt(groups, date) + [e]], d) == OfDate(entries + [e], d) {
      OfDatePush(entries, e, d);
    }
  }

  /** The loop over the incoming events, which uses up a map of local counts. */
  method CollectAdditions(history: seq<Entry>, incoming: seq<Entry>)
    returns (additions: seq<Entry>, addedByDay: map<DateKey, seq<Entry>>)
    requires AllDated(incoming)
    ensures additions == Additions(Events(history), incoming)
    ensures Grouped(addedByDay, additions)
  {
    var counts := CountEvents(history);
    ghost var local, seen := Events(history), multiset{};
    additions, addedByDay := [], map[];
    for i := 0 to |incoming|
      invariant seen == Events(incoming[..i])
      invariant additions == Additions(local, incoming[..i])
      invariant Budget(counts, local, seen)
      invariant Grouped(addedByDay, additions)
    {
      var e := Erase(incoming[i]);
      AdditionsPush(local, incoming, i);
      BudgetStep(counts, local, seen, e);
      if CountIn(counts, e) > 0 {
        counts := counts[e := counts[e] - 1];
      } else {
        var date := Date(DayOfInstant(e.timestamp.instant.value));
        GroupedPush(addedByDay, additions, e, date);
        additions := additions + [e];
        addedByDay := addedByDay[date := ListAt(addedByDay, date) + [e]];
      }
      seen := seen + multiset{e};
    }
    assert incoming[..|incoming|] == incoming;
  }

  lemma AdditionsPush(local: multiset<Entry>, incoming: seq<Entry>, i: nat)
    requires i < |incoming|
    ensures Additions(local, incoming[..i + 1])
         == Absorb(local, Events(incoming[..i]), Additions(local, incoming[..i]), Erase(incoming[i]))
    ensures Events(incoming[..i + 1]) == Events(incoming[..i]) + multiset{Erase(incoming[i])}
  {
    assert incoming[..i + 1][..i] == incoming[..i];
    EventsPop(incoming[..i + 1]);
  }

  // ---------------------------------------------------------------- the planner

  /** The largest request count a date reaches in the rows, starting from what history holds. */
  function Peak(rows: seq<DailyEntry>, date: DateKey, floor: int): int {
    if rows == [] then floor
    else
      var rest := Peak(rows[..|rows| - 1], date, floor);
      var last := rows[|rows| - 1];
      if last.dateKey == date then Max(DayIn(last.data).total.requests, rest) else rest
  }

  ghost function Peaks(payload: Payload, rows: seq<DailyEntry>): map<DateKey, int> {
    map date | date in Dates(payload.usageHistory) + Upserted(map[], rows).Keys ::
      Peak(rows, date, DayOf(payload.usageHistory, date).total.requests)
  }

  predicate AllJson(rows: seq<DailyEntry>) {
    forall i :: 0 <= i < |rows| ==> rows[i].data.Json?
  }

  ghost function ReplacePlan(payload: Payload): Option<Plan> {
    if AllDated(payload.usageHistory) && AllJson(payload.usageDaily)
    then Some(Plan(payload.usageHistory, Upserted(map[], payload.usageDaily),
                   Sum(Peaks(payload, payload.usageDaily))))
    else None
  }

  ghost predicate AtPeak(days: map<DateKey, DayData>, payload: Payload, rows: seq<DailyEntry>) {
    && days.Keys == Dates(payload.usageHistory) + Upserted(map[], rows).Keys
    && forall d :: d in days ==>
         days[d].total.requests == Peak(rows, d, DayOf(payload.usageHistory, d).total.requests)
  }

  lemma AtPeakPush(days: map<DateKey, DayData>, payload: Payload, rows: seq<DailyEntry>, row: DailyEntry, day: DayData)
    requires AtPeak(days, payload, rows)
    requires day.total.requests
          == Max(DayIn(row.data).total.requests, DayAt(days, row.dateKey).total.requests)
    ensures AtPeak(days[row.dateKey := day], payload, rows + [row])
  {
    assert (rows + [row])[..|rows + [row]| - 1] == rows;
    if row.dateKey !in days {
      DayOfAbsent(payload.usageHistory, row.dateKey);
      PeakAbsent(rows, row.dateKey, 0);
    }
  }

  lemma {:induction false} PeakAbsent(rows: seq<DailyEntry>, date: DateKey, floor: int)
    requires date !in Upserted(map[], rows)
    ensures Peak(rows, date, floor) == floor
  {
    if rows != [] { PeakAbsent(rows[..|rows| - 1], date, floor); }
  }

  method PlanReplace(payload: Payload) returns (r: Option<Plan>)
    ensures r == ReplacePlan(payload)
  {
    var history := UsageDaysFromHistory(payload.usageHistory);
    if history.None? {
      return None;
    }
    var days, rows := history.value, payload.usageDaily;
    assert rows[..0] == [];
    for i := 0 to |rows|
      invariant AllJson(rows[..i])
      invariant AtPeak(days, payload, rows[..i])
    {
      var row := rows[i];
      if row.data.NotJson? {
        return None;
      }
      var day := row.data.day;
      day := day.(total := day.total.(requests :=
        Max(day.total.requests, DayAt(days, row.dateKey).total.requests)));
      AtPeakPush(days, payload, rows[..i], row, day);
      assert rows[..i + 1] == rows[..i] + [row];
      days := days[row.dateKey := day];
    }
    assert rows[..|rows|] == rows;
    var lifetime := SumRequests(days);
    assert RequestsOf(days) == Peaks(payload, rows);
    return Some(Plan(payload.usageHistory, Upserted(map[], rows), lifetime));
  }

  method SumRequests(days: map<DateKey, DayData>) returns (n: int)
    ensures n == Sum(RequestsOf(days))
  {
    n := 0;
    var rest := days;
    while rest != map[]
      invariant n + Sum(RequestsOf(rest)) == Sum(RequestsOf(days))
      decreases |rest|
    {
      var date :| date in rest;
      SumPick(RequestsOf(rest), date);
      assert RequestsOf(rest) - {date} == RequestsOf(rest - {date});
      n := n + rest[date].total.requests;
      rest := rest - {date};
    }
    assert RequestsOf(rest) == map[];
  }

  method ReadDailyRows(daily: map<DateKey, DayBlob>) returns (rows: seq<DailyEntry>)
    ensures DistinctDates(rows) && Upserted(map[], rows) == daily
  {
    rows := [];
    var rest := daily;
    while rest != map[]
      invariant DistinctDates(rows)
      invariant Upserted(map[], rows) == daily - rest.Keys
      invariant rest.Keys <= daily.Keys && forall k :: k in rest ==> rest[k] == daily[k]
      decreases |rest|
    {
      var key :| key in rest;
      var row := DailyEntry(key, rest[key]);
      UpsertedKeys(rows, map[], key);
      assert (rows + [row])[..|rows + [row]| - 1] == rows;
      rows := rows + [row];
      rest := rest - {key};
    }
  }

  /** The loop over the incoming days, which the source ranges over in any order. */
  method MergeDays(sides: Sides, addedByDay: map<DateKey, seq<Entry>>, base: int)
    returns (ok: bool, rows: map<DateKey, DayBlob>, lifetime: int)
    requires Grouped(addedByDay, sides.additions)
    ensures ok == sides.AllMergeable()
    ensures ok ==> rows == sides.Rows() && lifetime == base + Sum(sides.Growth())
  {
    hide RowsOutside, GrowthOutside, MergeableOutside;
    rows, lifetime := map[], base;
    var rest := sides.incomingDays.Keys;
    MergeEnds(sides);
    while rest != {}
      invariant rest <= sides.incomingDays.Keys
      invariant rows == RowsOutside(sides, rest)
      invariant lifetime == base + GrowthOutside(sides, rest)
      invariant MergeableOutside(sides, rest)
      decreases |rest|
    {
      var date :| date in rest;
      MergeStep(sides, rest, date);
      var merged := MergeOneDay(sides, addedByDay, date);
      if merged.None? {
        return false, rows, lifetime;
      }
      var local := DayAt(sides.localDays, date);
      lifetime := lifetime + (merged.value.total.requests - local.total.requests);
      rows := rows[date := Json(merged.value)];
      rest := rest - {date};
    }
    ok := true;
  }

  // The same three results restricted to the dates that are not in rest.

  ghost function RowsOutside(sides: Sides, rest: set<DateKey>): map<DateKey, DayBlob> {
    sides.Rows() - rest
  }

  ghost function GrowthOutside(sides: Sides, rest: set<DateKey>): int {
    Sum(sides.Growth() - rest)
  }

  ghost predicate MergeableOutside(sides: Sides, rest: set<DateKey>) {
    forall d :: d in sides.incomingDays && d !in rest ==> Mergeable(sides.View(d))
  }

  lemma MergeEnds(sides: Sides)
    ensures var all := sides.incomingDays.Keys;
      RowsOutside(sides, all) == map[] && GrowthOutside(sides, all) == 0 && MergeableOutside(sides, all)
    ensures RowsOutside(sides, {}) == sides.Rows()
    ensures GrowthOutside(sides, {}) == Sum(sides.Growth())
    ensures MergeableOutside(sides, {}) <==> sides.AllMergeable()
  {
    assert sides.Growth() - sides.incomingDays.Keys == map[];
    assert sides.Growth() - {} == sides.Growth();
    assert sides.Rows() - {} == sides.Rows();
  }

  lemma MergeStep(sides: Sides, rest: set<DateKey>, date: DateKey)
    requires date in rest && rest <= sides.incomingDays.Keys
    ensures var merged := sides.Merged(date);
      && RowsOutside(sides, rest - {date}) == RowsOutside(sides, rest)[date := Json(merged)]
      && GrowthOutside(sides, rest - {date}) == GrowthOutside(sides, rest)
           + merged.total.requests - DayAt(sides.localDays, date).total.requests
    ensures MergeableOutside(sides, rest) && Mergeable(sides.View(date)) ==>
              MergeableOutside(sides, rest - {date})
    ensures !Mergeable(sides.View(date)) ==> !sides.AllMergeable()
  {
    hide Mergeable, MergedDay, OfDate, DayAt;
    var after := sides.Growth() - (rest - {date});
    assert date in after;
    SumPick(after, date);
    assert after - {date} == sides.Growth() - rest;
  }

  /** The body of that loop: refuse a date whose aggregates cannot be told apart. */
  method MergeOneDay(sides: Sides, addedByDay: map<DateKey, seq<Entry>>, date: DateKey)
    returns (r: Option<DayData>)
    requires date in sides.incomingDays && Grouped(addedByDay, sides.additions)
    ensures r == if Mergeable(sides.View(date)) then Some(sides.Merged(date)) else None
  {
    var incoming, local := sides.incomingDays[date], DayAt(sides.localDays, date);
    var added := ListAt(addedByDay, date);
    assert sides.View(date) == DateView(incoming, DayAt(sides.incomingHistory, date), local,
                                        DayAt(sides.localHistory, date), added);
    var merged := incoming;
    if local.total.requests > 0 {
      var incomingComplete := DayCovers(DayAt(sides.incomingHistory, date), incoming);
      var localComplete := DayCovers(DayAt(sides.localHistory, date), local);
      if !incomingComplete || (!localComplete && |added| > 0) {
        return None;
      }
      merged := AddEach(local, added);
    }
    return Some(merged);
  }

  method AddEach(day: DayData, entries: seq<Entry>) returns (r: DayData)
    ensures r == AddAll(day, entries)
  {
    r := day;
    assert entries[..0] == [];
    for i := 0 to |entries|
      invariant r == AddAll(day, entries[..i])
    {
      assert entries[..i + 1][..i] == entries[..i];
      r := AddUsageToDay(r, entries[i]);
    }
    assert entries[..|entries|] == entries;
  }

  /** Both sides checked and aggregated, and the incoming events that are new. */
  method ReadSides(history: seq<Entry>, daily: map<DateKey, DayBlob>, payload: Payload)
    returns (r: Option<Sides>, addedByDay: map<DateKey, seq<Entry>>)
    ensures r == MergeSides(history, daily, payload)
    ensures r.Some? ==> Grouped(addedByDay, r.value.additions)
  {
    addedByDay := map[];
    var incomingHistory := UsageDaysFromHistory(payload.usageHistory);
    if incomingHistory.None? {
      return None, addedByDay;
    }
    var incomingDays := UsageDaysForImport(payload.usageDaily, incomingHistory.value);
    if incomingDays.None? {
      return None, addedByDay;
    }
    var localHistory := UsageDaysFromHistory(history);
    if localHistory.None? {
      return None, addedByDay;
    }
    var localRows := ReadDailyRows(daily);
    var localDays := UsageDaysForImport(localRows, localHistory.value);
    if localDays.None? {
      return None, addedByDay;
    }
    var additions;
    additions, addedByDay := CollectAdditions(history, payload.usageHistory);
    r := Some(Sides(incomingDays.value, incomingHistory.value, localDays.value,
                    localHistory.value, additions));
  }

  method PrepareUsageImport(history: seq<Entry>, daily: map<DateKey, DayBlob>, lifetime: int,
                            payload: Payload, replace: bool) returns (plan: Option<Plan>)
    ensures plan == if replace then ReplacePlan(payload) else MergePlan(history, daily, lifetime, payload)
  {
    hide MergeSides, ReplacePlan;
    if replace {
      plan := PlanReplace(payload);
      return;
    }
    var sides, addedByDay := ReadSides(history, daily, payload);
    if sides.None? {
      return None;
    }
    var sum := SumRequests(sides.value.localDays);
    var ok, rows, total := MergeDays(sides.value, addedByDay, Max(sum, lifetime));
    if !ok {
      return None;
    }
    return Some(Plan(sides.value.additions, rows, total));
  }
}
