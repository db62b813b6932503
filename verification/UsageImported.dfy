/** What an accepted import leaves behind, and when one is refused, event by event and row by row. */
module UsageImported {
  import opened Wrappers
  import opened UsageModel
  import opened MapSums
  import opened UsageImport
  import opened UsageLedger
  import opened UsageLifetime
  import opened UsageMerge
  import opened UsageSums

  // ---------------------------------------------------------------- a replacing import

  lemma {:induction false} InsertAllAt(l: Ledger, entries: seq<Entry>, i: nat)
    ensures |InsertAll(l, entries).history| == |l.history| + |entries|
    ensures InsertAll(l, entries).nextId == l.nextId + |entries|
    ensures InsertAll(l, entries).history[..|l.history|] == l.history
    ensures i < |entries| ==> InsertAll(l, entries).history[|l.history| + i] == entries[i].(id := l.nextId + i)
  {
    if entries != [] { InsertAllAt(l, entries[..|entries| - 1], i); }
  }

  /** The last of the rows that name a date decides its entry. */
  lemma {:induction false} UpsertedIsLast(rows: seq<DailyEntry>, table: map<DateKey, DayBlob>, i: nat)
    requires i < |rows| && forall j :: i < j < |rows| ==> rows[j].dateKey != rows[i].dateKey
    ensures rows[i].dateKey in Upserted(table, rows) && Upserted(table, rows)[rows[i].dateKey] == rows[i].data
  {
    if i < |rows| - 1 {
      UpsertedIsLast(rows[..|rows| - 1], table, i);
      assert rows[|rows| - 1].dateKey != rows[i].dateKey;
    }
  }

  /**
    A replacing import is accepted exactly when the version is 1 and every event time and every
    row can be read; a backup without usage data is accepted and changes nothing.
   */
  lemma ReplaceAcceptedIff(l: Ledger, backup: Backup)
    ensures Import(l, backup, true).Some? <==>
              && backup.version == 1
              && (backup.includesUsage ==>
                    (forall i :: 0 <= i < |backup.usage.usageHistory| ==> backup.usage.usageHistory[i].timestamp.instant.Some?)
                    && (forall i :: 0 <= i < |backup.usage.usageDaily| ==> backup.usage.usageDaily[i].data.Json?))
    ensures backup.version == 1 && !backup.includesUsage ==> forall replace :: Import(l, backup, replace) == Some(l)
    ensures backup.version != 1 ==> forall replace :: Import(l, backup, replace) == None
  {
    hide Upserted, Peaks, Sum;
    var history := backup.usage.usageHistory;
    assert (forall i :: 0 <= i < |history| ==> HasDate(history[i]))
       <==> (forall i :: 0 <= i < |history| ==> history[i].timestamp.instant.Some?);
  }

  /**
    Then the history is the payload's, in order, under new identifiers, and every date the
    payload names has the last row given for it.
   */
  lemma ReplaceRestores(l: Ledger, payload: Payload, l': Ledger)
    requires Import(l, Backup(1, true, payload), true) == Some(l')
    ensures Restored(l, payload, l')
    ensures Events(l'.history) == Events(payload.usageHistory)
  {
    hide InsertAll, Upserted, Peaks, RowsGiven, Events;
    var base := l.(history := [], daily := map[]);
    NoEvents();
    InsertAllAt(base, payload.usageHistory, 0);
    InsertAllKeeps(base, payload.usageHistory);
    forall i | 0 <= i < |payload.usageHistory|
      ensures l'.history[i] == payload.usageHistory[i].(id := l.nextId + i)
    {
      InsertAllAt(base, payload.usageHistory, i);
    }
    RestoredRows(payload.usageDaily);
    assert map[] + Upserted(map[], payload.usageDaily) == Upserted(map[], payload.usageDaily);
  }

  lemma NoEvents()
    ensures Events([]) == multiset{}
  {
  }

  ghost predicate Restored(l: Ledger, payload: Payload, l': Ledger) {
    && |l'.history| == |payload.usageHistory|
    && (forall i :: 0 <= i < |l'.history| ==> l'.history[i] == payload.usageHistory[i].(id := l.nextId + i))
    && l'.nextId == l.nextId + |l'.history|
    && RowsGiven(payload.usageDaily, l'.daily)
  }

  ghost predicate RowsGiven(rows: seq<DailyEntry>, daily: map<DateKey, DayBlob>) {
    && (forall d :: d in daily <==> exists i :: 0 <= i < |rows| && rows[i].dateKey == d)
    && (forall i :: 0 <= i < |rows| && (forall j :: i < j < |rows| ==> rows[j].dateKey != rows[i].dateKey) ==>
          rows[i].dateKey in daily && daily[rows[i].dateKey] == rows[i].data)
  }

  lemma RestoredRows(rows: seq<DailyEntry>)
    ensures RowsGiven(rows, Upserted(map[], rows))
  {
    var daily := Upserted(map[], rows);
    forall d ensures d in daily <==> exists i :: 0 <= i < |rows| && rows[i].dateKey == d {
      UpsertedKeys(rows, map[], d);
    }
    forall i | 0 <= i < |rows| && (forall j :: i < j < |rows| ==> rows[j].dateKey != rows[i].dateKey)
      ensures rows[i].dateKey in daily && daily[rows[i].dateKey] == rows[i].data
    {
      UpsertedIsLast(rows, map[], i);
    }
  }

  /** The most requests the payload shows for a date: its events counted, or one of its rows. */
  ghost predicate MostShown(payload: Payload, date: DateKey, n: int) {
    var rows := payload.usageDaily;
    var events := if date.Date? then |Select(payload.usageHistory, During(date.day))| else 0;
    && events <= n
    && (forall i :: 0 <= i < |rows| && rows[i].dateKey == date && rows[i].data.Json? ==> rows[i].data.day.total.requests <= n)
    && (n == events || exists i :: 0 <= i < |rows| && rows[i].dateKey == date && rows[i].data.Json?
                                   && rows[i].data.day.total.requests == n)
  }

  ghost predicate Named(payload: Payload, date: DateKey) {
    || (date.Date? && Select(payload.usageHistory, During(date.day)) != [])
    || exists i :: 0 <= i < |payload.usageDaily| && payload.usageDaily[i].dateKey == date
  }

  /** The lifetime counter becomes the sum of these over the dates the payload names. */
  lemma ReplacedLifetime(l: Ledger, payload: Payload, l': Ledger, most: map<DateKey, int>)
    requires Import(l, Backup(1, true, payload), true) == Some(l')
    requires forall d :: d in most <==> Named(payload, d)
    requires forall d :: d in most ==> MostShown(payload, d, most[d])
    ensures l'.lifetime == Sum(most)
  {
    hide Named, MostShown, Sum, Peak, Upserted, Dates, Import;
    var peaks := Peaks(payload, payload.usageDaily);
    LifetimeIsPeaks(l, payload, l');
    forall d ensures d in peaks <==> d in most { NamedIsListed(payload, d); }
    forall d | d in most ensures most[d] == peaks[d] { MostIsPeak(payload, d, most[d]); }
    assert peaks == most;
  }

  lemma LifetimeIsPeaks(l: Ledger, payload: Payload, l': Ledger)
    requires Import(l, Backup(1, true, payload), true) == Some(l')
    ensures l'.lifetime == Sum(Peaks(payload, payload.usageDaily)) && AllJson(payload.usageDaily)
  {
    hide Peaks, Sum, InsertAll;
    InsertAllKeeps(l.(history := [], daily := map[]), payload.usageHistory);
  }

  lemma NamedIsListed(payload: Payload, d: DateKey)
    ensures Named(payload, d) <==> d in Dates(payload.usageHistory) + Upserted(map[], payload.usageDaily).Keys
  {
    UpsertedKeys(payload.usageDaily, map[], d);
    if d.Date? { DatedMeansSelected(payload.usageHistory, d.day); }
  }

  lemma MostIsPeak(payload: Payload, d: DateKey, n: int)
    requires AllJson(payload.usageDaily) && MostShown(payload, d, n)
    ensures n == Peak(payload.usageDaily, d, DayOf(payload.usageHistory, d).total.requests)
  {
    hide Peak, DayOf;
    var rows, floor := payload.usageDaily, DayOf(payload.usageHistory, d).total.requests;
    if d.Date? { RowsAreSums(payload.usageHistory, d.day); }
    if d.Malformed? { MalformedRowsAreEmpty(payload.usageHistory, d.text); }
    PeakIsLargest(rows, d, floor);
  }

  lemma {:induction false} PeakIsLargest(rows: seq<DailyEntry>, d: DateKey, floor: int)
    requires AllJson(rows)
    ensures floor <= Peak(rows, d, floor)
    ensures forall i :: 0 <= i < |rows| && rows[i].dateKey == d ==> rows[i].data.day.total.requests <= Peak(rows, d, floor)
    ensures Peak(rows, d, floor) == floor ||
            exists i :: 0 <= i < |rows| && rows[i].dateKey == d && rows[i].data.day.total.requests == Peak(rows, d, floor)
  {
    if rows != [] {
      var front, last := rows[..|rows| - 1], rows[|rows| - 1];
      assert forall i :: 0 <= i < |front| ==> front[i] == rows[i];
      PeakIsLargest(front, d, floor);
      assert rows[|rows| - 1] == last;
    }
  }

  // ---------------------------------------------------------------- a merging import

  /** The row that stands for a date: the given one, else the books of its events. */
  ghost predicate Shows(history: seq<Entry>, rows: map<DateKey, DayBlob>, day: int, row: DayData) {
    if Date(day) in rows then rows[Date(day)] == Json(row) else Books(row, Select(history, During(day)))
  }

  /** How many more of one event the incoming side has. */
  function Beyond(local: multiset<Entry>, incoming: multiset<Entry>, e: Entry): int {
    if local[e] < incoming[e] then incoming[e] - local[e] else 0
  }

  /**
    One date of an accepted merge. A date the payload does not name keeps its row. A date without local
    requests takes the incoming row; any other keeps its local row and gains the new events, provided the
    incoming events account for the incoming row, and the local ones for the local row if any event is new.
   */
  lemma MergedRow(l: Ledger, payload: Payload, l': Ledger, day: int, given: map<DateKey, DayBlob>)
    returns (local: DayData, incoming: DayData, added: seq<Entry>)
    requires Import(l, Backup(1, true, payload), false) == Some(l')
    requires RowsGiven(payload.usageDaily, given)
    ensures Shows(l.history, l.daily, day, local) && Shows(payload.usageHistory, given, day, incoming)
    ensures forall e :: multiset(added)[e] == if During(day)(e) then Beyond(Events(l.history), Events(payload.usageHistory), e) else 0
    ensures !Named(payload, Date(day)) ==>
      (Date(day) in l'.daily <==> Date(day) in l.daily)
      && (Date(day) in l.daily ==> l'.daily[Date(day)] == l.daily[Date(day)])
    ensures Named(payload, Date(day)) ==> Date(day) in l'.daily && l'.daily[Date(day)].Json?
    ensures Named(payload, Date(day)) && local.total.requests <= 0 ==> l'.daily[Date(day)].day == incoming
    ensures Named(payload, Date(day)) && local.total.requests > 0 ==>
      && DayGains(local, l'.daily[Date(day)].day, added)
      && incoming.total.requests <= |Select(payload.usageHistory, During(day))|
      && (added != [] ==> local.total.requests <= |Select(l.history, During(day))|)
  {
    hide Named, Shows, DayGains, Select, DaysForImport, AddAll, Events, Additions, DayOf;
    var d := Date(day);
    var sides := MergeSides(l.history, l.daily, payload).value;
    local, incoming := DayAt(sides.localDays, d), DayAt(sides.incomingDays, d);
    added := OfDate(sides.additions, d);
    GivenIsUpserted(payload.usageDaily, given);
    SideShows(l.history, l.daily, sides.localDays, day);
    SideShows(payload.usageHistory, given, sides.incomingDays, day);
    AddedOfDay(Events(l.history), payload.usageHistory, day);
    InsertAllKeeps(l, sides.additions);
    NamedIsListed(payload, d);
    CheckedDay(payload.usageHistory, given, sides.incomingDays, d);
    AddAllGains(local, added);
    HistoryCounts(payload.usageHistory, day);
    HistoryCounts(l.history, day);
  }

  lemma GivenIsUpserted(rows: seq<DailyEntry>, given: map<DateKey, DayBlob>)
    requires DistinctDates(rows) && RowsGiven(rows, given)
    ensures given == Upserted(map[], rows)
  {
    hide Upserted;
    RestoredRows(rows);
    var table := Upserted(map[], rows);
    forall d | d in given ensures d in table && given[d] == table[d] {
      var i :| 0 <= i < |rows| && rows[i].dateKey == d;
      assert forall j :: i < j < |rows| ==> rows[j].dateKey != rows[i].dateKey;
    }
  }

  lemma SideShows(history: seq<Entry>, rows: map<DateKey, DayBlob>, days: map<DateKey, DayData>, day: int)
    requires DaysForImport(rows, DaysOf(history)) == Some(days)
    ensures Shows(history, rows, day, DayAt(days, Date(day)))
  {
    hide Books, DayOf, DayCovers, ValidDay;
    CheckedDay(history, rows, days, Date(day));
    RowsAreSums(history, day);
    if Date(day) in rows { assert Trusted(Date(day), rows[Date(day)], DaysOf(history)); }
  }

  lemma HistoryCounts(history: seq<Entry>, day: int)
    ensures DayAt(DaysOf(history), Date(day)).total.requests == |Select(history, During(day))|
  {
    hide DaysOf, DayOf;
    DaysOfAt(history, Date(day));
    RowsAreSums(history, day);
  }

  lemma AddedOfDay(local: multiset<Entry>, incoming: seq<Entry>, day: int)
    ensures forall e :: multiset(OfDate(Additions(local, incoming), Date(day)))[e]
                     == if During(day)(e) then Beyond(local, Events(incoming), e) else 0
  {
    hide Additions, Events;
    AdditionsAreTheDifference(local, incoming);
    var additions := Additions(local, incoming);
    forall e ensures multiset(OfDate(additions, Date(day)))[e] == if During(day)(e) then multiset(additions)[e] else 0 {
      OfDateCounts(additions, day, e);
    }
  }

  lemma {:induction false} OfDateCounts(entries: seq<Entry>, day: int, e: Entry)
    ensures multiset(OfDate(entries, Date(day)))[e] == if During(day)(e) then multiset(entries)[e] else 0
  {
    if entries != [] {
      var front, last := entries[..|entries| - 1], entries[|entries| - 1];
      assert entries == front + [last];
      OfDateCounts(front, day, e);
    }
  }

  /** The same event in every column but the row identifier. */
  function SameAs(e: Entry): Entry -> bool { (x: Entry) => x.(id := e.id) == e }

  lemma {:induction false} EventsAreCounts(entries: seq<Entry>, e: Entry)
    ensures Events(entries)[e.(id := 0)] == |Select(entries, SameAs(e))|
  {
    if entries != [] {
      var front, last := entries[..|entries| - 1], entries[|entries| - 1];
      EventsAreCounts(front, e);
      EventsPop(entries);
    }
  }

  /** After a merge every event is there as often as on the side that had it more often; nothing stored moves. */
  lemma MergedEvents(l: Ledger, payload: Payload, l': Ledger, e: Entry)
    requires Import(l, Backup(1, true, payload), false) == Some(l')
    ensures var local, incoming := |Select(l.history, SameAs(e))|, |Select(payload.usageHistory, SameAs(e))|;
      |Select(l'.history, SameAs(e))| == if local < incoming then incoming else local
    ensures |l.history| <= |l'.history| && l'.history[..|l.history|] == l.history
    ensures forall i :: |l.history| <= i < |l'.history| ==> l'.history[i].id == l.nextId + i - |l.history|
  {
    hide Events, Select, MergeSides, InsertAll, Sides.Rows, Sides.Growth, Sum;
    MergeIsMaxUnion(l, payload, l', e.(id := 0));
    EventsAreCounts(l.history, e);
    EventsAreCounts(payload.usageHistory, e);
    EventsAreCounts(l'.history, e);
    var additions := MergeSides(l.history, l.daily, payload).value.additions;
    InsertAllAt(l, additions, 0);
    forall i | |l.history| <= i < |l'.history| ensures l'.history[i].id == l.nextId + i - |l.history| {
      InsertAllAt(l, additions, i - |l.history|);
    }
  }

  /** The requests known of each date before a merge. */
  ghost predicate KnownBefore(l: Ledger, before: map<DateKey, int>) {
    && (forall d :: d in before <==> d in l.daily || (d.Date? && Select(l.history, During(d.day)) != []))
    && (forall d :: d in before && d in l.daily ==> before[d] == DayIn(l.daily[d]).total.requests)
    && (forall d :: d in before && d !in l.daily ==> d.Date? && before[d] == |Select(l.history, During(d.day))|)
  }

  /** What the rows of the payload's dates count more than was known of them. */
  ghost predicate GrownBy(payload: Payload, before: map<DateKey, int>, l': Ledger, growth: map<DateKey, int>) {
    && (forall d :: d in growth <==> Named(payload, d))
    && (forall d :: d in growth ==> d in l'.daily && growth[d] == DayIn(l'.daily[d]).total.requests - ValueAt(before, d))
  }

  /** The lifetime counter is first raised to what was known, and then grows with the rows. */
  lemma MergedLifetime(l: Ledger, payload: Payload, l': Ledger, before: map<DateKey, int>, growth: map<DateKey, int>)
    requires Import(l, Backup(1, true, payload), false) == Some(l')
    requires KnownBefore(l, before) && GrownBy(payload, before, l', growth)
    ensures l'.lifetime == (if l.lifetime < Sum(before) then Sum(before) else l.lifetime) + Sum(growth)
  {
    hide Import, KnownBefore, GrownBy, MergeSides, Sides.Growth, Sides.Rows, RequestsOf, Sum;
    var sides := MergedCommit(l, payload, l');
    KnownIsLocal(l, payload, sides, before);
    GrowthIsGrown(l, payload, sides, l', before, growth);
  }

  lemma MergedCommit(l: Ledger, payload: Payload, l': Ledger) returns (sides: Sides)
    requires Import(l, Backup(1, true, payload), false) == Some(l')
    ensures MergeSides(l.history, l.daily, payload) == Some(sides)
    ensures l'.daily == l.daily + sides.Rows()
    ensures l'.lifetime == Max(Sum(RequestsOf(sides.localDays)), l.lifetime) + Sum(sides.Growth())
  {
    hide InsertAll, Sides.AllMergeable, Sides.Rows, Sides.Growth, RequestsOf, Sum, MergeSides;
    sides := MergeSides(l.history, l.daily, payload).value;
    InsertAllKeeps(l, sides.additions);
  }

  lemma KnownIsLocal(l: Ledger, payload: Payload, sides: Sides, before: map<DateKey, int>)
    requires MergeSides(l.history, l.daily, payload) == Some(sides) && KnownBefore(l, before)
    ensures before == RequestsOf(sides.localDays)
  {
    hide MergeSides, KnownBefore;
    forall d
      ensures (d in before <==> d in sides.localDays)
      ensures d in before ==> before[d] == sides.localDays[d].total.requests
    {
      KnownBeforeAt(l, payload, sides, before, d);
    }
  }

  lemma GrowthIsGrown(l: Ledger, payload: Payload, sides: Sides, l': Ledger, before: map<DateKey, int>,
                      growth: map<DateKey, int>)
    requires MergeSides(l.history, l.daily, payload) == Some(sides)
    requires l'.daily == l.daily + sides.Rows()
    requires before == RequestsOf(sides.localDays) && GrownBy(payload, before, l', growth)
    ensures growth == sides.Growth()
  {
    hide MergeSides, GrownBy, RequestsOf, Sides.Rows, Sides.Merged, DayAt;
    forall d
      ensures d in growth <==> d in sides.incomingDays
      ensures d in growth ==> growth[d] == sides.Merged(d).total.requests - DayAt(sides.localDays, d).total.requests
    {
      GrownByAt(l, payload, sides, l', before, growth, d);
    }
  }

  lemma KnownBeforeAt(l: Ledger, payload: Payload, sides: Sides, before: map<DateKey, int>, d: DateKey)
    requires MergeSides(l.history, l.daily, payload) == Some(sides) && KnownBefore(l, before)
    ensures d in before <==> d in sides.localDays
    ensures d in before ==> before[d] == sides.localDays[d].total.requests
  {
    hide DaysForImport, DayOf, Dates, DaysOf;
    CheckedDay(l.history, l.daily, sides.localDays, d);
    if d.Date? {
      DatedMeansSelected(l.history, d.day);
      RowsAreSums(l.history, d.day);
    } else {
      MalformedHasNoEvents(l.history, d);
    }
  }

  lemma MalformedHasNoEvents(entries: seq<Entry>, d: DateKey)
    requires d.Malformed?
    ensures d !in Dates(entries)
  {
  }

  lemma GrownByAt(l: Ledger, payload: Payload, sides: Sides, l': Ledger, before: map<DateKey, int>,
                  growth: map<DateKey, int>, d: DateKey)
    requires MergeSides(l.history, l.daily, payload) == Some(sides)
    requires l'.daily == l.daily + sides.Rows()
    requires before == RequestsOf(sides.localDays) && GrownBy(payload, before, l', growth)
    ensures d in growth <==> d in sides.incomingDays
    ensures d in growth ==> growth[d] == sides.Merged(d).total.requests - DayAt(sides.localDays, d).total.requests
  {
    hide DaysForImport, DayOf, Dates, DaysOf, Named, Sides.Merged;
    NamedIsListed(payload, d);
    CheckedDay(payload.usageHistory, Upserted(map[], payload.usageDaily), sides.incomingDays, d);
  }

  // ---------------------------------------------------------------- the checks

  /** y exceeds x by no more than 1e-12 of the largest of 1, |x| and |y|. */
  predicate NotBelow(x: real, y: real) {
    var gap := y - x;
    || gap <= 0.000000000001
    || gap <= 0.000000000001 * x || gap <= 0.000000000001 * -x
    || gap <= 0.000000000001 * y || gap <= 0.000000000001 * -y
  }

  predicate AtLeast(a: DayCounter, b: DayCounter) {
    && a.requests >= b.requests && a.promptTokens >= b.promptTokens && a.completionTokens >= b.completionTokens
    && NotBelow(a.cost, b.cost)
  }

  lemma CoversMeansAtLeast(a: DayCounter, b: DayCounter)
    ensures CounterCovers(a, b) <==> AtLeast(a, b)
  {
  }

  /** Every counter of b, in total and under each of its keys, is reached by a; a missing one is zero. */
  ghost predicate RowAtLeast(a: DayData, b: DayData) {
    && AtLeast(a.total, b.total)
    && (forall k :: k in b.byProvider ==> AtLeast(if k in a.byProvider then a.byProvider[k] else NONE, b.byProvider[k]))
    && (forall k :: k in b.byModel ==> AtLeast(if k in a.byModel then a.byModel[k] else NONE, b.byModel[k]))
  }

  lemma DayCoversMeansAtLeast(a: DayData, b: DayData)
    ensures DayCovers(a, b) <==> RowAtLeast(a, b)
  {
    hide CounterCovers, AtLeast;
    forall x, y ensures CounterCovers(x, y) <==> AtLeast(x, y) { CoversMeansAtLeast(x, y); }
  }

  /** No counter of a breakdown is negative, and together they are no more than the total. */
  ghost predicate Fits(total: DayCounter, m: map<string, DayCounter>) {
    && (forall k :: k in m ==> AtLeast(m[k], NONE))
    && Sum(map k | k in m :: m[k].requests) <= total.requests
    && Sum(map k | k in m :: m[k].promptTokens) <= total.promptTokens
    && Sum(map k | k in m :: m[k].completionTokens) <= total.completionTokens
    && NotBelow(total.cost, SumCounters(m).cost)
  }

  lemma {:induction false} SumByField(m: map<string, DayCounter>)
    ensures SumCounters(m).requests == Sum(map k | k in m :: m[k].requests)
    ensures SumCounters(m).promptTokens == Sum(map k | k in m :: m[k].promptTokens)
    ensures SumCounters(m).completionTokens == Sum(map k | k in m :: m[k].completionTokens)
    decreases |m|
  {
    var requests := map k | k in m :: m[k].requests;
    var prompts := map k | k in m :: m[k].promptTokens;
    var completions := map k | k in m :: m[k].completionTokens;
    if m == map[] {
      assert requests == map[] && prompts == map[] && completions == map[];
    } else {
      var j :| j in m;
      var rest := m - {j};
      SumByField(rest);
      SumCountersPick(m, j);
      SumPick(requests, j);
      SumPick(prompts, j);
      SumPick(completions, j);
      assert requests - {j} == map k | k in rest :: rest[k].requests;
      assert prompts - {j} == map k | k in rest :: rest[k].promptTokens;
      assert completions - {j} == map k | k in rest :: rest[k].completionTokens;
    }
  }

  lemma ValidMeansFits(day: DayData)
    ensures ValidDay(day) <==>
              AtLeast(day.total, NONE) && Fits(day.total, day.byProvider) && Fits(day.total, day.byModel)
  {
    BreakdownMeansFits(day.total, day.byProvider);
    BreakdownMeansFits(day.total, day.byModel);
    CoversMeansAtLeast(day.total, NONE);
  }

  lemma BreakdownMeansFits(total: DayCounter, m: map<string, DayCounter>)
    ensures CoversBreakdown(total, m) <==> Fits(total, m)
  {
    hide CounterCovers;
    SumByField(m);
    CoversMeansAtLeast(total, SumCounters(m));
    forall k | k in m ensures CounterCovers(m[k], NONE) <==> AtLeast(m[k], NONE) { CoversMeansAtLeast(m[k], NONE); }
  }

  // ---------------------------------------------------------------- when a merge is accepted

  /** A row with a real date that is consistent in itself and covers the events of its date. */
  ghost predicate SoundRow(date: DateKey, data: DayBlob, history: seq<Entry>) {
    && date.Date? && data.Json?
    && ValidDay(data.day) && DayCovers(data.day, DayOf(history, date))
  }

  ghost predicate SoundRows(rows: seq<DailyEntry>, history: seq<Entry>) {
    && (forall i, j :: 0 <= i < j < |rows| ==> rows[i].dateKey != rows[j].dateKey)
    && forall i :: 0 <= i < |rows| ==> SoundRow(rows[i].dateKey, rows[i].data, history)
  }

  /** The row that counts for a date: the given one, else the fold of its events. */
  function RowShown(history: seq<Entry>, rows: map<DateKey, DayBlob>, date: DateKey): DayData {
    if date in rows then DayIn(rows[date]) else DayOf(history, date)
  }

  /** No event of the date is incoming more often than it is stored. */
  ghost predicate NothingNew(l: Ledger, payload: Payload, date: DateKey) {
    forall e :: OnDate(e, date) ==> Events(payload.usageHistory)[e] <= Events(l.history)[e]
  }

  /**
    Requests known on both sides can be told apart: incoming events account for the incoming row, and stored
    events for the stored row unless nothing is new.
   */
  ghost predicate Reconcilable(l: Ledger, payload: Payload, given: map<DateKey, DayBlob>, date: DateKey) {
    RowShown(l.history, l.daily, date).total.requests > 0 ==>
      && DayCovers(DayOf(payload.usageHistory, date), RowShown(payload.usageHistory, given, date))
      && (DayCovers(DayOf(l.history, date), RowShown(l.history, l.daily, date)) || NothingNew(l, payload, date))
  }

  /** A merge is refused for nothing but unreadable times, unsound rows and dates that cannot be reconciled. */
  lemma MergeAcceptedIff(l: Ledger, payload: Payload, given: map<DateKey, DayBlob>)
    requires RowsGiven(payload.usageDaily, given)
    ensures Import(l, Backup(1, true, payload), false).Some? <==>
              && AllDated(payload.usageHistory) && AllDated(l.history)
              && SoundRows(payload.usageDaily, payload.usageHistory)
              && (forall d :: d in l.daily ==> SoundRow(d, l.daily[d], l.history))
              && (forall d :: Named(payload, d) ==> Reconcilable(l, payload, given, d))
  {
    hide ValidDay, DayCovers, DaysOf, DayOf, SoundRow, SoundRows, Additions, Sum, Named, Reconcilable, RowsGiven, Mergeable, DaysForImport;
    SoundIsTrusted(payload.usageDaily, payload.usageHistory);
    StoredIsTrusted(l.daily, l.history);
    var incoming := DaysForImport(Upserted(map[], payload.usageDaily), DaysOf(payload.usageHistory));
    var local := DaysForImport(l.daily, DaysOf(l.history));
    TrustedMeansDays(Upserted(map[], payload.usageDaily), DaysOf(payload.usageHistory));
    TrustedMeansDays(l.daily, DaysOf(l.history));
    if MergeSides(l.history, l.daily, payload).Some? {
      var sides := MergeSides(l.history, l.daily, payload).value;
      GivenIsUpserted(payload.usageDaily, given);
      forall d ensures d in sides.incomingDays <==> Named(payload, d) { NamedIsIncoming(l, payload, sides, d); }
      forall d | d in sides.incomingDays ensures Mergeable(sides.View(d)) <==> Reconcilable(l, payload, given, d) {
        MergeableMeans(l, payload, sides, given, d);
      }
    }
  }

  lemma TrustedMeansDays(table: map<DateKey, DayBlob>, history: map<DateKey, DayData>)
    ensures DaysForImport(table, history).Some? <==> AllTrusted(table, history)
  {
  }

  lemma NamedIsIncoming(l: Ledger, payload: Payload, sides: Sides, d: DateKey)
    requires MergeSides(l.history, l.daily, payload) == Some(sides)
    ensures d in sides.incomingDays <==> Named(payload, d)
  {
    hide DaysForImport, Named;
    NamedIsListed(payload, d);
    CheckedDay(payload.usageHistory, Upserted(map[], payload.usageDaily), sides.incomingDays, d);
  }

  lemma MergeableMeans(l: Ledger, payload: Payload, sides: Sides, given: map<DateKey, DayBlob>, d: DateKey)
    requires MergeSides(l.history, l.daily, payload) == Some(sides) && given == Upserted(map[], payload.usageDaily)
    ensures Mergeable(sides.View(d)) <==> Reconcilable(l, payload, given, d)
  {
    hide DaysForImport, DaysOf, DayOf, DayAt, DayCovers, Additions, Events, NothingNew;
    CheckedDay(l.history, l.daily, sides.localDays, d);
    CheckedDay(payload.usageHistory, given, sides.incomingDays, d);
    DaysOfAt(l.history, d);
    DaysOfAt(payload.usageHistory, d);
    NothingAddedMeansNothingNew(l, payload, d);
  }

  lemma NothingAddedMeansNothingNew(l: Ledger, payload: Payload, d: DateKey)
    ensures OfDate(Additions(Events(l.history), payload.usageHistory), d) == [] <==> NothingNew(l, payload, d)
  {
    hide Additions, Events;
    var added := OfDate(Additions(Events(l.history), payload.usageHistory), d);
    if d.Date? {
      AddedOfDay(Events(l.history), payload.usageHistory, d.day);
      assert added == [] <==> forall e :: multiset(added)[e] == 0 by {
        if added != [] { assert added[0] in multiset(added); }
      }
      forall e ensures OnDate(e, d) <==> During(d.day)(e) {}
    } else {
      assert |added| > 0 ==> OnDate(added[0], d);
    }
  }

  lemma StoredIsTrusted(table: map<DateKey, DayBlob>, history: seq<Entry>)
    ensures (forall d :: d in table ==> SoundRow(d, table[d], history)) <==> AllTrusted(table, DaysOf(history))
  {
    hide ValidDay, DayCovers, DaysOf, DayOf;
    forall d | d in table ensures SoundRow(d, table[d], history) <==> Trusted(d, table[d], DaysOf(history)) {
      DaysOfAt(history, d);
    }
  }

  lemma SoundIsTrusted(rows: seq<DailyEntry>, history: seq<Entry>)
    ensures SoundRows(rows, history) <==> DistinctDates(rows) && AllTrusted(Upserted(map[], rows), DaysOf(history))
  {
    hide ValidDay, DayCovers, DaysOf, DayOf, SoundRow;
    var table := Upserted(map[], rows);
    StoredIsTrusted(table, history);
    if DistinctDates(rows) {
      forall i | 0 <= i < |rows| ensures rows[i].dateKey in table && table[rows[i].dateKey] == rows[i].data {
        UpsertedAt(rows, map[], i);
      }
      forall d | d in table ensures exists i :: 0 <= i < |rows| && rows[i].dateKey == d { UpsertedKeys(rows, map[], d); }
    }
  }
}
