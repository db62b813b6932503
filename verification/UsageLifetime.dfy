/** The lifetime counter never falls below what the other two views of the events show. */
module UsageLifetime {
  import opened Wrappers
  import opened UsageModel
  import opened MapSums
  import opened UsageImport
  import opened UsageLedger

  function Retained(l: Ledger, date: DateKey): int { Tally(l.history, date, Total).requests }

  function RowRequests(l: Ledger, date: DateKey): int { RowAt(l.daily, date).total.requests }

  /** What is known of each date: its aggregate or its retained events, whichever is larger. */
  function Known(l: Ledger): map<DateKey, int> {
    map d | d in l.daily.Keys + Dates(l.history) :: Max(RowRequests(l, d), Retained(l, d))
  }

  ghost predicate LifetimeCovers(l: Ledger) { l.lifetime >= Sum(Known(l)) }

  lemma RetainedIsCount(l: Ledger, date: DateKey)
    ensures Retained(l, date) >= 0
    ensures Retained(l, date) > 0 <==> date in Dates(l.history)
  {
    TallyRequests(l.history, date, Total);
  }

  /** Any bound on rows and retained events, date by date, bounds the sum. */
  lemma KnownBelow(l: Ledger, bound: map<DateKey, int>)
    requires forall d :: Retained(l, d) <= ValueAt(bound, d)
    requires forall d :: d in l.daily ==> RowRequests(l, d) <= ValueAt(bound, d)
    ensures Sum(Known(l)) <= Sum(bound)
  {
    hide Retained, RowRequests, Known;
    forall d | d in Known(l) || d in bound ensures ValueAt(Known(l), d) <= ValueAt(bound, d) {
      assert Retained(l, d) <= ValueAt(bound, d);
      KnownBelowAt(l, d, ValueAt(bound, d));
    }
    SumMonotone(Known(l), bound);
  }

  lemma KnownBelowAt(l: Ledger, d: DateKey, v: int)
    requires Retained(l, d) <= v
    requires d in l.daily ==> RowRequests(l, d) <= v
    ensures ValueAt(Known(l), d) <= v
  {
    RetainedIsCount(l, d);
  }

  lemma KnownAbove(l: Ledger, d: DateKey)
    ensures Retained(l, d) <= ValueAt(Known(l), d)
    ensures d in l.daily ==> RowRequests(l, d) <= ValueAt(Known(l), d)
  {
    RetainedIsCount(l, d);
  }

  // ---------------------------------------------------------------- save

  lemma SaveCounts(l: Ledger, e: Entry, now: Clock, date: DateKey, d: DateKey)
    requires date == DateKeyOf(Defaulted(e, now).timestamp, DayOfInstant(now.instant))
    ensures var l' := Save(l, e, now);
      && Retained(l', d) <= Retained(l, d) + (if d == date then 1 else 0)
      && (d in l'.daily <==> d in l.daily || d == date)
      && RowRequests(l', d) == RowRequests(l, d) + if d == date then 1 else 0
  {
    TallyPush(l.history, Defaulted(e, now).(id := l.nextId), d, Total);
  }

  lemma SaveKnown(l: Ledger, e: Entry, now: Clock)
    ensures Sum(Known(Save(l, e, now))) <= Sum(Known(l)) + 1
  {
    hide Save, Known, Retained, RowRequests;
    var date := DateKeyOf(Defaulted(e, now).timestamp, DayOfInstant(now.instant));
    var v := ValueAt(Known(l), date) + 1;
    var bound := Known(l)[date := v];
    SumPut(Known(l), date, v);
    forall d
      ensures Retained(Save(l, e, now), d) <= ValueAt(bound, d)
      ensures d in Save(l, e, now).daily ==> RowRequests(Save(l, e, now), d) <= ValueAt(bound, d)
    {
      SaveCounts(l, e, now, date, d);
      KnownAbove(l, d);
      KnownAbove(l, date);
      RowOrNothing(l, d);
      RetainedIsCount(l, d);
    }
    KnownBelow(Save(l, e, now), bound);
  }

  lemma RowOrNothing(l: Ledger, d: DateKey)
    ensures d !in l.daily ==> RowRequests(l, d) == 0
  {
  }

  // ---------------------------------------------------------------- prune

  lemma {:induction false} KeptTally(entries: seq<Entry>, cutoff: string, date: DateKey)
    ensures Tally(Kept(entries, cutoff), date, Total).requests <= Tally(entries, date, Total).requests
  {
    if entries != [] {
      var front, last := entries[..|entries| - 1], entries[|entries| - 1];
      KeptTally(front, cutoff, date);
      TallyPush(Kept(front, cutoff), last, date, Total);
    }
  }

  lemma PruneKnown(l: Ledger, retentionDays: int, cutoff: string)
    ensures Sum(Known(Prune(l, retentionDays, cutoff))) <= Sum(Known(l))
  {
    var l' := Prune(l, retentionDays, cutoff);
    forall d
      ensures Retained(l', d) <= ValueAt(Known(l), d)
      ensures d in l'.daily ==> RowRequests(l', d) <= ValueAt(Known(l), d)
    {
      if retentionDays > 0 { KeptTally(l.history, cutoff, d); }
      KnownAbove(l, d);
    }
    KnownBelow(l', Known(l));
  }

  // ---------------------------------------------------------------- import

  lemma {:induction false} InsertAllTally(l: Ledger, entries: seq<Entry>, date: DateKey, dim: Dimension)
    ensures Tally(InsertAll(l, entries).history, date, dim)
         == Plus(Tally(l.history, date, dim), Tally(entries, date, dim))
  {
    hide Tally, Single, AddUsageToCounter, OnDate, Counts;
    if entries == [] {
      TallyOfNone(date, dim);
    } else {
      var front, e := entries[..|entries| - 1], entries[|entries| - 1];
      InsertAllTally(l, front, date, dim);
      var before := InsertAll(l, front);
      assert entries == front + [e];
      TallyPushSum(front, e, date, dim);
      TallyPushSum(before.history, e.(id := before.nextId), date, dim);
      SingleIgnoresId(e, before.nextId, date, dim);
    }
  }

  lemma SingleIgnoresId(e: Entry, id: int, date: DateKey, dim: Dimension)
    ensures Single(e.(id := id), date, dim) == Single(e, date, dim)
  {
  }

  lemma {:induction false} PeakCovers(rows: seq<DailyEntry>, date: DateKey, floor: int)
    ensures Peak(rows, date, floor) >= floor
    ensures date in Upserted(map[], rows) ==>
              Peak(rows, date, floor) >= DayIn(Upserted(map[], rows)[date]).total.requests
  {
    if rows != [] { PeakCovers(rows[..|rows| - 1], date, floor); }
  }

  lemma ReplaceKnown(l: Ledger, payload: Payload)
    requires ReplacePlan(payload).Some?
    ensures LifetimeCovers(ApplyPlan(l, ReplacePlan(payload).value, true))
  {
    var l' := ApplyPlan(l, ReplacePlan(payload).value, true);
    var peaks := Peaks(payload, payload.usageDaily);
    InsertAllKeeps(l.(history := [], daily := map[]), payload.usageHistory);
    forall d
      ensures Retained(l', d) <= ValueAt(peaks, d)
      ensures d in l'.daily ==> RowRequests(l', d) <= ValueAt(peaks, d)
    {
      ReplaceCounts(l, payload, d);
    }
    KnownBelow(l', peaks);
  }

  lemma ReplaceCounts(l: Ledger, payload: Payload, d: DateKey)
    requires ReplacePlan(payload).Some?
    ensures var l' := ApplyPlan(l, ReplacePlan(payload).value, true);
      && Retained(l', d) <= ValueAt(Peaks(payload, payload.usageDaily), d)
      && (d in l'.daily ==> RowRequests(l', d) <= ValueAt(Peaks(payload, payload.usageDaily), d))
  {
    var base := l.(history := [], daily := map[]);
    var floor := DayOf(payload.usageHistory, d).total.requests;
    InsertAllTally(base, payload.usageHistory, d, Total);
    DayOfAt(payload.usageHistory, d, Total);
    TallyRequests(payload.usageHistory, d, Total);
    PeakCovers(payload.usageDaily, d, floor);
  }

  // ---------------------------------------------------------------- merge

  /** What a passed check says about one side: each day counts at least its history. */
  lemma CheckedDay(history: seq<Entry>, daily: map<DateKey, DayBlob>, days: map<DateKey, DayData>, d: DateKey)
    requires DaysForImport(daily, DaysOf(history)) == Some(days)
    ensures DayAt(days, d).total.requests >= Tally(history, d, Total).requests >= 0
    ensures d in daily ==> DayAt(days, d) == DayIn(daily[d])
    ensures d !in daily ==> DayAt(days, d) == DayOf(history, d)
    ensures d in days <==> d in daily || d in Dates(history)
  {
    DaysOfAt(history, d);
    DayOfAt(history, d, Total);
    TallyRequests(history, d, Total);
    if d in daily { assert Trusted(d, daily[d], DaysOf(history)); }
  }

  lemma AddAllRequests(day: DayData, entries: seq<Entry>)
    ensures AddAll(day, entries).total.requests == day.total.requests + |entries|
  {
    if entries != [] { AddAllRequests(day, entries[..|entries| - 1]); }
  }

  lemma {:induction false} OfDateTally(entries: seq<Entry>, d: DateKey, dim: Dimension)
    ensures Tally(OfDate(entries, d), d, dim) == Tally(entries, d, dim)
    ensures |OfDate(entries, d)| == Tally(entries, d, Total).requests
  {
    if entries != [] {
      var front, last := entries[..|entries| - 1], entries[|entries| - 1];
      OfDateTally(front, d, dim);
      TallyPush(OfDate(front, d), last, d, dim);
    }
  }

  /** The new events of a date are among the incoming ones its incoming day counts. */
  lemma AdditionsCounted(history: seq<Entry>, daily: map<DateKey, DayBlob>, payload: Payload, sides: Sides, d: DateKey)
    requires MergeSides(history, daily, payload) == Some(sides)
    ensures 0 <= Tally(sides.additions, d, Total).requests <= DayAt(sides.incomingDays, d).total.requests
  {
    hide DaysForImport, DaysOf, Tally;
    CheckedDay(payload.usageHistory, Upserted(map[], payload.usageDaily), sides.incomingDays, d);
    SplitIncoming(Events(history), payload.usageHistory, d, Total);
    TallyRequests(Absorbed(Events(history), payload.usageHistory), d, Total);
    TallyRequests(sides.additions, d, Total);
  }

  lemma GrowthAt(sides: Sides, d: DateKey)
    ensures ValueAt(sides.Growth(), d) ==
      if d !in sides.incomingDays then 0
      else if DayAt(sides.localDays, d).total.requests > 0 then Tally(sides.additions, d, Total).requests
      else DayAt(sides.incomingDays, d).total.requests - DayAt(sides.localDays, d).total.requests
  {
    OfDateTally(sides.additions, d, Total);
    AddAllRequests(DayAt(sides.localDays, d), OfDate(sides.additions, d));
  }

  /** What one date can show after a merge is what its local day showed plus its growth. */
  lemma MergeCounts(history: seq<Entry>, daily: map<DateKey, DayBlob>, payload: Payload, sides: Sides, d: DateKey)
    requires MergeSides(history, daily, payload) == Some(sides)
    ensures Tally(history, d, Total).requests + Tally(sides.additions, d, Total).requests
         <= ValueAt(RequestsOf(sides.localDays), d) + ValueAt(sides.Growth(), d)
    ensures ValueAt(sides.Growth(), d) >= 0
  {
    hide DaysForImport, DaysOf, Tally, Additions, Sides.Growth, Sides.Merged;
    CheckedDay(history, daily, sides.localDays, d);
    AdditionsCounted(history, daily, payload, sides, d);
    GrowthAt(sides, d);
  }

  lemma MergedRowCounts(l: Ledger, payload: Payload, sides: Sides, plan: Plan, d: DateKey)
    requires MergeSides(l.history, l.daily, payload) == Some(sides)
    requires plan.additions == sides.additions && plan.daily == sides.Rows()
    ensures var l' := ApplyPlan(l, plan, false);
      var most := ValueAt(RequestsOf(sides.localDays), d) + ValueAt(sides.Growth(), d);
      && Retained(l', d) <= most
      && (d in l'.daily ==> RowRequests(l', d) <= most)
  {
    hide MergeSides, Tally;
    MergeCounts(l.history, l.daily, payload, sides, d);
    InsertAllTally(l, plan.additions, d, Total);
    InsertAllKeeps(l, plan.additions);
    LocalRow(l, payload, sides, d);
  }

  lemma LocalRow(l: Ledger, payload: Payload, sides: Sides, d: DateKey)
    requires MergeSides(l.history, l.daily, payload) == Some(sides)
    ensures d in l.daily ==> d in sides.localDays && sides.localDays[d] == RowAt(l.daily, d)
  {
    hide DaysOf;
    CheckedDay(l.history, l.daily, sides.localDays, d);
  }

  lemma MergeKnown(l: Ledger, payload: Payload)
    requires MergePlan(l.history, l.daily, l.lifetime, payload).Some?
    ensures var l' := ApplyPlan(l, MergePlan(l.history, l.daily, l.lifetime, payload).value, false);
      LifetimeCovers(l') && l'.lifetime >= l.lifetime
  {
    hide MergeSides, Known, Sides.Growth, Sides.Rows, Sides.AllMergeable, Retained, RowRequests, InsertAll;
    var sides := MergeSides(l.history, l.daily, payload).value;
    var plan := MergePlan(l.history, l.daily, l.lifetime, payload).value;
    var before, growth := RequestsOf(sides.localDays), sides.Growth();
    var bound := map d | d in before.Keys + growth.Keys :: ValueAt(before, d) + ValueAt(growth, d);
    SumOfPointwiseSum(before, growth, bound);
    forall d
      ensures Retained(ApplyPlan(l, plan, false), d) <= ValueAt(bound, d)
      ensures d in ApplyPlan(l, plan, false).daily ==> RowRequests(ApplyPlan(l, plan, false), d) <= ValueAt(bound, d)
      ensures ValueAt(growth, d) >= 0
    {
      MergedRowCounts(l, payload, sides, plan, d);
      MergeCounts(l.history, l.daily, payload, sides, d);
    }
    KnownBelow(ApplyPlan(l, plan, false), bound);
    SumMonotone(map[], growth);
  }

  // ---------------------------------------------------------------- every run

  lemma NextCovers(l: Ledger, step: Step)
    requires LifetimeCovers(l)
    ensures LifetimeCovers(Next(l, step))
  {
    match step
    case SaveStep(e, now) => SaveKnown(l, e, now);
    case PruneStep(days, cutoff) => PruneKnown(l, days, cutoff);
    case ResetStep => assert Known(Reset(l)) == map[];
    case ImportStep(backup, replace) =>
      if Import(l, backup, replace).Some? && backup.includesUsage {
        if replace { ReplaceKnown(l, backup.usage); } else { MergeKnown(l, backup.usage); }
      }
  }

  /** From an empty database, after any sequence of steps whatsoever. */
  lemma {:induction false} LifetimeAlwaysCovers(steps: seq<Step>)
    ensures LifetimeCovers(Run(EMPTY, steps))
  {
    if steps == [] {
      assert Known(EMPTY) == map[];
    } else {
      LifetimeAlwaysCovers(steps[..|steps| - 1]);
      NextCovers(Run(EMPTY, steps[..|steps| - 1]), steps[|steps| - 1]);
    }
  }

  /** Only a reset or a replacing import can lower the lifetime counter. */
  lemma LifetimeNeverDecreases(l: Ledger, step: Step)
    requires !step.ResetStep? && !(step.ImportStep? && step.replace)
    ensures Next(l, step).lifetime >= l.lifetime
  {
    if step.ImportStep? && Import(l, step.backup, false).Some? && step.backup.includesUsage {
      MergeKnown(l, step.backup.usage);
    }
  }
}
