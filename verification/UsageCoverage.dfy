/**
  In runs without a replacing import, whose events have no negative amounts, every daily row
  is valid and covers the events of its day that are still retained: in total, by provider
  and by model. Covering keeps the source's tolerance throughout.
 */
module UsageCoverage {
  import opened Wrappers
  import opened UsageModel
  import opened MapSums
  import opened UsageImport
  import opened UsageLedger
  import opened UsageLifetime

  predicate NonNegative(e: Entry) { e.promptTokens >= 0 && e.completionTokens >= 0 && e.cost >= 0.0 }

  predicate AllNonNegative(entries: seq<Entry>) {
    forall i :: 0 <= i < |entries| ==> NonNegative(entries[i])
  }

  predicate Amounts(c: DayCounter) {
    c.requests >= 0 && c.promptTokens >= 0 && c.completionTokens >= 0 && c.cost >= 0.0
  }

  // ---------------------------------------------------------------- covering survives change

  lemma CoverGrows(a: DayCounter, b: DayCounter, c: DayCounter)
    requires CounterCovers(a, b) && Amounts(c)
    ensures CounterCovers(Plus(a, c), b)
  {
  }

  lemma CoverMovesTogether(a: DayCounter, b: DayCounter, c: DayCounter)
    requires CounterCovers(a, b) && CounterCovers(a, ZERO) && Amounts(c)
    ensures CounterCovers(Plus(a, c), Plus(b, c))
  {
  }

  lemma CoverShrinks(a: DayCounter, b: DayCounter, c: DayCounter)
    requires CounterCovers(a, Plus(b, c)) && Amounts(b) && Amounts(c)
    ensures CounterCovers(a, b)
  {
  }

  lemma AddIsPlus(c: DayCounter, e: Entry)
    ensures AddUsageToCounter(c, e) == Plus(c, AddUsageToCounter(ZERO, e))
    ensures NonNegative(e) ==> Amounts(AddUsageToCounter(ZERO, e))
  {
  }

  lemma {:induction false} TallyAmounts(entries: seq<Entry>, d: DateKey, dim: Dimension)
    requires AllNonNegative(entries)
    ensures Amounts(Tally(entries, d, dim))
  {
    if entries != [] {
      assert NonNegative(entries[|entries| - 1]);
      TallyAmounts(entries[..|entries| - 1], d, dim);
    }
  }

  // ---------------------------------------------------------------- validity

  lemma SumCountersAdd(m: map<string, DayCounter>, key: string, e: Entry)
    ensures SumCounters(m[key := AddUsageToCounter(Lookup(m, key), e)])
         == AddUsageToCounter(SumCounters(m), e)
  {
    SumCountersPut(m, key, AddUsageToCounter(Lookup(m, key), e));
  }

  lemma BreakdownAdd(total: DayCounter, m: map<string, DayCounter>, key: string, e: Entry)
    requires CoversBreakdown(total, m) && CounterCovers(total, ZERO) && NonNegative(e)
    ensures CoversBreakdown(AddUsageToCounter(total, e), m[key := AddUsageToCounter(Lookup(m, key), e)])
    ensures CoversBreakdown(AddUsageToCounter(total, e), m)
  {
    hide CounterCovers, SumCounters, AddUsageToCounter, Plus;
    var c := AddUsageToCounter(ZERO, e);
    SumCountersAdd(m, key, e);
    AddIsPlus(total, e);
    AddIsPlus(SumCounters(m), e);
    AddIsPlus(Lookup(m, key), e);
    CoverMovesTogether(total, SumCounters(m), c);
    CoverGrows(total, SumCounters(m), c);
    ZeroCoversZero();
    CoverGrows(Lookup(m, key), ZERO, c);
  }

  lemma ZeroCoversZero()
    ensures CounterCovers(ZERO, ZERO)
  {
  }

  lemma ValidAdd(day: DayData, e: Entry)
    requires ValidDay(day) && NonNegative(e)
    ensures ValidDay(AddUsageToDay(day, e))
  {
    hide CounterCovers, CoversBreakdown, AddUsageToCounter, Plus;
    BreakdownAdd(day.total, day.byProvider, e.provider, e);
    BreakdownAdd(day.total, day.byModel, ModelKey(e), e);
    AddIsPlus(day.total, e);
    CoverGrows(day.total, ZERO, AddUsageToCounter(ZERO, e));
  }

  lemma EmptyDayIsValid()
    ensures ValidDay(EMPTY_DAY)
  {
  }

  lemma {:induction false} ValidAddAll(day: DayData, entries: seq<Entry>)
    requires ValidDay(day) && AllNonNegative(entries)
    ensures ValidDay(AddAll(day, entries))
  {
    hide ValidDay;
    if entries != [] {
      ValidAddAll(day, entries[..|entries| - 1]);
      ValidAdd(AddAll(day, entries[..|entries| - 1]), entries[|entries| - 1]);
    }
  }

  lemma {:induction false} DayOfIsValid(entries: seq<Entry>, d: DateKey)
    requires AllNonNegative(entries)
    ensures ValidDay(DayOf(entries, d))
  {
    hide ValidDay;
    EmptyDayIsValid();
    if entries != [] {
      DayOfIsValid(entries[..|entries| - 1], d);
      ValidAdd(DayOf(entries[..|entries| - 1], d), entries[|entries| - 1]);
    }
  }

  lemma ValidAt(day: DayData, dim: Dimension)
    requires ValidDay(day)
    ensures CounterCovers(At(day, dim), ZERO)
  {
  }

  // ---------------------------------------------------------------- the invariant

  ghost predicate CoversAt(day: DayData, entries: seq<Entry>, d: DateKey, dim: Dimension) {
    CounterCovers(At(day, dim), Tally(entries, d, dim))
  }

  ghost predicate Covered(day: DayData, entries: seq<Entry>, d: DateKey) {
    ValidDay(day) && forall dim :: CoversAt(day, entries, d, dim)
  }

  ghost predicate RowsCover(l: Ledger) {
    && AllNonNegative(l.history)
    && Dates(l.history) <= l.daily.Keys
    && forall d :: d in l.daily ==> l.daily[d].Json? && Covered(l.daily[d].day, l.history, d)
  }

  /** What the merge checks of a day and the pointwise reading of it agree. */
  lemma CoversMeansDayCovers(day: DayData, entries: seq<Entry>, d: DateKey)
    requires ValidDay(day)
    ensures DayCovers(day, DayOf(entries, d)) <==> forall dim :: CoversAt(day, entries, d, dim)
  {
    forall dim ensures At(DayOf(entries, d), dim) == Tally(entries, d, dim) {
      DayOfAt(entries, d, dim);
    }
    var other := DayOf(entries, d);
    if DayCovers(day, other) {
      forall dim ensures CoversAt(day, entries, d, dim) {
        ValidAt(day, dim);
        CoversEachDimension(day, other, dim);
      }
    }
    if forall dim :: CoversAt(day, entries, d, dim) {
      assert CoversAt(day, entries, d, Total);
      forall k | k in other.byProvider ensures CounterCovers(Lookup(day.byProvider, k), other.byProvider[k]) {
        assert CoversAt(day, entries, d, Provider(k));
      }
      forall k | k in other.byModel ensures CounterCovers(Lookup(day.byModel, k), other.byModel[k]) {
        assert CoversAt(day, entries, d, Model(k));
      }
    }
  }

  lemma CoversEachDimension(day: DayData, other: DayData, dim: Dimension)
    requires DayCovers(day, other) && CounterCovers(At(day, dim), ZERO)
    ensures CounterCovers(At(day, dim), At(other, dim))
  {
  }

  // ---------------------------------------------------------------- save

  lemma NothingRetained(entries: seq<Entry>, d: DateKey, dim: Dimension)
    requires d !in Dates(entries)
    ensures Tally(entries, d, dim) == ZERO
  {
    TallyRequests(entries, d, dim);
  }

  lemma CoveredAdd(day: DayData, entries: seq<Entry>, d: DateKey, e: Entry)
    requires Covered(day, entries, d) && NonNegative(e)
    ensures Covered(AddUsageToDay(day, e), entries + [e], d)
  {
    hide ValidDay, CounterCovers, AddUsageToCounter, Plus, AddUsageToDay;
    ValidAdd(day, e);
    forall dim ensures CoversAt(AddUsageToDay(day, e), entries + [e], d, dim) {
      assert CoversAt(day, entries, d, dim);
      ValidAt(day, dim);
      AddUsageAt(day, e, dim);
      TallyPush(entries, e, d, dim);
      AddIsPlus(At(day, dim), e);
      AddIsPlus(Tally(entries, d, dim), e);
      CoverMovesTogether(At(day, dim), Tally(entries, d, dim), AddUsageToCounter(ZERO, e));
      CoverGrows(At(day, dim), Tally(entries, d, dim), AddUsageToCounter(ZERO, e));
    }
  }

  lemma CoveredElsewhere(day: DayData, entries: seq<Entry>, d: DateKey, e: Entry)
    requires Covered(day, entries, d) && !OnDate(e, d)
    ensures Covered(day, entries + [e], d)
  {
    hide ValidDay, CounterCovers, At, Tally;
    forall dim ensures CoversAt(day, entries + [e], d, dim) {
      assert CoversAt(day, entries, d, dim);
      TallyPush(entries, e, d, dim);
    }
  }

  lemma EmptyDayCovers(entries: seq<Entry>, d: DateKey)
    requires d !in Dates(entries)
    ensures Covered(EMPTY_DAY, entries, d)
  {
    hide ValidDay;
    EmptyDayIsValid();
    forall dim ensures CoversAt(EMPTY_DAY, entries, d, dim) {
      NothingRetained(entries, d, dim);
      ZeroCoversZero();
    }
  }

  lemma DatesPush(entries: seq<Entry>, e: Entry, d: DateKey)
    ensures d in Dates(entries + [e]) <==> d in Dates(entries) || OnDate(e, d)
  {
    assert (entries + [e])[..|entries + [e]| - 1] == entries;
  }

  lemma SaveKeepsRows(l: Ledger, e: Entry, now: Clock)
    requires RowsCover(l) && NonNegative(e)
    ensures RowsCover(Save(l, e, now))
  {
    hide Covered, AddUsageToDay;
    var l' := Save(l, e, now);
    var e' := Defaulted(e, now).(id := l.nextId);
    var date := DateKeyOf(e'.timestamp, DayOfInstant(now.instant));
    forall d ensures d in Dates(l'.history) ==> d in l'.daily { DatesPush(l.history, e', d); }
    forall d | d in l'.daily ensures l'.daily[d].Json? && Covered(l'.daily[d].day, l'.history, d) {
      if d == date {
        if d !in l.daily { EmptyDayCovers(l.history, d); }
        CoveredAdd(RowAt(l.daily, d), l.history, d, e');
        AddIgnoresId(RowAt(l.daily, d), Defaulted(e, now), l.nextId);
      } else {
        CoveredElsewhere(l.daily[d].day, l.history, d, e');
      }
    }
  }

  lemma AddIgnoresId(day: DayData, e: Entry, id: int)
    ensures AddUsageToDay(day, e.(id := id)) == AddUsageToDay(day, e)
  {
  }

  // ---------------------------------------------------------------- prune

  /** The pruned events, which make up the difference. */
  ghost function Dropped(entries: seq<Entry>, cutoff: string): seq<Entry> {
    if entries == [] then []
    else
      var rest := Dropped(entries[..|entries| - 1], cutoff);
      var last := entries[|entries| - 1];
      if TextBefore(last.timestamp.text, cutoff) then rest + [last] else rest
  }

  lemma {:induction false} PruneSplits(entries: seq<Entry>, cutoff: string, d: DateKey, dim: Dimension)
    ensures Tally(entries, d, dim) == Plus(Tally(Kept(entries, cutoff), d, dim), Tally(Dropped(entries, cutoff), d, dim))
  {
    hide TextBefore, Single, Tally;
    if entries == [] {
      TallyOfNone(d, dim);
    } else {
      var front, last := entries[..|entries| - 1], entries[|entries| - 1];
      PruneSplits(front, cutoff, d, dim);
      assert entries == front + [last];
      TallyPushSum(front, last, d, dim);
      TallyPushSum(Kept(front, cutoff), last, d, dim);
      TallyPushSum(Dropped(front, cutoff), last, d, dim);
    }
  }

  lemma {:induction false} KeptAreOld(entries: seq<Entry>, cutoff: string)
    requires AllNonNegative(entries)
    ensures AllNonNegative(Kept(entries, cutoff)) && AllNonNegative(Dropped(entries, cutoff))
  {
    hide TextBefore, NonNegative;
    if entries != [] { KeptAreOld(entries[..|entries| - 1], cutoff); }
  }

  lemma {:induction false} KeptDatesAreOld(entries: seq<Entry>, cutoff: string)
    ensures Dates(Kept(entries, cutoff)) <= Dates(entries)
  {
    hide Dates, TextBefore;
    if entries != [] {
      var front, last := entries[..|entries| - 1], entries[|entries| - 1];
      KeptDatesAreOld(front, cutoff);
      assert entries == front + [last];
      forall d ensures d in Dates(Kept(entries, cutoff)) ==> d in Dates(entries) {
        DatesPush(front, last, d);
        DatesPush(Kept(front, cutoff), last, d);
      }
    }
  }

  lemma PruneKeepsRows(l: Ledger, retentionDays: int, cutoff: string)
    requires RowsCover(l)
    ensures RowsCover(Prune(l, retentionDays, cutoff))
  {
    KeptAreOld(l.history, cutoff);
    KeptDatesAreOld(l.history, cutoff);
    forall d | d in l.daily ensures Covered(l.daily[d].day, Kept(l.history, cutoff), d) {
      PrunedCovered(l, cutoff, d);
    }
  }

  lemma PrunedCovered(l: Ledger, cutoff: string, d: DateKey)
    requires RowsCover(l) && d in l.daily
    requires AllNonNegative(Kept(l.history, cutoff)) && AllNonNegative(Dropped(l.history, cutoff))
    ensures Covered(l.daily[d].day, Kept(l.history, cutoff), d)
  {
    hide ValidDay, CounterCovers, Amounts, At;
    var day := l.daily[d].day;
    forall dim ensures CoversAt(day, Kept(l.history, cutoff), d, dim) {
      assert CoversAt(day, l.history, d, dim);
      PruneSplits(l.history, cutoff, d, dim);
      TallyAmounts(Kept(l.history, cutoff), d, dim);
      TallyAmounts(Dropped(l.history, cutoff), d, dim);
      CoverShrinks(At(day, dim), Tally(Kept(l.history, cutoff), d, dim), Tally(Dropped(l.history, cutoff), d, dim));
    }
  }

  // ---------------------------------------------------------------- merge

  lemma {:induction false} EntriesSplit(local: multiset<Entry>, incoming: seq<Entry>)
    requires AllNonNegative(incoming)
    ensures AllNonNegative(Additions(local, incoming)) && AllNonNegative(Absorbed(local, incoming))
  {
    if incoming != [] {
      var front, e := incoming[..|incoming| - 1], Erase(incoming[|incoming| - 1]);
      assert NonNegative(incoming[|incoming| - 1]);
      EntriesSplit(local, front);
    }
  }

  /** An incoming day covers the incoming events of its date, by check or by construction. */
  lemma IncomingCovered(payload: Payload, days: map<DateKey, DayData>, d: DateKey)
    requires DaysForImport(Upserted(map[], payload.usageDaily), DaysOf(payload.usageHistory)) == Some(days)
    requires AllNonNegative(payload.usageHistory) && d in days
    ensures Covered(days[d], payload.usageHistory, d)
  {
    hide ValidDay, DayCovers, CoversAt;
    DaysOfAt(payload.usageHistory, d);
    DayOfIsValid(payload.usageHistory, d);
    var table := Upserted(map[], payload.usageDaily);
    if d in table {
      assert Trusted(d, table[d], DaysOf(payload.usageHistory));
    } else {
      SelfCovers(payload.usageHistory, d);
    }
    CoversMeansDayCovers(days[d], payload.usageHistory, d);
  }

  lemma SelfCovers(entries: seq<Entry>, d: DateKey)
    ensures DayCovers(DayOf(entries, d), DayOf(entries, d))
  {
  }

  /** A day that had no local events takes the incoming row, which covers all that was added. */
  lemma TakenCovered(history: seq<Entry>, incoming: seq<Entry>, day: DayData, d: DateKey)
    requires Covered(day, incoming, d) && d !in Dates(history) && AllNonNegative(incoming)
    ensures forall dim :: CounterCovers(At(day, dim),
      Plus(Tally(history, d, dim), Tally(Additions(Events(history), incoming), d, dim)))
  {
    hide ValidDay, CounterCovers, Amounts, At, Additions, Absorbed, Events;
    var local := Events(history);
    EntriesSplit(local, incoming);
    forall dim
      ensures CounterCovers(At(day, dim), Plus(Tally(history, d, dim), Tally(Additions(local, incoming), d, dim)))
    {
      assert CoversAt(day, incoming, d, dim);
      NothingRetained(history, d, dim);
      SplitIncoming(local, incoming, d, dim);
      TallyAmounts(Additions(local, incoming), d, dim);
      TallyAmounts(Absorbed(local, incoming), d, dim);
      CoverShrinks(At(day, dim), Tally(Additions(local, incoming), d, dim), Tally(Absorbed(local, incoming), d, dim));
      PlusZero(Tally(Additions(local, incoming), d, dim));
    }
  }

  lemma PlusZero(c: DayCounter)
    ensures Plus(ZERO, c) == c == Plus(c, ZERO)
  {
  }

  /** A day with local events keeps its row and gains exactly the events added to it. */
  lemma GrownCovered(history: seq<Entry>, day: DayData, added: seq<Entry>, d: DateKey)
    requires Covered(day, history, d) && AllNonNegative(added)
    ensures forall dim :: CounterCovers(At(AddAll(day, OfDate(added, d)), dim),
      Plus(Tally(history, d, dim), Tally(added, d, dim)))
  {
    hide ValidDay, CounterCovers, Amounts, At, Plus;
    forall dim
      ensures CounterCovers(At(AddAll(day, OfDate(added, d)), dim), Plus(Tally(history, d, dim), Tally(added, d, dim)))
    {
      assert CoversAt(day, history, d, dim);
      ValidAt(day, dim);
      AddAllAt(day, OfDate(added, d), d, dim);
      OfDateTally(added, d, dim);
      TallyAmounts(added, d, dim);
      CoverMovesTogether(At(day, dim), Tally(history, d, dim), Tally(added, d, dim));
    }
  }

  lemma {:induction false} OfDateNonNegative(entries: seq<Entry>, d: DateKey)
    requires AllNonNegative(entries)
    ensures AllNonNegative(OfDate(entries, d))
  {
    if entries != [] {
      assert NonNegative(entries[|entries| - 1]);
      OfDateNonNegative(entries[..|entries| - 1], d);
    }
  }

  /** The facts about one date of an accepted merge that the two cases above need. */
  lemma MergedDayCovered(l: Ledger, payload: Payload, sides: Sides, d: DateKey)
    requires RowsCover(l) && AllNonNegative(payload.usageHistory)
    requires MergeSides(l.history, l.daily, payload) == Some(sides)
    requires d in sides.incomingDays
    ensures ValidDay(sides.Merged(d))
    ensures forall dim :: CounterCovers(At(sides.Merged(d), dim),
      Plus(Tally(l.history, d, dim), Tally(sides.additions, d, dim)))
  {
    hide ValidDay, CounterCovers, DaysForImport, DaysOf, Additions, Events, At, Plus;
    var local := DayAt(sides.localDays, d);
    EntriesSplit(Events(l.history), payload.usageHistory);
    CheckedDay(l.history, l.daily, sides.localDays, d);
    if local.total.requests > 0 {
      GrownCovered(l.history, local, sides.additions, d);
      OfDateNonNegative(sides.additions, d);
      ValidAddAll(local, OfDate(sides.additions, d));
    } else {
      TallyRequests(l.history, d, Total);
      IncomingCovered(payload, sides.incomingDays, d);
      TakenCovered(l.history, payload.usageHistory, sides.incomingDays[d], d);
    }
  }

  lemma UntouchedDay(l: Ledger, payload: Payload, sides: Sides, d: DateKey, dim: Dimension)
    requires MergeSides(l.history, l.daily, payload) == Some(sides)
    requires d !in sides.incomingDays
    ensures Tally(sides.additions, d, dim) == ZERO
    ensures d !in Dates(sides.additions)
  {
    hide DaysForImport, DaysOf, Additions;
    AdditionsCounted(l.history, l.daily, payload, sides, d);
    CheckedDay(payload.usageHistory, Upserted(map[], payload.usageDaily), sides.incomingDays, d);
    TallyRequests(sides.additions, d, Total);
    TallyRequests(sides.additions, d, dim);
  }

  lemma {:induction false} InsertedEntries(l: Ledger, entries: seq<Entry>, d: DateKey)
    requires AllNonNegative(l.history) && AllNonNegative(entries)
    ensures AllNonNegative(InsertAll(l, entries).history)
    ensures d in Dates(InsertAll(l, entries).history) <==> d in Dates(l.history) || d in Dates(entries)
  {
    if entries != [] {
      var front, e := entries[..|entries| - 1], entries[|entries| - 1];
      InsertedEntries(l, front, d);
      var before := InsertAll(l, front);
      DatesPush(before.history, e.(id := before.nextId), d);
      DatesPush(front, e, d);
      assert entries == front + [e];
    }
  }

  lemma MergeKeepsRow(l: Ledger, payload: Payload, sides: Sides, l': Ledger, d: DateKey)
    requires RowsCover(l) && AllNonNegative(payload.usageHistory)
    requires MergeSides(l.history, l.daily, payload) == Some(sides)
    requires l'.history == InsertAll(l, sides.additions).history && l'.daily == l.daily + sides.Rows()
    requires d in l'.daily
    ensures l'.daily[d].Json? && Covered(l'.daily[d].day, l'.history, d)
  {
    hide ValidDay, CounterCovers, MergeSides, At;
    if d in sides.incomingDays { MergedDayCovered(l, payload, sides, d); }
    forall dim ensures CoversAt(l'.daily[d].day, l'.history, d, dim) {
      InsertAllTally(l, sides.additions, d, dim);
      if d !in sides.incomingDays {
        assert CoversAt(l.daily[d].day, l.history, d, dim);
        UntouchedDay(l, payload, sides, d, dim);
        PlusZero(Tally(l.history, d, dim));
      }
    }
  }

  lemma MergeKeepsRows(l: Ledger, payload: Payload)
    requires RowsCover(l) && AllNonNegative(payload.usageHistory)
    requires MergePlan(l.history, l.daily, l.lifetime, payload).Some?
    ensures RowsCover(ApplyPlan(l, MergePlan(l.history, l.daily, l.lifetime, payload).value, false))
  {
    hide MergeSides, Sides.Rows, Sides.Growth, Sides.AllMergeable, Covered, InsertAll, Dates;
    var sides := MergeSides(l.history, l.daily, payload).value;
    var l' := ApplyPlan(l, MergePlan(l.history, l.daily, l.lifetime, payload).value, false);
    InsertAllKeeps(l, sides.additions);
    AdditionsNonNegative(l, payload, sides);
    forall d | d in l'.daily ensures l'.daily[d].Json? && Covered(l'.daily[d].day, l'.history, d) {
      MergeKeepsRow(l, payload, sides, l', d);
    }
    forall d ensures d in Dates(l'.history) ==> d in l'.daily {
      InsertedEntries(l, sides.additions, d);
      AddedDatesHaveRows(l, payload, sides, d);
    }
    InsertedEntries(l, sides.additions, Date(0));
  }

  lemma AdditionsNonNegative(l: Ledger, payload: Payload, sides: Sides)
    requires AllNonNegative(payload.usageHistory)
    requires MergeSides(l.history, l.daily, payload) == Some(sides)
    ensures AllNonNegative(sides.additions)
  {
    EntriesSplit(Events(l.history), payload.usageHistory);
  }

  lemma AddedDatesHaveRows(l: Ledger, payload: Payload, sides: Sides, d: DateKey)
    requires MergeSides(l.history, l.daily, payload) == Some(sides)
    ensures d in Dates(sides.additions) ==> d in sides.Rows()
  {
    if d !in sides.incomingDays { UntouchedDay(l, payload, sides, d, Total); }
  }

  // ---------------------------------------------------------------- every run

  /** No replacing import, and no negative amount in any saved or imported event. */
  predicate Ordinary(step: Step) {
    match step
    case SaveStep(e, now) => NonNegative(e)
    case PruneStep(_, _) => true
    case ResetStep => true
    case ImportStep(backup, replace) => !replace && AllNonNegative(backup.usage.usageHistory)
  }

  lemma NextKeepsRows(l: Ledger, step: Step)
    requires RowsCover(l) && Ordinary(step)
    ensures RowsCover(Next(l, step))
  {
    match step
    case SaveStep(e, now) => SaveKeepsRows(l, e, now);
    case PruneStep(days, cutoff) => PruneKeepsRows(l, days, cutoff);
    case ResetStep =>
    case ImportStep(backup, replace) =>
      if Import(l, backup, false).Some? && backup.includesUsage {
        MergeKeepsRows(l, backup.usage);
      }
  }

  lemma {:induction false} RowsAlwaysCover(steps: seq<Step>)
    requires forall i :: 0 <= i < |steps| ==> Ordinary(steps[i])
    ensures RowsCover(Run(EMPTY, steps))
  {
    if steps != [] {
      RowsAlwaysCover(steps[..|steps| - 1]);
      NextKeepsRows(Run(EMPTY, steps[..|steps| - 1]), steps[|steps| - 1]);
    }
  }
}
