/**
  Merging a backup into the database it came from, with or without its secrets: when the import accepts
  it, and what it then does (prepareUsageImport in internal/db/backup.go).
 */
module UsageOwnBackup {
  import opened Wrappers
  import opened UsageModel
  import opened UsageImport
  import opened UsageLedger
  import opened UsageLifetime
  import opened UsageMerge
  import opened UsageCoverage
  import opened UsageRollup

  // ---------------------------------------------------------------- alike histories

  /** The merge checks never look at cached tokens. */
  predicate SameAmounts(a: DayCounter, b: DayCounter) { a.(cachedTokens := 0) == b.(cachedTokens := 0) }

  /** Histories that the checks cannot tell apart. */
  ghost predicate Alike(a: seq<Entry>, b: seq<Entry>) {
    && (AllDated(a) <==> AllDated(b))
    && forall d, dim :: SameAmounts(Tally(a, d, dim), Tally(b, d, dim))
  }

  lemma DatedLike(a: seq<Entry>, b: seq<Entry>)
    requires Events(a) == Events(b) && AllDated(b)
    ensures AllDated(a)
  {
    forall i | 0 <= i < |a| ensures HasDate(a[i]) {
      assert Erased(a)[i] in Events(a);
      EventsAreHeld(b, Erase(a[i]));
    }
  }

  lemma EqualEventsAreAlike(a: seq<Entry>, b: seq<Entry>)
    requires Events(a) == Events(b)
    ensures Alike(a, b)
  {
    hide Events, Tally;
    if AllDated(b) { DatedLike(a, b); }
    if AllDated(a) { DatedLike(b, a); }
    forall d, dim ensures SameAmounts(Tally(a, d, dim), Tally(b, d, dim)) { SameTally(a, b, d, dim); }
  }

  lemma {:induction false} SanitisedTally(entries: seq<Entry>, d: DateKey, dim: Dimension)
    ensures SameAmounts(Tally(Sanitised(entries), d, dim), Tally(entries, d, dim))
  {
    if entries != [] {
      var front, e := entries[..|entries| - 1], entries[|entries| - 1];
      SanitisedTally(front, d, dim);
      TallyPush(Sanitised(front), Sanitise(e), d, dim);
    }
  }

  lemma {:induction false} SanitisedDated(entries: seq<Entry>)
    ensures |Sanitised(entries)| == |entries|
    ensures forall i :: 0 <= i < |entries| ==> Sanitised(entries)[i] == Sanitise(entries[i])
  {
    if entries != [] { SanitisedDated(entries[..|entries| - 1]); }
  }

  lemma SanitisedIsAlike(entries: seq<Entry>)
    ensures Alike(Sanitised(entries), entries)
  {
    hide Tally;
    SanitisedDated(entries);
    assert forall i :: 0 <= i < |entries| ==> HasDate(Sanitised(entries)[i]) == HasDate(entries[i]);
    forall d, dim ensures SameAmounts(Tally(Sanitised(entries), d, dim), Tally(entries, d, dim)) {
      SanitisedTally(entries, d, dim);
    }
  }

  /** Alike histories make days that cover, and are covered by, the same rows. */
  lemma CoversAlike(a: seq<Entry>, b: seq<Entry>, d: DateKey, row: DayData)
    requires Alike(a, b)
    ensures DayCovers(row, DayOf(a, d)) <==> DayCovers(row, DayOf(b, d))
    ensures DayCovers(DayOf(a, d), row) <==> DayCovers(DayOf(b, d), row)
  {
    hide DayOf, Tally;
    forall dim ensures SameAmounts(At(DayOf(a, d), dim), At(DayOf(b, d), dim)) {
      DayOfAt(a, d, dim);
      DayOfAt(b, d, dim);
      assert SameAmounts(Tally(a, d, dim), Tally(b, d, dim));
    }
    forall k
      ensures k in DayOf(a, d).byProvider <==> k in DayOf(b, d).byProvider
      ensures k in DayOf(a, d).byModel <==> k in DayOf(b, d).byModel
    {
      DayOfKeys(a, d, k);
      DayOfKeys(b, d, k);
      assert SameAmounts(Tally(a, d, Provider(k)), Tally(b, d, Provider(k)));
      assert SameAmounts(Tally(a, d, Model(k)), Tally(b, d, Model(k)));
    }
    CoversSameDays(DayOf(a, d), DayOf(b, d), row);
    CoversSameDays(DayOf(b, d), DayOf(a, d), row);
  }

  lemma CoversSameCounter(a: DayCounter, b: DayCounter, c: DayCounter)
    requires SameAmounts(a, b)
    ensures CounterCovers(c, a) <==> CounterCovers(c, b)
    ensures CounterCovers(a, c) <==> CounterCovers(b, c)
  {
  }

  ghost predicate SameDayAmounts(x: DayData, y: DayData) {
    && (forall dim :: SameAmounts(At(x, dim), At(y, dim)))
    && (forall k :: k in x.byProvider <==> k in y.byProvider)
    && (forall k :: k in x.byModel <==> k in y.byModel)
  }

  lemma CoversSameDays(x: DayData, y: DayData, row: DayData)
    requires SameDayAmounts(x, y)
    ensures DayCovers(row, x) ==> DayCovers(row, y)
    ensures DayCovers(x, row) ==> DayCovers(y, row)
  {
    hide CounterCovers, SameAmounts;
    assert SameAmounts(At(x, Total), At(y, Total));
    CoversSameCounter(x.total, y.total, row.total);
    if DayCovers(row, x) {
      forall k | k in y.byProvider ensures CounterCovers(Lookup(row.byProvider, k), y.byProvider[k]) {
        CoversSameKey(x, y, Provider(k), At(row, Provider(k)));
      }
      forall k | k in y.byModel ensures CounterCovers(Lookup(row.byModel, k), y.byModel[k]) {
        CoversSameKey(x, y, Model(k), At(row, Model(k)));
      }
    }
    if DayCovers(x, row) {
      forall k | k in row.byProvider ensures CounterCovers(Lookup(y.byProvider, k), row.byProvider[k]) {
        CoversSameKey(x, y, Provider(k), row.byProvider[k]);
      }
      forall k | k in row.byModel ensures CounterCovers(Lookup(y.byModel, k), row.byModel[k]) {
        CoversSameKey(x, y, Model(k), row.byModel[k]);
      }
    }
  }

  lemma CoversSameKey(x: DayData, y: DayData, dim: Dimension, c: DayCounter)
    requires SameDayAmounts(x, y)
    ensures CounterCovers(c, At(x, dim)) <==> CounterCovers(c, At(y, dim))
    ensures CounterCovers(At(x, dim), c) <==> CounterCovers(At(y, dim), c)
  {
    hide At, CounterCovers;
    assert SameAmounts(At(x, dim), At(y, dim));
    CoversSameCounter(At(x, dim), At(y, dim), c);
  }

  // ---------------------------------------------------------------- acceptance

  /** Every row can be trusted, and a row that counts requests counts no more than the events retained. */
  ghost predicate Accountable(l: Ledger) {
    && AllDated(l.history)
    && forall d :: d in l.daily ==>
         && Trusted(d, l.daily[d], DaysOf(l.history))
         && (DayIn(l.daily[d]).total.requests > 0 ==> DayCovers(DayOf(l.history, d), DayIn(l.daily[d])))
  }

  ghost predicate OwnRows(payload: Payload, l: Ledger) {
    DistinctDates(payload.usageDaily) && Upserted(map[], payload.usageDaily) == l.daily
  }

  lemma TrustedAlike(a: seq<Entry>, b: seq<Entry>, d: DateKey, blob: DayBlob)
    requires Alike(a, b)
    ensures Trusted(d, blob, DaysOf(a)) <==> Trusted(d, blob, DaysOf(b))
  {
    hide DayCovers, ValidDay, Alike, DaysOf, DayAt, DayOf;
    DaysOfAt(a, d);
    DaysOfAt(b, d);
    if blob.Json? { CoversAlike(a, b, d, blob.day); }
  }

  /** What the planner sees of one date of an own backup. */
  lemma OwnView(l: Ledger, payload: Payload, sides: Sides, d: DateKey)
    requires OwnRows(payload, l) && Alike(payload.usageHistory, l.history)
    requires MergeSides(l.history, l.daily, payload) == Some(sides)
    ensures Mergeable(sides.View(d)) <==>
      (d in l.daily && DayIn(l.daily[d]).total.requests > 0 ==> DayCovers(DayOf(l.history, d), DayIn(l.daily[d])))
  {
    hide DayCovers, AllTrusted, Alike, DaysOf, DayOf, Additions, Events, OfDate;
    var v := sides.View(d);
    DaysOfAt(l.history, d);
    DaysOfAt(payload.usageHistory, d);
    assert v.incomingHistory == DayOf(payload.usageHistory, d) && v.localHistory == DayOf(l.history, d);
    if d in l.daily {
      assert v.incoming == v.local == DayIn(l.daily[d]);
      CoversAlike(payload.usageHistory, l.history, d, DayIn(l.daily[d]));
    } else {
      assert v.incoming == v.incomingHistory && v.local == v.localHistory;
      SelfCovers(payload.usageHistory, d);
      SelfCovers(l.history, d);
    }
  }

  /** A database's own backup is accepted exactly when its ledger is accountable. */
  lemma OwnBackupAcceptedIff(l: Ledger, payload: Payload)
    requires OwnRows(payload, l) && Alike(payload.usageHistory, l.history)
    ensures Merge(l, payload).Some? <==> Accountable(l)
  {
    hide Alike, Mergeable, Trusted, DayCovers, DaysOf;
    forall d | d in l.daily
      ensures Trusted(d, l.daily[d], DaysOf(payload.usageHistory)) <==> Trusted(d, l.daily[d], DaysOf(l.history))
    {
      TrustedAlike(payload.usageHistory, l.history, d, l.daily[d]);
    }
    SameDates(payload.usageHistory, l.history);
    var sides := MergeSides(l.history, l.daily, payload);
    SidesExist(l, payload);
    if sides.Some? {
      forall d
        ensures Mergeable(sides.value.View(d)) <==>
          (d in l.daily && DayIn(l.daily[d]).total.requests > 0 ==> DayCovers(DayOf(l.history, d), DayIn(l.daily[d])))
      {
        OwnView(l, payload, sides.value, d);
      }
      RowsAreIncoming(l, payload, sides.value);
    }
  }

  lemma SameDates(a: seq<Entry>, b: seq<Entry>)
    requires Alike(a, b)
    ensures AllDated(a) <==> AllDated(b)
  {
  }

  lemma SidesExist(l: Ledger, payload: Payload)
    requires OwnRows(payload, l) && (AllDated(payload.usageHistory) <==> AllDated(l.history))
    requires forall d :: d in l.daily ==>
      (Trusted(d, l.daily[d], DaysOf(payload.usageHistory)) <==> Trusted(d, l.daily[d], DaysOf(l.history)))
    ensures MergeSides(l.history, l.daily, payload).Some? <==>
      AllDated(l.history) && forall d :: d in l.daily ==> Trusted(d, l.daily[d], DaysOf(l.history))
  {
    hide Trusted, DaysOf;
  }

  lemma RowsAreIncoming(l: Ledger, payload: Payload, sides: Sides)
    requires OwnRows(payload, l) && MergeSides(l.history, l.daily, payload) == Some(sides)
    ensures forall d :: d in l.daily ==> d in sides.incomingDays
  {
    hide AllTrusted, DaysOf;
  }

  // ---------------------------------------------------------------- what the merge then does

  /** An unsanitised own backup of an accountable ledger is accepted and changes nothing that was there. */
  lemma OwnBackupIsHarmless(l: Ledger, payload: Payload)
    requires Exports(payload, l.history, l.daily) && LifetimeCovers(l)
    ensures Merge(l, payload).Some? <==> Accountable(l)
    ensures Accountable(l) ==> var l' := Merge(l, payload).value;
      && l'.history == l.history && l'.lifetime == l.lifetime
      && forall d :: d in l.daily ==> d in l'.daily && l'.daily[d] == l.daily[d]
  {
    hide Merge, Accountable, Alike;
    EqualEventsAreAlike(payload.usageHistory, l.history);
    OwnBackupAcceptedIff(l, payload);
    if Accountable(l) { OwnBackupAddsNothing(l, payload, Merge(l, payload).value); }
  }

  lemma AlikeThroughEvents(a: seq<Entry>, b: seq<Entry>, c: seq<Entry>)
    requires Events(a) == Events(b) && Alike(b, c)
    ensures Alike(a, c)
  {
    hide Events, Tally;
    EqualEventsAreAlike(a, b);
    forall d, dim ensures SameAmounts(Tally(a, d, dim), Tally(c, d, dim)) {
      assert SameAmounts(Tally(a, d, dim), Tally(b, d, dim)) && SameAmounts(Tally(b, d, dim), Tally(c, d, dim));
    }
  }

  /**
    A sanitised own backup is accepted under the same condition, and then adds again each event that
    carried a key or a meta text.
   */
  lemma SanitisedBackupIsAcceptedIff(l: Ledger, payload: Payload)
    requires Events(payload.usageHistory) == Events(Sanitised(l.history)) && OwnRows(payload, l)
    ensures Merge(l, payload).Some? <==> Accountable(l)
    ensures Accountable(l) ==>
      |Merge(l, payload).value.history| == |l.history| + (|l.history| - |Blank(l.history)|)
  {
    hide Merge, Accountable, Alike, Events;
    SanitisedIsAlike(l.history);
    AlikeThroughEvents(payload.usageHistory, Sanitised(l.history), l.history);
    OwnBackupAcceptedIff(l, payload);
    if Accountable(l) { SanitisedBackupDuplicates(l, payload, Merge(l, payload).value); }
  }

  // ---------------------------------------------------------------- ledgers that are accountable, and one that is not

  /** A save with a readable time and no negative amount. */
  predicate PlainSave(step: Step) { SavesDated(step) && NonNegative(step.e) }

  lemma SavesAreAccountable(steps: seq<Step>)
    requires forall i :: 0 <= i < |steps| ==> PlainSave(steps[i])
    ensures Accountable(Run(EMPTY, steps))
  {
    hide Run, Trusted, DayCovers, ValidDay, DayOf, DaysOf;
    var l := Run(EMPTY, steps);
    assert forall i :: 0 <= i < |steps| ==> PlainSave(steps[i]) && Ordinary(steps[i]);
    SavesStayExact(steps);
    RowsAlwaysCover(steps);
    forall d | d in l.daily
      ensures Trusted(d, l.daily[d], DaysOf(l.history)) && DayCovers(DayOf(l.history, d), DayIn(l.daily[d]))
    {
      ExactRowIsTrusted(l, d);
    }
  }

  lemma ExactRowIsTrusted(l: Ledger, d: DateKey)
    requires Exact(l) && AllNonNegative(l.history) && d in l.daily
    ensures Trusted(d, l.daily[d], DaysOf(l.history)) && DayCovers(DayOf(l.history, d), DayIn(l.daily[d]))
  {
    hide DayCovers, ValidDay, DayOf;
    SelfCovers(l.history, d);
    DaysOfAt(l.history, d);
    DayOfIsValid(l.history, d);
    assert d in Dates(l.history);
  }

  /** A save always stores a meta text, at the least "{}". */
  lemma {:induction false} SavedEventsCarryMeta(steps: seq<Step>)
    requires forall i :: 0 <= i < |steps| ==> steps[i].SaveStep?
    ensures |Run(EMPTY, steps).history| == |steps|
    ensures forall i :: 0 <= i < |steps| ==> Run(EMPTY, steps).history[i].meta.text != ""
  {
    if steps != [] { SavedEventsCarryMeta(steps[..|steps| - 1]); }
  }

  lemma {:induction false} NothingBlank(entries: seq<Entry>)
    requires forall i :: 0 <= i < |entries| ==> entries[i].meta.text != ""
    ensures Blank(entries) == []
  {
    if entries != [] {
      NothingBlank(entries[..|entries| - 1]);
      assert entries[|entries| - 1].meta.text != "";
    }
  }

  /** So after any saves the merge of a sanitised own backup is accepted and doubles the history. */
  lemma SanitisedBackupDoublesSaves(steps: seq<Step>, payload: Payload)
    requires forall i :: 0 <= i < |steps| ==> PlainSave(steps[i])
    requires var l := Run(EMPTY, steps);
      Events(payload.usageHistory) == Events(Sanitised(l.history)) && OwnRows(payload, l)
    ensures Merge(Run(EMPTY, steps), payload).Some?
    ensures |Merge(Run(EMPTY, steps), payload).value.history| == 2 * |steps|
  {
    hide Merge, Accountable, Events, Run;
    var l := Run(EMPTY, steps);
    SavesAreAccountable(steps);
    assert forall i :: 0 <= i < |steps| ==> PlainSave(steps[i]);
    SavedEventsCarryMeta(steps);
    NothingBlank(l.history);
    SanitisedBackupIsAcceptedIff(l, payload);
  }

  /** Once its event has been pruned, a row counts more than is retained and the own backup is refused. */
  lemma PrunedLedgerIsNotAccountable(e: Entry, now: Clock, retentionDays: int, cutoff: string)
    requires retentionDays > 0 && TextBefore(Defaulted(e, now).timestamp.text, cutoff)
    ensures !Accountable(Run(EMPTY, [SaveStep(e, now), PruneStep(retentionDays, cutoff)]))
  {
    var steps := [SaveStep(e, now), PruneStep(retentionDays, cutoff)];
    assert steps[..1] == [SaveStep(e, now)] && steps[..1][..0] == [];
    var saved := Save(EMPTY, e, now);
    var l := Run(EMPTY, steps);
    assert saved.history == [Defaulted(e, now).(id := 1)] && saved.history[..0] == [];
    assert Run(EMPTY, steps[..1]) == saved;
    assert Kept(saved.history, cutoff) == Kept([], cutoff) == [];
    assert l == Prune(saved, retentionDays, cutoff);
    var date := DateKeyOf(Defaulted(e, now).timestamp, DayOfInstant(now.instant));
    assert date in l.daily && DayIn(l.daily[date]).total.requests == 1;
    assert DayOf(l.history, date).total.requests == 0;
  }
}
