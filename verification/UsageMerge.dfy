/** What a merging import does to the events: a multiset union that can be repeated. */
module UsageMerge {
  import opened Wrappers
  import opened UsageModel
  import opened MapSums
  import opened UsageImport
  import opened UsageLedger
  import opened UsageLifetime

  ghost function Merge(l: Ledger, payload: Payload): Option<Ledger> {
    Import(l, Backup(CURRENT_EXPORT_VERSION, true, payload), false)
  }

  ghost predicate Merged(l: Ledger, payload: Payload, l': Ledger) { Merge(l, payload) == Some(l') }

  lemma MergeHistory(l: Ledger, payload: Payload, l': Ledger)
    requires Merged(l, payload, l')
    ensures Events(l'.history) == Events(l.history) + (Events(payload.usageHistory) - Events(l.history))
  {
    hide DaysForImport, Additions, Events;
    var sides := MergeSides(l.history, l.daily, payload).value;
    InsertAllKeeps(l, sides.additions);
    AdditionsAreTheDifference(Events(l.history), payload.usageHistory);
    AdditionsHaveNoId(Events(l.history), payload.usageHistory);
    ErasedIsIdentity(sides.additions);
  }

  lemma {:induction false} ErasedIsIdentity(entries: seq<Entry>)
    requires forall i :: 0 <= i < |entries| ==> entries[i].id == 0
    ensures Events(entries) == multiset(entries)
  {
    assert forall i :: 0 <= i < |entries| ==> Erase(entries[i]) == entries[i];
    assert Erased(entries) == entries;
  }

  /** No event is lost, none is counted twice, and legitimate duplicates survive. */
  lemma MergeIsMaxUnion(l: Ledger, payload: Payload, l': Ledger, e: Entry)
    requires Merged(l, payload, l')
    ensures Events(l'.history)[e] == Max(Events(l.history)[e], Events(payload.usageHistory)[e])
  {
    hide Merged, Events;
    MergeHistory(l, payload, l');
  }

  /** Two backups can be merged in either order. */
  lemma MergeOrderDoesNotMatter(
    l: Ledger, p: Payload, q: Payload, lp: Ledger, lpq: Ledger, lq: Ledger, lqp: Ledger)
    requires Merged(l, p, lp) && Merged(lp, q, lpq)
    requires Merged(l, q, lq) && Merged(lq, p, lqp)
    ensures Events(lpq.history) == Events(lqp.history)
  {
    hide Merged, Events;
    MergeHistory(l, p, lp);
    MergeHistory(lp, q, lpq);
    MergeHistory(l, q, lq);
    MergeHistory(lq, p, lqp);
  }

  // ---------------------------------------------------------------- repeating a merge

  lemma NothingLeftToAdd(l: Ledger, payload: Payload, l': Ledger)
    requires Merged(l, payload, l')
    ensures Additions(Events(l'.history), payload.usageHistory) == []
  {
    hide Merged, Events, Additions;
    MergeHistory(l, payload, l');
    AdditionsAreTheDifference(Events(l'.history), payload.usageHistory);
    assert |multiset(Additions(Events(l'.history), payload.usageHistory))| == 0;
  }

  /** The sides of the second merge, seen from those of the first. */
  lemma SecondSides(l: Ledger, payload: Payload, l': Ledger, first: Sides, second: Sides)
    requires Merged(l, payload, l')
    requires MergeSides(l.history, l.daily, payload) == Some(first)
    requires MergeSides(l'.history, l'.daily, payload) == Some(second)
    ensures second.incomingDays == first.incomingDays && second.additions == []
    ensures l'.daily == l.daily + first.Rows()
  {
    hide DaysForImport, Additions, Events;
    NothingLeftToAdd(l, payload, l');
    InsertAllKeeps(l, first.additions);
  }

  lemma SecondDay(l: Ledger, payload: Payload, l': Ledger, first: Sides, second: Sides, d: DateKey)
    requires Merged(l, payload, l')
    requires MergeSides(l.history, l.daily, payload) == Some(first)
    requires MergeSides(l'.history, l'.daily, payload) == Some(second)
    requires d in first.incomingDays
    ensures second.Merged(d) == first.Merged(d) == DayAt(second.localDays, d)
    ensures d in l'.daily && l'.daily[d] == Json(first.Merged(d))
  {
    hide DaysForImport, MergeSides, Merged;
    SecondSides(l, payload, l', first, second);
    LocalRow(l', payload, second, d);
    AddAllRequests(DayAt(first.localDays, d), OfDate(first.additions, d));
  }

  lemma LocalDaysKnown(l: Ledger, payload: Payload, sides: Sides)
    requires MergeSides(l.history, l.daily, payload) == Some(sides)
    ensures Sum(RequestsOf(sides.localDays)) <= Sum(Known(l))
  {
    hide DaysForImport, Tally, DaysOf;
    forall d | d in RequestsOf(sides.localDays) || d in Known(l)
      ensures ValueAt(RequestsOf(sides.localDays), d) <= ValueAt(Known(l), d)
    {
      CheckedDay(l.history, l.daily, sides.localDays, d);
      DayOfAt(l.history, d, Total);
      KnownAbove(l, d);
    }
    SumMonotone(RequestsOf(sides.localDays), Known(l));
  }

  /** A second merge of the same backup is either refused or changes nothing at all. */
  lemma MergeIsIdempotent(l: Ledger, payload: Payload, l': Ledger)
    requires Merged(l, payload, l')
    ensures var again := ImportStep(Backup(CURRENT_EXPORT_VERSION, true, payload), false);
      Next(l', again) == l'
  {
    if Merge(l', payload).Some? {
      var first := MergeSides(l.history, l.daily, payload).value;
      var second := MergeSides(l'.history, l'.daily, payload).value;
      SecondMerge(l, payload, l', first, second);
    }
  }

  lemma SecondMerge(l: Ledger, payload: Payload, l': Ledger, first: Sides, second: Sides)
    requires Merged(l, payload, l') && Merge(l', payload).Some?
    requires MergeSides(l.history, l.daily, payload) == Some(first)
    requires MergeSides(l'.history, l'.daily, payload) == Some(second)
    ensures Merge(l', payload) == Some(l')
  {
    SecondSides(l, payload, l', first, second);
    forall d | d in first.incomingDays
      ensures second.Merged(d) == DayAt(second.localDays, d)
      ensures d in l'.daily && l'.daily[d] == Json(second.Merged(d))
    {
      SecondDay(l, payload, l', first, second, d);
    }
    SecondLifetime(l, payload, l', second);
    SecondPlan(l', payload, second);
  }

  lemma SecondLifetime(l: Ledger, payload: Payload, l': Ledger, second: Sides)
    requires Merged(l, payload, l')
    requires MergeSides(l'.history, l'.daily, payload) == Some(second)
    requires forall d :: d in second.incomingDays ==> second.Merged(d) == DayAt(second.localDays, d)
    ensures Sum(RequestsOf(second.localDays)) <= l'.lifetime
    ensures Sum(second.Growth()) == 0
  {
    hide MergeSides;
    MergeKnown(l, payload);
    LocalDaysKnown(l', payload, second);
    SumMonotone(map[], second.Growth());
    SumMonotone(second.Growth(), map[]);
  }

  lemma SecondPlan(l': Ledger, payload: Payload, second: Sides)
    requires MergeSides(l'.history, l'.daily, payload) == Some(second)
    requires Merge(l', payload).Some?
    requires second.additions == []
    requires forall d :: d in second.incomingDays ==> d in l'.daily && l'.daily[d] == Json(second.Merged(d))
    requires Sum(RequestsOf(second.localDays)) <= l'.lifetime
    requires Sum(second.Growth()) == 0
    ensures Merge(l', payload) == Some(l')
  {
    hide MergeSides, Sum;
    assert l'.daily + second.Rows() == l'.daily;
  }

  // ---------------------------------------------------------------- merging an own backup

  /** The usage part of an export; the source reads both tables in an order of its own. */
  ghost predicate Exports(payload: Payload, history: seq<Entry>, daily: map<DateKey, DayBlob>) {
    && Events(payload.usageHistory) == Events(history)
    && DistinctDates(payload.usageDaily) && Upserted(map[], payload.usageDaily) == daily
  }

  lemma {:induction false} ErasedTally(entries: seq<Entry>, d: DateKey, dim: Dimension)
    ensures Tally(Erased(entries), d, dim) == Tally(entries, d, dim)
  {
    hide Erase, Single, Tally;
    if entries == [] {
      assert Erased(entries) == [];
    } else {
      var front, e := entries[..|entries| - 1], entries[|entries| - 1];
      ErasedTally(front, d, dim);
      assert entries == front + [e];
      TallyPushSum(front, e, d, dim);
      TallyPushSum(Erased(front), Erase(e), d, dim);
    }
  }

  lemma SameTally(a: seq<Entry>, b: seq<Entry>, d: DateKey, dim: Dimension)
    requires Events(a) == Events(b)
    ensures Tally(a, d, dim) == Tally(b, d, dim)
  {
    ErasedTally(a, d, dim);
    ErasedTally(b, d, dim);
    TallyIgnoresOrder(Erased(a), Erased(b), d, dim);
  }

  lemma OwnDay(l: Ledger, payload: Payload, sides: Sides, d: DateKey)
    requires Exports(payload, l.history, l.daily)
    requires MergeSides(l.history, l.daily, payload) == Some(sides)
    ensures DayAt(sides.incomingDays, d).total.requests == DayAt(sides.localDays, d).total.requests
    ensures d in l.daily ==> DayAt(sides.incomingDays, d) == DayAt(sides.localDays, d) == DayIn(l.daily[d])
  {
    hide DaysForImport, DaysOf, Tally, DayAt, Events;
    CheckedDay(l.history, l.daily, sides.localDays, d);
    CheckedDay(payload.usageHistory, l.daily, sides.incomingDays, d);
    SameTally(l.history, payload.usageHistory, d, Total);
    DayOfAt(l.history, d, Total);
    DayOfAt(payload.usageHistory, d, Total);
  }

  lemma OwnGrowth(l: Ledger, payload: Payload, sides: Sides, d: DateKey)
    requires Exports(payload, l.history, l.daily)
    requires MergeSides(l.history, l.daily, payload) == Some(sides)
    requires sides.additions == [] && d in sides.incomingDays
    ensures ValueAt(sides.Growth(), d) == 0
    ensures d in l.daily && l.daily[d].Json? ==> sides.Merged(d) == l.daily[d].day
  {
    hide MergeSides, Exports;
    OwnDay(l, payload, sides, d);
    GrowthAt(sides, d);
  }

  /** Importing an unsanitised backup into the database it came from adds and loses nothing. */
  lemma OwnBackupAddsNothing(l: Ledger, payload: Payload, l': Ledger)
    requires Exports(payload, l.history, l.daily) && LifetimeCovers(l)
    requires Merged(l, payload, l')
    ensures l'.history == l.history && l'.lifetime == l.lifetime
    ensures forall d :: d in l.daily ==> d in l'.daily && l'.daily[d] == l.daily[d]
  {
    var sides := MergeSides(l.history, l.daily, payload).value;
    AdditionsAreTheDifference(Events(l.history), payload.usageHistory);
    assert |multiset(sides.additions)| == 0;
    forall d | d in sides.incomingDays
      ensures ValueAt(sides.Growth(), d) == 0
      ensures d in l.daily && l.daily[d].Json? ==> sides.Merged(d) == l.daily[d].day
    {
      OwnGrowth(l, payload, sides, d);
    }
    OwnPlan(l, payload, sides, l');
  }

  lemma OwnPlan(l: Ledger, payload: Payload, sides: Sides, l': Ledger)
    requires LifetimeCovers(l) && Merged(l, payload, l')
    requires MergeSides(l.history, l.daily, payload) == Some(sides) && sides.additions == []
    requires forall d :: d in sides.incomingDays ==> ValueAt(sides.Growth(), d) == 0
    requires forall d :: d in sides.incomingDays && d in l.daily && l.daily[d].Json? ==>
               sides.Merged(d) == l.daily[d].day
    ensures l'.history == l.history && l'.lifetime == l.lifetime
    ensures forall d :: d in l.daily ==> d in l'.daily && l'.daily[d] == l.daily[d]
  {
    hide Sum;
    LocalDaysKnown(l, payload, sides);
    SumMonotone(map[], sides.Growth());
    SumMonotone(sides.Growth(), map[]);
    SumNothing();
    forall d | d in l.daily ensures l.daily[d].Json? { StoredIsJson(l, payload, sides, d); }
  }

  lemma SumNothing()
    ensures Sum<DateKey>(map[]) == 0
  {
  }

  lemma StoredIsJson(l: Ledger, payload: Payload, sides: Sides, d: DateKey)
    requires MergeSides(l.history, l.daily, payload) == Some(sides) && d in l.daily
    ensures l.daily[d].Json?
  {
    assert Trusted(d, l.daily[d], DaysOf(l.history));
  }

  /** ExportData without secrets blanks these two fields of every event. */
  function Sanitise(e: Entry): Entry { e.(apiKey := "", meta := Meta("", 0)) }

  lemma SanitisedIsBlank(e: Entry)
    ensures Sanitise(e) == e <==> e.apiKey == "" && e.meta == Meta("", 0)
  {
  }

  function Sanitised(entries: seq<Entry>): seq<Entry> {
    if entries == [] then []
    else Sanitised(entries[..|entries| - 1]) + [Sanitise(entries[|entries| - 1])]
  }

  /** The events that a sanitised export leaves as they were. */
  function Blank(entries: seq<Entry>): (r: seq<Entry>)
    ensures |r| <= |entries|
    ensures |r| == |entries| <==> forall i :: 0 <= i < |entries| ==> Sanitise(entries[i]) == entries[i]
  {
    if entries == [] then []
    else
      var rest := Blank(entries[..|entries| - 1]);
      var e := entries[|entries| - 1];
      if Sanitise(e) == e then rest + [e] else rest
  }

  lemma {:induction false} SanitisedOverlap(entries: seq<Entry>, x: Entry)
    ensures if Sanitise(x) == x
            then Events(entries)[x] == Events(Blank(entries))[x] <= Events(Sanitised(entries))[x]
            else Events(Sanitised(entries))[x] == 0 == Events(Blank(entries))[x]
  {
    if entries != [] {
      var front, e := entries[..|entries| - 1], entries[|entries| - 1];
      SanitisedOverlap(front, x);
      EventsPop(entries);
      EventsPush(Sanitised(front), Sanitise(e));
      EventsPush(Blank(front), e);
      SanitiseErase(e, x);
    }
  }

  lemma SanitiseErase(e: Entry, x: Entry)
    ensures Sanitise(Erase(e)) == Erase(Sanitise(e)) && Sanitise(Sanitise(e)) == Sanitise(e)
    ensures Sanitise(e) == e <==> Sanitise(Erase(e)) == Erase(e)
    ensures Erase(Sanitise(e)) == x ==> Sanitise(x) == x
  {
  }

  lemma EventsSize(entries: seq<Entry>)
    ensures |Events(entries)| == |entries|
  {
  }

  lemma {:induction false} SanitisedSize(entries: seq<Entry>)
    ensures |Sanitised(entries)| == |entries|
  {
    if entries != [] { SanitisedSize(entries[..|entries| - 1]); }
  }

  /**
    Merging a sanitised backup into the database it came from is not a no-op: every event that
    carried a key or a meta text is added a second time. It is harmless exactly when no
    retained event carries either.
   */
  lemma SanitisedBackupDuplicates(l: Ledger, payload: Payload, l': Ledger)
    requires Events(payload.usageHistory) == Events(Sanitised(l.history))
    requires Merged(l, payload, l')
    ensures |l'.history| == |l.history| + (|l.history| - |Blank(l.history)|)
    ensures |l'.history| == |l.history| <==>
              forall i :: 0 <= i < |l.history| ==> l.history[i].apiKey == "" && l.history[i].meta == Meta("", 0)
  {
    hide Merged, Events, Sanitise;
    forall i | 0 <= i < |l.history|
      ensures Sanitise(l.history[i]) == l.history[i] <==> l.history[i].apiKey == "" && l.history[i].meta == Meta("", 0)
    {
      SanitisedIsBlank(l.history[i]);
    }
    var s, e, b := Events(Sanitised(l.history)), Events(l.history), Events(Blank(l.history));
    MergeHistory(l, payload, l');
    forall x ensures (s * e)[x] == b[x] { SanitisedOverlap(l.history, x); }
    assert s * e == b;
    SanitisedSize(l.history);
    EventsSize(Sanitised(l.history));
    EventsSize(Blank(l.history));
    EventsSize(l.history);
    EventsSize(l'.history);
    assert |s - e| == |s| - |s * e|;
  }
}
