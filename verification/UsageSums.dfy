/**
  What the usage books say, in sums over the events' own fields: every counter of a daily row
  and of a scan, the row that one save leaves behind, and the state after an import.
 */
module UsageSums {
  import opened Wrappers
  import opened UsageModel
  import opened MapSums
  import opened UsageImport
  import opened UsageLedger
  import opened UsageLifetime
  import opened UsageRollup

  // ---------------------------------------------------------------- sums over events

  function Select(entries: seq<Entry>, keep: Entry -> bool): seq<Entry> {
    if entries == [] then []
    else
      var rest := Select(entries[..|entries| - 1], keep);
      var e := entries[|entries| - 1];
      if keep(e) then rest + [e] else rest
  }

  function SumInt(entries: seq<Entry>, amount: Entry -> int): int {
    if entries == [] then 0 else SumInt(entries[..|entries| - 1], amount) + amount(entries[|entries| - 1])
  }

  function SumReal(entries: seq<Entry>, amount: Entry -> real): real {
    if entries == [] then 0.0 else SumReal(entries[..|entries| - 1], amount) + amount(entries[|entries| - 1])
  }

  function PromptTokens(): Entry -> int { (e: Entry) => e.promptTokens }
  function CompletionTokens(): Entry -> int { (e: Entry) => e.completionTokens }
  function Cost(): Entry -> real { (e: Entry) => e.cost }
  function CachedTokens(): Entry -> int { (e: Entry) => e.meta.cachedTokens }
  function Unsuccessful(): Entry -> bool { (e: Entry) => e.status != "" && e.status != "ok" }

  /** Day n lasts from n * 86400 seconds after the epoch, inclusive, to the start of the next. */
  function During(day: int): Entry -> bool {
    (e: Entry) => e.timestamp.instant.Some? &&
      day * 86_400_000_000_000 <= e.timestamp.instant.value < (day + 1) * 86_400_000_000_000
  }

  function FromProvider(key: string): Entry -> bool { (e: Entry) => e.provider != "" && e.provider == key }

  function ForModel(key: string): Entry -> bool {
    (e: Entry) => key == if e.provider == "" then e.model else e.model + "|" + e.provider
  }

  const NONE := DayCounter(0, 0, 0, 0.0, 0, 0)

  /** What a list of events adds to a counter, field by field. */
  predicate Gains(c: DayCounter, c': DayCounter, entries: seq<Entry>) {
    && c'.requests == c.requests + |entries|
    && c'.promptTokens == c.promptTokens + SumInt(entries, PromptTokens())
    && c'.completionTokens == c.completionTokens + SumInt(entries, CompletionTokens())
    && c'.cost == c.cost + SumReal(entries, Cost())
    && c'.cachedTokens == c.cachedTokens + SumInt(entries, CachedTokens())
    && c'.failed == c.failed + |Select(entries, Unsuccessful())|
  }

  /** A breakdown lists a key exactly when it did before or some event has it. */
  ghost predicate BreakdownGains(m: map<string, DayCounter>, m': map<string, DayCounter>, entries: seq<Entry>,
                                 group: string -> (Entry -> bool)) {
    forall k ::
      && (k in m' <==> k in m || Select(entries, group(k)) != [])
      && (k in m' ==> Gains(if k in m then m[k] else NONE, m'[k], Select(entries, group(k))))
  }

  ghost predicate DayGains(day: DayData, day': DayData, entries: seq<Entry>) {
    && Gains(day.total, day'.total, entries)
    && BreakdownGains(day.byProvider, day'.byProvider, entries, FromProvider)
    && BreakdownGains(day.byModel, day'.byModel, entries, ForModel)
  }

  ghost predicate Breakdown(m: map<string, DayCounter>, entries: seq<Entry>, group: string -> (Entry -> bool)) {
    BreakdownGains(map[], m, entries, group)
  }

  /** The row that holds exactly these events. */
  ghost predicate Books(day: DayData, entries: seq<Entry>) { DayGains(DayData(NONE, map[], map[]), day, entries) }

  lemma SelectPush(entries: seq<Entry>, e: Entry, keep: Entry -> bool)
    ensures Select(entries + [e], keep) == Select(entries, keep) + if keep(e) then [e] else []
  {
    assert (entries + [e])[..|entries + [e]| - 1] == entries;
  }

  lemma SumPush(entries: seq<Entry>, e: Entry, amount: Entry -> int, price: Entry -> real)
    ensures SumInt(entries + [e], amount) == SumInt(entries, amount) + amount(e)
    ensures SumReal(entries + [e], price) == SumReal(entries, price) + price(e)
  {
    assert (entries + [e])[..|entries + [e]| - 1] == entries;
  }

  /** One event more. */
  predicate Grows(c: DayCounter, c': DayCounter, e: Entry) {
    && c'.requests == c.requests + 1
    && c'.promptTokens == c.promptTokens + e.promptTokens
    && c'.completionTokens == c.completionTokens + e.completionTokens
    && c'.cost == c.cost + e.cost
    && c'.cachedTokens == c.cachedTokens + e.meta.cachedTokens
    && c'.failed == c.failed + if e.status == "" || e.status == "ok" then 0 else 1
  }

  /** Only the counters of the given keys change; a missing one counts from zero. */
  ghost predicate GrowsAt(m: map<string, DayCounter>, m': map<string, DayCounter>, e: Entry, keys: set<string>) {
    && m'.Keys == m.Keys + keys
    && forall k :: k in m' ==>
         if k in keys then Grows(if k in m then m[k] else NONE, m'[k], e)
         else m'[k] == m[k]
  }

  ghost predicate DayGrows(day: DayData, day': DayData, e: Entry) {
    && Grows(day.total, day'.total, e)
    && GrowsAt(day.byProvider, day'.byProvider, e, if e.provider == "" then {} else {e.provider})
    && GrowsAt(day.byModel, day'.byModel, e, {if e.provider == "" then e.model else e.model + "|" + e.provider})
  }

  lemma AddingToDayGrows(day: DayData, e: Entry)
    ensures DayGrows(day, AddUsageToDay(day, e), e)
  {
  }

  lemma AddingGrows(c: DayCounter, e: Entry)
    ensures Grows(c, AddUsageToCounter(c, e), e)
  {
  }

  lemma GainsOne(c: DayCounter, c': DayCounter, c'': DayCounter, entries: seq<Entry>, e: Entry)
    requires Gains(c, c', entries) && Grows(c', c'', e)
    ensures Gains(c, c'', entries + [e])
  {
    hide SumInt, SumReal, Select;
    SumPush(entries, e, PromptTokens(), Cost());
    SumPush(entries, e, CompletionTokens(), Cost());
    SumPush(entries, e, CachedTokens(), Cost());
    SelectPush(entries, e, Unsuccessful());
  }

  lemma GainsNothing(day: DayData)
    ensures DayGains(day, day, []) && Gains(ZERO, ZERO, [])
  {
  }

  lemma NothingSelected(group: string -> (Entry -> bool))
    ensures Breakdown(map[], [], group)
  {
  }

  lemma BreakdownGainsOne(m: map<string, DayCounter>, m': map<string, DayCounter>, m'': map<string, DayCounter>,
                          entries: seq<Entry>, e: Entry, group: string -> (Entry -> bool), keys: set<string>)
    requires BreakdownGains(m, m', entries, group) && GrowsAt(m', m'', e, keys)
    requires forall k :: group(k)(e) <==> k in keys
    ensures BreakdownGains(m, m'', entries + [e], group)
  {
    hide Gains, Grows, Select;
    forall k
      ensures k in m'' <==> k in m || Select(entries + [e], group(k)) != []
      ensures k in m'' ==>
        Gains(if k in m then m[k] else NONE, m''[k], Select(entries + [e], group(k)))
    {
      var c := if k in m then m[k] else NONE;
      SelectPush(entries, e, group(k));
      if k in keys {
        GainsNothing(EMPTY_DAY);
        GainsOne(c, if k in m' then m'[k] else NONE, m''[k], Select(entries, group(k)), e);
      } else {
        assert Select(entries + [e], group(k)) == Select(entries, group(k));
      }
    }
  }

  /** A row to which events are added gains their sums. */
  lemma {:induction false} AddAllGains(day: DayData, entries: seq<Entry>)
    ensures DayGains(day, AddAll(day, entries), entries)
  {
    hide DayGains, AddUsageToDay;
    if entries == [] {
      GainsNothing(day);
    } else {
      var front, e := entries[..|entries| - 1], entries[|entries| - 1];
      assert entries == front + [e];
      AddAllGains(day, front);
      DayGainsOne(day, AddAll(day, front), front, e);
    }
  }

  lemma DayGainsOne(day: DayData, day': DayData, entries: seq<Entry>, e: Entry)
    requires DayGains(day, day', entries)
    ensures DayGains(day, AddUsageToDay(day', e), entries + [e])
  {
    hide Gains, Grows, BreakdownGains, GrowsAt, AddUsageToDay;
    var day'' := AddUsageToDay(day', e);
    AddingToDayGrows(day', e);
    GainsOne(day.total, day'.total, day''.total, entries, e);
    BreakdownGainsOne(day.byProvider, day'.byProvider, day''.byProvider, entries, e, FromProvider,
                      if e.provider == "" then {} else {e.provider});
    BreakdownGainsOne(day.byModel, day'.byModel, day''.byModel, entries, e, ForModel,
                      {if e.provider == "" then e.model else e.model + "|" + e.provider});
  }

  // ---------------------------------------------------------------- rows and scans

  /** The row of a date holds the books of the events of that date. */
  lemma {:induction false} RowsAreSums(entries: seq<Entry>, day: int)
    ensures Books(DayOf(entries, Date(day)), Select(entries, During(day)))
  {
    hide DayGains, AddUsageToDay;
    GainsNothing(EMPTY_DAY);
    if entries != [] {
      var front, e := entries[..|entries| - 1], entries[|entries| - 1];
      RowsAreSums(front, day);
      DayGainsOne(EMPTY_DAY, DayOf(front, Date(day)), Select(front, During(day)), e);
    }
  }

  /** A text that is no date has no events. */
  lemma {:induction false} MalformedRowsAreEmpty(entries: seq<Entry>, text: string)
    ensures DayOf(entries, Malformed(text)) == EMPTY_DAY
  {
    if entries != [] { MalformedRowsAreEmpty(entries[..|entries| - 1], text); }
  }

  /** group(k) selects the events with label k. */
  lemma {:induction false} GroupsAreSums(entries: seq<Entry>, labelOf: Entry -> string, group: string -> (Entry -> bool))
    requires forall k, e :: group(k)(e) <==> k == labelOf(e)
    ensures Breakdown(GroupBy(entries, labelOf), entries, group)
  {
    hide Gains, Select, AddUsageToCounter;
    if entries == [] {
      NothingSelected(group);
    } else {
      var front, e := entries[..|entries| - 1], entries[|entries| - 1];
      assert entries == front + [e];
      GroupsAreSums(front, labelOf, group);
      AddingGrows(Lookup(GroupBy(front, labelOf), labelOf(e)), e);
      BreakdownGainsOne(map[], GroupBy(front, labelOf), GroupBy(entries, labelOf), front, e, group, {labelOf(e)});
    }
  }

  /** From the start of the period, if it has one, to the time of the request, both inclusive. */
  function Inside(w: Window): Entry -> bool {
    (e: Entry) => e.timestamp.instant.Some? && var t := e.timestamp.instant.value;
      (w.start.None? || w.start.value <= t) && t <= w.end
  }

  /** The key recorded in the meta text, else the API key, else "default". */
  function UnderKey(reader: MetaReader): string -> (Entry -> bool) {
    (k: string) => (e: Entry) => var id := reader.keyId(e.meta);
      if id != "" then k == id else if e.apiKey != "" then k == e.apiKey else k == "default"
  }

  function UnderEndpoint(): string -> (Entry -> bool) {
    (k: string) => (e: Entry) => if e.endpoint != "" then k == e.endpoint else k == "other"
  }

  function UnderClient(reader: MetaReader): string -> (Entry -> bool) {
    (k: string) => (e: Entry) => k == reader.client(e.meta)
  }

  lemma {:induction false} ScannedIsInside(entries: seq<Entry>, w: Window)
    ensures Scanned(entries, w) == Select(entries, Inside(w))
  {
    if entries != [] {
      var front, e := entries[..|entries| - 1], entries[|entries| - 1];
      ScannedIsInside(front, w);
      DayStartIsEarlier(w);
    }
  }

  lemma DayStartIsEarlier(w: Window)
    ensures w.start.Some? ==> w.DayStart().value <= w.start.value
  {
  }

  /** Everything the statistics panel shows of a scan. */
  lemma SummaryIsSums(rows: seq<Entry>, w: Window, reader: MetaReader)
    ensures var s, inside := SummaryOf(Scanned(rows, w), reader), Select(rows, Inside(w));
      && Books(s.day, inside)
      && Breakdown(s.byKey, inside, UnderKey(reader))
      && Breakdown(s.byEndpoint, inside, UnderEndpoint())
      && Breakdown(s.byClient, inside, UnderClient(reader))
  {
    hide DayGains, Breakdown, GroupBy, AddAll, Scanned, Select;
    var inside := Select(rows, Inside(w));
    ScannedIsInside(rows, w);
    AddAllGains(EMPTY_DAY, inside);
    GroupsAreSums(inside, KeyLabel(reader), UnderKey(reader));
    GroupsAreSums(inside, EndpointLabel(), UnderEndpoint());
    GroupsAreSums(inside, ClientLabel(reader), UnderClient(reader));
  }

  /** The day's events that the scan has looked at, the first day of the period counting in full. */
  function Visible(w: Window, day: int): Entry -> bool {
    (e: Entry) => During(day)(e) && e.timestamp.instant.value <= w.end &&
      (w.start.None? || w.start.value < (day + 1) * 86_400_000_000_000)
  }

  lemma {:induction false} ObservedIsCount(entries: seq<Entry>, w: Window, day: int)
    ensures Observed(entries, w, Date(day)) == |Select(entries, Visible(w, day))|
  {
    if entries != [] {
      var front, e := entries[..|entries| - 1], entries[|entries| - 1];
      ObservedIsCount(front, w, day);
      if During(day)(e) { SeenIsVisible(e, w, day); }
    }
  }

  lemma SeenIsVisible(e: Entry, w: Window, day: int)
    requires During(day)(e)
    ensures OnDate(e, Date(day))
    ensures w.Skips(e.timestamp.instant.value) <==> !Visible(w, day)(e)
  {
    if w.start.Some? {
      var first := DayOfInstant(w.start.value);
      assert first * DAY <= w.start.value < (first + 1) * DAY;
      if day < first { assert (day + 1) * DAY <= first * DAY; }
      if first < day { assert (first + 1) * DAY <= day * DAY; }
    }
  }

  /** After saves alone, every row of the table holds the books of its day, and there is one for each such day. */
  lemma SavedRowsAreSums(steps: seq<Step>, day: int)
    requires forall i :: 0 <= i < |steps| ==> SavesDated(steps[i])
    ensures var l := Run(EMPTY, steps); var events := Select(l.history, During(day));
      && (Date(day) in l.daily <==> events != [])
      && (Date(day) in l.daily ==> l.daily[Date(day)].Json? && Books(l.daily[Date(day)].day, events))
  {
    hide Books, Run, DayOf, Dates;
    var l := Run(EMPTY, steps);
    SavesStayExact(steps);
    RowsAreSums(l.history, day);
    DatedMeansSelected(l.history, day);
  }

  lemma {:induction false} DatedMeansSelected(entries: seq<Entry>, day: int)
    ensures Date(day) in Dates(entries) <==> Select(entries, During(day)) != []
  {
    if entries != [] {
      var front, e := entries[..|entries| - 1], entries[|entries| - 1];
      DatedMeansSelected(front, day);
      assert entries == front + [e];
      UsageRollup.DayOfPush(front, e, Date(day));
    }
  }

  // ---------------------------------------------------------------- one save

  /** What a save stores: blanks are filled in and the next row identifier is taken. */
  predicate StoredAs(e: Entry, now: Clock, id: int, stored: Entry) {
    && stored.id == id
    && (e.timestamp.text != "" ==> stored.timestamp == e.timestamp)
    && (e.timestamp.text == "" ==> stored.timestamp == Timestamp(now.text, Some(now.instant)))
    && stored.status == (if e.status == "" then "ok" else e.status)
    && (e.meta.text != "" ==> stored.meta == e.meta)
    && (e.meta.text == "" ==> stored.meta == Meta("{}", 0))
    && stored.endpoint == e.endpoint && stored.provider == e.provider && stored.model == e.model
    && stored.connectionId == e.connectionId && stored.apiKey == e.apiKey && stored.tokens == e.tokens
    && stored.promptTokens == e.promptTokens && stored.completionTokens == e.completionTokens
    && stored.cost == e.cost
  }

  /** The day of the event, or today when its timestamp cannot be read. */
  predicate CountsOn(stored: Entry, now: Clock, day: int) {
    var t := if stored.timestamp.instant.Some? then stored.timestamp.instant.value else now.instant;
    day * 86_400_000_000_000 <= t < (day + 1) * 86_400_000_000_000
  }

  /** A row that is missing or cannot be parsed counts from nothing. */
  lemma SaveRecords(l: Ledger, e: Entry, now: Clock, day: int)
    ensures var l' := Save(l, e, now);
      && |l'.history| == |l.history| + 1 && l'.history[..|l.history|] == l.history
      && var stored := l'.history[|l.history|];
      && StoredAs(e, now, l.nextId, stored)
      && l'.nextId == l.nextId + 1 && l'.lifetime == l.lifetime + 1
      && (forall d: DateKey :: d.Malformed? ==>
            (d in l'.daily <==> d in l.daily) && (d in l.daily ==> l'.daily[d] == l.daily[d]))
      && (!CountsOn(stored, now, day) ==>
            (Date(day) in l'.daily <==> Date(day) in l.daily)
            && (Date(day) in l.daily ==> l'.daily[Date(day)] == l.daily[Date(day)]))
      && (CountsOn(stored, now, day) ==>
            (Date(day) in l'.daily && l'.daily[Date(day)].Json?
             && DayGrows(if Date(day) in l.daily && l.daily[Date(day)].Json? then l.daily[Date(day)].day
                         else DayData(NONE, map[], map[]),
                         l'.daily[Date(day)].day, stored)))
  {
    hide AddUsageToDay, DayGrows;
    var plain := Defaulted(e, now);
    AddingToDayGrows(RowAt(l.daily, Date(day)), plain);
    GrowthIgnoresId(RowAt(l.daily, Date(day)), AddUsageToDay(RowAt(l.daily, Date(day)), plain), plain, l.nextId);
  }

  lemma GrowthIgnoresId(day: DayData, day': DayData, e: Entry, id: int)
    requires DayGrows(day, day', e)
    ensures DayGrows(day, day', e.(id := id))
  {
  }

  // ---------------------------------------------------------------- prune

  /** The first of two texts in the order of their characters, a proper prefix coming first. */
  ghost predicate Precedes(a: string, b: string) {
    exists n :: 0 <= n <= |a| && n < |b| && a[..n] == b[..n] && (n == |a| || a[n] < b[n])
  }

  lemma {:induction false} TextBeforeMeansPrecedes(a: string, b: string)
    ensures TextBefore(a, b) <==> Precedes(a, b)
  {
    if a != [] && b != [] && a[0] == b[0] {
      TextBeforeMeansPrecedes(a[1..], b[1..]);
      if n :| 0 <= n <= |a[1..]| && n < |b[1..]| && a[1..][..n] == b[1..][..n] && (n == |a[1..]| || a[1..][n] < b[1..][n]) {
        assert a[..n + 1] == [a[0]] + a[1..][..n] && b[..n + 1] == [b[0]] + b[1..][..n];
      }
      if n :| 0 <= n <= |a| && n < |b| && a[..n] == b[..n] && (n == |a| || a[n] < b[n]) {
        assert n > 0;
        assert a[1..][..n - 1] == a[..n][1..] && b[1..][..n - 1] == b[..n][1..];
      }
    } else if a != [] && b != [] && a[0] != b[0] {
      if n :| 0 <= n <= |a| && n < |b| && a[..n] == b[..n] && (n == |a| || a[n] < b[n]) {
        if n > 0 { PrefixStartsAlike(a, b, n); }
      }
      assert a[..0] == b[..0];
    } else if b != [] {
      assert a[..0] == b[..0];
    }
  }

  lemma PrefixStartsAlike(a: string, b: string, n: int)
    requires 0 < n <= |a| && n <= |b| && a[..n] == b[..n]
    ensures a[0] == b[0]
  {
    assert a[..n][0] == a[0] && b[..n][0] == b[0];
  }

  ghost function NotBefore(cutoff: string): Entry -> bool { (e: Entry) => !Precedes(e.timestamp.text, cutoff) }

  /** A prune keeps, in order, the events whose timestamp text does not precede the cutoff. */
  lemma {:induction false} PruneKeeps(entries: seq<Entry>, cutoff: string)
    ensures Kept(entries, cutoff) == Select(entries, NotBefore(cutoff))
  {
    hide TextBefore, Precedes;
    if entries != [] {
      PruneKeeps(entries[..|entries| - 1], cutoff);
      TextBeforeMeansPrecedes(entries[|entries| - 1].timestamp.text, cutoff);
    }
  }

  /** And the request details whose timestamp text does not. */
  lemma PruneKeepsDetails(details: map<string, RequestDetail>, cutoff: string)
    ensures forall id :: id in KeptDetails(details, cutoff) <==> id in details && !Precedes(details[id].timestamp, cutoff)
    ensures forall id :: id in KeptDetails(details, cutoff) ==> KeptDetails(details, cutoff)[id] == details[id]
  {
    hide TextBefore, Precedes;
    forall id | id in details ensures TextBefore(details[id].timestamp, cutoff) <==> Precedes(details[id].timestamp, cutoff) {
      TextBeforeMeansPrecedes(details[id].timestamp, cutoff);
    }
  }
}
