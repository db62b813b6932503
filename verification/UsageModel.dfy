/**
  Usage events and the two counters derived from them (internal/db/usage.go).

  A timestamp or a meta blob is a text together with what parsing that text yields, so
  every statement below holds for every parser. Costs are exact reals; the source's
  relative tolerance of 1e-12 is kept.
 */
module UsageModel {
  import opened Wrappers

  const SECOND := 1_000_000_000
  const DAY := 24 * 60 * 60 * SECOND

  /** instant is nanoseconds since the epoch, None when the text is not RFC 3339. */
  datatype Timestamp = Timestamp(text: string, instant: Option<int>)

  /** cachedTokens is the cached_tokens field of the JSON text, zero when it has none. */
  datatype Meta = Meta(text: string, cachedTokens: int)

  datatype Entry = Entry(
    endpoint: string, timestamp: Timestamp, provider: string, model: string,
    connectionId: string, apiKey: string, status: string, tokens: string, meta: Meta,
    id: int, promptTokens: int, completionTokens: int, cost: real)

  datatype DayCounter = DayCounter(
    requests: int, promptTokens: int, completionTokens: int, cost: real,
    cachedTokens: int, failed: int)

  /** The six scalar fields of the source's DayData are one counter here. */
  datatype DayData = DayData(
    total: DayCounter, byProvider: map<string, DayCounter>, byModel: map<string, DayCounter>)

  /** The key of a usageDaily row; an import in replace mode may store any text. */
  datatype DateKey = Date(day: int) | Malformed(text: string)

  const ZERO := DayCounter(0, 0, 0, 0.0, 0, 0)
  const EMPTY_DAY := DayData(ZERO, map[], map[])

  // ---------------------------------------------------------------- dates

  function DayOfInstant(instant: int): int { instant / DAY }

  predicate HasDate(e: Entry) { e.timestamp.instant.Some? }

  predicate OnDate(e: Entry, date: DateKey) {
    e.timestamp.instant.Some? && date == Date(DayOfInstant(e.timestamp.instant.value))
  }

  /** dateKeyFromTimestamp: an unparsable timestamp falls on the current day. */
  function DateKeyOf(timestamp: Timestamp, today: int): DateKey {
    match timestamp.instant
    case Some(t) => Date(DayOfInstant(t))
    case None => Date(today)
  }

  function Dates(entries: seq<Entry>): (dates: set<DateKey>)
    ensures forall d :: d in dates <==> exists i :: 0 <= i < |entries| && OnDate(entries[i], d)
  {
    if entries == [] then {}
    else
      var e := entries[|entries| - 1];
      var rest := Dates(entries[..|entries| - 1]);
      assert forall i :: 0 <= i < |entries| ==>
        (entries[i] == e && i == |entries| - 1) || entries[i] == entries[..|entries| - 1][i];
      if HasDate(e) then rest + {Date(DayOfInstant(e.timestamp.instant.value))} else rest
  }

  // ---------------------------------------------------------------- counters

  function ModelKey(e: Entry): string {
    if e.provider != "" then e.model + "|" + e.provider else e.model
  }

  predicate Failed(e: Entry) { e.status != "" && e.status != "ok" }

  function AddUsageToCounter(c: DayCounter, e: Entry): DayCounter {
    DayCounter(
      c.requests + 1, c.promptTokens + e.promptTokens, c.completionTokens + e.completionTokens,
      c.cost + e.cost, c.cachedTokens + e.meta.cachedTokens,
      c.failed + if Failed(e) then 1 else 0)
  }

  function Lookup(m: map<string, DayCounter>, key: string): DayCounter {
    if key in m then m[key] else ZERO
  }

  function AddUsageToDay(day: DayData, e: Entry): DayData {
    DayData(
      AddUsageToCounter(day.total, e),
      if e.provider != ""
      then day.byProvider[e.provider := AddUsageToCounter(Lookup(day.byProvider, e.provider), e)]
      else day.byProvider,
      day.byModel[ModelKey(e) := AddUsageToCounter(Lookup(day.byModel, ModelKey(e)), e)])
  }

  function AddAll(day: DayData, entries: seq<Entry>): DayData {
    if entries == [] then day
    else AddUsageToDay(AddAll(day, entries[..|entries| - 1]), entries[|entries| - 1])
  }

  /** The aggregate of the events that fall on one date, in the order given. */
  function DayOf(entries: seq<Entry>, date: DateKey): DayData {
    if entries == [] then EMPTY_DAY
    else
      var rest := DayOf(entries[..|entries| - 1], date);
      if OnDate(entries[|entries| - 1], date)
      then AddUsageToDay(rest, entries[|entries| - 1])
      else rest
  }

  // ---------------------------------------------------------------- dimensions

  /** One counter of a day: its total, or one key of one of its two breakdowns. */
  datatype Dimension = Total | Provider(key: string) | Model(key: string)

  predicate Counts(dim: Dimension, e: Entry) {
    match dim
    case Total => true
    case Provider(key) => key != "" && e.provider == key
    case Model(key) => ModelKey(e) == key
  }

  function At(day: DayData, dim: Dimension): DayCounter {
    match dim
    case Total => day.total
    case Provider(key) => Lookup(day.byProvider, key)
    case Model(key) => Lookup(day.byModel, key)
  }

  /** What a scan of the events counts for one date and one dimension. */
  function Tally(entries: seq<Entry>, date: DateKey, dim: Dimension): DayCounter {
    if entries == [] then ZERO
    else
      var rest := Tally(entries[..|entries| - 1], date, dim);
      var e := entries[|entries| - 1];
      if OnDate(e, date) && Counts(dim, e) then AddUsageToCounter(rest, e) else rest
  }

  lemma AddUsageAt(day: DayData, e: Entry, dim: Dimension)
    ensures At(AddUsageToDay(day, e), dim)
         == if Counts(dim, e) then AddUsageToCounter(At(day, dim), e) else At(day, dim)
  {
  }

  lemma {:induction false} DayOfAt(entries: seq<Entry>, date: DateKey, dim: Dimension)
    ensures At(DayOf(entries, date), dim) == Tally(entries, date, dim)
  {
    if entries != [] {
      DayOfAt(entries[..|entries| - 1], date, dim);
      AddUsageAt(DayOf(entries[..|entries| - 1], date), entries[|entries| - 1], dim);
    }
  }

  lemma {:induction false} AddAllAt(day: DayData, entries: seq<Entry>, date: DateKey, dim: Dimension)
    requires forall i :: 0 <= i < |entries| ==> OnDate(entries[i], date)
    ensures At(AddAll(day, entries), dim) == Plus(At(day, dim), Tally(entries, date, dim))
  {
    hide AddUsageToDay, At, OnDate, Counts;
    if entries != [] {
      var front, e := entries[..|entries| - 1], entries[|entries| - 1];
      assert OnDate(e, date);
      AddAllAt(day, front, date, dim);
      AddUsageAt(AddAll(day, front), e, dim);
    }
  }

  function Plus(a: DayCounter, b: DayCounter): DayCounter {
    DayCounter(
      a.requests + b.requests, a.promptTokens + b.promptTokens,
      a.completionTokens + b.completionTokens, a.cost + b.cost,
      a.cachedTokens + b.cachedTokens, a.failed + b.failed)
  }

  lemma {:induction false} TallyConcat(a: seq<Entry>, b: seq<Entry>, date: DateKey, dim: Dimension)
    ensures Tally(a + b, date, dim) == Plus(Tally(a, date, dim), Tally(b, date, dim))
  {
    if b == [] {
      assert a + b == a;
    } else {
      assert (a + b)[..|a + b| - 1] == a + b[..|b| - 1];
      TallyConcat(a, b[..|b| - 1], date, dim);
    }
  }

  lemma DropOne(b: seq<Entry>, i: nat, rest: seq<Entry>)
    requires i < |b| && rest == b[..i] + b[i + 1..]
    ensures multiset(b) == multiset(rest) + multiset{b[i]}
  {
    assert b == b[..i] + ([b[i]] + b[i + 1..]);
  }

  lemma TallyDropOne(b: seq<Entry>, i: nat, rest: seq<Entry>, date: DateKey, dim: Dimension)
    requires i < |b| && rest == b[..i] + b[i + 1..]
    ensures Tally(b, date, dim) == Plus(Tally(rest, date, dim), Tally([b[i]], date, dim))
  {
    assert b == b[..i] + ([b[i]] + b[i + 1..]);
    TallyConcat(b[..i], [b[i]] + b[i + 1..], date, dim);
    TallyConcat([b[i]], b[i + 1..], date, dim);
    TallyConcat(b[..i], b[i + 1..], date, dim);
  }

  /** The scan does not depend on the order in which the database returns the rows. */
  lemma {:induction false} TallyIgnoresOrder(a: seq<Entry>, b: seq<Entry>, date: DateKey, dim: Dimension)
    requires multiset(a) == multiset(b)
    ensures Tally(a, date, dim) == Tally(b, date, dim)
    decreases |a|
  {
    if a == [] {
      assert |multiset(b)| == |multiset(a)| == 0;
    } else {
      var last := |a| - 1;
      assert a[last] in multiset(b);
      var i :| 0 <= i < |b| && b[i] == a[last];
      var rest := b[..i] + b[i + 1..];
      assert a[..last] == a[..last] + a[last + 1..];
      DropOne(a, last, a[..last]);
      DropOne(b, i, rest);
      assert multiset(a[..last]) == multiset(a) - multiset{a[last]};
      TallyIgnoresOrder(a[..last], rest, date, dim);
      TallyDropOne(a, last, a[..last], date, dim);
      TallyDropOne(b, i, rest, date, dim);
    }
  }

  lemma {:induction false} TallyRequests(entries: seq<Entry>, date: DateKey, dim: Dimension)
    ensures 0 <= Tally(entries, date, dim).requests <= |entries|
    ensures Tally(entries, date, dim).requests > 0 <==>
              exists i :: 0 <= i < |entries| && OnDate(entries[i], date) && Counts(dim, entries[i])
    ensures Tally(entries, date, dim).requests == 0 ==> Tally(entries, date, dim) == ZERO
  {
    if entries != [] {
      var rest := entries[..|entries| - 1];
      TallyRequests(rest, date, dim);
      if i :| 0 <= i < |rest| && OnDate(rest[i], date) && Counts(dim, rest[i]) {
        assert entries[i] == rest[i];
      }
      assert forall i :: 0 <= i < |rest| ==> entries[i] == rest[i];
    }
  }

  /** A breakdown has exactly the keys some event counted for. */
  lemma {:induction false} DayOfKeys(entries: seq<Entry>, date: DateKey, key: string)
    ensures key in DayOf(entries, date).byProvider <==> Tally(entries, date, Provider(key)).requests > 0
    ensures key in DayOf(entries, date).byModel <==> Tally(entries, date, Model(key)).requests > 0
  {
    if entries != [] {
      var rest := entries[..|entries| - 1];
      DayOfKeys(rest, date, key);
      TallyRequests(rest, date, Provider(key));
      TallyRequests(rest, date, Model(key));
    }
  }
}
