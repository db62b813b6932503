/**
  The usage tables as one state and each committed transaction as one step:
  SaveUsageEntry (internal/db/usage.go), PruneLogs and ResetUsage
  (internal/db/maintenance.go) and the usage part of ImportData (internal/db/backup.go).
 */
module UsageLedger {
  import opened Wrappers
  import opened UsageModel
  import opened MapSums
  import opened UsageImport

  /** The history table, the daily table, the lifetime counter and the next row identifier. */
  datatype Ledger = Ledger(
    history: seq<Entry>, daily: map<DateKey, DayBlob>, lifetime: int, nextId: int)

  const EMPTY := Ledger([], map[], 0, 1)

  /** A reading of the clock and its RFC 3339 text. */
  datatype Clock = Clock(text: string, instant: int)

  datatype Backup = Backup(version: int, includesUsage: bool, usage: Payload)

  const CURRENT_EXPORT_VERSION := 1

  // ---------------------------------------------------------------- the steps

  function Defaulted(e: Entry, now: Clock): Entry {
    var e := if e.timestamp.text == "" then e.(timestamp := Timestamp(now.text, Some(now.instant))) else e;
    var e := if e.status == "" then e.(status := "ok") else e;
    if e.meta.text == "" then e.(meta := Meta("{}", 0)) else e
  }

  function Insert(l: Ledger, e: Entry): Ledger {
    l.(history := l.history + [e.(id := l.nextId)], nextId := l.nextId + 1)
  }

  function InsertAll(l: Ledger, entries: seq<Entry>): Ledger {
    if entries == [] then l
    else Insert(InsertAll(l, entries[..|entries| - 1]), entries[|entries| - 1])
  }

  function RowAt(daily: map<DateKey, DayBlob>, date: DateKey): DayData {
    if date in daily then DayIn(daily[date]) else EMPTY_DAY
  }

  function Save(l: Ledger, e: Entry, now: Clock): Ledger {
    var e := Defaulted(e, now);
    var date := DateKeyOf(e.timestamp, DayOfInstant(now.instant));
    Insert(l, e).(
      daily := l.daily[date := Json(AddUsageToDay(RowAt(l.daily, date), e))],
      lifetime := l.lifetime + 1)
  }

  /** SQLite compares the two texts, not the two instants. */
  predicate TextBefore(a: string, b: string) {
    if b == [] then false
    else if a == [] then true
    else if a[0] != b[0] then a[0] < b[0]
    else TextBefore(a[1..], b[1..])
  }

  function Kept(entries: seq<Entry>, cutoff: string): seq<Entry> {
    if entries == [] then []
    else
      var rest := Kept(entries[..|entries| - 1], cutoff);
      var last := entries[|entries| - 1];
      if TextBefore(last.timestamp.text, cutoff) then rest else rest + [last]
  }

  function Prune(l: Ledger, retentionDays: int, cutoff: string): Ledger {
    if retentionDays <= 0 then l else l.(history := Kept(l.history, cutoff))
  }

  function Reset(l: Ledger): Ledger { l.(history := [], daily := map[], lifetime := 0) }

  function ApplyPlan(l: Ledger, plan: Plan, replace: bool): Ledger {
    var base := if replace then l.(history := [], daily := map[]) else l;
    InsertAll(base, plan.additions).(daily := base.daily + plan.daily, lifetime := plan.lifetime)
  }

  ghost function PlanFor(l: Ledger, payload: Payload, replace: bool): Option<Plan> {
    if replace then ReplacePlan(payload) else MergePlan(l.history, l.daily, l.lifetime, payload)
  }

  /** None is the error return, after which the transaction has been rolled back. */
  ghost function Import(l: Ledger, backup: Backup, replace: bool): Option<Ledger> {
    if backup.version <= 0 || backup.version > CURRENT_EXPORT_VERSION then None
    else if !backup.includesUsage then Some(l)
    else
      var plan := PlanFor(l, backup.usage, replace);
      if plan.None? then None else Some(ApplyPlan(l, plan.value, replace))
  }

  // ---------------------------------------------------------------- request details

  /** A row of requestDetails; the columns nothing here reads are one text. */
  datatype RequestDetail = RequestDetail(timestamp: string, rest: string)

  function KeptDetails(details: map<string, RequestDetail>, cutoff: string): map<string, RequestDetail> {
    map id | id in details && !TextBefore(details[id].timestamp, cutoff) :: details[id]
  }

  // ---------------------------------------------------------------- the store

  class UsageStore {
    var history: seq<Entry>
    var daily: map<DateKey, DayBlob>
    var lifetime: int
    var nextId: int
    var details: map<string, RequestDetail>

    function Contents(): Ledger
      reads this
    {
      Ledger(history, daily, lifetime, nextId)
    }

    constructor ()
      ensures Contents() == EMPTY && details == map[]
    {
      history, daily, lifetime, nextId, details := [], map[], 0, 1, map[];
    }

    method SaveUsageEntry(entry: Entry, now: Clock)
      modifies `history, `daily, `lifetime, `nextId
      ensures Contents() == Save(old(Contents()), entry, now)
    {
      var e := entry;
      if e.timestamp.text == "" {
        e := e.(timestamp := Timestamp(now.text, Some(now.instant)));
      }
      if e.status == "" {
        e := e.(status := "ok");
      }
      if e.meta.text == "" {
        e := e.(meta := Meta("{}", 0));
      }
      history, nextId := history + [e.(id := nextId)], nextId + 1;
      var date := DateKeyOf(e.timestamp, DayOfInstant(now.instant));
      var day := EMPTY_DAY;
      if date in daily && daily[date].Json? {
        day := daily[date].day;
      }
      day := AddUsageToDay(day, e);
      daily := daily[date := Json(day)];
      lifetime := lifetime + 1;
    }

    method PruneLogs(retentionDays: int, cutoff: string) returns (ok: bool, pruned: nat, prunedDetails: nat)
      modifies `history, `details
      ensures ok == (retentionDays > 0)
      ensures Contents() == Prune(old(Contents()), retentionDays, cutoff)
      ensures details == if ok then KeptDetails(old(details), cutoff) else old(details)
      ensures pruned == |old(history)| - |history| && prunedDetails == |old(details)| - |details|
    {
      if retentionDays <= 0 {
        return false, 0, 0;
      }
      KeptIsShorter(history, cutoff);
      var kept := Kept(history, cutoff);
      pruned := |history| - |kept|;
      history := kept;
      FewerDetails(details, cutoff);
      var keptDetails := KeptDetails(details, cutoff);
      prunedDetails := |details| - |keptDetails|;
      details := keptDetails;
      ok := true;
    }

    method ResetUsage() returns (deleted: nat, deletedDetails: nat)
      modifies `history, `daily, `lifetime, `details
      ensures Contents() == Reset(old(Contents()))
      ensures history == [] && daily == map[] && lifetime == 0 && details == map[]
      ensures deleted == |old(history)| && deletedDetails == |old(details)|
    {
      deleted, deletedDetails := |history|, |details|;
      history, daily, lifetime, details := [], map[], 0, map[];
    }

    method ImportData(backup: Backup, replace: bool) returns (ok: bool)
      modifies `history, `daily, `lifetime, `nextId
      ensures ok ==> backup.version == 1
      ensures ok == Import(old(Contents()), backup, replace).Some?
      ensures Contents() == if ok then Import(old(Contents()), backup, replace).value else old(Contents())
    {
      hide ReplacePlan, MergePlan;
      if backup.version <= 0 || backup.version > CURRENT_EXPORT_VERSION {
        return false;
      }
      if !backup.includesUsage {
        return true;
      }
      var plan := PrepareUsageImport(history, daily, lifetime, backup.usage, replace);
      if plan.None? {
        return false;
      }
      if replace {
        history, daily := [], map[];
      }
      ghost var base := Contents();
      var entries := plan.value.additions;
      assert entries[..0] == [];
      for i := 0 to |entries|
        invariant Contents() == InsertAll(base, entries[..i])
      {
        assert entries[..i + 1][..i] == entries[..i];
        history, nextId := history + [entries[i].(id := nextId)], nextId + 1;
      }
      assert entries[..|entries|] == entries;
      InsertAllKeeps(base, entries);
      daily, lifetime := daily + plan.value.daily, plan.value.lifetime;
      ok := true;
    }
  }

  lemma FewerDetails(details: map<string, RequestDetail>, cutoff: string)
    ensures |KeptDetails(details, cutoff)| <= |details|
  {
    var kept := KeptDetails(details, cutoff);
    assert kept.Keys <= details.Keys;
    assert |details.Keys - kept.Keys| == |details.Keys| - |kept.Keys|;
    assert |kept.Keys| == |kept| && |details.Keys| == |details|;
  }

  lemma {:induction false} KeptIsShorter(entries: seq<Entry>, cutoff: string)
    ensures |Kept(entries, cutoff)| <= |entries|
  {
    if entries != [] { KeptIsShorter(entries[..|entries| - 1], cutoff); }
  }

  lemma {:induction false} InsertAllKeeps(l: Ledger, entries: seq<Entry>)
    ensures InsertAll(l, entries).daily == l.daily && InsertAll(l, entries).lifetime == l.lifetime
    ensures InsertAll(l, entries).nextId == l.nextId + |entries|
    ensures Events(InsertAll(l, entries).history) == Events(l.history) + Events(entries)
  {
    if entries != [] {
      var front, e := entries[..|entries| - 1], entries[|entries| - 1];
      InsertAllKeeps(l, front);
      var before := InsertAll(l, front);
      EventsPush(before.history, e.(id := before.nextId));
      EventsPop(entries);
      assert Erase(e.(id := before.nextId)) == Erase(e);
    }
  }

  // ---------------------------------------------------------------- runs

  datatype Step =
    | SaveStep(e: Entry, now: Clock)
    | PruneStep(retentionDays: int, cutoff: string)
    | ResetStep
    | ImportStep(backup: Backup, replace: bool)

  ghost function Next(l: Ledger, step: Step): Ledger {
    match step
    case SaveStep(e, now) => Save(l, e, now)
    case PruneStep(days, cutoff) => Prune(l, days, cutoff)
    case ResetStep => Reset(l)
    case ImportStep(backup, replace) =>
      var r := Import(l, backup, replace);
      if r.None? then l else r.value
  }

  ghost function Run(l: Ledger, steps: seq<Step>): Ledger {
    if steps == [] then l else Next(Run(l, steps[..|steps| - 1]), steps[|steps| - 1])
  }
}
