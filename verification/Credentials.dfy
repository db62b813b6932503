/** Choosing an upstream account (internal/provider/fallback.go and quota_deadline.go). */
module Credentials {
  import opened Wrappers
  import opened StableOrder
  import opened SessionAffinity
  import Rotation

  const HOUR := 60 * 60 * 1_000_000_000
  const URGENT_WINDOW := 48 * HOUR
  const GROUP_SLACK := 24 * HOUR

  /** An RFC 3339 text field: empty, unreadable, or an instant in nanoseconds. */
  datatype Stamp = Blank | Unreadable | At(instant: int)

  class Connection {
    const id: string
    const provider: string
    const authType: string
    const priority: int
    var isActive: bool
    var rateLimitedUntil: Stamp
    var backoffLevel: int
    var lastError: string
    var testStatus: string
    var quotaLimit: int
    var quotaPeriod: string
    var locks: map<string, Stamp>  // the modelLock_ entries of the provider data
    var deadline: Stamp            // its quotaDeadline entry

    constructor (id: string, provider: string, authType: string, priority: int)
      ensures this.id == id && this.provider == provider && this.authType == authType
      ensures this.priority == priority && isActive && rateLimitedUntil == Blank
    {
      this.id, this.provider, this.authType, this.priority := id, provider, authType, priority;
      isActive, rateLimitedUntil, backoffLevel, lastError, testStatus := true, Blank, 0, "", "";
      quotaLimit, quotaPeriod, locks, deadline := 0, "", map[], Blank;
    }
  }

  type QuotaChecker = Option<(string, string) -> int>

  predicate Later(s: Stamp, now: int) { s.At? && s.instant > now }

  predicate LockBlocks(locks: map<string, Stamp>, key: string, now: int) {
    key in locks && Later(locks[key], now)
  }

  predicate IsOAuth(c: Connection) { c.authType == "oauth" || c.authType == "access_token" }

  /** What eligibility looks at in an account, as a value. */
  datatype Standing = Standing(
    isActive: bool, rateLimitedUntil: Stamp, locks: map<string, Stamp>, quotaLimit: int, quotaPeriod: string)

  function StandingOf(c: Connection): Standing
    reads c
  {
    Standing(c.isActive, c.rateLimitedUntil, c.locks, c.quotaLimit, c.quotaPeriod)
  }

  predicate EligibleAs(id: string, s: Standing, modelName: string, excluded: set<string>, quota: QuotaChecker, now: int) {
    && id !in excluded
    && s.isActive
    && !Later(s.rateLimitedUntil, now)
    && !(modelName != "" && (LockBlocks(s.locks, "modelLock_" + modelName, now)
                             || LockBlocks(s.locks, "modelLock___all", now)))
    && !(s.quotaLimit > 0 && quota.Some?
         && quota.value(id, if s.quotaPeriod == "" then "daily" else s.quotaPeriod) >= s.quotaLimit)
  }

  predicate ConnEligible(c: Connection, modelName: string, excluded: set<string>, quota: QuotaChecker, now: int)
    reads c
  {
    EligibleAs(c.id, StandingOf(c), modelName, excluded, quota, now)
  }

  // ---------------------------------------------------------------- the pool

  function Eligible(conns: seq<Connection>, modelName: string, excluded: set<string>, quota: QuotaChecker, now: int)
    : (r: seq<Connection>)
    reads conns
    ensures forall c :: c in r ==> c in conns && ConnEligible(c, modelName, excluded, quota, now)
    ensures forall c :: c in conns ==> ConnEligible(c, modelName, excluded, quota, now) ==> c in r
  {
    if conns == [] then []
    else
      var rest := Eligible(conns[..|conns| - 1], modelName, excluded, quota, now);
      if ConnEligible(conns[|conns| - 1], modelName, excluded, quota, now)
      then rest + [conns[|conns| - 1]] else rest
  }

  /** OAuth accounts come before API keys, then the lower priority number wins. */
  predicate Better(a: Connection, b: Connection) {
    if IsOAuth(a) != IsOAuth(b) then IsOAuth(a) else a.priority < b.priority
  }

  ghost predicate Best(c: Connection, all: seq<Connection>) { forall d :: d in all ==> !Better(d, c) }

  /** The members of s that nothing in all beats, in the order of s. */
  ghost function Unbeaten(s: seq<Connection>, all: seq<Connection>): (r: seq<Connection>)
    ensures forall c :: c in r ==> c in s && Best(c, all)
    ensures forall c :: c in s ==> Best(c, all) ==> c in r
  {
    if s == [] then []
    else
      var rest := Unbeaten(s[..|s| - 1], all);
      if Best(s[|s| - 1], all) then rest + [s[|s| - 1]] else rest
  }

  ghost function Pool(conns: seq<Connection>, modelName: string, excluded: set<string>, quota: QuotaChecker, now: int)
    : seq<Connection>
    reads conns
  {
    var e := Eligible(conns, modelName, excluded, quota, now);
    Unbeaten(e, e)
  }

  function Rank(c: Connection): Ranked<Connection> { Ranked(c, if IsOAuth(c) then 0 else 1, c.priority) }

  function Ranks(s: seq<Connection>): (r: seq<Ranked<Connection>>)
    ensures |r| == |s| && forall i :: 0 <= i < |s| ==> r[i] == Rank(s[i])
  {
    if s == [] then [] else Ranks(s[..|s| - 1]) + [Rank(s[|s| - 1])]
  }

  function Items(s: seq<Ranked<Connection>>): (r: seq<Connection>)
    ensures |r| == |s| && forall i :: 0 <= i < |s| ==> r[i] == s[i].item
  {
    if s == [] then [] else Items(s[..|s| - 1]) + [s[|s| - 1].item]
  }

  /** A tie with an unbeaten account is the set of unbeaten accounts. */
  lemma {:induction false} ClassIsUnbeaten(s: seq<Connection>, all: seq<Connection>, best: Connection)
    requires best in all && Best(best, all)
    requires forall c :: c in s ==> c in all
    ensures Items(Class(Ranks(s), Rank(best))) == Unbeaten(s, all)
  {
    if s != [] {
      var front, last := s[..|s| - 1], s[|s| - 1];
      ClassIsUnbeaten(front, all, best);
      assert Ranks(s)[..|s| - 1] == Ranks(front);
      assert !Better(best, last) <==> Best(last, all) by {
        if !Better(best, last) {
          forall d | d in all ensures !Better(d, last) { assert !Better(d, best) && !Better(last, best); }
        }
      }
      assert last in s;
      assert !Better(last, best);
      assert Ties(Rank(last), Rank(best)) <==> !Better(best, last);
    }
  }

  /** The first account after the sort is one that nothing beats. */
  lemma SortedHeadIsBest(e: seq<Connection>)
    requires e != []
    ensures var sorted := StableSort(Ranks(e));
      |sorted| == |e| && sorted[0].item in e && sorted[0] == Rank(sorted[0].item) && Best(sorted[0].item, e)
    ensures forall i :: 0 <= i < |e| ==> StableSort(Ranks(e))[i] == Rank(StableSort(Ranks(e))[i].item)
  {
    hide StableSort, Ranks;
    var ranks := Ranks(e);
    var sorted := StableSort(ranks);
    SortIsStable(ranks);
    SortKeepsMembers(ranks);
    forall i | 0 <= i < |sorted| ensures sorted[i] == Rank(sorted[i].item) && sorted[i].item in e {
      RankFrom(e, sorted[i]);
    }
    forall d | d in e ensures !Better(d, sorted[0].item) {
      var j :| 0 <= j < |e| && e[j] == d;
      var i :| 0 <= i < |sorted| && sorted[i] == ranks[j];
      assert i > 0 ==> !Before(sorted[i], sorted[0]);
    }
  }

  lemma RankFrom(e: seq<Connection>, r: Ranked<Connection>)
    requires r in Ranks(e)
    ensures r == Rank(r.item) && r.item in e
  {
    var j :| 0 <= j < |Ranks(e)| && Ranks(e)[j] == r;
  }

  method EligiblePool(conns: seq<Connection>, modelName: string, excluded: set<string>, quota: QuotaChecker, now: int)
    returns (pool: seq<Connection>)
    ensures pool == Pool(conns, modelName, excluded, quota, now)
  {
    var eligible := [];
    assert conns[..0] == [];
    for i := 0 to |conns|
      invariant eligible == Eligible(conns[..i], modelName, excluded, quota, now)
    {
      assert conns[..i + 1][..i] == conns[..i];
      if ConnEligible(conns[i], modelName, excluded, quota, now) {
        eligible := eligible + [conns[i]];
      }
    }
    assert conns[..|conns|] == conns;
    if |eligible| == 0 {
      return [];
    }
    pool := LeadingTier(eligible);
  }

  /** The sort and the two index loops that cut the leading tier out of it. */
  method LeadingTier(eligible: seq<Connection>) returns (pool: seq<Connection>)
    requires eligible != []
    ensures pool == Unbeaten(eligible, eligible)
  {
    hide StableSort, Class;
    var sorted := StableSort(Ranks(eligible));
    SortedHeadIsBest(eligible);
    SortIsStable(Ranks(eligible));
    var first := sorted[0];
    var tierEnd := 1;
    while tierEnd < |sorted| && sorted[tierEnd].item.priority == first.item.priority
      invariant 1 <= tierEnd <= |sorted|
      invariant forall i :: 0 <= i < tierEnd ==> sorted[i].rank == first.rank
    {
      tierEnd := tierEnd + 1;
    }
    var oauthCount := 0;
    while oauthCount < tierEnd && IsOAuth(sorted[oauthCount].item)
      invariant 0 <= oauthCount <= tierEnd
      invariant forall i :: 0 <= i < oauthCount ==> IsOAuth(sorted[i].item)
    {
      oauthCount := oauthCount + 1;
    }
    var end := if oauthCount > 0 then oauthCount else tierEnd;
    pool := Items(sorted[..end]);
    TierIsTie(sorted, first, end, oauthCount, tierEnd);
    LeadingTie(sorted, end, first);
    ClassIsUnbeaten(eligible, eligible, first.item);
  }

  /** Where the loops stop, the leading tie stops. */
  lemma TierIsTie(sorted: seq<Ranked<Connection>>, first: Ranked<Connection>, end: nat, oauthCount: nat, tierEnd: nat)
    requires Ordered(sorted) && sorted != [] && first == sorted[0]
    requires forall i :: 0 <= i < |sorted| ==> sorted[i] == Rank(sorted[i].item)
    requires 1 <= tierEnd <= |sorted| && oauthCount <= tierEnd
    requires forall i :: 0 <= i < tierEnd ==> sorted[i].rank == first.rank
    requires tierEnd < |sorted| ==> sorted[tierEnd].rank != first.rank
    requires forall i :: 0 <= i < oauthCount ==> IsOAuth(sorted[i].item)
    requires oauthCount < tierEnd ==> !IsOAuth(sorted[oauthCount].item)
    requires end == if oauthCount > 0 then oauthCount else tierEnd
    ensures 0 < end <= |sorted|
    ensures forall i :: 0 <= i < end ==> Ties(sorted[i], first)
    ensures end < |sorted| ==> !Ties(sorted[end], first)
  {
    if oauthCount == 0 {
      forall i | 0 <= i < end ensures Ties(sorted[i], first) {
        assert i > 0 ==> !Before(sorted[i], sorted[0]);
      }
    }
  }

  /** Exactly the eligible accounts of the leading priority, OAuth ones first if there are any. */
  lemma PoolMembers(conns: seq<Connection>, modelName: string, excluded: set<string>, quota: QuotaChecker, now: int, c: Connection)
    ensures var e := Eligible(conns, modelName, excluded, quota, now);
      var oauth := exists d :: d in e && IsOAuth(d);
      c in Pool(conns, modelName, excluded, quota, now) <==>
        && c in conns && ConnEligible(c, modelName, excluded, quota, now)
        && IsOAuth(c) == oauth
        && forall d :: d in e && IsOAuth(d) == oauth ==> c.priority <= d.priority
  {
    var e := Eligible(conns, modelName, excluded, quota, now);
    if c in e {
      if Best(c, e) {
        forall d | d in e ensures !Better(d, c) {}
      }
    }
  }

  // ---------------------------------------------------------------- the most urgent quota

  function EffectiveDeadline(c: Connection, now: int): Option<int>
    reads c
  {
    if Later(c.deadline, now) then Some(c.deadline.instant) else None
  }

  function DeadlineRank(c: Connection, now: int): Ranked<Connection>
    reads c
  {
    match EffectiveDeadline(c, now)
    case Some(d) => Ranked(c, 0, d)
    case None => Ranked(c, 1, 0)
  }

  function DeadlineRanks(pool: seq<Connection>, now: int): (r: seq<Ranked<Connection>>)
    reads pool
    ensures |r| == |pool| && forall i :: 0 <= i < |pool| ==> r[i] == DeadlineRank(pool[i], now)
  {
    if pool == [] then []
    else DeadlineRanks(pool[..|pool| - 1], now) + [DeadlineRank(pool[|pool| - 1], now)]
  }

  /** Nothing stands in front of a sooner deadline, and known deadlines come first. */
  ghost predicate Soonest(s: seq<Connection>, now: int)
    reads s
  {
    forall i, j :: 0 <= i < j < |s| ==> !Before(DeadlineRank(s[j], now), DeadlineRank(s[i], now))
  }

  function SortedByDeadline(pool: seq<Connection>, now: int): (r: seq<Connection>)
    reads pool
    ensures |r| == |pool| && forall i :: 0 <= i < |r| ==> r[i] in pool
  {
    SortedDeadlines(pool, now);
    Items(StableSort(DeadlineRanks(pool, now)))
  }

  predicate NothingKnown(pool: seq<Connection>, now: int)
    reads pool
  {
    forall c :: c in pool ==> EffectiveDeadline(c, now).None?
  }

  /** orderByQuotaDeadline: known deadlines first, soonest first, otherwise as before. */
  function OrderByQuotaDeadline(pool: seq<Connection>, now: int): (r: seq<Connection>)
    reads pool
    ensures |r| == |pool| && forall i :: 0 <= i < |r| ==> r[i] in pool
  {
    if |pool| < 2 || NothingKnown(pool, now) then pool
    else SortedByDeadline(pool, now)
  }

  /** The ordering only permutes, and it puts nothing in front of a sooner deadline. */
  lemma OrderIsSorted(pool: seq<Connection>, now: int)
    ensures var o := OrderByQuotaDeadline(pool, now);
      && |o| == |pool|
      && (forall i :: 0 <= i < |o| ==> o[i] in pool && pool[i] in o)
      && Soonest(o, now)
  {
    hide SortedByDeadline, Soonest, NothingKnown;
    if |pool| >= 2 && !NothingKnown(pool, now) {
      SortedIsSorted(pool, now);
    } else {
      SingleOrUnknown(pool, now);
    }
  }

  lemma SortedIsSorted(pool: seq<Connection>, now: int)
    ensures var o := SortedByDeadline(pool, now);
      && (forall i :: 0 <= i < |pool| ==> pool[i] in o)
      && Soonest(o, now)
  {
    hide StableSort, Soonest, Items, DeadlineRanks;
    SortedDeadlines(pool, now);
  }

  lemma SingleOrUnknown(pool: seq<Connection>, now: int)
    requires |pool| < 2 || NothingKnown(pool, now)
    ensures Soonest(pool, now)
  {
  }

  lemma SortedDeadlines(pool: seq<Connection>, now: int)
    ensures var o := Items(StableSort(DeadlineRanks(pool, now)));
      && |o| == |pool|
      && (forall i :: 0 <= i < |o| ==> o[i] in pool && pool[i] in o)
      && Soonest(o, now)
  {
    hide StableSort, Items, DeadlineRanks, EffectiveDeadline;
    var ranks := DeadlineRanks(pool, now);
    var sorted := StableSort(ranks);
    SortIsStable(ranks);
    SortKeepsMembers(ranks);
    forall i | 0 <= i < |sorted| ensures sorted[i] == DeadlineRank(sorted[i].item, now) && sorted[i].item in pool {
      RankedFrom(pool, now, sorted[i]);
    }
    forall j | 0 <= j < |pool| ensures pool[j] in Items(sorted) {
      var i :| 0 <= i < |sorted| && sorted[i] == ranks[j];
      assert Items(sorted)[i] == pool[j];
    }
  }

  lemma RankedFrom(pool: seq<Connection>, now: int, r: Ranked<Connection>)
    requires r in DeadlineRanks(pool, now)
    ensures r == DeadlineRank(r.item, now) && r.item in pool
  {
    var j :| 0 <= j < |pool| && DeadlineRanks(pool, now)[j] == r;
  }

  predicate IsUrgent(deadline: int, now: int) { deadline - now <= URGENT_WINDOW }

  ghost predicate Shares(c: Connection, lead: int, now: int)
    reads c
  {
    EffectiveDeadline(c, now).Some? && EffectiveDeadline(c, now).value - lead <= GROUP_SLACK
  }

  ghost function Sharers(s: seq<Connection>, lead: int, now: int): seq<Connection>
    reads s
  {
    if s == [] then []
    else
      var rest, last := Sharers(s[..|s| - 1], lead, now), s[|s| - 1];
      if Shares(last, lead, now) then rest + [last] else rest
  }

  /** The accounts to rotate among: those whose deadline is about that of an urgent lead, else all. */
  ghost function Group(ordered: seq<Connection>, now: int): seq<Connection>
    reads ordered
  {
    if ordered == [] then []
    else
      var lead := EffectiveDeadline(ordered[0], now);
      if lead.None? || !IsUrgent(lead.value, now) then ordered else Sharers(ordered, lead.value, now)
  }

  lemma {:induction false} SharersArePrefix(s: seq<Connection>, lead: int, now: int, end: nat)
    requires end <= |s|
    requires forall i :: 0 <= i < end ==> Shares(s[i], lead, now)
    requires forall i :: end <= i < |s| ==> !Shares(s[i], lead, now)
    ensures Sharers(s, lead, now) == s[..end]
  {
    hide Shares;
    if s != [] {
      var n := |s| - 1;
      SharersArePrefix(s[..n], lead, now, if end <= n then end else n);
      if end == |s| {
        assert s[..end] == s[..n] + [s[n]];
        assert s[..n][..n] == s[..n];
      } else {
        assert s[..n][..end] == s[..end];
      }
    }
  }

  /** On accounts ordered by deadline the run the loop cuts off is the whole group. */
  method UrgentGroup(ordered: seq<Connection>, now: int) returns (group: seq<Connection>)
    requires Soonest(ordered, now)
    ensures group == Group(ordered, now) && group <= ordered
    ensures group == [] <==> ordered == []
  {
    if |ordered| == 0 {
      return [];
    }
    var lead := EffectiveDeadline(ordered[0], now);
    if lead.None? || !IsUrgent(lead.value, now) {
      return ordered;
    }
    var end := 1;
    while end < |ordered|
      invariant 1 <= end <= |ordered|
      invariant forall i :: 0 <= i < end ==> Shares(ordered[i], lead.value, now)
    {
      var d := EffectiveDeadline(ordered[end], now);
      if d.None? || d.value - lead.value > GROUP_SLACK {
        break;
      }
      end := end + 1;
    }
    group := ordered[..end];
    forall i | end <= i < |ordered| ensures !Shares(ordered[i], lead.value, now) {
      assert i > end ==> !Before(DeadlineRank(ordered[i], now), DeadlineRank(ordered[end], now));
    }
    SharersArePrefix(ordered, lead.value, now, end);
  }

  function Decimal(n: int): string
    decreases if n < 0 then 1 - n else n
  {
    if n < 0 then "-" + Decimal(-n)
    else if n < 10 then [('0' as int + n) as char]
    else Decimal(n / 10) + [('0' as int + n % 10) as char]
  }

  function RotationKey(c: Connection): string { c.provider + "|" + Decimal(c.priority) }

  /** r is what a pool offers next, and position is where that leaves the rotation. */
  ghost predicate Picks(pool: seq<Connection>, now: int, before: map<string, nat>, r: Connection?, position: map<string, nat>)
    reads pool
  {
    if |pool| <= 1 then r == (if pool == [] then null else pool[0]) && position == before
    else
      var ordered := OrderByQuotaDeadline(pool, now);
      var group := Group(ordered, now);
      && ordered != [] && group != []
      && r == group[Rotation.SlotAt(before, RotationKey(ordered[0]), |group|)]
      && position == Rotation.Moved(before, RotationKey(ordered[0]), |group|)
  }

  lemma PicksSlot(pool: seq<Connection>, now: int, before: map<string, nat>, ordered: seq<Connection>, group: seq<Connection>)
    requires |pool| > 1 && ordered == OrderByQuotaDeadline(pool, now) && group == Group(ordered, now) && group != []
    ensures var key := RotationKey(ordered[0]);
      Picks(pool, now, before, group[Rotation.SlotAt(before, key, |group|)], Rotation.Moved(before, key, |group|))
  {
    hide OrderByQuotaDeadline, Group, RotationKey;
  }

  lemma PicksNothing(now: int, position: map<string, nat>)
    ensures Picks([], now, position, null, position)
  {
  }

  lemma PicksOnly(pool: seq<Connection>, now: int, position: map<string, nat>)
    requires |pool| == 1
    ensures Picks(pool, now, position, pool[0], position)
  {
  }

  method PickFromPool(pool: seq<Connection>, now: int, rotator: Rotation.CredentialRotator) returns (r: Connection?)
    modifies rotator
    ensures Picks(pool, now, old(rotator.position), r, rotator.position)
    ensures r == null <==> pool == []
    ensures r != null ==> r in pool
  {
    hide Picks, OrderByQuotaDeadline, Soonest, Group, Decimal, Rotation.SlotAt, Rotation.Moved;
    if |pool| == 0 {
      PicksNothing(now, rotator.position);
      return null;
    }
    if |pool| == 1 {
      PicksOnly(pool, now, rotator.position);
      return pool[0];
    }
    OrderIsSorted(pool, now);
    var ordered := OrderByQuotaDeadline(pool, now);
    var group := UrgentGroup(ordered, now);
    PicksSlot(pool, now, rotator.position, ordered, group);
    var key := ordered[0].provider + "|" + Decimal(ordered[0].priority);
    var slot := rotator.Next(key, |group|);
    r := group[slot];
    assert r == ordered[slot];
  }

  // ---------------------------------------------------------------- sticky selection

  method SelectCredentialWithQuota(conns: seq<Connection>, modelName: string, excluded: set<string>,
                                   quota: QuotaChecker, now: int, rotator: Rotation.CredentialRotator)
    returns (r: Connection?)
    modifies rotator
    ensures Picks(Pool(conns, modelName, excluded, quota, now), now, old(rotator.position), r, rotator.position)
    ensures r == null <==> Pool(conns, modelName, excluded, quota, now) == []
    ensures r != null ==> r in Pool(conns, modelName, excluded, quota, now)
  {
    hide Pool, Picks;
    var pool := EligiblePool(conns, modelName, excluded, quota, now);
    r := PickFromPool(pool, now, rotator);
  }

  /** The session has a live binding to an account of the pool. */
  ghost predicate BoundIn(pool: seq<Connection>, table: Table, sessionKey: string, now: int) {
    sessionKey != "" && pool != [] &&
    var bound := Looked(table, pool[0].provider + "|" + sessionKey, now).1;
    bound.Some? && exists c :: c in pool && c.id == bound.value
  }

  method SelectCredentialSticky(conns: seq<Connection>, modelName: string, excluded: set<string>,
                                quota: QuotaChecker, sessionKey: string, now: int,
                                affinity: Affinity, rotator: Rotation.CredentialRotator) returns (r: Connection?)
    modifies affinity, rotator
    ensures r == null <==> Pool(conns, modelName, excluded, quota, now) == []
    ensures r != null ==> r in Pool(conns, modelName, excluded, quota, now)
    ensures sessionKey == "" || r == null ==> affinity.entries == old(affinity.entries)
    ensures var pool := Pool(conns, modelName, excluded, quota, now);
      if BoundIn(pool, old(affinity.entries), sessionKey, now) then rotator.position == old(rotator.position)
      else Picks(pool, now, old(rotator.position), r, rotator.position)
    ensures sessionKey != "" && r != null ==>
      var pool := Pool(conns, modelName, excluded, quota, now);
      TurnStep(old(affinity.entries),
               Turn(pool[0].provider + "|" + sessionKey, now, set c | c in pool :: c.id, r.id),
               affinity.entries)
  {
    hide Pool, FairEviction, Picks;
    if sessionKey == "" {
      r := SelectCredentialWithQuota(conns, modelName, excluded, quota, now, rotator);
      return;
    }
    var pool := EligiblePool(conns, modelName, excluded, quota, now);
    if |pool| == 0 {
      PicksNothing(now, rotator.position);
      return null;
    }
    var key := pool[0].provider + "|" + sessionKey;
    ghost var ids := set c | c in pool :: c.id;
    var bound := affinity.Get(key, now);
    if bound.Some? {
      for i := 0 to |pool|
        invariant forall j :: 0 <= j < i ==> pool[j].id != bound.value
      {
        if pool[i].id == bound.value {
          return pool[i];
        }
      }
    }
    assert !BoundIn(pool, old(affinity.entries), sessionKey, now);
    var chosen := PickFromPool(pool, now, rotator);
    affinity.Bind(key, chosen.id, now);
    r := chosen;
  }
}
