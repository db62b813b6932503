/**
 * The rules behind account selection and failover in plain terms: when an account may serve, who is in
 * the pool and in the group to rotate among, and what each upstream error means for the account
 * (internal/provider/fallback.go and quota_deadline.go).
 */
module AccountRules {
  import opened Wrappers
  import opened Credentials
  import opened Failover
  import opened StableOrder
  import opened TextSearch

  // ---------------------------------------------------------------- who may serve

  /** The instant of a text field that names one still to come. */
  predicate Pending(s: Stamp, now: int) { s.At? && now < s.instant }

  predicate Locked(locks: map<string, Stamp>, modelName: string, now: int) {
    || ("modelLock_" + modelName in locks && Pending(locks["modelLock_" + modelName], now))
    || ("modelLock___all" in locks && Pending(locks["modelLock___all"], now))
  }

  predicate OverQuota(id: string, limit: int, period: string, quota: QuotaChecker) {
    limit > 0 && quota.Some? && limit <= (if period == "" then quota.value(id, "daily") else quota.value(id, period))
  }

  /** Five things bar an account, and nothing else does. */
  lemma BarredIff(id: string, s: Standing, modelName: string, excluded: set<string>, quota: QuotaChecker, now: int)
    ensures !EligibleAs(id, s, modelName, excluded, quota, now) <==>
              || id in excluded
              || !s.isActive
              || Pending(s.rateLimitedUntil, now)
              || (modelName != "" && Locked(s.locks, modelName, now))
              || OverQuota(id, s.quotaLimit, s.quotaPeriod, quota)
  {
  }

  predicate MayServe(c: Connection, modelName: string, excluded: set<string>, quota: QuotaChecker, now: int)
    reads c
  {
    && c.id !in excluded && c.isActive && !Pending(c.rateLimitedUntil, now)
    && (modelName != "" ==> !Locked(c.locks, modelName, now))
    && !OverQuota(c.id, c.quotaLimit, c.quotaPeriod, quota)
  }

  predicate HasToken(c: Connection) { c.authType in {"oauth", "access_token"} }

  /** It may serve, and none that may has a token where it has none, or a lower number on its own side. */
  ghost predicate Leads(c: Connection, conns: seq<Connection>, modelName: string, excluded: set<string>, quota: QuotaChecker, now: int)
    reads c, conns
  {
    && MayServe(c, modelName, excluded, quota, now)
    && forall d :: d in conns && MayServe(d, modelName, excluded, quota, now) ==>
         && (HasToken(d) ==> HasToken(c))
         && (HasToken(d) == HasToken(c) ==> c.priority <= d.priority)
  }

  /** The pool: those that lead, in the caller's order. */
  ghost function Leaders(s: seq<Connection>, conns: seq<Connection>, modelName: string, excluded: set<string>, quota: QuotaChecker, now: int)
    : seq<Connection>
    reads s, conns
  {
    if s == [] then []
    else
      var rest, last := Leaders(s[..|s| - 1], conns, modelName, excluded, quota, now), s[|s| - 1];
      if Leads(last, conns, modelName, excluded, quota, now) then rest + [last] else rest
  }

  lemma EligibleMeans(c: Connection, modelName: string, excluded: set<string>, quota: QuotaChecker, now: int)
    ensures ConnEligible(c, modelName, excluded, quota, now) <==> MayServe(c, modelName, excluded, quota, now)
  {
    BarredIff(c.id, StandingOf(c), modelName, excluded, quota, now);
  }

  lemma BestMeansLeads(c: Connection, conns: seq<Connection>, modelName: string, excluded: set<string>, quota: QuotaChecker, now: int)
    requires MayServe(c, modelName, excluded, quota, now)
    ensures Best(c, Eligible(conns, modelName, excluded, quota, now)) <==> Leads(c, conns, modelName, excluded, quota, now)
  {
    hide MayServe, ConnEligible;
    var e := Eligible(conns, modelName, excluded, quota, now);
    forall d ensures d in e <==> d in conns && MayServe(d, modelName, excluded, quota, now) {
      EligibleMeans(d, modelName, excluded, quota, now);
    }
    if Best(c, e) {
      forall d | d in conns && MayServe(d, modelName, excluded, quota, now) ensures !Better(d, c) { assert d in e; }
    }
  }

  lemma PoolIsLeaders(conns: seq<Connection>, modelName: string, excluded: set<string>, quota: QuotaChecker, now: int)
    ensures Pool(conns, modelName, excluded, quota, now) == Leaders(conns, conns, modelName, excluded, quota, now)
  {
    LeadersOf(conns, conns, modelName, excluded, quota, now);
  }

  lemma {:induction false} LeadersOf(s: seq<Connection>, conns: seq<Connection>, modelName: string, excluded: set<string>,
                                     quota: QuotaChecker, now: int)
    ensures Unbeaten(Eligible(s, modelName, excluded, quota, now), Eligible(conns, modelName, excluded, quota, now))
         == Leaders(s, conns, modelName, excluded, quota, now)
  {
    hide Best, Leads, MayServe, ConnEligible;
    if s != [] {
      var front, last := s[..|s| - 1], s[|s| - 1];
      LeadersOf(front, conns, modelName, excluded, quota, now);
      EligibleMeans(last, modelName, excluded, quota, now);
      var e := Eligible(front, modelName, excluded, quota, now);
      if MayServe(last, modelName, excluded, quota, now) {
        BestMeansLeads(last, conns, modelName, excluded, quota, now);
        assert (e + [last])[..|e + [last]| - 1] == e;
      } else {
        OnlyServersLead(last, conns, modelName, excluded, quota, now);
      }
    }
  }

  lemma OnlyServersLead(c: Connection, conns: seq<Connection>, modelName: string, excluded: set<string>, quota: QuotaChecker, now: int)
    ensures Leads(c, conns, modelName, excluded, quota, now) ==> MayServe(c, modelName, excluded, quota, now)
  {
  }

  // ---------------------------------------------------------------- the group to rotate among

  /** Within 48 hours of its deadline an account pulls those within 24 hours of it along; else all rotate. */
  lemma GroupMeans(ordered: seq<Connection>, now: int, c: Connection)
    requires ordered != []
    ensures var lead := ordered[0].deadline;
      c in Group(ordered, now) <==>
        && c in ordered
        && (Pending(lead, now) && lead.instant <= now + 172_800_000_000_000 ==>
              Pending(c.deadline, now) && c.deadline.instant <= lead.instant + 86_400_000_000_000)
  {
    hide Shares, Sharers;
    var lead := EffectiveDeadline(ordered[0], now);
    if lead.Some? {
      SharerMeans(ordered, lead.value, now, c);
      ShareMeans(c, lead.value, now);
    }
  }

  lemma ShareMeans(c: Connection, lead: int, now: int)
    ensures Shares(c, lead, now) <==> Pending(c.deadline, now) && c.deadline.instant <= lead + 86_400_000_000_000
  {
  }

  lemma {:induction false} SharerMeans(s: seq<Connection>, lead: int, now: int, c: Connection)
    ensures c in Sharers(s, lead, now) <==> c in s && Shares(c, lead, now)
  {
    hide Shares;
    if s != [] { SharerMeans(s[..|s| - 1], lead, now, c); }
  }

  /** Nothing stands in front of a deadline still to come but sooner or equal ones. */
  lemma OrderMeans(pool: seq<Connection>, now: int, i: nat, j: nat)
    requires i < j < |pool|
    ensures var o := OrderByQuotaDeadline(pool, now);
      |o| == |pool| && (Pending(o[j].deadline, now) ==>
        Pending(o[i].deadline, now) && o[i].deadline.instant <= o[j].deadline.instant)
  {
    hide OrderByQuotaDeadline;
    OrderIsSorted(pool, now);
    var o := OrderByQuotaDeadline(pool, now);
    assert !Before(DeadlineRank(o[j], now), DeadlineRank(o[i], now));
  }

  /** One of several accounts is the next in turn of its group, under the provider and priority of the pool's first. */
  lemma PickTakesTurn(pool: seq<Connection>, now: int, before: map<string, nat>, r: Connection?, after: map<string, nat>)
    requires Picks(pool, now, before, r, after) && |pool| > 1
    ensures var o := OrderByQuotaDeadline(pool, now);
      var g, key := Group(o, now), o[0].provider + "|" + Decimal(o[0].priority);
      var turn := if key in before then before[key] else 0;
      && g != [] && r == g[if |g| > 1 then turn % |g| else 0]
      && after == if |g| > 1 then before[key := turn + 1] else before
  {
    hide OrderByQuotaDeadline, Group, Decimal;
  }

  /** It spends the credits that expire first: no account of the pool has an urgent deadline a day before its own. */
  lemma PickIsUrgent(pool: seq<Connection>, now: int, before: map<string, nat>, r: Connection, after: map<string, nat>, d: Connection)
    requires Picks(pool, now, before, r, after) && d in pool
    requires Pending(d.deadline, now) && d.deadline.instant <= now + 172_800_000_000_000
    ensures r in pool && Pending(r.deadline, now) && r.deadline.instant <= d.deadline.instant + 86_400_000_000_000
  {
    hide Picks, OrderByQuotaDeadline, Group, Decimal;
    if |pool| > 1 {
      PickTakesTurn(pool, now, before, r, after);
      SoonestLeads(pool, now, d);
      GroupMeans(OrderByQuotaDeadline(pool, now), now, r);
      OrderIsSorted(pool, now);
    } else {
      LonePick(pool, now, before, r, after);
    }
  }

  lemma LonePick(pool: seq<Connection>, now: int, before: map<string, nat>, r: Connection, after: map<string, nat>)
    requires Picks(pool, now, before, r, after) && |pool| == 1
    ensures pool[0] == r
  {
    hide OrderByQuotaDeadline, Group, Decimal;
  }

  lemma SoonestLeads(pool: seq<Connection>, now: int, d: Connection)
    requires d in pool && Pending(d.deadline, now)
    ensures var o := OrderByQuotaDeadline(pool, now);
      o != [] && Pending(o[0].deadline, now) && o[0].deadline.instant <= d.deadline.instant
  {
    hide OrderByQuotaDeadline, Soonest;
    OrderIsSorted(pool, now);
    var o := OrderByQuotaDeadline(pool, now);
    var i :| 0 <= i < |pool| && pool[i] == d;
    var j :| 0 <= j < |o| && o[j] == d;
    if j > 0 { OrderMeans(pool, now, 0, j); }
  }

  /** The number a decimal text stands for. */
  function Reading(digits: string): int
    requires digits != "" && forall i :: 0 <= i < |digits| ==> '0' <= digits[i] <= '9'
  {
    var last := digits[|digits| - 1] as int - '0' as int;
    if |digits| == 1 then last else 10 * Reading(digits[..|digits| - 1]) + last
  }

  /** Rotation keys tell priorities apart: the text of a number reads back as that number. */
  lemma {:induction false} DecimalReadsBack(n: nat)
    ensures var d := Decimal(n);
      d != "" && (forall i :: 0 <= i < |d| ==> '0' <= d[i] <= '9') && Reading(d) == n
  {
    if n >= 10 {
      DecimalReadsBack(n / 10);
      var d := Decimal(n);
      assert d[..|d| - 1] == Decimal(n / 10);
    }
  }

  lemma KeysTellPriorities(provider: string, a: int, b: int)
    requires provider + "|" + Decimal(a) == provider + "|" + Decimal(b)
    ensures a == b
  {
    var front := provider + "|";
    assert (front + Decimal(a))[|front|..] == Decimal(a);
    assert (front + Decimal(b))[|front|..] == Decimal(b);
    DecimalReadsBack(if a < 0 then -a else a);
    DecimalReadsBack(if b < 0 then -b else b);
    if a < 0 { assert ("-" + Decimal(-a))[1..] == Decimal(-a) && Decimal(a)[0] == '-'; }
    if b < 0 { assert ("-" + Decimal(-b))[1..] == Decimal(-b) && Decimal(b)[0] == '-'; }
  }

  // ---------------------------------------------------------------- what an error means

  /** Backoff: the level grows by one up to 15; the wait is two seconds at level one and doubles up to five minutes. */
  ghost predicate BacksOff(r: FallbackResult, level: int) {
    && r.shouldFallback
    && r.newBackoffLevel == (if level < 15 then level + 1 else 15)
    && r.cooldown == QuotaCooldown(r.newBackoffLevel)
  }

  lemma BackoffDoubles(level: int)
    ensures level <= 1 ==> QuotaCooldown(level) == 2_000_000_000
    ensures level >= 1 ==>
      QuotaCooldown(level + 1) == if 2 * QuotaCooldown(level) < 300_000_000_000 then 2 * QuotaCooldown(level) else 300_000_000_000
  {
    if level >= 1 { Pow2Grows(0, level - 1); }
  }

  predicate Cools(r: FallbackResult, cooldown: int) { r == FallbackResult(true, cooldown, 0) }

  predicate Stays(r: FallbackResult) { r == FallbackResult(false, 0, 0) }

  ghost predicate MentionsAny(text: string, markers: seq<string>) {
    exists i :: 0 <= i < |markers| && Mentions(text, markers[i])
  }

  const REFUSED := ["improperly formed request", "freetiererror", "only be used from within opencode"]
  const EXHAUSTED := ["resource_exhausted", "resource exhausted", "has been exhausted", "ratelimitexceeded",
                      "rate_limit_exceeded", "quota exceeded", "usage limit", "insufficient credit",
                      "insufficient balance", "daily limit", "weekly limit", "5-hour limit"]
  const BUSY := ["rate limit", "too many requests", "capacity", "overloaded"]

  /** The whole decision: the text first, whatever the status, then the status. */
  lemma ErrorDecision(status: int, text: string, level: int)
    ensures var r := CheckFallbackError(status, text, level);
      if Mentions(text, "no credentials") then Cools(r, 120_000_000_000)
      else if Mentions(text, "request not allowed") then Cools(r, 5_000_000_000)
      else if MentionsAny(text, REFUSED) then Stays(r)
      else if MentionsAny(text, EXHAUSTED) then Cools(r, 900_000_000_000)
      else if MentionsAny(text, BUSY) then BacksOff(r, level)
      else if status == 429 then BacksOff(r, level)
      else if status in {401, 402, 403} then Cools(r, 120_000_000_000)
      else if 400 <= status < 500 then Stays(r)
      else Cools(r, 30_000_000_000)
  {
    hide Mentions, MentionsAny, FirstRule, ErrorRules, Lowered, QuotaCooldown;
    TextRules(text, status);
    StatusRules(Lowered(text), status);
  }

  /** Which replies send the walk on to another account, and what it reports if that was the last one. */
  lemma ReplyDecides(reply: Reply)
    ensures Retryable(reply) <==>
              || reply.Unreachable?
              || (reply.Special? && reply.retryable)
              || (reply.UpstreamError? && !Stays(CheckFallbackError(reply.status, reply.body, 0)))
    ensures reply.Unreachable? ==> StatusOf(reply) == (502, "upstream request failed: " + reply.error)
    ensures reply.UpstreamError? ==> StatusOf(reply) == (reply.status, reply.body)
    ensures reply.Special? || reply.Served? || reply.Terminal? ==> StatusOf(reply).0 == 0
  {
    hide CheckFallbackError;
    if reply.UpstreamError? { FallbackMeansCooldown(reply.status, reply.body, 0); }
  }

  function Head(): seq<ErrorRule> {
    Statuses([400, 404, 422], 0, false) + Texts(["no credentials"], COOLDOWN_LONG, false)
    + Texts(["request not allowed"], COOLDOWN_SHORT, false) + Texts(REFUSED, 0, false)
  }

  lemma TableSplits()
    ensures ErrorRules() == Head() + Texts(EXHAUSTED, COOLDOWN_QUOTA, false) + Texts(BUSY, 0, true)
                          + Statuses([401, 402, 403], COOLDOWN_LONG, false) + Statuses([429], 0, true)
  {
    hide Texts, Statuses;
  }

  lemma HeadRules(text: string, status: int)
    ensures var r := FirstRule(Head(), Lowered(text), status, true);
      if Mentions(text, "no credentials") then Says(r, 120_000_000_000, false)
      else if Mentions(text, "request not allowed") then Says(r, 5_000_000_000, false)
      else if MentionsAny(text, REFUSED) then Says(r, 0, false)
      else r.None?
  {
    hide FirstRule, Texts, Statuses, Mentions, MentionsAny, Lowered;
    var l := Lowered(text);
    var r1 := Statuses([400, 404, 422], 0, false);
    var r2 := r1 + Texts(["no credentials"], COOLDOWN_LONG, false);
    var r3 := r2 + Texts(["request not allowed"], COOLDOWN_SHORT, false);
    StatusesHaveNoText([400, 404, 422], 0, false, l, status);
    OneText(text, "no credentials", COOLDOWN_LONG, status);
    FirstRuleConcat(r1, Texts(["no credentials"], COOLDOWN_LONG, false), l, status, true);
    OneText(text, "request not allowed", COOLDOWN_SHORT, status);
    FirstRuleConcat(r2, Texts(["request not allowed"], COOLDOWN_SHORT, false), l, status, true);
    TextIsListed(REFUSED, 0, false, text, status);
    FirstRuleConcat(r3, Texts(REFUSED, 0, false), l, status, true);
  }

  /** What the text part of the table says. */
  lemma TextRules(text: string, status: int)
    ensures var r := FirstRule(ErrorRules(), Lowered(text), status, true);
      if Mentions(text, "no credentials") then Says(r, 120_000_000_000, false)
      else if Mentions(text, "request not allowed") then Says(r, 5_000_000_000, false)
      else if MentionsAny(text, REFUSED) then Says(r, 0, false)
      else if MentionsAny(text, EXHAUSTED) then Says(r, 900_000_000_000, false)
      else if MentionsAny(text, BUSY) then Says(r, 0, true)
      else r.None?
  {
    hide FirstRule, Texts, Statuses, Mentions, MentionsAny, Lowered, Head, ErrorRules;
    var l := Lowered(text);
    var r5 := Head() + Texts(EXHAUSTED, COOLDOWN_QUOTA, false);
    var r6 := r5 + Texts(BUSY, 0, true);
    var r7 := r6 + Statuses([401, 402, 403], COOLDOWN_LONG, false);
    TableSplits();
    HeadRules(text, status);
    TextIsListed(EXHAUSTED, COOLDOWN_QUOTA, false, text, status);
    FirstRuleConcat(Head(), Texts(EXHAUSTED, COOLDOWN_QUOTA, false), l, status, true);
    TextIsListed(BUSY, 0, true, text, status);
    FirstRuleConcat(r5, Texts(BUSY, 0, true), l, status, true);
    StatusesHaveNoText([401, 402, 403], COOLDOWN_LONG, false, l, status);
    FirstRuleConcat(r6, Statuses([401, 402, 403], COOLDOWN_LONG, false), l, status, true);
    StatusesHaveNoText([429], 0, true, l, status);
    FirstRuleConcat(r7, Statuses([429], 0, true), l, status, true);
  }

  predicate Says(r: Option<ErrorRule>, cooldown: int, backoff: bool) {
    r.Some? && r.value.cooldown == cooldown && r.value.backoff == backoff
  }

  lemma OneText(text: string, marker: string, cooldown: int, status: int)
    requires marker != ""
    ensures var r := FirstRule(Texts([marker], cooldown, false), Lowered(text), status, true);
      if Mentions(text, marker) then Says(r, cooldown, false) else r.None?
  {
    hide FirstRule, Mentions, Lowered;
    TextIsListed([marker], cooldown, false, text, status);
    assert MentionsAny(text, [marker]) <==> Mentions(text, [marker][0]);
  }

  lemma {:induction false} StatusesHaveNoText(codes: seq<int>, cooldown: int, backoff: bool, lowered: string, status: int)
    ensures FirstRule(Statuses(codes, cooldown, backoff), lowered, status, true).None?
  {
    if codes != [] {
      assert Statuses(codes, cooldown, backoff)[1..] == Statuses(codes[1..], cooldown, backoff);
      StatusesHaveNoText(codes[1..], cooldown, backoff, lowered, status);
    }
  }

  lemma {:induction false} TextIsListed(markers: seq<string>, cooldown: int, backoff: bool, text: string, status: int)
    requires "" !in markers
    ensures var r := FirstRule(Texts(markers, cooldown, backoff), Lowered(text), status, true);
      if MentionsAny(text, markers) then Says(r, cooldown, backoff) else r.None?
  {
    hide Mentions, Lowered, Contains;
    if markers != [] {
      assert Texts(markers, cooldown, backoff)[1..] == Texts(markers[1..], cooldown, backoff);
      assert forall i :: 0 <= i < |markers| - 1 ==> markers[1..][i] == markers[i + 1];
      TextIsListed(markers[1..], cooldown, backoff, text, status);
      ContainsMeansMentions(text, markers[0]);
      AnyOfMore(text, markers);
    }
  }

  lemma AnyOfMore(text: string, markers: seq<string>)
    requires markers != []
    ensures MentionsAny(text, markers) <==> Mentions(text, markers[0]) || MentionsAny(text, markers[1..])
  {
    hide Mentions;
    if i :| 0 <= i < |markers| && Mentions(text, markers[i]) {
      if i > 0 { assert markers[1..][i - 1] == markers[i]; }
    }
    if i :| 0 <= i < |markers[1..]| && Mentions(text, markers[1..][i]) { assert markers[i + 1] == markers[1..][i]; }
  }

  lemma ContainsMeansMentions(text: string, marker: string)
    requires marker != ""
    ensures Lowered(text) != "" && Contains(Lowered(text), marker) <==> Mentions(text, marker)
  {
    hide Contains;
    ContainsFrom(text, marker, 0);
    assert Lowered(text)[0..] == Lowered(text);
    if i {:trigger MentionsAt(text, marker, i)} :| 0 <= i <= |text| && MentionsAt(text, marker, i) { assert |text| > 0; }
  }

  /** The recursive search from position k on. */
  lemma {:induction false} ContainsFrom(text: string, marker: string, k: nat)
    requires k <= |text|
    ensures Contains(Lowered(text)[k..], marker) <==>
              exists i {:trigger MentionsAt(text, marker, i)} :: k <= i <= |text| && MentionsAt(text, marker, i)
    decreases |text| - k
  {
    var rest := Lowered(text)[k..];
    PrefixMeansMentions(text, marker, k);
    if k < |text| {
      ContainsFrom(text, marker, k + 1);
      assert rest[1..] == Lowered(text)[k + 1..];
    }
  }

  lemma PrefixMeansMentions(text: string, marker: string, k: nat)
    requires k <= |text|
    ensures marker <= Lowered(text)[k..] <==> MentionsAt(text, marker, k)
  {
    var rest := Lowered(text)[k..];
    if k + |marker| <= |text| {
      assert forall j :: 0 <= j < |marker| ==> rest[j] == Lowered(text)[k + j];
      assert forall j :: 0 <= j < |marker| ==> (rest[j] == marker[j] <==> MatchesLetter(text[k + j], marker[j]));
    }
  }
}
