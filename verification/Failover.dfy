/**
  Error classification and cooldown (internal/provider/fallback.go) and the walk over a
  provider's accounts (internal/handler/chat.go).
 */
module Failover {
  import opened Wrappers
  import opened Credentials
  import Affinities = SessionAffinity
  import Rotation

  const SECOND := 1_000_000_000
  const BACKOFF_BASE := 2 * SECOND
  const BACKOFF_MAX := 300 * SECOND
  const BACKOFF_MAX_LEVEL := 15
  const TRANSIENT_COOLDOWN := 30 * SECOND
  const COOLDOWN_LONG := 120 * SECOND
  const COOLDOWN_SHORT := 5 * SECOND
  const COOLDOWN_QUOTA := 900 * SECOND

  // ---------------------------------------------------------------- classification

  datatype ErrorRule =
    | TextRule(text: string, cooldown: int, backoff: bool)
    | StatusRule(status: int, cooldown: int, backoff: bool)

  function Texts(texts: seq<string>, cooldown: int, backoff: bool): (r: seq<ErrorRule>)
    ensures forall rule :: rule in r ==> rule.TextRule? && rule.cooldown == cooldown && rule.backoff == backoff
  {
    if texts == [] then [] else [TextRule(texts[0], cooldown, backoff)] + Texts(texts[1..], cooldown, backoff)
  }

  function Statuses(codes: seq<int>, cooldown: int, backoff: bool): (r: seq<ErrorRule>)
    ensures forall rule :: rule in r ==> rule.StatusRule? && rule.cooldown == cooldown && rule.backoff == backoff
  {
    if codes == [] then [] else [StatusRule(codes[0], cooldown, backoff)] + Statuses(codes[1..], cooldown, backoff)
  }

  /** The table, top to bottom. */
  function ErrorRules(): seq<ErrorRule> {
    Statuses([400, 404, 422], 0, false)
    + Texts(["no credentials"], COOLDOWN_LONG, false)
    + Texts(["request not allowed"], COOLDOWN_SHORT, false)
    + Texts(["improperly formed request", "freetiererror", "only be used from within opencode"], 0, false)
    + Texts(["resource_exhausted", "resource exhausted", "has been exhausted", "ratelimitexceeded",
             "rate_limit_exceeded", "quota exceeded", "usage limit", "insufficient credit",
             "insufficient balance", "daily limit", "weekly limit", "5-hour limit"], COOLDOWN_QUOTA, false)
    + Texts(["rate limit", "too many requests", "capacity", "overloaded"], 0, true)
    + Statuses([401, 402, 403], COOLDOWN_LONG, false)
    + Statuses([429], 0, true)
  }

  function Lowered(s: string): (r: string)
    ensures |r| == |s|
  {
    seq(|s|, i requires 0 <= i < |s| => if 'A' <= s[i] <= 'Z' then s[i] - 'A' + 'a' else s[i])
  }

  predicate Contains(s: string, sub: string) {
    sub <= s || (s != [] && Contains(s[1..], sub))
  }

  predicate Applies(rule: ErrorRule, lowered: string, status: int, byText: bool) {
    match rule
    case TextRule(text, _, _) => byText && lowered != "" && Contains(lowered, text)
    case StatusRule(code, _, _) => !byText && code == status
  }

  /** The first rule of one kind that applies, from the top of the table. */
  function FirstRule(rules: seq<ErrorRule>, lowered: string, status: int, byText: bool): Option<ErrorRule> {
    if rules == [] then None
    else if Applies(rules[0], lowered, status, byText) then Some(rules[0])
    else FirstRule(rules[1..], lowered, status, byText)
  }

  datatype FallbackResult = FallbackResult(shouldFallback: bool, cooldown: int, newBackoffLevel: int)

  function Min(a: int, b: int): int { if a < b then a else b }

  function ByRule(rule: ErrorRule, level: int): FallbackResult {
    if rule.backoff then
      var newLevel := Min(level + 1, BACKOFF_MAX_LEVEL);
      FallbackResult(true, QuotaCooldown(newLevel), newLevel)
    else FallbackResult(rule.cooldown != 0, rule.cooldown, 0)
  }

  predicate RequestScoped(status: int) {
    400 <= status < 500 && status !in {401, 402, 403, 429}
  }

  /** Text rules first, then status rules, then other client errors, then everything else. */
  function CheckFallbackError(status: int, text: string, level: int): FallbackResult {
    var lowered := Lowered(text);
    match FirstRule(ErrorRules(), lowered, status, true)
    case Some(rule) => ByRule(rule, level)
    case None =>
      match FirstRule(ErrorRules(), lowered, status, false)
      case Some(rule) => ByRule(rule, level)
      case None =>
        if RequestScoped(status) then FallbackResult(false, 0, 0)
        else FallbackResult(true, TRANSIENT_COOLDOWN, 0)
  }

  // ---------------------------------------------------------------- backoff

  function Pow2(n: nat): nat { if n == 0 then 1 else 2 * Pow2(n - 1) }

  /** min(2s * 2^max(level - 1, 0), 5min) */
  function QuotaCooldown(level: int): int {
    Min(BACKOFF_BASE * Pow2(if level - 1 > 0 then level - 1 else 0), BACKOFF_MAX)
  }

  lemma {:induction false} Pow2Grows(a: nat, b: nat)
    requires a <= b
    ensures 1 <= Pow2(a) <= Pow2(b)
    decreases b
  {
    if a < b { Pow2Grows(a, b - 1); } else if b > 0 { Pow2Grows(a - 1, b - 1); }
  }

  method GetQuotaCooldown(level: int) returns (cooldown: int)
    ensures cooldown == QuotaCooldown(level)
    ensures BACKOFF_BASE <= cooldown <= BACKOFF_MAX
  {
    var steps := if level - 1 > 0 then level - 1 else 0;
    cooldown := BACKOFF_BASE;
    for i := 0 to steps
      invariant cooldown == BACKOFF_BASE * Pow2(i) && BACKOFF_BASE <= cooldown < BACKOFF_MAX
    {
      cooldown := cooldown * 2;
      if cooldown >= BACKOFF_MAX {
        Pow2Grows(i + 1, steps);
        return BACKOFF_MAX;
      }
    }
  }

  lemma CooldownBounds(level: int)
    ensures BACKOFF_BASE <= QuotaCooldown(level) <= BACKOFF_MAX
    ensures QuotaCooldown(level) <= QuotaCooldown(level + 1)
    ensures level >= 9 ==> QuotaCooldown(level) == BACKOFF_MAX
  {
    var n := if level - 1 > 0 then level - 1 else 0;
    Pow2Grows(0, n);
    Pow2Grows(n, if level > 0 then level else 0);
    if level >= 9 {
      Pow2Grows(8, n);
      assert Pow2(8) == 256 by { assert Pow2(4) == 16; }
    }
  }

  // ---------------------------------------------------------------- what a rule can say

  predicate Sensible(rule: ErrorRule) { rule.cooldown == 0 || rule.cooldown >= COOLDOWN_SHORT }

  lemma RulesAreSensible()
    ensures forall r :: r in ErrorRules() ==> Sensible(r)
  {
    hide Texts, Statuses;
  }

  lemma {:induction false} FirstRuleIsInTable(rules: seq<ErrorRule>, lowered: string, status: int, byText: bool)
    ensures var r := FirstRule(rules, lowered, status, byText);
      r.Some? ==> r.value in rules && Applies(r.value, lowered, status, byText)
  {
    if rules != [] { FirstRuleIsInTable(rules[1..], lowered, status, byText); }
  }

  /** Falling back always means cooling down, for at least two seconds, and vice versa. */
  lemma FallbackMeansCooldown(status: int, text: string, level: int)
    ensures var r := CheckFallbackError(status, text, level);
      && (r.shouldFallback ==> r.cooldown >= BACKOFF_BASE)
      && (!r.shouldFallback ==> r.cooldown == 0 && r.newBackoffLevel == 0)
      && r.newBackoffLevel <= BACKOFF_MAX_LEVEL
      && (r.newBackoffLevel != 0 ==> r.cooldown == QuotaCooldown(r.newBackoffLevel))
      && r.shouldFallback == CheckFallbackError(status, text, 0).shouldFallback
  {
    hide FirstRule, QuotaCooldown, Lowered, Applies, ErrorRules;
    var lowered := Lowered(text);
    RulesAreSensible();
    FirstRuleIsInTable(ErrorRules(), lowered, status, true);
    FirstRuleIsInTable(ErrorRules(), lowered, status, false);
    CooldownBounds(Min(level + 1, BACKOFF_MAX_LEVEL));
  }

  lemma {:induction false} FirstRuleConcat(a: seq<ErrorRule>, b: seq<ErrorRule>, lowered: string, status: int, byText: bool)
    ensures FirstRule(a + b, lowered, status, byText)
         == if FirstRule(a, lowered, status, byText).Some? then FirstRule(a, lowered, status, byText)
            else FirstRule(b, lowered, status, byText)
  {
    if a == [] {
      assert a + b == b;
    } else {
      assert (a + b)[1..] == a[1..] + b;
      FirstRuleConcat(a[1..], b, lowered, status, byText);
    }
  }

  lemma {:induction false} TextsHaveNoStatus(texts: seq<string>, cooldown: int, backoff: bool, lowered: string, status: int)
    ensures FirstRule(Texts(texts, cooldown, backoff), lowered, status, false).None?
  {
    if texts != [] {
      assert Texts(texts, cooldown, backoff)[1..] == Texts(texts[1..], cooldown, backoff);
      TextsHaveNoStatus(texts[1..], cooldown, backoff, lowered, status);
    }
  }

  lemma {:induction false} StatusIsListed(codes: seq<int>, cooldown: int, backoff: bool, lowered: string, status: int)
    ensures FirstRule(Statuses(codes, cooldown, backoff), lowered, status, false)
         == if status in codes then Some(StatusRule(status, cooldown, backoff)) else None
  {
    if codes != [] {
      assert Statuses(codes, cooldown, backoff)[1..] == Statuses(codes[1..], cooldown, backoff);
      StatusIsListed(codes[1..], cooldown, backoff, lowered, status);
    }
  }

  /** What the status part of the table says, whatever the text. */
  lemma StatusRules(lowered: string, status: int)
    ensures FirstRule(ErrorRules(), lowered, status, false) ==
      if status in {400, 404, 422} then Some(StatusRule(status, 0, false))
      else if status in {401, 402, 403} then Some(StatusRule(status, COOLDOWN_LONG, false))
      else if status == 429 then Some(StatusRule(429, 0, true))
      else None
  {
    hide FirstRule, Texts, Statuses;
    var quota := ["resource_exhausted", "resource exhausted", "has been exhausted", "ratelimitexceeded",
                  "rate_limit_exceeded", "quota exceeded", "usage limit", "insufficient credit",
                  "insufficient balance", "daily limit", "weekly limit", "5-hour limit"];
    var busy := ["rate limit", "too many requests", "capacity", "overloaded"];
    var fatal := ["improperly formed request", "freetiererror", "only be used from within opencode"];
    var r1 := Statuses([400, 404, 422], 0, false);
    var r2 := r1 + Texts(["no credentials"], COOLDOWN_LONG, false);
    var r3 := r2 + Texts(["request not allowed"], COOLDOWN_SHORT, false);
    var r4 := r3 + Texts(fatal, 0, false);
    var r5 := r4 + Texts(quota, COOLDOWN_QUOTA, false);
    var r6 := r5 + Texts(busy, 0, true);
    var r7 := r6 + Statuses([401, 402, 403], COOLDOWN_LONG, false);
    StatusIsListed([400, 404, 422], 0, false, lowered, status);
    TextsHaveNoStatus(["no credentials"], COOLDOWN_LONG, false, lowered, status);
    FirstRuleConcat(r1, Texts(["no credentials"], COOLDOWN_LONG, false), lowered, status, false);
    TextsHaveNoStatus(["request not allowed"], COOLDOWN_SHORT, false, lowered, status);
    FirstRuleConcat(r2, Texts(["request not allowed"], COOLDOWN_SHORT, false), lowered, status, false);
    TextsHaveNoStatus(fatal, 0, false, lowered, status);
    FirstRuleConcat(r3, Texts(fatal, 0, false), lowered, status, false);
    TextsHaveNoStatus(quota, COOLDOWN_QUOTA, false, lowered, status);
    FirstRuleConcat(r4, Texts(quota, COOLDOWN_QUOTA, false), lowered, status, false);
    TextsHaveNoStatus(busy, 0, true, lowered, status);
    FirstRuleConcat(r5, Texts(busy, 0, true), lowered, status, false);
    StatusIsListed([401, 402, 403], COOLDOWN_LONG, false, lowered, status);
    FirstRuleConcat(r6, Statuses([401, 402, 403], COOLDOWN_LONG, false), lowered, status, false);
    StatusIsListed([429], 0, true, lowered, status);
    FirstRuleConcat(r7, Statuses([429], 0, true), lowered, status, false);
  }

  /** When no text rule matches, exactly the request-scoped client errors do not fail over. */
  lemma StatusDecides(status: int, text: string, level: int)
    requires FirstRule(ErrorRules(), Lowered(text), status, true).None?
    ensures CheckFallbackError(status, text, level).shouldFallback <==> !RequestScoped(status)
  {
    hide FirstRule, ErrorRules, QuotaCooldown;
    StatusRules(Lowered(text), status);
  }

  // ---------------------------------------------------------------- account state

  /** Format(time.RFC3339) keeps whole seconds. */
  function ToSecond(instant: int): int { instant / SECOND * SECOND }

  method ApplyErrorState(conn: Connection, status: int, text: string, now: int)
    modifies conn
    ensures var r := CheckFallbackError(status, text, old(conn.backoffLevel));
      && conn.rateLimitedUntil == (if r.shouldFallback then At(ToSecond(now + r.cooldown)) else old(conn.rateLimitedUntil))
      && conn.backoffLevel == (if r.newBackoffLevel > 0 then r.newBackoffLevel else old(conn.backoffLevel))
    ensures conn.lastError == text && conn.testStatus == "error"
    ensures conn.isActive == old(conn.isActive) && conn.locks == old(conn.locks) && conn.deadline == old(conn.deadline)
    ensures conn.quotaLimit == old(conn.quotaLimit) && conn.quotaPeriod == old(conn.quotaPeriod)
  {
    hide CheckFallbackError;
    var result := CheckFallbackError(status, text, conn.backoffLevel);
    FallbackMeansCooldown(status, text, conn.backoffLevel);
    if result.cooldown > 0 {
      conn.rateLimitedUntil := At(ToSecond(now + result.cooldown));
    }
    if result.newBackoffLevel > 0 {
      conn.backoffLevel := result.newBackoffLevel;
    }
    conn.lastError := text;
    conn.testStatus := "error";
  }

  method ResetAccountState(conn: Connection)
    modifies conn
    ensures conn.rateLimitedUntil == Blank && conn.backoffLevel == 0 && conn.lastError == "" && conn.testStatus == "active"
    ensures conn.isActive == old(conn.isActive) && conn.locks == old(conn.locks) && conn.deadline == old(conn.deadline)
    ensures conn.quotaLimit == old(conn.quotaLimit) && conn.quotaPeriod == old(conn.quotaPeriod)
  {
    conn.rateLimitedUntil := Blank;
    conn.backoffLevel := 0;
    conn.lastError := "";
    conn.testStatus := "active";
  }

  /** An account cooled by an error stays out of every pool until at most a second early. */
  lemma CooledAccountIsIneligible(c: Connection, now: int, cooldown: int, t: int,
                                  modelName: string, excluded: set<string>, quota: QuotaChecker)
    requires c.rateLimitedUntil == At(ToSecond(now + cooldown))
    ensures t <= now + cooldown - SECOND ==> !ConnEligible(c, modelName, excluded, quota, t)
    ensures t >= now + cooldown ==> !Later(c.rateLimitedUntil, t)
  {
    var u := now + cooldown;
    assert u / SECOND * SECOND + u % SECOND == u;
  }

  // ---------------------------------------------------------------- one attempt

  /** What came back from upstream, an oracle here. */
  datatype Reply =
    | Served                                   // 2xx, the response was proxied
    | Terminal                                 // a final answer was written, or the client left
    | Unreachable(error: string)               // transport failure
    | UpstreamError(status: int, body: string) // any other status
    | Special(retryable: bool)                 // executors that report only a flag

  /** Whether another account is worth trying after a reply. */
  function Retryable(reply: Reply): bool {
    match reply
    case Served => false
    case Terminal => false
    case Unreachable(_) => true
    case UpstreamError(status, body) => CheckFallbackError(status, body, 0).shouldFallback
    case Special(r) => r
  }

  function StatusOf(reply: Reply): (int, string) {
    match reply
    case Unreachable(error) => (502, "upstream request failed: " + error)
    case UpstreamError(status, body) => (status, body)
    case _ => (0, "")
  }

  method AttemptSingleModelChat(conn: Connection, reply: Reply, now: int)
    returns (retryable: bool, status: int, body: string)
    modifies conn
    ensures retryable == Retryable(reply)
    ensures retryable ==> (status, body) == StatusOf(reply)
    ensures reply.UpstreamError? && retryable ==>
      var r := CheckFallbackError(reply.status, reply.body, old(conn.backoffLevel));
      conn.rateLimitedUntil == At(ToSecond(now + r.cooldown)) && r.cooldown >= BACKOFF_BASE
    ensures reply.Served? ==> conn.rateLimitedUntil == Blank && conn.backoffLevel == 0
    ensures !reply.Served? && !(reply.UpstreamError? && retryable) ==> conn.rateLimitedUntil == old(conn.rateLimitedUntil)
  {
    hide CheckFallbackError;
    match reply
    case Special(r) =>
      return r, 0, "";
    case Terminal =>
      return false, 0, "";
    case Unreachable(error) =>
      return true, 502, "upstream request failed: " + error;
    case Served =>
      ResetAccountState(conn);
      return false, 0, "";
    case UpstreamError(code, text) =>
      FallbackMeansCooldown(code, text, conn.backoffLevel);
      ApplyErrorState(conn, code, text, now);
      FallbackMeansCooldown(code, text, conn.backoffLevel);
      if CheckFallbackError(code, text, conn.backoffLevel).shouldFallback {
        return true, code, text;
      }
      return false, 0, "";
  }

  // ---------------------------------------------------------------- the walk

  datatype WalkResult =
    | Responded                        // an attempt wrote the response
    | NoAccount                        // nothing was eligible to begin with
    | Unavailable                      // every attempt failed without a status
    | LastError(status: int, body: string)

  function Ids(conns: seq<Connection>): set<string> { set c | c in conns :: c.id }

  /** Attempt i went to tried[i] and got replies(i). */
  ghost predicate WalkedTo(tried: seq<Connection>, conns: seq<Connection>, replies: nat -> Reply) {
    && (forall i :: 0 <= i < |tried| ==> tried[i] in conns)
    && (forall i, j :: 0 <= i < j < |tried| ==> tried[i].id != tried[j].id)
    && (forall i :: 0 <= i < |tried| - 1 ==> Retryable(replies(i)))
  }

  /** The account the client pinned, if it is among the active ones. */
  method FindPinned(conns: seq<Connection>, target: string) returns (pinned: Connection?)
    ensures pinned != null ==> target != "" && pinned in conns && pinned.id == target && pinned.isActive
    ensures pinned == null <==> target == "" || forall c :: c in conns ==> c.id != target || !c.isActive
  {
    pinned := null;
    if target == "" {
      return;
    }
    for i := 0 to |conns|
      invariant forall j :: 0 <= j < i ==> conns[j].id != target || !conns[j].isActive
    {
      if conns[i].id == target && conns[i].isActive {
        return conns[i];
      }
    }
  }

  lemma TriedIdsBound(tried: seq<Connection>, conns: seq<Connection>, ids: set<string>)
    requires forall i :: 0 <= i < |tried| ==> tried[i] in conns
    requires forall i, j :: 0 <= i < j < |tried| ==> tried[i].id != tried[j].id
    requires ids == Ids(tried)
    ensures ids <= Ids(conns) && |ids| == |tried| <= |Ids(conns)|
  {
    forall id | id in ids ensures id in Ids(conns) {
      var c :| c in tried && c.id == id;
      assert c in conns;
    }
    IdsCount(tried);
    Affinities.SubsetSize(ids, Ids(conns));
  }

  lemma {:induction false} IdsCount(tried: seq<Connection>)
    requires forall i, j :: 0 <= i < j < |tried| ==> tried[i].id != tried[j].id
    ensures |Ids(tried)| == |tried|
  {
    if tried != [] {
      var front, last := tried[..|tried| - 1], tried[|tried| - 1];
      IdsCount(front);
      assert tried == front + [last];
      assert Ids(tried) == Ids(front) + {last.id};
      assert last.id !in Ids(front);
    }
  }

  /** One more attempt, at an account not tried before. */
  lemma WalkPush(tried: seq<Connection>, conns: seq<Connection>, replies: nat -> Reply, conn: Connection)
    requires WalkedTo(tried, conns, replies) && AllRetryable(tried, replies)
    requires conn in conns && conn.id !in Ids(tried)
    ensures WalkedTo(tried + [conn], conns, replies)
    ensures Ids(tried + [conn]) == Ids(tried) + {conn.id}
    ensures |tried| < |Ids(conns)|
  {
    hide Retryable;
    var next := tried + [conn];
    assert forall i :: 0 <= i < |tried| ==> next[i] == tried[i] && tried[i].id in Ids(tried);
    assert forall i, j :: 0 <= i < j < |next| ==> next[i].id != next[j].id;
    assert Ids(next) == Ids(tried) + {conn.id};
    TriedIdsBound(next, conns, Ids(next));
  }

  ghost predicate AllRetryable(tried: seq<Connection>, replies: nat -> Reply) {
    forall i :: 0 <= i < |tried| ==> Retryable(replies(i))
  }

  lemma RetryPush(tried: seq<Connection>, replies: nat -> Reply, conn: Connection)
    requires AllRetryable(tried, replies) && Retryable(replies(|tried|))
    ensures AllRetryable(tried + [conn], replies)
  {
    hide Retryable;
  }

  lemma NothingFromPools(conns: seq<Connection>, was: seq<Standing>, modelName: string, quota: QuotaChecker, clock: nat -> int)
    requires |was| == |conns|
    ensures FromPools([], conns, was, modelName, quota, clock)
  {
  }

  lemma NothingTried(conns: seq<Connection>, replies: nat -> Reply)
    ensures WalkedTo([], conns, replies) && AllRetryable([], replies) && Ids([]) == {}
  {
  }

  lemma PoolIsFresh(conns: seq<Connection>, modelName: string, excluded: set<string>, quota: QuotaChecker, now: int, c: Connection)
    requires c in Pool(conns, modelName, excluded, quota, now)
    ensures c in conns && c.id !in excluded
  {
  }

  function Standings(conns: seq<Connection>): (r: seq<Standing>)
    reads conns
    ensures |r| == |conns| && forall i :: 0 <= i < |conns| ==> r[i] == StandingOf(conns[i])
  {
    if conns == [] then [] else Standings(conns[..|conns| - 1]) + [StandingOf(conns[|conns| - 1])]
  }

  function AllEligibleAs(conns: seq<Connection>, was: seq<Standing>, modelName: string, excluded: set<string>,
                         quota: QuotaChecker, now: int): seq<Connection>
    requires |was| == |conns|
  {
    if conns == [] then []
    else
      var n := |conns| - 1;
      var rest := AllEligibleAs(conns[..n], was[..n], modelName, excluded, quota, now);
      if EligibleAs(conns[n].id, was[n], modelName, excluded, quota, now) then rest + [conns[n]] else rest
  }

  /** The pool the accounts formed when they stood as given. */
  ghost function PoolAs(conns: seq<Connection>, was: seq<Standing>, modelName: string, excluded: set<string>,
                        quota: QuotaChecker, now: int): seq<Connection>
    requires |was| == |conns|
  {
    var e := AllEligibleAs(conns, was, modelName, excluded, quota, now);
    Unbeaten(e, e)
  }

  /** If only accounts that are left out have changed since, the pool is what it was. */
  lemma PoolIsAsBefore(conns: seq<Connection>, was: seq<Standing>, modelName: string, excluded: set<string>,
                       quota: QuotaChecker, now: int)
    requires RestUntouched(conns, was, excluded)
    ensures Pool(conns, modelName, excluded, quota, now) == PoolAs(conns, was, modelName, excluded, quota, now)
  {
    EligibleAsBefore(conns, was, modelName, excluded, quota, now);
  }

  ghost predicate RestUntouched(conns: seq<Connection>, was: seq<Standing>, excluded: set<string>)
    reads conns
  {
    |was| == |conns| && forall i :: 0 <= i < |conns| && conns[i].id !in excluded ==> StandingOf(conns[i]) == was[i]
  }

  lemma {:induction false} EligibleAsBefore(conns: seq<Connection>, was: seq<Standing>, modelName: string,
                                            excluded: set<string>, quota: QuotaChecker, now: int)
    requires RestUntouched(conns, was, excluded)
    ensures Eligible(conns, modelName, excluded, quota, now) == AllEligibleAs(conns, was, modelName, excluded, quota, now)
  {
    if conns != [] {
      var n := |conns| - 1;
      assert forall i :: 0 <= i < n ==> conns[..n][i] == conns[i] && was[..n][i] == was[i];
      EligibleAsBefore(conns[..n], was[..n], modelName, excluded, quota, now);
      assert conns[n].id !in excluded ==> StandingOf(conns[n]) == was[n];
    }
  }

  /**
    Attempt i goes to a member of the pool that leaves out the accounts tried before it. Attempts change
    none but tried accounts, so the others still stand as they did when the walk began.
   */
  ghost predicate FromPools(tried: seq<Connection>, conns: seq<Connection>, was: seq<Standing>, modelName: string,
                            quota: QuotaChecker, clock: nat -> int)
    requires |was| == |conns|
  {
    forall i :: 0 <= i < |tried| ==> tried[i] in PoolAs(conns, was, modelName, Ids(tried[..i]), quota, clock(i))
  }

  /** So every attempt goes to an account that was eligible, and not tried before. */
  lemma AttemptsAreEligible(tried: seq<Connection>, conns: seq<Connection>, was: seq<Standing>, modelName: string,
                            quota: QuotaChecker, clock: nat -> int, i: nat) returns (k: nat)
    requires |was| == |conns| && FromPools(tried, conns, was, modelName, quota, clock) && i < |tried|
    ensures k < |conns| && conns[k] == tried[i]
    ensures EligibleAs(tried[i].id, was[k], modelName, Ids(tried[..i]), quota, clock(i))
  {
    hide Ids, EligibleAs;
    k := FindEligible(conns, was, modelName, Ids(tried[..i]), quota, clock(i), tried[i]);
  }

  lemma {:induction false} FindEligible(conns: seq<Connection>, was: seq<Standing>, modelName: string, excluded: set<string>,
                                        quota: QuotaChecker, now: int, c: Connection) returns (k: nat)
    requires |was| == |conns| && c in AllEligibleAs(conns, was, modelName, excluded, quota, now)
    ensures k < |conns| && conns[k] == c && EligibleAs(c.id, was[k], modelName, excluded, quota, now)
  {
    hide EligibleAs;
    var n := |conns| - 1;
    if c in AllEligibleAs(conns[..n], was[..n], modelName, excluded, quota, now) {
      k := FindEligible(conns[..n], was[..n], modelName, excluded, quota, now, c);
    } else {
      k := n;
    }
  }

  lemma FromPoolsPush(tried: seq<Connection>, conns: seq<Connection>, was: seq<Standing>, modelName: string,
                      quota: QuotaChecker, clock: nat -> int, conn: Connection)
    requires |was| == |conns| && FromPools(tried, conns, was, modelName, quota, clock)
    requires conn in PoolAs(conns, was, modelName, Ids(tried), quota, clock(|tried|))
    ensures FromPools(tried + [conn], conns, was, modelName, quota, clock)
  {
    hide PoolAs, Ids;
    var next := tried + [conn];
    forall i | 0 <= i < |next| ensures next[i] in PoolAs(conns, was, modelName, Ids(next[..i]), quota, clock(i)) {
      if i < |tried| {
        assert next[..i] == tried[..i];
      } else {
        assert next[..i] == tried;
      }
    }
  }

  /** A selection that leaves out the accounts already tried. */
  method SelectUntried(conns: seq<Connection>, modelName: string, triedIds: set<string>, quota: QuotaChecker,
                       sessionKey: string, now: int, affinity: Affinities.Affinity, rotator: Rotation.CredentialRotator)
    returns (conn: Connection?)
    modifies affinity, rotator
    ensures conn == null <==> Pool(conns, modelName, triedIds, quota, now) == []
    ensures conn != null ==> conn in Pool(conns, modelName, triedIds, quota, now)
    ensures conn != null ==> conn in conns && conn.id !in triedIds
  {
    hide Pool, Picks, BoundIn, Affinities.TurnStep;
    conn := SelectCredentialSticky(conns, modelName, triedIds, quota, sessionKey, now, affinity, rotator);
    if conn != null { PoolIsFresh(conns, modelName, triedIds, quota, now, conn); }
  }

  method HandleSingleModelChat(conns: seq<Connection>, target: string, modelName: string, quota: QuotaChecker,
                               sessionKey: string, affinity: Affinities.Affinity,
                               rotator: Rotation.CredentialRotator, clock: nat -> int, replies: nat -> Reply)
    returns (result: WalkResult, tried: seq<Connection>)
    modifies affinity, rotator, conns
    ensures WalkedTo(tried, conns, replies)
    ensures |tried| <= |Ids(conns)|
    ensures result.Responded? <==> tried != [] && !Retryable(replies(|tried| - 1))
    ensures result.NoAccount? <==> tried == []
    ensures result.LastError? ==> (result.status, result.body) == StatusOf(replies(|tried| - 1)) && result.status != 0
    ensures result.Unavailable? ==> StatusOf(replies(|tried| - 1)).0 == 0
    ensures (target == "" || forall c :: c in conns ==> c.id != target || !old(c.isActive)) ==>
              FromPools(tried, conns, old(Standings(conns)), modelName, quota, clock)
    ensures (target != "" && exists c :: c in conns && c.id == target && old(c.isActive)) ==>
              |tried| == 1 && tried[0].id == target
    ensures (target == "" || forall c :: c in conns ==> c.id != target || !old(c.isActive)) ==>
              result.Responded? || Pool(conns, modelName, Ids(tried), quota, clock(|tried|)) == []
  {
    hide Pool, Retryable, StatusOf, WalkedTo, AllRetryable, Ids, FromPools, PoolAs, Standings, StandingOf;
    var pinned := FindPinned(conns, target);
    var triedIds: set<string> := {};
    var lastStatus, lastBody := 0, "";
    tried := [];
    NothingTried(conns, replies);
    ghost var was := Standings(conns);
    NothingFromPools(conns, was, modelName, quota, clock);
    while true
      invariant RestUntouched(conns, was, triedIds)
      invariant pinned == null ==> FromPools(tried, conns, was, modelName, quota, clock)
      invariant WalkedTo(tried, conns, replies) && AllRetryable(tried, replies)
      invariant triedIds == Ids(tried) && |tried| <= |Ids(conns)|
      invariant tried != [] ==> (lastStatus, lastBody) == StatusOf(replies(|tried| - 1))
      invariant tried != [] ==> Retryable(replies(|tried| - 1))
      invariant pinned != null ==> tried == []
      invariant tried == [] ==> lastStatus == 0
      decreases |Ids(conns)| - |tried|
    {
      var conn: Connection?;
      if pinned != null {
        if pinned.id in triedIds {
          break;
        }
        conn := pinned;
      } else {
        conn := SelectUntried(conns, modelName, triedIds, quota, sessionKey, clock(|tried|), affinity, rotator);
      }
      if conn == null {
        break;
      }
      WalkPush(tried, conns, replies, conn);
      if pinned == null {
        PoolIsAsBefore(conns, was, modelName, triedIds, quota, clock(|tried|));
        FromPoolsPush(tried, conns, was, modelName, quota, clock, conn);
      }
      var retryable, status, body := AttemptSingleModelChat(conn, replies(|tried|), clock(|tried|));
      if retryable { RetryPush(tried, replies, conn); }
      triedIds := triedIds + {conn.id};
      tried := tried + [conn];
      if !retryable {
        return Responded, tried;
      }
      lastStatus, lastBody := status, body;
      if pinned != null {
        break;
      }
    }
    if lastStatus == 0 {
      if tried == [] {
        return NoAccount, tried;
      }
      return Unavailable, tried;
    }
    result := LastError(lastStatus, lastBody);
  }
}
