/** Charging recorded usage to budgets and gating requests by what has been charged
    (internal/budget/service.go, internal/budget/store_postgresql.go).  Money is a real number. */
module BudgetSpend {
  import opened Text
  import opened UserPath
  import opened LikePattern
  import opened Periods

  datatype Budget = Budget(
    userPath: string, periodSeconds: int, amount: real, source: string,
    lastResetAt: Option<int>, createdAt: int, updatedAt: int)

  // A row of the usage table; None is SQL NULL
  datatype Usage = Usage(userPath: Option<string>, at: int, totalCost: Option<real>, cacheType: Option<string>)

  // The outcome of a store's SumUsageCost
  datatype Sum = Sum(spent: real, hasUsage: bool) | SumFailed(error: PathError)

  datatype CheckResult = CheckResult(
    budget: Budget, periodStart: int, periodEnd: int, spent: real, hasUsage: bool, remaining: real)

  datatype Evaluation = Evaluated(result: CheckResult) | NotEvaluated(error: PathError)

  datatype Verdict = Allowed | Exceeded(result: CheckResult) | Failed(error: PathError)

  /** The budget package's NormalizeUserPath: a blank path is the root. */
  function BudgetPath(raw: string): PathResult {
    match Normalize(raw)
    case Invalid(e) => Invalid(e)
    case Path(p) => if p == "" then Path("/") else Path(p)
  }

  predicate BudgetAppliesToPath(budgetPath: string, requestPath: string) {
    var b, p := Trim(budgetPath), Trim(requestPath);
    b == "/" || p == b || b + "/" <= p
  }

  /** SQL's TRIM takes off spaces only. */
  function SqlTrimLeft(s: string): string {
    if s != "" && s[0] == ' ' then SqlTrimLeft(s[1..]) else s
  }

  function SqlTrim(s: string): string {
    var t := SqlTrimLeft(s);
    SqlTrimRight(t)
  }

  function SqlTrimRight(s: string): string {
    if s != "" && s[|s| - 1] == ' ' then SqlTrimRight(s[..|s| - 1]) else s
  }

  /** COALESCE(NULLIF(TRIM(user_path), ''), '/'). */
  function ChargedPath(u: Usage): string {
    if u.userPath.None? || SqlTrim(u.userPath.value) == "" then "/" else SqlTrim(u.userPath.value)
  }

  /** The path condition of the SumUsageCost query. */
  predicate ChargedTo(path: string, u: Usage) {
    ChargedPath(u) == path || Like(ChargedPath(u), UsagePathLikePattern(path))
  }

  predicate Uncached(u: Usage) { u.cacheType.None? || u.cacheType.value == "" }

  predicate Selected(u: Usage, path: string, start: int, end: int) {
    start <= u.at < end && ChargedTo(path, u) && Uncached(u)
  }

  function CostIn(u: Usage, path: string, start: int, end: int): real {
    if Selected(u, path, start, end) && u.totalCost.Some? then u.totalCost.value else 0.0
  }

  /** SUM(total_cost) of the selected rows. */
  function Spend(log: seq<Usage>, path: string, start: int, end: int): real {
    if log == [] then 0.0
    else Spend(log[..|log| - 1], path, start, end) + CostIn(log[|log| - 1], path, start, end)
  }

  /** SUM is NULL exactly when no selected row has a cost. */
  predicate HasSpend(log: seq<Usage>, path: string, start: int, end: int) {
    exists i :: 0 <= i < |log| && Selected(log[i], path, start, end) && log[i].totalCost.Some?
  }

  function SumUsageCost(log: seq<Usage>, rawPath: string, start: int, end: int): Sum {
    match BudgetPath(rawPath)
    case Invalid(e) => SumFailed(e)
    case Path(path) => Sum(Spend(log, path, start, end), HasSpend(log, path, start, end))
  }

  /** The start of the window a budget is charged over, moved up by a later reset. */
  function WindowStart(b: Budget, now: int, s: Settings): int {
    var start := PeriodBounds(now, b.periodSeconds, s).start;
    if b.lastResetAt.Some? && b.lastResetAt.value > start then b.lastResetAt.value else start
  }

  function EvaluateBudget(log: seq<Usage>, b: Budget, now: int, s: Settings): Evaluation {
    var start := WindowStart(b, now, s);
    match SumUsageCost(log, b.userPath, start, now)
    case SumFailed(e) => NotEvaluated(e)
    case Sum(spent, hasUsage) =>
      Evaluated(CheckResult(b, start, PeriodBounds(now, b.periodSeconds, s).end, spent, hasUsage, b.amount - spent))
  }

  predicate Exhausted(r: CheckResult) { r.hasUsage && r.spent >= r.budget.amount }

  // Gate and charge agree

  /** White space around either path does not matter to the gate. */
  lemma GateTrims(before: string, b: string, after: string, p: string)
    requires AllSpace(before) && AllSpace(after) && b != "" && p != "" && Trimmed(b) && Trimmed(p)
    ensures BudgetAppliesToPath(before + b + after, p) == BudgetAppliesToPath(b, p)
    ensures BudgetAppliesToPath(p, before + b + after) == BudgetAppliesToPath(p, b)
    ensures BudgetAppliesToPath(b, p) <==> Covers(b, p)
  {
    TrimStrips(before, b, after);
    TrimFixed(b);
    TrimFixed(p);
  }

  lemma SqlTrimKeeps(s: string)
    requires Trimmed(s)
    ensures SqlTrim(s) == s
  {
  }

  /** A budget gates a request exactly when the request's usage is charged to it, and exactly
      when it is on the request path's ancestor chain. */
  lemma GateAgreesWithCharge(b: string, p: string, u: Usage)
    requires IsNormal(b) && IsNormal(p) && u.userPath == Some(p)
    ensures BudgetAppliesToPath(b, p) <==> b in Ancestors(p)
    ensures BudgetAppliesToPath(b, p) <==> ChargedTo(b, u)
  {
    NormalIsTrimmed(b);
    NormalIsTrimmed(p);
    TrimFixed(b);
    TrimFixed(p);
    NormalizeFixed(p);
    AncestorsCover(b, p);
    SqlTrimKeeps(p);
    PatternMatchesBelow(p, b);
  }

  /** Usage recorded without a path is charged to the root budget only. */
  lemma UnattributedChargesRoot(b: string, u: Usage)
    requires IsNormal(b) && (u.userPath.None? || SqlTrim(u.userPath.value) == "")
    ensures ChargedTo(b, u) <==> b == "/"
  {
    PatternMatchesBelow("/", b);
  }

  lemma BudgetPathFixed(p: string)
    requires IsNormal(p)
    ensures BudgetPath(p) == Path(p)
  {
    NormalizeFixed(p);
  }

  // Spend is conserved

  /** Recording a usage raises, by exactly its cost, the spend of exactly the budgets on its
      path's ancestor chain whose window holds it; a cached usage is charged to none. */
  lemma RecordingCharges(log: seq<Usage>, p: string, u: Usage, b: Budget, now: int, s: Settings)
    requires IsNormal(p) && IsNormal(b.userPath) && u.userPath == Some(p)
    ensures var before, after := EvaluateBudget(log, b, now, s), EvaluateBudget(log + [u], b, now, s);
      var charged := Uncached(u) && u.totalCost.Some? && b.userPath in Ancestors(p) &&
          WindowStart(b, now, s) <= u.at < now;
      && before.Evaluated? && after.Evaluated?
      && after.result.spent == before.result.spent + (if charged then u.totalCost.value else 0.0)
      && after.result.hasUsage == (before.result.hasUsage || charged)
      && after.result.remaining == before.result.remaining - (if charged then u.totalCost.value else 0.0)
  {
    hide PeriodBounds, Like, UsagePathLikePattern, BudgetPath, Ancestors, IsNormal, ChargedTo, BudgetAppliesToPath,
        Uncached;
    BudgetPathFixed(b.userPath);
    GateAgreesWithCharge(b.userPath, p, u);
    SpendMore(log, u, b.userPath, WindowStart(b, now, s), now);
  }

  lemma SpendMore(log: seq<Usage>, u: Usage, path: string, start: int, end: int)
    ensures Spend(log + [u], path, start, end) == Spend(log, path, start, end) + CostIn(u, path, start, end)
    ensures HasSpend(log + [u], path, start, end)
      <==> HasSpend(log, path, start, end) || (Selected(u, path, start, end) && u.totalCost.Some?)
  {
    hide Selected;
    var more := log + [u];
    assert more[..|log|] == log && more[|log|] == u;
    if HasSpend(log, path, start, end) {
      var i :| 0 <= i < |log| && Selected(log[i], path, start, end) && log[i].totalCost.Some?;
      assert more[i] == log[i];
    }
  }

  /** Windows that share a boundary add up. */
  lemma {:induction false} SpendSplits(log: seq<Usage>, path: string, start: int, mid: int, end: int)
    requires start <= mid <= end
    ensures Spend(log, path, start, end) == Spend(log, path, start, mid) + Spend(log, path, mid, end)
    ensures HasSpend(log, path, start, end) <==> HasSpend(log, path, start, mid) || HasSpend(log, path, mid, end)
  {
    hide ChargedTo;
    if log != [] {
      SpendSplits(log[..|log| - 1], path, start, mid, end);
      var u := log[|log| - 1];
      assert log == log[..|log| - 1] + [u];
      SpendMore(log[..|log| - 1], u, path, start, mid);
      SpendMore(log[..|log| - 1], u, path, mid, end);
      SpendMore(log[..|log| - 1], u, path, start, end);
    }
  }

  /** A reset within the window takes exactly the earlier spend out of the sum; a reset before
      the window changes nothing. */
  lemma ResetForgetsEarlierSpend(log: seq<Usage>, b: Budget, reset: int, now: int, s: Settings)
    requires IsNormal(b.userPath) && b.lastResetAt == None
    requires PeriodBounds(now, b.periodSeconds, s).start <= now && reset <= now
    ensures var start := PeriodBounds(now, b.periodSeconds, s).start;
      var before, after := EvaluateBudget(log, b, now, s), EvaluateBudget(log, b.(lastResetAt := Some(reset)), now, s);
      && before.Evaluated? && after.Evaluated?
      && after.result.spent
         == before.result.spent - (if start < reset then Spend(log, b.userPath, start, reset) else 0.0)
  {
    hide PeriodBounds, BudgetPath, IsNormal, Spend, HasSpend;
    BudgetPathFixed(b.userPath);
    var start := PeriodBounds(now, b.periodSeconds, s).start;
    if start < reset {
      SpendSplits(log, b.userPath, start, reset, now);
    }
  }

  /** The end of the n-th period from the one holding `now`. */
  function PeriodsEnd(now: int, n: nat, seconds: int, s: Settings): int
    decreases n
  {
    if n == 0 then PeriodBounds(now, seconds, s).start
    else PeriodsEnd(PeriodBounds(now, seconds, s).end, n - 1, seconds, s)
  }

  /** The spends of n consecutive periods, added up. */
  function PeriodsSpend(log: seq<Usage>, path: string, now: int, n: nat, seconds: int, s: Settings): real
    decreases n
  {
    if n == 0 then 0.0
    else
      var w := PeriodBounds(now, seconds, s);
      Spend(log, path, w.start, w.end) + PeriodsSpend(log, path, w.end, n - 1, seconds, s)
  }

  /** No usage falls between periods or into two of them. */
  lemma {:induction false} PeriodsAddUp(log: seq<Usage>, path: string, now: int, n: nat, seconds: int, s: Settings)
    requires ValidSettings(s) && IsInt64(seconds) && Supported(now, seconds)
    ensures PeriodBounds(now, seconds, s).start <= PeriodsEnd(now, n, seconds, s)
    ensures PeriodsSpend(log, path, now, n, seconds, s)
         == Spend(log, path, PeriodBounds(now, seconds, s).start, PeriodsEnd(now, n, seconds, s))
    decreases n
  {
    hide PeriodBounds;
    var w := PeriodBounds(now, seconds, s);
    if n == 0 {
      EmptySpend(log, path, w.start);
    } else {
      PeriodsTile(now, seconds, s);
      SupportedLater(now, w.end, seconds);
      PeriodsAddUp(log, path, w.end, n - 1, seconds, s);
      SpendSplits(log, path, w.start, w.end, PeriodsEnd(w.end, n - 1, seconds, s));
    }
  }

  lemma SupportedLater(now: int, later: int, seconds: int)
    requires Supported(now, seconds) && now <= later
    ensures Supported(later, seconds)
  {
  }

  lemma {:induction false} EmptySpend(log: seq<Usage>, path: string, t: int)
    ensures Spend(log, path, t, t) == 0.0
  {
    if log != [] {
      EmptySpend(log[..|log| - 1], path, t);
    }
  }

  // One record in plain terms

  predicate AllBlank(s: string) { forall i :: 0 <= i < |s| ==> s[i] == ' ' }

  lemma {:induction false} BlankLeft(before: string, s: string)
    requires AllBlank(before)
    ensures SqlTrimLeft(before + s) == SqlTrimLeft(s)
  {
    if before == "" {
      assert before + s == s;
    } else {
      assert (before + s)[1..] == before[1..] + s;
      BlankLeft(before[1..], s);
    }
  }

  lemma {:induction false} BlankRight(s: string, after: string)
    requires AllBlank(after)
    ensures SqlTrimRight(s + after) == SqlTrimRight(s)
  {
    if after == "" {
      assert s + after == s;
    } else {
      assert (s + after)[..|s + after| - 1] == s + after[..|after| - 1];
      BlankRight(s, after[..|after| - 1]);
    }
  }

  /** TRIM takes the blanks off both ends, and only blanks. */
  lemma SqlTrimStrips(before: string, s: string, after: string)
    requires AllBlank(before) && AllBlank(after) && (s == "" || (s[0] != ' ' && s[|s| - 1] != ' '))
    ensures SqlTrim(before + (s + after)) == s
  {
    BlankLeft(before, s + after);
    if s == "" {
      assert s + after == after + "";
      BlankLeft(after, "");
    } else {
      BlankRight(s, after);
    }
  }

  /** A record is charged to the budgets on its path's ancestor chain, blanks around the recorded
      path aside, when its time lies in the window and it is no cached answer. */
  lemma RecordCosts(u: Usage, b: string, before: string, p: string, after: string, start: int, end: int)
    requires IsNormal(b) && IsNormal(p) && AllBlank(before) && AllBlank(after)
    requires u.userPath == Some(before + (p + after))
    ensures var charged := start <= u.at < end && u.cacheType in {None, Some("")} && b in Ancestors(p);
      && Spend([u], b, start, end) == (if charged && u.totalCost.Some? then u.totalCost.value else 0.0)
      && (HasSpend([u], b, start, end) <==> charged && u.totalCost.Some?)
  {
    hide Ancestors, IsNormal, Like, UsagePathLikePattern, SqlTrim, Spend, HasSpend;
    NormalIsTrimmed(p);
    SqlTrimStrips(before, p, after) by { assert p == "" || (p[0] != ' ' && p[|p| - 1] != ' '); }
    SqlTrimKeeps(p);
    GateAgreesWithCharge(b, p, u.(userPath := Some(p)));
    assert ChargedTo(b, u) <==> b in Ancestors(p);
    OneRecord(u, b, start, end);
  }

  lemma OneRecord(u: Usage, b: string, start: int, end: int)
    ensures var charged := start <= u.at < end && u.cacheType in {None, Some("")} && ChargedTo(b, u);
      && Spend([u], b, start, end) == (if charged && u.totalCost.Some? then u.totalCost.value else 0.0)
      && (HasSpend([u], b, start, end) <==> charged && u.totalCost.Some?)
  {
    hide ChargedTo;
    SpendMore([], u, b, start, end);
    assert [] + [u] == [u];
    assert Uncached(u) <==> u.cacheType in {None, Some("")};
  }

  /** A record without a path, or with nothing but blanks for one, costs the root budget only. */
  lemma PathlessRecordCosts(u: Usage, b: string, start: int, end: int)
    requires IsNormal(b) && (u.userPath.None? || AllBlank(u.userPath.value))
    ensures var charged := start <= u.at < end && u.cacheType in {None, Some("")} && b == "/";
      && Spend([u], b, start, end) == (if charged && u.totalCost.Some? then u.totalCost.value else 0.0)
      && (HasSpend([u], b, start, end) <==> charged && u.totalCost.Some?)
  {
    hide IsNormal, Like, UsagePathLikePattern, SqlTrim, Spend, HasSpend;
    if u.userPath.Some? {
      var blanks := u.userPath.value;
      SqlTrimStrips(blanks, "", "");
      assert blanks + ("" + "") == blanks;
    }
    UnattributedChargesRoot(b, u);
    OneRecord(u, b, start, end);
  }
}
