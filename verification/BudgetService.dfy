/** The budget service's cached rules and its request check (internal/budget/service.go). */
module BudgetService {
  import opened Text
  import opened UserPath
  import opened Periods
  import opened BudgetSpend
  import opened Sorting

  /** The order in which Refresh keeps budgets: by path, longer periods first. */
  predicate CheckedBefore(a: Budget, b: Budget) {
    if a.userPath == b.userPath then a.periodSeconds > b.periodSeconds else Less(a.userPath, b.userPath)
  }

  ghost predicate DistinctKeys(budgets: seq<Budget>) {
    forall i, j :: 0 <= i < j < |budgets| ==>
      budgets[i].userPath != budgets[j].userPath || budgets[i].periodSeconds != budgets[j].periodSeconds
  }

  lemma CheckedBeforeOrders(budgets: seq<Budget>)
    requires DistinctKeys(budgets)
    ensures Ordering(CheckedBefore) && DecidesOn(CheckedBefore, budgets)
  {
    forall a, b, c | CheckedBefore(a, b) && CheckedBefore(b, c) ensures CheckedBefore(a, c) {
      if a.userPath != b.userPath && b.userPath != c.userPath {
        LessTransitive(a.userPath, b.userPath, c.userPath);
        LessIrreflexive(c.userPath);
      }
    }
    forall i, j | 0 <= i < j < |budgets|
      ensures CheckedBefore(budgets[i], budgets[j]) || CheckedBefore(budgets[j], budgets[i])
    {
      LessTotal(budgets[i].userPath, budgets[j].userPath);
    }
  }

  /** The budgets that gate a path, in the order they are checked. */
  function Applicable(budgets: seq<Budget>, path: string): (r: seq<Budget>)
    ensures forall b :: b in r <==> b in budgets && BudgetAppliesToPath(b.userPath, path)
  {
    if budgets == [] then []
    else
      var rest := Applicable(budgets[..|budgets| - 1], path);
      var b := budgets[|budgets| - 1];
      assert budgets == budgets[..|budgets| - 1] + [b];
      if BudgetAppliesToPath(b.userPath, path) then rest + [b] else rest
  }

  /** Every gating budget can be evaluated and has something left. */
  ghost predicate Admits(budgets: seq<Budget>, path: string, now: int, s: Settings, log: seq<Usage>) {
    forall b :: b in budgets && BudgetAppliesToPath(b.userPath, path) ==>
      var e := EvaluateBudget(log, b, now, s);
      e.Evaluated? && !Exhausted(e.result)
  }

  /** `results` are the evaluations of the first budgets of `applicable`, none of them
      exhausted except possibly the last when the check stopped at it. */
  ghost predicate Checked(results: seq<CheckResult>, stopped: bool, applicable: seq<Budget>,
                          now: int, s: Settings, log: seq<Usage>)
  {
    && |results| <= |applicable|
    && (stopped ==> results != [] && Exhausted(results[|results| - 1]))
    && (forall i :: 0 <= i < |results| ==> EvaluateBudget(log, applicable[i], now, s) == Evaluated(results[i]))
    && (forall i :: 0 <= i < |results| - (if stopped then 1 else 0) ==> !Exhausted(results[i]))
  }

  /** The check goes from the root downwards, as a path sorts before the paths below it, and
      through the budgets of a path from the longest period to the shortest. */
  lemma CheckOrder(budgets: seq<Budget>, i: nat, j: nat)
    requires SortedBy(CheckedBefore, budgets) && i < j < |budgets|
    ensures var a, b := budgets[i], budgets[j];
      && (a.userPath == b.userPath ==> a.periodSeconds > b.periodSeconds)
      && !(b.userPath < a.userPath)
  {
    if budgets[j].userPath < budgets[i].userPath {
      PrefixBefore(budgets[j].userPath, budgets[i].userPath);
    }
  }

  lemma PrefixBefore(a: string, b: string)
    requires a < b
    ensures Less(a, b) && !Less(b, a)
  {
    LessAtDifference(a, b);
    assert SmallerFirstAt(a, b, |a|);
    if Less(b, a) {
      LessTransitive(a, b, a);
      LessIrreflexive(a);
    }
  }

  class Service {
    var budgets: seq<Budget>
    var settings: Settings

    constructor (listed: seq<Budget>, loaded: Settings)
      ensures multiset(budgets) == multiset(listed) && settings == loaded
      ensures DistinctKeys(listed) ==> SortedBy(CheckedBefore, budgets)
    {
      budgets, settings := [], loaded;
      new;
      Refresh(listed, loaded);
    }

    /** `listed` and `loaded` are what the store returns; its primary key makes keys distinct. */
    method Refresh(listed: seq<Budget>, loaded: Settings)
      modifies this
      ensures multiset(budgets) == multiset(listed) && settings == loaded
      ensures DistinctKeys(listed) ==> SortedBy(CheckedBefore, budgets)
    {
      if DistinctKeys(listed) {
        CheckedBeforeOrders(listed);
        SortSorts(CheckedBefore, listed);
      }
      SortKeeps(CheckedBefore, listed);
      budgets := Sort(CheckedBefore, listed);
      settings := loaded;
    }

    /** Evaluates the gating budgets in order, up to the first exhausted or failing one. */
    method CheckBudgets(path: string, now: int, log: seq<Usage>) returns (results: seq<CheckResult>, verdict: Verdict)
      ensures Answers(results, verdict, budgets, path, now, settings, log)
    {
      results := [];
      assert Applicable(budgets[..0], path) == [];
      assert Checked([], false, [], now, settings, log) && Admits(budgets[..0], path, now, settings, log);
      hide EvaluateBudget, BudgetAppliesToPath, BudgetPath, Exhausted, Checked, Admits, Applicable, Answers;
      for i := 0 to |budgets|
        invariant |results| == |Applicable(budgets[..i], path)|
        invariant Checked(results, false, Applicable(budgets[..i], path), now, settings, log)
        invariant Admits(budgets[..i], path, now, settings, log)
      {
        ApplicableStep(budgets, path, i);
        AdmitsStep(budgets, i, path, now, settings, log);
        if !BudgetAppliesToPath(budgets[i].userPath, path) {
          continue;
        }
        ghost var applicable := Applicable(budgets[..i], path);
        var evaluation := EvaluateBudget(log, budgets[i], now, settings);
        if evaluation.NotEvaluated? {
          CheckedWider(results, false, applicable, Applicable(budgets, path), now, settings, log);
          AnswerFailed(results, budgets, i, path, now, settings, log);
          return results, Failed(evaluation.error);
        }
        CheckedMore(results, evaluation.result, applicable, budgets[i], now, settings, log);
        results := results + [evaluation.result];
        if Exhausted(evaluation.result) {
          CheckedWider(results, true, applicable + [budgets[i]], Applicable(budgets, path), now, settings, log);
          EvaluatedBudget(log, budgets[i], now, settings);
          AnswerExceeded(results, budgets, i, path, now, settings, log);
          return results, Exceeded(evaluation.result);
        }
      }
      assert budgets[..|budgets|] == budgets;
      AnswerAllowed(results, budgets, path, now, settings, log);
      return results, Allowed;
    }

    /** For stored budgets, whose paths are canonical, the answer is also given in money. */
    method CheckWithResults(userPath: string, now: int, log: seq<Usage>)
      returns (results: seq<CheckResult>, verdict: Verdict)
      ensures match BudgetPath(userPath)
        case Invalid(e) => results == [] && verdict == Failed(e)
        case Path(path) =>
          && Answers(results, verdict, budgets, path, now, settings, log)
          && ((forall b :: b in budgets ==> IsNormal(b.userPath)) ==>
                AnswersInMoney(verdict, budgets, path, now, settings, log))
    {
      hide Answers, AnswersInMoney, IsNormal, BudgetPath;
      var normalized := BudgetPath(userPath);
      if normalized.Invalid? {
        return [], Failed(normalized.error);
      }
      results, verdict := CheckBudgets(normalized.path, now, log);
      if forall b :: b in budgets ==> IsNormal(b.userPath) {
        BudgetPathIsNormal(userPath);
        MoneyAnswers(results, verdict, budgets, normalized.path, now, settings, log);
      }
    }
  }

  /** The verdict and the evaluations behind it. */
  ghost predicate Answers(results: seq<CheckResult>, verdict: Verdict, budgets: seq<Budget>, path: string,
                          now: int, settings: Settings, log: seq<Usage>)
  {
    var applicable := Applicable(budgets, path);
    && Checked(results, verdict.Exceeded?, applicable, now, settings, log)
    && (verdict.Allowed? <==> Admits(budgets, path, now, settings, log))
    && (verdict.Allowed? ==> |results| == |applicable|)
    && (verdict.Exceeded? ==> verdict.result == results[|results| - 1])
    && (verdict.Exceeded? ==>
          exists i :: 0 <= i < |budgets| && budgets[i] == verdict.result.budget
                      && Admits(budgets[..i], path, now, settings, log))
    && (verdict.Failed? ==> |results| < |applicable|)
    && (verdict.Failed? ==>
          EvaluateBudget(log, applicable[|results|], now, settings) == NotEvaluated(verdict.error))
  }

  lemma AnswerAllowed(results: seq<CheckResult>, budgets: seq<Budget>, path: string,
                      now: int, s: Settings, log: seq<Usage>)
    requires |results| == |Applicable(budgets, path)| && Admits(budgets, path, now, s, log)
    requires Checked(results, false, Applicable(budgets, path), now, s, log)
    ensures Answers(results, Allowed, budgets, path, now, s, log)
  {
    hide Checked, Admits, Applicable;
  }

  lemma EvaluatedBudget(log: seq<Usage>, b: Budget, now: int, s: Settings)
    ensures var e := EvaluateBudget(log, b, now, s); e.Evaluated? ==> e.result.budget == b
  {
    hide PeriodBounds;
  }

  lemma AnswerExceeded(results: seq<CheckResult>, budgets: seq<Budget>, i: nat, path: string,
                       now: int, s: Settings, log: seq<Usage>)
    requires results != [] && !Admits(budgets, path, now, s, log)
    requires i < |budgets| && budgets[i] == results[|results| - 1].budget && Admits(budgets[..i], path, now, s, log)
    requires Checked(results, true, Applicable(budgets, path), now, s, log)
    ensures Answers(results, Exceeded(results[|results| - 1]), budgets, path, now, s, log)
  {
    hide Checked, Admits, Applicable;
  }

  lemma AnswerFailed(results: seq<CheckResult>, budgets: seq<Budget>, i: nat, path: string,
                     now: int, s: Settings, log: seq<Usage>)
    requires i < |budgets| && BudgetAppliesToPath(budgets[i].userPath, path) && !Admits(budgets, path, now, s, log)
    requires |results| == |Applicable(budgets[..i], path)| && EvaluateBudget(log, budgets[i], now, s).NotEvaluated?
    requires Checked(results, false, Applicable(budgets, path), now, s, log)
    ensures Answers(results, Failed(EvaluateBudget(log, budgets[i], now, s).error), budgets, path, now, s, log)
  {
    ApplicableStep(budgets, path, i);
    hide Checked, Admits, Applicable, EvaluateBudget, BudgetAppliesToPath;
    assert (Applicable(budgets[..i], path) + [budgets[i]])[|results|] == budgets[i];
  }

  /** A request is allowed exactly when every budget on its ancestor chain has money left, and is
      else told of the first of them, in the order of the list, that has spent its amount. */
  ghost predicate AnswersInMoney(verdict: Verdict, budgets: seq<Budget>, path: string,
                                 now: int, s: Settings, log: seq<Usage>)
  {
    && !verdict.Failed?
    && (verdict.Allowed? <==> AllHaveMoney(budgets, path, now, s, log))
    && (verdict.Exceeded? ==> TellsSpent(verdict.result, budgets, path, now, s, log))
  }

  /** The evaluation is of the first budget on the chain that has no money left. */
  ghost predicate TellsSpent(r: CheckResult, budgets: seq<Budget>, path: string, now: int, s: Settings, log: seq<Usage>)
  {
    var b := r.budget;
    && b in budgets && b.userPath in Ancestors(path) && !HasMoneyLeft(b, now, s, log)
    && r.spent == Spend(log, b.userPath, WindowStart(b, now, s), now) >= b.amount
    && r.remaining == b.amount - r.spent <= 0.0
    && r.periodStart == WindowStart(b, now, s) && r.periodEnd == PeriodBounds(now, b.periodSeconds, s).end
    && exists i :: 0 <= i < |budgets| && budgets[i] == b && AllHaveMoney(budgets[..i], path, now, s, log)
  }

  lemma ExceededAnswer(results: seq<CheckResult>, verdict: Verdict, budgets: seq<Budget>, path: string,
                       now: int, s: Settings, log: seq<Usage>) returns (b: Budget)
    requires Answers(results, verdict, budgets, path, now, s, log) && verdict.Exceeded?
    ensures b in budgets && BudgetAppliesToPath(b.userPath, path)
    ensures EvaluateBudget(log, b, now, s) == Evaluated(verdict.result) && Exhausted(verdict.result)
  {
    hide EvaluateBudget, BudgetAppliesToPath, Exhausted, Admits;
    b := Applicable(budgets, path)[|results| - 1];
    assert b in Applicable(budgets, path);
  }

  lemma FailedAnswer(results: seq<CheckResult>, verdict: Verdict, budgets: seq<Budget>, path: string,
                     now: int, s: Settings, log: seq<Usage>) returns (b: Budget)
    requires Answers(results, verdict, budgets, path, now, s, log) && verdict.Failed?
    ensures b in budgets && EvaluateBudget(log, b, now, s).NotEvaluated?
  {
    hide EvaluateBudget, BudgetAppliesToPath, Exhausted, Admits, Checked;
    b := Applicable(budgets, path)[|results|];
    assert b in Applicable(budgets, path);
  }

  lemma MoneyAnswers(results: seq<CheckResult>, verdict: Verdict, budgets: seq<Budget>, path: string,
                     now: int, s: Settings, log: seq<Usage>)
    requires IsNormal(path) && forall b :: b in budgets ==> IsNormal(b.userPath)
    requires Answers(results, verdict, budgets, path, now, s, log)
    ensures AnswersInMoney(verdict, budgets, path, now, s, log)
  {
    NeverFails(results, verdict, budgets, path, now, s, log);
    AllowedInMoney(results, verdict, budgets, path, now, s, log);
    hide AllHaveMoney, Answers, IsNormal, TellsSpent;
    if verdict.Exceeded? {
      ExceededInMoney(results, verdict, budgets, path, now, s, log);
    }
  }

  lemma NeverFails(results: seq<CheckResult>, verdict: Verdict, budgets: seq<Budget>, path: string,
                   now: int, s: Settings, log: seq<Usage>)
    requires Answers(results, verdict, budgets, path, now, s, log) && forall b :: b in budgets ==> IsNormal(b.userPath)
    ensures !verdict.Failed?
  {
    hide Answers, EvaluateBudget, IsNormal;
    if verdict.Failed? {
      var b := FailedAnswer(results, verdict, budgets, path, now, s, log);
      NormalBudgetEvaluates(log, b, now, s);
    }
  }

  lemma AllowedInMoney(results: seq<CheckResult>, verdict: Verdict, budgets: seq<Budget>, path: string,
                       now: int, s: Settings, log: seq<Usage>)
    requires IsNormal(path) && forall b :: b in budgets ==> IsNormal(b.userPath)
    requires Answers(results, verdict, budgets, path, now, s, log)
    ensures verdict.Allowed? <==> AllHaveMoney(budgets, path, now, s, log)
  {
    hide Checked, Applicable, Admits, AllHaveMoney, EvaluateBudget, IsNormal;
    AdmitsByMoney(budgets, path, now, s, log);
  }

  lemma ExceededInMoney(results: seq<CheckResult>, verdict: Verdict, budgets: seq<Budget>, path: string,
                        now: int, s: Settings, log: seq<Usage>)
    requires IsNormal(path) && forall b :: b in budgets ==> IsNormal(b.userPath)
    requires Answers(results, verdict, budgets, path, now, s, log) && verdict.Exceeded?
    ensures TellsSpent(verdict.result, budgets, path, now, s, log)
  {
    hide Answers, EvaluateBudget, BudgetAppliesToPath, Exhausted, Ancestors, IsNormal, HasMoneyLeft, Spend,
         WindowStart, ChargedTo, PeriodBounds, AllHaveMoney;
    var b := ExceededAnswer(results, verdict, budgets, path, now, s, log);
    assert IsNormal(b.userPath);
    MoneyDecides(b, now, s, log);
    GateAgreesWithCharge(b.userPath, path, Usage(Some(path), 0, None, None));
    var i := FirstExceeded(results, verdict, budgets, path, now, s, log);
  }

  lemma FirstExceeded(results: seq<CheckResult>, verdict: Verdict, budgets: seq<Budget>, path: string,
                      now: int, s: Settings, log: seq<Usage>) returns (i: nat)
    requires IsNormal(path) && forall b :: b in budgets ==> IsNormal(b.userPath)
    requires Answers(results, verdict, budgets, path, now, s, log) && verdict.Exceeded?
    ensures i < |budgets| && budgets[i] == verdict.result.budget && AllHaveMoney(budgets[..i], path, now, s, log)
  {
    hide Checked, Applicable, Admits, AllHaveMoney, IsNormal;
    i :| 0 <= i < |budgets| && budgets[i] == verdict.result.budget && Admits(budgets[..i], path, now, s, log);
    assert forall b :: b in budgets[..i] ==> b in budgets;
    AdmitsByMoney(budgets[..i], path, now, s, log);
  }

  lemma ApplicableStep(budgets: seq<Budget>, path: string, i: nat)
    requires i < |budgets|
    ensures Applicable(budgets[..i + 1], path)
      == if BudgetAppliesToPath(budgets[i].userPath, path) then Applicable(budgets[..i], path) + [budgets[i]]
         else Applicable(budgets[..i], path)
    ensures Applicable(budgets[..i + 1], path) <= Applicable(budgets, path)
  {
    assert budgets[..i + 1][..i] == budgets[..i];
    ApplicablePrefix(budgets, path, i + 1);
  }

  lemma AdmitsStep(budgets: seq<Budget>, i: nat, path: string, now: int, s: Settings, log: seq<Usage>)
    requires i < |budgets| && Admits(budgets[..i], path, now, s, log)
    ensures var e := EvaluateBudget(log, budgets[i], now, s);
      if !BudgetAppliesToPath(budgets[i].userPath, path) || (e.Evaluated? && !Exhausted(e.result))
      then Admits(budgets[..i + 1], path, now, s, log)
      else !Admits(budgets, path, now, s, log)
  {
    hide EvaluateBudget, BudgetAppliesToPath;
    assert budgets[..i + 1] == budgets[..i] + [budgets[i]];
    assert budgets[i] in budgets;
  }

  lemma CheckedMore(results: seq<CheckResult>, r: CheckResult, applicable: seq<Budget>, b: Budget,
                    now: int, s: Settings, log: seq<Usage>)
    requires |results| == |applicable| && Checked(results, false, applicable, now, s, log)
    requires EvaluateBudget(log, b, now, s) == Evaluated(r)
    ensures Checked(results + [r], Exhausted(r), applicable + [b], now, s, log)
  {
    hide EvaluateBudget;
  }

  lemma CheckedWider(results: seq<CheckResult>, stopped: bool, applicable: seq<Budget>, all: seq<Budget>,
                     now: int, s: Settings, log: seq<Usage>)
    requires Checked(results, stopped, applicable, now, s, log) && applicable <= all
    ensures Checked(results, stopped, all, now, s, log)
  {
    hide EvaluateBudget;
  }

  lemma {:induction false} ApplicablePrefix(budgets: seq<Budget>, path: string, n: nat)
    requires n <= |budgets|
    ensures Applicable(budgets[..n], path) <= Applicable(budgets, path)
    decreases |budgets|
  {
    if n < |budgets| {
      var front := budgets[..|budgets| - 1];
      ApplicablePrefix(front, path, n);
      assert front[..n] == budgets[..n];
    } else {
      assert budgets[..n] == budgets;
    }
  }

  lemma NormalBudgetEvaluates(log: seq<Usage>, b: Budget, now: int, s: Settings)
    requires IsNormal(b.userPath)
    ensures EvaluateBudget(log, b, now, s).Evaluated?
  {
    hide PeriodBounds;
    BudgetPathFixed(b.userPath);
  }

  /** A request is admitted exactly when no budget on its ancestor chain is exhausted, so the
      decision does not depend on the order in which the budgets are checked. */
  lemma AdmitsByAncestors(budgets: seq<Budget>, path: string, now: int, s: Settings, log: seq<Usage>)
    requires IsNormal(path) && forall b :: b in budgets ==> IsNormal(b.userPath)
    ensures Admits(budgets, path, now, s, log) <==> forall b :: b in budgets && b.userPath in Ancestors(path) ==>
      var e := EvaluateBudget(log, b, now, s); e.Evaluated? && !Exhausted(e.result)
  {
    hide EvaluateBudget, BudgetAppliesToPath, Ancestors, IsNormal, ChargedTo;
    forall b | b in budgets
      ensures BudgetAppliesToPath(b.userPath, path) <==> b.userPath in Ancestors(path)
      ensures EvaluateBudget(log, b, now, s).Evaluated?
    {
      GateAgreesWithCharge(b.userPath, path, Usage(Some(path), 0, None, None));
      NormalBudgetEvaluates(log, b, now, s);
    }
  }

  lemma BudgetPathIsNormal(raw: string)
    ensures BudgetPath(raw).Path? ==> IsNormal(BudgetPath(raw).path)
  {
    NormalizeIsNormal(raw);
  }

  /** Nothing charged to the budget in its window has a cost, or what it adds up to is less than
      the amount. */
  ghost predicate HasMoneyLeft(b: Budget, now: int, s: Settings, log: seq<Usage>) {
    var start := WindowStart(b, now, s);
    || (forall u :: u in log && start <= u.at < now && Uncached(u) && ChargedTo(b.userPath, u) ==> u.totalCost.None?)
    || Spend(log, b.userPath, start, now) < b.amount
  }

  ghost predicate AllHaveMoney(budgets: seq<Budget>, path: string, now: int, s: Settings, log: seq<Usage>) {
    forall b :: b in budgets && b.userPath in Ancestors(path) ==> HasMoneyLeft(b, now, s, log)
  }

  lemma MoneyDecides(b: Budget, now: int, s: Settings, log: seq<Usage>)
    requires IsNormal(b.userPath)
    ensures var e := EvaluateBudget(log, b, now, s);
      && e.Evaluated? && (!Exhausted(e.result) <==> HasMoneyLeft(b, now, s, log))
      && e.result.budget == b && e.result.spent == Spend(log, b.userPath, WindowStart(b, now, s), now)
      && e.result.remaining == b.amount - e.result.spent && (Exhausted(e.result) ==> e.result.spent >= b.amount)
      && e.result.periodStart == WindowStart(b, now, s)
      && e.result.periodEnd == PeriodBounds(now, b.periodSeconds, s).end
  {
    hide PeriodBounds, BudgetPath, Spend, ChargedTo, Uncached, IsNormal;
    BudgetPathFixed(b.userPath);
    var start := WindowStart(b, now, s);
    assert HasSpend(log, b.userPath, start, now) <==>
      exists u :: u in log && start <= u.at < now && Uncached(u) && ChargedTo(b.userPath, u) && u.totalCost.Some?;
  }

  /** Admission in money: a request is admitted exactly when every budget on its path's ancestor
      chain has no cost charged to it in its window, or less than its amount. */
  lemma AdmitsByMoney(budgets: seq<Budget>, path: string, now: int, s: Settings, log: seq<Usage>)
    requires IsNormal(path) && forall b :: b in budgets ==> IsNormal(b.userPath)
    ensures Admits(budgets, path, now, s, log) <==> AllHaveMoney(budgets, path, now, s, log)
  {
    AdmitsByAncestors(budgets, path, now, s, log);
    hide EvaluateBudget, Admits, Ancestors, IsNormal, HasMoneyLeft, Exhausted;
    forall b | b in budgets
      ensures var e := EvaluateBudget(log, b, now, s);
        e.Evaluated? && (!Exhausted(e.result) <==> HasMoneyLeft(b, now, s, log))
    {
      MoneyDecides(b, now, s, log);
    }
  }

  lemma {:induction false} NoSpendIsZero(log: seq<Usage>, path: string, start: int, end: int)
    requires !HasSpend(log, path, start, end)
    ensures Spend(log, path, start, end) == 0.0
  {
    if log != [] {
      var u := log[|log| - 1];
      assert log == log[..|log| - 1] + [u];
      SpendMore(log[..|log| - 1], u, path, start, end);
      NoSpendIsZero(log[..|log| - 1], path, start, end);
    }
  }

  /** An admitted request overshoots a budget by less than its own cost: when nothing else is
      recorded between the check and a later evaluation of the same window, the spend it leaves
      is below the amount plus the cost, whenever in between its usage is recorded. */
  lemma OvershootIsBounded(log: seq<Usage>, b: Budget, path: string, u: Usage, now: int, later: int, s: Settings)
    requires IsNormal(path) && IsNormal(b.userPath) && b.userPath in Ancestors(path) && b.amount > 0.0
    requires Admits([b], path, now, s, log)
    requires u.userPath == Some(path) && Uncached(u) && u.totalCost.Some? && now <= u.at < later
    requires WindowStart(b, later, s) == WindowStart(b, now, s) <= now
    requires Spend(log, b.userPath, now, later) == 0.0
    ensures var e := EvaluateBudget(log + [u], b, later, s);
      e.Evaluated? && e.result.spent < b.amount + u.totalCost.value
  {
    hide PeriodBounds, BudgetAppliesToPath, BudgetPath, Ancestors, IsNormal;
    var start := WindowStart(b, now, s);
    RecordingCharges(log, path, u, b, later, s);
    SpendSplits(log, b.userPath, start, now, later);
    GateAgreesWithCharge(b.userPath, path, Usage(Some(path), 0, None, None));
    BudgetPathFixed(b.userPath);
    assert b in [b];
    if !HasSpend(log, b.userPath, start, now) {
      NoSpendIsZero(log, b.userPath, start, now);
    }
  }
}
