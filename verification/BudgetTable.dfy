/** The budgets table: rows seeded from configuration beside rows set through the admin API
    (internal/budget/store.go, internal/budget/store_postgresql.go). */
module BudgetTable {
  import Calendar
  import opened Text
  import opened UserPath
  import opened Periods
  import opened BudgetSpend

  const SOURCE_CONFIG := "config"
  const SOURCE_MANUAL := "manual"

  // Go's zero time.Time
  const ZERO_TIME := -62_135_596_800_000_000_000

  /** It is the start of January 1st of year 1. */
  lemma ZeroTimeIs()
    ensures ZERO_TIME == Calendar.Date(1, 1, 1, 0)
  {
    Calendar.NewYearsDay(1);
    hide Calendar.DateDay;
  }

  datatype Error = BadPath(error: PathError) | BadPeriod | BadAmount | NotFound

  datatype Normalized = Normalized(budget: Budget) | Rejected(error: Error)

  datatype Batch = Batch(budgets: seq<Budget>) | BadBatch(error: Error)

  // Keys of the seen map

  /** Decimal digits, as fmt.Sprint prints a non-negative integer. */
  function Digits(n: nat): string {
    if n < 10 then [Digit(n)] else Digits(n / 10) + [Digit(n % 10)]
  }

  function Digit(n: nat): char
    requires n < 10
  {
    "0123456789"[n]
  }

  function Sprint(n: int): string {
    if n < 0 then "-" + Digits(-n) else Digits(n)
  }

  function BudgetKey(userPath: string, periodSeconds: int): string {
    Trim(userPath) + ":" + Sprint(periodSeconds)
  }

  /** The number that decimal digits write. */
  function ReadDigits(s: string): int {
    if s == "" then 0 else 10 * ReadDigits(s[..|s| - 1]) + (s[|s| - 1] as int - '0' as int)
  }

  function ReadInt(s: string): int {
    if s != "" && s[0] == '-' then -ReadDigits(s[1..]) else ReadDigits(s)
  }

  lemma {:induction false} DigitsRead(n: nat)
    ensures ReadDigits(Digits(n)) == n
    ensures forall c :: c in Digits(n) ==> '0' <= c <= '9'
    ensures Digits(n) != "" && (|Digits(n)| > 1 ==> Digits(n)[0] != '0')
  {
    var s := Digits(n);
    assert s[|s| - 1] as int == '0' as int + n % 10;
    if n >= 10 {
      assert s[..|s| - 1] == Digits(n / 10);
      DigitsRead(n / 10);
      assert s[0] == Digits(n / 10)[0];
    }
  }

  /** A printed number reads as itself. */
  lemma SprintReads(n: int)
    ensures ReadInt(Sprint(n)) == n
  {
    DigitsRead(if n < 0 then -n else n);
    assert n >= 0 ==> Digits(n)[0] in Digits(n);
  }

  lemma FirstColon(a: string, b: string, c: string, d: string)
    requires a + ":" + b == c + ":" + d && ':' !in a && ':' !in c
    ensures a == c && b == d
  {
    var s := a + ":" + b;
    assert s[|a|] == ':' && s[|c|] == ':';
    assert forall k :: 0 <= k < |a| ==> s[k] == a[k] != ':';
    assert forall k :: 0 <= k < |c| ==> s[k] == c[k] != ':';
    assert a == s[..|a|] && c == s[..|c|];
    assert b == s[|a| + 1..] && d == s[|c| + 1..];
  }

  lemma {:induction false} JoinHasNoColon(segments: seq<string>)
    requires forall seg :: seg in segments ==> ':' !in seg
    ensures ':' !in Join(segments, '/')
  {
    if |segments| > 1 {
      JoinHasNoColon(segments[1..]);
    }
  }

  /** Because canonical paths hold no colon, the printed key tells budgets apart. */
  lemma BudgetKeyInjective(p: string, m: int, q: string, n: int)
    requires IsNormal(p) && IsNormal(q) && BudgetKey(p, m) == BudgetKey(q, n)
    ensures p == q && m == n
  {
    NormalHasNoColon(p);
    NormalHasNoColon(q);
    FirstColon(p, Sprint(m), q, Sprint(n));
    SprintReads(m);
    SprintReads(n);
  }

  /** The key is the canonical path and the number of seconds, and both can be read off it. */
  lemma BudgetKeyReads(p: string, seconds: int)
    requires IsNormal(p)
    ensures var key := BudgetKey(p, seconds); p + ":" <= key && ReadInt(key[|p| + 1..]) == seconds
  {
    NormalHasNoColon(p);
    SprintReads(seconds);
  }

  lemma NormalHasNoColon(p: string)
    requires IsNormal(p)
    ensures Trim(p) == p && ':' !in p
  {
    NormalIsTrimmed(p);
    TrimFixed(p);
    if p != "/" {
      JoinSplit(p[1..], '/');
      JoinHasNoColon(Split(p[1..], '/'));
      assert p == "/" + p[1..];
    }
  }

  // Normalization

  function NormalizeBudget(b: Budget, now: int): Normalized {
    match BudgetPath(b.userPath)
    case Invalid(e) => Rejected(BadPath(e))
    case Path(path) =>
      if b.periodSeconds <= 0 then Rejected(BadPeriod)
      else if b.amount <= 0.0 then Rejected(BadAmount)
      else Normalized(b.(userPath := path, source := Trim(b.source),
                         createdAt := if b.createdAt == ZERO_TIME then now else b.createdAt, updatedAt := now))
  }

  type Key = (string, int)

  function KeyOf(b: Budget): Key { (b.userPath, b.periodSeconds) }

  ghost predicate GoodKey(k: Key) { IsNormal(k.0) && k.1 > 0 }

  ghost predicate DistinctKeys(budgets: seq<Budget>) {
    forall i, j :: 0 <= i < j < |budgets| ==> KeyOf(budgets[i]) != KeyOf(budgets[j])
  }

  /** The normalized budgets, or the error of the first one that is rejected. */
  function NormalizeAll(budgets: seq<Budget>, now: int): Batch {
    if budgets == [] then Batch([])
    else
      match NormalizeAll(budgets[..|budgets| - 1], now)
      case BadBatch(e) => BadBatch(e)
      case Batch(front) =>
        match NormalizeBudget(budgets[|budgets| - 1], now)
        case Rejected(e) => BadBatch(e)
        case Normalized(b) => Batch(front + [b])
  }

  /** The last budget given for each key. */
  function Latest(budgets: seq<Budget>): map<Key, Budget> {
    if budgets == [] then map[]
    else Latest(budgets[..|budgets| - 1])[KeyOf(budgets[|budgets| - 1]) := budgets[|budgets| - 1]]
  }

  /** What an upsert works on: the last budget of each key. */
  function LatestAll(budgets: seq<Budget>, now: int): map<Key, Budget>
    requires NormalizeAll(budgets, now).Batch?
  {
    Latest(NormalizeAll(budgets, now).budgets)
  }

  lemma NormalizeAllStep(budgets: seq<Budget>, i: nat, now: int)
    requires i < |budgets|
    ensures NormalizeAll(budgets[..i + 1], now)
      == match NormalizeAll(budgets[..i], now)
         case BadBatch(e) => BadBatch(e)
         case Batch(front) =>
           match NormalizeBudget(budgets[i], now)
           case Rejected(e) => BadBatch(e)
           case Normalized(b) => Batch(front + [b])
  {
    assert budgets[..i + 1][..i] == budgets[..i];
  }

  lemma {:induction false} NormalizeAllFails(budgets: seq<Budget>, i: nat, now: int)
    requires i <= |budgets| && NormalizeAll(budgets[..i], now).BadBatch?
    ensures NormalizeAll(budgets, now) == NormalizeAll(budgets[..i], now)
    decreases |budgets| - i
  {
    if i < |budgets| {
      NormalizeAllStep(budgets, i, now);
      NormalizeAllFails(budgets, i + 1, now);
    } else {
      assert budgets[..i] == budgets;
    }
  }

  lemma LatestMore(budgets: seq<Budget>, b: Budget)
    ensures Latest(budgets + [b]) == Latest(budgets)[KeyOf(b) := b]
  {
    assert (budgets + [b])[..|budgets|] == budgets;
  }

  lemma {:induction false} LatestAt(budgets: seq<Budget>, i: nat)
    requires i < |budgets| && DistinctKeys(budgets)
    ensures KeyOf(budgets[i]) in Latest(budgets) && Latest(budgets)[KeyOf(budgets[i])] == budgets[i]
  {
    if i < |budgets| - 1 {
      var front := budgets[..|budgets| - 1];
      LatestAt(front, i);
      assert KeyOf(front[i]) != KeyOf(budgets[|budgets| - 1]);
    }
  }

  lemma {:induction false} LatestKeys(budgets: seq<Budget>)
    ensures forall k :: k in Latest(budgets) <==> exists i :: 0 <= i < |budgets| && KeyOf(budgets[i]) == k
    ensures forall k :: k in Latest(budgets) ==> KeyOf(Latest(budgets)[k]) == k && Latest(budgets)[k] in budgets
  {
    if budgets != [] {
      var front := budgets[..|budgets| - 1];
      LatestKeys(front);
      assert budgets == front + [budgets[|budgets| - 1]];
      forall k | k in Latest(front) ensures exists i :: 0 <= i < |budgets| && KeyOf(budgets[i]) == k {
        var i :| 0 <= i < |front| && KeyOf(front[i]) == k;
        assert KeyOf(budgets[i]) == k;
      }
    }
  }

  /** Replacing an item by one with its key changes just that entry. */
  lemma {:induction false} LatestReplace(budgets: seq<Budget>, i: nat, b: Budget)
    requires i < |budgets| && DistinctKeys(budgets) && KeyOf(b) == KeyOf(budgets[i])
    ensures DistinctKeys(budgets[i := b])
    ensures Latest(budgets[i := b]) == Latest(budgets)[KeyOf(b) := b]
  {
    var front, last := budgets[..|budgets| - 1], budgets[|budgets| - 1];
    if i == |budgets| - 1 {
      assert budgets[i := b] == front + [b];
      LatestMore(front, b);
    } else {
      assert budgets[i := b] == front[i := b] + [last];
      assert forall j, k :: 0 <= j < k < |front| ==> KeyOf(front[j]) != KeyOf(front[k]);
      LatestReplace(front, i, b);
      LatestMore(front[i := b], last);
    }
  }

  /** The budgets to upsert: one for each key, the last one given. */
  method NormalizeBudgetsForUpsert(budgets: seq<Budget>, now: int) returns (r: Batch)
    ensures r.BadBatch? <==> NormalizeAll(budgets, now).BadBatch?
    ensures r.BadBatch? ==> r == NormalizeAll(budgets, now)
    ensures r.Batch? ==> DistinctKeys(r.budgets) && Latest(r.budgets) == LatestAll(budgets, now)
    ensures r.Batch? ==> forall b :: b in r.budgets ==> GoodKey(KeyOf(b))
  {
    if |budgets| == 0 {
      return Batch([]);
    }
    NothingDone(budgets, now);
    hide Done, NormalizeAll, PrintedKey, NormalizeBudget, Latest, LatestAll, Indexes, BudgetKey, GoodKey;
    var normalized: seq<Budget> := [];
    var seen: map<string, nat> := map[];
    for i := 0 to |budgets|
      invariant Done(budgets[..i], now, normalized, seen)
    {
      NextDone(budgets, i, now, normalized, seen);
      var item := NormalizeBudget(budgets[i], now);
      if item.Rejected? {
        return BadBatch(item.error);
      }
      var b := item.budget;
      var key := PrintedKey(b);
      if key in seen {
        var existing := seen[key];
        normalized := normalized[existing := b];
      } else {
        seen := seen[key := |normalized|];
        normalized := normalized + [b];
      }
    }
    assert budgets[..|budgets|] == budgets;
    AllDone(budgets, now, normalized, seen);
    return Batch(normalized);
  }

  /** The loop's state after these budgets: one normalized budget for each key, and its position. */
  ghost predicate Done(budgets: seq<Budget>, now: int, normalized: seq<Budget>, seen: map<string, nat>) {
    && NormalizeAll(budgets, now).Batch? && DistinctKeys(normalized) && Latest(normalized) == LatestAll(budgets, now)
    && (forall b :: b in normalized ==> GoodKey(KeyOf(b))) && Indexes(seen, normalized)
  }

  lemma NothingDone(budgets: seq<Budget>, now: int)
    ensures Done(budgets[..0], now, [], map[])
  {
    assert NormalizeAll(budgets[..0], now) == Batch([]);
  }

  lemma AllDone(budgets: seq<Budget>, now: int, normalized: seq<Budget>, seen: map<string, nat>)
    requires Done(budgets, now, normalized, seen)
    ensures NormalizeAll(budgets, now).Batch? && DistinctKeys(normalized) &&
        Latest(normalized) == LatestAll(budgets, now)
    ensures forall b :: b in normalized ==> GoodKey(KeyOf(b))
  {
  }

  /** One budget more replaces the one with its key, or is appended, or fails the batch. */
  lemma NextDone(budgets: seq<Budget>, i: nat, now: int, normalized: seq<Budget>, seen: map<string, nat>)
    requires i < |budgets| && Done(budgets[..i], now, normalized, seen)
    ensures match NormalizeBudget(budgets[i], now)
      case Rejected(e) => NormalizeAll(budgets, now) == BadBatch(e)
      case Normalized(b) =>
        if PrintedKey(b) in seen then
          seen[PrintedKey(b)] < |normalized| && Done(budgets[..i + 1], now, normalized[seen[PrintedKey(b)] := b], seen)
        else Done(budgets[..i + 1], now, normalized + [b], seen[PrintedKey(b) := |normalized|])
  {
    hide Latest, NormalizeAll, BudgetKey, NormalizeBudget, IsNormal, Indexes, PrintedKey;
    NormalizeAllStep(budgets, i, now);
    match NormalizeBudget(budgets[i], now)
    case Rejected(_) => NormalizeAllFails(budgets, i + 1, now);
    case Normalized(b) =>
      NormalizedKey(budgets[i], now);
      LatestMore(NormalizeAll(budgets[..i], now).budgets, b);
      if PrintedKey(b) in seen {
        SeenKey(seen, normalized, b);
        LatestReplace(normalized, seen[PrintedKey(b)], b);
        IndexesReplaced(seen, normalized, b);
      } else {
        UnseenKey(seen, normalized, b);
        LatestMore(normalized, b);
        IndexesMore(seen, normalized, b);
      }
  }

  /** `seen` finds the position of every key among the normalized budgets. */
  ghost predicate Indexes(seen: map<string, nat>, normalized: seq<Budget>) {
    && (forall b :: b in normalized ==> GoodKey(KeyOf(b)))
    && (forall key :: key in seen ==> seen[key] < |normalized| && PrintedKey(normalized[seen[key]]) == key)
    && (forall i :: 0 <= i < |normalized| ==> PrintedKey(normalized[i]) in seen)
  }

  function PrintedKey(b: Budget): string { BudgetKey(b.userPath, b.periodSeconds) }

  lemma IndexesReplaced(seen: map<string, nat>, normalized: seq<Budget>, b: Budget)
    requires Indexes(seen, normalized) && GoodKey(KeyOf(b)) && PrintedKey(b) in seen
    ensures Indexes(seen, normalized[seen[PrintedKey(b)] := b])
  {
    hide BudgetKey, IsNormal;
  }

  lemma IndexesMore(seen: map<string, nat>, normalized: seq<Budget>, b: Budget)
    requires Indexes(seen, normalized) && GoodKey(KeyOf(b)) && PrintedKey(b) !in seen
    ensures Indexes(seen[PrintedKey(b) := |normalized|], normalized + [b])
  {
    hide BudgetKey, IsNormal;
  }

  lemma NormalizedKey(b: Budget, now: int)
    requires NormalizeBudget(b, now).Normalized?
    ensures GoodKey(KeyOf(NormalizeBudget(b, now).budget))
  {
    NormalizeIsNormal(b.userPath);
  }

  lemma SameKey(a: Budget, b: Budget)
    requires GoodKey(KeyOf(a)) && GoodKey(KeyOf(b))
    requires PrintedKey(a) == PrintedKey(b)
    ensures KeyOf(a) == KeyOf(b)
  {
    BudgetKeyInjective(a.userPath, a.periodSeconds, b.userPath, b.periodSeconds);
  }

  lemma SeenKey(seen: map<string, nat>, normalized: seq<Budget>, b: Budget)
    requires Indexes(seen, normalized) && GoodKey(KeyOf(b)) && PrintedKey(b) in seen
    ensures seen[PrintedKey(b)] < |normalized| && KeyOf(normalized[seen[PrintedKey(b)]]) == KeyOf(b)
  {
    SameKey(normalized[seen[PrintedKey(b)]], b);
  }

  lemma UnseenKey(seen: map<string, nat>, normalized: seq<Budget>, b: Budget)
    requires Indexes(seen, normalized) && GoodKey(KeyOf(b)) && PrintedKey(b) !in seen
    ensures forall i :: 0 <= i < |normalized| ==> KeyOf(normalized[i]) != KeyOf(b)
  {
  }

  // What is given and what is stored, without the normalization in between

  predicate Unusable(b: Budget) { Normalize(b.userPath).Invalid? || b.periodSeconds <= 0 || b.amount <= 0.0 }

  /** The key a given budget is stored under: its normalized path, the root for a blank one, and
      its period. */
  function GivenKey(b: Budget): Key
    requires !Unusable(b)
  {
    (if Normalize(b.userPath).path == "" then "/" else Normalize(b.userPath).path, b.periodSeconds)
  }

  /** The error of an unusable budget: of its path, else its period, else its amount. */
  function Fault(b: Budget): Error
    requires Unusable(b)
  {
    if Normalize(b.userPath).Invalid? then BadPath(Normalize(b.userPath).error)
    else if b.periodSeconds <= 0 then BadPeriod
    else BadAmount
  }

  /** The last given budget with its key. */
  ghost predicate LastGiven(budgets: seq<Budget>, i: nat)
    requires i < |budgets| && forall b :: b in budgets ==> !Unusable(b)
  {
    forall j :: i < j < |budgets| ==> GivenKey(budgets[j]) != GivenKey(budgets[i])
  }

  lemma NormalizeBudgetIs(b: Budget, now: int)
    ensures NormalizeBudget(b, now)
      == if Unusable(b) then Rejected(Fault(b))
         else Normalized(StoredAs(b, now))
  {
    hide Normalize;
  }

  /** The first unusable budget. */
  ghost predicate FirstUnusable(budgets: seq<Budget>, i: nat)
    requires i < |budgets|
  {
    Unusable(budgets[i]) && forall j :: 0 <= j < i ==> !Unusable(budgets[j])
  }

  /** A batch is refused exactly when some budget in it is unusable, with the fault of the first. */
  lemma {:induction false} RefusedExactly(budgets: seq<Budget>, now: int)
    ensures NormalizeAll(budgets, now).BadBatch? <==> exists b :: b in budgets && Unusable(b)
    ensures forall i :: 0 <= i < |budgets| && FirstUnusable(budgets, i) ==>
      NormalizeAll(budgets, now) == BadBatch(Fault(budgets[i]))
  {
    hide NormalizeBudget, Unusable, Fault;
    if budgets != [] {
      var front, last := budgets[..|budgets| - 1], budgets[|budgets| - 1];
      RefusedExactly(front, now);
      UnusableRejected(last, now);
      assert budgets == front + [last];
      assert (exists b :: b in budgets && Unusable(b)) <==> (exists b :: b in front && Unusable(b)) || Unusable(last);
      assert forall j :: 0 <= j < |front| ==> budgets[j] == front[j];
      assert forall i :: 0 <= i < |front| && FirstUnusable(budgets, i) ==> FirstUnusable(front, i);
    }
  }

  lemma UnusableRejected(b: Budget, now: int)
    ensures NormalizeBudget(b, now).Rejected? <==> Unusable(b)
    ensures Unusable(b) ==> NormalizeBudget(b, now).error == Fault(b)
  {
    NormalizeBudgetIs(b, now);
  }

  /** What is stored of a usable budget. */
  function StoredAs(b: Budget, now: int): Budget
    requires !Unusable(b)
  {
    Budget(GivenKey(b).0, GivenKey(b).1, b.amount, Trim(b.source), b.lastResetAt,
           if b.createdAt == ZERO_TIME then now else b.createdAt, now)
  }

  lemma LatestAllStep(budgets: seq<Budget>, now: int)
    requires budgets != [] && forall b :: b in budgets ==> !Unusable(b)
    ensures NormalizeAll(budgets, now).Batch? && NormalizeAll(budgets[..|budgets| - 1], now).Batch?
    ensures var last := budgets[|budgets| - 1];
      LatestAll(budgets, now) == LatestAll(budgets[..|budgets| - 1], now)[GivenKey(last) := StoredAs(last, now)]
  {
    var front, last := budgets[..|budgets| - 1], budgets[|budgets| - 1];
    RefusedExactly(budgets, now);
    RefusedExactly(front, now);
    assert forall b :: b in front ==> b in budgets;
    hide NormalizeBudget, Unusable, GivenKey, Latest;
    NormalizeBudgetIs(last, now);
    LatestMore(NormalizeAll(front, now).budgets, NormalizeBudget(last, now).budget);
  }

  /** What is upserted for a key is the last budget given for it. */
  lemma {:induction false} LatestIsLastGiven(budgets: seq<Budget>, now: int, i: nat)
    requires i < |budgets| && (forall b :: b in budgets ==> !Unusable(b)) && LastGiven(budgets, i)
    ensures NormalizeAll(budgets, now).Batch?
    ensures var b := budgets[i];
      GivenKey(b) in LatestAll(budgets, now) && LatestAll(budgets, now)[GivenKey(b)] == StoredAs(b, now)
  {
    var n := |budgets| - 1;
    var front := budgets[..n];
    LatestAllStep(budgets, now);
    hide *;
    if i < n {
      LastGivenBefore(budgets, i);
      LatestIsLastGiven(front, now, i);
      assert front[i] == budgets[i];
    } else {
      assert budgets[i] == budgets[n];
    }
  }

  lemma LastGivenBefore(budgets: seq<Budget>, i: nat)
    requires i < |budgets| - 1 && (forall b :: b in budgets ==> !Unusable(b)) && LastGiven(budgets, i)
    ensures var front := budgets[..|budgets| - 1];
      (forall b :: b in front ==> !Unusable(b)) && LastGiven(front, i)
    ensures GivenKey(budgets[|budgets| - 1]) != GivenKey(budgets[i])
  {
    hide Unusable, GivenKey;
    var front := budgets[..|budgets| - 1];
    assert forall b :: b in front ==> b in budgets;
    assert forall j :: i <= j < |front| ==> front[j] == budgets[j];
  }

  /** Only given keys are upserted. */
  lemma {:induction false} LatestOnlyGiven(budgets: seq<Budget>, now: int, k: Key)
    requires (forall b :: b in budgets ==> !Unusable(b)) && NormalizeAll(budgets, now).Batch?
    requires k in LatestAll(budgets, now)
    ensures exists i :: 0 <= i < |budgets| && GivenKey(budgets[i]) == k
  {
    if budgets != [] {
      var n := |budgets| - 1;
      var front := budgets[..n];
      LatestAllStep(budgets, now);
      hide NormalizeAll, LatestAll, Unusable, GivenKey, StoredAs;
      if GivenKey(budgets[n]) != k {
        assert forall b :: b in front ==> b in budgets;
        LatestOnlyGiven(front, now, k);
        var i :| 0 <= i < n && GivenKey(front[i]) == k;
        assert budgets[i] == front[i];
      }
    }
  }
}
