/** The budgets table and its transitions (internal/budget/store_postgresql.go): admin upserts,
    deletes and resets, and the replacement of the configured budgets at start-up. */
module BudgetStore {
  import opened Text
  import opened UserPath
  import opened Periods
  import opened BudgetSpend
  import opened BudgetTable

  // Times are stored in whole seconds
  datatype Row = Row(amount: real, source: string, lastResetAt: Option<int>, createdAt: int, updatedAt: int)

  type Table = map<Key, Row>

  function UnixOrNil(t: Option<int>): Option<int> {
    if t.Some? then Some(UnixOf(t.value)) else None
  }

  function NewRow(b: Budget): Row {
    Row(b.amount, b.source, UnixOrNil(b.lastResetAt), UnixOf(b.createdAt), UnixOf(b.updatedAt))
  }

  /** ON CONFLICT: a manual budget overrides any row, any budget overrides a configured row;
      creation and last reset are never touched. */
  function Merged(row: Row, b: Budget): Row {
    if b.source == SOURCE_MANUAL || row.source == SOURCE_CONFIG
    then row.(amount := b.amount, source := b.source, updatedAt := UnixOf(b.updatedAt))
    else row
  }

  function UpsertOne(table: Table, b: Budget): Table {
    table[KeyOf(b) := if KeyOf(b) in table then Merged(table[KeyOf(b)], b) else NewRow(b)]
  }

  /** Upserting one budget for each key, all at once. */
  function UpsertAll(table: Table, latest: map<Key, Budget>): Table {
    map k | k in table.Keys + latest.Keys ::
      if k !in latest then table[k]
      else if k in table then Merged(table[k], latest[k])
      else NewRow(latest[k])
  }

  function AsConfig(latest: map<Key, Budget>): map<Key, Budget> {
    map k | k in latest :: latest[k].(source := SOURCE_CONFIG)
  }

  function WithoutOldConfig(table: Table, kept: set<Key>): Table {
    map k | k in table && (table[k].source != SOURCE_CONFIG || k in kept) :: table[k]
  }

  function Touched(row: Row, at: int): Row {
    row.(lastResetAt := Some(UnixOf(at)), updatedAt := UnixOf(at))
  }

  // The operations, with the moment each reads the clock

  datatype Op =
    | Upsert(budgets: seq<Budget>, now: int)
    | Delete(userPath: string, periodSeconds: int)
    | ReplaceConfig(budgets: seq<Budget>, now: int)
    | Reset(userPath: string, periodSeconds: int, at: int)
    | ResetAll(at: int)

  datatype Outcome = Done(table: Table) | Refused(error: Error)

  /** The key a delete or reset addresses, or the error for bad arguments. */
  function Addressed(userPath: string, periodSeconds: int): Outcome {
    match BudgetPath(userPath)
    case Invalid(e) => Refused(BadPath(e))
    case Path(p) => if periodSeconds <= 0 then Refused(BadPeriod) else Done(map[])
  }

  function AddressedKey(userPath: string, periodSeconds: int): Key
    requires BudgetPath(userPath).Path?
  {
    (BudgetPath(userPath).path, periodSeconds)
  }

  /** What an operation makes of the table; a refused one leaves it as it was. */
  function Result(table: Table, op: Op): Outcome {
    match op
    case Upsert(budgets, now) =>
      var all := NormalizeAll(budgets, now);
      if all.BadBatch? then Refused(all.error) else Done(UpsertAll(table, Latest(all.budgets)))
    case ReplaceConfig(budgets, now) =>
      var all := NormalizeAll(budgets, now);
      if all.BadBatch? then Refused(all.error)
      else
        var latest := Latest(all.budgets);
        Done(UpsertAll(WithoutOldConfig(table, latest.Keys), AsConfig(latest)))
    case Delete(userPath, periodSeconds) =>
      if Addressed(userPath, periodSeconds).Refused? then Addressed(userPath, periodSeconds)
      else
        var k := AddressedKey(userPath, periodSeconds);
        if k in table then Done(table - {k}) else Refused(NotFound)
    case Reset(userPath, periodSeconds, at) =>
      if Addressed(userPath, periodSeconds).Refused? then Addressed(userPath, periodSeconds)
      else
        var k := AddressedKey(userPath, periodSeconds);
        if k in table then Done(table[k := Touched(table[k], at)]) else Refused(NotFound)
    case ResetAll(at) =>
      Done(map k | k in table :: Touched(table[k], at))
  }

  function After(table: Table, op: Op): Table {
    match Result(table, op)
    case Done(t) => t
    case Refused(_) => table
  }

  class Store {
    var rows: Table

    constructor ()
      ensures rows == map[]
    {
      rows := map[];
    }

    /** The statements of one transaction, for budgets with distinct keys. */
    method UpsertRows(budgets: seq<Budget>)
      requires DistinctKeys(budgets)
      modifies this
      ensures rows == UpsertAll(old(rows), Latest(budgets))
    {
      for i := 0 to |budgets|
        invariant rows == UpsertAll(old(rows), Latest(budgets[..i]))
      {
        UpsertNext(old(rows), budgets, i);
        rows := UpsertOne(rows, budgets[i]);
      }
      assert budgets[..|budgets|] == budgets;
    }

    method UpsertBudgets(budgets: seq<Budget>, now: int) returns (error: Option<Error>)
      modifies this
      ensures rows == After(old(rows), Upsert(budgets, now))
      ensures match Result(old(rows), Upsert(budgets, now))
        case Done(_) => error == None
        case Refused(e) => error == Some(e)
    {
      var batch := NormalizeBudgetsForUpsert(budgets, now);
      if batch.BadBatch? {
        return Some(batch.error);
      }
      if |batch.budgets| == 0 {
        assert UpsertAll(rows, map[]) == rows;
        return None;
      }
      UpsertRows(batch.budgets);
      return None;
    }

    method DeleteBudget(userPath: string, periodSeconds: int) returns (error: Option<Error>)
      modifies this
      ensures rows == After(old(rows), Delete(userPath, periodSeconds))
      ensures match Result(old(rows), Delete(userPath, periodSeconds))
        case Done(_) => error == None
        case Refused(e) => error == Some(e)
    {
      var path := BudgetPath(userPath);
      if path.Invalid? {
        return Some(BadPath(path.error));
      }
      if periodSeconds <= 0 {
        return Some(BadPeriod);
      }
      if (path.path, periodSeconds) !in rows {
        return Some(NotFound);
      }
      rows := rows - {(path.path, periodSeconds)};
      return None;
    }

    method MarkConfigured(budgets: seq<Budget>) returns (given: seq<Budget>)
      ensures |given| == |budgets|
      ensures forall j :: 0 <= j < |given| ==> given[j] == budgets[j].(source := SOURCE_CONFIG)
    {
      given := budgets;
      for i := 0 to |given|
        invariant |given| == |budgets|
        invariant forall j :: 0 <= j < |given| ==>
          given[j] == if j < i then budgets[j].(source := SOURCE_CONFIG) else budgets[j]
      {
        given := given[i := given[i].(source := SOURCE_CONFIG)];
      }
    }

    method KeysOf(budgets: seq<Budget>) returns (kept: set<Key>)
      ensures kept == set j | 0 <= j < |budgets| :: KeyOf(budgets[j])
    {
      kept := {};
      for i := 0 to |budgets|
        invariant kept == set j | 0 <= j < i :: KeyOf(budgets[j])
      {
        kept := kept + {KeyOf(budgets[i])};
      }
    }

    method ReplaceConfigBudgets(budgets: seq<Budget>, now: int) returns (error: Option<Error>)
      modifies this
      ensures rows == After(old(rows), ReplaceConfig(budgets, now))
      ensures match Result(old(rows), ReplaceConfig(budgets, now))
        case Done(_) => error == None
        case Refused(e) => error == Some(e)
    {
      hide NormalizeAll, Latest, NormalizeBudget, BudgetPath, UpsertAll, WithoutOldConfig, AsConfig;
      var batch := NormalizeBudgetsForUpsert(budgets, now);
      if batch.BadBatch? {
        return Some(batch.error);
      }
      var given := MarkConfigured(batch.budgets);
      var kept := KeysOf(given);
      ConfigGiven(batch.budgets, given);
      SameKeys(batch.budgets, given, kept);
      KeysGiven(batch.budgets, kept);
      rows := WithoutOldConfig(rows, kept);
      UpsertRows(given);
      return None;
    }

    method ResetBudget(userPath: string, periodSeconds: int, at: int) returns (error: Option<Error>)
      modifies this
      ensures rows == After(old(rows), Reset(userPath, periodSeconds, at))
      ensures match Result(old(rows), Reset(userPath, periodSeconds, at))
        case Done(_) => error == None
        case Refused(e) => error == Some(e)
    {
      var path := BudgetPath(userPath);
      if path.Invalid? {
        return Some(BadPath(path.error));
      }
      if periodSeconds <= 0 {
        return Some(BadPeriod);
      }
      var k := (path.path, periodSeconds);
      if k !in rows {
        return Some(NotFound);
      }
      rows := rows[k := Touched(rows[k], at)];
      return None;
    }

    method ResetAllBudgets(at: int)
      modifies this
      ensures rows == After(old(rows), ResetAll(at))
    {
      rows := map k | k in rows :: Touched(rows[k], at);
    }
  }

  lemma SameKeys(budgets: seq<Budget>, given: seq<Budget>, kept: set<Key>)
    requires |given| == |budgets| && forall j :: 0 <= j < |given| ==> given[j] == budgets[j].(source := SOURCE_CONFIG)
    requires kept == set j | 0 <= j < |given| :: KeyOf(given[j])
    ensures kept == set j | 0 <= j < |budgets| :: KeyOf(budgets[j])
  {
    assert forall j :: 0 <= j < |given| ==> KeyOf(given[j]) == KeyOf(budgets[j]);
    hide KeyOf;
  }

  /** One statement more, on a key not upserted before. */
  lemma UpsertNext(table: Table, budgets: seq<Budget>, i: nat)
    requires i < |budgets| && DistinctKeys(budgets)
    ensures UpsertAll(table, Latest(budgets[..i + 1])) == UpsertOne(UpsertAll(table, Latest(budgets[..i])), budgets[i])
  {
    assert budgets[..i + 1] == budgets[..i] + [budgets[i]];
    LatestMore(budgets[..i], budgets[i]);
    LatestKeys(budgets[..i]);
  }

  lemma {:induction false} ConfigGiven(budgets: seq<Budget>, given: seq<Budget>)
    requires |given| == |budgets| && DistinctKeys(budgets)
    requires forall j :: 0 <= j < |given| ==> given[j] == budgets[j].(source := SOURCE_CONFIG)
    ensures DistinctKeys(given) && Latest(given) == AsConfig(Latest(budgets))
  {
    if budgets != [] {
      ConfigGiven(budgets[..|budgets| - 1], given[..|given| - 1]);
    }
  }

  lemma KeysGiven(budgets: seq<Budget>, kept: set<Key>)
    requires kept == set j | 0 <= j < |budgets| :: KeyOf(budgets[j])
    ensures kept == Latest(budgets).Keys
  {
    LatestKeys(budgets);
  }

  // What a replacement of the configuration does

  /** Each row after a replacement, on its own: rows of other sources stay as they were, a
      given key is configured with the last amount given for it and keeps its creation and
      last reset, and no other configured row remains. */
  lemma ReplacementRows(table: Table, budgets: seq<Budget>, now: int, k: Key)
    requires NormalizeAll(budgets, now).Batch?
    ensures var latest, after := LatestAll(budgets, now), After(table, ReplaceConfig(budgets, now));
      && (k in table && table[k].source != SOURCE_CONFIG ==> k in after && after[k] == table[k])
      && (k in latest && (k !in table || table[k].source == SOURCE_CONFIG) ==>
            k in after && after[k].source == SOURCE_CONFIG && after[k].amount == latest[k].amount)
      && (k in latest && k in table ==>
            after[k].createdAt == table[k].createdAt && after[k].lastResetAt == table[k].lastResetAt)
      && (k !in latest && (k !in table || table[k].source == SOURCE_CONFIG) ==> k !in after)
  {
    hide NormalizeAll, Latest;
  }

  /** The configured keys after a replacement are exactly the given ones not held by a row of
      another source. */
  lemma ConfiguredKeys(table: Table, budgets: seq<Budget>, now: int)
    requires NormalizeAll(budgets, now).Batch?
    ensures var latest, after := LatestAll(budgets, now), After(table, ReplaceConfig(budgets, now));
      (set k | k in after && after[k].source == SOURCE_CONFIG)
      == (set k | k in latest && !(k in table && table[k].source != SOURCE_CONFIG))
  {
    hide NormalizeAll, Latest, After;
    forall k { ReplacementRows(table, budgets, now, k); }
  }

  // Deletions and resets from what is given alone

  /** The key a path and a period address, or why they address none. */
  ghost predicate Addresses(userPath: string, periodSeconds: int, k: Key) {
    var n := Normalize(userPath);
    periodSeconds > 0 && n.Path? && k == (if n.path == "" then "/" else n.path, periodSeconds)
  }

  ghost predicate FaultyAddress(userPath: string, periodSeconds: int, e: Error) {
    var n := Normalize(userPath);
    if n.Invalid? then e == BadPath(n.error) else periodSeconds <= 0 && e == BadPeriod
  }

  /** A deletion removes the addressed row and nothing else; without one it is refused. */
  lemma DeletesItsRow(table: Table, userPath: string, periodSeconds: int, k: Key)
    ensures var r := Result(table, Delete(userPath, periodSeconds));
      && (forall e :: FaultyAddress(userPath, periodSeconds, e) ==> r == Refused(e))
      && (Addresses(userPath, periodSeconds, k) && k !in table ==> r == Refused(NotFound))
      && (Addresses(userPath, periodSeconds, k) && k in table ==>
            && r.Done? && r.table.Keys == table.Keys - {k}
            && forall other :: other in r.table ==> r.table[other] == table[other])
  {
    hide Normalize;
  }

  ghost predicate IsReset(row: Row, before: Row, at: int) {
    row == Row(before.amount, before.source, Some(at / 1_000_000_000), before.createdAt, at / 1_000_000_000)
  }

  /** A reset changes the addressed row, in its reset and update times only; without one it is
      refused. */
  lemma ResetsItsRow(table: Table, userPath: string, periodSeconds: int, at: int, k: Key)
    ensures var r := Result(table, Reset(userPath, periodSeconds, at));
      && (forall e :: FaultyAddress(userPath, periodSeconds, e) ==> r == Refused(e))
      && (Addresses(userPath, periodSeconds, k) && k !in table ==> r == Refused(NotFound))
      && (Addresses(userPath, periodSeconds, k) && k in table ==>
            && r.Done? && r.table.Keys == table.Keys && IsReset(r.table[k], table[k], at)
            && forall other :: other in table && other != k ==> r.table[other] == table[other])
  {
    hide Normalize;
  }

  /** Resetting all budgets does so to every row. */
  lemma ResetsEveryRow(table: Table, at: int)
    ensures var r := Result(table, ResetAll(at));
      r.Done? && r.table.Keys == table.Keys && forall k :: k in table ==> IsReset(r.table[k], table[k], at)
  {
  }

  // Upserts and replacements from what is given alone

  ghost predicate AllUsable(budgets: seq<Budget>) { forall b :: b in budgets ==> !Unusable(b) }

  /** The row a given budget makes when there is none. */
  function GivenRow(b: Budget, source: string, now: int): Row {
    Row(b.amount, source, if b.lastResetAt.Some? then Some(b.lastResetAt.value / 1_000_000_000) else None,
        (if b.createdAt == ZERO_TIME then now else b.createdAt) / 1_000_000_000, now / 1_000_000_000)
  }

  /** An upsert or replacement is refused exactly when some given budget has an invalid path, no
      positive period or no positive amount, for the fault of the first such budget. */
  lemma RefusedForFirstFault(table: Table, budgets: seq<Budget>, now: int)
    ensures Result(table, Upsert(budgets, now)).Refused? <==> !AllUsable(budgets)
    ensures Result(table, ReplaceConfig(budgets, now)).Refused? <==> !AllUsable(budgets)
    ensures forall i :: 0 <= i < |budgets| && FirstUnusable(budgets, i) ==>
      && Result(table, Upsert(budgets, now)) == Refused(Fault(budgets[i]))
      && Result(table, ReplaceConfig(budgets, now)) == Refused(Fault(budgets[i]))
  {
    hide NormalizeAll, Unusable, Fault, Latest;
    RefusedExactly(budgets, now);
  }

  /** The last budget given for each path and period makes a new row with its own amount, trimmed
      source, last reset and creation; an existing row takes amount and source over when the
      budget is manual or the row configured, and keeps creation and last reset. */
  lemma UpsertStoresGiven(table: Table, budgets: seq<Budget>, now: int, i: nat)
    requires AllUsable(budgets) && i < |budgets| && LastGiven(budgets, i)
    ensures var b := budgets[i]; var k := GivenKey(b); var after := After(table, Upsert(budgets, now));
      && k in after
      && (k !in table ==> after[k] == GivenRow(b, Trim(b.source), now))
      && (k in table && (Trim(b.source) == "manual" || table[k].source == "config") ==>
            after[k] == table[k].(amount := b.amount, source := Trim(b.source), updatedAt := now / 1_000_000_000))
      && (k in table && Trim(b.source) != "manual" && table[k].source != "config" ==> after[k] == table[k])
  {
    LatestIsLastGiven(budgets, now, i);
    hide NormalizeAll, Latest, Unusable, GivenKey;
  }

  /** No other row is touched by an upsert. */
  lemma UpsertTouchesGiven(table: Table, budgets: seq<Budget>, now: int, k: Key)
    requires AllUsable(budgets) && forall i :: 0 <= i < |budgets| ==> GivenKey(budgets[i]) != k
    ensures var after := After(table, Upsert(budgets, now));
      (k in after <==> k in table) && (k in table ==> after[k] == table[k])
  {
    NotGiven(budgets, now, k);
    hide NormalizeAll, Latest, Unusable, GivenKey;
  }

  lemma NotGiven(budgets: seq<Budget>, now: int, k: Key)
    requires AllUsable(budgets) && forall i :: 0 <= i < |budgets| ==> GivenKey(budgets[i]) != k
    ensures NormalizeAll(budgets, now).Batch? && k !in LatestAll(budgets, now)
  {
    hide NormalizeAll, Latest, Unusable, GivenKey, LastGiven;
    RefusedExactly(budgets, now);
    if k in LatestAll(budgets, now) {
      LatestOnlyGiven(budgets, now, k);
    }
  }

  /** A replacement makes the last budget given for each path and period a configured row with its
      own amount, unless a row of another source holds the key; that row stays as it is. */
  lemma ReplacementStoresGiven(table: Table, budgets: seq<Budget>, now: int, i: nat)
    requires AllUsable(budgets) && i < |budgets| && LastGiven(budgets, i)
    ensures var b := budgets[i]; var k := GivenKey(b); var after := After(table, ReplaceConfig(budgets, now));
      && k in after
      && (k !in table ==> after[k] == GivenRow(b, "config", now))
      && (k in table && table[k].source == "config" ==>
            after[k] == table[k].(amount := b.amount, updatedAt := now / 1_000_000_000))
      && (k in table && table[k].source != "config" ==> after[k] == table[k])
  {
    LatestIsLastGiven(budgets, now, i);
    hide NormalizeAll, Latest, Unusable, GivenKey;
  }

  /** It removes the configured rows that are not given, and touches no other. */
  lemma ReplacementRemovesRest(table: Table, budgets: seq<Budget>, now: int, k: Key)
    requires AllUsable(budgets) && forall i :: 0 <= i < |budgets| ==> GivenKey(budgets[i]) != k
    ensures var after := After(table, ReplaceConfig(budgets, now));
      && (k in after <==> k in table && table[k].source != "config")
      && (k in after ==> after[k] == table[k])
  {
    NotGiven(budgets, now, k);
    hide NormalizeAll, Latest, Unusable, GivenKey;
  }

  // Runs

  function Run(table: Table, ops: seq<Op>): Table
    decreases |ops|
  {
    if ops == [] then table else Run(After(table, ops[0]), ops[1..])
  }

  /** The operation deletes the key or upserts it as a manual budget. */
  predicate TakesOver(op: Op, k: Key) {
    match op
    case Upsert(budgets, now) =>
      NormalizeAll(budgets, now).Batch? && k in LatestAll(budgets, now) &&
          LatestAll(budgets, now)[k].source == SOURCE_MANUAL
    case Delete(userPath, periodSeconds) =>
      BudgetPath(userPath).Path? && AddressedKey(userPath, periodSeconds) == k
    case _ => false
  }

  predicate Resets(op: Op, k: Key) {
    match op
    case Reset(userPath, periodSeconds, _) =>
      BudgetPath(userPath).Path? && AddressedKey(userPath, periodSeconds) == k
    case ResetAll(_) => true
    case _ => false
  }

  lemma HeldRowKept(table: Table, op: Op, k: Key)
    requires k in table && table[k].source != SOURCE_CONFIG && !TakesOver(op, k)
    ensures var after := After(table, op);
      && k in after && after[k].source == table[k].source && after[k].amount == table[k].amount
      && after[k].createdAt == table[k].createdAt
      && (!Resets(op, k) ==> after[k] == table[k])
  {
    hide NormalizeAll, Latest, BudgetPath;
  }

  /** In every run, a manual row survives all configuration replacements until it is deleted or
      manually upserted: nothing else changes its amount, source or creation, and only resets
      change the rest of it. */
  lemma {:induction false} ManualRowSurvives(table: Table, ops: seq<Op>, k: Key)
    requires k in table && table[k].source != SOURCE_CONFIG
    requires forall op :: op in ops ==> !TakesOver(op, k)
    ensures var after := Run(table, ops);
      && k in after && after[k].source == table[k].source && after[k].amount == table[k].amount
      && after[k].createdAt == table[k].createdAt
      && ((forall op :: op in ops ==> !Resets(op, k)) ==> after[k] == table[k])
    decreases |ops|
  {
    if ops != [] {
      hide After, TakesOver, Resets;
      assert ops[0] in ops && forall op :: op in ops[1..] ==> op in ops;
      HeldRowKept(table, ops[0], k);
      ManualRowSurvives(After(table, ops[0]), ops[1..], k);
    }
  }

  /** The table holds canonical keys only, through every run. */
  ghost predicate GoodTable(table: Table) {
    forall k :: k in table ==> GoodKey(k)
  }

  lemma {:induction false} NormalizedKeysGood(budgets: seq<Budget>, now: int)
    requires NormalizeAll(budgets, now).Batch?
    ensures forall k :: k in LatestAll(budgets, now) ==> GoodKey(k)
  {
    if budgets != [] {
      var front := budgets[..|budgets| - 1];
      NormalizedKeysGood(front, now);
      NormalizedKey(budgets[|budgets| - 1], now);
      var b := NormalizeBudget(budgets[|budgets| - 1], now).budget;
      LatestMore(NormalizeAll(front, now).budgets, b);
    }
  }

  lemma {:induction false} RunKeepsGoodTable(table: Table, ops: seq<Op>)
    requires GoodTable(table)
    ensures GoodTable(Run(table, ops))
    decreases |ops|
  {
    if ops != [] {
      assert GoodTable(After(table, ops[0])) by {
        hide NormalizeAll, Latest, BudgetPath, IsNormal;
        match ops[0]
        case Upsert(budgets, now) =>
          if NormalizeAll(budgets, now).Batch? { NormalizedKeysGood(budgets, now); }
        case ReplaceConfig(budgets, now) =>
          if NormalizeAll(budgets, now).Batch? { NormalizedKeysGood(budgets, now); }
        case _ =>
      }
      RunKeepsGoodTable(After(table, ops[0]), ops[1..]);
    }
  }

  lemma SameBudgetAtAnyTime(b: Budget, now: int, later: int)
    requires NormalizeBudget(b, now).Normalized?
    ensures var n, l := NormalizeBudget(b, now), NormalizeBudget(b, later);
      l.Normalized? && KeyOf(l.budget) == KeyOf(n.budget) && l.budget.amount == n.budget.amount
  {
    hide BudgetPath;
  }

  lemma {:induction false} SameAtAnyTime(budgets: seq<Budget>, now: int, later: int)
    requires NormalizeAll(budgets, now).Batch?
    ensures NormalizeAll(budgets, later).Batch?
    ensures LatestAll(budgets, later).Keys == LatestAll(budgets, now).Keys
    ensures forall k :: k in LatestAll(budgets, now) ==>
        LatestAll(budgets, later)[k].amount == LatestAll(budgets, now)[k].amount
  {
    if budgets != [] {
      var front, last := budgets[..|budgets| - 1], budgets[|budgets| - 1];
      SameAtAnyTime(front, now, later);
      SameBudgetAtAnyTime(last, now, later);
      hide NormalizeBudget, Latest;
      LatestMore(NormalizeAll(front, now).budgets, NormalizeBudget(last, now).budget);
      LatestMore(NormalizeAll(front, later).budgets, NormalizeBudget(last, later).budget);
    }
  }

  /** Replacing again later with the same budgets, as every restart does, changes nothing but
      the update times of configured rows. */
  lemma ReplacementIsIdempotent(table: Table, budgets: seq<Budget>, now: int, later: int, k: Key)
    requires NormalizeAll(budgets, now).Batch?
    ensures var once := After(table, ReplaceConfig(budgets, now));
      var twice := After(once, ReplaceConfig(budgets, later));
      (k in twice <==> k in once) && (k in once ==> twice[k] == once[k].(updatedAt := twice[k].updatedAt))
  {
    SameAtAnyTime(budgets, now, later);
    hide NormalizeAll, LatestAll, After;
    ReplacementRows(table, budgets, now, k);
    ReplacementRows(After(table, ReplaceConfig(budgets, now)), budgets, later, k);
  }

  /** Deleting a configured row does not last: the next replacement that gives its key brings
      it back with the configured amount. */
  lemma DeletedConfigReturns(table: Table, k: Key, budgets: seq<Budget>, now: int)
    requires GoodTable(table) && k in table
    requires NormalizeAll(budgets, now).Batch? && k in LatestAll(budgets, now)
    ensures var after := Run(table, [Delete(k.0, k.1), ReplaceConfig(budgets, now)]);
      k in after && after[k].source == SOURCE_CONFIG && after[k].amount == LatestAll(budgets, now)[k].amount
  {
    BudgetPathFixed(k.0);
    assert After(table, Delete(k.0, k.1)) == table - {k};
    hide NormalizeAll, Latest;
    var ops := [Delete(k.0, k.1), ReplaceConfig(budgets, now)];
    assert ops[1..] == [ReplaceConfig(budgets, now)] && ops[1..][1..] == [];
    assert Run(table, ops) == Run(table - {k}, ops[1..]) == After(table - {k}, ops[1]);
    ReplacementRows(table - {k}, budgets, now, k);
  }

  // What a reset means for the budget read back from the table

  const SECOND := 1_000_000_000

  function Loaded(k: Key, row: Row): Budget {
    Budget(k.0, k.1, row.amount, row.source,
           if row.lastResetAt.Some? then Some(row.lastResetAt.value * SECOND) else None,
           row.createdAt * SECOND, row.updatedAt * SECOND)
  }

  /** The spend a budget counts at `now`, once it is read back from the table. */
  function CountedSpend(log: seq<Usage>, table: Table, k: Key, now: int, s: Settings): Sum
    requires k in table
  {
    SumUsageCost(log, k.0, WindowStart(Loaded(k, table[k]), now, s), now)
  }

  function Later(a: int, b: int): int { if a > b then a else b }

  /** Resets are kept in whole seconds: after one at `at` a budget counts what was charged from
      the start of that second on.  So it counts only what came after the reset exactly when
      nothing was spent in the window earlier within that second. */
  lemma ResetForgetsWholeSeconds(log: seq<Usage>, table: Table, k: Key, at: int, now: int, s: Settings)
    requires GoodTable(table) && k in table && PeriodBounds(now, k.1, s).start <= now && at <= now
    ensures var after := After(table, Reset(k.0, k.1, at));
      var start := PeriodBounds(now, k.1, s).start;
      && k in after && CountedSpend(log, after, k, now, s).Sum?
      && CountedSpend(log, after, k, now, s).spent == Spend(log, k.0, Later(start, UnixOf(at) * SECOND), now)
      && (CountedSpend(log, after, k, now, s).spent == Spend(log, k.0, Later(start, at), now)
          <==> Spend(log, k.0, Later(start, UnixOf(at) * SECOND), Later(start, at)) == 0.0)
  {
    hide PeriodBounds, BudgetPath, Spend, HasSpend;
    BudgetPathFixed(k.0);
    var start := PeriodBounds(now, k.1, s).start;
    SpendSplits(log, k.0, Later(start, UnixOf(at) * SECOND), Later(start, at), now);
  }

  /** A cost of one 200 ms into a second is still counted after a reset 500 ms into it. */
  lemma ResetKeepsItsSecond(table: Table, k: Key, s: Settings)
    requires GoodTable(table) && k in table && PeriodBounds(SECOND, k.1, s).start <= 0
    ensures var log := [Usage(Some(k.0), SECOND / 5, Some(1.0), None)];
      var after := After(table, Reset(k.0, k.1, SECOND / 2));
      k in after && CountedSpend(log, after, k, SECOND, s) == Sum(1.0, true)
  {
    hide PeriodBounds, BudgetPath, HasSpend, ChargedTo, Ancestors;
    BudgetPathFixed(k.0);
    var u := Usage(Some(k.0), SECOND / 5, Some(1.0), None);
    GateAgreesWithCharge(k.0, k.0, u);
    assert BudgetAppliesToPath(k.0, k.0) by {
      NormalIsTrimmed(k.0);
      TrimFixed(k.0);
    }
    assert [] + [u] == [u];
    SpendMore([], u, k.0, WindowStart(Loaded(k, After(table, Reset(k.0, k.1, SECOND / 2))[k]), SECOND, s), SECOND);
  }
}
