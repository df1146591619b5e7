/** Stored batches and the in-memory store (internal/batch/store.go, internal/batch/store_memory.go). */
module BatchStore {
  import opened Text
  import opened Sorting

  datatype Counts = Counts(total: int, completed: int, failed: int)

  datatype UsageSummary = UsageSummary(
    inputTokens: int, outputTokens: int, totalTokens: int,
    inputCost: Option<real>, outputCost: Option<real>, totalCost: Option<real>)

  // The public batch object; an empty metadata map stands for Go's nil and empty map
  datatype BatchResponse = BatchResponse(
    id: string, object_: string, provider: string, providerBatchId: string,
    endpoint: string, inputFileId: string, completionWindow: string, status: string,
    createdAt: int, inProgressAt: Option<int>, completedAt: Option<int>, failedAt: Option<int>,
    cancellingAt: Option<int>, cancelledAt: Option<int>,
    counts: Counts, metadata: map<string, string>, usage: UsageSummary, results: seq<string>)

  datatype StoredBatch = StoredBatch(
    batch: BatchResponse, hints: map<string, string>,
    originalInputFileId: string, rewrittenInputFileId: string,
    requestId: string, userPath: string, workflowVersionId: string,
    usageEnabled: Option<bool>, usageLoggedAt: Option<int>)

  datatype StoreError = MissingId | AlreadyExists | NotFound

  const REQUEST_ID_KEY := "request_id"
  const USAGE_LOGGED_AT_KEY := "usage_logged_at"

  // Normalization of legacy metadata

  /** Gateway-private keys leave the public metadata; they fill the stored fields that are
      still empty.  `parseTime` is parseUsageLoggedAt. */
  function NormalizeStored(b: StoredBatch, parseTime: string -> Option<int>): StoredBatch {
    var m := b.batch.metadata;
    var requestId := Trim(b.requestId);
    b.(
      batch := b.batch.(metadata := m - {REQUEST_ID_KEY, USAGE_LOGGED_AT_KEY}),
      requestId := if requestId == "" && REQUEST_ID_KEY in m then Trim(m[REQUEST_ID_KEY]) else requestId,
      usageLoggedAt := if b.usageLoggedAt == None && USAGE_LOGGED_AT_KEY in m then parseTime(m[USAGE_LOGGED_AT_KEY])
                       else b.usageLoggedAt)
  }

  lemma NormalizeStoredTwice(b: StoredBatch, parseTime: string -> Option<int>)
    ensures var n := NormalizeStored(b, parseTime);
      NormalizeStored(n, parseTime) == n && REQUEST_ID_KEY !in n.batch.metadata &&
          USAGE_LOGGED_AT_KEY !in n.batch.metadata
  {
    var n := NormalizeStored(b, parseTime);
    TrimIsTrimmed(b.requestId);
    TrimFixed(Trim(b.requestId));
    if REQUEST_ID_KEY in b.batch.metadata {
      TrimIsTrimmed(b.batch.metadata[REQUEST_ID_KEY]);
      TrimFixed(Trim(b.batch.metadata[REQUEST_ID_KEY]));
    }
    assert n.batch.metadata - {REQUEST_ID_KEY, USAGE_LOGGED_AT_KEY} == n.batch.metadata;
  }

  // The order batches are listed in

  datatype Key = Key(createdAt: int, id: string)

  function KeyOf(b: StoredBatch): Key { Key(b.batch.createdAt, b.batch.id) }

  predicate NewerKey(a: Key, b: Key) {
    if a.createdAt == b.createdAt then Less(b.id, a.id) else a.createdAt > b.createdAt
  }

  predicate Newer(a: StoredBatch, b: StoredBatch) { NewerKey(KeyOf(a), KeyOf(b)) }

  lemma NewerKeyOrders()
    ensures Ordering(NewerKey)
    ensures forall a, b :: NewerKey(a, b) || a == b || NewerKey(b, a)
  {
    forall a: Key ensures !NewerKey(a, a) { LessIrreflexive(a.id); }
    forall a, b, c | NewerKey(a, b) && NewerKey(b, c) ensures NewerKey(a, c) {
      if a.createdAt == b.createdAt == c.createdAt {
        LessTransitive(c.id, b.id, a.id);
      }
    }
    forall a, b ensures NewerKey(a, b) || a == b || NewerKey(b, a) { LessTotal(a.id, b.id); }
  }

  lemma NewerOrders()
    ensures Ordering(Newer)
  {
    NewerKeyOrders();
  }

  // Batches by id, each under its own id
  type Table = map<string, StoredBatch>

  ghost predicate ValidTable(items: Table) {
    forall id :: id in items ==> id != "" && items[id].batch.id == id
  }

  /** `s` is the listing of the table: its batches, newest first. */
  ghost predicate IsListing(items: Table, s: seq<StoredBatch>) {
    && SortedBy(Newer, s)
    && (forall b :: b in s <==> b.batch.id in items && items[b.batch.id] == b)
  }

  lemma ListingUnique(items: Table, a: seq<StoredBatch>, b: seq<StoredBatch>)
    requires IsListing(items, a) && IsListing(items, b)
    ensures a == b
  {
    NewerOrders();
    SortedUnique(Newer, a, b);
  }

  function NormalizeLimit(limit: int): (n: nat)
    ensures 1 <= n <= 101
  {
    if limit <= 0 then 20 else if limit > 101 then 101 else limit
  }

  lemma {:induction false} ListingExists(items: Table)
    requires ValidTable(items)
    ensures exists s :: IsListing(items, s)
    decreases |items|
  {
    NewerOrders();
    if items == map[] {
      assert IsListing(items, []);
    } else {
      var id :| id in items;
      var rest := items - {id};
      ListingExists(rest);
      var t :| IsListing(rest, t);
      forall b | b in t ensures Newer(items[id], b) || Newer(b, items[id]) {
        NewerKeyOrders();
        assert b.batch.id in rest && KeyOf(b) != KeyOf(items[id]);
      }
      InsertSorts(Newer, items[id], t);
      InsertKeeps(Newer, items[id], t);
      var s := Insert(Newer, items[id], t);
      forall b ensures b in s <==> b.batch.id in items && items[b.batch.id] == b {
        assert b in s <==> b in multiset(s);
        assert b in multiset(t) <==> b in t;
      }
      assert IsListing(items, s);
    }
  }

  /** The batches of a table, newest first. */
  ghost function Listing(items: Table): (s: seq<StoredBatch>)
    requires ValidTable(items)
    ensures IsListing(items, s)
  {
    ListingExists(items);
    var s :| IsListing(items, s);
    s
  }

  datatype Listed = Page(page: seq<StoredBatch>) | ListFailed(error: StoreError)

  /** The first position of a batch with an id, or -1. */
  function IndexOf(s: seq<StoredBatch>, id: string): (i: int)
    ensures -1 <= i < |s|
    ensures i >= 0 ==> s[i].batch.id == id
    ensures forall j :: 0 <= j < (if i == -1 then |s| else i) ==> s[j].batch.id != id
  {
    if s == [] then -1
    else if s[0].batch.id == id then 0
    else
      var i := IndexOf(s[1..], id);
      assert forall j :: 1 <= j < |s| ==> s[j] == s[1..][j - 1];
      if i == -1 then -1 else i + 1
  }

  function Take<T>(s: seq<T>, n: nat): seq<T> {
    if n <= |s| then s[..n] else s
  }

  lemma SliceIsTaken<T>(s: seq<T>, start: nat, count: nat)
    requires start <= |s|
    ensures Take(s[start..], count)
      == if start >= |s| then [] else s[start..if start + count < |s| then start + count else |s|]
    ensures s[0..] == s
  {
  }

  /** The in-memory page: what follows the cursor's position in the listing. */
  ghost function MemoryPage(items: Table, limit: int, after: string): Listed
    requires ValidTable(items)
  {
    var s := Listing(items);
    if after == "" then Page(Take(s, NormalizeLimit(limit)))
    else if IndexOf(s, after) == -1 then ListFailed(NotFound)
    else Page(Take(s[IndexOf(s, after) + 1..], NormalizeLimit(limit)))
  }

  function OlderThan(s: seq<StoredBatch>, cursor: Key): (r: seq<StoredBatch>)
    ensures forall b :: b in r <==> b in s && NewerKey(cursor, KeyOf(b))
  {
    if s == [] then []
    else
      assert s == [s[0]] + s[1..];
      if NewerKey(cursor, KeyOf(s[0])) then [s[0]] + OlderThan(s[1..], cursor) else OlderThan(s[1..], cursor)
  }

  /** The SQL page: the rows with (created_at, id) below the cursor row's, newest first. */
  ghost function KeysetPage(items: Table, limit: int, after: string): Listed
    requires ValidTable(items)
  {
    if after == "" then Page(Take(Listing(items), NormalizeLimit(limit)))
    else if after !in items then ListFailed(NotFound)
    else Page(Take(OlderThan(Listing(items), KeyOf(items[after])), NormalizeLimit(limit)))
  }

  lemma {:induction false} OlderIsSuffix(s: seq<StoredBatch>, i: nat)
    requires i < |s| && SortedBy(Newer, s)
    ensures OlderThan(s, KeyOf(s[i])) == s[i + 1..]
  {
    NewerKeyOrders();
    if i == 0 {
      AllOlder(s[1..], KeyOf(s[0]));
    } else {
      assert Newer(s[0], s[i]) && !Newer(s[i], s[0]);
      assert s[1..][i - 1] == s[i];
      OlderIsSuffix(s[1..], i - 1);
    }
  }

  lemma {:induction false} AllOlder(s: seq<StoredBatch>, cursor: Key)
    requires forall b :: b in s ==> NewerKey(cursor, KeyOf(b))
    ensures OlderThan(s, cursor) == s
  {
    if s != [] {
      AllOlder(s[1..], cursor);
    }
  }

  /** The two stores page alike, for every table, limit and cursor. */
  lemma PagesAgree(items: Table, limit: int, after: string)
    requires ValidTable(items)
    ensures MemoryPage(items, limit, after) == KeysetPage(items, limit, after)
  {
    hide Listing, OlderThan, Newer;
    var s := Listing(items);
    ListedIds(items, s, after);
    var i := IndexOf(s, after);
    if i >= 0 {
      OlderIsSuffix(s, i);
    }
  }

  lemma ListedIds(items: Table, s: seq<StoredBatch>, id: string)
    requires ValidTable(items) && IsListing(items, s)
    ensures id in items <==> IndexOf(s, id) != -1
    ensures id in items ==> s[IndexOf(s, id)] == items[id]
  {
    hide SortedBy;
    var i := IndexOf(s, id);
    if id in items {
      assert items[id] in s;
    }
    if i >= 0 {
      assert s[i] in s;
    }
  }

  class MemoryStore {
    var items: Table
    const parseTime: string -> Option<int>

    ghost predicate Valid()
      reads this
    {
      ValidTable(items) && forall id :: id in items ==> NormalizeStored(items[id], parseTime) == items[id]
    }

    constructor (parseTime: string -> Option<int>)
      ensures Valid() && items == map[] && this.parseTime == parseTime
    {
      items := map[];
      this.parseTime := parseTime;
    }

    method Create(batch: StoredBatch) returns (error: Option<StoreError>)
      requires Valid()
      modifies this
      ensures Valid()
      ensures error == if batch.batch.id == "" then Some(MissingId)
                       else if batch.batch.id in old(items) then Some(AlreadyExists) else None
      ensures items
        == if error.None? then old(items)[batch.batch.id := NormalizeStored(batch, parseTime)] else old(items)
    {
      if batch.batch.id == "" {
        return Some(MissingId);
      }
      var c := NormalizeStored(batch, parseTime);
      NormalizeStoredTwice(batch, parseTime);
      if c.batch.id in items {
        return Some(AlreadyExists);
      }
      items := items[c.batch.id := c];
      return None;
    }

    /** What is returned is a copy; cloning a stored batch changes nothing. */
    method Get(id: string) returns (found: Option<StoredBatch>)
      requires Valid()
      ensures found == if id in items then Some(items[id]) else None
    {
      return if id in items then Some(NormalizeStored(items[id], parseTime)) else None;
    }

    method Update(batch: StoredBatch) returns (error: Option<StoreError>)
      requires Valid()
      modifies this
      ensures Valid()
      ensures error == if batch.batch.id == "" then Some(MissingId)
                       else if batch.batch.id in old(items) then None else Some(NotFound)
      ensures items
        == if error.None? then old(items)[batch.batch.id := NormalizeStored(batch, parseTime)] else old(items)
    {
      if batch.batch.id == "" {
        return Some(MissingId);
      }
      var c := NormalizeStored(batch, parseTime);
      NormalizeStoredTwice(batch, parseTime);
      if c.batch.id !in items {
        return Some(NotFound);
      }
      items := items[c.batch.id := c];
      return None;
    }

    /** The batches of the map, in the order the iteration happens to visit them. */
    method Collect() returns (all: seq<StoredBatch>)
      requires Valid()
      ensures forall b :: b in all <==> b.batch.id in items && items[b.batch.id] == b
      ensures DecidesOn(Newer, all)
    {
      all := [];
      var rest := items.Keys;
      while rest != {}
        invariant rest <= items.Keys
        invariant forall b :: b in all <==> b.batch.id in items && b.batch.id !in rest && items[b.batch.id] == b
        invariant forall i, j :: 0 <= i < j < |all| ==> all[i].batch.id != all[j].batch.id
        decreases rest
      {
        var id :| id in rest;
        assert forall i :: 0 <= i < |all| ==> all[i] in all;
        all := all + [NormalizeStored(items[id], parseTime)];
        rest := rest - {id};
      }
      forall i, j | 0 <= i < j < |all| ensures Newer(all[i], all[j]) || Newer(all[j], all[i]) {
        NewerKeyOrders();
        assert KeyOf(all[i]) != KeyOf(all[j]);
      }
    }

    method CollectSorted() returns (all: seq<StoredBatch>)
      requires Valid()
      ensures all == Listing(items)
    {
      all := Collect();
      NewerOrders();
      SortSorts(Newer, all);
      SortKeeps(Newer, all);
      all := Sort(Newer, all);
      ListingUnique(items, all, Listing(items));
    }

    method List(limit: int, after: string) returns (r: Listed)
      requires Valid()
      ensures r == MemoryPage(items, limit, after)
    {
      hide Listing, IndexOf, NormalizeStored, ValidTable, Take;
      var count := NormalizeLimit(limit);
      var all := CollectSorted();
      var start := 0;
      if after != "" {
        var idx := -1;
        for i := 0 to |all|
          invariant idx == -1
          invariant forall j :: 0 <= j < i ==> all[j].batch.id != after
        {
          if all[i].batch.id == after {
            idx := i;
            break;
          }
        }
        assert idx == IndexOf(all, after);
        if idx == -1 {
          return ListFailed(NotFound);
        }
        start := idx + 1;
      }
      SliceIsTaken(all, start, count);
      if start >= |all| {
        return Page([]);
      }
      var end := if start + count < |all| then start + count else |all|;
      return Page(all[start..end]);
    }
  }

  // The store in plain terms

  /** A listing goes from the latest to the earliest creation time; batches created at the same
      time come in descending order of their ids. */
  lemma NewestFirst(items: Table, i: nat, j: nat)
    requires ValidTable(items) && i < j < |Listing(items)|
    ensures var a, b := Listing(items)[i].batch, Listing(items)[j].batch;
      b.createdAt < a.createdAt || (b.createdAt == a.createdAt && Less(b.id, a.id))
  {
  }

  /** A page without cursor shows 20 batches by default and at most 101. */
  lemma FirstPageSize(items: Table, limit: int)
    requires ValidTable(items)
    ensures var r, n := MemoryPage(items, limit, ""), |Listing(items)|;
      && r.Page? && r.page <= Listing(items)
      && (limit <= 0 ==> |r.page| == if n < 20 then n else 20)
      && (1 <= limit <= 101 ==> |r.page| == if n < limit then n else limit)
      && (limit > 101 ==> |r.page| == if n < 101 then n else 101)
  {
    hide Listing;
  }

  /** The legacy request id and usage time move from the public metadata into their own fields
      unless these are already set; everything else stays. */
  lemma LegacyFieldsMove(b: StoredBatch, parseTime: string -> Option<int>)
    ensures var n, m := NormalizeStored(b, parseTime), b.batch.metadata;
      && (Trim(b.requestId) != "" ==> n.requestId == Trim(b.requestId))
      && (Trim(b.requestId) == "" && "request_id" in m ==> n.requestId == Trim(m["request_id"]))
      && (Trim(b.requestId) == "" && "request_id" !in m ==> n.requestId == "")
      && (b.usageLoggedAt.Some? ==> n.usageLoggedAt == b.usageLoggedAt)
      && (b.usageLoggedAt.None? && "usage_logged_at" in m ==> n.usageLoggedAt == parseTime(m["usage_logged_at"]))
      && (b.usageLoggedAt.None? && "usage_logged_at" !in m ==> n.usageLoggedAt == None)
      && (forall k :: k in n.batch.metadata <==> k in m && k != "request_id" && k != "usage_logged_at")
      && (forall k :: k in n.batch.metadata ==> n.batch.metadata[k] == m[k])
      && n == b.(batch := b.batch.(metadata := n.batch.metadata), requestId := n.requestId,
                 usageLoggedAt := n.usageLoggedAt)
  {
    hide Trim;
  }
}
