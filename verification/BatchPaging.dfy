/** Listing batches page by page (the orchestrator's List, internal/gateway/batch_orchestrator.go)
    while batches are created and updated between the pages. */
module BatchPaging {
  import opened Text
  import opened Sorting
  import opened BatchStore

  datatype BatchList = BatchList(data: seq<BatchResponse>, hasMore: bool, firstId: string, lastId: string)

  datatype ListResult = Listed(list: BatchList) | CursorNotFound(after: string)

  function ClampLimit(limit: int): (n: nat)
    ensures 1 <= n <= 100
  {
    if limit <= 0 then 20 else if limit > 100 then 100 else limit
  }

  function Responses(items: seq<StoredBatch>): (data: seq<BatchResponse>)
    ensures |data| == |items| && forall i :: 0 <= i < |items| ==> data[i] == items[i].batch
  {
    if items == [] then [] else Responses(items[..|items| - 1]) + [items[|items| - 1].batch]
  }

  method CollectResponses(items: seq<StoredBatch>) returns (data: seq<BatchResponse>)
    ensures data == Responses(items)
  {
    data := [];
    for i := 0 to |items|
      invariant data == Responses(items[..i])
    {
      assert items[..i + 1][..i] == items[..i];
      data := data + [items[i].batch];
    }
    assert items[..|items|] == items;
  }

  /** One page: asks the store for one batch more than it shows. */
  method List(store: MemoryStore, limit: int, after: string) returns (r: ListResult)
    requires store.Valid()
    ensures r == ListPage(store.items, limit, after)
  {
    hide MemoryPage, Trim, Responses;
    var n := ClampLimit(limit);
    var cursor := Trim(after);
    var listed := store.List(n + 1, cursor);
    if listed.ListFailed? {
      return CursorNotFound(cursor);
    }
    var items := listed.page;
    var hasMore := |items| > n;
    if hasMore {
      items := items[..n];
    }
    var data := CollectResponses(items);
    if |data| > 0 {
      return Listed(BatchList(data, hasMore, data[0].id, data[|data| - 1].id));
    }
    return Listed(BatchList(data, hasMore, "", ""));
  }

  ghost function ListPage(items: Table, limit: int, after: string): ListResult
    requires ValidTable(items)
  {
    var n := ClampLimit(limit);
    match MemoryPage(items, n + 1, Trim(after))
    case ListFailed(_) => CursorNotFound(Trim(after))
    case Page(page) =>
      var data := Responses(Take(page, n));
      Listed(BatchList(data, |page| > n, if data == [] then "" else data[0].id,
          if data == [] then "" else data[|data| - 1].id))
  }

  // Pages in terms of keys

  function ResponseKey(b: BatchResponse): Key { Key(b.createdAt, b.id) }

  function ResponseKeys(data: seq<BatchResponse>): seq<Key> {
    seq(|data|, i requires 0 <= i < |data| => ResponseKey(data[i]))
  }

  ghost function TableKeys(items: Table): set<Key> {
    set id | id in items :: KeyOf(items[id])
  }

  /** The key lies behind the cursor, where None is the start of the walk. */
  predicate Behind(cursor: Option<Key>, k: Key) {
    cursor.None? || NewerKey(cursor.value, k)
  }

  /** `after` names the cursor's batch in the table. */
  ghost predicate IsCursor(items: Table, after: string, cursor: Option<Key>) {
    if cursor.None? then after == "" else after in items && KeyOf(items[after]) == cursor.value && Trimmed(after)
  }

  /** The batches of the table behind the cursor, newest first. */
  ghost function Remaining(items: Table, cursor: Option<Key>): seq<StoredBatch>
    requires ValidTable(items)
  {
    if cursor.None? then Listing(items) else OlderThan(Listing(items), cursor.value)
  }

  /** The page shows the first batches behind the cursor, and has_more says exactly whether a
      further one exists. */
  lemma PageIsFirstBatches(items: Table, limit: int, after: string, cursor: Option<Key>)
    requires ValidTable(items) && IsCursor(items, after, cursor)
    ensures var r := ListPage(items, limit, after); var s := Remaining(items, cursor);
      && r.Listed? && r.list.data == Responses(Take(s, ClampLimit(limit)))
      && (r.list.hasMore <==> |s| > ClampLimit(limit))
  {
    TrimFixed(after);
    PagesAgree(items, ClampLimit(limit) + 1, after);
    var s := Remaining(items, cursor);
    assert Take(Take(s, ClampLimit(limit) + 1), ClampLimit(limit)) == Take(s, ClampLimit(limit));
  }

  lemma {:induction false} OlderSorted(s: seq<StoredBatch>, cursor: Key)
    requires SortedBy(Newer, s)
    ensures SortedBy(Newer, OlderThan(s, cursor))
  {
    if s != [] {
      OlderSorted(s[1..], cursor);
    }
  }

  lemma RemainingIs(items: Table, cursor: Option<Key>)
    requires ValidTable(items)
    ensures SortedBy(Newer, Remaining(items, cursor))
    ensures forall b :: b in Remaining(items, cursor) <==>
        b.batch.id in items && items[b.batch.id] == b && Behind(cursor, KeyOf(b))
  {
    if cursor.Some? {
      OlderSorted(Listing(items), cursor.value);
    }
  }

  lemma ShownKeys(s: seq<StoredBatch>, n: nat)
    requires SortedBy(Newer, s)
    ensures var ks := ResponseKeys(Responses(Take(s, n)));
      && |ks| == (if n <= |s| then n else |s|)
      && SortedBy(NewerKey, ks)
      && forall i :: 0 <= i < |ks| ==> ks[i] == KeyOf(s[i])
  {
    hide NewerKey;
    assert forall i :: 0 <= i < |Take(s, n)| ==> Take(s, n)[i] == s[i];
  }

  /** The last key of a page is its cursor into the table it was taken from. */
  ghost predicate EndsAt(items: Table, list: BatchList, ks: seq<Key>) {
    && ks != [] && ks[|ks| - 1].id == list.lastId
    && list.lastId in items && KeyOf(items[list.lastId]) == ks[|ks| - 1]
  }

  /** What one page contributes to a walk. */
  lemma PageStep(items: Table, limit: int, after: string, cursor: Option<Key>)
    requires ValidTable(items) && IsCursor(items, after, cursor)
    ensures ListPage(items, limit, after).Listed?
    ensures var list := ListPage(items, limit, after).list; var ks := ResponseKeys(list.data);
      && SortedBy(NewerKey, ks)
      && (forall k :: k in ks ==> k in TableKeys(items) && Behind(cursor, k))
      && (list.hasMore ==> EndsAt(items, list, ks))
      && (forall k :: k in TableKeys(items) && Behind(cursor, k) ==>
            k in ks || (list.hasMore && NewerKey(ks[|ks| - 1], k)))
  {
    hide Listing, OlderThan, ListPage, NewerKey, Remaining;
    PageIsFirstBatches(items, limit, after, cursor);
    RemainingIs(items, cursor);
    var s, n := Remaining(items, cursor), ClampLimit(limit);
    ShownKeys(s, n);
    assert forall i :: 0 <= i < |s| ==> s[i] in s;
    ListPageEnds(items, limit, after);
    ShownOrLater(items, cursor, s, n, ResponseKeys(Responses(Take(s, n))));
    ShownAreStored(items, cursor, s, ResponseKeys(Responses(Take(s, n))));
    hide Responses, ResponseKeys, Take, SortedBy, IsCursor, Behind, TableKeys, KeyOf;
  }

  lemma ShownAreStored(items: Table, cursor: Option<Key>, s: seq<StoredBatch>, ks: seq<Key>)
    requires forall b :: b in s ==> b.batch.id in items && items[b.batch.id] == b && Behind(cursor, KeyOf(b))
    requires |ks| <= |s| && forall i :: 0 <= i < |ks| ==> ks[i] == KeyOf(s[i])
    ensures forall k :: k in ks ==> k in TableKeys(items) && Behind(cursor, k)
    ensures ks != [] ==> ks[|ks| - 1].id in items && KeyOf(items[ks[|ks| - 1].id]) == ks[|ks| - 1]
  {
    hide Behind;
    forall k | k in ks ensures k in TableKeys(items) && Behind(cursor, k) {
      var i :| 0 <= i < |ks| && ks[i] == k;
      assert s[i] in s;
    }
    if ks != [] {
      assert s[|ks| - 1] in s;
    }
  }

  /** Every remaining batch is shown or comes after the shown ones. */
  lemma ShownOrLater(items: Table, cursor: Option<Key>, s: seq<StoredBatch>, n: nat, ks: seq<Key>)
    requires SortedBy(Newer, s) && n > 0
    requires forall id :: id in items && Behind(cursor, KeyOf(items[id])) ==> items[id] in s
    requires |ks| == (if n <= |s| then n else |s|) && forall i :: 0 <= i < |ks| ==> ks[i] == KeyOf(s[i])
    ensures forall k :: k in TableKeys(items) && Behind(cursor, k) ==> k in ks || (|s| > n && NewerKey(ks[n - 1], k))
  {
    hide NewerKey, Behind;
    forall k | k in TableKeys(items) && Behind(cursor, k)
      ensures k in ks || (|s| > n && NewerKey(ks[n - 1], k))
    {
      var id :| id in items && KeyOf(items[id]) == k;
      var i :| 0 <= i < |s| && s[i] == items[id];
      if i < n {
        assert ks[i] == k;
      } else {
        assert Newer(s[n - 1], s[i]);
      }
    }
  }

  lemma ListPageEnds(items: Table, limit: int, after: string)
    requires ValidTable(items) && ListPage(items, limit, after).Listed?
    ensures var l := ListPage(items, limit, after).list; l.data != [] ==> l.lastId == l.data[|l.data| - 1].id
  {
  }

  // Walks

  /** Batches may be created and updated in between, but none is deleted and none changes its
      creation time. */
  ghost predicate Evolves(before: Table, after: Table) {
    forall id :: id in before ==> id in after && after[id].batch.createdAt == before[id].batch.createdAt
  }

  ghost predicate GoodTable(items: Table) {
    ValidTable(items) && forall id :: id in items ==> Trimmed(id)
  }

  ghost predicate AllGood(tables: seq<Table>) {
    forall i :: 0 <= i < |tables| ==> GoodTable(tables[i])
  }

  /** A client follows last_id from page to page until has_more is false, the i-th page being
      taken from the i-th table. */
  ghost predicate Walk(tables: seq<Table>, limit: int, after: string, pages: seq<BatchList>)
    requires AllGood(tables)
    decreases |tables|
  {
    && |tables| == |pages| > 0
    && ListPage(tables[0], limit, after) == Listed(pages[0])
    && (pages[0].hasMore <==> |pages| > 1)
    && (pages[0].hasMore ==> Evolves(tables[0], tables[1]) && Walk(tables[1..], limit, pages[0].lastId, pages[1..]))
  }

  /** The keys of all batches the walk has returned, in order. */
  function Collected(pages: seq<BatchList>): seq<Key> {
    if pages == [] then [] else ResponseKeys(pages[0].data) + Collected(pages[1..])
  }

  lemma EvolvesKeys(before: Table, after: Table)
    requires ValidTable(before) && ValidTable(after) && Evolves(before, after)
    ensures TableKeys(before) <= TableKeys(after)
  {
  }

  lemma {:induction false} WalkCovers(tables: seq<Table>, limit: int, after: string, cursor: Option<Key>,
      pages: seq<BatchList>)
    requires AllGood(tables)
    requires Walk(tables, limit, after, pages) && IsCursor(tables[0], after, cursor)
    ensures SortedBy(NewerKey, Collected(pages))
    ensures forall k :: k in Collected(pages) ==> Behind(cursor, k)
    ensures forall k :: k in TableKeys(tables[0]) && Behind(cursor, k) ==> k in Collected(pages)
    decreases |tables|
  {
    hide ListPage, TableKeys;
    PageStep(tables[0], limit, after, cursor);
    NewerKeyOrders();
    var ks := ResponseKeys(pages[0].data);
    if pages[0].hasMore {
      var last := ks[|ks| - 1];
      EvolvesKeys(tables[0], tables[1]);
      assert AllGood(tables[1..]) && tables[1..][0] == tables[1];
      WalkCovers(tables[1..], limit, pages[0].lastId, Some(last), pages[1..]);
      CollectedSorted(ks, Collected(pages[1..]));
      assert last in ks;
    } else {
      assert Collected(pages[1..]) == [];
      assert Collected(pages) == ks;
    }
  }

  /** A walk under way: every page so far has announced a further one. */
  ghost predicate WalkUnderWay(tables: seq<Table>, limit: int, after: string, pages: seq<BatchList>)
    requires AllGood(tables)
    decreases |tables|
  {
    && |tables| == |pages| > 0
    && ListPage(tables[0], limit, after) == Listed(pages[0]) && pages[0].hasMore
    && (|pages| > 1 ==> Evolves(tables[0], tables[1]) && WalkUnderWay(tables[1..], limit, pages[0].lastId, pages[1..]))
  }

  lemma CursorStays(items: Table, list: BatchList, ks: seq<Key>, next: Table)
    requires GoodTable(items) && GoodTable(next) && Evolves(items, next) && EndsAt(items, list, ks)
    ensures IsCursor(next, list.lastId, Some(ks[|ks| - 1]))
  {
  }

  lemma {:induction false} NextPageFrom(tables: seq<Table>, limit: int, after: string, cursor: Option<Key>,
                                        pages: seq<BatchList>, next: Table)
    requires AllGood(tables) && WalkUnderWay(tables, limit, after, pages) && IsCursor(tables[0], after, cursor)
    requires GoodTable(next) && Evolves(tables[|tables| - 1], next)
    ensures ListPage(next, limit, pages[|pages| - 1].lastId).Listed?
    decreases |tables|
  {
    hide ListPage, TableKeys, Evolves, IsCursor;
    PageStep(tables[0], limit, after, cursor);
    var ks := ResponseKeys(pages[0].data);
    var last := Some(ks[|ks| - 1]);
    if |pages| == 1 {
      CursorStays(tables[0], pages[0], ks, next);
      PageStep(next, limit, pages[0].lastId, last);
    } else {
      CursorStays(tables[0], pages[0], ks, tables[1]);
      assert AllGood(tables[1..]) && tables[1..][0] == tables[1];
      NextPageFrom(tables[1..], limit, pages[0].lastId, last, pages[1..], next);
    }
  }

  /** A walk never loses its cursor: whatever creations and updates come between, the page that
      has_more announces can be fetched. */
  lemma NextPageIsFound(tables: seq<Table>, limit: int, pages: seq<BatchList>, next: Table)
    requires AllGood(tables) && WalkUnderWay(tables, limit, "", pages)
    requires GoodTable(next) && Evolves(tables[|tables| - 1], next)
    ensures ListPage(next, limit, pages[|pages| - 1].lastId).Listed?
  {
    hide ListPage;
    NextPageFrom(tables, limit, "", None, pages, next);
  }

  lemma CollectedSorted(ks: seq<Key>, rest: seq<Key>)
    requires ks != [] && SortedBy(NewerKey, ks) && SortedBy(NewerKey, rest)
    requires forall k :: k in rest ==> NewerKey(ks[|ks| - 1], k)
    ensures SortedBy(NewerKey, ks + rest)
  {
    NewerKeyOrders();
    var all := ks + rest;
    forall i, j | 0 <= i < j < |all| ensures NewerKey(all[i], all[j]) {
      if i < |ks| <= j {
        assert all[j] in rest;
      }
    }
  }

  /** The elements of a sequence that lie in a set. */
  function Within(s: seq<Key>, among: set<Key>): (r: seq<Key>)
    ensures forall k :: k in r <==> k in s && k in among
  {
    if s == [] then []
    else
      assert s == [s[0]] + s[1..];
      if s[0] in among then [s[0]] + Within(s[1..], among) else Within(s[1..], among)
  }

  lemma {:induction false} WithinSorted(s: seq<Key>, among: set<Key>)
    requires SortedBy(NewerKey, s)
    ensures SortedBy(NewerKey, Within(s, among))
  {
    if s != [] {
      WithinSorted(s[1..], among);
      assert forall i :: 0 <= i < |s| - 1 ==> s[1..][i] == s[i + 1];
      assert forall k :: k in Within(s[1..], among) ==> NewerKey(s[0], k);
    }
  }

  lemma ListingKeys(items: Table)
    requires ValidTable(items)
    ensures var ks := ResponseKeys(Responses(Listing(items)));
      SortedBy(NewerKey, ks) && forall k :: k in ks <==> k in TableKeys(items)
  {
    var s := Listing(items);
    var ks := ResponseKeys(Responses(s));
    assert forall i :: 0 <= i < |ks| ==> ks[i] == KeyOf(s[i]) && s[i] in s;
    forall k ensures k in ks <==> k in TableKeys(items) {
      if k in TableKeys(items) {
        var id :| id in items && KeyOf(items[id]) == k;
        assert items[id] in s;
        var i :| 0 <= i < |s| && s[i] == items[id];
        assert ks[i] == k;
      }
    }
  }

  /** A whole walk returns no batch twice, newest first, and the batches present at its start
      are returned each exactly once in listing order, whatever happens between the pages. */
  lemma WalkReturnsEverything(tables: seq<Table>, limit: int, pages: seq<BatchList>)
    requires AllGood(tables)
    requires Walk(tables, limit, "", pages)
    ensures SortedBy(NewerKey, Collected(pages))
    ensures Within(Collected(pages), TableKeys(tables[0])) == ResponseKeys(Responses(Listing(tables[0])))
  {
    hide ListPage;
    WalkCovers(tables, limit, "", None, pages);
    WithinSorted(Collected(pages), TableKeys(tables[0]));
    ListingKeys(tables[0]);
    NewerKeyOrders();
    SortedUnique(NewerKey, Within(Collected(pages), TableKeys(tables[0])), ResponseKeys(Responses(Listing(tables[0]))));
  }

  /** A page shows 20 batches unless the client asks for another number, never more than 100, and
      names its first and last batch. */
  lemma PageSize(items: Table, limit: int, after: string, cursor: Option<Key>)
    requires ValidTable(items) && IsCursor(items, after, cursor)
    ensures var r, n := ListPage(items, limit, after), |Remaining(items, cursor)|;
      && r.Listed?
      && (limit <= 0 ==> |r.list.data| == if n < 20 then n else 20)
      && (1 <= limit <= 100 ==> |r.list.data| == if n < limit then n else limit)
      && (limit > 100 ==> |r.list.data| == if n < 100 then n else 100)
      && (r.list.data == [] ==> r.list.firstId == r.list.lastId == "")
      && (r.list.data != [] ==>
            r.list.firstId == r.list.data[0].id && r.list.lastId == r.list.data[|r.list.data| - 1].id)
  {
    hide ListPage, Remaining, IsCursor;
    PageIsFirstBatches(items, limit, after, cursor);
    PageNames(items, limit, after);
  }

  lemma PageNames(items: Table, limit: int, after: string)
    requires ValidTable(items) && ListPage(items, limit, after).Listed?
    ensures var list := ListPage(items, limit, after).list;
      && (list.data == [] ==> list.firstId == list.lastId == "")
      && (list.data != [] ==> list.firstId == list.data[0].id && list.lastId == list.data[|list.data| - 1].id)
  {
  }

  /** A page is refused exactly when the trimmed cursor is the id of no stored batch. */
  lemma CursorMissing(items: Table, limit: int, after: string)
    requires ValidTable(items)
    ensures ListPage(items, limit, after).CursorNotFound? <==> Trim(after) != "" && Trim(after) !in items
    ensures ListPage(items, limit, after).CursorNotFound? ==>
      ListPage(items, limit, after) == CursorNotFound(Trim(after))
  {
    hide Trim, Listing;
    ListedIds(items, Listing(items), Trim(after));
  }
}
