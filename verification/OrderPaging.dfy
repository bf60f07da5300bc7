/** Recent orders by keyset pages, and a client that loads page after page while orders keep arriving. */
module OrderPaging {
  import opened Options
  import opened Sums
  import opened StableSort

  /** UUIDv7 ids, compared as the database compares them. */
  type Id = nat

  function Newest(): (Id, Id) -> bool { (a: Id, b: Id) => a >= b }

  function BeforeCursor(cursor: Option<Id>): Id -> bool { (id: Id) => cursor.None? || id < cursor.value }

  function PageSize(limit: Option<nat>): nat { Min(if limit.Some? then limit.value else 50, 100) }

  function FirstOf(s: seq<Id>, n: nat): seq<Id> { if |s| <= n then s else s[..n] }

  /** list without a status filter: where id < cursor, order by id descending, take. */
  function Page(table: seq<Id>, cursor: Option<Id>, limit: Option<nat>): seq<Id> {
    FirstOf(Sort(Filter(table, BeforeCursor(cursor)), Newest()), PageSize(limit))
  }

  ghost predicate Falling(s: seq<Id>) { forall i, j | 0 <= i < j < |s| :: s[i] > s[j] }

  // ------------------------------------------------- the whole table, in order

  lemma NewestIsOrder()
    ensures TotalPreorder(Newest())
  {
  }

  /** Newest first is a strictly falling arrangement of exactly the table's ids. */
  lemma NewestFirst(table: seq<Id>)
    requires Distinct(table)
    ensures Falling(Sort(table, Newest())) && multiset(Sort(table, Newest())) == multiset(table)
    ensures |Sort(table, Newest())| == |table|
  {
    var s := Sort(table, Newest());
    NewestIsOrder();
    SortIsSorted(table, Newest());
    SortIsPermutation(table, Newest());
    SortKeepsDistinct(table, Newest());
    forall i, j | 0 <= i < j < |s| ensures s[i] > s[j] { assert Newest()(s[i], s[j]); }
  }

  // -------------------------------------------------------------- one more page

  /** Below the k-th id of a falling sequence lies exactly the rest of it. */
  lemma FilterBelow(s: seq<Id>, k: nat)
    requires Falling(s) && 1 <= k <= |s|
    ensures Filter(s, BeforeCursor(Some(s[k - 1]))) == s[k..]
  {
    var p := BeforeCursor(Some(s[k - 1]));
    assert s == s[..k] + s[k..];
    FilterAppend(s[..k], s[k..], p);
    FilterNone(s[..k], p);
    FilterAll(s[k..], p);
  }

  ghost predicate AllNewer(arrived: seq<Id>, table: seq<Id>) {
    forall x, y | x in arrived && y in table :: x > y
  }

  /** The first page is the top of the table. */
  lemma FirstPage(table: seq<Id>, limit: Option<nat>)
    ensures Page(table, None, limit) == FirstOf(Sort(table, Newest()), PageSize(limit))
  {
    FilterAll(table, BeforeCursor(None));
  }

  /** With a cursor, the page continues the first read, whatever newer orders arrived since. */
  lemma NextPage(table: seq<Id>, arrived: seq<Id>, k: nat, limit: Option<nat>)
    requires Distinct(table) && AllNewer(arrived, table) && 1 <= k <= |Sort(table, Newest())|
    ensures var s := Sort(table, Newest());
            Page(table + arrived, Some(s[k - 1]), limit) == FirstOf(s[k..], PageSize(limit))
  {
    var s := Sort(table, Newest());
    var p := BeforeCursor(Some(s[k - 1]));
    NewestFirst(table);
    NewestIsOrder();
    InSort(table, Newest());
    assert s[k - 1] in s;
    FilterAppend(table, arrived, p);
    FilterNone(arrived, p);
    assert Filter(table, p) + [] == Filter(table, p);
    FilterSort(table, Newest(), p);
    FilterBelow(s, k);
  }

  lemma TopOfFalling(s: seq<Id>, n: nat, x: Id)
    requires Falling(s)
    ensures Falling(FirstOf(s, n)) && |FirstOf(s, n)| <= n && (x in FirstOf(s, n) ==> x in s)
    ensures x in s && x !in FirstOf(s, n) ==> |FirstOf(s, n)| == n && forall y | y in FirstOf(s, n) :: y > x
  {
    if x in s && |s| > n {
      var i :| 0 <= i < |s| && s[i] == x;
      assert i < n ==> s[..n][i] == x;
    }
  }

  /** What a page is: the newest rows below the cursor, newest first. */
  lemma PageIsTopBelowCursor(table: seq<Id>, cursor: Option<Id>, limit: Option<nat>, x: Id)
    requires Distinct(table)
    ensures var page := Page(table, cursor, limit);
            var size := if limit.None? then 50 else if limit.value < 100 then limit.value else 100;
            && Falling(page) && |page| <= size
            && (x in page ==> x in table && (cursor.Some? ==> x < cursor.value))
            && (x in table && (cursor.Some? ==> x < cursor.value) && x !in page ==> |page| == size && forall y | y in page :: y > x)
  {
    var below := Filter(table, BeforeCursor(cursor));
    assert x in below <==> x in table && BeforeCursor(cursor)(x) by { InFilter(table, BeforeCursor(cursor)); }
    assert Falling(Sort(below, Newest())) by {
      FilterKeepsDistinct(table, BeforeCursor(cursor));
      NewestFirst(below);
    }
    assert x in Sort(below, Newest()) <==> x in below by { InSort(below, Newest()); }
    TopOfFalling(Sort(below, Newest()), PageSize(limit), x);
  }

  // ------------------------------------------------------------------ the walk

  function Unseen(shown: seq<Id>): Id -> bool { (id: Id) => id !in shown }

  /** Appending a page to the rows above it shows that many more rows, none of them twice. */
  lemma OneMorePage(all: seq<Id>, n: nat, size: nat)
    requires Falling(all) && n <= |all|
    ensures var page := FirstOf(all[n..], size);
            n + |page| <= |all| && (|page| == size || n + |page| == |all|)
            && Filter(page, Unseen(all[..n])) == page && all[..n] + page == all[..n + |page|]
  {
    var page := FirstOf(all[n..], size);
    forall x | x in page ensures x !in all[..n] {
      var j :| 0 <= j < |page| && page[j] == x;
      assert x == all[n + j];
    }
    FilterAll(page, Unseen(all[..n]));
  }

  /** The client's loadMore: the page below the last row shown, less what is shown already. */
  method LoadMore(rows: seq<Id>, orders: seq<Id>, limit: Option<nat>,
                  ghost table: seq<Id>, ghost arrived: seq<Id>, ghost all: seq<Id>)
    returns (shown: seq<Id>, hasMore: bool)
    requires Distinct(table) && AllNewer(arrived, table) && rows == table + arrived && PageSize(limit) >= 1
    requires all == Sort(table, Newest()) && Falling(all) && 1 <= |orders| <= |all| && orders == all[..|orders|]
    ensures |orders| <= |shown| <= |all| && shown == all[..|shown|]
    ensures if hasMore then |shown| > |orders| else |shown| == |all|
  {
    ghost var n := |orders|;
    assert orders[n - 1] == all[n - 1];
    NextPage(table, arrived, n, limit);
    var page := Page(rows, Some(orders[|orders| - 1]), limit);
    OneMorePage(all, n, PageSize(limit));
    shown := orders + Filter(page, Unseen(orders));
    hasMore := |page| == PageSize(limit);
  }

  /**
   * A client that fetches the first page and then loads more below its last row
   * until a page comes back short. Newer orders arrive before each further page.
   * It ends, having shown every order of the first read exactly once, newest
   * first, and nothing else.
   */
  method LoadAll(table: seq<Id>, arrivals: nat -> seq<Id>, limit: Option<nat>) returns (orders: seq<Id>)
    requires Distinct(table) && PageSize(limit) >= 1
    requires forall k: nat :: AllNewer(arrivals(k), table)
    ensures Falling(orders) && multiset(orders) == multiset(table)
  {
    ghost var all := Sort(table, Newest());
    ghost var arrived: seq<Id> := [];
    var rows := table;
    NewestFirst(table);
    FirstPage(table, limit);
    assert table + [] == table;
    orders := Page(rows, None, limit);
    var hasMore := |orders| == PageSize(limit);
    var k := 0;
    while hasMore
      invariant rows == table + arrived && AllNewer(arrived, table)
      invariant |orders| <= |all| && orders == all[..|orders|]
      invariant if hasMore then |orders| >= 1 else |orders| == |all|
      decreases |all| - |orders|, hasMore
    {
      assert rows + arrivals(k) == table + (arrived + arrivals(k));
      rows := rows + arrivals(k);
      arrived := arrived + arrivals(k);
      k := k + 1;
      orders, hasMore := LoadMore(rows, orders, limit, table, arrived, all);
    }
    assert all[..|all|] == all;
  }
}
