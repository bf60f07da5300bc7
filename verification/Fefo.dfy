/** First-expired-first-out allocation of prepared stock. */
module Fefo {
  import opened Options
  import opened Sums
  import opened StableSort

  type BatchId = nat

  datatype LiveBatch = LiveBatch(id: BatchId, remaining: int, expiresAt: Option<int>, createdAt: int)

  datatype Alloc = Alloc(batch: Option<BatchId>, quantity: int)

  predicate IsLive(b: LiveBatch, now: int) {
    b.remaining > 0 && (b.expiresAt.None? || b.expiresAt.value > now)
  }

  function Live(now: int): LiveBatch -> bool { (b: LiveBatch) => IsLive(b, now) }

  /** The comparator is not positive: by expiry, none last, then by preparation time. */
  predicate Precedes(a: LiveBatch, b: LiveBatch) {
    if a.expiresAt == b.expiresAt then a.createdAt <= b.createdAt
    else a.expiresAt.Some? && (b.expiresAt.None? || a.expiresAt.value < b.expiresAt.value)
  }

  function Queue(batches: seq<LiveBatch>, now: int): seq<LiveBatch> {
    Sort(Filter(batches, Live(now)), Precedes)
  }

  function Drain(queue: seq<LiveBatch>, need: int): seq<Alloc> {
    if need <= 0 then []
    else if queue == [] then [Alloc(None, need)]
    else
      var take := Min(need, queue[0].remaining);
      [Alloc(Some(queue[0].id), take)] + Drain(queue[1..], need - take)
  }

  function Allocate(batches: seq<LiveBatch>, need: int, now: int): seq<Alloc> {
    Drain(Queue(batches, now), need)
  }

  method AllocateFefo(batches: seq<LiveBatch>, need: int, now: int) returns (out: seq<Alloc>)
    ensures out == Allocate(batches, need, now)
  {
    if need <= 0 { return []; }
    var live := Sort(Filter(batches, Live(now)), Precedes);
    out := [];
    var left := need;
    var i := 0;
    while i < |live|
      invariant 0 <= i <= |live|
      invariant out + Drain(live[i..], left) == Drain(live, need)
    {
      if left <= 0 { break; }
      var take := Min(left, live[i].remaining);
      assert live[i..][1..] == live[i + 1..];
      assert out + Drain(live[i..], left) == out + [Alloc(Some(live[i].id), take)] + Drain(live[i + 1..], left - take);
      out := out + [Alloc(Some(live[i].id), take)];
      left := left - take;
      i := i + 1;
    }
    if left > 0 {
      out := out + [Alloc(None, left)];
    }
  }

  // ---------------------------------------------------------- observations

  function OfBatch(id: BatchId): Alloc -> int { (a: Alloc) => if a.batch == Some(id) then a.quantity else 0 }

  function NoBatch(): Alloc -> int { (a: Alloc) => if a.batch == None then a.quantity else 0 }

  function Quantity(): Alloc -> int { (a: Alloc) => a.quantity }

  function Taken(out: seq<Alloc>, id: BatchId): int { Sum(out, OfBatch(id)) }

  function Untagged(out: seq<Alloc>): int { Sum(out, NoBatch()) }

  function Capacity(now: int): LiveBatch -> int { (b: LiveBatch) => if IsLive(b, now) then b.remaining else 0 }

  predicate ExpiresBy(b: LiveBatch, t: int) { b.expiresAt.Some? && b.expiresAt.value <= t }

  /** What a plan g takes from batches expiring by t. */
  function PlannedBy(g: BatchId -> int, t: int): LiveBatch -> int {
    (b: LiveBatch) => if ExpiresBy(b, t) then g(b.id) else 0
  }

  function Planned(g: BatchId -> int): LiveBatch -> int { (b: LiveBatch) => g(b.id) }

  function TakenFrom(out: seq<Alloc>): BatchId -> int { (id: BatchId) => Taken(out, id) }

  ghost predicate DistinctIds(s: seq<LiveBatch>) {
    forall i, j | 0 <= i < j < |s| :: s[i].id != s[j].id
  }

  /** Draws n from the capacities in order, one entry per batch. */
  function Takes(s: seq<LiveBatch>, n: int, now: int): (r: seq<int>)
    ensures |r| == |s|
  {
    if s == [] then []
    else
      var take := Min(n, Capacity(now)(s[0]));
      [take] + Takes(s[1..], n - take, now)
  }

  lemma PrecedesIsTotalPreorder()
    ensures TotalPreorder(Precedes)
  {
  }

  lemma {:induction false} TakesBounds(s: seq<LiveBatch>, n: int, now: int)
    requires n >= 0
    ensures forall i | 0 <= i < |s| :: 0 <= Takes(s, n, now)[i] <= Capacity(now)(s[i])
  {
    if s != [] {
      TakesBounds(s[1..], n - Min(n, Capacity(now)(s[0])), now);
    }
  }

  lemma {:induction false} DrainTakesOnly(queue: seq<LiveBatch>, need: int, id: BatchId)
    requires forall b | b in queue :: b.id != id
    ensures Taken(Drain(queue, need), id) == 0
  {
    if need > 0 && queue != [] {
      var take := Min(need, queue[0].remaining);
      DrainTakesOnly(queue[1..], need - take, id);
      SumAppend([Alloc(Some(queue[0].id), take)], Drain(queue[1..], need - take), OfBatch(id));
      SumOne(Alloc(Some(queue[0].id), take), OfBatch(id));
      assert queue[0] in queue;
    } else if need > 0 {
      SumOne(Alloc(None, need), OfBatch(id));
    }
  }

  lemma SumCons(first: Alloc, out: seq<Alloc>, w: Alloc -> int)
    ensures Sum([first] + out, w) == w(first) + Sum(out, w)
  {
    SumAppend([first], out, w);
    SumOne(first, w);
  }

  /** One step of the drain over the live part of s. */
  lemma DrainHead(s: seq<LiveBatch>, n: int, now: int)
    requires s != [] && n >= 0
    ensures var take := Min(n, Capacity(now)(s[0]));
            var rest := Drain(Filter(s[1..], Live(now)), n - take);
            0 <= take <= n
            && Drain(Filter(s, Live(now)), n) == if take > 0 then [Alloc(Some(s[0].id), take)] + rest else rest
  {
    var tail := Filter(s[1..], Live(now));
    if IsLive(s[0], now) {
      assert ([s[0]] + tail)[1..] == tail;
    } else {
      assert [] + tail == tail;
    }
  }

  lemma NotInTail(s: seq<LiveBatch>, n: int, now: int)
    requires s != [] && DistinctIds(s)
    ensures Taken(Drain(Filter(s[1..], Live(now)), n), s[0].id) == 0
  {
    var tail := Filter(s[1..], Live(now));
    InFilter(s[1..], Live(now));
    forall b | b in tail ensures b.id != s[0].id {
      assert b in s[1..];
    }
    DrainTakesOnly(tail, n, s[0].id);
  }

  lemma TakenAfterHead(s: seq<LiveBatch>, n: int, now: int, id: BatchId)
    requires s != [] && n >= 0
    ensures var take := Min(n, Capacity(now)(s[0]));
            Taken(Drain(Filter(s, Live(now)), n), id)
            == (if s[0].id == id then take else 0) + Taken(Drain(Filter(s[1..], Live(now)), n - take), id)
  {
    var take := Min(n, Capacity(now)(s[0]));
    DrainHead(s, n, now);
    SumCons(Alloc(Some(s[0].id), take), Drain(Filter(s[1..], Live(now)), n - take), OfBatch(id));
  }

  lemma TakesTail(s: seq<LiveBatch>, n: int, now: int, i: nat)
    requires 0 < i < |s|
    ensures Takes(s, n, now)[i] == Takes(s[1..], n - Min(n, Capacity(now)(s[0])), now)[i - 1]
  {
  }

  lemma DistinctTail(s: seq<LiveBatch>, i: nat)
    requires DistinctIds(s) && 0 < i < |s|
    ensures DistinctIds(s[1..]) && s[1..][i - 1] == s[i] && s[0].id != s[i].id
  {
  }

  lemma HeadTakes(s: seq<LiveBatch>, n: int, now: int)
    requires DistinctIds(s) && n >= 0 && s != []
    ensures Taken(Drain(Filter(s, Live(now)), n), s[0].id) == Min(n, Capacity(now)(s[0]))
  {
    var take := Min(n, Capacity(now)(s[0]));
    assert Taken(Drain(Filter(s[1..], Live(now)), n - take), s[0].id) == 0 by { NotInTail(s, n - take, now); }
    TakenAfterHead(s, n, now, s[0].id);
  }

  /** Draining the live part of s draws exactly Takes(s), batch by batch. */
  lemma {:induction false} DrainIsTakes(s: seq<LiveBatch>, n: int, now: int, i: nat)
    requires DistinctIds(s) && n >= 0 && i < |s|
    ensures Taken(Drain(Filter(s, Live(now)), n), s[i].id) == Takes(s, n, now)[i]
  {
    if i == 0 {
      HeadTakes(s, n, now);
    } else {
      var left := n - Min(n, Capacity(now)(s[0]));
      DistinctTail(s, i);
      DrainIsTakes(s[1..], left, now, i - 1);
      assert Taken(Drain(Filter(s, Live(now)), n), s[i].id) == Taken(Drain(Filter(s[1..], Live(now)), left), s[i].id) by {
        TakenAfterHead(s, n, now, s[i].id);
      }
      TakesTail(s, n, now, i);
    }
  }

  lemma {:induction false} DrainUntagged(s: seq<LiveBatch>, n: int, now: int)
    requires n >= 0
    ensures Untagged(Drain(Filter(s, Live(now)), n)) == Max(0, n - Sum(s, Capacity(now)))
  {
    if s == [] {
      if n > 0 { SumOne(Alloc(None, n), NoBatch()); }
    } else {
      var take := Min(n, Capacity(now)(s[0]));
      var first := Alloc(Some(s[0].id), take);
      var tail := Sum(s[1..], Capacity(now));
      DrainHead(s, n, now);
      DrainUntagged(s[1..], n - take, now);
      SumCons(first, Drain(Filter(s[1..], Live(now)), n - take), NoBatch());
      assert NoBatch()(first) == 0;
      assert Sum(s, Capacity(now)) == Capacity(now)(s[0]) + tail by { SumHead(s, Capacity(now)); }
      assert tail >= 0 by { SumNonNegative(s[1..], Capacity(now)); }
    }
  }

  lemma {:induction false} DrainQuantity(s: seq<LiveBatch>, n: int, now: int)
    requires n >= 0
    ensures Sum(Drain(Filter(s, Live(now)), n), Quantity()) == n
  {
    if s == [] {
      if n > 0 { SumOne(Alloc(None, n), Quantity()); }
    } else {
      var take := Min(n, Capacity(now)(s[0]));
      var first := Alloc(Some(s[0].id), take);
      DrainHead(s, n, now);
      DrainQuantity(s[1..], n - take, now);
      SumCons(first, Drain(Filter(s[1..], Live(now)), n - take), Quantity());
      assert Quantity()(first) == take;
    }
  }

  /** What Allocate takes from a batch, seen through the sorted list. */
  lemma AllocatedAt(batches: seq<LiveBatch>, need: int, now: int, s: seq<LiveBatch>, i: nat)
    requires DistinctIds(batches) && need >= 0 && s == Sort(batches, Precedes) && i < |s|
    ensures Taken(Allocate(batches, need, now), s[i].id) == Takes(s, need, now)[i]
  {
    QueueIsFilteredSort(batches, now);
    SortKeepsDistinctIds(batches);
    DrainIsTakes(s, need, now, i);
  }

  ghost predicate PlanIsTakes(g: BatchId -> int, s: seq<LiveBatch>, n: int, now: int) {
    forall i | 0 <= i < |s| :: g(s[i].id) == Takes(s, n, now)[i]
  }

  lemma PlanTail(g: BatchId -> int, s: seq<LiveBatch>, n: int, now: int)
    requires s != [] && PlanIsTakes(g, s, n, now)
    ensures g(s[0].id) == Min(n, Capacity(now)(s[0]))
    ensures PlanIsTakes(g, s[1..], n - Min(n, Capacity(now)(s[0])), now)
  {
    assert g(s[0].id) == Takes(s, n, now)[0];
    forall i | 0 <= i < |s| - 1
      ensures g(s[1..][i].id) == Takes(s[1..], n - Min(n, Capacity(now)(s[0])), now)[i]
    {
      assert g(s[i + 1].id) == Takes(s, n, now)[i + 1];
    }
  }

  lemma AllocatedPlan(batches: seq<LiveBatch>, need: int, now: int)
    requires DistinctIds(batches) && need >= 0
    ensures PlanIsTakes(TakenFrom(Allocate(batches, need, now)), Sort(batches, Precedes), need, now)
  {
    var s := Sort(batches, Precedes);
    forall i | 0 <= i < |s| ensures TakenFrom(Allocate(batches, need, now))(s[i].id) == Takes(s, need, now)[i] {
      AllocatedAt(batches, need, now, s, i);
    }
  }

  lemma AllocatedTotals(batches: seq<LiveBatch>, need: int, now: int)
    requires need >= 0
    ensures Sum(Allocate(batches, need, now), Quantity()) == need
    ensures Untagged(Allocate(batches, need, now)) == Max(0, need - Sum(batches, Capacity(now)))
  {
    QueueIsFilteredSort(batches, now);
    DrainUntagged(Sort(batches, Precedes), need, now);
    DrainQuantity(Sort(batches, Precedes), need, now);
    SumSort(batches, Precedes, Capacity(now));
  }

  lemma AllocatedWithin(batches: seq<LiveBatch>, need: int, now: int, b: LiveBatch)
    requires DistinctIds(batches) && need >= 0 && b in batches
    ensures 0 <= Taken(Allocate(batches, need, now), b.id) <= Capacity(now)(b)
  {
    var s := Sort(batches, Precedes);
    TakesBounds(s, need, now);
    InSort(batches, Precedes);
    var i :| 0 <= i < |s| && s[i] == b;
    AllocatedAt(batches, need, now, s, i);
  }

  lemma AllocatedIsLive(batches: seq<LiveBatch>, need: int, now: int, id: BatchId)
    requires Taken(Allocate(batches, need, now), id) != 0
    ensures exists b :: b in batches && b.id == id && IsLive(b, now)
  {
    InFilter(batches, Live(now));
    InSort(Filter(batches, Live(now)), Precedes);
    if forall b | b in Queue(batches, now) :: b.id != id {
      DrainTakesOnly(Queue(batches, now), need, id);
    }
  }

  lemma {:induction false} QueueIsFilteredSort(batches: seq<LiveBatch>, now: int)
    ensures Queue(batches, now) == Filter(Sort(batches, Precedes), Live(now))
  {
    PrecedesIsTotalPreorder();
    FilterSort(batches, Precedes, Live(now));
  }

  lemma SortKeepsDistinctIds(s: seq<LiveBatch>)
    requires DistinctIds(s)
    ensures DistinctIds(Sort(s, Precedes))
  {
    var r := Sort(s, Precedes);
    SortIsPermutation(s, Precedes);
    forall i, j | 0 <= i < j < |r| ensures r[i].id != r[j].id {
      InSort(s, Precedes);
      assert r[i] in s && r[j] in s;
      if r[i] == r[j] {
        assert r == r[..i] + [r[i]] + r[i + 1..j] + [r[j]] + r[j + 1..];
        assert multiset(r)[r[i]] >= 2;
        DistinctOnce(s, r[i]);
      }
    }
  }

  lemma {:induction false} DistinctOnce(s: seq<LiveBatch>, b: LiveBatch)
    requires DistinctIds(s)
    ensures multiset(s)[b] <= 1
  {
    if s != [] {
      assert s == [s[0]] + s[1..];
      DistinctOnce(s[1..], b);
      if s[0] == b { assert b !in s[1..]; }
    }
  }

  // --------------------------------------------------------- main results

  /**
   * The need is conserved, no batch is overdrawn and none but a live one is
   * touched, and the untagged remainder is what the live stock cannot cover.
   */
  lemma AllocationIsSound(batches: seq<LiveBatch>, need: int, now: int)
    requires DistinctIds(batches)
    ensures var out := Allocate(batches, need, now);
            && Sum(out, Quantity()) == Max(0, need)
            && Untagged(out) == Max(0, need - Sum(batches, Capacity(now)))
            && (forall b | b in batches :: 0 <= Taken(out, b.id) <= Capacity(now)(b))
            && (forall id: BatchId :: Taken(out, id) != 0 ==> exists b :: b in batches && b.id == id && IsLive(b, now))
  {
    var out := Allocate(batches, need, now);
    SumNonNegative(batches, Capacity(now));
    if need > 0 { AllocatedTotals(batches, need, now); }
    forall b | b in batches ensures 0 <= Taken(out, b.id) <= Capacity(now)(b) {
      if need > 0 { AllocatedWithin(batches, need, now, b); }
    }
    forall id: BatchId | Taken(out, id) != 0 ensures exists b :: b in batches && b.id == id && IsLive(b, now) {
      AllocatedIsLive(batches, need, now, id);
    }
  }

  /** Row by row: what the takes draw from batches expiring by t. */
  function TakesBy(s: seq<LiveBatch>, n: int, now: int, t: int): int {
    if s == [] then 0
    else
      var take := Min(n, Capacity(now)(s[0]));
      (if ExpiresBy(s[0], t) then take else 0) + TakesBy(s[1..], n - take, now, t)
  }

  function CapacityBy(now: int, t: int): LiveBatch -> int {
    (b: LiveBatch) => if ExpiresBy(b, t) then Capacity(now)(b) else 0
  }

  lemma {:induction false} TakesAreEarliest(s: seq<LiveBatch>, n: int, now: int, t: int)
    requires Sorted(s, Precedes) && n >= 0
    ensures TakesBy(s, n, now, t) == Min(n, Sum(s, CapacityBy(now, t)))
  {
    if s != [] {
      var take := Min(n, Capacity(now)(s[0]));
      TakesAreEarliest(s[1..], n - take, now, t);
      SumHead(s, CapacityBy(now, t));
      SumNonNegative(s[1..], CapacityBy(now, t));
      if !ExpiresBy(s[0], t) {
        SumZero(s[1..], CapacityBy(now, t));
      }
    }
  }

  lemma {:induction false} TakesByIsSum(s: seq<LiveBatch>, n: int, now: int, t: int, g: BatchId -> int)
    requires PlanIsTakes(g, s, n, now)
    ensures Sum(s, PlannedBy(g, t)) == TakesBy(s, n, now, t)
  {
    if s != [] {
      var take := Min(n, Capacity(now)(s[0]));
      PlanTail(g, s, n, now);
      TakesByIsSum(s[1..], n - take, now, t, g);
      SumHead(s, PlannedBy(g, t));
    }
  }

  /** FEFO draws as much from batches expiring by t as the need and they allow. */
  lemma DrawnByCutoff(batches: seq<LiveBatch>, need: int, now: int, t: int)
    requires DistinctIds(batches) && need >= 0
    ensures Sum(batches, PlannedBy(TakenFrom(Allocate(batches, need, now)), t))
            == Min(need, Sum(batches, CapacityBy(now, t)))
  {
    var g := TakenFrom(Allocate(batches, need, now));
    var s := Sort(batches, Precedes);
    AllocatedPlan(batches, need, now);
    PrecedesIsTotalPreorder();
    SortIsSorted(batches, Precedes);
    TakesByIsSum(s, need, now, t, g);
    TakesAreEarliest(s, need, now, t);
    SumSort(batches, Precedes, PlannedBy(g, t));
    SumSort(batches, Precedes, CapacityBy(now, t));
  }

  ghost predicate Feasible(batches: seq<LiveBatch>, g: BatchId -> int, need: int, now: int) {
    && (forall b | b in batches :: 0 <= g(b.id) <= Capacity(now)(b))
    && Sum(batches, Planned(g)) <= need
  }

  /** No feasible plan uses more of the stock that expires by any cutoff. */
  lemma FefoIsEarliest(batches: seq<LiveBatch>, need: int, now: int, g: BatchId -> int, t: int)
    requires DistinctIds(batches) && need >= 0 && Feasible(batches, g, need, now)
    ensures Feasible(batches, TakenFrom(Allocate(batches, need, now)), need, now)
    ensures Sum(batches, PlannedBy(g, t)) <= Sum(batches, PlannedBy(TakenFrom(Allocate(batches, need, now)), t))
  {
    var f := TakenFrom(Allocate(batches, need, now));
    AllocationIsSound(batches, need, now);
    TotalTaken(batches, need, now);
    DrawnByCutoff(batches, need, now, t);
    SumAtMost(batches, PlannedBy(g, t), Planned(g));
    SumAtMost(batches, PlannedBy(g, t), CapacityBy(now, t));
  }

  lemma {:induction false} TakesTotal(s: seq<LiveBatch>, n: int, now: int, g: BatchId -> int)
    requires n >= 0 && PlanIsTakes(g, s, n, now)
    ensures Sum(s, Planned(g)) == Min(n, Sum(s, Capacity(now)))
  {
    if s != [] {
      var take := Min(n, Capacity(now)(s[0]));
      PlanTail(g, s, n, now);
      TakesTotal(s[1..], n - take, now, g);
      SumHead(s, Planned(g));
      SumHead(s, Capacity(now));
      SumNonNegative(s[1..], Capacity(now));
    }
  }

  lemma TotalTaken(batches: seq<LiveBatch>, need: int, now: int)
    requires DistinctIds(batches) && need >= 0
    ensures Sum(batches, Planned(TakenFrom(Allocate(batches, need, now)))) == Min(need, Sum(batches, Capacity(now)))
  {
    var g := TakenFrom(Allocate(batches, need, now));
    var s := Sort(batches, Precedes);
    AllocatedPlan(batches, need, now);
    TakesTotal(s, need, now, g);
    SumSort(batches, Precedes, Planned(g));
    SumSort(batches, Precedes, Capacity(now));
  }

  /** Drains before: earlier expiry, no expiry last, then the older preparation. */
  predicate ExpiresSooner(a: LiveBatch, b: LiveBatch) {
    || (a.expiresAt.Some? && b.expiresAt.None?)
    || (a.expiresAt.Some? && b.expiresAt.Some? && a.expiresAt.value < b.expiresAt.value)
    || (a.expiresAt == b.expiresAt && a.createdAt < b.createdAt)
  }

  lemma {:induction false} TakesInOrder(s: seq<LiveBatch>, n: int, now: int, i: nat, j: nat)
    requires n >= 0 && i < j < |s| && Takes(s, n, now)[j] > 0
    ensures Takes(s, n, now)[i] == Capacity(now)(s[i])
  {
    var left := n - Min(n, Capacity(now)(s[0]));
    TakesTail(s, n, now, j);
    if i == 0 {
      TakesBounds(s[1..], left, now);
      if left == 0 { NothingLeft(s[1..], now, j - 1); }
    } else {
      TakesTail(s, n, now, i);
      TakesInOrder(s[1..], left, now, i - 1, j - 1);
    }
  }

  lemma {:induction false} NothingLeft(s: seq<LiveBatch>, now: int, i: nat)
    requires i < |s|
    ensures Takes(s, 0, now)[i] == 0
  {
    if i > 0 { NothingLeft(s[1..], now, i - 1); }
  }

  /**
   * A batch is drawn on only once every live batch that drains before it is
   * empty: those expiring sooner, and of those expiring together the older.
   */
  lemma SoonerIsEmptiedFirst(batches: seq<LiveBatch>, need: int, now: int, a: LiveBatch, b: LiveBatch)
    requires DistinctIds(batches) && need >= 0 && a in batches && b in batches && ExpiresSooner(a, b)
    ensures Taken(Allocate(batches, need, now), b.id) > 0 ==> Taken(Allocate(batches, need, now), a.id) == Capacity(now)(a)
  {
    var s := Sort(batches, Precedes);
    var i := PlaceInQueue(batches, a);
    var j := PlaceInQueue(batches, b);
    PrecedesIsTotalPreorder();
    SortIsSorted(batches, Precedes);
    AllocatedAt(batches, need, now, s, i);
    AllocatedAt(batches, need, now, s, j);
    assert j < i ==> Precedes(s[j], s[i]);
    if i < j && Takes(s, need, now)[j] > 0 { TakesInOrder(s, need, now, i, j); }
  }

  // ---------------------------------------------------------- composition

  function Deduct(out: seq<Alloc>): LiveBatch -> LiveBatch {
    (b: LiveBatch) => b.(remaining := b.remaining - Taken(out, b.id))
  }

  /** The batches as a later reader of the ledger finds them. */
  function After(batches: seq<LiveBatch>, out: seq<Alloc>): seq<LiveBatch> {
    Map(batches, Deduct(out))
  }

  ghost predicate Deducted(s: seq<LiveBatch>, s': seq<LiveBatch>, a: int, now: int) {
    |s'| == |s| && forall i | 0 <= i < |s| :: s'[i] == s[i].(remaining := s[i].remaining - Takes(s, a, now)[i])
  }

  lemma DeductedTail(s: seq<LiveBatch>, s': seq<LiveBatch>, a: int, now: int)
    requires s != [] && Deducted(s, s', a, now) && a >= 0
    ensures Capacity(now)(s'[0]) == Capacity(now)(s[0]) - Min(a, Capacity(now)(s[0]))
    ensures Deducted(s[1..], s'[1..], a - Min(a, Capacity(now)(s[0])), now)
  {
    var take := Min(a, Capacity(now)(s[0]));
    assert s'[0] == s[0].(remaining := s[0].remaining - Takes(s, a, now)[0]);
    forall i | 0 <= i < |s| - 1 ensures s'[1..][i] == s[1..][i].(remaining := s[1..][i].remaining - Takes(s[1..], a - take, now)[i]) {
      assert s'[i + 1] == s[i + 1].(remaining := s[i + 1].remaining - Takes(s, a, now)[i + 1]);
    }
  }

  lemma {:induction false} TakesCompose(s: seq<LiveBatch>, s': seq<LiveBatch>, a: int, b: int, now: int, i: nat)
    requires a >= 0 && b >= 0 && Deducted(s, s', a, now) && i < |s|
    ensures Takes(s, a + b, now)[i] == Takes(s, a, now)[i] + Takes(s', b, now)[i]
  {
    var c := Capacity(now)(s[0]);
    var take := Min(a, c);
    DeductedTail(s, s', a, now);
    assert Min(a + b, c) == take + Min(b, c - take);
    if i > 0 {
      TakesCompose(s[1..], s'[1..], a - take, b - Min(b, c - take), now, i - 1);
      TakesTail(s, a + b, now, i);
      TakesTail(s, a, now, i);
      TakesTail(s', b, now, i);
    }
  }

  lemma {:induction false} DeductedCapacity(s: seq<LiveBatch>, s': seq<LiveBatch>, a: int, now: int)
    requires a >= 0 && Deducted(s, s', a, now)
    ensures Sum(s', Capacity(now)) == Sum(s, Capacity(now)) - Min(a, Sum(s, Capacity(now)))
  {
    if s != [] {
      DeductedTail(s, s', a, now);
      DeductedCapacity(s[1..], s'[1..], a - Min(a, Capacity(now)(s[0])), now);
      SumHead(s, Capacity(now));
      SumHead(s', Capacity(now));
      SumNonNegative(s[1..], Capacity(now));
    }
  }

  lemma AfterKeepsIds(batches: seq<LiveBatch>, out: seq<Alloc>)
    requires DistinctIds(batches)
    ensures DistinctIds(After(batches, out))
  {
  }

  lemma AfterIsDeducted(batches: seq<LiveBatch>, a: int, now: int)
    requires DistinctIds(batches) && a >= 0
    ensures Deducted(Sort(batches, Precedes), Sort(After(batches, Allocate(batches, a, now)), Precedes), a, now)
  {
    var first := Allocate(batches, a, now);
    var s := Sort(batches, Precedes);
    assert Sort(After(batches, first), Precedes) == Map(s, Deduct(first)) by {
      MapSort(batches, Precedes, Deduct(first), Precedes);
    }
    forall i | 0 <= i < |s| ensures Map(s, Deduct(first))[i] == s[i].(remaining := s[i].remaining - Takes(s, a, now)[i]) {
      AllocatedAt(batches, a, now, s, i);
    }
  }

  /** Allocating a, then b from what is left, is allocating a + b at once. */
  lemma FefoComposes(batches: seq<LiveBatch>, a: nat, b: nat, now: int)
    requires DistinctIds(batches)
    ensures var first := Allocate(batches, a, now);
            var second := Allocate(After(batches, first), b, now);
            var once := Allocate(batches, a + b, now);
            && (forall x | x in batches :: Taken(once, x.id) == Taken(first, x.id) + Taken(second, x.id))
            && Untagged(once) == Untagged(first) + Untagged(second)
  {
    var first := Allocate(batches, a, now);
    ComposesTotals(batches, a, b, now);
    forall x | x in batches
      ensures Taken(Allocate(batches, a + b, now), x.id) == Taken(first, x.id) + Taken(Allocate(After(batches, first), b, now), x.id)
    {
      ComposesAt(batches, a, b, now, x);
    }
  }

  lemma LaterCapacity(batches: seq<LiveBatch>, a: nat, now: int)
    requires DistinctIds(batches)
    ensures var total := Sum(batches, Capacity(now));
            Sum(After(batches, Allocate(batches, a, now)), Capacity(now)) == total - Min(a, total)
  {
    var later := After(batches, Allocate(batches, a, now));
    AfterIsDeducted(batches, a, now);
    AfterKeepsIds(batches, Allocate(batches, a, now));
    DeductedCapacity(Sort(batches, Precedes), Sort(later, Precedes), a, now);
    SumSort(batches, Precedes, Capacity(now));
    SumSort(later, Precedes, Capacity(now));
  }

  lemma ComposesTotals(batches: seq<LiveBatch>, a: nat, b: nat, now: int)
    requires DistinctIds(batches)
    ensures var first := Allocate(batches, a, now);
            Untagged(Allocate(batches, a + b, now)) == Untagged(first) + Untagged(Allocate(After(batches, first), b, now))
  {
    var later := After(batches, Allocate(batches, a, now));
    var total := Sum(batches, Capacity(now));
    assert Untagged(Allocate(batches, a, now)) == Max(0, a - total) by { AllocatedTotals(batches, a, now); }
    assert Untagged(Allocate(batches, a + b, now)) == Max(0, a + b - total) by { AllocatedTotals(batches, a + b, now); }
    assert Untagged(Allocate(later, b, now)) == Max(0, b - (total - Min(a, total))) by {
      AllocatedTotals(later, b, now);
      LaterCapacity(batches, a, now);
    }
    assert total >= 0 by { SumNonNegative(batches, Capacity(now)); }
  }

  lemma ComposesAt(batches: seq<LiveBatch>, a: nat, b: nat, now: int, x: LiveBatch)
    requires DistinctIds(batches) && x in batches
    ensures var first := Allocate(batches, a, now);
            Taken(Allocate(batches, a + b, now), x.id)
            == Taken(first, x.id) + Taken(Allocate(After(batches, first), b, now), x.id)
  {
    var s := Sort(batches, Precedes);
    var i := PlaceInQueue(batches, x);
    assert Taken(Allocate(batches, a, now), x.id) == Takes(s, a, now)[i] by { AllocatedAt(batches, a, now, s, i); }
    assert Taken(Allocate(batches, a + b, now), x.id) == Takes(s, a + b, now)[i] by { AllocatedAt(batches, a + b, now, s, i); }
    LaterAllocatedAt(batches, a, b, now, s, i);
  }

  lemma PlaceInQueue(batches: seq<LiveBatch>, x: LiveBatch) returns (i: nat)
    requires x in batches
    ensures i < |Sort(batches, Precedes)| && Sort(batches, Precedes)[i] == x
  {
    InSort(batches, Precedes);
    i :| 0 <= i < |Sort(batches, Precedes)| && Sort(batches, Precedes)[i] == x;
  }

  /** What the second allocation takes from the i-th batch in queue order. */
  lemma LaterAllocatedAt(batches: seq<LiveBatch>, a: nat, b: nat, now: int, s: seq<LiveBatch>, i: nat)
    requires DistinctIds(batches) && s == Sort(batches, Precedes) && i < |s|
    ensures Taken(Allocate(After(batches, Allocate(batches, a, now)), b, now), s[i].id)
            == Takes(s, a + b, now)[i] - Takes(s, a, now)[i]
  {
    var later := After(batches, Allocate(batches, a, now));
    var s' := Sort(later, Precedes);
    AfterIsDeducted(batches, a, now);
    AfterKeepsIds(batches, Allocate(batches, a, now));
    assert s'[i].id == s[i].id;
    AllocatedAt(later, b, now, s', i);
    TakesCompose(s, s', a, b, now, i);
  }
}
