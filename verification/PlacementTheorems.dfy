/**
 * What a sale takes of prepared stock at the time it is made, said of the
 * movements it appends: from live batches only, first expired first out, the
 * rest without a batch.
 */
module PlacementTheorems {
  import opened Options
  import opened Sums
  import opened StableSort
  import opened Tallies
  import opened Traces
  import opened OrderStatus
  import opened StockLedger
  import opened StockRows
  import opened StockSafety
  import StockTheorems
  import Fefo

  // ------------------------------------------------------- what is ordered

  /** What one ordered item takes of ingredient i: a combo, for each of its units, each of its lines. */
  function Consumption(recipes: Recipes, i: Ingredient): OrderItem -> int {
    (item: OrderItem) =>
      match item
      case ProductItem(p, q) => q * PerUnit(RecipeOf(recipes, p), i)
      case ComboItem(cs, q) => q * Sum(cs, LineNeeds(recipes, i))
  }

  /** The same for a held order, whose combos are not taken when it resumes. */
  function ConsumptionOfProducts(recipes: Recipes, i: Ingredient): OrderItem -> int {
    (item: OrderItem) => if item.ProductItem? then item.quantity * PerUnit(RecipeOf(recipes, item.product), i) else 0
  }

  lemma {:induction false} ComboNeeds(recipes: Recipes, cs: seq<Line>, q: Pos, i: Ingredient)
    ensures Sum(Map(cs, ScaledBy(q)), LineNeeds(recipes, i)) == q * Sum(cs, LineNeeds(recipes, i))
  {
    if cs != [] {
      var n := |cs| - 1;
      var c, rest := cs[n], Sum(cs[..n], LineNeeds(recipes, i));
      ComboNeeds(recipes, cs[..n], q, i);
      assert Map(cs, ScaledBy(q))[..n] == Map(cs[..n], ScaledBy(q));
      TimesNeeds(c.quantity, q, PerUnit(RecipeOf(recipes, c.product), i), rest);
    }
  }

  lemma TimesNeeds(a: Pos, q: Pos, u: int, rest: int)
    ensures Times(a, q) * u + q * rest == q * (rest + a * u)
  {
    assert Times(a, q) * u == q * (a * u);
  }

  /** The lines one item of a direct sale stands for. */
  function LinesOf(item: OrderItem): seq<Line> {
    if item.ProductItem? then [Line(item.product, item.quantity)] else Map(item.components, ScaledBy(item.quantity))
  }

  /** The lines one item of a resumed hold stands for. */
  function OwnLines(item: OrderItem): seq<Line> {
    if item.ProductItem? then [Line(item.product, item.quantity)] else []
  }

  lemma {:induction false} SumsByItem(items: seq<OrderItem>, w: Line -> int, f: OrderItem -> int, g: OrderItem -> int)
    requires forall item | item in items :: Sum(LinesOf(item), w) == f(item) && Sum(OwnLines(item), w) == g(item)
    ensures Sum(ExpandItems(items), w) == Sum(items, f) && Sum(ProductLines(items), w) == Sum(items, g)
  {
    if items != [] {
      var n := |items| - 1;
      SumsByItem(items[..n], w, f, g);
      assert items[n] in items;
      assert ExpandItems(items) == ExpandItems(items[..n]) + LinesOf(items[n]);
      assert ProductLines(items) == ProductLines(items[..n]) + OwnLines(items[n]);
      SumAppend(ExpandItems(items[..n]), LinesOf(items[n]), w);
      SumAppend(ProductLines(items[..n]), OwnLines(items[n]), w);
    }
  }

  lemma ItemTakes(recipes: Recipes, item: OrderItem, i: Ingredient)
    ensures Sum(LinesOf(item), LineNeeds(recipes, i)) == Consumption(recipes, i)(item)
    ensures Sum(OwnLines(item), LineNeeds(recipes, i)) == ConsumptionOfProducts(recipes, i)(item)
  {
    match item
    case ProductItem(p, q) => SumOne(Line(p, q), LineNeeds(recipes, i));
    case ComboItem(cs, q) => ComboNeeds(recipes, cs, q, i);
  }

  /** A sale takes what the recipes of its items say, combo by combo and line by line. */
  lemma SaleConsumes(recipes: Recipes, items: seq<OrderItem>, i: Ingredient)
    ensures Expansion(recipes, ExpandItems(items), i) == Sum(items, Consumption(recipes, i))
    ensures Expansion(recipes, ProductLines(items), i) == Sum(items, ConsumptionOfProducts(recipes, i))
  {
    forall item | item in items
      ensures Sum(LinesOf(item), LineNeeds(recipes, i)) == Consumption(recipes, i)(item)
      ensures Sum(OwnLines(item), LineNeeds(recipes, i)) == ConsumptionOfProducts(recipes, i)(item)
    {
      ItemTakes(recipes, item, i);
    }
    SumsByItem(items, LineNeeds(recipes, i), Consumption(recipes, i), ConsumptionOfProducts(recipes, i));
  }

  // ------------------------------------------------------------- live stock

  predicate Unexpired(b: Batch, now: int) { b.expiresAt.None? || b.expiresAt.value > now }

  predicate ExpiresBy(b: Batch, t: int) { b.expiresAt.Some? && b.expiresAt.value <= t }

  /** What is left, at `now`, in the unexpired batches of an item among the first n. */
  function LiveStock(rows: seq<Movement>, batches: seq<Batch>, i: Ingredient, now: int, n: nat): int
    requires n <= |batches|
  {
    if n == 0 then 0
    else
      var left := Remaining(rows, n - 1);
      LiveStock(rows, batches, i, now, n - 1)
      + if batches[n - 1].item == i && left > 0 && Unexpired(batches[n - 1], now) then left else 0
  }

  /** The part of it that expires by t. */
  function LiveStockBy(rows: seq<Movement>, batches: seq<Batch>, i: Ingredient, now: int, t: int, n: nat): int
    requires n <= |batches|
  {
    if n == 0 then 0
    else
      var left := Remaining(rows, n - 1);
      LiveStockBy(rows, batches, i, now, t, n - 1)
      + if batches[n - 1].item == i && left > 0 && Unexpired(batches[n - 1], now) && ExpiresBy(batches[n - 1], t) then left else 0
  }

  function OfUntagged(i: Ingredient): Movement -> bool { (m: Movement) => m.ingredient == i && m.batch.None? }

  /** Rows of an item that are tagged with one of the first n batches, if that expires by t. */
  function OfExpiring(batches: seq<Batch>, i: Ingredient, t: int, n: nat): Movement -> bool {
    (m: Movement) =>
      m.ingredient == i && m.batch.Some? && m.batch.value < n <= |batches| && batches[m.batch.value].item == i
      && ExpiresBy(batches[m.batch.value], t)
  }

  // -------------------------------------------------------------- one item

  /** A row draws, if on a batch at all, on one with something left that has not expired. */
  ghost predicate DrawsLive(l: Ledger, now: int, m: Movement) {
    m.batch.Some? ==>
      && m.batch.value < |l.batches| && l.batches[m.batch.value].item == m.ingredient
      && Remaining(l.rows, m.batch.value) > 0 && Unexpired(l.batches[m.batch.value], now)
  }

  lemma AllocIsLive(l: Ledger, i: Ingredient, need: int, now: int, a: Fefo.Alloc)
    requires a in Fefo.Allocate(View(l.rows, l.batches, i, |l.batches|), need, now)
    ensures OnLive(l, i, now, a)
  {
    var view := View(l.rows, l.batches, i, |l.batches|);
    ViewIsFaithful(l.rows, l.batches, i, |l.batches|);
    InFilter(view, Fefo.Live(now));
    InSort(Filter(view, Fefo.Live(now)), Fefo.Precedes);
    DrainRows(Fefo.Queue(view, now), need);
  }

  /** An allocation entry that is on a live batch of the item, or on none. */
  ghost predicate OnLive(l: Ledger, i: Ingredient, now: int, a: Fefo.Alloc) {
    a.batch.Some? ==>
      && a.batch.value < |l.batches| && l.batches[a.batch.value].item == i
      && Remaining(l.rows, a.batch.value) > 0 && Unexpired(l.batches[a.batch.value], now)
  }

  lemma AllocatedRowDrawsLive(l: Ledger, o: OrderId, k: Ingredient, out: seq<Fefo.Alloc>, now: int, m: Movement)
    requires (forall a | a in out :: OnLive(l, k, now, a)) && m in Map(out, AllocRow(k, o))
    ensures m.ingredient == k && DrawsLive(l, now, m)
  {
    var a :| 0 <= a < |out| && Map(out, AllocRow(k, o))[a] == m;
    assert out[a] in out;
  }

  lemma PreparedRowDrawsLive(l: Ledger, o: OrderId, t: Tally<Ingredient>, k: Ingredient, now: int, m: Movement)
    requires m in PreparedRows(l, t, o, now)(k)
    ensures m.ingredient == k && DrawsLive(l, now, m)
  {
    var out := Fefo.Allocate(View(l.rows, l.batches, k, |l.batches|), Total(t, k), now);
    forall a | a in out ensures OnLive(l, k, now, a) { AllocIsLive(l, k, Total(t, k), now, a); }
    AllocatedRowDrawsLive(l, o, k, out, now, m);
  }

  lemma PreparedRowsDrawLive(l: Ledger, o: OrderId, t: Tally<Ingredient>, keys: seq<Ingredient>, now: int, m: Movement)
    requires m in Emit(keys, PreparedRows(l, t, o, now))
    ensures m.ingredient in keys && DrawsLive(l, now, m)
  {
    InEmit(keys, PreparedRows(l, t, o, now), m);
    var j :| 0 <= j < |keys| && m in PreparedRows(l, t, o, now)(keys[j]);
    PreparedRowDrawsLive(l, o, t, keys[j], now, m);
  }

  lemma RawRowIsUntagged(prepared: set<Ingredient>, t: Tally<Ingredient>, o: OrderId, m: Movement)
    requires m in Emit(t.keys, RawRow(prepared, t, o))
    ensures m.batch.None? && m.ingredient !in prepared
  {
    InEmit(t.keys, RawRow(prepared, t, o), m);
  }

  lemma DepletionDrawsLive(l: Ledger, o: OrderId, lines: seq<Line>, now: int, m: Movement)
    requires m in DepletionRows(l, o, lines, now)
    ensures DrawsLive(l, now, m) && (m.ingredient in l.prepared || m.batch.None?)
  {
    var t := TallyOf(Needs(l.recipes, lines));
    if m in Emit(t.keys, RawRow(l.prepared, t, o)) {
      RawRowIsUntagged(l.prepared, t, o, m);
    } else {
      PreparedRowsDrawLive(l, o, t, Filter(t.keys, IsPrepared(l.prepared)), now, m);
      InFilter(t.keys, IsPrepared(l.prepared));
    }
  }

  // -------------------------------------------------- live stock, as FEFO sees it

  /** A batch as FEFO sees it, with what it can give. */
  function Seen(rows: seq<Movement>, batches: seq<Batch>, b: BatchId): Fefo.LiveBatch
    requires b < |batches|
  {
    Fefo.LiveBatch(b, Remaining(rows, b), batches[b].expiresAt, batches[b].createdAt)
  }

  lemma SeenCapacity(rows: seq<Movement>, batches: seq<Batch>, b: BatchId, now: int, t: int)
    requires b < |batches|
    ensures var left := if Remaining(rows, b) > 0 && Unexpired(batches[b], now) then Remaining(rows, b) else 0;
            && Fefo.Capacity(now)(Seen(rows, batches, b)) == left
            && Fefo.CapacityBy(now, t)(Seen(rows, batches, b)) == if ExpiresBy(batches[b], t) then left else 0
  {
  }

  lemma ViewSum(rows: seq<Movement>, batches: seq<Batch>, i: Ingredient, n: nat, w: Fefo.LiveBatch -> int)
    requires 0 < n <= |batches|
    ensures Sum(View(rows, batches, i, n), w)
            == Sum(View(rows, batches, i, n - 1), w) + if batches[n - 1].item == i then w(Seen(rows, batches, n - 1)) else 0
  {
    var last := if batches[n - 1].item == i then [Seen(rows, batches, n - 1)] else [];
    SumAppend(View(rows, batches, i, n - 1), last, w);
    SumOne(Seen(rows, batches, n - 1), w);
  }

  lemma {:induction false} ViewCapacity(rows: seq<Movement>, batches: seq<Batch>, i: Ingredient, now: int, n: nat)
    requires n <= |batches|
    ensures Sum(View(rows, batches, i, n), Fefo.Capacity(now)) == LiveStock(rows, batches, i, now, n)
  {
    if n > 0 {
      ViewCapacity(rows, batches, i, now, n - 1);
      ViewSum(rows, batches, i, n, Fefo.Capacity(now));
      SeenCapacity(rows, batches, n - 1, now, 0);
    }
  }

  lemma {:induction false} ViewCapacityBy(rows: seq<Movement>, batches: seq<Batch>, i: Ingredient, now: int, t: int, n: nat)
    requires n <= |batches|
    ensures Sum(View(rows, batches, i, n), Fefo.CapacityBy(now, t)) == LiveStockBy(rows, batches, i, now, t, n)
  {
    if n > 0 {
      ViewCapacityBy(rows, batches, i, now, t, n - 1);
      ViewSum(rows, batches, i, n, Fefo.CapacityBy(now, t));
      SeenCapacity(rows, batches, n - 1, now, t);
    }
  }

  /** What an allocation takes from the first n batches of an item, if they expire by t. */
  function FromExpiring(batches: seq<Batch>, i: Ingredient, t: int, n: nat): Fefo.Alloc -> int {
    (a: Fefo.Alloc) =>
      if a.batch.Some? && a.batch.value < n <= |batches| && batches[a.batch.value].item == i && ExpiresBy(batches[a.batch.value], t)
      then a.quantity else 0
  }

  lemma OneMoreBatch(batches: seq<Batch>, i: Ingredient, t: int, out: seq<Fefo.Alloc>, n: nat)
    requires 0 < n <= |batches|
    ensures Sum(out, FromExpiring(batches, i, t, n))
            == Sum(out, FromExpiring(batches, i, t, n - 1))
               + if batches[n - 1].item == i && ExpiresBy(batches[n - 1], t) then Fefo.Taken(out, n - 1) else 0
  {
    if batches[n - 1].item == i && ExpiresBy(batches[n - 1], t) {
      SumSplit(out, FromExpiring(batches, i, t, n), FromExpiring(batches, i, t, n - 1), Fefo.OfBatch(n - 1));
    } else {
      SumEqual(out, FromExpiring(batches, i, t, n), FromExpiring(batches, i, t, n - 1));
    }
  }

  lemma SeenPlanned(rows: seq<Movement>, batches: seq<Batch>, b: BatchId, t: int, out: seq<Fefo.Alloc>)
    requires b < |batches|
    ensures Fefo.PlannedBy(Fefo.TakenFrom(out), t)(Seen(rows, batches, b)) == if ExpiresBy(batches[b], t) then Fefo.Taken(out, b) else 0
  {
    var seen := Seen(rows, batches, b);
    assert Fefo.ExpiresBy(seen, t) == ExpiresBy(batches[b], t);
    assert Fefo.TakenFrom(out)(seen.id) == Fefo.Taken(out, b);
    assert Fefo.PlannedBy(Fefo.TakenFrom(out), t)(seen) == if Fefo.ExpiresBy(seen, t) then Fefo.TakenFrom(out)(seen.id) else 0;
  }

  /** Summing over the batches what was taken from each is summing over the takings. */
  lemma {:induction false} ViewPlanned(rows: seq<Movement>, batches: seq<Batch>, i: Ingredient, t: int, out: seq<Fefo.Alloc>, n: nat)
    requires n <= |batches|
    ensures Sum(View(rows, batches, i, n), Fefo.PlannedBy(Fefo.TakenFrom(out), t)) == Sum(out, FromExpiring(batches, i, t, n))
  {
    if n == 0 {
      SumZero(out, FromExpiring(batches, i, t, 0));
    } else {
      ViewPlanned(rows, batches, i, t, out, n - 1);
      ViewSum(rows, batches, i, n, Fefo.PlannedBy(Fefo.TakenFrom(out), t));
      SeenPlanned(rows, batches, n - 1, t, out);
      OneMoreBatch(batches, i, t, out, n);
    }
  }

  // ------------------------------------------------------- one placement's rows

  /** A weight that sees a drawn row only through its item and its share. */
  ghost predicate SeesItem(w: Movement -> int, i: Ingredient, o: OrderId, u: Fefo.Alloc -> int) {
    forall k: Ingredient, q: int, b: Option<BatchId> ::
      w(Movement(k, CONSUMPTION, q, Some(o), b)) == if k == i then -u(Fefo.Alloc(b, -q)) else 0
  }

  lemma MapShare(out: seq<Fefo.Alloc>, k: Ingredient, i: Ingredient, o: OrderId, w: Movement -> int, u: Fefo.Alloc -> int)
    requires SeesItem(w, i, o, u)
    ensures Sum(Map(out, AllocRow(k, o)), w) == if k == i then -Sum(out, u) else 0
  {
    forall a: Fefo.Alloc ensures w(AllocRow(k, o)(a)) == if k == i then -u(a) else 0 {
      assert AllocRow(k, o)(a) == Movement(k, CONSUMPTION, -a.quantity, Some(o), a.batch);
      assert a == Fefo.Alloc(a.batch, -(-a.quantity));
    }
    if k == i {
      AllocRowsSum(out, k, o, w, u);
    } else {
      AllocRowsSum(out, k, o, w, Zero<Fefo.Alloc>());
      SumZero(out, Zero<Fefo.Alloc>());
    }
  }

  /** A share u of what one allocation of `need` takes of item i. */
  function Share(l: Ledger, i: Ingredient, need: int, now: int, u: Fefo.Alloc -> int): int {
    Sum(Fefo.Allocate(View(l.rows, l.batches, i, |l.batches|), need, now), u)
  }

  lemma PreparedSumAt(l: Ledger, t: Tally<Ingredient>, o: OrderId, now: int, k: Ingredient, i: Ingredient,
                      w: Movement -> int, u: Fefo.Alloc -> int)
    requires SeesItem(w, i, o, u)
    ensures Sum(PreparedRows(l, t, o, now)(k), w) == if k == i then -Share(l, i, Total(t, i), now, u) else 0
  {
    PreparedRowsAt(l, t, o, now, k);
    MapShare(Fefo.Allocate(View(l.rows, l.batches, k, |l.batches|), Total(t, k), now), k, i, o, w, u);
  }

  lemma PreparedRowsAt(l: Ledger, t: Tally<Ingredient>, o: OrderId, now: int, k: Ingredient)
    ensures PreparedRows(l, t, o, now)(k) == Map(Fefo.Allocate(View(l.rows, l.batches, k, |l.batches|), Total(t, k), now), AllocRow(k, o))
  {
  }

  lemma PreparedSum(l: Ledger, t: Tally<Ingredient>, o: OrderId, now: int, keys: seq<Ingredient>, i: Ingredient,
                    w: Movement -> int, u: Fefo.Alloc -> int)
    requires Distinct(keys) && SeesItem(w, i, o, u)
    ensures Sum(Emit(keys, PreparedRows(l, t, o, now)), w) == if i in keys then -Share(l, i, Total(t, i), now, u) else 0
  {
    var each := SumOf(PreparedRows(l, t, o, now), w);
    EmitSum(keys, PreparedRows(l, t, o, now), w);
    forall k ensures each(k) == if k == i then -Share(l, i, Total(t, i), now, u) else 0 {
      PreparedSumAt(l, t, o, now, k, i, w, u);
    }
    SumSingle(keys, each, i);
  }

  lemma RawSumsToNothing(prepared: set<Ingredient>, t: Tally<Ingredient>, o: OrderId, i: Ingredient, w: Movement -> int)
    requires i in prepared && forall m: Movement :: m.ingredient != i ==> w(m) == 0
    ensures Sum(Emit(t.keys, RawRow(prepared, t, o)), w) == 0
  {
    var raw := Emit(t.keys, RawRow(prepared, t, o));
    forall m | m in raw ensures w(m) == 0 { RawRowIsUntagged(prepared, t, o, m); }
    SumZero(raw, w);
  }

  /** The rows one placement appends; kept folded by the idle quantifier. */
  ghost predicate IsPlacement(l: Ledger, o: OrderId, lines: seq<Line>, now: int, added: seq<Movement>) {
    forall n {:trigger Unfold(n)} :: Unfold(n) ==> added == DepletionRows(l, o, lines, now)
  }

  /** Any share of what a placement takes of a prepared item is that share of one FEFO allocation. */
  lemma PlacementShare(l: Ledger, o: OrderId, lines: seq<Line>, now: int, added: seq<Movement>,
                       i: Ingredient, w: Movement -> int, u: Fefo.Alloc -> int)
    requires IsPlacement(l, o, lines, now, added)
    requires i in l.prepared && SeesItem(w, i, o, u) && forall m: Movement :: m.ingredient != i ==> w(m) == 0
    ensures Sum(added, w) == -Share(l, i, Expansion(l.recipes, lines, i), now, u)
  {
    var t := TallyOf(Needs(l.recipes, lines));
    var ps := Filter(t.keys, IsPrepared(l.prepared));
    TotalIsExpansion(l.recipes, lines, i);
    FilterKeepsDistinct(t.keys, IsPrepared(l.prepared));
    RawSumsToNothing(l.prepared, t, o, i, w);
    PreparedSum(l, t, o, now, ps, i, w, u);
    assert i in ps <==> i in t.keys by { InFilter(t.keys, IsPrepared(l.prepared)); }
    SumAppend(Emit(t.keys, RawRow(l.prepared, t, o)), Emit(ps, PreparedRows(l, t, o, now)), w);
    assert Unfold(0);
  }

  lemma UntaggedSeesItem(i: Ingredient, o: OrderId)
    ensures SeesItem(Weigh(OfUntagged(i)), i, o, Fefo.NoBatch())
    ensures forall m: Movement :: m.ingredient != i ==> Weigh(OfUntagged(i))(m) == 0
  {
  }

  lemma ExpiringSeesItem(batches: seq<Batch>, i: Ingredient, t: int, n: nat, o: OrderId)
    ensures SeesItem(Weigh(OfExpiring(batches, i, t, n)), i, o, FromExpiring(batches, i, t, n))
    ensures forall m: Movement :: m.ingredient != i ==> Weigh(OfExpiring(batches, i, t, n))(m) == 0
  {
  }

  lemma NeedIsNatural(recipes: Recipes, lines: seq<Line>, i: Ingredient)
    ensures Expansion(recipes, lines, i) >= 0
  {
    TotalIsExpansion(recipes, lines, i);
  }

  lemma UntaggedShare(l: Ledger, lines: seq<Line>, i: Ingredient, now: int)
    ensures Share(l, i, Expansion(l.recipes, lines, i), now, Fefo.NoBatch())
            == Max(0, Expansion(l.recipes, lines, i) - LiveStock(l.rows, l.batches, i, now, |l.batches|))
  {
    NeedIsNatural(l.recipes, lines, i);
    Fefo.AllocatedTotals(View(l.rows, l.batches, i, |l.batches|), Expansion(l.recipes, lines, i), now);
    ViewCapacity(l.rows, l.batches, i, now, |l.batches|);
  }

  lemma ExpiringShare(l: Ledger, i: Ingredient, need: int, now: int, t: int)
    requires need >= 0
    ensures Share(l, i, need, now, FromExpiring(l.batches, i, t, |l.batches|))
            == Min(need, LiveStockBy(l.rows, l.batches, i, now, t, |l.batches|))
  {
    var n := |l.batches|;
    var view := View(l.rows, l.batches, i, n);
    ViewIsFaithful(l.rows, l.batches, i, n);
    Fefo.DrawnByCutoff(view, need, now, t);
    ViewPlanned(l.rows, l.batches, i, t, Fefo.Allocate(view, need, now), n);
    ViewCapacityBy(l.rows, l.batches, i, now, t, n);
  }

  lemma PlacementUntaggedShare(l: Ledger, o: OrderId, lines: seq<Line>, now: int, added: seq<Movement>, i: Ingredient)
    requires IsPlacement(l, o, lines, now, added) && i in l.prepared
    ensures Sum(added, Weigh(OfUntagged(i))) == -Share(l, i, Expansion(l.recipes, lines, i), now, Fefo.NoBatch())
  {
    UntaggedSeesItem(i, o);
    PlacementShare(l, o, lines, now, added, i, Weigh(OfUntagged(i)), Fefo.NoBatch());
  }

  lemma PlacementUntagged(l: Ledger, o: OrderId, lines: seq<Line>, now: int, added: seq<Movement>, i: Ingredient)
    requires IsPlacement(l, o, lines, now, added) && i in l.prepared
    ensures Sum(added, Weigh(OfUntagged(i)))
            == -Max(0, Expansion(l.recipes, lines, i) - LiveStock(l.rows, l.batches, i, now, |l.batches|))
  {
    PlacementUntaggedShare(l, o, lines, now, added, i);
    UntaggedShare(l, lines, i, now);
  }

  lemma PlacementByCutoff(l: Ledger, o: OrderId, lines: seq<Line>, now: int, added: seq<Movement>, i: Ingredient, t: int)
    requires IsPlacement(l, o, lines, now, added) && i in l.prepared
    ensures Sum(added, Weigh(OfExpiring(l.batches, i, t, |l.batches|)))
            == -Min(Expansion(l.recipes, lines, i), LiveStockBy(l.rows, l.batches, i, now, t, |l.batches|))
  {
    var n := |l.batches|;
    ExpiringSeesItem(l.batches, i, t, n, o);
    PlacementShare(l, o, lines, now, added, i, Weigh(OfExpiring(l.batches, i, t, n)), FromExpiring(l.batches, i, t, n));
    NeedIsNatural(l.recipes, lines, i);
    ExpiringShare(l, i, Expansion(l.recipes, lines, i), now, t);
  }

  lemma PlacementRow(l: Ledger, o: OrderId, lines: seq<Line>, now: int, added: seq<Movement>, m: Movement)
    requires IsPlacement(l, o, lines, now, added) && m in added
    ensures m.kind == CONSUMPTION && m.order == Some(o) && m.quantity < 0
    ensures DrawsLive(l, now, m) && (m.ingredient in l.prepared || m.batch.None?)
  {
    assert Unfold(0);
    DepletionRowsOk(l, o, lines, now, m);
    DepletionDrawsLive(l, o, lines, now, m);
  }

  // --------------------------------------------------------------- main results

  /**
   * The movements a sale appends to l: each is a consumption of the order, tagged
   * only with a batch that still holds something and has not expired; of each
   * prepared item, what live stock does not cover is untagged, and by every
   * cutoff as much is drawn as the need and the live stock expiring by it allow.
   */
  ghost predicate TakesFirstExpiring(l: Ledger, added: seq<Movement>, o: OrderId, lines: seq<Line>, now: int) {
    && (forall m | m in added ::
          && m.kind == CONSUMPTION && m.order == Some(o) && m.quantity < 0
          && DrawsLive(l, now, m) && (m.ingredient in l.prepared || m.batch.None?))
    && (forall i | i in l.prepared ::
          Sum(added, Weigh(OfUntagged(i)))
          == -Max(0, Expansion(l.recipes, lines, i) - LiveStock(l.rows, l.batches, i, now, |l.batches|)))
    && (forall i, t | i in l.prepared ::
          Sum(added, Weigh(OfExpiring(l.batches, i, t, |l.batches|)))
          == -Min(Expansion(l.recipes, lines, i), LiveStockBy(l.rows, l.batches, i, now, t, |l.batches|)))
  }

  lemma PlacementTakesFirstExpiring(l: Ledger, o: OrderId, lines: seq<Line>, now: int, added: seq<Movement>)
    requires IsPlacement(l, o, lines, now, added)
    ensures TakesFirstExpiring(l, added, o, lines, now)
  {
    forall m | m in added
      ensures && m.kind == CONSUMPTION && m.order == Some(o) && m.quantity < 0
              && DrawsLive(l, now, m) && (m.ingredient in l.prepared || m.batch.None?)
    {
      PlacementRow(l, o, lines, now, added, m);
    }
    forall i | i in l.prepared
      ensures Sum(added, Weigh(OfUntagged(i)))
              == -Max(0, Expansion(l.recipes, lines, i) - LiveStock(l.rows, l.batches, i, now, |l.batches|))
    {
      PlacementUntagged(l, o, lines, now, added, i);
    }
    forall i, t | i in l.prepared
      ensures Sum(added, Weigh(OfExpiring(l.batches, i, t, |l.batches|)))
              == -Min(Expansion(l.recipes, lines, i), LiveStockBy(l.rows, l.batches, i, now, t, |l.batches|))
    {
      PlacementByCutoff(l, o, lines, now, added, i, t);
    }
  }

  /** What placing an order writes: its rows behind those of l, and what it was placed with. */
  lemma Placed(l: Ledger, o: OrderId, lines: seq<Line>, now: int)
    requires o < |l.orders|
    ensures PlacedTo(l, o, lines, now, Place(l, o, lines, now))
  {
  }

  /** l' is l with an order placed: its rows behind those of l, and what it was placed with. */
  ghost predicate PlacedTo(l: Ledger, o: OrderId, lines: seq<Line>, now: int, l': Ledger) {
    && |l.rows| <= |l'.rows| && IsPlacement(l, o, lines, now, l'.rows[|l.rows|..])
    && o < |l'.orders| && l'.orders[o].placement == Some(Placement(l.recipes, lines, now))
  }

  lemma CreateIsPlace(l: Ledger, a: Action)
    requires a.Create? && !a.held
    ensures Step(l, a) == Place(Drafted(l, a.items), |l.orders|, ExpandItems(a.items), a.now)
  {
  }

  lemma ResumeIsPlace(l: Ledger, o: OrderId, now: int)
    requires o < |l.orders| && l.orders[o].status == DRAFT
    ensures Step(l, SetStatus(o, PLACED, now)) == Place(l, o, ProductLines(l.orders[o].items), now)
  {
  }

  lemma PlacedIs(l: Ledger, o: OrderId, lines: seq<Line>, now: int, l': Ledger)
    requires o < |l.orders| && l' == Place(l, o, lines, now)
    ensures PlacedTo(l, o, lines, now, l')
  {
    Placed(l, o, lines, now);
  }

  lemma CreatePlaces(l: Ledger, items: seq<OrderItem>, now: int, l': Ledger)
    requires l' == Place(Drafted(l, items), |l.orders|, ExpandItems(items), now)
    ensures PlacedTo(l, |l.orders|, ExpandItems(items), now, l')
  {
    var d := Drafted(l, items);
    PlacedIs(d, |l.orders|, ExpandItems(items), now, l');
    PlacedSame(d, l, |l.orders|, ExpandItems(items), now, l');
  }

  lemma PlacedSame(d: Ledger, l: Ledger, o: OrderId, lines: seq<Line>, now: int, l': Ledger)
    requires d.rows == l.rows && d.batches == l.batches && d.prepared == l.prepared && d.recipes == l.recipes
    requires PlacedTo(d, o, lines, now, l')
    ensures PlacedTo(l, o, lines, now, l')
  {
    SameRows(d, l, o, lines, now);
    assert Unfold(0);
  }

  lemma SameRows(d: Ledger, l: Ledger, o: OrderId, lines: seq<Line>, now: int)
    requires d.rows == l.rows && d.batches == l.batches && d.prepared == l.prepared && d.recipes == l.recipes
    ensures DepletionRows(d, o, lines, now) == DepletionRows(l, o, lines, now)
  {
    var t := TallyOf(Needs(l.recipes, lines));
    EmitSame(Filter(t.keys, IsPrepared(l.prepared)), PreparedRows(d, t, o, now), PreparedRows(l, t, o, now));
  }

  lemma {:induction false} EmitSame<K(!new), M>(keys: seq<K>, f: K -> seq<M>, g: K -> seq<M>)
    requires forall k :: f(k) == g(k)
    ensures Emit(keys, f) == Emit(keys, g)
  {
    if keys != [] { EmitSame(keys[..|keys| - 1], f, g); }
  }

  /** l' is l with order o placed at `now`, and its new rows take the first expiring live stock. */
  ghost predicate PlacedFirstExpiring(l: Ledger, o: OrderId, lines: seq<Line>, now: int, l': Ledger) {
    && |l.rows| <= |l'.rows| && TakesFirstExpiring(l, l'.rows[|l.rows|..], o, lines, now)
    && o < |l'.orders| && l'.orders[o].placement == Some(Placement(l.recipes, lines, now))
  }

  lemma PlacedTakes(l: Ledger, o: OrderId, lines: seq<Line>, now: int, l': Ledger)
    requires PlacedTo(l, o, lines, now, l')
    ensures PlacedFirstExpiring(l, o, lines, now, l')
  {
    PlacementTakesFirstExpiring(l, o, lines, now, l'.rows[|l.rows|..]);
  }

  /** A sale that was never held, at the time it is made. */
  lemma SaleTakesFirstExpiring(l: Ledger, items: seq<OrderItem>, now: int)
    ensures PlacedFirstExpiring(l, |l.orders|, ExpandItems(items), now, Step(l, Create(items, false, now)))
  {
    CreateIsPlace(l, Create(items, false, now));
    CreatePlaces(l, items, now, Step(l, Create(items, false, now)));
    PlacedTakes(l, |l.orders|, ExpandItems(items), now, Step(l, Create(items, false, now)));
  }

  /** A held order, at the time it is placed. */
  lemma ResumedSaleTakesFirstExpiring(l: Ledger, o: OrderId, now: int)
    requires o < |l.orders| && l.orders[o].status == DRAFT
    ensures PlacedFirstExpiring(l, o, ProductLines(l.orders[o].items), now, Step(l, SetStatus(o, PLACED, now)))
  {
    ResumeIsPlace(l, o, now);
    PlacedIs(l, o, ProductLines(l.orders[o].items), now, Step(l, SetStatus(o, PLACED, now)));
    PlacedTakes(l, o, ProductLines(l.orders[o].items), now, Step(l, SetStatus(o, PLACED, now)));
  }

  lemma DepletedTakes(l: Ledger, o: OrderId, lines: seq<Line>, now: int, rows: seq<Movement>)
    requires rows == l.rows + DepletionRows(l, o, lines, now)
    ensures |l.rows| <= |rows| && TakesFirstExpiring(l, rows[|l.rows|..], o, lines, now)
  {
    assert rows[|l.rows|..] == DepletionRows(l, o, lines, now);
    PlacementTakesFirstExpiring(l, o, lines, now, rows[|l.rows|..]);
  }

  // ------------------------------------------------------------- every run

  /** A consumption row's batch had not expired when its order was placed. */
  ghost predicate DrewFresh(l: Ledger, m: Movement) {
    m.kind == CONSUMPTION && m.batch.Some? ==>
      && m.order.Some? && m.order.value < |l.orders| && l.orders[m.order.value].placement.Some?
      && m.batch.value < |l.batches| && Unexpired(l.batches[m.batch.value], l.orders[m.order.value].placement.value.at)
  }

  ghost predicate AllDrewFresh(l: Ledger) { forall m | m in l.rows :: DrewFresh(l, m) }

  lemma OldRowStaysFresh(l: Ledger, a: Action, m: Movement)
    requires Inv(l) && DrewFresh(l, m)
    ensures DrewFresh(Step(l, a), m)
  {
    StockTheorems.BatchesStay(l, a);
    if m.kind == CONSUMPTION && m.batch.Some? {
      StockTheorems.StepKeepsPlacement(l, a, m.order.value);
      assert Step(l, a).batches[..|l.batches|][m.batch.value] == l.batches[m.batch.value];
    }
  }

  lemma NewRowIsFresh(l: Ledger, a: Action, m: Movement)
    requires Inv(l) && m in StockTheorems.Added(l, a)
    ensures DrewFresh(Step(l, a), m)
  {
    match a
    case Create(items, held, now) =>
      var d := Drafted(l, items);
      if !held { PlacedRowIsFresh(d, |l.orders|, ExpandItems(items), now, m); }
    case SetStatus(o, to, now) =>
      if l.orders[o].status == DRAFT && to == PLACED {
        PlacedRowIsFresh(l, o, ProductLines(l.orders[o].items), now, m);
      } else {
        RestockRowsOk(l.rows, o, m);
      }
    case _ =>
  }

  lemma PlacedRowIsFresh(l: Ledger, o: OrderId, lines: seq<Line>, now: int, m: Movement)
    requires o < |l.orders| && m in DepletionRows(l, o, lines, now)
    ensures DrewFresh(Place(l, o, lines, now), m)
  {
    DepletionRowsOk(l, o, lines, now, m);
    DepletionDrawsLive(l, o, lines, now, m);
  }

  lemma StepKeepsFresh(l: Ledger, a: Action)
    requires Inv(l) && AllDrewFresh(l)
    ensures AllDrewFresh(Step(l, a))
  {
    StockTheorems.StepAppends(l, a);
    forall m | m in Step(l, a).rows ensures DrewFresh(Step(l, a), m) {
      if m in l.rows { OldRowStaysFresh(l, a, m); } else { NewRowIsFresh(l, a, m); }
    }
  }

  lemma {:induction false} RunKeepsFresh(l: Ledger, acts: seq<Action>)
    requires Inv(l) && AllDrewFresh(l)
    ensures AllDrewFresh(Run(l, acts))
    decreases |acts|
  {
    if acts != [] {
      StepKeepsFresh(l, acts[0]);
      StepKeepsInv(l, acts[0]);
      RunKeepsFresh(Step(l, acts[0]), acts[1..]);
    }
  }

  /** Over every run no order has drawn on a batch that had expired when the order was placed. */
  lemma NoOrderDrawsOnExpired(prepared: set<Ingredient>, acts: seq<Action>, m: Movement)
    requires m in Run(Empty(prepared), acts).rows && m.kind == CONSUMPTION && m.batch.Some?
    ensures var l := Run(Empty(prepared), acts);
            && m.order.Some? && m.order.value < |l.orders| && l.orders[m.order.value].placement.Some?
            && m.batch.value < |l.batches|
            && (l.batches[m.batch.value].expiresAt.None?
                || l.batches[m.batch.value].expiresAt.value > l.orders[m.order.value].placement.value.at)
  {
    RunKeepsFresh(Empty(prepared), acts);
    assert DrewFresh(Run(Empty(prepared), acts), m);
  }
}
