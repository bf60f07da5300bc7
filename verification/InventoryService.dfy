/**
 * InventoryService, PrepService and OrdersService.updateStatus in their own form:
 * methods that accumulate totals in loops, push rows and append them to the
 * ledger. Each transaction is the corresponding step of StockLedger.
 */
module InventoryService {
  import opened Options
  import opened StableSort
  import opened Tallies
  import opened Traces
  import opened OrderStatus
  import opened StockLedger
  import opened StockSafety
  import Fefo
  import PlacementTheorems
  import PrepTheorems

  datatype StockError =
    | OrderNotFound | IllegalTransition
    | ItemNotFound | NoRecipe | NotEnoughStock | BatchNotFound | OnlyRemaining(left: int)
    | DuplicateComponent | ContainsItself | ComponentUnavailable | WouldLoop

  datatype Shortfall = Shortfall(ingredient: Ingredient, need: int, available: int, short: int)

  function IsShort(rows: seq<Movement>): Component -> bool {
    (c: Component) => Stock(rows, c.ingredient) < c.quantity
  }

  function ShortBy(rows: seq<Movement>): Component -> Shortfall {
    (c: Component) => Shortfall(c.ingredient, c.quantity, Stock(rows, c.ingredient), c.quantity - Stock(rows, c.ingredient))
  }

  lemma MapAppend<T(!new), U(!new)>(a: seq<T>, x: T, f: T -> U)
    ensures Map(a + [x], f) == Map(a, f) + [f(x)]
  {
  }

  lemma {:induction false} NoneShort(rows: seq<Movement>, cs: seq<Component>)
    ensures Filter(cs, IsShort(rows)) == [] <==> !Short(rows, cs)
  {
    InFilter(cs, IsShort(rows));
    if Filter(cs, IsShort(rows)) != [] { assert Filter(cs, IsShort(rows))[0] in cs; }
    if Short(rows, cs) {
      var j :| 0 <= j < |cs| && Stock(rows, cs[j].ingredient) < cs[j].quantity;
      assert cs[j] in Filter(cs, IsShort(rows));
    }
  }

  lemma ShortfallsAre(rows: seq<Movement>, cs: seq<Component>)
    ensures forall s | s in Map(Filter(cs, IsShort(rows)), ShortBy(rows)) ::
              s.available == Stock(rows, s.ingredient) && s.short == s.need - s.available > 0
              && exists c :: c in cs && (c.ingredient, c.quantity) == (s.ingredient, s.need)
  {
    var kept := Filter(cs, IsShort(rows));
    InFilter(cs, IsShort(rows));
    forall s | s in Map(kept, ShortBy(rows))
      ensures s.available == Stock(rows, s.ingredient) && s.short == s.need - s.available > 0
              && exists c :: c in cs && (c.ingredient, c.quantity) == (s.ingredient, s.need)
    {
      var k :| 0 <= k < |kept| && Map(kept, ShortBy(rows))[k] == s;
      assert kept[k] in kept && kept[k] in cs;
    }
  }

  lemma NeedsTake(recipes: Recipes, lines: seq<Line>, i: nat)
    requires i < |lines|
    ensures Needs(recipes, lines[..i + 1])
            == Needs(recipes, lines[..i]) + LineEntries(RecipeOf(recipes, lines[i].product), lines[i].quantity)
  {
    assert lines[..i + 1][..i] == lines[..i];
  }

  function Depleted(l: Ledger, o: OrderId, lines: seq<Line>, now: int): Ledger {
    l.(rows := l.rows + DepletionRows(l, o, lines, now))
  }

  lemma PlacedFrom(l: Ledger, l': Ledger, o: OrderId, lines: seq<Line>, now: int)
    requires o < |l.orders| && l' == Depleted(l, o, lines, now)
    ensures l'.(orders := l.orders[o := l.orders[o].(status := PLACED, placement := Some(Placement(l.recipes, lines, now)))])
            == Place(l, o, lines, now)
  {
  }

  lemma CreatedFrom(l: Ledger, items: seq<OrderItem>, held: bool, now: int)
    requires Inv(l)
    ensures var l' := Step(l, Action.Create(items, held, now));
            Inv(l') && l' == if held then Drafted(l, items) else Place(Drafted(l, items), |l.orders|, ExpandItems(items), now)
  {
    StepKeepsInv(l, Action.Create(items, held, now));
  }

  /** Adding an entry adds its key to the prepared ones at most once. */
  lemma PreparedKeys(entries: seq<Entry<Ingredient>>, e: Entry<Ingredient>, prepared: set<Ingredient>)
    ensures var keys := TallyOf(entries).keys;
            var ids := Filter(keys, IsPrepared(prepared));
            Filter(Add(TallyOf(entries), e).keys, IsPrepared(prepared))
            == if e.key in prepared && e.key !in ids then ids + [e.key] else ids
  {
    var keys := TallyOf(entries).keys;
    TallyIsWellFormed(entries);
    FilterAppend(keys, [e.key], IsPrepared(prepared));
    FilterOne(e.key, IsPrepared(prepared));
    InFilter(keys, IsPrepared(prepared));
    assert Filter(keys, IsPrepared(prepared)) + [] == Filter(keys, IsPrepared(prepared));
  }

  function IdsOf(cs: seq<Component>): set<Ingredient> { set c | c in cs :: c.ingredient }

  lemma IdsSnoc(cs: seq<Component>, c: Component)
    ensures IdsOf(cs + [c]) == IdsOf(cs) + {c.ingredient}
  {
  }

  lemma DistinctSnoc(cs: seq<Component>, c: Component)
    ensures DistinctComponents(cs + [c]) <==> DistinctComponents(cs) && c.ingredient !in IdsOf(cs)
  {
    var all := cs + [c];
    if DistinctComponents(all) {
      forall i, j | 0 <= i < j < |cs| ensures cs[i].ingredient != cs[j].ingredient {
        assert all[i] == cs[i] && all[j] == cs[j];
      }
      forall d | d in cs ensures d.ingredient != c.ingredient {
        var j :| 0 <= j < |cs| && cs[j] == d;
        assert all[j] == d && all[|cs|] == c;
      }
    }
  }

  /** No id is lost in the set exactly when none was listed twice. */
  lemma {:induction false} DistinctIff(cs: seq<Component>)
    ensures |IdsOf(cs)| <= |cs|
    ensures |IdsOf(cs)| == |cs| <==> DistinctComponents(cs)
  {
    if cs == [] {
    } else {
      var before, last := cs[..|cs| - 1], cs[|cs| - 1];
      assert cs == before + [last];
      DistinctIff(before);
      IdsSnoc(before, last);
      DistinctSnoc(before, last);
    }
  }

  lemma InIds(cs: seq<Component>, i: Ingredient)
    ensures i in IdsOf(cs) <==> Contains(cs, i)
  {
    if i in IdsOf(cs) {
      var c :| c in cs && c.ingredient == i;
      var k :| 0 <= k < |cs| && cs[k] == c;
    }
  }

  class Service {
    var rows: seq<Movement>
    var batches: seq<Batch>
    var orders: seq<Order>
    var recipes: Recipes
    var prepRecipes: PrepRecipes
    const prepared: set<Ingredient>

    ghost function Now(): Ledger reads this { Ledger(rows, batches, orders, recipes, prepRecipes, prepared) }

    constructor (prepared: set<Ingredient>)
      ensures Now() == Empty(prepared) && Inv(Now())
    {
      this.prepared := prepared;
      rows, batches, orders, recipes, prepRecipes := [], [], [], map[], map[];
    }

    /** The inner loop: one line's recipe, added to the running totals. */
    method AddLine(line: Line, start: Tally<Ingredient>, startIds: seq<Ingredient>, ghost before: seq<Entry<Ingredient>>)
      returns (totals: Tally<Ingredient>, preparedIds: seq<Ingredient>)
      requires start == TallyOf(before) && startIds == Filter(start.keys, IsPrepared(prepared))
      ensures totals == TallyOf(before + LineEntries(RecipeOf(recipes, line.product), line.quantity))
      ensures preparedIds == Filter(totals.keys, IsPrepared(prepared))
    {
      totals, preparedIds := start, startIds;
      var recipe := RecipeOf(recipes, line.product);
      ghost var entries := LineEntries(recipe, line.quantity);
      assert before + entries[..0] == before;
      var j := 0;
      while j < |recipe|
        invariant 0 <= j <= |recipe|
        invariant totals == TallyOf(before + entries[..j])
        invariant preparedIds == Filter(totals.keys, IsPrepared(prepared))
      {
        var r := recipe[j];
        TallyTake(before, entries, j);
        PreparedKeys(before + entries[..j], entries[j], prepared);
        if r.ingredient in prepared && r.ingredient !in preparedIds { preparedIds := preparedIds + [r.ingredient]; }
        totals := Add(totals, Entry(r.ingredient, r.quantity * line.quantity));
        j := j + 1;
      }
      assert entries[..|recipe|] == entries;
    }

    /** The nested loop of depleteForOrder: one running total per ingredient. */
    method SumNeeds(lines: seq<Line>) returns (totals: Tally<Ingredient>, preparedIds: seq<Ingredient>)
      ensures totals == TallyOf(Needs(recipes, lines))
      ensures preparedIds == Filter(totals.keys, IsPrepared(prepared))
    {
      totals, preparedIds := Tally([], map[]), [];
      var i := 0;
      while i < |lines|
        invariant 0 <= i <= |lines|
        invariant totals == TallyOf(Needs(recipes, lines[..i]))
        invariant preparedIds == Filter(totals.keys, IsPrepared(prepared))
      {
        NeedsTake(recipes, lines, i);
        totals, preparedIds := AddLine(lines[i], totals, preparedIds, Needs(recipes, lines[..i]));
        i := i + 1;
      }
      assert lines[..|lines|] == lines;
    }

    /** One CONSUMPTION row for each raw ingredient. */
    method PushRaw(totals: Tally<Ingredient>, o: OrderId) returns (out: seq<Movement>)
      ensures out == Emit(totals.keys, RawRow(prepared, totals, o))
    {
      out := [];
      var k := 0;
      while k < |totals.keys|
        invariant 0 <= k <= |totals.keys|
        invariant out == Emit(totals.keys[..k], RawRow(prepared, totals, o))
      {
        var ingredient := totals.keys[k];
        assert totals.keys[..k + 1][..k] == totals.keys[..k];
        if ingredient !in prepared {
          out := out + [Movement(ingredient, CONSUMPTION, -Total(totals, ingredient), Some(o), None)];
        }
        k := k + 1;
      }
      assert totals.keys[..|totals.keys|] == totals.keys;
    }

    /** One CONSUMPTION row for each allocation. */
    method PushAllocations(allocs: seq<Fefo.Alloc>, ingredient: Ingredient, o: OrderId) returns (out: seq<Movement>)
      ensures out == Map(allocs, AllocRow(ingredient, o))
    {
      out := [];
      var a := 0;
      while a < |allocs|
        invariant 0 <= a <= |allocs|
        invariant out == Map(allocs[..a], AllocRow(ingredient, o))
      {
        assert allocs[..a + 1] == allocs[..a] + [allocs[a]];
        MapAppend(allocs[..a], allocs[a], AllocRow(ingredient, o));
        out := out + [Movement(ingredient, CONSUMPTION, -allocs[a].quantity, Some(o), allocs[a].batch)];
        a := a + 1;
      }
      assert allocs[..|allocs|] == allocs;
    }

    /** `draw` is what FEFO takes of each item; kept folded by the idle quantifier. */
    ghost predicate Draws(draw: Ingredient -> seq<Movement>, totals: Tally<Ingredient>, o: OrderId, now: int)
      reads this
    {
      forall n {:trigger Unfold(n)} :: Unfold(n) ==> draw == PreparedRows(Now(), totals, o, now)
    }

    /** The batches of an item that FEFO draws on, and what it takes from each. */
    method PushPrepared(ingredient: Ingredient, totals: Tally<Ingredient>, o: OrderId, now: int,
                        ghost draw: Ingredient -> seq<Movement>)
      returns (out: seq<Movement>)
      requires Draws(draw, totals, o, now)
      ensures out == draw(ingredient)
    {
      assert Unfold(0);
      var live := View(rows, batches, ingredient, |batches|);
      var allocs := Fefo.AllocateFefo(live, Total(totals, ingredient), now);
      out := PushAllocations(allocs, ingredient, o);
    }

    method PushAllPrepared(preparedIds: seq<Ingredient>, totals: Tally<Ingredient>, o: OrderId, now: int,
                           ghost draw: Ingredient -> seq<Movement>)
      returns (drawn: seq<Movement>)
      requires Draws(draw, totals, o, now)
      ensures drawn == Emit(preparedIds, draw)
    {
      drawn := [];
      var k := 0;
      while k < |preparedIds|
        invariant 0 <= k <= |preparedIds|
        invariant drawn == Emit(preparedIds[..k], draw)
      {
        var pushed := PushPrepared(preparedIds[k], totals, o, now, draw);
        EmitTake(preparedIds, k, draw);
        drawn := drawn + pushed;
        k := k + 1;
      }
      assert preparedIds[..|preparedIds|] == preparedIds;
    }

    /** InventoryService.depleteForOrder */
    method DepleteForOrder(o: OrderId, lines: seq<Line>, now: int)
      modifies this`rows
      ensures rows == old(rows) + DepletionRows(old(Now()), o, lines, now)
      ensures PlacementTheorems.TakesFirstExpiring(old(Now()), rows[|old(rows)|..], o, lines, now)
    {
      ghost var l := Now();
      var totals, preparedIds := SumNeeds(lines);
      var raw := PushRaw(totals, o);
      var drawn := PushAllPrepared(preparedIds, totals, o, now, PreparedRows(Now(), totals, o, now));
      rows := rows + (raw + drawn);
      PlacementTheorems.DepletedTakes(l, o, lines, now, rows);
    }

    /** InventoryService.restockForReversedOrder */
    method RestockForReversedOrder(o: OrderId)
      modifies this`rows
      ensures rows == old(rows) + RestockRows(old(rows), o)
    {
      var consumed := Filter(rows, Consumed(o));
      var totals: Tally<Key> := Tally([], map[]);
      var k := 0;
      while k < |consumed|
        invariant 0 <= k <= |consumed| && rows == old(rows)
        invariant totals == TallyOf(Map(consumed[..k], GivenBack()))
      {
        var m := consumed[k];
        assert consumed[..k + 1] == consumed[..k] + [m];
        MapAppend(consumed[..k], m, GivenBack());
        TallyAdd(Map(consumed[..k], GivenBack()), GivenBack()(m));
        totals := Add(totals, Entry((m.ingredient, m.batch), -m.quantity));
        k := k + 1;
      }
      assert consumed[..|consumed|] == consumed;
      rows := rows + Emit(totals.keys, ReturnRow(totals, o));
    }

    /** The loops of insert that list what a new order depletes, combos expanded. */
    method ListDepletion(items: seq<OrderItem>) returns (depletion: seq<Line>)
      ensures depletion == ExpandItems(items)
    {
      depletion := [];
      var i := 0;
      while i < |items|
        invariant 0 <= i <= |items|
        invariant depletion == ExpandItems(items[..i])
      {
        assert items[..i + 1][..i] == items[..i];
        match items[i] {
          case ProductItem(product, quantity) => depletion := depletion + [Line(product, quantity)];
          case ComboItem(components, quantity) =>
            var pushed := ListCombo(components, quantity);
            depletion := depletion + pushed;
        }
        i := i + 1;
      }
      assert items[..|items|] == items;
    }

    method ListCombo(components: seq<Line>, quantity: Pos) returns (pushed: seq<Line>)
      ensures pushed == Map(components, ScaledBy(quantity))
    {
      pushed := [];
      var k := 0;
      while k < |components|
        invariant 0 <= k <= |components|
        invariant pushed == Map(components[..k], ScaledBy(quantity))
      {
        assert components[..k + 1] == components[..k] + [components[k]];
        MapAppend(components[..k], components[k], ScaledBy(quantity));
        pushed := pushed + [Line(components[k].product, Times(components[k].quantity, quantity))];
        k := k + 1;
      }
      assert components[..|components|] == components;
    }

    /** An order is placed: its lines deplete the stock. */
    method PlaceOrder(o: OrderId, lines: seq<Line>, now: int)
      requires o < |orders|
      modifies this`rows, this`orders
      ensures Now() == Place(old(Now()), o, lines, now)
    {
      ghost var l := Now();
      DepleteForOrder(o, lines, now);
      PlacedFrom(l, Now(), o, lines, now);
      orders := orders[o := orders[o].(status := PLACED, placement := Some(Placement(recipes, lines, now)))];
    }

    /** The row of a new order, still a draft. */
    method AddDraft(items: seq<OrderItem>) returns (o: OrderId)
      modifies this`orders
      ensures o == |old(orders)| && Now() == Drafted(old(Now()), items)
    {
      o := |orders|;
      orders := orders + [Order(DRAFT, items, None)];
    }

    /** OrdersService.insert, as far as it concerns status and stock. */
    method CreateOrder(items: seq<OrderItem>, held: bool, now: int) returns (o: OrderId)
      requires Inv(Now())
      modifies this`rows, this`orders
      ensures Inv(Now()) && Now() == Step(old(Now()), Action.Create(items, held, now)) && o == |old(orders)|
      ensures held ==> rows == old(rows) && o < |orders| && orders[o] == Order(DRAFT, items, None)
      ensures !held ==> PlacementTheorems.PlacedFirstExpiring(old(Now()), o, ExpandItems(items), now, Now())
    {
      PlacementTheorems.SaleTakesFirstExpiring(Now(), items, now);
      CreatedFrom(Now(), items, held, now);
      o := AddDraft(items);
      if !held {
        var lines := ListDepletion(items);
        PlaceOrder(o, lines, now);
      }
    }

    /** OrdersService.updateStatus, as far as it concerns status and stock. */
    method UpdateStatus(o: OrderId, to: Status, now: int) returns (res: Result<Status, StockError>)
      requires Inv(Now())
      modifies this`rows, this`orders
      ensures Inv(Now()) && Now() == Step(old(Now()), SetStatus(o, to, now))
      ensures res.Ok? <==> o < |old(orders)| && (old(orders)[o].status == to || CanTransition(old(orders)[o].status, to))
      ensures res.Ok? ==> res.value == to && o < |orders| && orders[o].status == to
      ensures res == Err(OrderNotFound) <==> o >= |old(orders)|
      ensures res.Ok? && old(orders)[o].status == DRAFT && to == PLACED ==>
                PlacementTheorems.PlacedFirstExpiring(old(Now()), o, ProductLines(old(orders)[o].items), now, Now())
    {
      StepKeepsInv(Now(), SetStatus(o, to, now));
      if o < |orders| && orders[o].status == DRAFT { PlacementTheorems.ResumedSaleTakesFirstExpiring(Now(), o, now); }
      if o >= |orders| { return Err(OrderNotFound); }
      var from := orders[o].status;
      if from == to { return Ok(to); }
      if !CanTransition(from, to) { return Err(IllegalTransition); }
      var resuming := from == DRAFT && to == PLACED;
      if resuming {
        PlaceOrder(o, ProductLines(orders[o].items), now);
      } else {
        if Reversing(to) { RestockForReversedOrder(o); } else { assert rows + [] == rows; }
        orders := orders[o := orders[o].(status := to)];
      }
      res := Ok(to);
    }

    /** findShortfalls */
    method FindShortfalls(components: seq<Component>) returns (out: seq<Shortfall>)
      ensures out == Map(Filter(components, IsShort(rows)), ShortBy(rows))
      ensures out == [] <==> forall c | c in components :: c.quantity <= Stock(rows, c.ingredient)
      ensures forall s | s in out :: s.available == Stock(rows, s.ingredient) && s.short == s.need - s.available > 0
                                     && exists c :: c in components && (c.ingredient, c.quantity) == (s.ingredient, s.need)
    {
      out := [];
      var k := 0;
      while k < |components|
        invariant 0 <= k <= |components|
        invariant out == Map(Filter(components[..k], IsShort(rows)), ShortBy(rows))
      {
        var c := components[k];
        assert components[..k + 1] == components[..k] + [c];
        FilterAppend(components[..k], [c], IsShort(rows));
        FilterOne(c, IsShort(rows));
        var available := Stock(rows, c.ingredient);
        if available < c.quantity {
          MapAppend(Filter(components[..k], IsShort(rows)), c, ShortBy(rows));
          out := out + [Shortfall(c.ingredient, c.quantity, available, c.quantity - available)];
        }
        k := k + 1;
      }
      assert components[..|components|] == components;
      NoneShort(rows, components);
      PrepTheorems.ShortIff(rows, components);
      ShortfallsAre(rows, components);
    }

    /** PrepService.setRecipe; the ids of the active ingredients are a parameter. */
    method SetRecipe(item: Ingredient, r: PrepRecipe, active: set<Ingredient>) returns (res: Result<PrepRecipe, StockError>)
      requires Inv(Now())
      modifies this`prepRecipes
      ensures Inv(Now()) && Now() == if res.Ok? then Step(old(Now()), SetPrepRecipe(item, r)) else old(Now())
      ensures res.Ok? <==> item in prepared && Accepts(old(prepRecipes), item, r.components) && IdsOf(r.components) <= active
      ensures res.Ok? ==> res.value == r && prepRecipes == old(prepRecipes)[item := r]
      ensures PrepTheorems.RecipesOk(old(prepRecipes)) ==> PrepTheorems.RecipesOk(prepRecipes)
      ensures res == Err(ItemNotFound) <==> item !in prepared
      ensures res == Err(DuplicateComponent) <==> item in prepared && !DistinctComponents(r.components)
      ensures res == Err(ContainsItself) ==> Contains(r.components, item)
      ensures res == Err(WouldLoop) ==> Reciprocal(old(prepRecipes), item, r.components)
    {
      StepKeepsInv(Now(), SetPrepRecipe(item, r));
      if item !in prepared { return Err(ItemNotFound); }
      var ids := IdsOf(r.components);
      DistinctIff(r.components);
      InIds(r.components, item);
      if |ids| != |r.components| { return Err(DuplicateComponent); }
      if item in ids { return Err(ContainsItself); }
      if !(ids <= active) { return Err(ComponentUnavailable); }
      if Reciprocal(prepRecipes, item, r.components) { return Err(WouldLoop); }
      ghost var before := prepRecipes;
      if PrepTheorems.RecipesOk(before) { PrepTheorems.AcceptedIff(before, item, r); }
      prepRecipes := prepRecipes[item := r];
      res := Ok(r);
    }

    /** PrepService.doCreateBatch */
    method CreateBatch(item: Ingredient, planned: Pos, actualQuantity: Option<nat>, expiresAt: Option<int>, now: int)
      returns (res: Result<BatchId, StockError>)
      requires Inv(Now())
      modifies this`rows, this`batches
      ensures Inv(Now())
      ensures var actual := if actualQuantity.Some? then actualQuantity.value else planned;
              Now() == Step(old(Now()), Prepare(item, planned, actual, expiresAt, now))
      ensures res.Ok? ==> res.value == |old(batches)| && |batches| == |old(batches)| + 1
      ensures res.Err? ==> Now() == old(Now())
      ensures res.Ok? <==>
                && item in prepared && item in prepRecipes && prepRecipes[item].components != []
                && forall c | c in ScaleComponents(prepRecipes[item].components, prepRecipes[item].standardYield, planned) ::
                     c.quantity <= Stock(old(rows), c.ingredient)
      ensures res == Err(ItemNotFound) <==> item !in prepared
      ensures res == Err(NoRecipe) <==> item in prepared && (item !in prepRecipes || prepRecipes[item].components == [])
    {
      var actual := if actualQuantity.Some? then actualQuantity.value else planned;
      StepKeepsInv(Now(), Prepare(item, planned, actual, expiresAt, now));
      if item !in prepared { return Err(ItemNotFound); }
      if item !in prepRecipes || prepRecipes[item].components == [] { return Err(NoRecipe); }
      var r := prepRecipes[item];
      var components := ScaleComponents(r.components, r.standardYield, planned);
      var shorts := FindShortfalls(components);
      PrepTheorems.ShortIff(rows, components);
      if |shorts| > 0 { return Err(NotEnoughStock); }
      var b := |batches|;
      batches := batches + [Batch(item, actual, expiresAt, now)];
      rows := rows + BatchRows(components, item, actual, b);
      res := Ok(b);
    }

    /** PrepService.wasteBatch */
    method Waste(b: BatchId, quantity: Pos) returns (res: Result<Movement, StockError>)
      requires Inv(Now())
      modifies this`rows
      ensures Inv(Now()) && Now() == Step(old(Now()), WasteBatch(b, quantity))
      ensures res.Ok? <==> b < |batches| && quantity <= Remaining(old(rows), b)
      ensures res.Ok? ==> rows == old(rows) + [res.value] && res.value.batch == Some(b) && res.value.quantity == -(quantity as int)
    {
      StepKeepsInv(Now(), WasteBatch(b, quantity));
      if b >= |batches| { return Err(BatchNotFound); }
      var remaining := Remaining(rows, b);
      if quantity > remaining { return Err(OnlyRemaining(remaining)); }
      var m := Movement(batches[b].item, WASTE, -(quantity as int), None, Some(b));
      rows := rows + [m];
      res := Ok(m);
    }
  }
}
