/** The conservation laws of the stock ledger, over every run from an empty one. */
module StockTheorems {
  import opened Options
  import opened Sums
  import opened StableSort
  import opened OrderStatus
  import opened StockLedger
  import opened StockRows
  import opened StockSafety

  lemma ReachableInv(prepared: set<Ingredient>, acts: seq<Action>)
    ensures Inv(Run(Empty(prepared), acts))
  {
    RunKeepsInv(Empty(prepared), acts);
  }

  /**
   * An order that is not, or no longer, a sale has no net effect on any
   * (ingredient, batch) pair; a sale has taken, per ingredient, exactly the
   * expansion of the lines it was placed with by the recipes of that moment.
   */
  lemma OrderConservation(prepared: set<Ingredient>, acts: seq<Action>, o: OrderId, k: Key)
    ensures var l := Run(Empty(prepared), acts);
            o < |l.orders| ==>
              var order := l.orders[o];
              if order.status in {DRAFT, CANCELLED, VOIDED} then Net(l.rows, o, AtKey(k)) == 0
              else order.placement.Some?
                   && Net(l.rows, o, AtIngredient(k.0)) == -Expansion(order.placement.value.recipes, order.placement.value.lines, k.0)
  {
    var l := Run(Empty(prepared), acts);
    ReachableInv(prepared, acts);
    if o < |l.orders| {
      assert OrderOk(l, o);
      if l.orders[o].status == DRAFT { SumZero(l.rows, Weigh(OfOrderKey(o, AtKey(k)))); }
    }
  }

  lemma StepKeepsPlacement(l: Ledger, a: Action, o: OrderId)
    requires Inv(l) && o < |l.orders| && l.orders[o].placement.Some?
    ensures o < |Step(l, a).orders| && Step(l, a).orders[o].placement == l.orders[o].placement
    ensures Step(l, a).orders[o].status != DRAFT
  {
    assert OrderOk(l, o);
  }

  lemma {:induction false} PlacementIsFixed(l: Ledger, acts: seq<Action>, o: OrderId)
    requires Inv(l) && o < |l.orders| && l.orders[o].placement.Some?
    ensures o < |Run(l, acts).orders| && Run(l, acts).orders[o].placement == l.orders[o].placement
    ensures Run(l, acts).orders[o].status != DRAFT
    decreases |acts|
  {
    if acts == [] {
      assert OrderOk(l, o);
    } else {
      StepKeepsPlacement(l, acts[0], o);
      StepKeepsInv(l, acts[0]);
      PlacementIsFixed(Step(l, acts[0]), acts[1..], o);
    }
  }

  lemma PlacedOrderNet(l: Ledger, o: OrderId, i: Ingredient)
    requires Inv(l) && o < |l.orders| && l.orders[o].placement.Some? && l.orders[o].status != DRAFT
    ensures var placed := l.orders[o].placement.value;
            Net(l.rows, o, AtIngredient(i)) == if Reversing(l.orders[o].status) then 0 else -Expansion(placed.recipes, placed.lines, i)
  {
    assert OrderOk(l, o);
  }

  /** Recipe edits after a sale change neither what it took nor what comes back. */
  lemma LaterEditsDoNotMatter(l: Ledger, o: OrderId, now: int, later: seq<Action>, i: Ingredient)
    requires Inv(l) && o < |l.orders| && l.orders[o].status == DRAFT
    ensures var l' := Run(Step(l, SetStatus(o, PLACED, now)), later);
            o < |l'.orders|
            && Net(l'.rows, o, AtIngredient(i))
               == if Reversing(l'.orders[o].status) then 0 else -Expansion(l.recipes, ProductLines(l.orders[o].items), i)
  {
    var m := Step(l, SetStatus(o, PLACED, now));
    StepKeepsInv(l, SetStatus(o, PLACED, now));
    PlacementIsFixed(m, later, o);
    RunKeepsInv(m, later);
    assert m.orders[o].placement == Some(Placement(l.recipes, ProductLines(l.orders[o].items), now));
    PlacedOrderNet(Run(m, later), o, i);
  }

  /** A sale that was never held takes its combos too, by the recipes of the moment it was made. */
  lemma DirectSaleTakes(l: Ledger, items: seq<OrderItem>, now: int, later: seq<Action>, i: Ingredient)
    requires Inv(l)
    ensures var l' := Run(Step(l, Create(items, false, now)), later);
            |l.orders| < |l'.orders|
            && Net(l'.rows, |l.orders|, AtIngredient(i))
               == if Reversing(l'.orders[|l.orders|].status) then 0 else -Expansion(l.recipes, ExpandItems(items), i)
  {
    var m := Step(l, Create(items, false, now));
    StepKeepsInv(l, Create(items, false, now));
    assert m.orders[|l.orders|].placement == Some(Placement(l.recipes, ExpandItems(items), now));
    PlacementIsFixed(m, later, |l.orders|);
    RunKeepsInv(m, later);
    PlacedOrderNet(Run(m, later), |l.orders|, i);
  }

  // --------------------------------------------------------------- reversal

  predicate Terminal(s: Status) { s in {COMPLETED, CANCELLED, VOIDED} }

  ghost predicate OnlyOthers(added: seq<Movement>, o: OrderId) {
    forall m | m in added :: m.order != Some(o)
  }

  /** The rows a step appends. */
  function Added(l: Ledger, a: Action): seq<Movement> {
    match a
    case Append(i, kind, q) => if kind !in {PURCHASE, WASTE, ADJUSTMENT} || q == 0 then [] else [Movement(i, kind, q, None, None)]
    case Create(items, held, now) =>
      if held then []
      else DepletionRows(Drafted(l, items), |l.orders|, ExpandItems(items), now)
    case SetStatus(o, to, now) =>
      if o >= |l.orders| || !CanTransition(l.orders[o].status, to) then []
      else if l.orders[o].status == DRAFT && to == PLACED then DepletionRows(l, o, ProductLines(l.orders[o].items), now)
      else if Reversing(to) then RestockRows(l.rows, o) else []
    case Prepare(item, planned, actual, _, _) =>
      if item !in l.prepared || item !in l.prepRecipes || l.prepRecipes[item].components == [] then []
      else
        var cs := ScaleComponents(l.prepRecipes[item].components, l.prepRecipes[item].standardYield, planned);
        if Short(l.rows, cs) then [] else BatchRows(cs, item, actual, |l.batches|)
    case WasteBatch(b, q) =>
      if b >= |l.batches| || q > Remaining(l.rows, b) then [] else [Movement(l.batches[b].item, WASTE, -(q as int), None, Some(b))]
    case _ => []
  }

  /** The ledger is append-only. */
  lemma StepAppends(l: Ledger, a: Action)
    ensures Step(l, a).rows == l.rows + Added(l, a)
  {
  }

  /** Every row and batch of l is still there in l', and every order keeps its number and items. */
  ghost predicate Keeps(l: Ledger, l': Ledger) {
    && |l.rows| <= |l'.rows| && l'.rows[..|l.rows|] == l.rows
    && |l.batches| <= |l'.batches| && l'.batches[..|l.batches|] == l.batches
    && |l.orders| <= |l'.orders| && forall o | 0 <= o < |l.orders| :: l'.orders[o].items == l.orders[o].items
  }

  lemma RowsStay(l: Ledger, a: Action)
    ensures |l.rows| <= |Step(l, a).rows| && Step(l, a).rows[..|l.rows|] == l.rows
  {
    StepAppends(l, a);
  }

  lemma BatchesStay(l: Ledger, a: Action)
    ensures |l.batches| <= |Step(l, a).batches| && Step(l, a).batches[..|l.batches|] == l.batches
  {
  }

  lemma OrderStays(l: Ledger, a: Action, o: OrderId)
    requires o < |l.orders|
    ensures o < |Step(l, a).orders| && Step(l, a).orders[o].items == l.orders[o].items
  {
  }

  lemma OrdersStay(l: Ledger, a: Action)
    ensures |l.orders| <= |Step(l, a).orders| && forall o | 0 <= o < |l.orders| :: Step(l, a).orders[o].items == l.orders[o].items
  {
    if l.orders != [] { OrderStays(l, a, |l.orders| - 1); }
    forall o | 0 <= o < |l.orders| ensures o < |Step(l, a).orders| && Step(l, a).orders[o].items == l.orders[o].items {
      OrderStays(l, a, o);
    }
  }

  /** Whatever happens, no row, batch or order is ever taken back or rewritten. */
  lemma {:induction false} LedgerOnlyGrows(l: Ledger, acts: seq<Action>)
    ensures Keeps(l, Run(l, acts))
    decreases |acts|
  {
    if acts != [] {
      var m := Step(l, acts[0]);
      RowsStay(l, acts[0]);
      BatchesStay(l, acts[0]);
      OrdersStay(l, acts[0]);
      LedgerOnlyGrows(m, acts[1..]);
      assert Run(m, acts[1..]).rows[..|l.rows|] == m.rows[..|l.rows|];
      assert Run(m, acts[1..]).batches[..|l.batches|] == m.batches[..|l.batches|];
    }
  }

  lemma TerminalStays(l: Ledger, a: Action, o: OrderId)
    requires o < |l.orders| && Terminal(l.orders[o].status)
    ensures o < |Step(l, a).orders| && Step(l, a).orders[o] == l.orders[o]
  {
  }

  lemma StatusAddsToOthers(l: Ledger, q: OrderId, to: Status, now: int, o: OrderId)
    requires o < |l.orders| && Terminal(l.orders[o].status)
    ensures OnlyOthers(Added(l, SetStatus(q, to, now)), o)
  {
    var added := Added(l, SetStatus(q, to, now));
    if q < |l.orders| && CanTransition(l.orders[q].status, to) {
      forall m | m in added ensures m.order != Some(o) {
        if l.orders[q].status == DRAFT && to == PLACED {
          DepletionRowsOk(l, q, ProductLines(l.orders[q].items), now, m);
        } else {
          RestockRowsOk(l.rows, q, m);
        }
      }
    }
  }

  lemma StepLeavesTerminal(l: Ledger, a: Action, o: OrderId)
    requires o < |l.orders| && Terminal(l.orders[o].status)
    ensures OnlyOthers(Added(l, a), o)
  {
    match a
    case Create(items, held, now) =>
      var d := Drafted(l, items);
      if !held {
        forall m | m in Added(l, a) ensures m.order != Some(o) { DepletionRowsOk(d, |l.orders|, ExpandItems(items), now, m); }
      }
    case SetStatus(q, to, now) => StatusAddsToOthers(l, q, to, now, o);
    case _ =>
  }

  /** A finished order is never moved, restocked or depleted again. */
  lemma {:induction false} TerminalOrdersAreFrozen(l: Ledger, acts: seq<Action>, o: OrderId)
    requires o < |l.orders| && Terminal(l.orders[o].status)
    ensures o < |Run(l, acts).orders| && Run(l, acts).orders[o] == l.orders[o]
    ensures Filter(Run(l, acts).rows, OfOrder(o)) == Filter(l.rows, OfOrder(o))
    decreases |acts|
  {
    if acts != [] {
      var l' := Step(l, acts[0]);
      StepAppends(l, acts[0]);
      TerminalStays(l, acts[0], o);
      StepLeavesTerminal(l, acts[0], o);
      FilterAppend(l.rows, Added(l, acts[0]), OfOrder(o));
      FilterNone(Added(l, acts[0]), OfOrder(o));
      TerminalOrdersAreFrozen(l', acts[1..], o);
    }
  }

  // ----------------------------------------------------------------- batches

  /** 0 <= remaining <= actualQuantity, for every batch of every run. */
  lemma BatchesStayWithinYield(prepared: set<Ingredient>, acts: seq<Action>, b: BatchId)
    requires b < |Run(Empty(prepared), acts).batches|
    ensures var l := Run(Empty(prepared), acts);
            0 <= Remaining(l.rows, b) <= l.batches[b].actual
  {
    var l := Run(Empty(prepared), acts);
    ReachableInv(prepared, acts);
    assert BatchOk(l, b);
    assert RemainingWithout(l.rows, b, {}) <= l.batches[b].actual;
    SumEqual(l.rows, Weigh(OfBatch(b)), Weigh(OfBatchWithout(b, {})));
  }

  /** Remaining over the first n batches of an item. */
  function BatchTotal(rows: seq<Movement>, batches: seq<Batch>, i: Ingredient, n: nat): int
    requires n <= |batches|
  {
    if n == 0 then 0
    else BatchTotal(rows, batches, i, n - 1) + if batches[n - 1].item == i then Remaining(rows, n - 1) else 0
  }

  function UntaggedOf(i: Ingredient): Movement -> bool { (m: Movement) => m.ingredient == i && m.batch.None? }

  function RawLegOf(i: Ingredient): Movement -> bool { (m: Movement) => m.ingredient == i && m.kind == PREP_BATCH }

  lemma {:induction false} BatchTotalSnoc(rows: seq<Movement>, batches: seq<Batch>, i: Ingredient, n: nat)
    requires rows != [] && n <= |batches|
    ensures var m := rows[|rows| - 1];
            BatchTotal(rows, batches, i, n) == BatchTotal(rows[..|rows| - 1], batches, i, n)
            + if m.batch.Some? && m.kind != PREP_BATCH && m.batch.value < n && batches[m.batch.value].item == i then m.quantity else 0
  {
    if n > 0 { BatchTotalSnoc(rows, batches, i, n - 1); }
  }

  lemma {:induction false} StockSplits(rows: seq<Movement>, l: Ledger, i: Ingredient)
    requires forall m | m in rows :: RowOk(l, m)
    ensures Stock(rows, i)
            == BatchTotal(rows, l.batches, i, |l.batches|) + Sum(rows, Weigh(UntaggedOf(i))) + Sum(rows, Weigh(RawLegOf(i)))
  {
    if rows == [] {
      NoRowsNoTotal(l.batches, i, |l.batches|);
    } else {
      assert RowOk(l, rows[|rows| - 1]);
      StockSplits(rows[..|rows| - 1], l, i);
      BatchTotalSnoc(rows, l.batches, i, |l.batches|);
    }
  }

  lemma {:induction false} NoRowsNoTotal(batches: seq<Batch>, i: Ingredient, n: nat)
    requires n <= |batches|
    ensures BatchTotal([], batches, i, n) == 0
  {
    if n > 0 { NoRowsNoTotal(batches, i, n - 1); }
  }

  /** An item's stock is its batches' remaining plus its untagged and raw-leg rows. */
  lemma StockIsBatchesPlusLoose(prepared: set<Ingredient>, acts: seq<Action>, i: Ingredient)
    ensures var l := Run(Empty(prepared), acts);
            Stock(l.rows, i)
            == BatchTotal(l.rows, l.batches, i, |l.batches|) + Sum(l.rows, Weigh(UntaggedOf(i))) + Sum(l.rows, Weigh(RawLegOf(i)))
  {
    var l := Run(Empty(prepared), acts);
    ReachableInv(prepared, acts);
    StockSplits(l.rows, l, i);
  }
}
