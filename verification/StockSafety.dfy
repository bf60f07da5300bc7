/** What every run of the stock ledger keeps. */
module StockSafety {
  import opened Options
  import opened Sums
  import opened StableSort
  import opened Tallies
  import opened OrderStatus
  import opened StockLedger
  import opened StockRows

  // ------------------------------------------------- appending to the ledger

  lemma OrderUntouched(l: Ledger, l': Ledger, o: OrderId, added: seq<Movement>)
    requires o < |l.orders| && OrderOk(l, o)
    requires o < |l'.orders| && l'.orders[o] == l.orders[o] && l'.rows == l.rows + added
    requires forall m | m in added :: m.order != Some(o)
    ensures OrderOk(l', o)
  {
    forall p: Key -> bool ensures Net(l'.rows, o, p) == Net(l.rows, o, p) {
      SumAppend(l.rows, added, Weigh(OfOrderKey(o, p)));
      SumZero(added, Weigh(OfOrderKey(o, p)));
    }
  }

  lemma BatchWithRows(l: Ledger, l': Ledger, b: BatchId, added: seq<Movement>)
    requires b < |l.batches| && BatchOk(l, b)
    requires b < |l'.batches| && l'.batches[b] == l.batches[b] && l'.rows == l.rows + added
    requires Remaining(added, b) >= -Remaining(l.rows, b)
    requires forall R: set<OrderId> :: RemainingWithout(added, b, R) <= 0
    ensures BatchOk(l', b)
  {
    SumAppend(l.rows, added, Weigh(OfBatch(b)));
    forall R: set<OrderId> ensures RemainingWithout(l'.rows, b, R) <= l'.batches[b].actual {
      SumAppend(l.rows, added, Weigh(OfBatchWithout(b, R)));
      assert RemainingWithout(added, b, R) <= 0 && RemainingWithout(l.rows, b, R) <= l.batches[b].actual;
    }
  }

  lemma BatchUntouched(l: Ledger, l': Ledger, b: BatchId, added: seq<Movement>)
    requires b < |l.batches| && BatchOk(l, b)
    requires b < |l'.batches| && l'.batches[b] == l.batches[b] && l'.rows == l.rows + added
    requires forall m | m in added :: m.batch != Some(b)
    ensures BatchOk(l', b)
  {
    SumZero(added, Weigh(OfBatch(b)));
    forall R: set<OrderId> ensures RemainingWithout(added, b, R) <= 0 { SumZero(added, Weigh(OfBatchWithout(b, R))); }
    BatchWithRows(l, l', b, added);
  }

  // -------------------------------------------------------------- placement

  lemma PlaceKeepsRows(l: Ledger, o: OrderId, lines: seq<Line>, now: int)
    requires o < |l.orders| && RowsOk(l)
    ensures RowsOk(Place(l, o, lines, now))
  {
    var l' := Place(l, o, lines, now);
    forall m | m in l'.rows ensures RowOk(l', m) {
      if m in l.rows { assert RowOk(l, m); } else { DepletionRowsOk(l, o, lines, now, m); }
    }
  }

  /** A draft has no rows yet, so placing it leaves exactly what it takes. */
  lemma PlacedNet(l: Ledger, o: OrderId, lines: seq<Line>, now: int, i: Ingredient)
    requires o < |l.orders| && OrderOk(l, o) && l.orders[o].status == DRAFT
    ensures Net(Place(l, o, lines, now).rows, o, AtIngredient(i)) == -Expansion(l.recipes, lines, i)
  {
    SumAppend(l.rows, DepletionRows(l, o, lines, now), Weigh(OfOrderKey(o, AtIngredient(i))));
    SumZero(l.rows, Weigh(OfOrderKey(o, AtIngredient(i))));
    DepletionTakesExpansion(l, o, lines, now, i);
  }

  lemma PlacedOrderOk(l: Ledger, o: OrderId, lines: seq<Line>, now: int)
    requires o < |l.orders| && OrderOk(l, o) && l.orders[o].status == DRAFT
    ensures OrderOk(Place(l, o, lines, now), o)
  {
    forall m | m in DepletionRows(l, o, lines, now) ensures m.kind == CONSUMPTION { DepletionRowsOk(l, o, lines, now, m); }
    forall i ensures Net(Place(l, o, lines, now).rows, o, AtIngredient(i)) == -Expansion(l.recipes, lines, i) {
      PlacedNet(l, o, lines, now, i);
    }
  }

  lemma PlaceKeepsOrders(l: Ledger, o: OrderId, lines: seq<Line>, now: int)
    requires o < |l.orders| && OrdersOk(l) && l.orders[o].status == DRAFT
    ensures OrdersOk(Place(l, o, lines, now))
  {
    var l' := Place(l, o, lines, now);
    var added := DepletionRows(l, o, lines, now);
    forall m | m in added ensures m.order == Some(o) { DepletionRowsOk(l, o, lines, now, m); }
    forall q | 0 <= q < |l'.orders| ensures OrderOk(l', q) {
      if q == o { PlacedOrderOk(l, o, lines, now); } else { OrderUntouched(l, l', q, added); }
    }
  }

  lemma PlaceKeepsBatches(l: Ledger, o: OrderId, lines: seq<Line>, now: int)
    requires o < |l.orders| && BatchesOk(l)
    ensures BatchesOk(Place(l, o, lines, now))
  {
    var l' := Place(l, o, lines, now);
    var added := DepletionRows(l, o, lines, now);
    forall b | 0 <= b < |l'.batches| ensures BatchOk(l', b) {
      assert BatchOk(l, b);
      DepletionWithinBatch(l, o, lines, now, b);
      forall R: set<OrderId> ensures RemainingWithout(added, b, R) <= 0 {
        forall m | m in added ensures Weigh(OfBatchWithout(b, R))(m) <= 0 { DepletionRowsOk(l, o, lines, now, m); }
        SumAtMost(added, Weigh(OfBatchWithout(b, R)), Zero<Movement>());
        SumZero(added, Zero<Movement>());
      }
      BatchWithRows(l, l', b, added);
    }
  }

  lemma PlaceKeepsInv(l: Ledger, o: OrderId, lines: seq<Line>, now: int)
    requires o < |l.orders| && Inv(l) && l.orders[o].status == DRAFT
    ensures Inv(Place(l, o, lines, now))
  {
    PlaceKeepsRows(l, o, lines, now);
    PlaceKeepsOrders(l, o, lines, now);
    PlaceKeepsBatches(l, o, lines, now);
  }

  // --------------------------------------------------------------- reversal

  function Reverse(l: Ledger, o: OrderId, to: Status): Ledger
    requires o < |l.orders|
  {
    l.(orders := l.orders[o := l.orders[o].(status := to)], rows := l.rows + RestockRows(l.rows, o))
  }

  lemma ReverseKeepsRows(l: Ledger, o: OrderId, to: Status)
    requires o < |l.orders| && RowsOk(l)
    ensures RowsOk(Reverse(l, o, to))
  {
    var l' := Reverse(l, o, to);
    forall m | m in l'.rows ensures RowOk(l', m) {
      if m in l.rows {
        assert RowOk(l, m);
      } else {
        RestockRowsOk(l.rows, o, m);
        var c :| c in l.rows && c.order == Some(o) && c.kind == CONSUMPTION && (c.ingredient, c.batch) == (m.ingredient, m.batch);
        assert RowOk(l, c);
      }
    }
  }

  lemma ReverseKeepsOrders(l: Ledger, o: OrderId, to: Status)
    requires o < |l.orders| && OrdersOk(l) && Reversing(to) && OnlyConsumed(l.rows, o)
    ensures OrdersOk(Reverse(l, o, to))
  {
    var l' := Reverse(l, o, to);
    var added := RestockRows(l.rows, o);
    forall m | m in added ensures m.order == Some(o) { RestockRowsOk(l.rows, o, m); }
    forall q | 0 <= q < |l'.orders| ensures OrderOk(l', q) {
      if q != o {
        OrderUntouched(l, l', q, added);
      } else {
        forall p: Key -> bool ensures Net(l'.rows, o, p) == 0 {
          SumAppend(l.rows, added, Weigh(OfOrderKey(o, p)));
          RestockUndoes(l.rows, o, p, Weigh(OfOrderKey(o, p)));
        }
      }
    }
  }

  function InBatch(b: BatchId): Key -> bool { (k: Key) => k.1 == Some(b) }

  function Nowhere(): Key -> bool { (k: Key) => false }

  /** A batch's remaining splits into one order's part and everything else's. */
  lemma WithoutOne(l: Ledger, b: BatchId, R: set<OrderId>, o: OrderId)
    requires RowsOk(l) && o !in R
    ensures RemainingWithout(l.rows, b, R) == RemainingWithout(l.rows, b, R + {o}) + Net(l.rows, o, InBatch(b))
  {
    forall m | m in l.rows
      ensures Weigh(OfBatchWithout(b, R))(m) == Weigh(OfBatchWithout(b, R + {o}))(m) + Weigh(OfOrderKey(o, InBatch(b)))(m)
    {
      assert RowOk(l, m);
    }
    SumSplit(l.rows, Weigh(OfBatchWithout(b, R)), Weigh(OfBatchWithout(b, R + {o})), Weigh(OfOrderKey(o, InBatch(b))));
  }

  lemma ReturnedTo(l: Ledger, o: OrderId, b: BatchId)
    requires RowsOk(l) && OnlyConsumed(l.rows, o)
    ensures Remaining(RestockRows(l.rows, o), b) == -Net(l.rows, o, InBatch(b)) >= 0
    ensures forall R: set<OrderId> :: RemainingWithout(RestockRows(l.rows, o), b, R) == if o in R then 0 else -Net(l.rows, o, InBatch(b))
  {
    RestockUndoes(l.rows, o, InBatch(b), Weigh(OfBatch(b)));
    forall m | m in l.rows ensures Weigh(OfOrderKey(o, InBatch(b)))(m) <= 0 { assert RowOk(l, m); }
    SumAtMost(l.rows, Weigh(OfOrderKey(o, InBatch(b))), Zero<Movement>());
    SumZero(l.rows, Zero<Movement>());
    forall R: set<OrderId>
      ensures RemainingWithout(RestockRows(l.rows, o), b, R) == if o in R then 0 else -Net(l.rows, o, InBatch(b))
    {
      if o in R {
        RestockUndoes(l.rows, o, Nowhere(), Weigh(OfBatchWithout(b, R)));
        SumZero(l.rows, Weigh(OfOrderKey(o, Nowhere())));
      } else {
        RestockUndoes(l.rows, o, InBatch(b), Weigh(OfBatchWithout(b, R)));
      }
    }
  }

  lemma ReverseKeepsBatches(l: Ledger, o: OrderId, to: Status)
    requires o < |l.orders| && RowsOk(l) && BatchesOk(l) && OnlyConsumed(l.rows, o)
    ensures BatchesOk(Reverse(l, o, to))
  {
    var l' := Reverse(l, o, to);
    var added := RestockRows(l.rows, o);
    forall b | 0 <= b < |l'.batches| ensures BatchOk(l', b) {
      assert BatchOk(l, b);
      ReturnedTo(l, o, b);
      SumAppend(l.rows, added, Weigh(OfBatch(b)));
      forall R: set<OrderId> ensures RemainingWithout(l'.rows, b, R) <= l'.batches[b].actual {
        SumAppend(l.rows, added, Weigh(OfBatchWithout(b, R)));
        assert RemainingWithout(l.rows, b, R) <= l.batches[b].actual;
        if o !in R {
          WithoutOne(l, b, R, o);
          assert RemainingWithout(l.rows, b, R + {o}) <= l.batches[b].actual;
        }
      }
    }
  }

  lemma ReverseKeepsInv(l: Ledger, o: OrderId, to: Status)
    requires o < |l.orders| && Inv(l) && Reversing(to) && CanTransition(l.orders[o].status, to)
    ensures Inv(Reverse(l, o, to))
  {
    assert OrderOk(l, o);
    assert OnlyConsumed(l.rows, o);
    ReverseKeepsRows(l, o, to);
    ReverseKeepsOrders(l, o, to);
    ReverseKeepsBatches(l, o, to);
  }

  // ------------------------------------------------------------ other steps

  lemma AppendsKeepInv(l: Ledger, l': Ledger, added: seq<Movement>)
    requires Inv(l) && l'.rows == l.rows + added && l'.batches == l.batches && l'.orders == l.orders
    requires forall m | m in added :: RowOk(l', m) && m.order.None?
    requires forall b | 0 <= b < |l.batches| :: Remaining(added, b) >= -Remaining(l.rows, b)
    requires forall m | m in added :: m.batch.Some? ==> m.quantity <= 0
    ensures Inv(l')
  {
    forall m | m in l.rows ensures RowOk(l', m) { assert RowOk(l, m); }
    forall o | 0 <= o < |l.orders| ensures OrderOk(l', o) {
      assert OrderOk(l, o);
      OrderUntouched(l, l', o, added);
    }
    forall b | 0 <= b < |l.batches| ensures BatchOk(l', b) {
      assert BatchOk(l, b);
      forall R: set<OrderId> ensures RemainingWithout(added, b, R) <= 0 {
        SumAtMost(added, Weigh(OfBatchWithout(b, R)), Zero<Movement>());
        SumZero(added, Zero<Movement>());
      }
      BatchWithRows(l, l', b, added);
    }
  }

  lemma AddDraftKeepsInv(l: Ledger, items: seq<OrderItem>)
    requires Inv(l)
    ensures Inv(Drafted(l, items))
  {
    var l' := Drafted(l, items);
    forall m | m in l.rows ensures RowOk(l', m) && m.order != Some(|l.orders|) { assert RowOk(l, m); }
    forall o | 0 <= o < |l'.orders| ensures OrderOk(l', o) {
      if o < |l.orders| {
        assert OrderOk(l, o);
        OrderUntouched(l, l', o, []);
      }
    }
    forall b | 0 <= b < |l.batches| ensures BatchOk(l', b) { assert BatchOk(l, b); }
  }

  /** A status move that is neither a placement nor a reversal writes no stock. */
  lemma AdvanceKeepsInv(l: Ledger, o: OrderId, to: Status)
    requires o < |l.orders| && Inv(l) && CanTransition(l.orders[o].status, to)
    requires !Reversing(to) && l.orders[o].status != DRAFT
    ensures Inv(l.(orders := l.orders[o := l.orders[o].(status := to)]))
  {
    var l' := l.(orders := l.orders[o := l.orders[o].(status := to)]);
    forall m | m in l.rows ensures RowOk(l', m) { assert RowOk(l, m); }
    forall q | 0 <= q < |l'.orders| ensures OrderOk(l', q) {
      assert OrderOk(l, q);
      if q != o { OrderUntouched(l, l', q, []); }
    }
    forall b | 0 <= b < |l.batches| ensures BatchOk(l', b) { assert BatchOk(l, b); }
  }

  lemma BatchRowsOf(cs: seq<Component>, item: Ingredient, actual: nat, b: BatchId, p: Movement -> bool)
    requires forall m: Movement :: m.kind == PREP_BATCH ==> !p(m)
    requires p(Movement(item, PREP_OUTPUT, actual, None, Some(b)))
    ensures Sum(BatchRows(cs, item, actual, b), Weigh(p)) == actual
  {
    var raw := Map(cs, PrepRow(b));
    var made := if actual > 0 then [Movement(item, PREP_OUTPUT, actual, None, Some(b))] else [];
    SumAppend(raw, made, Weigh(p));
    SumZero(raw, Weigh(p));
    SumOne(Movement(item, PREP_OUTPUT, actual, None, Some(b)), Weigh(p));
  }

  lemma PrepareKeepsInv(l: Ledger, item: Ingredient, cs: seq<Component>, actual: nat, expiresAt: Option<int>, now: int)
    requires Inv(l)
    ensures Inv(l.(batches := l.batches + [Batch(item, actual, expiresAt, now)], rows := l.rows + BatchRows(cs, item, actual, |l.batches|)))
  {
    var n := |l.batches|;
    var added := BatchRows(cs, item, actual, n);
    var l' := l.(batches := l.batches + [Batch(item, actual, expiresAt, now)], rows := l.rows + added);
    forall m | m in l.rows ensures RowOk(l', m) && m.batch != Some(n) { assert RowOk(l, m); }
    forall m | m in added ensures RowOk(l', m) && m.order.None? && m.batch == Some(n) {
      if m in Map(cs, PrepRow(n)) {}
    }
    forall o | 0 <= o < |l.orders| ensures OrderOk(l', o) {
      assert OrderOk(l, o);
      OrderUntouched(l, l', o, added);
    }
    forall b | 0 <= b < |l'.batches| ensures BatchOk(l', b) {
      if b < n {
        assert BatchOk(l, b);
        BatchUntouched(l, l', b, added);
      } else {
        NewBatchOk(l, l', cs, added);
      }
    }
  }

  lemma NewBatchOk(l: Ledger, l': Ledger, cs: seq<Component>, added: seq<Movement>)
    requires |l'.batches| == |l.batches| + 1 && l'.rows == l.rows + added
    requires forall m | m in l.rows :: m.batch != Some(|l.batches|)
    requires added == BatchRows(cs, l'.batches[|l.batches|].item, l'.batches[|l.batches|].actual, |l.batches|)
    ensures BatchOk(l', |l.batches|)
    ensures Remaining(l'.rows, |l.batches|) == l'.batches[|l.batches|].actual
  {
    var n := |l.batches|;
    var b := l'.batches[n];
    SumAppend(l.rows, added, Weigh(OfBatch(n)));
    SumZero(l.rows, Weigh(OfBatch(n)));
    BatchRowsOf(cs, b.item, b.actual, n, OfBatch(n));
    forall R: set<OrderId> ensures RemainingWithout(l'.rows, n, R) <= b.actual {
      SumAppend(l.rows, added, Weigh(OfBatchWithout(n, R)));
      SumZero(l.rows, Weigh(OfBatchWithout(n, R)));
      BatchRowsOf(cs, b.item, b.actual, n, OfBatchWithout(n, R));
    }
  }

  lemma WasteKeepsInv(l: Ledger, b: BatchId, q: Pos)
    requires Inv(l) && b < |l.batches| && q <= Remaining(l.rows, b)
    ensures Inv(l.(rows := l.rows + [Movement(l.batches[b].item, WASTE, -(q as int), None, Some(b))]))
  {
    var m := Movement(l.batches[b].item, WASTE, -(q as int), None, Some(b));
    var l' := l.(rows := l.rows + [m]);
    forall c | 0 <= c < |l.batches| ensures Remaining([m], c) >= -Remaining(l.rows, c) {
      assert BatchOk(l, c);
      SumOne(m, Weigh(OfBatch(c)));
    }
    AppendsKeepInv(l, l', [m]);
  }

  lemma LooseKeepsInv(l: Ledger, m: Movement)
    requires Inv(l) && m.kind in {PURCHASE, WASTE, ADJUSTMENT} && m.order.None? && m.batch.None?
    ensures Inv(l.(rows := l.rows + [m]))
  {
    forall b | 0 <= b < |l.batches| ensures Remaining([m], b) >= -Remaining(l.rows, b) {
      assert BatchOk(l, b);
      SumOne(m, Weigh(OfBatch(b)));
    }
    AppendsKeepInv(l, l.(rows := l.rows + [m]), [m]);
  }

  lemma LaterMoveKeepsInv(l: Ledger, o: OrderId, to: Status, now: int)
    requires Inv(l) && o < |l.orders| && CanTransition(l.orders[o].status, to) && to != PLACED
    ensures Inv(Step(l, SetStatus(o, to, now)))
  {
    if Reversing(to) {
      ReverseKeepsInv(l, o, to);
    } else {
      assert l.rows + [] == l.rows;
      AdvanceKeepsInv(l, o, to);
    }
  }

  lemma StepKeepsInv(l: Ledger, a: Action)
    requires Inv(l)
    ensures Inv(Step(l, a))
  {
    match a
    case Append(i, kind, q) =>
      if kind in {PURCHASE, WASTE, ADJUSTMENT} && q != 0 { LooseKeepsInv(l, Movement(i, kind, q, None, None)); }
    case SetRecipe(_, _) => ConfigKeepsInv(l, Step(l, a));
    case SetPrepRecipe(_, _) => ConfigKeepsInv(l, Step(l, a));
    case Create(items, held, now) =>
      AddDraftKeepsInv(l, items);
      if !held { PlaceKeepsInv(Drafted(l, items), |l.orders|, ExpandItems(items), now); }
    case SetStatus(o, to, now) =>
      if o < |l.orders| && CanTransition(l.orders[o].status, to) {
        if to == PLACED { PlaceKeepsInv(l, o, ProductLines(l.orders[o].items), now); } else { LaterMoveKeepsInv(l, o, to, now); }
      }
    case Prepare(item, planned, actual, expiresAt, now) =>
      if Step(l, a) != l {
        PrepareKeepsInv(l, item, ScaleComponents(l.prepRecipes[item].components, l.prepRecipes[item].standardYield, planned), actual, expiresAt, now);
      }
    case WasteBatch(b, q) =>
      if b < |l.batches| && q <= Remaining(l.rows, b) { WasteKeepsInv(l, b, q); }
  }

  lemma ConfigKeepsInv(l: Ledger, l': Ledger)
    requires Inv(l) && l'.rows == l.rows && l'.batches == l.batches && l'.orders == l.orders
    ensures Inv(l')
  {
    assert l.rows + [] == l.rows;
    forall b | 0 <= b < |l.batches| ensures Remaining([], b) >= -Remaining(l.rows, b) { assert BatchOk(l, b); }
    AppendsKeepInv(l, l', []);
  }

  lemma {:induction false} RunKeepsInv(l: Ledger, acts: seq<Action>)
    requires Inv(l)
    ensures Inv(Run(l, acts))
    decreases |acts|
  {
    if acts != [] {
      StepKeepsInv(l, acts[0]);
      RunKeepsInv(Step(l, acts[0]), acts[1..]);
    }
  }
}
