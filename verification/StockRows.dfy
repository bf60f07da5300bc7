/** What the rows of one depletion, one restock and one batch add up to. */
module StockRows {
  import opened Options
  import opened Sums
  import opened StableSort
  import opened Tallies
  import opened StockLedger
  import Fefo

  // -------------------------------------------------------------- needs

  lemma {:induction false} LineEntriesSum(recipe: seq<Component>, q: Pos, i: Ingredient)
    ensures Sum(LineEntries(recipe, q), AmountIf(IsKey(i))) == q * PerUnit(recipe, i)
  {
    if recipe != [] {
      var n := |recipe| - 1;
      LineEntriesSum(recipe[..n], q, i);
      assert LineEntries(recipe, q)[..n] == LineEntries(recipe[..n], q);
      var c := recipe[n];
      var rest := PerUnit(recipe[..n], i);
      assert q * (rest + ComponentOf(i)(c)) == q * rest + q * ComponentOf(i)(c);
    }
  }

  /** The running totals add up to the recipe expansion. */
  lemma {:induction false} NeedsSum(recipes: Recipes, lines: seq<Line>, i: Ingredient)
    ensures Sum(Needs(recipes, lines), AmountIf(IsKey(i))) == Expansion(recipes, lines, i)
  {
    if lines != [] {
      var n := |lines| - 1;
      var l := lines[n];
      NeedsSum(recipes, lines[..n], i);
      LineEntriesSum(RecipeOf(recipes, l.product), l.quantity, i);
      SumAppend(Needs(recipes, lines[..n]), LineEntries(RecipeOf(recipes, l.product), l.quantity), AmountIf(IsKey(i)));
    }
  }

  lemma {:induction false} NeedsPositive(recipes: Recipes, lines: seq<Line>)
    ensures forall e | e in Needs(recipes, lines) :: e.amount > 0
  {
    if lines != [] {
      var l := lines[|lines| - 1];
      var recipe := RecipeOf(recipes, l.product);
      NeedsPositive(recipes, lines[..|lines| - 1]);
      forall j | 0 <= j < |recipe| ensures LineEntries(recipe, l.quantity)[j].amount > 0 {
        assert recipe[j].quantity * l.quantity > 0;
      }
    }
  }

  lemma {:induction false} PositiveTotals(entries: seq<Entry<Ingredient>>)
    requires forall e | e in entries :: e.amount > 0
    ensures forall k | k in TallyOf(entries).totals :: TallyOf(entries).totals[k] > 0
  {
    if entries != [] {
      PositiveTotals(entries[..|entries| - 1]);
      assert entries[|entries| - 1] in entries;
    }
  }

  /** What depleteForOrder accumulates, for one ingredient. */
  lemma TotalIsExpansion(recipes: Recipes, lines: seq<Line>, i: Ingredient)
    ensures var t := TallyOf(Needs(recipes, lines));
            Total(t, i) == Expansion(recipes, lines, i) && WellFormed(t)
            && Total(t, i) >= 0 && (i in t.keys ==> Total(t, i) > 0)
  {
    var entries := Needs(recipes, lines);
    TallyIsWellFormed(entries);
    TotalIsSum(entries, i);
    NeedsSum(recipes, lines, i);
    NeedsPositive(recipes, lines);
    PositiveTotals(entries);
  }

  // ---------------------------------------------------------- allocation

  lemma {:induction false} ViewIsFaithful(rows: seq<Movement>, batches: seq<Batch>, item: Ingredient, n: nat)
    requires n <= |batches|
    ensures Fefo.DistinctIds(View(rows, batches, item, n))
    ensures forall v | v in View(rows, batches, item, n) ::
              v.id < n && batches[v.id].item == item && v.remaining == Remaining(rows, v.id)
              && v.expiresAt == batches[v.id].expiresAt && v.createdAt == batches[v.id].createdAt
    ensures forall b | 0 <= b < n && batches[b].item == item ::
              Fefo.LiveBatch(b, Remaining(rows, b), batches[b].expiresAt, batches[b].createdAt) in View(rows, batches, item, n)
  {
    if n > 0 {
      ViewIsFaithful(rows, batches, item, n - 1);
      var before, b := View(rows, batches, item, n - 1), batches[n - 1];
      var last := if b.item == item then [Fefo.LiveBatch(n - 1, Remaining(rows, n - 1), b.expiresAt, b.createdAt)] else [];
      assert View(rows, batches, item, n) == before + last;
      assert forall v | v in before + last :: v in before || v in last;
    }
  }

  lemma {:induction false} DrainRows(queue: seq<Fefo.LiveBatch>, need: int)
    requires forall b | b in queue :: b.remaining > 0
    ensures forall a | a in Fefo.Drain(queue, need) ::
              a.quantity > 0 && (a.batch.Some? ==> exists b :: b in queue && b.id == a.batch.value)
  {
    if need > 0 && queue != [] {
      var take := Min(need, queue[0].remaining);
      assert queue[0] in queue;
      DrainRows(queue[1..], need - take);
      forall a | a in Fefo.Drain(queue, need)
        ensures a.quantity > 0 && (a.batch.Some? ==> exists b :: b in queue && b.id == a.batch.value)
      {
        if a != Fefo.Alloc(Some(queue[0].id), take) {
          assert a in Fefo.Drain(queue[1..], need - take);
        }
      }
    }
  }

  lemma AllocRowsOk(l: Ledger, i: Ingredient, need: int, now: int, a: Fefo.Alloc)
    requires a in Fefo.Allocate(View(l.rows, l.batches, i, |l.batches|), need, now)
    ensures a.quantity > 0
    ensures a.batch.Some? ==> a.batch.value < |l.batches| && l.batches[a.batch.value].item == i
  {
    var view := View(l.rows, l.batches, i, |l.batches|);
    var queue := Fefo.Queue(view, now);
    ViewIsFaithful(l.rows, l.batches, i, |l.batches|);
    InFilter(view, Fefo.Live(now));
    InSort(Filter(view, Fefo.Live(now)), Fefo.Precedes);
    DrainRows(queue, need);
  }

  lemma {:induction false} AllocRowsSum(out: seq<Fefo.Alloc>, i: Ingredient, o: OrderId, w: Movement -> int, u: Fefo.Alloc -> int)
    requires forall a | a in out :: w(AllocRow(i, o)(a)) == -u(a)
    ensures Sum(Map(out, AllocRow(i, o)), w) == -Sum(out, u)
  {
    if out != [] {
      var n := |out| - 1;
      assert out[n] in out;
      AllocRowsSum(out[..n], i, o, w, u);
      assert Map(out, AllocRow(i, o))[..n] == Map(out[..n], AllocRow(i, o));
    }
  }

  // ------------------------------------------------------------ depletion

  ghost predicate DepletionRow(l: Ledger, o: OrderId, m: Movement) {
    m.kind == CONSUMPTION && m.order == Some(o) && m.quantity < 0
    && (m.batch.Some? ==> m.batch.value < |l.batches| && l.batches[m.batch.value].item == m.ingredient)
  }

  lemma RawRowsOk(l: Ledger, o: OrderId, t: Tally<Ingredient>, m: Movement)
    requires forall k | k in t.keys :: Total(t, k) > 0
    requires m in Emit(t.keys, RawRow(l.prepared, t, o))
    ensures DepletionRow(l, o, m)
  {
    InEmit(t.keys, RawRow(l.prepared, t, o), m);
    var j :| 0 <= j < |t.keys| && m in RawRow(l.prepared, t, o)(t.keys[j]);
    assert t.keys[j] in t.keys;
  }

  lemma AllocatedRowOk(l: Ledger, o: OrderId, k: Ingredient, out: seq<Fefo.Alloc>, m: Movement)
    requires forall a | a in out ::
               a.quantity > 0 && (a.batch.Some? ==> a.batch.value < |l.batches| && l.batches[a.batch.value].item == k)
    requires m in Map(out, AllocRow(k, o))
    ensures DepletionRow(l, o, m)
  {
    var a :| 0 <= a < |out| && Map(out, AllocRow(k, o))[a] == m;
    assert out[a] in out;
  }

  lemma PreparedRowOk(l: Ledger, o: OrderId, t: Tally<Ingredient>, k: Ingredient, now: int, m: Movement)
    requires m in PreparedRows(l, t, o, now)(k)
    ensures DepletionRow(l, o, m)
  {
    var out := Fefo.Allocate(View(l.rows, l.batches, k, |l.batches|), Total(t, k), now);
    forall a | a in out
      ensures a.quantity > 0 && (a.batch.Some? ==> a.batch.value < |l.batches| && l.batches[a.batch.value].item == k)
    {
      AllocRowsOk(l, k, Total(t, k), now, a);
    }
    AllocatedRowOk(l, o, k, out, m);
  }

  lemma PreparedRowsOk(l: Ledger, o: OrderId, t: Tally<Ingredient>, keys: seq<Ingredient>, now: int, m: Movement)
    requires m in Emit(keys, PreparedRows(l, t, o, now))
    ensures DepletionRow(l, o, m)
  {
    InEmit(keys, PreparedRows(l, t, o, now), m);
    var j :| 0 <= j < |keys| && m in PreparedRows(l, t, o, now)(keys[j]);
    PreparedRowOk(l, o, t, keys[j], now, m);
  }

  lemma DepletionRowsOk(l: Ledger, o: OrderId, lines: seq<Line>, now: int, m: Movement)
    requires m in DepletionRows(l, o, lines, now)
    ensures DepletionRow(l, o, m)
  {
    var t := TallyOf(Needs(l.recipes, lines));
    if m in Emit(t.keys, RawRow(l.prepared, t, o)) {
      forall k | k in t.keys ensures Total(t, k) > 0 { TotalIsExpansion(l.recipes, lines, k); }
      RawRowsOk(l, o, t, m);
    } else {
      PreparedRowsOk(l, o, t, Filter(t.keys, IsPrepared(l.prepared)), now, m);
    }
  }

  lemma RawTakes(prepared: set<Ingredient>, t: Tally<Ingredient>, o: OrderId, i: Ingredient)
    requires Distinct(t.keys)
    ensures Sum(Emit(t.keys, RawRow(prepared, t, o)), Weigh(OfOrderKey(o, AtIngredient(i))))
            == if i in t.keys && i !in prepared then -Total(t, i) else 0
  {
    var w, raw := Weigh(OfOrderKey(o, AtIngredient(i))), RawRow(prepared, t, o);
    EmitSum(t.keys, raw, w);
    forall k ensures SumOf(raw, w)(k) == if k == i && k !in prepared then -Total(t, i) else 0 {
      if k !in prepared { SumOne(Movement(k, CONSUMPTION, -Total(t, k), Some(o), None), w); }
    }
    SumSingle(t.keys, SumOf(raw, w), i);
  }

  lemma PreparedTakeAll(l: Ledger, t: Tally<Ingredient>, o: OrderId, now: int, keys: seq<Ingredient>, i: Ingredient)
    requires Distinct(keys) && forall k :: Total(t, k) >= 0
    ensures Sum(Emit(keys, PreparedRows(l, t, o, now)), Weigh(OfOrderKey(o, AtIngredient(i)))) == if i in keys then -Total(t, i) else 0
  {
    var w, prep := Weigh(OfOrderKey(o, AtIngredient(i))), PreparedRows(l, t, o, now);
    EmitSum(keys, prep, w);
    forall k ensures SumOf(prep, w)(k) == if k == i then -Total(t, i) else 0 {
      PreparedTakes(l, t, o, now, k, i);
    }
    SumSingle(keys, SumOf(prep, w), i);
  }

  /** Per ingredient, a depletion takes exactly the recipe expansion. */
  lemma DepletionTakesExpansion(l: Ledger, o: OrderId, lines: seq<Line>, now: int, i: Ingredient)
    ensures Net(DepletionRows(l, o, lines, now), o, AtIngredient(i)) == -Expansion(l.recipes, lines, i)
  {
    var t := TallyOf(Needs(l.recipes, lines));
    var ps := Filter(t.keys, IsPrepared(l.prepared));
    forall k ensures Total(t, k) >= 0 { TotalIsExpansion(l.recipes, lines, k); }
    TotalIsExpansion(l.recipes, lines, i);
    FilterKeepsDistinct(t.keys, IsPrepared(l.prepared));
    RawTakes(l.prepared, t, o, i);
    PreparedTakeAll(l, t, o, now, ps, i);
    assert i in ps <==> i in t.keys && i in l.prepared by { InFilter(t.keys, IsPrepared(l.prepared)); }
    SumAppend(Emit(t.keys, RawRow(l.prepared, t, o)), Emit(ps, PreparedRows(l, t, o, now)), Weigh(OfOrderKey(o, AtIngredient(i))));
  }

  lemma PreparedTakes(l: Ledger, t: Tally<Ingredient>, o: OrderId, now: int, k: Ingredient, i: Ingredient)
    requires Total(t, k) >= 0
    ensures Sum(PreparedRows(l, t, o, now)(k), Weigh(OfOrderKey(o, AtIngredient(i)))) == if k == i then -Total(t, k) else 0
  {
    var view := View(l.rows, l.batches, k, |l.batches|);
    var out := Fefo.Allocate(view, Total(t, k), now);
    var w := Weigh(OfOrderKey(o, AtIngredient(i)));
    if k == i {
      Fefo.AllocatedTotals(view, Total(t, k), now);
      AllocRowsSum(out, k, o, w, Fefo.Quantity());
    } else {
      AllocRowsSum(out, k, o, w, Zero<Fefo.Alloc>());
      SumZero(out, Zero<Fefo.Alloc>());
    }
  }

  lemma RawDrawsNothing(prepared: set<Ingredient>, t: Tally<Ingredient>, o: OrderId, b: BatchId)
    ensures Sum(Emit(t.keys, RawRow(prepared, t, o)), Weigh(OfBatch(b))) == 0
  {
    var w, raw := Weigh(OfBatch(b)), RawRow(prepared, t, o);
    EmitSum(t.keys, raw, w);
    forall k ensures SumOf(raw, w)(k) == 0 {
      if k !in prepared { SumOne(Movement(k, CONSUMPTION, -Total(t, k), Some(o), None), w); }
    }
    SumZero(t.keys, SumOf(raw, w));
  }

  lemma PreparedDrawAll(l: Ledger, t: Tally<Ingredient>, o: OrderId, now: int, keys: seq<Ingredient>, b: BatchId)
    requires Distinct(keys) && forall k :: Total(t, k) >= 0
    requires b < |l.batches| && Remaining(l.rows, b) >= 0
    ensures -Remaining(l.rows, b) <= Sum(Emit(keys, PreparedRows(l, t, o, now)), Weigh(OfBatch(b))) <= 0
  {
    var w, prep := Weigh(OfBatch(b)), PreparedRows(l, t, o, now);
    EmitSum(keys, prep, w);
    var item := l.batches[b].item;
    forall k ensures k != item ==> SumOf(prep, w)(k) == 0
             ensures -Remaining(l.rows, b) <= SumOf(prep, w)(k) <= 0
    {
      PreparedDraws(l, t, o, now, k, b);
    }
    SumSingle(keys, SumOf(prep, w), item);
  }

  /** A depletion leaves every batch with something between 0 and what it had. */
  lemma DepletionWithinBatch(l: Ledger, o: OrderId, lines: seq<Line>, now: int, b: BatchId)
    requires b < |l.batches| && Remaining(l.rows, b) >= 0
    ensures -Remaining(l.rows, b) <= Remaining(DepletionRows(l, o, lines, now), b) <= 0
  {
    var t := TallyOf(Needs(l.recipes, lines));
    var ps := Filter(t.keys, IsPrepared(l.prepared));
    forall k ensures Total(t, k) >= 0 { TotalIsExpansion(l.recipes, lines, k); }
    TallyIsWellFormed(Needs(l.recipes, lines));
    FilterKeepsDistinct(t.keys, IsPrepared(l.prepared));
    RawDrawsNothing(l.prepared, t, o, b);
    PreparedDrawAll(l, t, o, now, ps, b);
    SumAppend(Emit(t.keys, RawRow(l.prepared, t, o)), Emit(ps, PreparedRows(l, t, o, now)), Weigh(OfBatch(b)));
  }

  lemma PreparedDraws(l: Ledger, t: Tally<Ingredient>, o: OrderId, now: int, k: Ingredient, b: BatchId)
    requires Total(t, k) >= 0 && b < |l.batches| && Remaining(l.rows, b) >= 0
    ensures var s := Sum(PreparedRows(l, t, o, now)(k), Weigh(OfBatch(b)));
            (k != l.batches[b].item ==> s == 0) && -Remaining(l.rows, b) <= s <= 0
  {
    var view := View(l.rows, l.batches, k, |l.batches|);
    var out := Fefo.Allocate(view, Total(t, k), now);
    ViewIsFaithful(l.rows, l.batches, k, |l.batches|);
    AllocRowsSum(out, k, o, Weigh(OfBatch(b)), Fefo.OfBatch(b));
    if k != l.batches[b].item {
      if Fefo.Taken(out, b) != 0 { Fefo.AllocatedIsLive(view, Total(t, k), now, b); }
    } else {
      var v := Fefo.LiveBatch(b, Remaining(l.rows, b), l.batches[b].expiresAt, l.batches[b].createdAt);
      Fefo.AllocatedWithin(view, Total(t, k), now, v);
    }
  }

  // -------------------------------------------------------------- restock

  lemma {:induction false} ConsumedSum(rows: seq<Movement>, o: OrderId, p: Key -> bool)
    requires OnlyConsumed(rows, o)
    ensures Sum(Map(Filter(rows, Consumed(o)), GivenBack()), AmountIf(p)) == -Net(rows, o, p)
  {
    if rows != [] {
      var m, rest := rows[0], Filter(rows[1..], Consumed(o));
      assert m in rows;
      ConsumedSum(rows[1..], o, p);
      SumHead(rows, Weigh(OfOrderKey(o, p)));
      if Consumed(o)(m) {
        var all := Map([m] + rest, GivenBack());
        assert all == [GivenBack()(m)] + Map(rest, GivenBack());
        SumHead(all, AmountIf(p));
        assert all[1..] == Map(rest, GivenBack());
      } else {
        assert [] + rest == rest;
      }
    }
  }

  /** A weight that sees a returned row only through its key and quantity. */
  ghost predicate SeesKey(w: Movement -> int, o: OrderId, p: Key -> bool) {
    forall k: Key, q: int :: w(Movement(k.0, ADJUSTMENT, q, Some(o), k.1)) == if p(k) then q else 0
  }

  /** The returned rows undo the order's rows, however they are selected. */
  lemma RestockUndoes(rows: seq<Movement>, o: OrderId, p: Key -> bool, w: Movement -> int)
    requires OnlyConsumed(rows, o) && SeesKey(w, o, p)
    ensures Sum(RestockRows(rows, o), w) == -Net(rows, o, p)
  {
    var entries := Map(Filter(rows, Consumed(o)), GivenBack());
    var t := TallyOf(entries);
    EmitSum(t.keys, ReturnRow(t, o), w);
    TallySum(entries, p);
    ConsumedSum(rows, o, p);
    forall k: Key ensures SumOf(ReturnRow(t, o), w)(k) == TotalIf(t, p)(k) {
      if Total(t, k) != 0 { SumOne(Movement(k.0, ADJUSTMENT, Total(t, k), Some(o), k.1), w); }
    }
    SumEqual(t.keys, SumOf(ReturnRow(t, o), w), TotalIf(t, p));
  }

  lemma ReturnedKey(rows: seq<Movement>, o: OrderId, k: Key)
    requires k in TallyOf(Map(Filter(rows, Consumed(o)), GivenBack())).keys
    ensures exists c :: c in rows && c.order == Some(o) && c.kind == CONSUMPTION && (c.ingredient, c.batch) == k
  {
    var consumed := Filter(rows, Consumed(o));
    var entries := Map(consumed, GivenBack());
    TallyIsWellFormed(entries);
    var e :| 0 <= e < |entries| && entries[e].key == k;
    InFilter(rows, Consumed(o));
    assert consumed[e] in consumed;
  }

  lemma RestockRowsOk(rows: seq<Movement>, o: OrderId, m: Movement)
    requires m in RestockRows(rows, o)
    ensures m.kind == ADJUSTMENT && m.order == Some(o) && m.quantity != 0
    ensures exists c :: c in rows && c.order == Some(o) && c.kind == CONSUMPTION && (c.ingredient, c.batch) == (m.ingredient, m.batch)
  {
    var t := TallyOf(Map(Filter(rows, Consumed(o)), GivenBack()));
    InEmit(t.keys, ReturnRow(t, o), m);
    var j :| 0 <= j < |t.keys| && m in ReturnRow(t, o)(t.keys[j]);
    ReturnedKey(rows, o, t.keys[j]);
  }
}
