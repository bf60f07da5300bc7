/** Prep recipes: which ones can ever be in force, and what preparing by them does to the stock. */
module PrepTheorems {
  import opened Options
  import opened Sums
  import opened StableSort
  import opened Rounding
  import opened Traces
  import opened StockLedger
  import opened StockSafety
  import StockTheorems

  // ----------------------------------------------------------------- recipes

  /** No recipe lists a component twice, none lists its own item, and no two items use each other. */
  ghost predicate RecipesOk(recipes: PrepRecipes) {
    && (forall item | item in recipes :: DistinctComponents(recipes[item].components))
    && (forall item, i | Uses(recipes, item, i) :: !Uses(recipes, i, item))
  }

  lemma UsesAfter(recipes: PrepRecipes, item: Ingredient, r: PrepRecipe, a: Ingredient, b: Ingredient)
    ensures Uses(recipes[item := r], a, b) <==> if a == item then Contains(r.components, b) else Uses(recipes, a, b)
  {
  }

  /**
   * setRecipe refuses no more than it must: it lets a recipe through exactly
   * when no duplicate, no self-use and no pair of mutual uses comes of it.
   */
  lemma AcceptedIff(recipes: PrepRecipes, item: Ingredient, r: PrepRecipe)
    requires RecipesOk(recipes)
    ensures Accepts(recipes, item, r.components) <==> RecipesOk(recipes[item := r])
  {
    var after := recipes[item := r];
    if Accepts(recipes, item, r.components) {
      forall a, b | Uses(after, a, b) ensures !Uses(after, b, a) {
        UsesAfter(recipes, item, r, a, b);
        UsesAfter(recipes, item, r, b, a);
      }
    }
    if RecipesOk(after) {
      assert item in after && after[item] == r;
      RefusedIsBroken(recipes, item, r);
    }
  }

  /** What each refusal prevents. */
  lemma RefusedIsBroken(recipes: PrepRecipes, item: Ingredient, r: PrepRecipe)
    ensures var after := recipes[item := r];
            && (Contains(r.components, item) ==> Uses(after, item, item))
            && (!Contains(r.components, item) && Reciprocal(recipes, item, r.components)
                ==> exists i :: Uses(after, item, i) && Uses(after, i, item))
  {
    var after := recipes[item := r];
    if !Contains(r.components, item) && Reciprocal(recipes, item, r.components) {
      var k :| 0 <= k < |r.components| && Uses(recipes, r.components[k].ingredient, item);
      assert Uses(after, item, r.components[k].ingredient) && Uses(after, r.components[k].ingredient, item);
    }
  }

  lemma {:induction false} RunKeepsRecipes(l: Ledger, acts: seq<Action>)
    requires RecipesOk(l.prepRecipes)
    ensures RecipesOk(Run(l, acts).prepRecipes)
    decreases |acts|
  {
    if acts != [] {
      if acts[0].SetPrepRecipe? && Step(l, acts[0]) != l {
        AcceptedIff(l.prepRecipes, acts[0].item, acts[0].prepRecipe);
      }
      RunKeepsRecipes(Step(l, acts[0]), acts[1..]);
    }
  }

  lemma {:induction false} RunKeepsOwners(l: Ledger, acts: seq<Action>)
    requires forall item | item in l.prepRecipes :: item in l.prepared
    ensures Run(l, acts).prepared == l.prepared
    ensures forall item | item in Run(l, acts).prepRecipes :: item in l.prepared
    decreases |acts|
  {
    if acts != [] {
      RunKeepsOwners(Step(l, acts[0]), acts[1..]);
    }
  }

  /** In no run does an item use itself, or two items use each other (b may be a). */
  lemma NoShortLoops(prepared: set<Ingredient>, acts: seq<Action>, a: Ingredient, b: Ingredient)
    ensures var recipes := Run(Empty(prepared), acts).prepRecipes;
            RecipesOk(recipes) && !(Uses(recipes, a, b) && Uses(recipes, b, a))
            && (a in recipes ==> a in prepared)
  {
    RunKeepsRecipes(Empty(prepared), acts);
    RunKeepsOwners(Empty(prepared), acts);
  }

  /** Three items in a ring, each of one unit of the next. */
  function Ring(): seq<Action> {
    [SetPrepRecipe(1, PrepRecipe(1, [Component(2, 1)])),
     SetPrepRecipe(2, PrepRecipe(1, [Component(3, 1)])),
     SetPrepRecipe(3, PrepRecipe(1, [Component(1, 1)]))]
  }

  /** The check looks one recipe deep, so a ring of three is let through. */
  lemma ThreeStepLoopIsReachable()
    ensures var recipes := Run(Empty({1, 2, 3}), Ring()).prepRecipes;
            Uses(recipes, 1, 2) && Uses(recipes, 2, 3) && Uses(recipes, 3, 1)
  {
    var l := Empty({1, 2, 3});
    RunThree(Steps(), l, Ring()[0], Ring()[1], Ring()[2]);
    var one := l.prepRecipes[1 := PrepRecipe(1, [Component(2, 1)])];
    var two := one[2 := PrepRecipe(1, [Component(3, 1)])];
    assert Step(l, Ring()[0]) == l.(prepRecipes := one);
    assert Step(l.(prepRecipes := one), Ring()[1]) == l.(prepRecipes := two);
    assert Step(l.(prepRecipes := two), Ring()[2]).prepRecipes == two[3 := PrepRecipe(1, [Component(1, 1)])];
    assert [Component(2, 1)][0].ingredient == 2 && [Component(3, 1)][0].ingredient == 3 && [Component(1, 1)][0].ingredient == 1;
  }

  // ----------------------------------------------------------------- scaling

  /** q is the whole number nearest to a component's share of the planned yield, halves going up. */
  predicate IsNearestShare(q: int, c: Component, standard: Pos, planned: Pos) {
    2 * (c.quantity * planned) - standard < 2 * standard * q <= 2 * (c.quantity * planned) + standard
  }

  lemma ScaledIsNearest(c: Component, standard: Pos, planned: Pos, q: int)
    ensures IsNearestShare(q, c, standard, planned) <==> q == Scaled(c, standard, planned)
  {
    var a := c.quantity * planned;
    RoundDivIsNearest(a, standard);
    if IsNearestShare(q, c, standard, planned) { NearestIsUnique(q, Scaled(c, standard, planned), a, standard); }
  }

  lemma AtLeastItself(n: int, k: int)
    requires n > 0 && k >= 1
    ensures n * k >= n
  {
    assert n * (k - 1) >= 0;
  }

  lemma LessThanOne(n: int, k: int)
    requires n > 0 && n * k < n
    ensures k <= 0
  {
    if k >= 1 { AtLeastItself(n, k); }
  }

  lemma NearestIsUnique(q: int, r: int, a: int, b: int)
    requires b > 0 && 2 * a - b < 2 * b * q <= 2 * a + b && 2 * a - b < 2 * b * r <= 2 * a + b
    ensures q == r
  {
    var n := 2 * b;
    assert n * (q - r) == n * q - n * r && n * (r - q) == n * r - n * q;
    LessThanOne(n, q - r);
    LessThanOne(n, r - q);
  }

  /** A scaled recipe lists each component with its nearest share of the planned yield, unless that is nothing. */
  lemma {:induction false} ScaleIsNearest(cs: seq<Component>, standard: Pos, planned: Pos)
    ensures forall c | c in ScaleComponents(cs, standard, planned) ::
              exists d :: d in cs && d.ingredient == c.ingredient && IsNearestShare(c.quantity, d, standard, planned)
    ensures forall d, q: Pos | d in cs && IsNearestShare(q, d, standard, planned) ::
              Component(d.ingredient, q) in ScaleComponents(cs, standard, planned)
    ensures |ScaleComponents(cs, standard, planned)| <= |cs|
  {
    if cs != [] {
      var n := |cs| - 1;
      ScaleIsNearest(cs[..n], standard, planned);
      assert cs == cs[..n] + [cs[n]];
      ScaledIsNearest(cs[n], standard, planned, Scaled(cs[n], standard, planned));
      forall d, q: Pos | d in cs && IsNearestShare(q, d, standard, planned)
        ensures Component(d.ingredient, q) in ScaleComponents(cs, standard, planned)
      {
        if d !in cs[..n] { ScaledIsNearest(d, standard, planned, q); }
      }
      forall c | c in ScaleComponents(cs, standard, planned)
        ensures exists d :: d in cs && d.ingredient == c.ingredient && IsNearestShare(c.quantity, d, standard, planned)
      {
        if c in ScaleComponents(cs[..n], standard, planned) {
          var d :| d in cs[..n] && d.ingredient == c.ingredient && IsNearestShare(c.quantity, d, standard, planned);
          assert d in cs;
        } else {
          assert cs[n] in cs;
        }
      }
    }
  }

  /** Planning the standard yield takes the recipe as it is written. */
  lemma {:induction false} StandardYieldIsTheRecipe(cs: seq<Component>, standard: Pos)
    ensures ScaleComponents(cs, standard, standard) == cs
  {
    if cs != [] {
      var n := |cs| - 1;
      assert Scaled(cs[n], standard, standard) == cs[n].quantity by { ScaledIsNearest(cs[n], standard, standard, cs[n].quantity); }
      StandardYieldIsTheRecipe(cs[..n], standard);
      assert cs == cs[..n] + [cs[n]];
    }
  }

  // ------------------------------------------------------------- preparation

  lemma {:induction false} ScaleKeepsDistinct(cs: seq<Component>, standard: Pos, planned: Pos)
    requires DistinctComponents(cs)
    ensures DistinctComponents(ScaleComponents(cs, standard, planned))
    ensures forall c | c in ScaleComponents(cs, standard, planned) :: exists d :: d in cs && d.ingredient == c.ingredient
  {
    if cs != [] {
      var n := |cs| - 1;
      ScaleKeepsDistinct(cs[..n], standard, planned);
      forall c | c in ScaleComponents(cs, standard, planned) ensures exists d :: d in cs && d.ingredient == c.ingredient {
        if c in ScaleComponents(cs[..n], standard, planned) {
          var d :| d in cs[..n] && d.ingredient == c.ingredient;
          assert d in cs;
        } else {
          assert cs[n] in cs;
        }
      }
      var before := ScaleComponents(cs[..n], standard, planned);
      forall j | 0 <= j < |before| ensures before[j].ingredient != cs[n].ingredient {
        assert before[j] in before;
        var d :| d in cs[..n] && d.ingredient == before[j].ingredient;
        var e :| 0 <= e < n && cs[e] == d;
      }
    }
  }

  lemma {:induction false} RawDraw(cs: seq<Component>, b: BatchId, i: Ingredient)
    requires DistinctComponents(cs)
    ensures (forall c | c in cs :: c.ingredient != i) ==> Sum(Map(cs, PrepRow(b)), Weigh(OfIngredient(i))) == 0
    ensures forall c | c in cs && c.ingredient == i :: Sum(Map(cs, PrepRow(b)), Weigh(OfIngredient(i))) == -(c.quantity as int)
  {
    if cs != [] {
      var n := |cs| - 1;
      RawDraw(cs[..n], b, i);
      assert Map(cs, PrepRow(b))[..n] == Map(cs[..n], PrepRow(b));
      assert cs[n] in cs;
      forall c | c in cs[..n] ensures c.ingredient != cs[n].ingredient {
        var e :| 0 <= e < n && cs[..n][e] == c;
        assert cs[e] == c;
      }
    }
  }

  lemma BatchRowsTake(cs: seq<Component>, item: Ingredient, actual: nat, b: BatchId, c: Component)
    requires DistinctComponents(cs) && c in cs && c.ingredient != item
    ensures Stock(BatchRows(cs, item, actual, b), c.ingredient) == -(c.quantity as int)
  {
    var made := if actual > 0 then [Movement(item, PREP_OUTPUT, actual, None, Some(b))] else [];
    var w := Weigh(OfIngredient(c.ingredient));
    RawDraw(cs, b, c.ingredient);
    SumAppend(Map(cs, PrepRow(b)), made, w);
    SumOne(Movement(item, PREP_OUTPUT, actual, None, Some(b)), w);
  }

  lemma {:induction false} NotShort(rows: seq<Movement>, cs: seq<Component>, c: Component)
    requires !Short(rows, cs) && c in cs
    ensures Stock(rows, c.ingredient) >= c.quantity
  {
    var j :| 0 <= j < |cs| && cs[j] == c;
    assert !(Stock(rows, cs[j].ingredient) < cs[j].quantity);
  }

  function Prepared(l: Ledger, item: Ingredient, cs: seq<Component>, actual: nat, expiresAt: Option<int>, now: int): Ledger {
    l.(batches := l.batches + [Batch(item, actual, expiresAt, now)], rows := l.rows + BatchRows(cs, item, actual, |l.batches|))
  }

  lemma PreparedStock(l: Ledger, item: Ingredient, cs: seq<Component>, actual: nat, expiresAt: Option<int>, now: int, c: Component)
    requires RowsOk(l) && DistinctComponents(cs) && c in cs && c.ingredient != item && !Short(l.rows, cs)
    ensures var l' := Prepared(l, item, cs, actual, expiresAt, now);
            Stock(l'.rows, c.ingredient) == Stock(l.rows, c.ingredient) - c.quantity >= 0
            && Remaining(l'.rows, |l.batches|) == actual
  {
    var l' := Prepared(l, item, cs, actual, expiresAt, now);
    var added := BatchRows(cs, item, actual, |l.batches|);
    BatchRowsTake(cs, item, actual, |l.batches|, c);
    NotShort(l.rows, cs, c);
    SumAppend(l.rows, added, Weigh(OfIngredient(c.ingredient)));
    forall m | m in l.rows ensures m.batch != Some(|l.batches|) { assert RowOk(l, m); }
    NewBatchOk(l, l', cs, added);
  }

  function Needed(l: Ledger, item: Ingredient, planned: Pos): seq<Component>
    requires item in l.prepRecipes
  {
    ScaleComponents(l.prepRecipes[item].components, l.prepRecipes[item].standardYield, planned)
  }

  lemma ShortIff(rows: seq<Movement>, cs: seq<Component>)
    ensures Short(rows, cs) <==> exists d :: d in cs && Stock(rows, d.ingredient) < d.quantity
  {
    if d :| d in cs && Stock(rows, d.ingredient) < d.quantity {
      var j :| 0 <= j < |cs| && cs[j] == d;
      assert Stock(rows, cs[j].ingredient) < cs[j].quantity;
    }
    if j :| 0 <= j < |cs| && Stock(rows, cs[j].ingredient) < cs[j].quantity { assert cs[j] in cs; }
  }

  lemma NeededWithoutItself(l: Ledger, item: Ingredient, planned: Pos)
    requires item in l.prepRecipes && RecipesOk(l.prepRecipes)
    ensures forall c | c in Needed(l, item, planned) :: c.ingredient != item
  {
    var r := l.prepRecipes[item];
    ScaleKeepsDistinct(r.components, r.standardYield, planned);
    forall c | c in Needed(l, item, planned) ensures c.ingredient != item {
      var d :| d in r.components && d.ingredient == c.ingredient;
      assert Uses(l.prepRecipes, item, d.ingredient);
    }
  }

  /** The item's own stock grows by the yield. */
  lemma ItemStock(l: Ledger, item: Ingredient, cs: seq<Component>, actual: nat, expiresAt: Option<int>, now: int)
    requires forall c | c in cs :: c.ingredient != item
    ensures Stock(Prepared(l, item, cs, actual, expiresAt, now).rows, item) == Stock(l.rows, item) + actual
  {
    var w, b := Weigh(OfIngredient(item)), |l.batches|;
    var made := if actual > 0 then [Movement(item, PREP_OUTPUT, actual, None, Some(b))] else [];
    SumAppend(l.rows, BatchRows(cs, item, actual, b), w);
    SumAppend(Map(cs, PrepRow(b)), made, w);
    SumOne(Movement(item, PREP_OUTPUT, actual, None, Some(b)), w);
    SumZero(Map(cs, PrepRow(b)), w);
  }

  lemma PrepareStep(l: Ledger, item: Ingredient, planned: Pos, actual: nat, expiresAt: Option<int>, now: int)
    requires item in l.prepared && item in l.prepRecipes && Needed(l, item, planned) != []
    ensures Step(l, Prepare(item, planned, actual, expiresAt, now))
            == if Short(l.rows, Needed(l, item, planned)) then l
               else Prepared(l, item, Needed(l, item, planned), actual, expiresAt, now)
  {
  }

  /**
   * In every run, preparing a batch is refused exactly when some scaled
   * component is short. When it goes through it takes each scaled quantity,
   * leaves no component below zero, and the new batch holds exactly its
   * actual yield.
   */
  lemma PrepareNeverOverdraws(prepared: set<Ingredient>, acts: seq<Action>, item: Ingredient, planned: Pos,
                              actual: nat, expiresAt: Option<int>, now: int, c: Component)
    requires var l := Run(Empty(prepared), acts);
             item in l.prepared && item in l.prepRecipes && c in Needed(l, item, planned)
    ensures var l := Run(Empty(prepared), acts);
            var l' := Step(l, Prepare(item, planned, actual, expiresAt, now));
            if exists d :: d in Needed(l, item, planned) && Stock(l.rows, d.ingredient) < d.quantity then l' == l
            else l'.batches == l.batches + [Batch(item, actual, expiresAt, now)]
                 && Stock(l'.rows, c.ingredient) == Stock(l.rows, c.ingredient) - c.quantity >= 0
                 && Stock(l'.rows, item) == Stock(l.rows, item) + actual
                 && Remaining(l'.rows, |l.batches|) == actual
  {
    var l := Run(Empty(prepared), acts);
    var r := l.prepRecipes[item];
    NoShortLoops(prepared, acts, item, item);
    StockTheorems.ReachableInv(prepared, acts);
    ScaleKeepsDistinct(r.components, r.standardYield, planned);
    PrepareStep(l, item, planned, actual, expiresAt, now);
    ShortIff(l.rows, Needed(l, item, planned));
    if !Short(l.rows, Needed(l, item, planned)) {
      assert c.ingredient != item by {
        var d :| d in r.components && d.ingredient == c.ingredient;
        assert Uses(l.prepRecipes, item, d.ingredient);
      }
      PreparedStock(l, item, Needed(l, item, planned), actual, expiresAt, now, c);
      NeededWithoutItself(l, item, planned);
      ItemStock(l, item, Needed(l, item, planned), actual, expiresAt, now);
    }
  }
}
