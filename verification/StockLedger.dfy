/**
 * The append-only stock ledger: stock and batch remaining are sums of rows.
 * Each transaction that writes the ledger is one atomic step.
 */
module StockLedger {
  import opened Options
  import opened Traces
  import opened Sums
  import opened StableSort
  import opened Rounding
  import opened Tallies
  import opened OrderStatus
  import Fefo

  type Ingredient = int
  type Product = int
  type OrderId = nat // position in `orders`
  type BatchId = nat // position in `batches`
  type Pos = x: int | x > 0 witness 1

  datatype Kind = PURCHASE | CONSUMPTION | WASTE | ADJUSTMENT | PREP_BATCH | PREP_OUTPUT

  datatype Movement = Movement(ingredient: Ingredient, kind: Kind, quantity: int, order: Option<OrderId>, batch: Option<BatchId>)

  datatype Component = Component(ingredient: Ingredient, quantity: Pos)

  datatype Line = Line(product: Product, quantity: Pos)

  datatype OrderItem = ProductItem(product: Product, quantity: Pos) | ComboItem(components: seq<Line>, quantity: Pos)

  type Recipes = map<Product, seq<Component>>

  datatype PrepRecipe = PrepRecipe(standardYield: Pos, components: seq<Component>)

  type PrepRecipes = map<Ingredient, PrepRecipe>

  /** What depleteForOrder was given when the order was placed, and when (history). */
  datatype Placement = Placement(recipes: Recipes, lines: seq<Line>, at: int)

  datatype Order = Order(status: Status, items: seq<OrderItem>, placement: Option<Placement>)

  datatype Batch = Batch(item: Ingredient, actual: nat, expiresAt: Option<int>, createdAt: int)

  datatype Ledger = Ledger(
    rows: seq<Movement>,
    batches: seq<Batch>,
    orders: seq<Order>,
    recipes: Recipes,
    prepRecipes: PrepRecipes,
    prepared: set<Ingredient>) // ids whose isPrepared flag is set; fixed at creation

  // ------------------------------------------------------------ aggregates

  type Key = (Ingredient, Option<BatchId>)

  function Weigh(p: Movement -> bool): Movement -> int { (m: Movement) => if p(m) then m.quantity else 0 }

  function OfIngredient(i: Ingredient): Movement -> bool { (m: Movement) => m.ingredient == i }

  function OfBatch(b: BatchId): Movement -> bool { (m: Movement) => m.batch == Some(b) && m.kind != PREP_BATCH }

  function OfOrder(o: OrderId): Movement -> bool { (m: Movement) => m.order == Some(o) }

  function OfOrderKey(o: OrderId, p: Key -> bool): Movement -> bool {
    (m: Movement) => m.order == Some(o) && p((m.ingredient, m.batch))
  }

  /** stockByIngredient */
  function Stock(rows: seq<Movement>, i: Ingredient): int { Sum(rows, Weigh(OfIngredient(i))) }

  /** remainingByBatch */
  function Remaining(rows: seq<Movement>, b: BatchId): int { Sum(rows, Weigh(OfBatch(b))) }

  /** An order's net effect over the (ingredient, batch) pairs p selects. */
  function Net(rows: seq<Movement>, o: OrderId, p: Key -> bool): int { Sum(rows, Weigh(OfOrderKey(o, p))) }

  function AtKey(k: Key): Key -> bool { (x: Key) => x == k }

  function AtIngredient(i: Ingredient): Key -> bool { (x: Key) => x.0 == i }

  // --------------------------------------------------------------- recipes

  function RecipeOf(recipes: Recipes, p: Product): seq<Component> { if p in recipes then recipes[p] else [] }

  function ComponentOf(i: Ingredient): Component -> int { (c: Component) => if c.ingredient == i then c.quantity else 0 }

  function PerUnit(recipe: seq<Component>, i: Ingredient): int { Sum(recipe, ComponentOf(i)) }

  function LineNeeds(recipes: Recipes, i: Ingredient): Line -> int {
    (l: Line) => l.quantity * PerUnit(RecipeOf(recipes, l.product), i)
  }

  /** How much of ingredient i the lines take by these recipes. */
  function Expansion(recipes: Recipes, lines: seq<Line>, i: Ingredient): int { Sum(lines, LineNeeds(recipes, i)) }

  /** One line's contributions to the running totals, in recipe order. */
  function LineEntries(recipe: seq<Component>, quantity: Pos): (r: seq<Entry<Ingredient>>)
    ensures |r| == |recipe|
    ensures forall j | 0 <= j < |r| :: r[j] == Entry(recipe[j].ingredient, recipe[j].quantity * quantity)
  {
    Map(recipe, (c: Component) => Entry(c.ingredient, c.quantity * quantity))
  }

  function Needs(recipes: Recipes, lines: seq<Line>): seq<Entry<Ingredient>> {
    if lines == [] then []
    else
      var l := lines[|lines| - 1];
      Needs(recipes, lines[..|lines| - 1]) + LineEntries(RecipeOf(recipes, l.product), l.quantity)
  }

  /** The product lines insert passes on: combos expanded into their components. */
  function ExpandItems(items: seq<OrderItem>): seq<Line> {
    if items == [] then []
    else ExpandItems(items[..|items| - 1]) + match items[|items| - 1]
                                             case ProductItem(p, q) => [Line(p, q)]
                                             case ComboItem(cs, q) => Map(cs, ScaledBy(q))
  }

  /** A combo's component, for q combos. */
  function ScaledBy(q: Pos): Line -> Line { (c: Line) => Line(c.product, Times(c.quantity, q)) }

  function Times(a: Pos, b: Pos): Pos { assert a * b >= a; a * b }

  /** The lines a resumed hold passes on: only those with a product id. */
  function ProductLines(items: seq<OrderItem>): seq<Line> {
    if items == [] then []
    else ProductLines(items[..|items| - 1]) + match items[|items| - 1]
                                              case ProductItem(p, q) => [Line(p, q)]
                                              case ComboItem(_, _) => []
  }

  // -------------------------------------------------------------- depletion

  /** The batches of an item as allocateFefo sees them. */
  function View(rows: seq<Movement>, batches: seq<Batch>, item: Ingredient, n: nat): seq<Fefo.LiveBatch>
    requires n <= |batches|
  {
    if n == 0 then []
    else
      var b := batches[n - 1];
      View(rows, batches, item, n - 1)
      + if b.item == item then [Fefo.LiveBatch(n - 1, Remaining(rows, n - 1), b.expiresAt, b.createdAt)] else []
  }

  function RawRow(prepared: set<Ingredient>, t: Tally<Ingredient>, o: OrderId): Ingredient -> seq<Movement> {
    (i: Ingredient) => if i in prepared then [] else [Movement(i, CONSUMPTION, -Total(t, i), Some(o), None)]
  }

  function AllocRow(i: Ingredient, o: OrderId): Fefo.Alloc -> Movement {
    (a: Fefo.Alloc) => Movement(i, CONSUMPTION, -a.quantity, Some(o), a.batch)
  }

  function PreparedRows(l: Ledger, t: Tally<Ingredient>, o: OrderId, now: int): Ingredient -> seq<Movement> {
    (i: Ingredient) => Map(Fefo.Allocate(View(l.rows, l.batches, i, |l.batches|), Total(t, i), now), AllocRow(i, o))
  }

  function IsPrepared(prepared: set<Ingredient>): Ingredient -> bool { (i: Ingredient) => i in prepared }

  function DepletionRows(l: Ledger, o: OrderId, lines: seq<Line>, now: int): seq<Movement> {
    var t := TallyOf(Needs(l.recipes, lines));
    Emit(t.keys, RawRow(l.prepared, t, o)) + Emit(Filter(t.keys, IsPrepared(l.prepared)), PreparedRows(l, t, o, now))
  }

  // ---------------------------------------------------------------- restock

  function Consumed(o: OrderId): Movement -> bool { (m: Movement) => m.order == Some(o) && m.kind == CONSUMPTION }

  function GivenBack(): Movement -> Entry<Key> { (m: Movement) => Entry((m.ingredient, m.batch), -m.quantity) }

  function ReturnRow(t: Tally<Key>, o: OrderId): Key -> seq<Movement> {
    (k: Key) => if Total(t, k) == 0 then [] else [Movement(k.0, ADJUSTMENT, Total(t, k), Some(o), k.1)]
  }

  function RestockRows(rows: seq<Movement>, o: OrderId): seq<Movement> {
    var t := TallyOf(Map(Filter(rows, Consumed(o)), GivenBack()));
    Emit(t.keys, ReturnRow(t, o))
  }

  // ------------------------------------------------------------ preparation

  predicate DistinctComponents(cs: seq<Component>) {
    forall i, j | 0 <= i < j < |cs| :: cs[i].ingredient != cs[j].ingredient
  }

  predicate Contains(cs: seq<Component>, i: Ingredient) {
    exists k :: 0 <= k < |cs| && cs[k].ingredient == i
  }

  /** A prepared item whose recipe lists i. */
  predicate Uses(recipes: PrepRecipes, item: Ingredient, i: Ingredient) {
    item in recipes && Contains(recipes[item].components, i)
  }

  /** Some listed component is made from the item itself. */
  predicate Reciprocal(recipes: PrepRecipes, item: Ingredient, cs: seq<Component>) {
    exists k :: 0 <= k < |cs| && Uses(recipes, cs[k].ingredient, item)
  }

  /** The components setRecipe lets an item have. */
  predicate Accepts(recipes: PrepRecipes, item: Ingredient, cs: seq<Component>) {
    DistinctComponents(cs) && !Contains(cs, item) && !Reciprocal(recipes, item, cs)
  }

  function Scaled(c: Component, standard: Pos, planned: Pos): int { RoundDiv(c.quantity * planned, standard) }

  /** scaleComponents, without the components that round to nothing. */
  function ScaleComponents(cs: seq<Component>, standard: Pos, planned: Pos): seq<Component> {
    if cs == [] then []
    else
      var q := Scaled(cs[|cs| - 1], standard, planned);
      ScaleComponents(cs[..|cs| - 1], standard, planned) + if q > 0 then [Component(cs[|cs| - 1].ingredient, q)] else []
  }

  predicate Short(rows: seq<Movement>, cs: seq<Component>) {
    exists j :: 0 <= j < |cs| && Stock(rows, cs[j].ingredient) < cs[j].quantity
  }

  function PrepRow(b: BatchId): Component -> Movement {
    (c: Component) => Movement(c.ingredient, PREP_BATCH, -(c.quantity as int), None, Some(b))
  }

  function BatchRows(cs: seq<Component>, item: Ingredient, actual: nat, b: BatchId): seq<Movement> {
    Map(cs, PrepRow(b)) + if actual > 0 then [Movement(item, PREP_OUTPUT, actual, None, Some(b))] else []
  }

  // ------------------------------------------------------------------ steps

  datatype Action =
    | Append(ingredient: Ingredient, kind: Kind, quantity: int) // purchase, waste, adjustment, count
    | SetRecipe(product: Product, recipe: seq<Component>)
    | SetPrepRecipe(item: Ingredient, prepRecipe: PrepRecipe)
    | Create(items: seq<OrderItem>, held: bool, now: int)
    | SetStatus(order: OrderId, to: Status, now: int)
    | Prepare(item: Ingredient, planned: Pos, actual: nat, expiresAt: Option<int>, now: int)
    | WasteBatch(batch: BatchId, amount: Pos)

  /** The row of a new order, before it is placed. */
  function Drafted(l: Ledger, items: seq<OrderItem>): Ledger { l.(orders := l.orders + [Order(DRAFT, items, None)]) }

  function Place(l: Ledger, o: OrderId, lines: seq<Line>, now: int): Ledger
    requires o < |l.orders|
  {
    l.(rows := l.rows + DepletionRows(l, o, lines, now),
       orders := l.orders[o := l.orders[o].(status := PLACED, placement := Some(Placement(l.recipes, lines, now)))])
  }

  function Step(l: Ledger, a: Action): Ledger {
    match a
    case Append(i, kind, q) =>
      if kind !in {PURCHASE, WASTE, ADJUSTMENT} || q == 0 then l
      else l.(rows := l.rows + [Movement(i, kind, q, None, None)])
    case SetRecipe(p, recipe) => l.(recipes := l.recipes[p := recipe])
    case SetPrepRecipe(item, r) =>
      if item in l.prepared && Accepts(l.prepRecipes, item, r.components) then l.(prepRecipes := l.prepRecipes[item := r]) else l
    case Create(items, held, now) =>
      if held then Drafted(l, items) else Place(Drafted(l, items), |l.orders|, ExpandItems(items), now)
    case SetStatus(o, to, now) =>
      if o >= |l.orders| || !CanTransition(l.orders[o].status, to) then l
      else if l.orders[o].status == DRAFT && to == PLACED then Place(l, o, ProductLines(l.orders[o].items), now)
      else
        l.(orders := l.orders[o := l.orders[o].(status := to)],
           rows := l.rows + if Reversing(to) then RestockRows(l.rows, o) else [])
    case Prepare(item, planned, actual, expiresAt, now) =>
      if item !in l.prepared || item !in l.prepRecipes || l.prepRecipes[item].components == [] then l
      else
        var cs := ScaleComponents(l.prepRecipes[item].components, l.prepRecipes[item].standardYield, planned);
        if Short(l.rows, cs) then l
        else l.(batches := l.batches + [Batch(item, actual, expiresAt, now)], rows := l.rows + BatchRows(cs, item, actual, |l.batches|))
    case WasteBatch(b, q) =>
      if b >= |l.batches| || q > Remaining(l.rows, b) then l
      else l.(rows := l.rows + [Movement(l.batches[b].item, WASTE, -(q as int), None, Some(b))])
  }

  function Steps(): (Ledger, Action) -> Ledger { (l: Ledger, a: Action) => Step(l, a) }

  function Run(l: Ledger, acts: seq<Action>): Ledger { RunOf(Steps(), l, acts) }

  function Empty(prepared: set<Ingredient>): Ledger { Ledger([], [], [], map[], map[], prepared) }

  // -------------------------------------------------------------- invariant

  /** Rows tagged with b, leaving out the orders in R. */
  function OfBatchWithout(b: BatchId, R: set<OrderId>): Movement -> bool {
    (m: Movement) => m.batch == Some(b) && m.kind != PREP_BATCH && !(m.order.Some? && m.order.value in R)
  }

  function RemainingWithout(rows: seq<Movement>, b: BatchId, R: set<OrderId>): int {
    Sum(rows, Weigh(OfBatchWithout(b, R)))
  }

  predicate RowOk(l: Ledger, m: Movement) {
    && (m.batch.Some? ==> m.batch.value < |l.batches|)
    && (m.batch.Some? && m.kind != PREP_BATCH ==> m.ingredient == l.batches[m.batch.value].item)
    && (m.kind == PREP_BATCH ==> m.batch.Some? && m.order.None?)
    && (m.order.Some? ==> m.order.value < |l.orders| && m.kind in {CONSUMPTION, ADJUSTMENT})
    && (m.kind == CONSUMPTION ==> m.order.Some? && m.quantity < 0)
  }

  ghost predicate RowsOk(l: Ledger) { forall m | m in l.rows :: RowOk(l, m) }

  /** Every row of the order so far is a consumption row. */
  ghost predicate OnlyConsumed(rows: seq<Movement>, o: OrderId) {
    forall m | m in rows && m.order == Some(o) :: m.kind == CONSUMPTION
  }

  ghost predicate OrderOk(l: Ledger, o: OrderId)
    requires o < |l.orders|
  {
    var order := l.orders[o];
    match order.status
    case DRAFT => order.placement.None? && forall m | m in l.rows :: m.order != Some(o)
    case CANCELLED => forall p :: Net(l.rows, o, p) == 0
    case VOIDED => forall p :: Net(l.rows, o, p) == 0
    case _ =>
      order.placement.Some? && OnlyConsumed(l.rows, o)
      && forall i :: Net(l.rows, o, AtIngredient(i)) == -Expansion(order.placement.value.recipes, order.placement.value.lines, i)
  }

  ghost predicate OrdersOk(l: Ledger) { forall o | 0 <= o < |l.orders| :: OrderOk(l, o) }

  ghost predicate BatchOk(l: Ledger, b: BatchId)
    requires b < |l.batches|
  {
    0 <= Remaining(l.rows, b) && forall R: set<OrderId> :: RemainingWithout(l.rows, b, R) <= l.batches[b].actual
  }

  ghost predicate BatchesOk(l: Ledger) { forall b | 0 <= b < |l.batches| :: BatchOk(l, b) }

  ghost predicate Inv(l: Ledger) { RowsOk(l) && OrdersOk(l) && BatchesOk(l) }
}
