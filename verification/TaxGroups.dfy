/** The receipt's GST lines, grouped by rate and split into CGST and SGST. */
module TaxGroups {
  import opened Sums
  import opened StableSort
  import opened Tallies
  import opened OrderPricing

  datatype Group = Group(rate: int, taxable: int, cgst: int, sgst: int)

  function RateTax(): Line -> Entry<int> { (l: Line) => Entry(l.taxRateBp, l.taxMinor) }

  function RateTaxable(): Line -> Entry<int> { (l: Line) => Entry(l.taxRateBp, l.lineTotalMinor) }

  /** Sums per rate, in the order the rates first appear. */
  function TaxByRate(lines: seq<Line>): Tally<int> { TallyOf(Map(lines, RateTax())) }

  function TaxableByRate(lines: seq<Line>): Tally<int> { TallyOf(Map(lines, RateTaxable())) }

  function Ascending(): (int, int) -> bool { (a: int, b: int) => a <= b }

  function Shown(tax: Tally<int>): int -> bool { (rate: int) => rate > 0 && Total(tax, rate) > 0 }

  function ToGroup(tax: Tally<int>, taxable: Tally<int>): int -> Group {
    (rate: int) => Group(rate, Total(taxable, rate), Total(tax, rate) / 2, Total(tax, rate) - Total(tax, rate) / 2)
  }

  /** The rates a receipt shows, in order. */
  function Rates(lines: seq<Line>): seq<int> {
    Sort(Filter(TaxByRate(lines).keys, Shown(TaxByRate(lines))), Ascending())
  }

  function GroupsOf(lines: seq<Line>): seq<Group> {
    Map(Rates(lines), ToGroup(TaxByRate(lines), TaxableByRate(lines)))
  }

  /** taxGroups; one Map of (taxable, tax) pairs is held as two running totals over the same keys. */
  method ComputeTaxGroups(lines: seq<Line>) returns (groups: seq<Group>)
    ensures groups == GroupsOf(lines)
  {
    var tax, taxable := Tally([], map[]), Tally([], map[]);
    var i := 0;
    while i < |lines|
      invariant 0 <= i <= |lines|
      invariant tax == TaxByRate(lines[..i]) && taxable == TaxableByRate(lines[..i])
    {
      ByRateSnoc(lines[..i], lines[i]);
      assert lines[..i + 1] == lines[..i] + [lines[i]];
      taxable := Add(taxable, Entry(lines[i].taxRateBp, lines[i].lineTotalMinor));
      tax := Add(tax, Entry(lines[i].taxRateBp, lines[i].taxMinor));
      i := i + 1;
    }
    assert lines[..|lines|] == lines;
    var rates := Sort(Filter(tax.keys, Shown(tax)), Ascending());
    groups := Map(rates, ToGroup(tax, taxable));
  }

  lemma ByRateSnoc(lines: seq<Line>, l: Line)
    ensures TaxByRate(lines + [l]) == Add(TaxByRate(lines), RateTax()(l))
    ensures TaxableByRate(lines + [l]) == Add(TaxableByRate(lines), RateTaxable()(l))
  {
    assert Map(lines + [l], RateTax()) == Map(lines, RateTax()) + [RateTax()(l)];
    assert Map(lines + [l], RateTaxable()) == Map(lines, RateTaxable()) + [RateTaxable()(l)];
    TallyAdd(Map(lines, RateTax()), RateTax()(l));
    TallyAdd(Map(lines, RateTaxable()), RateTaxable()(l));
  }

  // ----------------------------------------------------------- what is printed

  function Both(): Group -> int { (g: Group) => g.cgst + g.sgst }

  /** All the GST a receipt prints. */
  function PrintedGst(lines: seq<Line>): int { Sum(GroupsOf(lines), Both()) }

  function Any(): int -> bool { (rate: int) => true }

  lemma {:induction false} SumMapEntries(lines: seq<Line>, f: Line -> Entry<int>, p: int -> bool, w: Line -> int)
    requires forall l: Line :: w(l) == if p(f(l).key) then f(l).amount else 0
    ensures Sum(Map(lines, f), AmountIf(p)) == Sum(lines, w)
  {
    if lines != [] {
      var n := |lines| - 1;
      SumMapEntries(lines[..n], f, p, w);
      assert Map(lines, f)[..n] == Map(lines[..n], f);
    }
  }

  lemma {:induction false} SumMapGroups(rates: seq<int>, tax: Tally<int>, taxable: Tally<int>)
    ensures Sum(Map(rates, ToGroup(tax, taxable)), Both()) == Sum(rates, TotalIf(tax, Any()))
  {
    if rates != [] {
      var n := |rates| - 1;
      SumMapGroups(rates[..n], tax, taxable);
      assert Map(rates, ToGroup(tax, taxable))[..n] == Map(rates[..n], ToGroup(tax, taxable));
    }
  }

  function TaxAtRate(rate: int): Line -> int { (l: Line) => if l.taxRateBp == rate then l.taxMinor else 0 }

  function TaxableAtRate(rate: int): Line -> int { (l: Line) => if l.taxRateBp == rate then l.lineTotalMinor else 0 }

  lemma TotalsAtRate(lines: seq<Line>, rate: int)
    ensures Total(TaxByRate(lines), rate) == Sum(lines, TaxAtRate(rate))
    ensures Total(TaxableByRate(lines), rate) == Sum(lines, TaxableAtRate(rate))
  {
    TotalIsSum(Map(lines, RateTax()), rate);
    TotalIsSum(Map(lines, RateTaxable()), rate);
    SumMapEntries(lines, RateTax(), IsKey(rate), TaxAtRate(rate));
    SumMapEntries(lines, RateTaxable(), IsKey(rate), TaxableAtRate(rate));
  }

  /** Lines as insert priced them: no negative amounts, and no tax at rate zero. */
  ghost predicate Stored(lines: seq<Line>) {
    forall l | l in lines :: 0 <= l.taxRateBp && 0 <= l.taxMinor && (l.taxRateBp == 0 ==> l.taxMinor == 0)
  }

  lemma PricedLinesAreStored(items: seq<Item>)
    requires forall i | i in items :: i.quantity >= 1 && Sellable(i)
    ensures Stored(LinesOf(items))
  {
    var lines := LinesOf(items);
    forall l | l in lines ensures 0 <= l.taxRateBp && 0 <= l.taxMinor && (l.taxRateBp == 0 ==> l.taxMinor == 0) {
      var k :| 0 <= k < |lines| && lines[k] == l;
      assert items[k] in items;
      LineChecksIff(items[k]);
    }
  }

  /** A group the receipt leaves out carries no tax. */
  lemma DroppedGroupsCarryNoTax(lines: seq<Line>, rate: int)
    requires Stored(lines) && !Shown(TaxByRate(lines))(rate)
    ensures Total(TaxByRate(lines), rate) == 0
  {
    TotalsAtRate(lines, rate);
    SumNonNegative(lines, TaxAtRate(rate));
    if rate <= 0 { SumZero(lines, TaxAtRate(rate)); }
  }

  /** CGST and SGST over all printed groups make up the stored tax exactly. */
  lemma PrintedGstIsStoredTax(lines: seq<Line>)
    requires Stored(lines)
    ensures PrintedGst(lines) == Sum(lines, LineTax())
  {
    var tax := TaxByRate(lines);
    var kept := Filter(tax.keys, Shown(tax));
    SumMapGroups(Rates(lines), tax, TaxableByRate(lines));
    SumSort(kept, Ascending(), TotalIf(tax, Any()));
    forall rate | rate in tax.keys && !Shown(tax)(rate) ensures TotalIf(tax, Any())(rate) == 0 {
      DroppedGroupsCarryNoTax(lines, rate);
    }
    SumFilter(tax.keys, Shown(tax), TotalIf(tax, Any()));
    TallySum(Map(lines, RateTax()), Any());
    SumMapEntries(lines, RateTax(), Any(), LineTax());
  }

  /** So the bill adds up: subtotal less discount plus the printed GST is the total. */
  lemma ReceiptAddsUp(req: Request, ctx: Context, p: Priced)
    requires OrderPricing.WellFormed(req, ctx) && AddsUp(req, p) && InsertChecks(req, p)
    ensures p.subtotalMinor - p.discountMinor + PrintedGst(LinesOf(req.items)) == p.totalMinor
  {
    ChecksRejectIff(req, ctx, p);
    PricedLinesAreStored(req.items);
    PrintedGstIsStoredTax(LinesOf(req.items));
  }

  /** Each printed group: its own lines' sums, split in halves that differ by the odd paisa on SGST. */
  lemma GroupsAreExact(lines: seq<Line>, i: nat)
    requires i < |GroupsOf(lines)|
    ensures var g := GroupsOf(lines)[i];
            g.rate > 0 && g.cgst + g.sgst == Sum(lines, TaxAtRate(g.rate)) > 0
            && g.taxable == Sum(lines, TaxableAtRate(g.rate)) && 0 <= g.sgst - g.cgst <= 1
  {
    var rate := Rates(lines)[i];
    TotalsAtRate(lines, rate);
    RateIsShown(lines, rate);
  }

  lemma RateIsShown(lines: seq<Line>, rate: int)
    ensures rate in Rates(lines) <==> rate > 0 && Sum(lines, TaxAtRate(rate)) > 0
  {
    var tax := TaxByRate(lines);
    InSort(Filter(tax.keys, Shown(tax)), Ascending());
    InFilter(tax.keys, Shown(tax));
    TallyIsWellFormed(Map(lines, RateTax()));
    TotalsAtRate(lines, rate);
  }

  ghost predicate Rising(s: seq<int>) { forall i, j | 0 <= i < j < |s| :: s[i] < s[j] }

  /** One line per rate, lowest rate first. */
  lemma RatesRise(lines: seq<Line>)
    ensures Rising(Rates(lines))
  {
    var kept := Filter(TaxByRate(lines).keys, Shown(TaxByRate(lines)));
    TallyIsWellFormed(Map(lines, RateTax()));
    FilterKeepsDistinct(TaxByRate(lines).keys, Shown(TaxByRate(lines)));
    SortKeepsDistinct(kept, Ascending());
    AscendingIsOrder();
    SortIsSorted(kept, Ascending());
    var r := Rates(lines);
    forall i, j | 0 <= i < j < |r| ensures r[i] < r[j] { assert Ascending()(r[i], r[j]); }
  }

  lemma AscendingIsOrder()
    ensures TotalPreorder(Ascending())
  {
  }
}
