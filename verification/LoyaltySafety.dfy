/** What every interleaving of loyalty requests keeps. */
module LoyaltySafety {
  import opened Options
  import opened Sums
  import opened LoyaltyLedger

  lemma AppendRow(rows: seq<Entry>, e: Entry, c: Customer)
    ensures BeforeRefunds(rows + [e], c) == BeforeRefunds(rows, c) + OfCustomerSpendable(c)(e)
    ensures Balance(rows + [e], c) == Balance(rows, c) + OfCustomer(c)(e)
  {
    SumAppend(rows, [e], OfCustomerSpendable(c));
    SumOne(e, OfCustomerSpendable(c));
    SumAppend(rows, [e], OfCustomer(c));
    SumOne(e, OfCustomer(c));
  }

  /** Only refund reversals separate the two balances, and they are debits. */
  lemma BalanceIsLower(s: State, c: Customer)
    requires RowsOk(s)
    ensures Balance(s.rows, c) <= BeforeRefunds(s.rows, c)
  {
    forall e | e in s.rows ensures OfCustomer(c)(e) <= OfCustomerSpendable(c)(e) {
      assert RowOk(s.rows, e);
      if e.kind == REFUND_REVERSAL {
        var x :| x in s.rows && Undoes(e, EarnLeg, x);
        assert RowOk(s.rows, x);
      }
    }
    SumAtMost(s.rows, OfCustomer(c), OfCustomerSpendable(c));
  }

  /** The row a request at its commit asks for. */
  function Wanted(s: State, a: Action): Option<Entry> {
    match a
    case CommitDebit(r) => if r in s.requests && s.requests[r].Covered? then Some(s.requests[r].debit) else None
    case CommitEarn(r) => if r in s.requests && s.requests[r].Earning? then Some(s.requests[r].earn) else None
    case CommitUndo(r) =>
      if r in s.requests && s.requests[r].UndoClear? then Some(UndoRow(s.requests[r].leg, s.requests[r].original)) else None
    case _ => None
  }

  /** The row a transaction commits, if it commits one. */
  function Committed(s: State, a: Action): Option<Entry> {
    var e := Wanted(s, a);
    if e.Some? && Unique(s.rows, e.value) && !Blocked(s, a.r, e.value.customer) then e else None
  }

  lemma StepCommits(s: State, a: Action)
    ensures Step(s, a).rows == s.rows + if Committed(s, a).Some? then [Committed(s, a).value] else []
    ensures Committed(s, a).Some? ==> Unique(s.rows, Committed(s, a).value)
  {
  }

  /**
   * A request at its commit writes its row exactly when no other transaction
   * holds the customer's row, the order has no row of the kind yet, and no row
   * carries the key.
   */
  lemma WritesIff(s: State, a: Action)
    requires Wanted(s, a).Some?
    ensures var e := Wanted(s, a).value;
            Step(s, a).rows == s.rows + [e] <==>
              && (e.customer in s.locks ==> s.locks[e.customer] == a.r)
              && (e.order.Some? ==> forall x | x in s.rows :: !(x.order == e.order && x.kind == e.kind))
              && (e.key.Some? ==> forall x | x in s.rows :: x.key != e.key)
  {
    var e := Wanted(s, a).value;
    if e.order.Some? {
      assert HasRow(s.rows, e.order.value, e.kind) <==> exists x :: x in s.rows && x.order == e.order && x.kind == e.kind by {
        if x :| x in s.rows && x.order == e.order && x.kind == e.kind { var i :| 0 <= i < |s.rows| && s.rows[i] == x; }
      }
    }
    if e.key.Some? {
      assert HasKey(s.rows, e.key.value) <==> exists x :: x in s.rows && x.key == e.key by {
        if x :| x in s.rows && x.key == e.key { var i :| 0 <= i < |s.rows| && s.rows[i] == x; }
      }
    }
  }

  lemma CommittedRowOk(s: State, a: Action)
    requires Inv(s) && Committed(s, a).Some?
    ensures RowOk(s.rows, Committed(s, a).value)
  {
    var e := Committed(s, a).value;
    match a
    case CommitDebit(r) => assert RequestOk(s, r, s.requests[r]);
    case CommitEarn(r) => assert RequestOk(s, r, s.requests[r]);
    case CommitUndo(r) =>
      assert RequestOk(s, r, s.requests[r]);
      assert Undoes(e, s.requests[r].leg, s.requests[r].original);
  }

  lemma StepKeepsRows(s: State, a: Action)
    requires Inv(s)
    ensures RowsOk(Step(s, a))
  {
    var s' := Step(s, a);
    StepCommits(s, a);
    forall e | e in s'.rows ensures RowOk(s'.rows, e) {
      if e in s.rows { assert RowOk(s.rows, e); } else { CommittedRowOk(s, a); }
    }
  }

  lemma StepKeepsDistinct(s: State, a: Action)
    requires Inv(s)
    ensures Distinct(Step(s, a).rows)
  {
    StepCommits(s, a);
    var rows, rows' := s.rows, Step(s, a).rows;
    if Committed(s, a).Some? {
      var n, e := |rows|, Committed(s, a).value;
      forall i, j | 0 <= i < j < |rows'|
        ensures rows'[i].order.Some? && rows'[i].order == rows'[j].order ==> rows'[i].kind != rows'[j].kind
        ensures rows'[i].key.Some? ==> rows'[i].key != rows'[j].key
      {
        if j == n && rows[i].order.Some? && rows[i].order == e.order { assert !HasRow(rows, e.order.value, e.kind); }
      }
    }
  }

  /** How much a committed row can lower a customer's spendable sum. */
  lemma CommittedIsCovered(s: State, a: Action, c: Customer)
    requires Inv(s) && Committed(s, a).Some?
    ensures BeforeRefunds(s.rows, c) + OfCustomerSpendable(c)(Committed(s, a).value) >= 0
    ensures !a.CommitDebit? ==> OfCustomerSpendable(c)(Committed(s, a).value) >= 0
    ensures a.CommitDebit? ==> HoldsLock(s, a.r, Committed(s, a).value.customer)
  {
    assert BeforeRefunds(s.rows, c) >= 0;
    match a
    case CommitDebit(r) =>
      assert RequestOk(s, r, s.requests[r]);
      BalanceIsLower(s, Committed(s, a).value.customer);
    case CommitEarn(r) => assert RequestOk(s, r, s.requests[r]);
    case CommitUndo(r) =>
      assert RequestOk(s, r, s.requests[r]);
      assert RowOk(s.rows, s.requests[r].original);
  }

  lemma StepKeepsSolvent(s: State, a: Action)
    requires Inv(s)
    ensures Solvent(Step(s, a).rows)
  {
    StepCommits(s, a);
    forall c ensures BeforeRefunds(Step(s, a).rows, c) >= 0 {
      assert BeforeRefunds(s.rows, c) >= 0;
      if Committed(s, a).Some? {
        CommittedIsCovered(s, a, c);
        AppendRow(s.rows, Committed(s, a).value, c);
      }
    }
  }

  /** Under a customer's lock nobody else writes a row of the customer. */
  lemma LockProtects(s: State, a: Action, r: RequestId, c: Customer)
    requires HoldsLock(s, r, c) && a.r != r
    ensures Balance(Step(s, a).rows, c) == Balance(s.rows, c) && BeforeRefunds(Step(s, a).rows, c) == BeforeRefunds(s.rows, c)
    ensures HoldsLock(Step(s, a), r, c)
  {
    StepCommits(s, a);
    if Committed(s, a).Some? { AppendRow(s.rows, Committed(s, a).value, c); } else { assert s.rows + [] == s.rows; }
  }

  lemma StepKeepsCovered(s: State, a: Action)
    requires Inv(s)
    ensures DebitsCovered(Step(s, a).rows)
  {
    StepCommits(s, a);
    var rows := Step(s, a).rows;
    forall i | 0 <= i < |rows| && IsDebit(rows[i]) ensures Balance(rows[..i + 1], rows[i].customer) >= 0 {
      if i < |s.rows| {
        assert rows[..i + 1] == s.rows[..i + 1];
      } else {
        assert rows[..i + 1] == s.rows + [rows[i]];
        AppendRow(s.rows, rows[i], rows[i].customer);
        CommittedDebit(s, a);
      }
    }
  }

  /** A committed debit comes from a request whose balance read covered it, under the lock. */
  lemma CommittedDebit(s: State, a: Action)
    requires Inv(s) && Committed(s, a).Some? && IsDebit(Committed(s, a).value)
    ensures a.CommitDebit? && HoldsLock(s, a.r, Committed(s, a).value.customer)
    ensures Balance(s.rows, Committed(s, a).value.customer) + Committed(s, a).value.points >= 0
  {
    assert RequestOk(s, a.r, s.requests[a.r]);
  }

  lemma StepKeepsRequest(s: State, a: Action, r: RequestId)
    requires Inv(s) && r in s.requests && r in Step(s, a).requests && Step(s, a).requests[r] == s.requests[r]
    ensures RequestOk(Step(s, a), r, s.requests[r])
  {
    assert RequestOk(s, r, s.requests[r]);
    StepCommits(s, a);
    if s.requests[r].Covered? {
      if a.r != r { LockProtects(s, a, r, s.requests[r].debit.customer); } else { assert Committed(s, a).None?; }
    }
  }

  lemma StepMovesRequest(s: State, a: Action, r: RequestId)
    requires Inv(s) && r in Step(s, a).requests && (r in s.requests ==> Step(s, a).requests[r] != s.requests[r])
    ensures RequestOk(Step(s, a), r, Step(s, a).requests[r])
  {
    if r in s.requests {
      assert RequestOk(s, r, s.requests[r]);
    }
  }

  lemma StepKeepsInv(s: State, a: Action)
    requires Inv(s)
    ensures Inv(Step(s, a))
  {
    StepKeepsRows(s, a);
    StepKeepsDistinct(s, a);
    StepKeepsSolvent(s, a);
    StepKeepsCovered(s, a);
    forall r | r in Step(s, a).requests ensures RequestOk(Step(s, a), r, Step(s, a).requests[r]) {
      if r in s.requests && s.requests[r] == Step(s, a).requests[r] {
        StepKeepsRequest(s, a, r);
      } else {
        StepMovesRequest(s, a, r);
      }
    }
  }

  lemma {:induction false} RunKeepsInv(s: State, acts: seq<Action>)
    requires Inv(s)
    ensures Inv(Run(s, acts))
    decreases |acts|
  {
    if acts != [] {
      StepKeepsInv(s, acts[0]);
      RunKeepsInv(Step(s, acts[0]), acts[1..]);
    }
  }

  lemma ReachableInv(acts: seq<Action>)
    ensures Inv(Run(Initial(), acts))
  {
    RunKeepsInv(Initial(), acts);
  }

  // ----------------------------------------------------------- main results

  /**
   * In every interleaving the sum of a customer's rows other than refund
   * reversals is never negative, so a balance is only ever negative by points
   * that refunds have unwound.
   */
  lemma NeverOverspent(acts: seq<Action>, c: Customer)
    ensures var rows := Run(Initial(), acts).rows;
            BeforeRefunds(rows, c) >= 0 && Balance(rows, c) >= Sum(rows, OfRefunds(c))
  {
    var s := Run(Initial(), acts);
    ReachableInv(acts);
    assert BeforeRefunds(s.rows, c) >= 0;
    SumSplit(s.rows, OfCustomer(c), OfCustomerSpendable(c), OfRefunds(c));
  }

  function OfRefunds(c: Customer): Entry -> int {
    (e: Entry) => if e.customer == c && e.kind == REFUND_REVERSAL then e.points else 0
  }

  function RowsFor(rows: seq<Entry>, o: OrderId, k: Kind): nat {
    if rows == [] then 0
    else RowsFor(rows[..|rows| - 1], o, k)
         + if rows[|rows| - 1].order == Some(o) && rows[|rows| - 1].kind == k then 1 else 0
  }

  lemma {:induction false} CountFromDistinct(rows: seq<Entry>, o: OrderId, k: Kind)
    requires Distinct(rows)
    ensures RowsFor(rows, o, k) == if HasRow(rows, o, k) then 1 else 0
  {
    if rows != [] {
      var n := |rows| - 1;
      CountFromDistinct(rows[..n], o, k);
      if HasRow(rows[..n], o, k) {
        var i :| 0 <= i < n && rows[..n][i].order == Some(o) && rows[..n][i].kind == k;
        assert rows[i].order == Some(o);
      }
      if HasRow(rows, o, k) && !(rows[n].order == Some(o) && rows[n].kind == k) {
        var i :| 0 <= i < |rows| && rows[i].order == Some(o) && rows[i].kind == k;
        assert rows[..n][i] == rows[i];
      }
    }
  }

  /** However calls are retried or raced, an order has at most one row of a kind. */
  lemma AtMostOneRow(acts: seq<Action>, o: OrderId, k: Kind)
    ensures RowsFor(Run(Initial(), acts).rows, o, k) <= 1
  {
    ReachableInv(acts);
    CountFromDistinct(Run(Initial(), acts).rows, o, k);
  }

  function OfOrderKind(o: OrderId, k: Kind, c: Customer): Entry -> int {
    (e: Entry) => if e.order == Some(o) && e.kind == k && e.customer == c then e.points else 0
  }

  /** What an order's rows of a kind give one customer. */
  function Points(rows: seq<Entry>, o: OrderId, k: Kind, c: Customer): int { Sum(rows, OfOrderKind(o, k, c)) }

  lemma {:induction false} NoPointsWithoutRow(rows: seq<Entry>, o: OrderId, k: Kind, c: Customer)
    requires !HasRow(rows, o, k)
    ensures Points(rows, o, k, c) == 0
  {
    if rows != [] {
      var n := |rows| - 1;
      assert forall i | 0 <= i < n :: rows[..n][i] == rows[i];
      NoPointsWithoutRow(rows[..n], o, k, c);
    }
  }

  /** With one row per order and kind, that row's points are all there are, and they are its customer's. */
  lemma {:induction false} PointsOfRow(rows: seq<Entry>, o: OrderId, k: Kind, i: nat, c: Customer)
    requires Distinct(rows) && i < |rows| && rows[i].order == Some(o) && rows[i].kind == k
    ensures Points(rows, o, k, c) == if rows[i].customer == c then rows[i].points else 0
  {
    var n := |rows| - 1;
    assert forall j | 0 <= j < n :: rows[..n][j] == rows[j];
    if i < n { PointsOfRow(rows[..n], o, k, i, c); } else { NoPointsWithoutRow(rows[..n], o, k, c); }
  }

  /** A reversal row stands for exactly one original row, which is still there. */
  lemma UndoneRow(rows: seq<Entry>, o: OrderId, leg: Leg)
    requires Distinct(rows) && (forall e | e in rows :: RowOk(rows, e)) && HasRow(rows, o, Undo(leg))
    ensures HasRow(rows, o, Original(leg))
            && RowOf(rows, o, Undo(leg)).value == UndoRow(leg, RowOf(rows, o, Original(leg)).value)
  {
    var e := RowOf(rows, o, Undo(leg)).value;
    assert RowOk(rows, e);
    var x :| x in rows && Undoes(e, leg, x);
    var i :| 0 <= i < |rows| && rows[i] == x;
    assert HasRow(rows, o, Original(leg));
    var y := RowOf(rows, o, Original(leg)).value;
    var j :| 0 <= j < |rows| && rows[j] == y;
    assert i == j;
  }

  /**
   * A reversal is the exact negation of an original that is still there, for the
   * same customer; so every customer's points of the two cancel.
   */
  lemma ReversalNegates(acts: seq<Action>, o: OrderId, leg: Leg, c: Customer)
    requires HasRow(Run(Initial(), acts).rows, o, Undo(leg))
    ensures var rows := Run(Initial(), acts).rows;
            HasRow(rows, o, Original(leg))
            && RowOf(rows, o, Undo(leg)).value == UndoRow(leg, RowOf(rows, o, Original(leg)).value)
            && Points(rows, o, Undo(leg), c) == -Points(rows, o, Original(leg), c)
  {
    var rows := Run(Initial(), acts).rows;
    ReachableInv(acts);
    UndoneRow(rows, o, leg);
    RowsPoints(rows, o, Undo(leg), c);
    RowsPoints(rows, o, Original(leg), c);
  }

  lemma RowsPoints(rows: seq<Entry>, o: OrderId, k: Kind, c: Customer)
    requires Distinct(rows) && HasRow(rows, o, k)
    ensures var e := RowOf(rows, o, k).value; Points(rows, o, k, c) == if e.customer == c then e.points else 0
  {
    var e := RowOf(rows, o, k).value;
    assert e in rows && e.order == Some(o) && e.kind == k;
    var i :| 0 <= i < |rows| && rows[i] == e;
    PointsOfRow(rows, o, k, i, c);
  }

  function OfOrder(o: OrderId, c: Customer): Entry -> int {
    (e: Entry) => if e.order == Some(o) && e.customer == c then e.points else 0
  }

  predicate IsStatusType(k: Kind) { k in {EARN, REFUND_REVERSAL, ADJUST} }

  function OfOrderStatus(o: OrderId, c: Customer): Entry -> int {
    (e: Entry) => if e.order == Some(o) && e.customer == c && IsStatusType(e.kind) then e.points else 0
  }

  function Plus(u: Entry -> int, v: Entry -> int): Entry -> int { (e: Entry) => u(e) + v(e) }

  /** What an order gives a customer is what its two legs and their reversals give. */
  lemma OrderSplits(s: State, o: OrderId, c: Customer)
    requires RowsOk(s)
    ensures Sum(s.rows, OfOrder(o, c))
            == Points(s.rows, o, EARN, c) + Points(s.rows, o, REFUND_REVERSAL, c)
               + Points(s.rows, o, REDEEM, c) + Points(s.rows, o, REDEEM_REVERSAL, c)
    ensures Sum(s.rows, OfOrderStatus(o, c)) == Points(s.rows, o, EARN, c) + Points(s.rows, o, REFUND_REVERSAL, c)
  {
    var earned := Plus(OfOrderKind(o, EARN, c), OfOrderKind(o, REFUND_REVERSAL, c));
    var spent := Plus(OfOrderKind(o, REDEEM, c), OfOrderKind(o, REDEEM_REVERSAL, c));
    forall e | e in s.rows ensures OfOrder(o, c)(e) == earned(e) + spent(e) && OfOrderStatus(o, c)(e) == earned(e) {
      assert RowOk(s.rows, e);
    }
    SumSplit(s.rows, OfOrder(o, c), earned, spent);
    SumEqual(s.rows, OfOrderStatus(o, c), earned);
    SumSplit(s.rows, earned, OfOrderKind(o, EARN, c), OfOrderKind(o, REFUND_REVERSAL, c));
    SumSplit(s.rows, spent, OfOrderKind(o, REDEEM, c), OfOrderKind(o, REDEEM_REVERSAL, c));
  }

  /** A fully refunded order leaves no trace in any customer's balance or lifetime-earned. */
  lemma ReversedOrderIsNeutral(acts: seq<Action>, o: OrderId, c: Customer)
    requires var rows := Run(Initial(), acts).rows;
             (HasRow(rows, o, EARN) ==> HasRow(rows, o, REFUND_REVERSAL)) && (HasRow(rows, o, REDEEM) ==> HasRow(rows, o, REDEEM_REVERSAL))
    ensures var rows := Run(Initial(), acts).rows;
            Sum(rows, OfOrder(o, c)) == 0 && Sum(rows, OfOrderStatus(o, c)) == 0
  {
    var s := Run(Initial(), acts);
    ReachableInv(acts);
    OrderSplits(s, o, c);
    LegIsNeutral(acts, o, EarnLeg, c);
    LegIsNeutral(acts, o, RedeemLeg, c);
  }

  lemma LegIsNeutral(acts: seq<Action>, o: OrderId, leg: Leg, c: Customer)
    requires HasRow(Run(Initial(), acts).rows, o, Original(leg)) ==> HasRow(Run(Initial(), acts).rows, o, Undo(leg))
    ensures Points(Run(Initial(), acts).rows, o, Original(leg), c) + Points(Run(Initial(), acts).rows, o, Undo(leg), c) == 0
  {
    var rows := Run(Initial(), acts).rows;
    ReachableInv(acts);
    if HasRow(rows, o, Undo(leg)) {
      ReversalNegates(acts, o, leg, c);
    } else {
      NoPointsWithoutRow(rows, o, Original(leg), c);
      NoPointsWithoutRow(rows, o, Undo(leg), c);
    }
  }

  // -------------------------------------------- when a balance drops below zero

  /** In every run each debit, where it stands in the ledger, left its customer at zero or more. */
  lemma DebitsNeverOverdraw(acts: seq<Action>, i: nat)
    requires i < |Run(Initial(), acts).rows| && IsDebit(Run(Initial(), acts).rows[i])
    ensures var rows := Run(Initial(), acts).rows;
            Balance(rows[..i + 1], rows[i].customer) >= 0
  {
    ReachableInv(acts);
  }

  lemma CommitMovesBalance(s: State, a: Action, c: Customer)
    ensures Balance(Step(s, a).rows, c)
            == Balance(s.rows, c) + if Committed(s, a).Some? && Committed(s, a).value.customer == c then Committed(s, a).value.points else 0
  {
    StepCommits(s, a);
    if Committed(s, a).Some? { AppendRow(s.rows, Committed(s, a).value, c); } else { assert s.rows + [] == s.rows; }
  }

  /** r is about to append the reversal of what order o earned, and nothing stops it. */
  predicate Reverses(s: State, r: RequestId, earned: Entry) {
    && r in s.requests && s.requests[r] == UndoClear(EarnLeg, earned)
    && Unique(s.rows, UndoRow(EarnLeg, earned)) && !Blocked(s, r, earned.customer)
  }

  /**
   * Exactly which steps take a balance below zero: the reversals of earned points
   * of which less is left. No debit, earning or restored redemption ever does.
   */
  lemma DropsBelowZeroIff(s: State, a: Action, c: Customer)
    requires Inv(s) && Balance(s.rows, c) >= 0
    ensures Balance(Step(s, a).rows, c) < 0
            <==> a.CommitUndo? && exists earned :: Reverses(s, a.r, earned) && earned.customer == c && Balance(s.rows, c) < earned.points
  {
    CommitMovesBalance(s, a, c);
    if Committed(s, a).Some? {
      CommittedRowOk(s, a);
      if IsDebit(Committed(s, a).value) { CommittedDebit(s, a); }
      if a.CommitUndo? && s.requests[a.r].leg.EarnLeg? { assert Reverses(s, a.r, s.requests[a.r].original); }
      if a.CommitUndo? { assert RequestOk(s, a.r, s.requests[a.r]) && RowOk(s.rows, s.requests[a.r].original); }
    }
  }

  predicate Elsewhere(acts: seq<Action>, r: RequestId) { forall i | 0 <= i < |acts| :: acts[i].r != r }

  /** While r holds c's lock, c's balance stays what it was, whatever the others do. */
  lemma {:induction false} LockedRun(s: State, acts: seq<Action>, r: RequestId, c: Customer)
    requires HoldsLock(s, r, c) && Elsewhere(acts, r)
    ensures HoldsLock(Run(s, acts), r, c) && Balance(Run(s, acts).rows, c) == Balance(s.rows, c)
    decreases |acts|
  {
    if acts != [] {
      assert acts[0].r != r;
      LockProtects(s, acts[0], r, c);
      LockedRun(Step(s, acts[0]), acts[1..], r, c);
    }
  }

  ghost predicate BelowSince(rows: seq<Entry>, k: nat, c: Customer)
    requires k < |rows|
  {
    forall j | k < j <= |rows| :: Balance(rows[..j], c) < 0
  }

  /** Where the balance last fell below zero. */
  lemma {:induction false} LastCrossing(rows: seq<Entry>, c: Customer) returns (k: nat)
    requires Balance(rows, c) < 0
    ensures k < |rows| && Balance(rows[..k], c) >= 0 && BelowSince(rows, k, c)
  {
    if rows == [] { assert false; }
    var n := |rows| - 1;
    assert rows[..|rows|] == rows;
    if Balance(rows[..n], c) >= 0 {
      k := n;
    } else {
      k := LastCrossing(rows[..n], c);
      assert rows[..n][..k] == rows[..k];
      forall j | k < j <= |rows| ensures Balance(rows[..j], c) < 0 {
        if j < |rows| { assert rows[..n][..j] == rows[..j]; }
      }
    }
  }

  /**
   * Whenever a balance is negative, it last fell below zero by a refund reversal
   * that found less than the points it takes back, and no debit has been written since.
   */
  lemma NegativeSinceAReversal(acts: seq<Action>, c: Customer)
    requires Balance(Run(Initial(), acts).rows, c) < 0
    ensures var rows := Run(Initial(), acts).rows;
            exists k :: 0 <= k < |rows| && rows[k].customer == c && rows[k].kind == REFUND_REVERSAL
                        && 0 <= Balance(rows[..k], c) < -rows[k].points
                        && forall j | k < j < |rows| && rows[j].customer == c :: !IsDebit(rows[j])
  {
    var s := Run(Initial(), acts);
    var rows := s.rows;
    ReachableInv(acts);
    var k := LastCrossing(rows, c);
    assert rows[..k + 1] == rows[..k] + [rows[k]];
    AppendRow(rows[..k], rows[k], c);
    assert Balance(rows[..k + 1], c) < 0;
    assert RowOk(rows, rows[k]);
    PointsSign(s, rows[k]);
    forall j | k < j < |rows| && rows[j].customer == c ensures !IsDebit(rows[j]) {
      assert Balance(rows[..j + 1], c) < 0;
    }
  }

  lemma PointsSign(s: State, e: Entry)
    requires RowsOk(s) && e in s.rows && e.points < 0
    ensures IsDebit(e) || e.kind == REFUND_REVERSAL
  {
    assert RowOk(s.rows, e);
    if e.kind == REDEEM_REVERSAL {
      var x :| x in s.rows && Undoes(e, RedeemLeg, x);
      assert RowOk(s.rows, x);
    }
  }

  /**
   * An undisturbed refund reversal waits if a debit holds the customer's row.
   * Otherwise it goes through and takes back what was earned, so it leaves the
   * balance negative exactly when less than that is left.
   */
  lemma ReversalOverdrawsIff(s: State, q: RequestId, o: OrderId)
    requires q !in s.requests && HasRow(s.rows, o, EARN) && !HasRow(s.rows, o, REFUND_REVERSAL)
    ensures var e := RowOf(s.rows, o, EARN).value;
            var t := Step(Step(Step(s, ReadOriginal(q, EarnLeg, o)), CheckUndo(q)), CommitUndo(q));
            if Blocked(s, q, e.customer) then t == Goto(s, q, UndoClear(EarnLeg, e))
            else t.rows == s.rows + [UndoRow(EarnLeg, e)] && t.requests == s.requests
                 && (Balance(t.rows, e.customer) < 0 <==> Balance(s.rows, e.customer) < e.points)
  {
    var e := RowOf(s.rows, o, EARN).value;
    AppendRow(s.rows, UndoRow(EarnLeg, e), e.customer);
    var found := Step(s, ReadOriginal(q, EarnLeg, o));
    assert q in found.requests && found.requests[q] == Undoing(EarnLeg, e);
    var clear := Step(found, CheckUndo(q));
    assert q in clear.requests && clear.requests[q] == UndoClear(EarnLeg, e) && clear.rows == s.rows;
    assert clear.requests - {q} == s.requests;
  }

  // ------------------------------------------------------------- client keys

  /** However calls are retried or raced, at most one row carries a client's key. */
  lemma OneRowPerKey(acts: seq<Action>, i: nat, j: nat)
    requires i < |Run(Initial(), acts).rows| && j < |Run(Initial(), acts).rows|
    requires Run(Initial(), acts).rows[i].key == Run(Initial(), acts).rows[j].key != None
    ensures i == j
  {
    ReachableInv(acts);
  }

  /**
   * An undisturbed second debit with a key in use writes nothing. It is
   * answered as a replay exactly if the key is not the empty one, which is
   * stored but never looked up; with that one it gets as far as its append.
   */
  lemma SecondDebitIsAnsweredIff(s: State, r: RequestId, d: Entry)
    requires r !in s.requests && d.customer !in s.locks && IsDebitRequest(d)
    requires d.key.Some? && HasKey(s.rows, d.key.value) && (d.points < 0 ==> Balance(s.rows, d.customer) + d.points >= 0)
    ensures var looked := Step(Step(s, Lock(r, d)), CheckReplay(r));
            var covered := Step(looked, ReadBalance(r));
            && looked.rows == s.rows && (r !in looked.requests <==> d.key != Some(""))
            && (d.key == Some("") ==> r in covered.requests && covered.requests[r] == Covered(d))
            && Step(covered, CommitDebit(r)).rows == s.rows && r !in Step(covered, CommitDebit(r)).requests
  {
  }

  /** No row blocks this one: its order has none of its kind, and its key is on none. */
  ghost predicate IsFresh(rows: seq<Entry>, e: Entry) {
    && (e.order.Some? ==> forall x | x in rows :: !(x.order == e.order && x.kind == e.kind))
    && (e.key.Some? ==> forall x | x in rows :: x.key != e.key)
  }

  lemma FreshIsUnique(rows: seq<Entry>, e: Entry)
    ensures IsFresh(rows, e) <==> Unique(rows, e)
    ensures IsReplay(rows, e.key) ==> !IsFresh(rows, e)
  {
    if e.order.Some? {
      assert HasRow(rows, e.order.value, e.kind) <==> exists x :: x in rows && x.order == e.order && x.kind == e.kind by {
        if x :| x in rows && x.order == e.order && x.kind == e.kind { var i :| 0 <= i < |rows| && rows[i] == x; }
      }
    }
    if e.key.Some? {
      assert HasKey(rows, e.key.value) <==> exists x :: x in rows && x.key == e.key by {
        if x :| x in rows && x.key == e.key { var i :| 0 <= i < |rows| && rows[i] == x; }
      }
    }
  }

  /** A debit nobody interleaves with is written exactly if it is fresh and the balance covers it. */
  lemma UndisturbedDebitIsWrittenIff(s: State, r: RequestId, d: Entry)
    requires r !in s.requests && d.customer !in s.locks && IsDebitRequest(d)
    ensures var t := Step(Step(Step(Step(s, Lock(r, d)), CheckReplay(r)), ReadBalance(r)), CommitDebit(r));
            && r !in t.requests && d.customer !in t.locks
            && t.rows == if IsFresh(s.rows, d) && (d.points < 0 ==> -d.points <= Balance(s.rows, d.customer)) then s.rows + [d] else s.rows
  {
    FreshIsUnique(s.rows, d);
    var locked := Step(s, Lock(r, d));
    assert locked.rows == s.rows && locked.requests[r] == Locked(d) && locked.locks == s.locks[d.customer := r];
    var looked := Step(locked, CheckReplay(r));
    assert looked.rows == s.rows;
    if IsReplay(s.rows, d.key) { return; }
    assert looked == Goto(locked, r, Cleared(d));
    var covered := Step(looked, ReadBalance(r));
    assert covered.rows == s.rows;
  }

  /** An earning nobody interleaves with is written exactly if its order has none yet. */
  lemma UndisturbedEarnIsWrittenIff(s: State, r: RequestId, e: Entry)
    requires r !in s.requests && e.customer !in s.locks && IsEarnRequest(e)
    ensures var t := Step(Step(s, CheckEarn(r, e)), CommitEarn(r));
            r !in t.requests && t.rows == if IsFresh(s.rows, e) then s.rows + [e] else s.rows
  {
    FreshIsUnique(s.rows, e);
  }
}
