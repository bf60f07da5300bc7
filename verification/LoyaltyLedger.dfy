/**
 * The loyalty ledger as a state machine. Debits lock the customer's row from
 * their first statement to their commit. Credits and reversals take no lock of
 * their own, but a row that refers to a customer shares that customer's row for
 * its foreign key, so its insert waits while a debit holds it. A row becomes
 * visible when its transaction commits, and the unique indexes reject the loser
 * of a race at that moment.
 */
module LoyaltyLedger {
  import opened Keys
  import opened Options
  import opened Traces
  import opened Sums

  type Customer = int
  type OrderId = int
  type ClientKey = string
  type RequestId = int

  datatype Kind = EARN | REDEEM | ADJUST | EXPIRE | REFUND_REVERSAL | REDEEM_REVERSAL

  datatype Entry = Entry(customer: Customer, kind: Kind, points: int, order: Option<OrderId>, key: Option<ClientKey>)

  /** The two entries an order can have, each with the kind that undoes it. */
  datatype Leg = EarnLeg | RedeemLeg

  function Original(leg: Leg): Kind { if leg.EarnLeg? then EARN else REDEEM }

  function Undo(leg: Leg): Kind { if leg.EarnLeg? then REFUND_REVERSAL else REDEEM_REVERSAL }

  datatype Request =
    | Locked(debit: Entry)       // FOR UPDATE returned
    | Cleared(debit: Entry)      // no replay of its key
    | Covered(debit: Entry)      // the balance it read covers it
    | Earning(earn: Entry)       // no EARN row for the order yet
    | Undoing(leg: Leg, original: Entry)     // the original row was read
    | UndoClear(leg: Leg, original: Entry)   // no reversal row yet

  datatype State = State(rows: seq<Entry>, locks: map<Customer, RequestId>, requests: map<RequestId, Request>)

  datatype Action =
    | Lock(r: RequestId, debit: Entry)
    | CheckReplay(r: RequestId)
    | ReadBalance(r: RequestId)
    | CommitDebit(r: RequestId)
    | CheckEarn(r: RequestId, earn: Entry)
    | CommitEarn(r: RequestId)
    | ReadOriginal(r: RequestId, leg: Leg, order: OrderId)
    | CheckUndo(r: RequestId)
    | CommitUndo(r: RequestId)
    | Abort(r: RequestId)

  // ------------------------------------------------------------- aggregates

  function OfCustomer(c: Customer): Entry -> int { (e: Entry) => if e.customer == c then e.points else 0 }

  /** SUM(points) of a customer: the balance. */
  function Balance(rows: seq<Entry>, c: Customer): int { Sum(rows, OfCustomer(c)) }

  function OfCustomerSpendable(c: Customer): Entry -> int {
    (e: Entry) => if e.customer == c && e.kind != REFUND_REVERSAL then e.points else 0
  }

  /** The balance as if no refund had unwound earned points. */
  function BeforeRefunds(rows: seq<Entry>, c: Customer): int { Sum(rows, OfCustomerSpendable(c)) }

  predicate HasRow(rows: seq<Entry>, o: OrderId, k: Kind) {
    exists i :: 0 <= i < |rows| && rows[i].order == Some(o) && rows[i].kind == k
  }

  predicate HasKey(rows: seq<Entry>, key: ClientKey) {
    exists i :: 0 <= i < |rows| && rows[i].key == Some(key)
  }

  /** The lookup of a client's key, which an empty key skips. */
  predicate IsReplay(rows: seq<Entry>, key: Option<ClientKey>) { Usable(key) && HasKey(rows, key.value) }

  /** findFirst of the order's row of a kind. */
  function RowOf(rows: seq<Entry>, o: OrderId, k: Kind): (e: Option<Entry>)
    ensures e.Some? <==> HasRow(rows, o, k)
    ensures e.Some? ==> e.value in rows && e.value.order == Some(o) && e.value.kind == k
  {
    if rows == [] then None
    else if rows[0].order == Some(o) && rows[0].kind == k then Some(rows[0])
    else
      var rest := RowOf(rows[1..], o, k);
      assert HasRow(rows, o, k) ==> HasRow(rows[1..], o, k) by {
        if i :| 0 <= i < |rows| && rows[i].order == Some(o) && rows[i].kind == k { assert rows[1..][i - 1] == rows[i]; }
      }
      assert HasRow(rows[1..], o, k) ==> HasRow(rows, o, k) by {
        if i :| 0 <= i < |rows[1..]| && rows[1..][i].order == Some(o) && rows[1..][i].kind == k { assert rows[i + 1] == rows[1..][i]; }
      }
      rest
  }

  /** The unique indexes (order, type) and idempotency key accept this row. */
  predicate Unique(rows: seq<Entry>, e: Entry) {
    && (e.order.Some? ==> !HasRow(rows, e.order.value, e.kind))
    && (e.key.Some? ==> !HasKey(rows, e.key.value))
  }

  // ------------------------------------------------------------------ steps

  /** What redeem, redeemForOrder and adjust may ask to write. */
  predicate IsDebitRequest(e: Entry) {
    || (e.kind == REDEEM && e.points < 0)
    || (e.kind == ADJUST && e.points != 0 && e.order.None?)
  }

  predicate IsEarnRequest(e: Entry) { e.kind == EARN && e.points > 0 && e.order.Some? && e.key.None? }

  /** The row that undoes an order's original row. */
  function UndoRow(leg: Leg, original: Entry): Entry {
    Entry(original.customer, Undo(leg), -original.points, original.order, None)
  }

  function Goto(s: State, r: RequestId, q: Request): State { s.(requests := s.requests[r := q]) }

  /** End of a transaction: the request is over and its lock, if any, is free. */
  function Finish(s: State, r: RequestId): State {
    s.(requests := s.requests - {r}, locks := map c | c in s.locks && s.locks[c] != r :: s.locks[c])
  }

  /** An insert that refers to c's row has to wait for another transaction's lock on it. */
  predicate Blocked(s: State, r: RequestId, c: Customer) { c in s.locks && s.locks[c] != r }

  /** Insert and commit: rejected by an index at once, else as soon as the customer's row can be shared. */
  function Commit(s: State, r: RequestId, e: Entry): State {
    if !Unique(s.rows, e) then Finish(s, r)
    else if Blocked(s, r, e.customer) then s
    else Finish(s.(rows := s.rows + [e]), r)
  }

  function Step(s: State, a: Action): State {
    match a
    case Lock(r, d) =>
      if r in s.requests || d.customer in s.locks || !IsDebitRequest(d) then s
      else s.(locks := s.locks[d.customer := r], requests := s.requests[r := Locked(d)])
    case CheckReplay(r) =>
      if r !in s.requests || !s.requests[r].Locked? then s
      else
        var d := s.requests[r].debit;
        if IsReplay(s.rows, d.key) then Finish(s, r) else Goto(s, r, Cleared(d))
    case ReadBalance(r) =>
      if r !in s.requests || !s.requests[r].Cleared? then s
      else
        var d := s.requests[r].debit;
        if d.points < 0 && Balance(s.rows, d.customer) + d.points < 0 then Finish(s, r) else Goto(s, r, Covered(d))
    case CommitDebit(r) =>
      if r !in s.requests || !s.requests[r].Covered? then s else Commit(s, r, s.requests[r].debit)
    case CheckEarn(r, e) =>
      if r in s.requests || !IsEarnRequest(e) || HasRow(s.rows, e.order.value, EARN) then s else Goto(s, r, Earning(e))
    case CommitEarn(r) =>
      if r !in s.requests || !s.requests[r].Earning? then s else Commit(s, r, s.requests[r].earn)
    case ReadOriginal(r, leg, o) =>
      if r in s.requests then s
      else
        var found := RowOf(s.rows, o, Original(leg));
        if found.None? then s else Goto(s, r, Undoing(leg, found.value))
    case CheckUndo(r) =>
      if r !in s.requests || !s.requests[r].Undoing? then s
      else
        var q := s.requests[r];
        if q.original.order.None? || HasRow(s.rows, q.original.order.value, Undo(q.leg)) then Finish(s, r)
        else Goto(s, r, UndoClear(q.leg, q.original))
    case CommitUndo(r) =>
      if r !in s.requests || !s.requests[r].UndoClear? then s
      else Commit(s, r, UndoRow(s.requests[r].leg, s.requests[r].original))
    case Abort(r) => Finish(s, r)
  }

  function Steps(): (State, Action) -> State { (s: State, a: Action) => Step(s, a) }

  function Run(s: State, acts: seq<Action>): State { RunOf(Steps(), s, acts) }

  function Initial(): State { State([], map[], map[]) }

  // -------------------------------------------------------------- invariant

  /** The original that a reversal row undoes. */
  predicate Undoes(e: Entry, leg: Leg, original: Entry) {
    original.kind == Original(leg) && original.order.Some? && e == UndoRow(leg, original)
  }

  ghost predicate RowOk(rows: seq<Entry>, e: Entry) {
    && (e.kind == EARN ==> e.points > 0 && e.order.Some?)
    && (e.kind == REDEEM ==> e.points < 0)
    && (e.kind == ADJUST ==> e.order.None?)
    && e.kind != EXPIRE
    && (e.kind == REFUND_REVERSAL ==> exists x :: x in rows && Undoes(e, EarnLeg, x))
    && (e.kind == REDEEM_REVERSAL ==> exists x :: x in rows && Undoes(e, RedeemLeg, x))
  }

  ghost predicate RowsOk(s: State) { forall e | e in s.rows :: RowOk(s.rows, e) }

  ghost predicate Distinct(rows: seq<Entry>) {
    && (forall i, j | 0 <= i < j < |rows| :: rows[i].order.Some? && rows[i].order == rows[j].order ==> rows[i].kind != rows[j].kind)
    && (forall i, j | 0 <= i < j < |rows| :: rows[i].key.Some? ==> rows[i].key != rows[j].key)
  }

  /** Every debit row left its customer at zero or more. */
  ghost predicate DebitsCovered(rows: seq<Entry>) {
    forall i | 0 <= i < |rows| && IsDebit(rows[i]) :: Balance(rows[..i + 1], rows[i].customer) >= 0
  }

  predicate IsDebit(e: Entry) { e.kind in {REDEEM, ADJUST} && e.points < 0 }

  ghost predicate Solvent(rows: seq<Entry>) { forall c :: BeforeRefunds(rows, c) >= 0 }

  predicate HoldsLock(s: State, r: RequestId, c: Customer) { c in s.locks && s.locks[c] == r }

  predicate RequestOk(s: State, r: RequestId, q: Request) {
    match q
    case Locked(d) => IsDebitRequest(d) && HoldsLock(s, r, d.customer)
    case Cleared(d) => IsDebitRequest(d) && HoldsLock(s, r, d.customer)
    case Covered(d) =>
      IsDebitRequest(d) && HoldsLock(s, r, d.customer) && (d.points < 0 ==> Balance(s.rows, d.customer) + d.points >= 0)
    case Earning(e) => IsEarnRequest(e)
    case Undoing(leg, x) => x in s.rows && x.kind == Original(leg) && x.order.Some?
    case UndoClear(leg, x) => x in s.rows && x.kind == Original(leg) && x.order.Some?
  }

  ghost predicate RequestsOk(s: State) { forall r | r in s.requests :: RequestOk(s, r, s.requests[r]) }

  ghost predicate Inv(s: State) {
    RowsOk(s) && Distinct(s.rows) && Solvent(s.rows) && DebitsCovered(s.rows) && RequestsOk(s)
  }
}
