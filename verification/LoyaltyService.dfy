/**
 * LoyaltyService in its own form: lock, read, append, with other requests
 * running in every gap. The log records what was performed; the ledger is always
 * the protocol's run over it, so LoyaltySafety applies to every execution.
 */
module LoyaltyService {
  import opened Keys
  import opened Options
  import opened Sums
  import opened Traces
  import opened OrderStatus
  import opened LoyaltyRules
  import opened LoyaltyLedger
  import opened LoyaltySafety

  datatype Outcome =
    | Written | Replayed | LostRace | KeyTaken | StillWaiting
    | Refused(why: Refusal) | NotEnoughPoints
    | NothingToReverse
    | OrderNotFound | NoCustomer | OrderReversed | NothingEarned

  /** What earnForOrder reads of the order. */
  datatype OrderFacts = OrderFacts(customer: Option<Customer>, status: Status, subtotalMinor: int, discountMinor: int)

  lemma {:induction false} OthersKeep(s: State, acts: seq<Action>, r: RequestId)
    requires Elsewhere(acts, r)
    ensures r in Run(s, acts).requests <==> r in s.requests
    ensures r in s.requests ==> Run(s, acts).requests[r] == s.requests[r]
    ensures s.rows <= Run(s, acts).rows
    decreases |acts|
  {
    if acts != [] {
      assert acts[0].r != r;
      StepCommits(s, acts[0]);
      OthersKeep(Step(s, acts[0]), acts[1..], r);
    }
  }

  lemma ExplainsRun(log: seq<Action>, s: State)
    requires Explains(Steps(), Initial(), log, s)
    ensures s == Run(Initial(), log) && Inv(s)
  {
    assert Unfold(0);
    ReachableInv(log);
  }

  lemma ExplainsSolvent(log: seq<Action>, s: State)
    requires Explains(Steps(), Initial(), log, s)
    ensures Solvent(s.rows)
  {
    ExplainsRun(log, s);
  }

  lemma ExplainsOneRow(log: seq<Action>, s: State, o: OrderId, k: Kind)
    requires Explains(Steps(), Initial(), log, s)
    ensures RowsFor(s.rows, o, k) == if HasRow(s.rows, o, k) then 1 else 0
  {
    ExplainsRun(log, s);
    CountFromDistinct(s.rows, o, k);
  }

  /** A debit covered in s, whatever others do up to t, still leaves zero or more. */
  lemma CoverLasts(log: seq<Action>, s: State, gap: seq<Action>, t: State, r: RequestId)
    requires Explains(Steps(), Initial(), log, s) && Explains(Steps(), s, gap, t) && Elsewhere(gap, r)
    requires r in s.requests && s.requests[r].Covered?
    ensures var d := s.requests[r].debit;
            HoldsLock(t, r, d.customer) && (d.points < 0 ==> Balance(t.rows + [d], d.customer) >= 0)
  {
    var d := s.requests[r].debit;
    assert Unfold(0);
    ExplainsRun(log, s);
    assert RequestOk(s, r, s.requests[r]);
    LockedRun(s, gap, r, d.customer);
    AppendRow(t.rows, d, d.customer);
  }

  /** After an attempt to append an order's row, the order has exactly one of its kind. */
  lemma RowIsOnLedger(log: seq<Action>, s: State, before: seq<Entry>, e: Entry, o: OrderId)
    requires Explains(Steps(), Initial(), log, s) && e.order == Some(o) && e.key.None?
    requires s.rows == if Unique(before, e) then before + [e] else before
    ensures RowsFor(s.rows, o, e.kind) == 1
  {
    if Unique(before, e) { assert s.rows[|before|] == e; }
    assert HasRow(s.rows, o, e.kind);
    ExplainsOneRow(log, s, o, e.kind);
  }

  class Service {
    var rows: seq<Entry>
    var locks: map<Customer, RequestId>
    var requests: map<RequestId, Request>
    ghost var log: seq<Action>

    ghost function Now(): State reads this { State(rows, locks, requests) }

    ghost predicate Valid() reads this { Explains(Steps(), Initial(), log, Now()) }

    constructor ()
      ensures Valid() && log == []
    {
      rows, locks, requests, log := [], map[], map[], [];
    }

    method Perform(a: Action)
      requires Valid()
      modifies this
      ensures Valid() && log == old(log) + [a] && Now() == Step(old(Now()), a)
    {
      var s := Step(State(rows, locks, requests), a);
      ExplainsOne(Steps(), Initial(), log, Now(), a);
      rows, locks, requests := s.rows, s.locks, s.requests;
      log := log + [a];
    }

    /** Whatever the other requests do between two statements of request `r`. */
    method OthersRun(gap: seq<Action>, ghost r: RequestId)
      requires Valid() && Elsewhere(gap, r)
      modifies this
      ensures Valid() && log == old(log) + gap
      ensures r in requests <==> r in old(requests)
      ensures r in requests ==> requests[r] == old(requests[r])
      ensures old(rows) <= rows && Explains(Steps(), old(Now()), gap, Now())
    {
      ghost var start, before := Now(), log;
      var k := 0;
      assert gap[..0] == [];
      while k < |gap|
        invariant 0 <= k <= |gap|
        invariant Valid() && log == before + gap[..k]
        invariant Now() == Run(start, gap[..k])
      {
        RunSnoc(Steps(), start, gap[..k], gap[k]);
        assert gap[..k + 1] == gap[..k] + [gap[k]];
        Perform(gap[k]);
        k := k + 1;
      }
      assert gap[..|gap|] == gap;
      OthersKeep(start, gap, r);
    }

    method Release(r: RequestId)
      modifies this`locks, this`requests
      ensures requests == old(requests) - {r}
      ensures locks == map c | c in old(locks) && old(locks)[c] != r :: old(locks)[c]
    {
      locks := map c | c in locks && locks[c] != r :: locks[c];
      requests := requests - {r};
    }

    /** SELECT ... FOR UPDATE on the customer's row, once nobody holds it. */
    method LockCustomer(r: RequestId, debit: Entry)
      requires Valid() && r !in requests && IsDebitRequest(debit) && debit.customer !in locks
      modifies this`locks, this`requests, this`log
      ensures Valid() && log == old(log) + [Lock(r, debit)]
      ensures requests == old(requests)[r := Locked(debit)] && locks == old(locks)[debit.customer := r]
    {
      ExplainsOne(Steps(), Initial(), log, Now(), Lock(r, debit));
      log := log + [Lock(r, debit)];
      locks := locks[debit.customer := r];
      requests := requests[r := Locked(debit)];
    }

    /**
     * lockCustomer: the statement waits while others run, and returns holding the
     * lock at the first of these moments that finds it free. It has not returned
     * yet exactly if the lock was still held at the last of them.
     */
    method AwaitLock(r: RequestId, debit: Entry, waits: seq<seq<Action>>) returns (got: bool, ghost waited: nat)
      requires Valid() && r !in requests && IsDebitRequest(debit) && forall k | 0 <= k < |waits| :: Elsewhere(waits[k], r)
      modifies this
      ensures Valid() && waited <= |waits| && old(rows) <= rows
      ensures log == old(log) + Flatten(waits[..waited]) + if got then [Lock(r, debit)] else []
      ensures got ==> r in requests && requests[r] == Locked(debit) && HoldsLock(Now(), r, debit.customer)
      ensures !got ==> waited == |waits| && r !in requests && (waits != [] ==> debit.customer in locks)
    {
      got, waited := false, 0;
      var k := 0;
      assert log + [] == log;
      while k < |waits|
        invariant 0 <= k == waited <= |waits|
        invariant Valid() && r !in requests && old(rows) <= rows && log == old(log) + Flatten(waits[..k])
        invariant k > 0 ==> debit.customer in locks
      {
        OthersRun(waits[k], r);
        FlattenOne(waits, k);
        assert old(log) + Flatten(waits[..k]) + waits[k] == old(log) + (Flatten(waits[..k]) + waits[k]);
        k, waited := k + 1, waited + 1;
        if debit.customer !in locks {
          LockCustomer(r, debit);
          return true, waited;
        }
      }
      assert log == log + [];
    }

    /** The lookup of the client's key. */
    method Replay(r: RequestId, debit: Entry) returns (hit: bool)
      requires Valid() && r in requests && requests[r] == Locked(debit)
      modifies this`locks, this`requests, this`log
      ensures Valid() && log == old(log) + [CheckReplay(r)]
      ensures hit == IsReplay(rows, debit.key)
      ensures requests == if hit then old(requests) - {r} else old(requests)[r := Cleared(debit)]
    {
      ExplainsOne(Steps(), Initial(), log, Now(), CheckReplay(r));
      log := log + [CheckReplay(r)];
      hit := false;
      if debit.key.Some? && debit.key.value != "" { hit := HasKey(rows, debit.key.value); }
      if hit { Release(r); } else { requests := requests[r := Cleared(debit)]; }
    }

    /** The balance read, for a debit, and the refusal to overspend. */
    method CheckBalance(r: RequestId, debit: Entry) returns (enough: bool)
      requires Valid() && r in requests && requests[r] == Cleared(debit)
      modifies this`locks, this`requests, this`log
      ensures Valid() && log == old(log) + [ReadBalance(r)]
      ensures enough == (debit.points < 0 ==> Balance(rows, debit.customer) + debit.points >= 0)
      ensures requests == if enough then old(requests)[r := Covered(debit)] else old(requests) - {r}
    {
      ExplainsOne(Steps(), Initial(), log, Now(), ReadBalance(r));
      log := log + [ReadBalance(r)];
      enough := true;
      if debit.points < 0 {
        var balance := Balance(rows, debit.customer);
        enough := balance + debit.points >= 0;
      }
      if enough { requests := requests[r := Covered(debit)]; } else { Release(r); }
    }

    /** Insert and commit, when the customer's row can be shared; false when a unique index rejects it. */
    method AppendAndCommit(r: RequestId, e: Entry, ghost commit: Action) returns (written: bool)
      requires Valid() && r in requests && commit.r == r
      requires (commit.CommitDebit? && requests[r] == Covered(e)) || (commit.CommitEarn? && requests[r] == Earning(e))
               || (commit.CommitUndo? && requests[r].UndoClear? && e == UndoRow(requests[r].leg, requests[r].original))
      requires Unique(rows, e) ==> !Blocked(Now(), r, e.customer)
      modifies this
      ensures Valid() && log == old(log) + [commit] && r !in requests
      ensures written == Unique(old(rows), e)
      ensures rows == if written then old(rows) + [e] else old(rows)
    {
      ExplainsOne(Steps(), Initial(), log, Now(), commit);
      log := log + [commit];
      written := Unique(rows, e);
      if written { rows := rows + [e]; }
      Release(r);
    }

    /** The rollback of a request that is refused. */
    method RollBack(r: RequestId)
      requires Valid() && r in requests
      modifies this`locks, this`requests, this`log
      ensures Valid() && log == old(log) + [Abort(r)] && requests == old(requests) - {r}
    {
      ExplainsOne(Steps(), Initial(), log, Now(), Abort(r));
      log := log + [Abort(r)];
      Release(r);
    }

    /** How a debit's append ends: a rejected key that is not usable is an error to the caller. */
    method AppendDebit(r: RequestId, debit: Entry, gap: seq<Action>,
                       ghost gaps: seq<seq<Action>>, ghost start: seq<Action>, ghost before: seq<Action>)
      returns (res: Outcome)
      requires Valid() && |gaps| == 4 && |before| == 3 && gaps[3] == gap && Elsewhere(gap, r)
      requires r in requests && requests[r] == Covered(debit)
      requires log == Weave(start, gaps, before)
      modifies this
      ensures Valid() && log == Weave(start, gaps, before + [CommitDebit(r)]) && r !in requests
      ensures res in {Written, LostRace, KeyTaken} && (res != Written ==> !Unique(rows, debit))
      ensures res == LostRace ==> Usable(debit.key)
      ensures res == KeyTaken ==> !Usable(debit.key)
      ensures res == Written ==> rows != [] && rows[|rows| - 1] == debit
      ensures res == Written && debit.points < 0 ==> Balance(rows, debit.customer) >= 0
    {
      ghost var s, before1 := Now(), log;
      OthersRun(gap, r);
      CoverLasts(before1, s, gap, Now(), r);
      var written := AppendAndCommit(r, debit, CommitDebit(r));
      WeaveOne(start, gaps, before, CommitDebit(r));
      res := if written then Written else if Usable(debit.key) then LostRace else KeyTaken;
    }

    /** The rules, the balance and the append, once the request stands Cleared. */
    method CheckAndAppend(r: RequestId, debit: Entry, refusal: Option<Refusal>, before: seq<Action>, between: seq<Action>,
                          ghost gaps: seq<seq<Action>>, ghost start: seq<Action>)
      returns (res: Outcome, ghost own: seq<Action>)
      requires Valid() && |gaps| == 4 && gaps[2] == before && gaps[3] == between && Elsewhere(before, r) && Elsewhere(between, r)
      requires r in requests && requests[r] == Cleared(debit)
      requires log == Weave(start, gaps, [Lock(r, debit), CheckReplay(r)])
      modifies this
      ensures Valid() && 3 <= |own| <= 4 && log == Weave(start, gaps, own) && r !in requests
      ensures own[..2] == [Lock(r, debit), CheckReplay(r)]
      ensures if refusal.Some? then res == Refused(refusal.value) && own[2..] == [Abort(r)]
              else res in {Written, NotEnoughPoints, LostRace, KeyTaken} && own[2] == ReadBalance(r)
      ensures res == NotEnoughPoints <==> |own| == 3 && refusal.None?
      ensures res == NotEnoughPoints ==> debit.points < 0 && Balance(rows, debit.customer) + debit.points < 0
      ensures res in {Written, LostRace, KeyTaken} ==> own[3..] == [CommitDebit(r)]
      ensures res == LostRace ==> !Unique(rows, debit) && Usable(debit.key)
      ensures res == KeyTaken ==> !Unique(rows, debit) && !Usable(debit.key)
      ensures res == Written ==> rows != [] && rows[|rows| - 1] == debit
      ensures res == Written && debit.points < 0 ==> Balance(rows, debit.customer) >= 0
    {
      own := [Lock(r, debit), CheckReplay(r)];
      OthersRun(before, r);
      if refusal.Some? {
        RollBack(r);
        WeaveOne(start, gaps, own, Abort(r));
        return Refused(refusal.value), own + [Abort(r)];
      }
      var enough := CheckBalance(r, debit);
      WeaveOne(start, gaps, own, ReadBalance(r));
      own := own + [ReadBalance(r)];
      if !enough { return NotEnoughPoints, own; }
      res := AppendDebit(r, debit, between, gaps, start, own);
      own := own + [CommitDebit(r)];
    }

    /** The lock, with the moments it was waited for as the first gap. */
    method Acquire(r: RequestId, debit: Entry, waits: seq<seq<Action>>, ghost gaps: seq<seq<Action>>)
      returns (got: bool, ghost all: seq<seq<Action>>)
      requires Valid() && |gaps| == 3 && forall k | 0 <= k < |waits| :: Elsewhere(waits[k], r)
      requires r !in requests && IsDebitRequest(debit)
      modifies this
      ensures Valid() && |all| == 4 && all[1..] == gaps && exists k :: 0 <= k <= |waits| && all[0] == Flatten(waits[..k])
      ensures log == if got then Weave(old(log), all, [Lock(r, debit)]) else old(log) + Flatten(waits)
      ensures got ==> r in requests && requests[r] == Locked(debit)
      ensures !got ==> r !in requests && (waits != [] ==> debit.customer in locks)
    {
      ghost var waited;
      got, waited := AwaitLock(r, debit, waits);
      all := [Flatten(waits[..waited])] + gaps;
      WeaveOne(old(log), all, [], Lock(r, debit));
      assert [] + [Lock(r, debit)] == [Lock(r, debit)];
      if !got {
        assert waits[..waited] == waits;
        assert log == old(log) + Flatten(waits) + [];
      }
    }

    /** Lock, then look for a replay; on success the request stands Cleared. */
    method LockAndReplay(r: RequestId, debit: Entry, waits: seq<seq<Action>>, gaps: seq<seq<Action>>)
      returns (stopped: Option<Outcome>, ghost all: seq<seq<Action>>, ghost own: seq<Action>)
      requires Valid() && |gaps| == 3 && (forall k | 0 <= k < 3 :: Elsewhere(gaps[k], r))
      requires forall k | 0 <= k < |waits| :: Elsewhere(waits[k], r)
      requires r !in requests && IsDebitRequest(debit)
      modifies this
      ensures Valid() && |own| <= 2 && |all| == 4 && all[1..] == gaps
      ensures exists k :: 0 <= k <= |waits| && all[0] == Flatten(waits[..k])
      ensures log == if own == [] then old(log) + Flatten(waits) else Weave(old(log), all, own)
      ensures stopped.None? ==> own == [Lock(r, debit), CheckReplay(r)] && r in requests && requests[r] == Cleared(debit)
      ensures stopped.Some? ==> r !in requests && stopped.value in {StillWaiting, Replayed}
      ensures stopped == Some(StillWaiting) <==> own == []
      ensures own == [] && waits != [] ==> debit.customer in locks
      ensures stopped == Some(Replayed) ==> IsReplay(rows, debit.key)
    {
      own := [];
      var got;
      got, all := Acquire(r, debit, waits, gaps);
      if !got { return Some(StillWaiting), all, own; }
      own := [Lock(r, debit)];
      OthersRun(gaps[0], r);
      var hit := Replay(r, debit);
      assert all[1] == gaps[0];
      WeaveOne(old(log), all, own, CheckReplay(r));
      own := own + [CheckReplay(r)];
      stopped := if hit then Some(Replayed) else None;
    }

    /** redeem, redeemForOrder and adjust: lock, replay, the rules, balance, append. */
    method Debit(r: RequestId, debit: Entry, refusal: Option<Refusal>, waits: seq<seq<Action>>, gaps: seq<seq<Action>>)
      returns (res: Outcome, ghost all: seq<seq<Action>>, ghost own: seq<Action>)
      requires Valid() && |gaps| == 3 && (forall k | 0 <= k < 3 :: Elsewhere(gaps[k], r))
      requires forall k | 0 <= k < |waits| :: Elsewhere(waits[k], r)
      requires r !in requests && IsDebitRequest(debit)
      modifies this
      ensures Valid() && Solvent(rows) && r !in requests
      ensures |own| <= 4 && |all| == 4 && all[1..] == gaps && exists k :: 0 <= k <= |waits| && all[0] == Flatten(waits[..k])
      ensures log == if own == [] then old(log) + Flatten(waits) else Weave(old(log), all, own)
      ensures |own| <= 2 ==> res in {StillWaiting, Replayed}
      ensures |own| > 2 ==> if refusal.Some? then res == Refused(refusal.value) else res in {Written, NotEnoughPoints, LostRace, KeyTaken}
      ensures res == StillWaiting <==> own == []
      ensures res == StillWaiting && waits != [] ==> debit.customer in locks
      ensures res == Replayed ==> IsReplay(rows, debit.key)
      ensures res.Refused? ==> own == [Lock(r, debit), CheckReplay(r), Abort(r)]
      ensures res == NotEnoughPoints ==> debit.points < 0 && Balance(rows, debit.customer) + debit.points < 0
      ensures res == LostRace ==> !Unique(rows, debit) && Usable(debit.key)
      ensures res == KeyTaken ==> !Unique(rows, debit) && !Usable(debit.key)
      ensures res == Written ==>
                own == [Lock(r, debit), CheckReplay(r), ReadBalance(r), CommitDebit(r)] && rows != [] && rows[|rows| - 1] == debit
      ensures res == Written && debit.points < 0 ==> Balance(rows, debit.customer) >= 0
    {
      var stopped;
      stopped, all, own := LockAndReplay(r, debit, waits, gaps);
      if stopped.Some? { res := stopped.value; } else { res, own := CheckAndAppend(r, debit, refusal, gaps[1], gaps[2], all, old(log)); }
      ExplainsSolvent(log, Now());
    }

    /** redeem: points spent outside a sale, by the tenant's rules. */
    method Redeem(r: RequestId, c: Customer, points: int, key: Option<ClientKey>, config: Config,
                  waits: seq<seq<Action>>, gaps: seq<seq<Action>>)
      returns (res: Outcome, ghost own: seq<Action>)
      requires Valid() && |gaps| == 3 && (forall k | 0 <= k < 3 :: Elsewhere(gaps[k], r))
      requires forall k | 0 <= k < |waits| :: Elsewhere(waits[k], r)
      requires r !in requests && points >= 1 && ValidateConfig(config).None?
      modifies this
      ensures Valid() && Solvent(rows) && r !in requests
      ensures |own| > 2 ==> if RedeemRefusal(points, config).Some? then res == Refused(RedeemRefusal(points, config).value)
                            else res in {Written, NotEnoughPoints, LostRace, KeyTaken}
      ensures |own| <= 2 ==> res in {StillWaiting, Replayed} && (res == Replayed ==> IsReplay(rows, key))
      ensures res == Written ==> rows != [] && rows[|rows| - 1] == Entry(c, REDEEM, -points, None, key) && Balance(rows, c) >= 0
      ensures res in {LostRace, KeyTaken} ==> key.Some? && HasKey(rows, key.value) && (res == KeyTaken <==> key == Some(""))
      ensures res == NotEnoughPoints ==> Balance(rows, c) < points
      ensures res.Refused? ==>
                !config.isEnabled || points % config.redeemPoints != 0 || points < config.minimumRedeemPoints
                || (config.maximumRedeemPointsPerOrder.Some? && points > config.maximumRedeemPointsPerOrder.value)
      ensures |own| > 2 && !res.Refused? ==>
                config.isEnabled && points % config.redeemPoints == 0 && points >= config.minimumRedeemPoints
                && (config.maximumRedeemPointsPerOrder.Some? ==> points <= config.maximumRedeemPointsPerOrder.value)
    {
      RedeemRefusalIff(points, config);
      ghost var all;
      res, all, own := Debit(r, Entry(c, REDEEM, -points, None, key), RedeemRefusal(points, config), waits, gaps);
    }

    /** The read of the row to undo, in its own transaction. */
    method FindOriginal(r: RequestId, leg: Leg, o: OrderId) returns (found: Option<Entry>)
      requires Valid() && r !in requests
      modifies this`requests, this`log
      ensures Valid() && log == old(log) + [ReadOriginal(r, leg, o)]
      ensures found == RowOf(rows, o, Original(leg))
      ensures requests == if found.None? then old(requests) else old(requests)[r := Undoing(leg, found.value)]
    {
      ExplainsOne(Steps(), Initial(), log, Now(), ReadOriginal(r, leg, o));
      log := log + [ReadOriginal(r, leg, o)];
      found := RowOf(rows, o, Original(leg));
      if found.Some? { requests := requests[r := Undoing(leg, found.value)]; }
    }

    /** The lookup of an existing reversal. */
    method AlreadyUndone(r: RequestId, leg: Leg, original: Entry, o: OrderId) returns (already: bool)
      requires Valid() && r in requests && requests[r] == Undoing(leg, original) && original.order == Some(o)
      modifies this`locks, this`requests, this`log
      ensures Valid() && log == old(log) + [CheckUndo(r)]
      ensures already == HasRow(rows, o, Undo(leg))
      ensures requests == if already then old(requests) - {r} else old(requests)[r := UndoClear(leg, original)]
    {
      ExplainsOne(Steps(), Initial(), log, Now(), CheckUndo(r));
      log := log + [CheckUndo(r)];
      already := HasRow(rows, o, Undo(leg));
      if already { Release(r); } else { requests := requests[r := UndoClear(leg, original)]; }
    }

    /**
     * The insert of a credit or a reversal: rejected by an index at once, else it
     * waits while others run, until no debit holds the customer's row. It has not
     * returned yet exactly if it could have gone on at none of these moments.
     */
    method AwaitInsert(r: RequestId, e: Entry, waits: seq<seq<Action>>, ghost commit: Action)
      returns (res: Outcome, ghost waited: nat)
      requires Valid() && r in requests && commit.r == r && forall k | 0 <= k < |waits| :: Elsewhere(waits[k], r)
      requires (commit.CommitEarn? && requests[r] == Earning(e))
               || (commit.CommitUndo? && requests[r].UndoClear? && e == UndoRow(requests[r].leg, requests[r].original))
      requires e.order.Some? && e.key.None?
      modifies this
      ensures Valid() && waited <= |waits| && res in {Written, LostRace, StillWaiting}
      ensures log == old(log) + Flatten(waits[..waited]) + if res == StillWaiting then [] else [commit]
      ensures res == StillWaiting ==> waited == |waits| && r in requests && requests[r] == old(requests[r])
      ensures res == StillWaiting && waits != [] ==> e.customer in locks
      ensures res != StillWaiting ==> r !in requests && RowsFor(rows, e.order.value, e.kind) == 1
      ensures res == Written ==> rows != [] && rows[|rows| - 1] == e
    {
      res, waited := StillWaiting, 0;
      var k := 0;
      assert log + [] == log;
      while k < |waits|
        invariant 0 <= k == waited <= |waits|
        invariant Valid() && r in requests && requests[r] == old(requests[r])
        invariant log == old(log) + Flatten(waits[..k])
        invariant k > 0 ==> e.customer in locks
      {
        OthersRun(waits[k], r);
        FlattenOne(waits, k);
        assert old(log) + Flatten(waits[..k]) + waits[k] == old(log) + (Flatten(waits[..k]) + waits[k]);
        k, waited := k + 1, waited + 1;
        if e.customer !in locks || locks[e.customer] == r || !Unique(rows, e) {
          ghost var before := rows;
          var written := AppendAndCommit(r, e, commit);
          RowIsOnLedger(log, Now(), before, e, e.order.value);
          return if written then Written else LostRace, waited;
        }
      }
      assert log == log + [];
    }

    /** AwaitInsert as a request's last action, the moments waited for as the gap before it. */
    method Insert(r: RequestId, e: Entry, waits: seq<seq<Action>>, ghost commit: Action,
                  ghost start: seq<Action>, ghost gaps: seq<seq<Action>>, ghost own: seq<Action>)
      returns (res: Outcome, ghost all: seq<seq<Action>>, ghost done: seq<Action>)
      requires Valid() && r in requests && commit.r == r && forall k | 0 <= k < |waits| :: Elsewhere(waits[k], r)
      requires (commit.CommitEarn? && requests[r] == Earning(e))
               || (commit.CommitUndo? && requests[r].UndoClear? && e == UndoRow(requests[r].leg, requests[r].original))
      requires e.order.Some? && e.key.None?
      requires |gaps| == |own| && log == Weave(start, gaps, own)
      modifies this
      ensures Valid() && res in {Written, LostRace, StillWaiting}
      ensures |all| == |gaps| + 1 && all[..|gaps|] == gaps && exists k :: 0 <= k <= |waits| && all[|gaps|] == Flatten(waits[..k])
      ensures res == StillWaiting ==> done == own && log == Weave(start, all, done) + Flatten(waits)
      ensures res != StillWaiting ==> done == own + [commit] && log == Weave(start, all, done)
      ensures res == StillWaiting ==> r in requests && requests[r] == old(requests[r]) && (waits != [] ==> e.customer in locks)
      ensures res != StillWaiting ==> r !in requests && RowsFor(rows, e.order.value, e.kind) == 1
      ensures res == Written ==> rows != [] && rows[|rows| - 1] == e
    {
      ghost var waited;
      res, waited := AwaitInsert(r, e, waits, commit);
      all := gaps + [Flatten(waits[..waited])];
      WeaveMore(start, gaps, Flatten(waits[..waited]), own);
      if res == StillWaiting {
        assert waits[..waited] == waits;
        assert log == Weave(start, gaps, own) + Flatten(waits) + [];
        done := own;
      } else {
        WeaveOne(start, all, own, commit);
        done := own + [commit];
      }
    }

    /** The two reads of a reversal; on success the request stands UndoClear. */
    method FindAndCheck(r: RequestId, leg: Leg, o: OrderId, gaps: seq<seq<Action>>)
      returns (stopped: Option<Outcome>, original: Option<Entry>, ghost own: seq<Action>)
      requires Valid() && |gaps| == 2 && Elsewhere(gaps[0], r) && Elsewhere(gaps[1], r) && r !in requests
      modifies this
      ensures Valid() && |own| <= 2 && log == Weave(old(log), gaps, own)
      ensures stopped.Some? ==> r !in requests && stopped.value in {NothingToReverse, Replayed}
      ensures stopped == Some(NothingToReverse) ==> own == [ReadOriginal(r, leg, o)] && !HasRow(rows, o, Original(leg))
      ensures stopped == Some(Replayed) ==> RowsFor(rows, o, Undo(leg)) == 1
      ensures stopped.None? ==> own == [ReadOriginal(r, leg, o)] + [CheckUndo(r)] && r in requests && original.Some?
                                && requests[r] == UndoClear(leg, original.value) && original.value.order == Some(o)
    {
      OthersRun(gaps[0], r);
      original := FindOriginal(r, leg, o);
      WeaveOne(old(log), gaps, [], ReadOriginal(r, leg, o));
      own := [ReadOriginal(r, leg, o)];
      assert [] + own == own;
      if original.None? { return Some(NothingToReverse), original, own; }

      OthersRun(gaps[1], r);
      var already := AlreadyUndone(r, leg, original.value, o);
      WeaveOne(old(log), gaps, own, CheckUndo(r));
      own := own + [CheckUndo(r)];
      if already { ExplainsOneRow(log, Now(), o, Undo(leg)); }
      stopped := if already then Some(Replayed) else None;
    }

    /** reverseForOrder and restoreRedeemedForOrder: both end with one reversal row. */
    method ReverseForOrder(r: RequestId, leg: Leg, o: OrderId, gaps: seq<seq<Action>>, waits: seq<seq<Action>>)
      returns (res: Outcome, ghost all: seq<seq<Action>>, ghost own: seq<Action>)
      requires Valid() && |gaps| == 2 && Elsewhere(gaps[0], r) && Elsewhere(gaps[1], r)
      requires r !in requests && forall k | 0 <= k < |waits| :: Elsewhere(waits[k], r)
      modifies this
      ensures Valid() && |own| <= |all| && 2 <= |all| <= 3 && all[..2] == gaps
      ensures |all| == 3 ==> exists k :: 0 <= k <= |waits| && all[2] == Flatten(waits[..k])
      ensures log == if res == StillWaiting then Weave(old(log), all, own) + Flatten(waits) else Weave(old(log), all, own)
      ensures res in {Written, Replayed, LostRace, StillWaiting, NothingToReverse}
      ensures res == NothingToReverse ==> own == [ReadOriginal(r, leg, o)] && !HasRow(rows, o, Original(leg))
      ensures res !in {NothingToReverse, StillWaiting} ==> RowsFor(rows, o, Undo(leg)) == 1
      ensures res == StillWaiting <==> r in requests
      ensures res == StillWaiting ==> requests[r].UndoClear? && (waits != [] ==> requests[r].original.customer in locks)
      ensures res == Written ==> rows != [] && rows[|rows| - 1].kind == Undo(leg) && rows[|rows| - 1].order == Some(o)
    {
      var stopped, original;
      stopped, original, own := FindAndCheck(r, leg, o, gaps);
      all := gaps;
      if stopped.Some? { return stopped.value, all, own; }
      res, all, own := Insert(r, UndoRow(leg, original.value), waits, CommitUndo(r), old(log), gaps, own);
    }

    /** The lookup of earnForOrder, with what others do before it. */
    method CheckEarned(r: RequestId, earn: Entry, gap: seq<Action>) returns (existing: bool)
      requires Valid() && Elsewhere(gap, r) && r !in requests && IsEarnRequest(earn)
      modifies this
      ensures Valid() && log == Weave(old(log), [gap], [CheckEarn(r, earn)])
      ensures existing ==> r !in requests && RowsFor(rows, earn.order.value, EARN) == 1
      ensures !existing ==> r in requests && requests[r] == Earning(earn)
    {
      OthersRun(gap, r);
      existing := FindEarn(r, earn);
      WeaveOne(old(log), [gap], [], CheckEarn(r, earn));
      assert [] + [CheckEarn(r, earn)] == [CheckEarn(r, earn)];
      if existing { ExplainsOneRow(log, Now(), earn.order.value, EARN); }
    }

    /** The transaction of earnForOrder, for points to write. */
    method EarnPoints(r: RequestId, earn: Entry, gap: seq<Action>, waits: seq<seq<Action>>)
      returns (res: Outcome, ghost all: seq<seq<Action>>, ghost own: seq<Action>)
      requires Valid() && Elsewhere(gap, r) && forall k | 0 <= k < |waits| :: Elsewhere(waits[k], r)
      requires r !in requests && IsEarnRequest(earn)
      modifies this
      ensures Valid() && 1 <= |own| <= |all| <= 2 && all[0] == gap
      ensures |all| == 2 ==> exists k :: 0 <= k <= |waits| && all[1] == Flatten(waits[..k])
      ensures log == if res == StillWaiting then Weave(old(log), all, own) + Flatten(waits) else Weave(old(log), all, own)
      ensures res in {Written, Replayed, LostRace, StillWaiting}
      ensures res == StillWaiting <==> r in requests
      ensures res == StillWaiting && waits != [] ==> earn.customer in locks
      ensures res != StillWaiting ==> RowsFor(rows, earn.order.value, EARN) == 1
      ensures res == Written ==> rows != [] && rows[|rows| - 1] == earn
    {
      all, own := [gap], [CheckEarn(r, earn)];
      var existing := CheckEarned(r, earn, gap);
      if existing { return Replayed, all, own; }
      res, all, own := Insert(r, earn, waits, CommitEarn(r), old(log), all, own);
      assert all[..1][0] == all[0];
    }

    /** earnForOrder */
    method EarnForOrder(r: RequestId, o: OrderId, facts: Option<OrderFacts>, config: Config, gap: seq<Action>, waits: seq<seq<Action>>)
      returns (res: Outcome, ghost all: seq<seq<Action>>, ghost own: seq<Action>)
      requires Valid() && Elsewhere(gap, r) && forall k | 0 <= k < |waits| :: Elsewhere(waits[k], r)
      requires r !in requests && ValidateConfig(config).None?
      modifies this
      ensures Valid() && |own| <= |all| <= 2 && (all != [] ==> all[0] == gap)
      ensures |all| == 2 ==> exists k :: 0 <= k <= |waits| && all[1] == Flatten(waits[..k])
      ensures log == if res == StillWaiting then Weave(old(log), all, own) + Flatten(waits) else Weave(old(log), all, own)
      ensures res in {Written, Replayed, LostRace, StillWaiting, OrderNotFound, NoCustomer, OrderReversed, NothingEarned}
      ensures res == OrderNotFound <==> facts.None?
      ensures res == NoCustomer <==> facts.Some? && facts.value.customer.None?
      ensures res == OrderReversed <==> facts.Some? && facts.value.customer.Some? && Reversing(facts.value.status)
      ensures res == NothingEarned <==>
                facts.Some? && facts.value.customer.Some? && !Reversing(facts.value.status)
                && (!config.isEnabled || MostPoints(0, Net(facts.value.subtotalMinor, facts.value.discountMinor), config))
      ensures res in {OrderNotFound, NoCustomer, OrderReversed, NothingEarned} <==> own == []
      ensures res == StillWaiting <==> r in requests
      ensures res == StillWaiting && waits != [] ==> facts.value.customer.value in locks
      ensures own != [] && res != StillWaiting ==> RowsFor(rows, o, EARN) == 1
      ensures res == Written ==>
                var p := if rows == [] then 0 else rows[|rows| - 1].points;
                && rows != [] && rows[|rows| - 1] == Entry(facts.value.customer.value, EARN, p, Some(o), None)
                && p > 0 && MostPoints(p, Net(facts.value.subtotalMinor, facts.value.discountMinor), config)
    {
      all, own := [], [];
      if facts.None? { return OrderNotFound, all, own; }
      var order := facts.value;
      if order.customer.None? { return NoCustomer, all, own; }
      if order.status == VOIDED || order.status == CANCELLED { return OrderReversed, all, own; }
      var points := PointsForOrder(order.subtotalMinor, order.discountMinor, config);
      EarnsMostTheNetPaysFor(order.subtotalMinor, order.discountMinor, config);
      if !config.isEnabled || points <= 0 { return NothingEarned, all, own; }
      res, all, own := EarnPoints(r, Entry(order.customer.value, EARN, points, Some(o), None), gap, waits);
    }

    method FindEarn(r: RequestId, earn: Entry) returns (existing: bool)
      requires Valid() && r !in requests && IsEarnRequest(earn)
      modifies this`requests, this`log
      ensures Valid() && log == old(log) + [CheckEarn(r, earn)]
      ensures existing == HasRow(rows, earn.order.value, EARN)
      ensures requests == if existing then old(requests) else old(requests)[r := Earning(earn)]
    {
      ExplainsOne(Steps(), Initial(), log, Now(), CheckEarn(r, earn));
      log := log + [CheckEarn(r, earn)];
      existing := HasRow(rows, earn.order.value, EARN);
      if !existing { requests := requests[r := Earning(earn)]; }
    }
  }

  // --------------------------------------------------------------- summary

  datatype Group = Group(kind: Kind, sum: int)

  function OfKind(c: Customer, k: Kind): Entry -> int {
    (e: Entry) => if e.customer == c && e.kind == k then e.points else 0
  }

  function KindSum(rows: seq<Entry>, c: Customer, k: Kind): int { Sum(rows, OfKind(c, k)) }

  /** A grouped sum by type: each present type once, in any order. */
  ghost predicate IsGrouping(groups: seq<Group>, rows: seq<Entry>, c: Customer) {
    && (forall i, j | 0 <= i < j < |groups| :: groups[i].kind != groups[j].kind)
    && (forall i | 0 <= i < |groups| :: groups[i].sum == KindSum(rows, c, groups[i].kind))
    && (forall k :: KindSum(rows, c, k) != 0 ==> exists i :: 0 <= i < |groups| && groups[i].kind == k)
  }

  function OfStatus(c: Customer): Entry -> int {
    (e: Entry) => if e.customer == c && IsStatusType(e.kind) then e.points else 0
  }

  function Lookup(groups: seq<Group>, k: Kind): int {
    if groups == [] then 0
    else Lookup(groups[..|groups| - 1], k) + if groups[|groups| - 1].kind == k then groups[|groups| - 1].sum else 0
  }

  lemma {:induction false} LookupIsKindSum(groups: seq<Group>, rows: seq<Entry>, c: Customer, k: Kind)
    requires forall i, j | 0 <= i < j < |groups| :: groups[i].kind != groups[j].kind
    requires forall i | 0 <= i < |groups| :: groups[i].sum == KindSum(rows, c, groups[i].kind)
    ensures Lookup(groups, k) == if exists i :: 0 <= i < |groups| && groups[i].kind == k then KindSum(rows, c, k) else 0
  {
    if groups != [] {
      var n := |groups| - 1;
      LookupIsKindSum(groups[..n], rows, c, k);
      if i :| 0 <= i < n && groups[..n][i].kind == k { assert groups[i].kind == k; }
      if i :| 0 <= i < |groups| && groups[i].kind == k { assert i < n ==> groups[..n][i].kind == k; }
    }
  }

  /** The customer's rows split by type. */
  lemma {:induction false} KindsPartition(rows: seq<Entry>, c: Customer)
    ensures Balance(rows, c)
            == KindSum(rows, c, EARN) + KindSum(rows, c, REDEEM) + KindSum(rows, c, ADJUST) + KindSum(rows, c, EXPIRE)
               + KindSum(rows, c, REFUND_REVERSAL) + KindSum(rows, c, REDEEM_REVERSAL)
    ensures Sum(rows, OfStatus(c)) == KindSum(rows, c, EARN) + KindSum(rows, c, ADJUST) + KindSum(rows, c, REFUND_REVERSAL)
  {
    if rows != [] { KindsPartition(rows[..|rows| - 1], c); }
  }

  /** summarize's three accumulators, over the grouped sums in any order. */
  method Summarize(groups: seq<Group>, ghost rows: seq<Entry>, ghost c: Customer)
    returns (balancePoints: int, lifetimeEarnedPoints: int, redeemedPoints: int)
    requires IsGrouping(groups, rows, c)
    ensures balancePoints == Balance(rows, c)
    ensures lifetimeEarnedPoints == Sum(rows, OfStatus(c))
    ensures redeemedPoints == -KindSum(rows, c, REDEEM)
  {
    balancePoints, lifetimeEarnedPoints, redeemedPoints := 0, 0, 0;
    var i := 0;
    while i < |groups|
      invariant 0 <= i <= |groups|
      invariant balancePoints == Lookup(groups[..i], EARN) + Lookup(groups[..i], REDEEM) + Lookup(groups[..i], ADJUST)
                                 + Lookup(groups[..i], EXPIRE) + Lookup(groups[..i], REFUND_REVERSAL) + Lookup(groups[..i], REDEEM_REVERSAL)
      invariant lifetimeEarnedPoints == Lookup(groups[..i], EARN) + Lookup(groups[..i], ADJUST) + Lookup(groups[..i], REFUND_REVERSAL)
      invariant redeemedPoints == -Lookup(groups[..i], REDEEM)
    {
      var g := groups[i];
      assert groups[..i + 1][..i] == groups[..i];
      balancePoints := balancePoints + g.sum;
      if IsStatusType(g.kind) { lifetimeEarnedPoints := lifetimeEarnedPoints + g.sum; }
      if g.kind == REDEEM { redeemedPoints := redeemedPoints + -g.sum; }
      i := i + 1;
    }
    assert groups[..|groups|] == groups;
    KindsPartition(rows, c);
    forall k: Kind ensures Lookup(groups, k) == KindSum(rows, c, k) { LookupIsKindSum(groups, rows, c, k); }
  }
}
