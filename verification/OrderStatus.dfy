/** Which status may follow which, and what that makes of any sequence of requests. */
module OrderStatus {
  datatype Status = DRAFT | PLACED | PREPARING | READY | COMPLETED | CANCELLED | VOIDED

  function Transitions(from: Status): set<Status> {
    match from
    case DRAFT => {PLACED, CANCELLED}
    case PLACED => {PREPARING, COMPLETED, CANCELLED, VOIDED}
    case PREPARING => {READY, CANCELLED, VOIDED}
    case READY => {COMPLETED, CANCELLED, VOIDED}
    case COMPLETED => {}
    case CANCELLED => {}
    case VOIDED => {}
  }

  predicate CanTransition(from: Status, to: Status) { to in Transitions(from) }

  /** Every move there is, by where it leads. */
  lemma MovesInto(from: Status)
    ensures !CanTransition(from, DRAFT)
    ensures CanTransition(from, PLACED) <==> from == DRAFT
    ensures CanTransition(from, PREPARING) <==> from == PLACED
    ensures CanTransition(from, READY) <==> from == PREPARING
    ensures CanTransition(from, COMPLETED) <==> from == PLACED || from == READY
    ensures CanTransition(from, VOIDED) <==> from == PLACED || from == PREPARING || from == READY
    ensures CanTransition(from, CANCELLED) <==> from == DRAFT || from == PLACED || from == PREPARING || from == READY
  {
  }

  predicate Reversing(s: Status) { s == VOIDED || s == CANCELLED }

  function Follow(s: Status, moves: seq<Status>): Status
    decreases |moves|
  {
    if moves == [] then s
    else Follow(if CanTransition(s, moves[0]) then moves[0] else s, moves[1..])
  }

  function Rank(s: Status): nat {
    match s
    case DRAFT => 0
    case PLACED => 1
    case PREPARING => 2
    case READY => 3
    case _ => 4
  }

  /** Whatever is requested, an order only moves forward and stops where it ends. */
  lemma {:induction false} LifecycleOnlyAdvances(s: Status, moves: seq<Status>)
    ensures Rank(s) <= Rank(Follow(s, moves))
    ensures Rank(s) == Rank(Follow(s, moves)) ==> Follow(s, moves) == s
    ensures s == DRAFT && Follow(s, moves) !in {DRAFT, CANCELLED} ==> PLACED in moves
    decreases |moves|
  {
    if moves != [] {
      LifecycleOnlyAdvances(if CanTransition(s, moves[0]) then moves[0] else s, moves[1..]);
      assert moves == [moves[0]] + moves[1..];
    }
  }
}
