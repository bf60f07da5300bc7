/**
 * The refresh-token protocol as a state machine.
 *
 * Every database statement of TokenService, and every request that AuthService
 * builds from them, is one atomic step. Requests keep their local variables in
 * `requests`, so an arbitrary sequence of actions is an arbitrary interleaving.
 * An action whose guard does not hold leaves the state alone.
 */
module TokenProtocol {
  import opened Options
  import opened Traces

  type UserId = nat
  type FamilyId = nat
  type TokenId = nat // the row's position: rows are inserted and updated, never deleted
  type RequestId = nat
  type Time = nat

  datatype Token = Token(user: UserId, family: FamilyId, createdAt: Time, expiresAt: Time, revoked: bool)

  /** Where a request stands, with the local variables it still needs. */
  datatype Request =
    | Found(id: TokenId)                   // the row was read and was not revoked
    | KnowsEpoch(id: TokenId, epoch: Time) // the owner's session epoch was read
    | Checked(id: TokenId)                 // assertSessionNotRevoked returned
    | Dooming(family: FamilyId)            // about to call revokeFamily and fail
    | Claimed(user: UserId, family: FamilyId)
    | Issuing(user: UserId, family: FamilyId)
    | IssuingFresh(user: UserId)           // rotateForReissue returned undefined

  datatype State = State(
    clock: Time,
    ttl: nat,
    tokens: seq<Token>,
    epochs: map<UserId, Time>, // sessionsValidFrom; absent means never signed out everywhere
    requests: map<RequestId, Request>)

  datatype Action =
    | Tick(delta: nat)
    | Login(user: UserId, family: FamilyId)
    | Present(r: RequestId, id: TokenId)
    | ReadEpoch(r: RequestId)
    | ReadFamily(r: RequestId)
    | RevokeFamily(r: RequestId)
    | Claim(r: RequestId)
    | CheckUser(r: RequestId, active: bool)
    | Issue(r: RequestId, family: FamilyId)
    | Reissue(r: RequestId, id: TokenId, user: UserId)
    | Logout(id: TokenId)
    | LogoutAll(user: UserId)
    | Abort(r: RequestId)

  // ---------------------------------------------------------------- tables

  /** The `where` clause of an updateMany that revokes tokens. */
  datatype Where = OfFamily(family: FamilyId) | OfUser(user: UserId) | OfToken(id: TokenId)

  predicate Hits(w: Where, i: TokenId, t: Token) {
    match w
    case OfFamily(f) => t.family == f
    case OfUser(u) => t.user == u
    case OfToken(id) => i == id
  }

  function RevokeWhere(ts: seq<Token>, w: Where): (r: seq<Token>)
    ensures |r| == |ts|
    ensures forall i | 0 <= i < |ts| :: r[i] == ts[i].(revoked := ts[i].revoked || Hits(w, i, ts[i]))
  {
    seq(|ts|, i requires 0 <= i < |ts| => ts[i].(revoked := ts[i].revoked || Hits(w, i, ts[i])))
  }

  predicate Used(ts: seq<Token>, f: FamilyId) {
    exists i :: 0 <= i < |ts| && ts[i].family == f
  }

  /** MIN(created_at) over a family; None for a family with no rows. */
  function FamilyStart(ts: seq<Token>, f: FamilyId): Option<Time> {
    if ts == [] then None
    else
      var last := ts[|ts| - 1];
      var before := FamilyStart(ts[..|ts| - 1], f);
      if last.family != f then before
      else if before.None? || last.createdAt < before.value then Some(last.createdAt)
      else before
  }

  predicate Predates(ts: seq<Token>, f: FamilyId, epoch: Time) {
    var start := FamilyStart(ts, f);
    start.Some? && start.value < epoch
  }

  lemma {:induction false} StartIsMinimum(ts: seq<Token>, f: FamilyId)
    ensures FamilyStart(ts, f).Some? <==> Used(ts, f)
    ensures forall i | 0 <= i < |ts| && ts[i].family == f :: FamilyStart(ts, f).Some? && FamilyStart(ts, f).value <= ts[i].createdAt
    ensures FamilyStart(ts, f).Some? ==>
              exists i :: 0 <= i < |ts| && ts[i].family == f && ts[i].createdAt == FamilyStart(ts, f).value
  {
    if ts != [] {
      var n := |ts| - 1;
      StartIsMinimum(ts[..n], f);
      assert forall i | 0 <= i < n :: ts[..n][i] == ts[i];
      if FamilyStart(ts, f).Some? {
        if FamilyStart(ts, f) == FamilyStart(ts[..n], f) {
          var i :| 0 <= i < n && ts[..n][i].family == f && ts[..n][i].createdAt == FamilyStart(ts[..n], f).value;
          assert ts[i].family == f;
        } else {
          assert ts[n].family == f;
        }
      }
    }
  }

  // ----------------------------------------------------------------- steps

  function Goto(s: State, r: RequestId, q: Request): State {
    s.(requests := s.requests[r := q])
  }

  function Drop(s: State, r: RequestId): State {
    s.(requests := s.requests - {r})
  }

  function Insert(s: State, u: UserId, f: FamilyId): State {
    s.(tokens := s.tokens + [Token(u, f, s.clock, s.clock + s.ttl, false)])
  }

  function Sweep(s: State, w: Where): State {
    s.(tokens := RevokeWhere(s.tokens, w))
  }

  predicate At(s: State, r: RequestId) {
    r in s.requests && (s.requests[r].Found? || s.requests[r].KnowsEpoch? || s.requests[r].Checked? ==> s.requests[r].id < |s.tokens|)
  }

  function Step(s: State, a: Action): State {
    match a
    case Tick(d) => s.(clock := s.clock + d)
    case Login(u, f) => if Used(s.tokens, f) then s else Insert(s, u, f)
    case Present(r, id) =>
      if r in s.requests || id >= |s.tokens| then s
      else if s.tokens[id].revoked then Goto(s, r, Dooming(s.tokens[id].family))
      else Goto(s, r, Found(id))
    case ReadEpoch(r) =>
      if !At(s, r) || !s.requests[r].Found? then s
      else
        var t := s.tokens[s.requests[r].id];
        if t.expiresAt < s.clock then Drop(s, r)
        else if t.user in s.epochs then Goto(s, r, KnowsEpoch(s.requests[r].id, s.epochs[t.user]))
        else Goto(s, r, Checked(s.requests[r].id))
    case ReadFamily(r) =>
      if !At(s, r) || !s.requests[r].KnowsEpoch? then s
      else
        var t := s.tokens[s.requests[r].id];
        if Predates(s.tokens, t.family, s.requests[r].epoch) then Goto(s, r, Dooming(t.family))
        else Goto(s, r, Checked(s.requests[r].id))
    case RevokeFamily(r) =>
      if !At(s, r) || !s.requests[r].Dooming? then s
      else Drop(Sweep(s, OfFamily(s.requests[r].family)), r)
    case Claim(r) =>
      if !At(s, r) || !s.requests[r].Checked? then s
      else
        var t := s.tokens[s.requests[r].id];
        if t.revoked then Drop(s, r)
        else Goto(Sweep(s, OfToken(s.requests[r].id)), r, Claimed(t.user, t.family))
    case CheckUser(r, active) =>
      if !At(s, r) || !s.requests[r].Claimed? then s
      else if active then Goto(s, r, Issuing(s.requests[r].user, s.requests[r].family))
      else Goto(s, r, Dooming(s.requests[r].family))
    case Issue(r, f) =>
      if !At(s, r) then s
      else if s.requests[r].Issuing? then Drop(Insert(s, s.requests[r].user, s.requests[r].family), r)
      else if s.requests[r].IssuingFresh? && !Used(s.tokens, f) then Drop(Insert(s, s.requests[r].user, f), r)
      else s
    case Reissue(r, id, u) =>
      if r in s.requests then s
      else if id >= |s.tokens| || s.tokens[id].revoked then Goto(s, r, IssuingFresh(u))
      else Goto(Sweep(s, OfToken(id)), r, Issuing(u, s.tokens[id].family))
    case Logout(id) => Sweep(s, OfToken(id))
    case LogoutAll(u) => Sweep(s.(epochs := s.epochs[u := s.clock]), OfUser(u))
    case Abort(r) => Drop(s, r)
  }

  function Steps(): (State, Action) -> State { (s: State, a: Action) => Step(s, a) }

  function Run(s: State, acts: seq<Action>): State { RunOf(Steps(), s, acts) }

  function Initial(ttl: nat): State {
    State(0, ttl, [], map[], map[])
  }

  // ------------------------------------------------------------- invariant

  /** Who may still carry a session family forward. */
  datatype Holder = LiveToken(id: TokenId) | InFlight(r: RequestId)

  predicate Holds(s: State, h: Holder, f: FamilyId) {
    match h
    case LiveToken(id) => id < |s.tokens| && !s.tokens[id].revoked && s.tokens[id].family == f
    case InFlight(r) =>
      r in s.requests && (s.requests[r].Claimed? || s.requests[r].Issuing?) && s.requests[r].family == f
  }

  ghost predicate OneHolder(s: State) {
    forall h, h', f :: Holds(s, h, f) && Holds(s, h', f) ==> h == h'
  }

  /** The session epoch does not condemn the family of token `id` for its owner. */
  predicate FamilyCurrent(s: State, id: TokenId)
    requires id < |s.tokens|
  {
    var t := s.tokens[id];
    t.user in s.epochs ==> !Predates(s.tokens, t.family, s.epochs[t.user])
  }

  predicate RequestOk(s: State, q: Request) {
    match q
    case Found(id) => id < |s.tokens|
    case KnowsEpoch(id, e) =>
      id < |s.tokens| && (!s.tokens[id].revoked ==> s.tokens[id].user in s.epochs && s.epochs[s.tokens[id].user] == e)
    case Checked(id) => id < |s.tokens| && (!s.tokens[id].revoked ==> FamilyCurrent(s, id))
    case Claimed(_, f) => Used(s.tokens, f)
    case Issuing(_, f) => Used(s.tokens, f)
    case _ => true
  }

  predicate TimesOk(s: State) {
    && (forall i | 0 <= i < |s.tokens| :: s.tokens[i].createdAt <= s.clock)
    && (forall u | u in s.epochs :: s.epochs[u] <= s.clock)
  }

  predicate RequestsOk(s: State) {
    forall r | r in s.requests :: RequestOk(s, s.requests[r])
  }

  ghost predicate Inv(s: State) {
    TimesOk(s) && RequestsOk(s) && OneHolder(s)
  }

  /** What every step does to the token table. */
  ghost predicate Grows(ts: seq<Token>, ts': seq<Token>, now: Time) {
    && |ts| <= |ts'|
    && (forall i | 0 <= i < |ts| :: ts'[i].(revoked := ts[i].revoked) == ts[i] && (ts[i].revoked ==> ts'[i].revoked))
    && (forall i | |ts| <= i < |ts'| :: ts'[i].createdAt >= now)
  }

  lemma StepGrows(s: State, a: Action)
    ensures Grows(s.tokens, Step(s, a).tokens, s.clock)
    ensures s.clock <= Step(s, a).clock
  {
  }

  /** A family's start is fixed by its first row. */
  lemma {:induction false} StartIsStable(ts: seq<Token>, ts': seq<Token>, now: Time, f: FamilyId)
    requires Grows(ts, ts', now) && Used(ts, f)
    requires forall i | 0 <= i < |ts| :: ts[i].createdAt <= now
    ensures Used(ts', f) && FamilyStart(ts', f) == FamilyStart(ts, f)
  {
    StartIsMinimum(ts, f);
    StartIsMinimum(ts', f);
    var i :| 0 <= i < |ts| && ts[i].family == f && ts[i].createdAt == FamilyStart(ts, f).value;
    assert ts'[i].family == f && ts'[i].createdAt == ts[i].createdAt;
    var j :| 0 <= j < |ts'| && ts'[j].family == f && ts'[j].createdAt == FamilyStart(ts', f).value;
    if j < |ts| {
      assert ts[j].family == f && ts[j].createdAt == ts'[j].createdAt;
    }
  }
}
