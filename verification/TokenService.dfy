/**
 * TokenService and AuthService in their own form: methods that update the token
 * table statement by statement, with other requests running in every gap. The
 * log records what was performed; the tables are always the protocol's run over
 * it, so TokenSafety applies to every execution of these methods.
 */
module TokenService {
  import opened Options
  import opened TokenProtocol
  import opened TokenSafety
  import opened Traces

  datatype AuthError = InvalidToken | ReuseDetected | Expired | NotActive

  predicate Concerns(a: Action, r: RequestId) {
    match a
    case Present(q, _) => q == r
    case ReadEpoch(q) => q == r
    case ReadFamily(q) => q == r
    case RevokeFamily(q) => q == r
    case Claim(q) => q == r
    case CheckUser(q, _) => q == r
    case Issue(q, _) => q == r
    case Reissue(q, _, _) => q == r
    case Abort(q) => q == r
    case _ => false
  }

  predicate Elsewhere(acts: seq<Action>, r: RequestId) {
    forall i | 0 <= i < |acts| :: !Concerns(acts[i], r)
  }

  /** The statements rotate performs for each of its outcomes. */
  predicate RotatePath(r: RequestId, id: TokenId, res: Result<(UserId, FamilyId), AuthError>, own: seq<Action>) {
    var claim := own == [Present(r, id), ReadEpoch(r), Claim(r)]
                 || own == [Present(r, id), ReadEpoch(r), ReadFamily(r), Claim(r)];
    match res
    case Ok(_) => claim
    case Err(InvalidToken) =>
      claim || own == [Present(r, id)] || own == [Present(r, id), ReadEpoch(r), ReadFamily(r), RevokeFamily(r)]
    case Err(ReuseDetected) => own == [Present(r, id), RevokeFamily(r)]
    case Err(Expired) => own == [Present(r, id), ReadEpoch(r)]
    case Err(NotActive) => false
  }

  lemma {:induction false} OthersKeep(s: State, acts: seq<Action>, r: RequestId)
    requires Elsewhere(acts, r)
    ensures r in Run(s, acts).requests <==> r in s.requests
    ensures r in s.requests ==> Run(s, acts).requests[r] == s.requests[r]
    ensures Persist(s.tokens, Run(s, acts).tokens)
    decreases |acts|
  {
    if acts != [] {
      var s' := Step(s, acts[0]);
      StepGrows(s, acts[0]);
      OthersKeep(s', acts[1..], r);
      PersistTransitive(s.tokens, s'.tokens, Run(s, acts).tokens);
    }
  }

  /** Rows keep their identity, and a revoked row stays revoked. */
  ghost predicate Persist(ts: seq<Token>, ts': seq<Token>) {
    |ts| <= |ts'|
    && forall i | 0 <= i < |ts| :: ts'[i].(revoked := ts[i].revoked) == ts[i] && (ts[i].revoked ==> ts'[i].revoked)
  }

  lemma PersistTransitive(a: seq<Token>, b: seq<Token>, c: seq<Token>)
    requires Persist(a, b) && Persist(b, c)
    ensures Persist(a, c)
  {
    forall i | 0 <= i < |a| ensures c[i].(revoked := a[i].revoked) == a[i] && (a[i].revoked ==> c[i].revoked) {
      assert b[i].(revoked := a[i].revoked) == a[i];
    }
  }

  lemma ExplainsRun(ttl: nat, log: seq<Action>, s: State)
    requires Explains(Steps(), Initial(ttl), log, s)
    ensures s == Run(Initial(ttl), log) && Inv(s)
  {
    assert Unfold(0);
    ReachableInv(ttl, log);
  }

  class Server {
    const ttl: nat
    var clock: Time
    var tokens: seq<Token>
    var epochs: map<UserId, Time>
    var requests: map<RequestId, Request> // where every request in flight stands
    ghost var log: seq<Action>

    ghost function Now(): State reads this { State(clock, ttl, tokens, epochs, requests) }

    ghost predicate Valid() reads this { Explains(Steps(), Initial(ttl), log, Now()) }

    constructor (ttl: nat)
      ensures Valid() && log == [] && this.ttl == ttl
    {
      this.ttl := ttl;
      clock, tokens, epochs, requests, log := 0, [], map[], map[], [];
    }

    method Perform(a: Action)
      requires Valid()
      modifies this
      ensures Valid() && log == old(log) + [a] && Now() == Step(old(Now()), a)
    {
      var s := Step(State(clock, ttl, tokens, epochs, requests), a);
      ExplainsOne(Steps(), Initial(ttl), log, Now(), a);
      clock, tokens, epochs, requests := s.clock, s.tokens, s.epochs, s.requests;
      log := log + [a];
    }

    /** Whatever the other requests do between two statements of request `r`. */
    method OthersRun(gap: seq<Action>, ghost r: RequestId)
      requires Valid() && Elsewhere(gap, r)
      modifies this
      ensures Valid() && log == old(log) + gap
      ensures r in requests <==> r in old(requests)
      ensures r in requests ==> requests[r] == old(requests[r])
      ensures Persist(old(tokens), tokens)
    {
      ghost var start, before := Now(), log;
      var k := 0;
      assert gap[..0] == [];
      while k < |gap|
        invariant 0 <= k <= |gap|
        invariant Valid() && log == before + gap[..k]
        invariant Now() == Run(start, gap[..k])
      {
        RunSnoc(Steps(), start, gap[..k], gap[k]);
        assert gap[..k + 1] == gap[..k] + [gap[k]];
        Perform(gap[k]);
        k := k + 1;
      }
      assert gap[..|gap|] == gap;
      OthersKeep(start, gap, r);
    }

    /** TokenService.revokeAllForUser: both statements in one transaction. */
    method RevokeAllForUser(u: UserId)
      requires Valid()
      modifies this`epochs, this`tokens, this`log
      ensures Valid() && log == old(log) + [LogoutAll(u)]
      ensures epochs == old(epochs)[u := clock] && tokens == RevokeWhere(old(tokens), OfUser(u))
      ensures |tokens| == |old(tokens)|
              && forall i | 0 <= i < |tokens| :: tokens[i] == old(tokens)[i].(revoked := old(tokens)[i].revoked || old(tokens)[i].user == u)
    {
      ExplainsOne(Steps(), Initial(ttl), log, Now(), LogoutAll(u));
      var at := clock;
      epochs := epochs[u := at];
      tokens := RevokeWhere(tokens, OfUser(u));
      log := log + [LogoutAll(u)];
    }

    /** The findUnique of rotate. */
    method FindToken(r: RequestId, id: TokenId) returns (existing: Option<Token>)
      requires Valid() && r !in requests
      modifies this`requests, this`log
      ensures Valid() && log == old(log) + [Present(r, id)]
      ensures existing == if id < |tokens| then Some(tokens[id]) else None
      ensures requests == if existing.None? then old(requests)
                          else old(requests)[r := if existing.value.revoked then Dooming(existing.value.family) else Found(id)]
    {
      ExplainsOne(Steps(), Initial(ttl), log, Now(), Present(r, id));
      log := log + [Present(r, id)];
      if id >= |tokens| { return None; }
      existing := Some(tokens[id]);
      requests := requests[r := if existing.value.revoked then Dooming(existing.value.family) else Found(id)];
    }

    /** The expiry test and the read of the owner's session epoch. */
    method ReadSessionsValidFrom(r: RequestId, id: TokenId, existing: Token)
      returns (expired: bool, sessionsValidFrom: Option<Time>)
      requires Valid() && r in requests && requests[r] == Found(id)
      requires id < |tokens| && tokens[id].(revoked := existing.revoked) == existing
      modifies this`requests, this`log
      ensures Valid() && log == old(log) + [ReadEpoch(r)]
      ensures expired == (existing.expiresAt < clock)
      ensures !expired ==> sessionsValidFrom == if existing.user in epochs then Some(epochs[existing.user]) else None
      ensures requests == if expired then old(requests) - {r}
                          else old(requests)[r := if sessionsValidFrom.None? then Checked(id) else KnowsEpoch(id, sessionsValidFrom.value)]
    {
      ExplainsOne(Steps(), Initial(ttl), log, Now(), ReadEpoch(r));
      log := log + [ReadEpoch(r)];
      if existing.expiresAt < clock {
        requests := requests - {r};
        return true, None;
      }
      expired, sessionsValidFrom := false, if existing.user in epochs then Some(epochs[existing.user]) else None;
      requests := requests[r := if sessionsValidFrom.None? then Checked(id) else KnowsEpoch(id, sessionsValidFrom.value)];
    }

    /** The aggregate over the family, and the comparison with the epoch. */
    method FamilyIsCondemned(r: RequestId, id: TokenId, existing: Token, epoch: Time) returns (condemned: bool)
      requires Valid() && r in requests && requests[r] == KnowsEpoch(id, epoch)
      requires id < |tokens| && tokens[id].(revoked := existing.revoked) == existing
      modifies this`requests, this`log
      ensures Valid() && log == old(log) + [ReadFamily(r)]
      ensures condemned == Predates(tokens, existing.family, epoch)
      ensures requests == old(requests)[r := if condemned then Dooming(existing.family) else Checked(id)]
    {
      ExplainsOne(Steps(), Initial(ttl), log, Now(), ReadFamily(r));
      log := log + [ReadFamily(r)];
      condemned := Predates(tokens, existing.family, epoch);
      requests := requests[r := if condemned then Dooming(existing.family) else Checked(id)];
    }

    /** TokenService.revokeFamily, on behalf of a request that then fails. */
    method RevokeFamilyFor(r: RequestId, f: FamilyId)
      requires Valid() && r in requests && requests[r] == Dooming(f)
      modifies this`tokens, this`requests, this`log
      ensures Valid() && log == old(log) + [RevokeFamily(r)]
      ensures tokens == RevokeWhere(old(tokens), OfFamily(f)) && requests == old(requests) - {r}
      ensures |tokens| == |old(tokens)|
              && forall i | 0 <= i < |tokens| :: tokens[i] == old(tokens)[i].(revoked := old(tokens)[i].revoked || old(tokens)[i].family == f)
    {
      ExplainsOne(Steps(), Initial(ttl), log, Now(), RevokeFamily(r));
      log := log + [RevokeFamily(r)];
      tokens := RevokeWhere(tokens, OfFamily(f));
      requests := requests - {r};
    }

    /** The conditional updateMany; its count is 0 or 1. */
    method ClaimToken(r: RequestId, id: TokenId, existing: Token) returns (count: nat)
      requires Valid() && r in requests && requests[r] == Checked(id)
      requires id < |tokens| && tokens[id].(revoked := existing.revoked) == existing
      modifies this`tokens, this`requests, this`log
      ensures Valid() && log == old(log) + [Claim(r)]
      ensures count == if old(tokens)[id].revoked then 0 else 1
      ensures tokens == RevokeWhere(old(tokens), OfToken(id))
      ensures tokens == old(tokens)[id := old(tokens)[id].(revoked := true)]
      ensures requests == if count == 0 then old(requests) - {r} else old(requests)[r := Claimed(existing.user, existing.family)]
      ensures count == 1 ==> FamilyCurrent(Now(), id)
    {
      ExplainsOne(Steps(), Initial(ttl), log, Now(), Claim(r));
      ExplainsRun(ttl, log, Now());
      log := log + [Claim(r)];
      if tokens[id].revoked {
        requests := requests - {r};
        assert RevokeWhere(tokens, OfToken(id)) == tokens;
        return 0;
      }
      count := 1;
      ClaimKeepsStart(tokens, OfToken(id), existing.family);
      tokens := RevokeWhere(tokens, OfToken(id));
      requests := requests[r := Claimed(existing.user, existing.family)];
    }

    /**
     * The expiry test and assertSessionNotRevoked, up to the point where rotate
     * issues its conditional update.
     */
    method CheckSession(r: RequestId, id: TokenId, existing: Token, gaps: seq<seq<Action>>, ghost start: seq<Action>)
      returns (failure: Option<AuthError>, ghost own: seq<Action>)
      requires Valid() && |gaps| == 4 && forall k | 0 <= k < 4 :: Elsewhere(gaps[k], r)
      requires r in requests && requests[r] == Found(id)
      requires id < |tokens| && tokens[id].(revoked := existing.revoked) == existing
      requires log == Weave(start, gaps, [Present(r, id)]) + gaps[1]
      modifies this
      ensures Valid() && Persist(old(tokens), tokens) && 2 <= |own| <= 4
      ensures failure.None? ==>
                r in requests && requests[r] == Checked(id) && |own| <= 3 && log == Weave(start, gaps, own) + gaps[|own|]
                && (own == [Present(r, id), ReadEpoch(r)] || own == [Present(r, id), ReadEpoch(r), ReadFamily(r)])
      ensures failure.Some? ==>
                r !in requests && log == Weave(start, gaps, own) && failure.value in {InvalidToken, Expired}
                && own == if failure.value == Expired then [Present(r, id), ReadEpoch(r)]
                          else [Present(r, id), ReadEpoch(r), ReadFamily(r), RevokeFamily(r)]
      ensures failure == Some(Expired) ==> existing.expiresAt < clock
    {
      own := [Present(r, id)];
      var expired, sessionsValidFrom := ReadSessionsValidFrom(r, id, existing);
      WeaveOne(start, gaps, own, ReadEpoch(r));
      own := own + [ReadEpoch(r)];
      if expired { return Some(Expired), own; }

      OthersRun(gaps[2], r);
      if sessionsValidFrom.None? { return None, own; }
      var condemned := FamilyIsCondemned(r, id, existing, sessionsValidFrom.value);
      WeaveOne(start, gaps, own, ReadFamily(r));
      own := own + [ReadFamily(r)];

      OthersRun(gaps[3], r);
      if condemned {
        RevokeFamilyFor(r, existing.family);
        WeaveOne(start, gaps, own, RevokeFamily(r));
        return Some(InvalidToken), own + [RevokeFamily(r)];
      }
      failure := None;
    }

    /** The rest of rotate once the presented row was read and was not revoked. */
    method RotateLive(r: RequestId, id: TokenId, existing: Token, gaps: seq<seq<Action>>, ghost start: seq<Action>)
      returns (res: Result<(UserId, FamilyId), AuthError>, ghost own: seq<Action>)
      requires Valid() && |gaps| == 4 && forall k | 0 <= k < 4 :: Elsewhere(gaps[k], r)
      requires r in requests && requests[r] == Found(id)
      requires id < |tokens| && tokens[id].(revoked := existing.revoked) == existing
      requires log == Weave(start, gaps, [Present(r, id)]) + gaps[1]
      modifies this
      ensures Valid() && |own| <= 4 && log == Weave(start, gaps, own) && RotatePath(r, id, res, own)
      ensures res.Err? ==> r !in requests && res.error in {InvalidToken, Expired}
      ensures res.Ok? ==>
                r in requests && requests[r] == Claimed(res.value.0, res.value.1)
                && id < |tokens| && tokens[id].revoked && res.value == (tokens[id].user, tokens[id].family)
                && FamilyCurrent(Now(), id)
      ensures res == Err(Expired) ==> id < |tokens| && tokens[id].expiresAt < clock
    {
      var failure;
      failure, own := CheckSession(r, id, existing, gaps, start);
      if failure.Some? { return Err(failure.value), own; }

      var count := ClaimToken(r, id, existing);
      WeaveOne(start, gaps, own, Claim(r));
      own := own + [Claim(r)];
      if count == 0 { return Err(InvalidToken), own; }
      res := Ok((existing.user, existing.family));
    }

    /** The reuse branch: the whole family dies, whoever presented the row. */
    method RefuseReuse(r: RequestId, id: TokenId, existing: Token, gaps: seq<seq<Action>>, ghost start: seq<Action>)
      returns (ghost own: seq<Action>)
      requires Valid() && |gaps| == 4
      requires r in requests && requests[r] == Dooming(existing.family)
      requires id < |tokens| && tokens[id].(revoked := existing.revoked) == existing
      requires log == Weave(start, gaps, [Present(r, id)]) + gaps[1]
      modifies this
      ensures Valid() && own == [Present(r, id)] + [RevokeFamily(r)] && log == Weave(start, gaps, own) && r !in requests
      ensures id < |tokens|
              && forall i | 0 <= i < |tokens| && tokens[i].family == tokens[id].family :: tokens[i].revoked
      ensures |tokens| == |old(tokens)|
              && forall i | 0 <= i < |tokens| && tokens[i].family != existing.family :: tokens[i] == old(tokens)[i]
    {
      RevokeFamilyFor(r, existing.family);
      WeaveOne(start, gaps, [Present(r, id)], RevokeFamily(r));
      own := [Present(r, id)] + [RevokeFamily(r)];
    }

    /** TokenService.rotate; `gaps[k]` runs before its k-th statement. */
    method Rotate(r: RequestId, presented: TokenId, gaps: seq<seq<Action>>)
      returns (res: Result<(UserId, FamilyId), AuthError>, ghost own: seq<Action>)
      requires Valid() && |gaps| == 4 && forall k | 0 <= k < 4 :: Elsewhere(gaps[k], r)
      requires r !in requests
      modifies this
      ensures Valid() && |own| <= 4 && log == Weave(old(log), gaps, own) && RotatePath(r, presented, res, own)
      ensures res.Err? ==> r !in requests
      ensures res.Ok? ==>
                r in requests && requests[r] == Claimed(res.value.0, res.value.1)
                && presented < |tokens| && tokens[presented].revoked
                && res.value == (tokens[presented].user, tokens[presented].family)
      ensures res.Ok? ==> FamilyCurrent(Now(), presented)
      ensures res == Err(ReuseDetected) ==>
                presented < |tokens|
                && forall i | 0 <= i < |tokens| && tokens[i].family == tokens[presented].family :: tokens[i].revoked
      ensures res == Err(Expired) ==> presented < |tokens| && tokens[presented].expiresAt < clock
    {
      own := [];
      ghost var start := log;
      OthersRun(gaps[0], r);
      var found := FindToken(r, presented);
      WeaveOne(start, gaps, own, Present(r, presented));
      own := [Present(r, presented)];
      if found.None? { return Err(InvalidToken), own; }
      var existing := found.value;

      OthersRun(gaps[1], r);
      if existing.revoked {
        own := RefuseReuse(r, presented, existing, gaps, start);
        return Err(ReuseDetected), own;
      }

      res, own := RotateLive(r, presented, existing, gaps, start);
    }

    /** The re-read of the user after rotate. */
    method RecheckUser(r: RequestId, u: UserId, f: FamilyId, active: bool)
      requires Valid() && r in requests && requests[r] == Claimed(u, f)
      modifies this`requests, this`log
      ensures Valid() && log == old(log) + [CheckUser(r, active)]
      ensures requests == old(requests)[r := if active then Issuing(u, f) else Dooming(f)]
    {
      ExplainsOne(Steps(), Initial(ttl), log, Now(), CheckUser(r, active));
      log := log + [CheckUser(r, active)];
      requests := requests[r := if active then Issuing(u, f) else Dooming(f)];
    }

    /** TokenService.issue into an existing family. */
    method IssueInto(r: RequestId, u: UserId, f: FamilyId) returns (id: TokenId)
      requires Valid() && r in requests && requests[r] == Issuing(u, f)
      modifies this`tokens, this`requests, this`log
      ensures Valid() && log == old(log) + [Issue(r, 0)]
      ensures id == |old(tokens)| && tokens == old(tokens) + [Token(u, f, clock, clock + ttl, false)]
      ensures requests == old(requests) - {r}
    {
      ExplainsOne(Steps(), Initial(ttl), log, Now(), Issue(r, 0));
      log := log + [Issue(r, 0)];
      id := |tokens|;
      tokens := tokens + [Token(u, f, clock, clock + ttl, false)];
      requests := requests - {r};
    }

    /** AuthService.refresh: rotate, re-read the user, issue the replacement. */
    method Refresh(r: RequestId, presented: TokenId, active: bool, gaps: seq<seq<Action>>, late: seq<seq<Action>>)
      returns (res: Result<TokenId, AuthError>, ghost own: seq<Action>)
      requires Valid() && |gaps| == 4 && forall k | 0 <= k < 4 :: Elsewhere(gaps[k], r)
      requires |late| == 2 && Elsewhere(late[0], r) && Elsewhere(late[1], r)
      requires r !in requests
      modifies this
      ensures Valid() && r !in requests && |own| <= 4
      ensures var rotated := Weave(old(log), gaps, own);
              log == match res
                     case Ok(_) => rotated + late[0] + [CheckUser(r, true)] + late[1] + [Issue(r, 0)]
                     case Err(NotActive) => rotated + late[0] + [CheckUser(r, false)] + late[1] + [RevokeFamily(r)]
                     case Err(_) => rotated
      ensures res.Ok? ==>
                active && presented < res.value == |tokens| - 1 && !tokens[res.value].revoked && tokens[presented].revoked
                && tokens[res.value].family == tokens[presented].family && tokens[res.value].user == tokens[presented].user
      ensures res == Err(NotActive) ==>
                !active && presented < |tokens|
                && forall i | 0 <= i < |tokens| && tokens[i].family == tokens[presented].family :: tokens[i].revoked
    {
      var claimed;
      claimed, own := Rotate(r, presented, gaps);
      if claimed.Err? { return Err(claimed.error), own; }
      var (userId, familyId) := claimed.value;

      OthersRun(late[0], r);
      RecheckUser(r, userId, familyId, active);
      OthersRun(late[1], r);
      if !active {
        RevokeFamilyFor(r, familyId);
        return Err(NotActive), own;
      }
      var id := IssueInto(r, userId, familyId);
      res := Ok(id);
    }

    /** randomUUID: some family id that no row carries. */
    method NewFamilyId() returns (f: FamilyId)
      ensures !Used(tokens, f)
    {
      f := 0;
      var i := 0;
      while i < |tokens|
        invariant 0 <= i <= |tokens|
        invariant forall j | 0 <= j < i :: tokens[j].family < f
      {
        if tokens[i].family >= f { f := tokens[i].family + 1; }
        i := i + 1;
      }
    }

    /** login, once the password was accepted: issue into a family of its own. */
    method SignIn(u: UserId) returns (id: TokenId, f: FamilyId)
      requires Valid()
      modifies this`tokens, this`log
      ensures Valid() && log == old(log) + [Login(u, f)] && !Used(old(tokens), f)
      ensures id == |old(tokens)| && tokens == old(tokens) + [Token(u, f, clock, clock + ttl, false)]
    {
      f := NewFamilyId();
      ExplainsOne(Steps(), Initial(ttl), log, Now(), Login(u, f));
      log := log + [Login(u, f)];
      id := |tokens|;
      tokens := tokens + [Token(u, f, clock, clock + ttl, false)];
    }

    /** logout: only the row of the presented token, if there is one. */
    method SignOut(presented: Option<TokenId>)
      requires Valid()
      modifies this`tokens, this`log
      ensures Valid() && log == if presented.None? then old(log) else old(log) + [Logout(presented.value)]
      ensures tokens == if presented.None? then old(tokens) else RevokeWhere(old(tokens), OfToken(presented.value))
      ensures |tokens| == |old(tokens)|
              && forall i | 0 <= i < |tokens| ::
                   tokens[i] == old(tokens)[i].(revoked := old(tokens)[i].revoked || presented == Some(i))
    {
      if presented.None? { return; }
      ExplainsOne(Steps(), Initial(ttl), log, Now(), Logout(presented.value));
      tokens := RevokeWhere(tokens, OfToken(presented.value));
      log := log + [Logout(presented.value)];
    }

    /** TokenService.rotateForReissue, as one atomic statement. */
    method RotateForReissue(r: RequestId, presented: TokenId, u: UserId) returns (family: Option<FamilyId>)
      requires Valid() && r !in requests
      modifies this`tokens, this`requests, this`log
      ensures Valid() && log == old(log) + [Reissue(r, presented, u)]
      ensures family == if presented < |old(tokens)| && !old(tokens)[presented].revoked then Some(old(tokens)[presented].family) else None
      ensures tokens == if family.Some? then RevokeWhere(old(tokens), OfToken(presented)) else old(tokens)
      ensures tokens == if family.Some? then old(tokens)[presented := old(tokens)[presented].(revoked := true)] else old(tokens)
      ensures requests == old(requests)[r := if family.Some? then Issuing(u, family.value) else IssuingFresh(u)]
    {
      ExplainsOne(Steps(), Initial(ttl), log, Now(), Reissue(r, presented, u));
      log := log + [Reissue(r, presented, u)];
      if presented >= |tokens| || tokens[presented].revoked {
        requests := requests[r := IssuingFresh(u)];
        return None;
      }
      family := Some(tokens[presented].family);
      tokens := RevokeWhere(tokens, OfToken(presented));
      requests := requests[r := Issuing(u, family.value)];
    }

    /** issue without a family, for a request whose token was not reusable. */
    method IssueFresh(r: RequestId, u: UserId) returns (id: TokenId, ghost f: FamilyId)
      requires Valid() && r in requests && requests[r] == IssuingFresh(u)
      modifies this`tokens, this`requests, this`log
      ensures Valid() && log == old(log) + [Issue(r, f)] && !Used(old(tokens), f)
      ensures id == |old(tokens)| && tokens == old(tokens) + [Token(u, f, clock, clock + ttl, false)]
      ensures requests == old(requests) - {r}
    {
      var family := NewFamilyId();
      f := family;
      ExplainsOne(Steps(), Initial(ttl), log, Now(), Issue(r, f));
      log := log + [Issue(r, f)];
      id := |tokens|;
      tokens := tokens + [Token(u, family, clock, clock + ttl, false)];
      requests := requests - {r};
    }

    /**
     * selectRestaurant with a refresh cookie, after the membership check. The new
     * token continues the presented one's family exactly if that was still live;
     * otherwise it starts a family of its own.
     */
    method SelectRestaurant(r: RequestId, u: UserId, presented: TokenId, gap: seq<Action>)
      returns (id: TokenId, continued: bool, ghost f: FamilyId)
      requires Valid() && r !in requests && Elsewhere(gap, r)
      modifies this
      ensures Valid() && r !in requests
      ensures log == old(log) + [Reissue(r, presented, u)] + gap + [Issue(r, f)]
      ensures continued == (presented < |old(tokens)| && !old(tokens)[presented].revoked)
      ensures id == |tokens| - 1 && tokens[id].user == u && !tokens[id].revoked && tokens[id].createdAt == clock
      ensures continued ==> presented < id && tokens[presented].revoked && tokens[id].family == old(tokens)[presented].family
      ensures !continued ==> tokens[id].family == f && !Used(tokens[..id], f)
    {
      var family := RotateForReissue(r, presented, u);
      OthersRun(gap, r);
      continued := family.Some?;
      if family.Some? {
        id := IssueInto(r, u, family.value);
        f := 0;
      } else {
        id, f := IssueFresh(r, u);
      }
    }
  }

  /** Revoking rows does not move a family's start. */
  lemma {:induction false} ClaimKeepsStart(ts: seq<Token>, w: Where, f: FamilyId)
    ensures FamilyStart(RevokeWhere(ts, w), f) == FamilyStart(ts, f)
  {
    var ts' := RevokeWhere(ts, w);
    if Used(ts, f) {
      var hi := Latest(ts);
      StartIsStable(ts, ts', hi, f);
    } else {
      StartIsMinimum(ts, f);
      StartIsMinimum(ts', f);
    }
  }

  /** A time no earlier than any row's. */
  function Latest(ts: seq<Token>): (t: Time)
    ensures forall i | 0 <= i < |ts| :: ts[i].createdAt <= t
  {
    if ts == [] then 0
    else
      var before := Latest(ts[..|ts| - 1]);
      assert forall i | 0 <= i < |ts| - 1 :: ts[i] == ts[..|ts| - 1][i];
      if ts[|ts| - 1].createdAt > before then ts[|ts| - 1].createdAt else before
  }
}
