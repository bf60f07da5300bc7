/** What every step, and so every run, of the refresh-token protocol keeps. */
module TokenSafety {
  import opened Options
  import opened TokenProtocol
  import opened Traces

  // ------------------------------------------------------------- lineage

  /** The holder of the same family that `h` replaces when `a` is performed. */
  function Ancestor(s: State, a: Action, h: Holder): Holder {
    match a
    case Claim(r) => if h == InFlight(r) && At(s, r) && s.requests[r].Checked? then LiveToken(s.requests[r].id) else h
    case Reissue(r, id, _) => if h == InFlight(r) && r !in s.requests then LiveToken(id) else h
    case Issue(r, _) => if h == LiveToken(|s.tokens|) then InFlight(r) else h
    case _ => h
  }

  lemma StepLineage(s: State, a: Action, h: Holder, f: FamilyId)
    requires RequestsOk(s) && Used(s.tokens, f) && Holds(Step(s, a), h, f)
    ensures Holds(s, Ancestor(s, a, h), f)
  {
  }

  lemma StepLineageInjective(s: State, a: Action, h: Holder, h': Holder, f: FamilyId)
    requires RequestsOk(s) && Used(s.tokens, f)
    requires Holds(Step(s, a), h, f) && Holds(Step(s, a), h', f)
    requires Ancestor(s, a, h) == Ancestor(s, a, h')
    ensures h == h'
  {
  }

  lemma FreshFamilyHasOneHolder(s: State, a: Action, h: Holder, f: FamilyId)
    requires RequestsOk(s) && !Used(s.tokens, f) && Holds(Step(s, a), h, f)
    ensures h == LiveToken(|s.tokens|)
  {
  }

  lemma StepKeepsOneHolder(s: State, a: Action)
    requires Inv(s)
    ensures OneHolder(Step(s, a))
  {
    var s' := Step(s, a);
    forall h, h', f | Holds(s', h, f) && Holds(s', h', f) ensures h == h' {
      if Used(s.tokens, f) {
        StepLineage(s, a, h, f);
        StepLineage(s, a, h', f);
        StepLineageInjective(s, a, h, h', f);
      } else {
        FreshFamilyHasOneHolder(s, a, h, f);
        FreshFamilyHasOneHolder(s, a, h', f);
      }
    }
  }

  // ------------------------------------------------------ the session epoch

  /** While a token stays live, its owner has not signed out everywhere. */
  lemma LiveTokenFixesEpoch(s: State, a: Action, id: TokenId)
    requires id < |s.tokens| && !Step(s, a).tokens[id].revoked
    ensures !s.tokens[id].revoked
    ensures var u := s.tokens[id].user;
            Step(s, a).tokens[id].user == u && Step(s, a).tokens[id].family == s.tokens[id].family
            && (u in Step(s, a).epochs <==> u in s.epochs)
            && (u in s.epochs ==> Step(s, a).epochs[u] == s.epochs[u])
  {
  }

  lemma StepKeepsCurrent(s: State, a: Action, id: TokenId)
    requires TimesOk(s) && id < |s.tokens| && FamilyCurrent(s, id)
    requires !Step(s, a).tokens[id].revoked
    ensures FamilyCurrent(Step(s, a), id)
  {
    StepGrows(s, a);
    LiveTokenFixesEpoch(s, a, id);
    StartIsStable(s.tokens, Step(s, a).tokens, s.clock, s.tokens[id].family);
  }

  lemma StepKeepsUsed(s: State, a: Action, f: FamilyId)
    requires Used(s.tokens, f)
    ensures Used(Step(s, a).tokens, f)
  {
    StepGrows(s, a);
    var i :| 0 <= i < |s.tokens| && s.tokens[i].family == f;
    assert Step(s, a).tokens[i].family == f;
  }

  /** A request that `a` does not move stays in order. */
  lemma StepKeepsRequest(s: State, a: Action, q: Request)
    requires TimesOk(s) && RequestOk(s, q)
    ensures RequestOk(Step(s, a), q)
  {
    StepGrows(s, a);
    match q
    case Found(_) =>
    case KnowsEpoch(id, _) =>
      if !Step(s, a).tokens[id].revoked { LiveTokenFixesEpoch(s, a, id); }
    case Checked(id) =>
      if !Step(s, a).tokens[id].revoked {
        LiveTokenFixesEpoch(s, a, id);
        StepKeepsCurrent(s, a, id);
      }
    case Claimed(_, f) => StepKeepsUsed(s, a, f);
    case Issuing(_, f) => StepKeepsUsed(s, a, f);
    case _ =>
  }

  /** Claims and re-issues carry a family that has tokens. */
  lemma ClaimKeepsFamily(s: State, a: Action, r: RequestId)
    requires a.Claim? || a.Reissue?
    requires r in Step(s, a).requests && (r in s.requests ==> Step(s, a).requests[r] != s.requests[r])
    ensures RequestOk(Step(s, a), Step(s, a).requests[r])
  {
    StepGrows(s, a);
    if a.Claim? {
      StepKeepsUsed(s, a, s.tokens[s.requests[r].id].family);
    } else if Step(s, a).requests[r].Issuing? {
      assert Used(s.tokens, s.tokens[a.id].family);
      StepKeepsUsed(s, a, s.tokens[a.id].family);
    }
  }

  /** A request that `a` does move is in order at its new point. */
  lemma StepMovesRequest(s: State, a: Action, r: RequestId)
    requires TimesOk(s) && RequestsOk(s)
    requires r in Step(s, a).requests && (r in s.requests ==> Step(s, a).requests[r] != s.requests[r])
    ensures RequestOk(Step(s, a), Step(s, a).requests[r])
  {
    if a.Claim? || a.Reissue? { ClaimKeepsFamily(s, a, r); }
  }

  lemma StepKeepsInv(s: State, a: Action)
    requires Inv(s)
    ensures Inv(Step(s, a))
  {
    StepKeepsOneHolder(s, a);
    StepGrows(s, a);
    forall r | r in Step(s, a).requests ensures RequestOk(Step(s, a), Step(s, a).requests[r]) {
      if r in s.requests && s.requests[r] == Step(s, a).requests[r] {
        StepKeepsRequest(s, a, s.requests[r]);
      } else {
        StepMovesRequest(s, a, r);
      }
    }
  }

  lemma {:induction false} RunKeepsInv(s: State, acts: seq<Action>)
    requires Inv(s)
    ensures Inv(Run(s, acts))
    decreases |acts|
  {
    if acts != [] {
      StepKeepsInv(s, acts[0]);
      RunKeepsInv(Step(s, acts[0]), acts[1..]);
    }
  }

  lemma ReachableInv(ttl: nat, acts: seq<Action>)
    ensures Inv(Run(Initial(ttl), acts))
  {
    RunKeepsInv(Initial(ttl), acts);
  }

  // ----------------------------------------------------------- main results

  /** The conditional update in rotate that consumes a token matches its row. */
  predicate ClaimSucceeds(s: State, r: RequestId) {
    At(s, r) && s.requests[r].Checked? && !s.tokens[s.requests[r].id].revoked
  }

  /**
   * Every successful claim, in every interleaving, is on a token whose family
   * began no earlier than its owner's session epoch at the moment of the claim.
   */
  lemma ClaimsAreCurrent(ttl: nat, acts: seq<Action>, r: RequestId)
    requires ClaimSucceeds(Run(Initial(ttl), acts), r)
    ensures FamilyCurrent(Run(Initial(ttl), acts), Run(Initial(ttl), acts).requests[r].id)
  {
    ReachableInv(ttl, acts);
  }

  lemma GrowsTransitive(a: seq<Token>, b: seq<Token>, c: seq<Token>, now: Time, later: Time)
    requires Grows(a, b, now) && Grows(b, c, later) && now <= later
    ensures Grows(a, c, now)
  {
    forall i | 0 <= i < |a| ensures c[i].(revoked := a[i].revoked) == a[i] && (a[i].revoked ==> c[i].revoked) {
      assert b[i].(revoked := a[i].revoked) == a[i];
    }
    forall i | |a| <= i < |c| ensures c[i].createdAt >= now {
      if i < |b| { assert c[i].createdAt == b[i].createdAt; }
    }
  }

  lemma {:induction false} RunGrows(s: State, acts: seq<Action>)
    requires TimesOk(s)
    ensures Grows(s.tokens, Run(s, acts).tokens, s.clock) && s.clock <= Run(s, acts).clock
    decreases |acts|
  {
    if acts != [] {
      var s' := Step(s, acts[0]);
      StepGrows(s, acts[0]);
      RunGrows(s', acts[1..]);
      GrowsTransitive(s.tokens, s'.tokens, Run(s, acts).tokens, s.clock, s'.clock);
    }
  }

  /** Epochs only move forward. */
  lemma {:induction false} EpochsAdvance(s: State, acts: seq<Action>, u: UserId)
    requires TimesOk(s) && u in s.epochs
    ensures u in Run(s, acts).epochs && s.epochs[u] <= Run(s, acts).epochs[u]
    decreases |acts|
  {
    if acts != [] {
      StepGrows(s, acts[0]);
      EpochsAdvance(Step(s, acts[0]), acts[1..], u);
    }
  }

  /** This claim, if it succeeds, rotates family f for user u. */
  predicate Rotates(s: State, r: RequestId, u: UserId, f: FamilyId) {
    ClaimSucceeds(s, r) && s.tokens[s.requests[r].id].user == u && s.tokens[s.requests[r].id].family == f
  }

  lemma OlderFamiliesAreBound(s: State, u: UserId, after: seq<Action>, r: RequestId, f: FamilyId)
    requires Inv(s) && FamilyStart(s.tokens, f).Some? && FamilyStart(s.tokens, f).value < s.clock
    ensures !Rotates(Run(Step(s, LogoutAll(u)), after), r, u, f)
  {
    var m := Step(s, LogoutAll(u));
    var s' := Run(m, after);
    StepKeepsInv(s, LogoutAll(u));
    RunKeepsInv(m, after);
    StartIsMinimum(s.tokens, f);
    StepGrows(s, LogoutAll(u));
    StartIsStable(s.tokens, m.tokens, s.clock, f);
    RunGrows(m, after);
    EpochsAdvance(m, after, u);
    StartIsStable(m.tokens, s'.tokens, m.clock, f);
  }

  /**
   * Signing out everywhere binds the future: once LogoutAll(u) has committed, no
   * family that began before it is ever rotated again for u, not even through a
   * replacement that an in-flight refresh inserted after the sweep.
   */
  lemma LogoutAllBindsTheFuture(ttl: nat, before: seq<Action>, u: UserId, after: seq<Action>, r: RequestId, f: FamilyId)
    requires var s := Run(Initial(ttl), before);
             FamilyStart(s.tokens, f).Some? && FamilyStart(s.tokens, f).value < s.clock
    requires var s' := Run(Step(Run(Initial(ttl), before), LogoutAll(u)), after);
             At(s', r) && s'.requests[r].Checked? && s'.tokens[s'.requests[r].id].user == u
             && s'.tokens[s'.requests[r].id].family == f
    ensures !ClaimSucceeds(Run(Step(Run(Initial(ttl), before), LogoutAll(u)), after), r)
  {
    ReachableInv(ttl, before);
    OlderFamiliesAreBound(Run(Initial(ttl), before), u, after, r, f);
  }

  /** A family's live tokens plus its claimed, not yet issued refreshes. */
  ghost function Holders(s: State, f: FamilyId): set<Holder> {
    (set id: TokenId | 0 <= id < |s.tokens| && Holds(s, LiveToken(id), f) :: LiveToken(id))
    + (set r | r in s.requests && Holds(s, InFlight(r), f) :: InFlight(r))
  }

  lemma AtMostOneHolder(ttl: nat, acts: seq<Action>, f: FamilyId)
    ensures |Holders(Run(Initial(ttl), acts), f)| <= 1
  {
    ReachableInv(ttl, acts);
    var hs := Holders(Run(Initial(ttl), acts), f);
    if hs != {} {
      var h :| h in hs;
      assert hs == {h};
    }
  }

  ghost predicate Dead(s: State, f: FamilyId) {
    Used(s.tokens, f) && forall h :: !Holds(s, h, f)
  }

  lemma {:induction false} DeadFamilyStaysDead(s: State, acts: seq<Action>, f: FamilyId)
    requires Inv(s) && Dead(s, f)
    ensures Dead(Run(s, acts), f)
    decreases |acts|
  {
    if acts != [] {
      var s' := Step(s, acts[0]);
      forall h ensures !Holds(s', h, f) {
        if Holds(s', h, f) { StepLineage(s, acts[0], h, f); }
      }
      StepKeepsUsed(s, acts[0], f);
      StepKeepsInv(s, acts[0]);
      DeadFamilyStaysDead(s', acts[1..], f);
    }
  }

  /** Does this step consume token `id`, in rotate or in rotateForReissue? */
  predicate Consumes(s: State, a: Action, id: TokenId) {
    match a
    case Claim(r) => ClaimSucceeds(s, r) && s.requests[r].id == id
    case Reissue(r, i, _) => i == id && r !in s.requests && id < |s.tokens| && !s.tokens[id].revoked
    case _ => false
  }

  function TimesConsumed(s: State, acts: seq<Action>, id: TokenId): nat
    decreases |acts|
  {
    if acts == [] then 0
    else (if Consumes(s, acts[0], id) then 1 else 0) + TimesConsumed(Step(s, acts[0]), acts[1..], id)
  }

  /** A token starts at most one replacement; a revoked one starts none. */
  lemma {:induction false} ConsumedAtMostOnce(s: State, acts: seq<Action>, id: TokenId)
    ensures TimesConsumed(s, acts, id) <= 1
    ensures id < |s.tokens| && s.tokens[id].revoked ==> TimesConsumed(s, acts, id) == 0
    decreases |acts|
  {
    if acts != [] {
      StepGrows(s, acts[0]);
      ConsumedAtMostOnce(Step(s, acts[0]), acts[1..], id);
    }
  }

  /**
   * revokeFamily ends a family exactly when no refresh of it is in flight: a
   * refresh that has claimed but not yet inserted is outside the sweep.
   */
  lemma FamilySweepIsFinalIff(s: State, r: RequestId, after: seq<Action>)
    requires Inv(s) && At(s, r) && s.requests[r].Dooming?
    requires Used(s.tokens, s.requests[r].family)
    ensures var f := s.requests[r].family;
            Dead(Step(s, RevokeFamily(r)), f)
            <==> forall q :: q in s.requests ==> !Holds(s, InFlight(q), f)
    ensures var f := s.requests[r].family;
            (forall q :: q in s.requests ==> !Holds(s, InFlight(q), f))
            ==> Dead(Run(Step(s, RevokeFamily(r)), after), f)
  {
    var f := s.requests[r].family;
    var s' := Step(s, RevokeFamily(r));
    StepKeepsInv(s, RevokeFamily(r));
    StepKeepsUsed(s, RevokeFamily(r), f);
    if forall q :: q in s.requests ==> !Holds(s, InFlight(q), f) {
      forall h ensures !Holds(s', h, f) {
        if Holds(s', h, f) { StepLineage(s, RevokeFamily(r), h, f); }
      }
      DeadFamilyStaysDead(s', after, f);
    } else {
      var q :| q in s.requests && Holds(s, InFlight(q), f);
      assert Holds(s', InFlight(q), f);
    }
  }

  /** How the one in flight brings the family back after the sweep. */
  function Remainder(s: State, q: RequestId): seq<Action>
    requires q in s.requests
  {
    if s.requests[q].Claimed? then [CheckUser(q, true)] + [Issue(q, 0)] else [Issue(q, 0)]
  }

  lemma RemainderIssues(s: State, q: RequestId, f: FamilyId)
    requires Inv(s) && q in s.requests && Holds(s, InFlight(q), f)
    ensures Holds(Run(s, Remainder(s, q)), LiveToken(|s.tokens|), f)
  {
    if s.requests[q].Claimed? {
      RunSnoc(Steps(), s, [CheckUser(q, true)], Issue(q, 0));
      RunCons(Steps(), s, CheckUser(q, true), []);
      assert [CheckUser(q, true)] + [] == [CheckUser(q, true)];
    } else {
      RunCons(Steps(), s, Issue(q, 0), []);
      assert [Issue(q, 0)] + [] == [Issue(q, 0)];
    }
  }

  /**
   * A swept family can have a live token again exactly if another refresh of it
   * was in flight; that refresh then needs nothing but to finish.
   */
  lemma SweptFamilyRevivesIff(s: State, r: RequestId)
    requires Inv(s) && At(s, r) && s.requests[r].Dooming? && Used(s.tokens, s.requests[r].family)
    ensures var f := s.requests[r].family;
            (exists after, id :: Holds(Run(Step(s, RevokeFamily(r)), after), LiveToken(id), f))
            <==> exists q :: q in s.requests && Holds(s, InFlight(q), f)
  {
    var f := s.requests[r].family;
    var s' := Step(s, RevokeFamily(r));
    StepKeepsInv(s, RevokeFamily(r));
    if q :| q in s.requests && Holds(s, InFlight(q), f) {
      RemainderIssues(s', q, f);
    } else {
      forall after, id ensures !Holds(Run(s', after), LiveToken(id), f) { FamilySweepIsFinalIff(s, r, after); }
    }
  }

  /**
   * Exactly which families an epoch condemns: those with a row older than it. A
   * family begun in the epoch's own instant is not condemned.
   */
  lemma CurrentIffNoOlderRow(s: State, id: TokenId)
    requires id < |s.tokens|
    ensures FamilyCurrent(s, id) <==>
            (s.tokens[id].user in s.epochs ==>
               forall i | 0 <= i < |s.tokens| && s.tokens[i].family == s.tokens[id].family ::
                 s.tokens[i].createdAt >= s.epochs[s.tokens[id].user])
  {
    StartIsMinimum(s.tokens, s.tokens[id].family);
  }

  // -------------------------------------------------------- not vacuous

  function RefreshSteps(r: RequestId, id: TokenId): seq<Action> {
    [Present(r, id), ReadEpoch(r), ReadFamily(r), Claim(r), CheckUser(r, true), Issue(r, 0)]
  }

  /** Nothing but request r's own entry differs. */
  predicate OnlyRequest(s: State, m: State) {
    m.tokens == s.tokens && m.clock == s.clock && m.epochs == s.epochs && m.ttl == s.ttl
  }

  lemma UndisturbedPresent(s: State, r: RequestId, id: TokenId)
    requires r !in s.requests && id < |s.tokens|
    ensures var m := Step(s, Present(r, id));
            OnlyRequest(s, m) && r in m.requests
            && m.requests[r] == if s.tokens[id].revoked then Dooming(s.tokens[id].family) else Found(id)
  {
  }

  /** The reads and checks of rotate, up to its conditional update. */
  lemma UndisturbedChecks(s: State, r: RequestId, id: TokenId)
    requires Inv(s) && r !in s.requests && id < |s.tokens|
    ensures var m := Step(Step(Step(s, Present(r, id)), ReadEpoch(r)), ReadFamily(r));
            OnlyRequest(s, m)
            && if !s.tokens[id].revoked && s.clock <= s.tokens[id].expiresAt && FamilyCurrent(s, id)
               then r in m.requests && m.requests[r] == Checked(id)
               else r in m.requests ==> m.requests[r].Dooming?
  {
    UndisturbedPresent(s, r, id);
    var m := Step(s, Present(r, id));
    if !s.tokens[id].revoked { UndisturbedReads(m, r, id); }
  }

  lemma UndisturbedReads(s: State, r: RequestId, id: TokenId)
    requires r in s.requests && s.requests[r] == Found(id) && id < |s.tokens| && !s.tokens[id].revoked
    ensures var m := Step(Step(s, ReadEpoch(r)), ReadFamily(r));
            OnlyRequest(s, m)
            && if s.clock <= s.tokens[id].expiresAt && FamilyCurrent(s, id)
               then r in m.requests && m.requests[r] == Checked(id)
               else r in m.requests ==> m.requests[r].Dooming?
  {
  }

  /** From the conditional update to the insert. */
  lemma UndisturbedIssue(m: State, r: RequestId, id: TokenId)
    requires At(m, r) && m.requests[r] == Checked(id) && !m.tokens[id].revoked
    ensures var c := Step(Step(m, Claim(r)), CheckUser(r, true));
            var t := m.tokens[id];
            c.tokens == RevokeWhere(m.tokens, OfToken(id)) && c.clock == m.clock
            && r in c.requests && c.requests[r] == Issuing(t.user, t.family)
    ensures var c := Step(Step(m, Claim(r)), CheckUser(r, true));
            Step(c, Issue(r, 0)).tokens == c.tokens + [Token(m.tokens[id].user, m.tokens[id].family, m.clock, m.clock + m.ttl, false)]
  {
  }

  /**
   * An undisturbed refresh succeeds exactly when the token is live, unexpired
   * and of a family the owner's epoch does not condemn; success hands the
   * family to one new token.
   */
  lemma UndisturbedRefreshSucceedsIff(s: State, r: RequestId, id: TokenId)
    requires Inv(s) && r !in s.requests && id < |s.tokens|
    ensures var s' := Run(s, RefreshSteps(r, id));
            |s'.tokens| == |s.tokens| + 1
            <==> !s.tokens[id].revoked && s.clock <= s.tokens[id].expiresAt && FamilyCurrent(s, id)
    ensures var s' := Run(s, RefreshSteps(r, id));
            |s'.tokens| == |s.tokens| + 1
            ==> Holds(s', LiveToken(|s.tokens|), s.tokens[id].family) && s'.tokens[id].revoked
                && s'.tokens[|s.tokens|].user == s.tokens[id].user
  {
    RunSix(Steps(), s, Present(r, id), ReadEpoch(r), ReadFamily(r), Claim(r), CheckUser(r, true), Issue(r, 0));
    UndisturbedChecks(s, r, id);
    var m := Step(Step(Step(s, Present(r, id)), ReadEpoch(r)), ReadFamily(r));
    if r in m.requests && m.requests[r] == Checked(id) { UndisturbedIssue(m, r, id); } else { NothingToClaim(m, r); }
  }

  /** A condemned or dropped request performs nothing further of a refresh. */
  lemma NothingToClaim(m: State, r: RequestId)
    requires r in m.requests ==> m.requests[r].Dooming?
    ensures Step(Step(Step(m, Claim(r)), CheckUser(r, true)), Issue(r, 0)) == m
  {
  }

  /** A login after the epoch is unaffected by it. */
  lemma FreshLoginRefreshes(s: State, u: UserId, f: FamilyId, r: RequestId)
    requires Inv(s) && r !in s.requests && !Used(s.tokens, f)
    ensures var m := Step(s, Login(u, f));
            |Run(m, RefreshSteps(r, |s.tokens|)).tokens| == |m.tokens| + 1
  {
    var m := Step(s, Login(u, f));
    StepKeepsInv(s, Login(u, f));
    StartIsMinimum(m.tokens, f);
    UndisturbedRefreshSucceedsIff(m, r, |s.tokens|);
  }

  lemma IssueAfterLogoutAll(c: State, r: RequestId, u: UserId)
    requires r in c.requests && c.requests[r].Issuing?
    ensures Holds(Step(Step(c, LogoutAll(u)), Issue(r, 0)), LiveToken(|c.tokens|), c.requests[r].family)
  {
  }

  /**
   * The sweep alone does not bind an in-flight refresh: from any live, current
   * token a refresh overtaken by LogoutAll still inserts a live replacement in
   * the old family, which is why rotate must consult the epoch.
   */
  lemma SweepAloneDoesNotBind(s: State, r: RequestId, id: TokenId)
    requires Inv(s) && r !in s.requests && id < |s.tokens|
    requires !s.tokens[id].revoked && s.clock <= s.tokens[id].expiresAt && FamilyCurrent(s, id)
    ensures var u := s.tokens[id].user;
            var m := Run(s, [Present(r, id), ReadEpoch(r), ReadFamily(r), Claim(r), CheckUser(r, true), LogoutAll(u)]);
            Holds(Step(m, Issue(r, 0)), LiveToken(|s.tokens|), s.tokens[id].family)
  {
    RunSix(Steps(), s, Present(r, id), ReadEpoch(r), ReadFamily(r), Claim(r), CheckUser(r, true), LogoutAll(s.tokens[id].user));
    UndisturbedChecks(s, r, id);
    var m := Step(Step(Step(s, Present(r, id)), ReadEpoch(r)), ReadFamily(r));
    UndisturbedIssue(m, r, id);
    IssueAfterLogoutAll(Step(Step(m, Claim(r)), CheckUser(r, true)), r, s.tokens[id].user);
  }

  /** A refresh of token id overtaken by LogoutAll before its insert. */
  function Overtaken(r: RequestId, id: TokenId, u: UserId): seq<Action> {
    [Present(r, id), ReadEpoch(r), ReadFamily(r), Claim(r), CheckUser(r, true), LogoutAll(u)]
  }

  /** From the claim to the overtaken insert. */
  lemma ClaimThenLogoutAll(m: State, r: RequestId, id: TokenId)
    requires At(m, r) && m.requests[r] == Checked(id) && !m.tokens[id].revoked
    ensures var t := m.tokens[id];
            var n := Step(Step(Step(Step(m, Claim(r)), CheckUser(r, true)), LogoutAll(t.user)), Issue(r, 0));
            n.tokens == RevokeWhere(RevokeWhere(m.tokens, OfToken(id)), OfUser(t.user)) + [Token(t.user, t.family, m.clock, m.clock + m.ttl, false)]
            && n.clock == m.clock && n.epochs == m.epochs[t.user := m.clock] && n.requests.Keys == m.requests.Keys - {r}
  {
  }

  lemma OvertakenTables(s: State, r: RequestId, id: TokenId)
    requires Inv(s) && r !in s.requests && id < |s.tokens|
    requires !s.tokens[id].revoked && s.clock <= s.tokens[id].expiresAt && FamilyCurrent(s, id)
    ensures var t := s.tokens[id];
            var n := Step(Run(s, Overtaken(r, id, t.user)), Issue(r, 0));
            n.tokens == RevokeWhere(RevokeWhere(s.tokens, OfToken(id)), OfUser(t.user)) + [Token(t.user, t.family, s.clock, s.clock + s.ttl, false)]
            && n.clock == s.clock && t.user in n.epochs && n.epochs[t.user] == s.clock && n.requests.Keys == s.requests.Keys
  {
    var u := s.tokens[id].user;
    RunSix(Steps(), s, Present(r, id), ReadEpoch(r), ReadFamily(r), Claim(r), CheckUser(r, true), LogoutAll(u));
    UndisturbedChecks(s, r, id);
    UndisturbedKeys(s, r, id);
    ClaimThenLogoutAll(Step(Step(Step(s, Present(r, id)), ReadEpoch(r)), ReadFamily(r)), r, id);
  }

  lemma UndisturbedKeys(s: State, r: RequestId, id: TokenId)
    requires r !in s.requests && id < |s.tokens|
    ensures var m := Step(Step(Step(s, Present(r, id)), ReadEpoch(r)), ReadFamily(r));
            m.requests.Keys <= s.requests.Keys + {r} && s.requests.Keys <= m.requests.Keys
  {
  }

  /**
   * How far sign-out-everywhere reaches, both ways: the replacement that an
   * overtaken refresh inserts can itself be refreshed exactly if the family
   * began in the very instant of the sign-out, and not if it began earlier.
   */
  lemma ReplacementRefreshesIff(s: State, r: RequestId, q: RequestId, id: TokenId)
    requires Inv(s) && r !in s.requests && q !in s.requests && id < |s.tokens|
    requires !s.tokens[id].revoked && s.clock <= s.tokens[id].expiresAt && FamilyCurrent(s, id)
    ensures var n := Step(Run(s, Overtaken(r, id, s.tokens[id].user)), Issue(r, 0));
            |n.tokens| == |s.tokens| + 1
            && (|Run(n, RefreshSteps(q, |s.tokens|)).tokens| == |n.tokens| + 1
                <==> FamilyStart(s.tokens, s.tokens[id].family) == Some(s.clock))
  {
    var t := s.tokens[id];
    var m := Run(s, Overtaken(r, id, t.user));
    var n := Step(m, Issue(r, 0));
    OvertakenTables(s, r, id);
    RunKeepsInv(s, Overtaken(r, id, t.user));
    StepKeepsInv(m, Issue(r, 0));
    UndisturbedRefreshSucceedsIff(n, q, |s.tokens|);
    CurrentIffNoOlderRow(n, |s.tokens|);
    StartIsMinimum(s.tokens, t.family);
    assert forall i | 0 <= i < |s.tokens| :: n.tokens[i].createdAt == s.tokens[i].createdAt && n.tokens[i].family == s.tokens[i].family;
  }

  /** Such runs exist from every state: a login, a refresh of it and the sign-out that overtakes it, between two ticks. */
  lemma SameInstantIsNotBound(s: State, u: UserId, f: FamilyId, r: RequestId, q: RequestId)
    requires Inv(s) && !Used(s.tokens, f) && r !in s.requests && q !in s.requests
    ensures var m := Step(s, Login(u, f));
            var n := Step(Run(m, Overtaken(r, |s.tokens|, u)), Issue(r, 0));
            |n.tokens| == |m.tokens| + 1 && |Run(n, RefreshSteps(q, |m.tokens|)).tokens| == |n.tokens| + 1
  {
    var m := Step(s, Login(u, f));
    StepKeepsInv(s, Login(u, f));
    CurrentIffNoOlderRow(m, |s.tokens|);
    StartIsMinimum(m.tokens, f);
    assert m.tokens[|s.tokens|] == Token(u, f, s.clock, s.clock + s.ttl, false);
    ReplacementRefreshesIff(m, r, q, |s.tokens|);
  }

  /**
   * The same with reuse detection instead: from any live, current token, a second
   * presentation finds it claimed and sweeps the family, and the first one's
   * insert then puts a live token back.
   */
  lemma ReuseSweepIsOvertaken(s: State, r: RequestId, q: RequestId, id: TokenId)
    requires Inv(s) && r !in s.requests && q !in s.requests && q != r && id < |s.tokens|
    requires !s.tokens[id].revoked && s.clock <= s.tokens[id].expiresAt && FamilyCurrent(s, id)
    ensures var f := s.tokens[id].family;
            var c := Run(s, [Present(r, id), ReadEpoch(r), ReadFamily(r), Claim(r), CheckUser(r, true), Present(q, id)]);
            var swept := Step(c, RevokeFamily(q));
            q in c.requests && c.requests[q] == Dooming(f)
            && (forall i | 0 <= i < |swept.tokens| && swept.tokens[i].family == f :: swept.tokens[i].revoked)
            && Holds(Step(swept, Issue(r, 0)), LiveToken(|s.tokens|), f)
  {
    RunSix(Steps(), s, Present(r, id), ReadEpoch(r), ReadFamily(r), Claim(r), CheckUser(r, true), Present(q, id));
    UndisturbedChecks(s, r, id);
    UndisturbedKeys(s, r, id);
    var m := Step(Step(Step(s, Present(r, id)), ReadEpoch(r)), ReadFamily(r));
    UndisturbedIssue(m, r, id);
    var c := Step(Step(m, Claim(r)), CheckUser(r, true));
    assert q !in c.requests;
    UndisturbedPresent(c, q, id);
    SweepThenIssue(Step(c, Present(q, id)), r, q);
  }

  lemma SweepThenIssue(c: State, r: RequestId, q: RequestId)
    requires r != q && r in c.requests && c.requests[r].Issuing? && q in c.requests && c.requests[q] == Dooming(c.requests[r].family)
    ensures var swept := Step(c, RevokeFamily(q));
            swept.tokens == RevokeWhere(c.tokens, OfFamily(c.requests[r].family))
            && Holds(Step(swept, Issue(r, 0)), LiveToken(|c.tokens|), c.requests[r].family)
  {
  }

  // ------------------------------------------- which families stay rotatable

  /** The family has a live token again once its holder has finished, at the same instant. */
  lemma LiveAgain(m: State, h: Holder, f: FamilyId) returns (more: seq<Action>, id: TokenId)
    requires Inv(m) && Holds(m, h, f)
    ensures var n := Run(m, more);
            Holds(n, LiveToken(id), f) && n.clock == m.clock && n.epochs == m.epochs
            && if h.LiveToken? then n == m && id == h.id else n.clock <= n.tokens[id].expiresAt
  {
    if h.LiveToken? {
      more, id := [], h.id;
    } else {
      more, id := Remainder(m, h.r), |m.tokens|;
      RemainderIssues(m, h.r, f);
      RemainderKeeps(m, h.r, f);
    }
  }

  lemma RemainderKeeps(s: State, q: RequestId, f: FamilyId)
    requires Inv(s) && q in s.requests && Holds(s, InFlight(q), f)
    ensures var n := Run(s, Remainder(s, q));
            n.clock == s.clock && n.epochs == s.epochs && |n.tokens| == |s.tokens| + 1
            && n.clock <= n.tokens[|s.tokens|].expiresAt
  {
    if s.requests[q].Claimed? {
      RunSnoc(Steps(), s, [CheckUser(q, true)], Issue(q, 0));
      RunCons(Steps(), s, CheckUser(q, true), []);
      assert [CheckUser(q, true)] + [] == [CheckUser(q, true)];
    } else {
      RunCons(Steps(), s, Issue(q, 0), []);
      assert [Issue(q, 0)] + [] == [Issue(q, 0)];
    }
  }

  /**
   * Another user's live token is carried on for u by select-restaurant, at a time
   * when u can hold an access token newer than the stamp.
   */
  lemma CarriedOn(n: State, p: RequestId, id: TokenId, u: UserId, f: FamilyId)
    requires p !in n.requests && Holds(n, LiveToken(id), f)
    ensures var t := Run(n, [Tick(1000), Reissue(p, id, u), Issue(p, 0)]);
            Holds(t, LiveToken(|n.tokens|), f) && t.tokens[|n.tokens|].user == u && t.epochs == n.epochs
            && t.clock <= t.tokens[|n.tokens|].expiresAt
  {
    RunThree(Steps(), n, Tick(1000), Reissue(p, id, u), Issue(p, 0));
  }

  /** From any live token of the family, u comes to hold one that is not expired. */
  lemma HeldByUser(n: State, id: TokenId, u: UserId, f: FamilyId) returns (more: seq<Action>, id': TokenId)
    requires Inv(n) && Holds(n, LiveToken(id), f) && (n.tokens[id].user == u ==> n.clock <= n.tokens[id].expiresAt)
    ensures var t := Run(n, more);
            Holds(t, LiveToken(id'), f) && t.tokens[id'].user == u && t.epochs == n.epochs && t.clock <= t.tokens[id'].expiresAt
  {
    if n.tokens[id].user == u {
      more, id' := [], id;
    } else {
      var p := Beyond(n.requests.Keys);
      more, id' := [Tick(1000), Reissue(p, id, u), Issue(p, 0)], |n.tokens|;
      CarriedOn(n, p, id, u, f);
    }
  }

  lemma PresentedIsChecked(t: State, p: RequestId, id: TokenId)
    requires Inv(t) && p !in t.requests && id < |t.tokens| && !t.tokens[id].revoked
    requires t.clock <= t.tokens[id].expiresAt && FamilyCurrent(t, id)
    ensures Rotates(Run(t, [Present(p, id), ReadEpoch(p), ReadFamily(p)]), p, t.tokens[id].user, t.tokens[id].family)
  {
    RunThree(Steps(), t, Present(p, id), ReadEpoch(p), ReadFamily(p));
    UndisturbedChecks(t, p, id);
  }

  lemma HolderRotatesAgain(m: State, u: UserId, f: FamilyId, h: Holder) returns (after: seq<Action>, r: RequestId)
    requires Inv(m) && Holds(m, h, f) && Used(m.tokens, f)
    requires u in m.epochs && FamilyStart(m.tokens, f) == Some(m.epochs[u])
    requires h.LiveToken? ==> m.tokens[h.id].user != u
    ensures Rotates(Run(m, after), r, u, f)
  {
    var first, id := LiveAgain(m, h, f);
    var n := Run(m, first);
    RunKeepsInv(m, first);
    var second, id' := HeldByUser(n, id, u, f);
    var t := Run(n, second);
    RunKeepsInv(n, second);
    RunAppend(Steps(), m, first, second);
    RunGrows(m, first + second);
    StartIsStable(m.tokens, t.tokens, m.clock, f);
    r := Beyond(t.requests.Keys);
    PresentedIsChecked(t, r, id');
    var last := [Present(r, id'), ReadEpoch(r), ReadFamily(r)];
    RunAppend(Steps(), m, first + second, last);
    after := first + second + last;
  }

  lemma DeadIsNotRotated(m: State, after: seq<Action>, r: RequestId, u: UserId, f: FamilyId)
    requires Inv(m) && Dead(m, f)
    ensures !Rotates(Run(m, after), r, u, f)
  {
    var t := Run(m, after);
    DeadFamilyStaysDead(m, after, f);
    if Rotates(t, r, u, f) { assert Holds(t, LiveToken(t.requests[r].id), f); }
  }

  /**
   * Exactly which families outlive sign-out-everywhere for the user who signed
   * out: those begun in its very instant that a live token or a refresh in flight
   * still carries after the sweep.
   */
  lemma RotatedAgainIff(s: State, u: UserId, f: FamilyId)
    requires Inv(s) && Used(s.tokens, f)
    ensures var m := Step(s, LogoutAll(u));
            (exists after, r :: Rotates(Run(m, after), r, u, f))
            <==> FamilyStart(s.tokens, f) == Some(s.clock) && exists h :: Holds(m, h, f)
  {
    var m := Step(s, LogoutAll(u));
    StartIsMinimum(s.tokens, f);
    StepKeepsInv(s, LogoutAll(u));
    StepKeepsUsed(s, LogoutAll(u), f);
    StepGrows(s, LogoutAll(u));
    StartIsStable(s.tokens, m.tokens, s.clock, f);
    if FamilyStart(s.tokens, f) != Some(s.clock) {
      forall after, r ensures !Rotates(Run(m, after), r, u, f) { OlderFamiliesAreBound(s, u, after, r, f); }
    } else if h :| Holds(m, h, f) {
      var after, r := HolderRotatesAgain(m, u, f, h);
    } else {
      forall after, r ensures !Rotates(Run(m, after), r, u, f) { DeadIsNotRotated(m, after, r, u, f); }
    }
  }

  // ------------------------------------------------------ who is signed out

  /**
   * The actions that end a live token: claiming, reissuing or logging out that
   * very token, revoking its own family, and signing its own user out everywhere.
   */
  predicate Ends(s: State, a: Action, id: TokenId)
    requires id < |s.tokens|
  {
    match a
    case Claim(r) => r in s.requests && s.requests[r] == Checked(id)
    case Reissue(r, i, _) => i == id && r !in s.requests
    case Logout(i) => i == id
    case RevokeFamily(r) => r in s.requests && s.requests[r] == Dooming(s.tokens[id].family)
    case LogoutAll(u) => u == s.tokens[id].user
    case _ => false
  }

  /** A live token is revoked by exactly the steps that end it; no other token is touched. */
  lemma RevokedByStepIff(s: State, a: Action, id: TokenId)
    requires id < |s.tokens|
    ensures id < |Step(s, a).tokens|
    ensures Step(s, a).tokens[id].revoked <==> s.tokens[id].revoked || Ends(s, a, id)
    ensures Step(s, a).tokens[id].(revoked := s.tokens[id].revoked) == s.tokens[id]
  {
  }

  /** Some step of the run ends the token. */
  ghost predicate EverEnds(s: State, acts: seq<Action>, id: TokenId)
    requires id < |s.tokens|
    decreases |acts|
  {
    acts != [] && (Ends(s, acts[0], id) || (id < |Step(s, acts[0]).tokens| && EverEnds(Step(s, acts[0]), acts[1..], id)))
  }

  /** A token stays live through exactly the runs none of whose steps ends it. */
  lemma {:induction false} StaysLiveIff(s: State, acts: seq<Action>, id: TokenId)
    requires id < |s.tokens| && !s.tokens[id].revoked
    ensures id < |Run(s, acts).tokens|
    ensures !Run(s, acts).tokens[id].revoked <==> !EverEnds(s, acts, id)
    decreases |acts|
  {
    if acts != [] {
      RevokedByStepIff(s, acts[0], id);
      if Ends(s, acts[0], id) {
        StaysRevoked(Step(s, acts[0]), acts[1..], id);
      } else {
        StaysLiveIff(Step(s, acts[0]), acts[1..], id);
      }
    }
  }

  lemma {:induction false} StaysRevoked(s: State, acts: seq<Action>, id: TokenId)
    requires id < |s.tokens| && s.tokens[id].revoked
    ensures id < |Run(s, acts).tokens| && Run(s, acts).tokens[id].revoked
    decreases |acts|
  {
    if acts != [] {
      RevokedByStepIff(s, acts[0], id);
      StaysRevoked(Step(s, acts[0]), acts[1..], id);
    }
  }

  /** A family is set to be revoked only for a reason: a revoked token of it was presented, it is condemned, or its user is not active. */
  lemma DoomedIff(s: State, a: Action, r: RequestId, f: FamilyId)
    requires r in s.requests ==> s.requests[r] != Dooming(f)
    ensures r in Step(s, a).requests && Step(s, a).requests[r] == Dooming(f) <==>
            || (a.Present? && a.r == r && r !in s.requests && a.id < |s.tokens| && s.tokens[a.id].revoked && s.tokens[a.id].family == f)
            || (a.ReadFamily? && a.r == r && At(s, r) && s.requests[r].KnowsEpoch? && s.tokens[s.requests[r].id].family == f
                && exists i :: 0 <= i < |s.tokens| && s.tokens[i].family == f && s.tokens[i].createdAt < s.requests[r].epoch)
            || (a.CheckUser? && a.r == r && r in s.requests && s.requests[r].Claimed? && s.requests[r].family == f && !a.active)
  {
    if a.ReadFamily? { StartIsMinimum(s.tokens, f); }
  }
}
