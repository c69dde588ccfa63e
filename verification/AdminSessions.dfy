/** How long a session lasts, over every run: from the login that opened it and the call that was last
    seen under it. */
module AdminSessions {
  import opened Collections
  import opened AdminContracts
  import opened AdminTransactions
  import opened CommandStrings
  import opened AdminCeremonies
  import opened AdminInvariants
  import opened AdminPreservation
  import opened AdminRuns
  import opened AdminHistory
  import opened AdminIdentities
  import opened AdminTrails

  /** The idle expiry lies `sessionIdleMs` past the last call, but never past the absolute one. */
  predicate IdlesOut(config: Config, x: Session) {
    && (x.absoluteExpiresAt < x.lastSeenAt + config.sessionIdleMs ==> x.idleExpiresAt == x.absoluteExpiresAt)
    && (x.absoluteExpiresAt >= x.lastSeenAt + config.sessionIdleMs ==>
          x.idleExpiresAt == x.lastSeenAt + config.sessionIdleMs)
  }

  /** `a` is the login that opens session `x`, for `sessionAbsoluteMs` from now: its caller holds a
      consumed login challenge and verified an assertion of the credential's owner. */
  predicate Opens(config: Config, sys: System, a: Action, x: Session) {
    && a.FinishLogin? && a.caller in sys.threads && sys.threads[a.caller].VerifyingLogin?
    && var credential := sys.threads[a.caller].credential;
       && x.sessionId == a.sessionId && x.tokenHash == a.token && x.principalId == credential.principalId
       && x.absoluteExpiresAt == a.now + config.sessionAbsoluteMs
       && (credential.counter == 0 == a.newCounter || credential.counter < a.newCounter)
       && credential in sys.state.credentials
  }

  /** `a` is the call last seen under it, which found it open. */
  predicate Touches(sys: System, a: Action, x: Session) {
    && a.Touch? && a.caller in sys.threads && sys.threads[a.caller].Touching?
    && var th := sys.threads[a.caller];
       && x.sessionId == th.who.session.sessionId && x.lastSeenAt == th.now
       && exists y :: y in sys.state.sessions && y.sessionId == x.sessionId && y.revokedAt.None?
                      && th.now < y.absoluteExpiresAt && th.now < y.idleExpiresAt
  }

  predicate SameSession(y: Session, x: Session) {
    && y.sessionId == x.sessionId && y.principalId == x.principalId && y.tokenHash == x.tokenHash
    && y.absoluteExpiresAt == x.absoluteExpiresAt
  }

  predicate Continues(config: Config, sys: System, a: Action, y: Session, x: Session) {
    && SameSession(y, x)
    && (|| (x.lastSeenAt == y.lastSeenAt && x.idleExpiresAt == y.idleExpiresAt)
        || (Touches(sys, a, x) && IdlesOut(config, x)))
  }

  /** Where a stored session comes from: it was stored before, perhaps revoked or touched now, or is
      opened now. */
  ghost predicate CameFrom(config: Config, sys: System, a: Action, x: Session) {
    || (exists y :: y in sys.state.sessions && Continues(config, sys, a, y, x))
    || (Opens(config, sys, a, x) && x.lastSeenAt == a.now && IdlesOut(config, x))
  }

  lemma RewrittenSession(before: seq<Session>, after: seq<Session>, x: Session)
    requires |after| == |before| && x in after
    requires forall i :: 0 <= i < |after| ==> after[i].(revokedAt := None) == before[i].(revokedAt := None)
    ensures exists y :: y in before && SameSession(y, x)
                        && x.lastSeenAt == y.lastSeenAt && x.idleExpiresAt == y.idleExpiresAt
  {
    var i :| 0 <= i < |after| && after[i] == x;
    assert before[i].(revokedAt := None) == x.(revokedAt := None);
    assert SameSession(before[i], x);
  }

  lemma EndingsRewrite(ss: seq<Session>, id: Id, principalId: string, now: int, x: Session)
    ensures x in EndSession(ss, id, now) || x in RevokeIfOpen(ss, id, now) || x in RevokeAllOf(ss, principalId, now) ==>
              exists y :: y in ss && SameSession(y, x)
                          && x.lastSeenAt == y.lastSeenAt && x.idleExpiresAt == y.idleExpiresAt
  {
    if x in EndSession(ss, id, now) {
      RewrittenSession(ss, EndSession(ss, id, now), x);
    }
    if x in RevokeIfOpen(ss, id, now) {
      RewrittenSession(ss, RevokeIfOpen(ss, id, now), x);
    }
    if x in RevokeAllOf(ss, principalId, now) {
      RewrittenSession(ss, RevokeAllOf(ss, principalId, now), x);
    }
  }

  lemma PerformSessions(config: Config, s: State, goal: Goal, who: Identity, a: Action, next: State, x: Session)
    requires a.Perform? && PerformProposal(config, s, goal, who, a) == Proposed(next) && x in next.sessions
    ensures exists y :: y in s.sessions && SameSession(y, x)
                        && x.lastSeenAt == y.lastSeenAt && x.idleExpiresAt == y.idleExpiresAt
  {
    hide ConsumeReceiptTx, OfferChallengeTx, RegisterServiceTx, RevokeAllOf, RevokeIfOpen, AppendEvent;
    assert SameSession(x, x);
    match goal {
      case RevokeOne(target) => EndingsRewrite(s.sessions, target, "", a.now, x);
      case RevokeAll(_) => EndingsRewrite(s.sessions, 0, TargetPrincipal(goal, who), a.now, x);
      case _ => SessionsUntouched(config, s, goal, who, a, next);
    }
  }

  lemma SessionsUntouched(config: Config, s: State, goal: Goal, who: Identity, a: Action, next: State)
    requires a.Perform? && PerformProposal(config, s, goal, who, a) == Proposed(next)
    requires !goal.RevokeOne? && !goal.RevokeAll?
    ensures next.sessions == s.sessions
  {
    hide AppendEvent, AppendChallenge, Spend, Command, RequestCapability;
  }

  lemma LoginSessions(config: Config, sys: System, a: Action, next: State, x: Session)
    requires a.FinishLogin? && ProposalOf(config, sys, a) == Proposed(next) && x in next.sessions
    ensures x in sys.state.sessions || (Opens(config, sys, a, x) && x.lastSeenAt == a.now && IdlesOut(config, x))
  {
    hide AppendEvent, SetCounter;
  }

  lemma TouchSessions(config: Config, sys: System, a: Action, next: State, x: Session)
    requires a.Touch? && ProposalOf(config, sys, a) == Proposed(next) && x in next.sessions
    ensures x in sys.state.sessions || exists y ::
              y in sys.state.sessions && SameSession(y, x) && Touches(sys, a, x) && IdlesOut(config, x)
  {
    var th := sys.threads[a.caller];
    var y := SessionById(sys.state, th.who.session.sessionId).value;
    if x !in sys.state.sessions {
      assert SameSession(y, x) && Touches(sys, a, x);
    }
  }

  lemma CommitSessions(config: Config, sys: System, a: Action, next: State, x: Session)
    requires ProposalOf(config, sys, a) == Proposed(next) && x in next.sessions
    ensures CameFrom(config, sys, a, x)
  {
    hide FinishStepUpTx, ConsumeChallengeTx, FinishRegistrationTx, PerformProposal, AppendEvent, AppendChallenge,
         EndSession, Touches, Opens, IdlesOut, FinishLoginTx, TouchTx;
    assert SameSession(x, x);
    match a {
      case Perform(t, _, _, _, _) =>
        PerformSessions(config, sys.state, sys.threads[t].goal, sys.threads[t].who, a, next, x);
      case FinishLogin(_, _, _, _, _, _) => LoginSessions(config, sys, a, next, x);
      case Touch(_) => TouchSessions(config, sys, a, next, x);
      case Logout(token, eventId, now) =>
        var ended := LogoutTx(sys.state, token, SecurityEvent(eventId, SessionRevoked), now).result;
        EndingsRewrite(sys.state.sessions, ended, "", now, x);
      case _ => OtherSessions(config, sys, a, next);
    }
  }

  lemma OtherSessions(config: Config, sys: System, a: Action, next: State)
    requires ProposalOf(config, sys, a) == Proposed(next)
    requires !a.Perform? && !a.FinishLogin? && !a.Touch? && !a.Logout?
    ensures next.sessions == sys.state.sessions
  {
    hide AppendEvent, AppendChallenge, AppendReceipt, SetCounter, MarkUsed;
  }

  lemma StepSessions(config: Config, sys: System, a: Action, x: Session)
    requires x in Step(config, sys, a).state.sessions
    ensures CameFrom(config, sys, a, x)
  {
    hide Step, ProposalOf, Committed, Mints, Minted, Fresh, ValidState;
    var next := CommitsOrNot(config, sys, a);
    if next.Some? {
      CommittedState(config, Drawn(sys, Mints(a)), a, next.value);
      CommitSessions(config, Drawn(sys, Mints(a)), a, next.value, x);
      CameFromIfDrawn(config, sys, a, x);
    } else {
      assert SameSession(x, x);
    }
  }

  lemma CameFromIfDrawn(config: Config, sys: System, a: Action, x: Session)
    requires CameFrom(config, Drawn(sys, Mints(a)), a, x)
    ensures CameFrom(config, sys, a, x)
  {
    hide Mints, Minted, IdlesOut, SameSession;
  }

  // ------------------------------------------------------------------- over a run

  ghost predicate OpenedAt(config: Config, run: seq<System>, k: nat, x: Session) {
    exists a :: Took(config, run, k, a) && Opens(config, run[k], a, x) && Booked(run, k, a)
  }

  /** The session is new to the books there. */
  ghost predicate Booked(run: seq<System>, k: nat, a: Action)
    requires k + 1 < |run| && a.FinishLogin?
  {
    a.sessionId !in run[k].h.sessions && a.sessionId in run[k + 1].h.sessions
  }

  lemma LoginIsBooked(config: Config, sys: System, a: Action, next: State)
    requires Inv(sys) && a.FinishLogin? && Fresh(sys.h.minted, Mints(a))
    requires ProposalOf(config, Drawn(sys, Mints(a)), a) == Proposed(next)
    ensures a.sessionId !in sys.h.sessions
    ensures a.sessionId in Committed(config, Drawn(sys, Mints(a)), a, next).h.sessions
  {
    hide RecordsOk, FounderOk, CountersOk, ActsOk, CallersOk, ValidState, FinishLoginTx, CounterContract;
    assert Mints(a)[0] == a.sessionId;
  }

  ghost predicate SeenAt(config: Config, run: seq<System>, k: nat, x: Session) {
    exists a :: Took(config, run, k, a)
                && (Touches(run[k], a, x) || (Opens(config, run[k], a, x) && x.lastSeenAt == a.now))
  }

  lemma OpensSame(config: Config, sys: System, a: Action, y: Session, x: Session)
    requires SameSession(y, x) && Opens(config, sys, a, y)
    ensures Opens(config, sys, a, x)
  {
  }

  lemma SeenSame(sys: System, a: Action, y: Session, x: Session)
    requires SameSession(y, x) && y.lastSeenAt == x.lastSeenAt
    ensures Touches(sys, a, y) ==> Touches(sys, a, x)
  {
  }

  lemma StillOpened(config: Config, run: seq<System>, k: nat, y: Session, x: Session)
    requires SameSession(y, x)
    ensures OpenedAt(config, run, k, y) ==> OpenedAt(config, run, k, x)
    ensures y.lastSeenAt == x.lastSeenAt && SeenAt(config, run, k, y) ==> SeenAt(config, run, k, x)
  {
    hide Step, Touches;
    if OpenedAt(config, run, k, y) {
      var a :| Took(config, run, k, a) && Opens(config, run[k], a, y) && Booked(run, k, a);
      OpensSame(config, run[k], a, y, x);
    }
    if y.lastSeenAt == x.lastSeenAt && SeenAt(config, run, k, y) {
      var a :| Took(config, run, k, a)
               && (Touches(run[k], a, y) || (Opens(config, run[k], a, y) && y.lastSeenAt == a.now));
      SeenSame(run[k], a, y, x);
      if Opens(config, run[k], a, y) {
        OpensSame(config, run[k], a, y, x);
      }
    }
  }

  /** Over every run, every stored session was opened by a login `sessionAbsoluteMs` before its absolute
      expiry, was last seen by that login or a later call that found it open, and its idle expiry lies
      `sessionIdleMs` past that, or at the absolute one. */
  lemma {:induction false} SessionLifetimes(config: Config, run: seq<System>, i: nat, x: Session)
      returns (login: nat, seen: nat)
    requires IsRun(config, run) && i < |run| && x in run[i].state.sessions
    ensures login <= seen < i
    ensures OpenedAt(config, run, login, x) && SeenAt(config, run, seen, x) && IdlesOut(config, x)
    decreases i
  {
    hide IsRun, Step, Opens, Touches, SameSession, Inv, ProposalOf, Committed, Mints, Fresh, Minted, ValidState;
    StartIsBlank(config, run);
    var k := i - 1;
    var a := StepOfRun(config, run, k);
    assert Took(config, run, k, a);
    StepSessions(config, run[k], a, x);
    if y :| y in run[k].state.sessions && Continues(config, run[k], a, y, x) {
      login, seen := SessionLifetimes(config, run, k, y);
      StillOpened(config, run, login, y, x);
      StillOpened(config, run, seen, y, x);
      SameExpiry(y, x);
      if !(x.lastSeenAt == y.lastSeenAt && x.idleExpiresAt == y.idleExpiresAt) {
        seen := k;
      }
    } else {
      var next := CommitsOrNot(config, run[k], a);
      SameAsItself(config, run[k], a, x);
      RunKeepsInv(config, run, k);
      LoginIsBooked(config, run[k], a, next.value);
      login, seen := k, k;
    }
  }

  lemma SameAsItself(config: Config, sys: System, a: Action, x: Session)
    ensures Continues(config, sys, a, x, x)
    ensures Opens(config, sys, a, x) ==> a.FinishLogin?
  {
  }

  lemma SameExpiry(y: Session, x: Session)
    requires SameSession(y, x)
    ensures y.absoluteExpiresAt == x.absoluteExpiresAt
  {
  }

  // ------------------------------------------------------------------- whose they are

  lemma LoginOffersToFounder(config: Config, run: seq<System>, i: nat, f: Id)
    requires IsRun(config, run) && i < |run| && f in run[i].h.challenges && run[i].h.challenges[f].kind.Login?
    ensures run[i].h.challenges[f].principalId == Some("founder")
  {
    hide IsRun, Inv, Step;
    var c := run[i].h.challenges[f];
    var k := ChallengeWasOffered(config, run, i, f);
    var a :| Took(config, run, k, a) && Offers(config, run[k], a, c);
    RunIdentifies(config, run, k);
    assert CallerOk(run[k].threads[a.caller]);
  }

  /** The login that opened a session was led to by a login challenge of the founder's: offered, then
      consumed from the same source within `challengeMs`. */
  lemma LoginWasLedTo(config: Config, run: seq<System>, k: nat, x: Session)
      returns (c: Challenge, offer: nat, consume: nat)
    requires IsRun(config, run) && OpenedAt(config, run, k, x)
    ensures offer < consume < k && OfferedAt(config, run, offer, c) && ConsumedAt(config, run, consume, c)
    ensures c.kind.Login? && c.principalId == Some("founder") && x.principalId == "founder"
    ensures HasFounder(run[k].state.principals)
  {
    hide IsRun, Step, Inv, OfferedAt, ConsumedAt, Grows;
    var a :| Took(config, run, k, a) && Opens(config, run[k], a, x) && Booked(run, k, a);
    RunKeepsInv(config, run, k);
    RunIdentifies(config, run, k);
    c := run[k].threads[a.caller].challenge;
    LoginIsHeld(run[k], a.caller);
    consume := ChallengeWasConsumed(config, run, k, c.flowId);
    SameEntries(config, run, consume, k);
    offer := ChallengeWasOffered(config, run, consume, c.flowId);
    LoginOffersToFounder(config, run, k, c.flowId);
  }

  lemma LoginIsHeld(sys: System, t: nat)
    requires Inv(sys) && Identified(sys) && t in sys.threads && sys.threads[t].VerifyingLogin?
    ensures
      var c := sys.threads[t].challenge;
      && c.flowId in sys.h.used && c.flowId in sys.h.challenges && sys.h.challenges[c.flowId] == c && c.kind.Login?
      && c.principalId == Some(sys.threads[t].credential.principalId)
    ensures sys.state.credentials != [] ==> HasFounder(sys.state.principals)
  {
    hide RecordsOk, FlowsHeldOnce, ReceiptsHeldOnce, ValidState, MintedOk, FounderOk, CountersOk, ActsOk;
    assert ThreadOk(sys.threads[t], sys.h, sys.state.principals != []);
    assert CallerOk(sys.threads[t]);
  }

  /** Hence every stored session is the founder's, and the founder is there. */
  lemma SessionsAreFounders(config: Config, run: seq<System>, i: nat, x: Session)
    requires IsRun(config, run) && i < |run| && x in run[i].state.sessions
    ensures x.principalId == "founder" && HasFounder(run[i].state.principals) && IdlesOut(config, x)
  {
    hide IsRun, Inv, OpenedAt, SeenAt, OfferedAt, ConsumedAt, HasFounder, IdlesOut, Grows;
    var login, seen := SessionLifetimes(config, run, i, x);
    var c, offer, consume := LoginWasLedTo(config, run, login, x);
    Reached(config, run, login, i);
    FounderStays(run[login], run[i]);
  }

  lemma FounderStays(sys: System, later: System)
    requires Inv(sys) && Inv(later) && Grows(sys.h, later.h) && HasFounder(sys.state.principals)
    ensures HasFounder(later.state.principals)
  {
    hide RecordsOk, CallersOk, ValidState, CountersOk, ActsOk, MintedOk, Extends, HasFounder;
  }

  // ------------------------------------------------------------------- who a token authenticates

  /** The session is open at `now`: not revoked, before its absolute expiry, and last seen less than the
      idle time ago. */
  predicate IsLive(config: Config, x: Session, now: int) {
    x.revokedAt.None? && now < x.absoluteExpiresAt && now < x.lastSeenAt + config.sessionIdleMs
  }

  lemma FounderHoldsAll(c: Capability)
    ensures HasCapability(FOUNDER, c)
  {
    assert Founder in FOUNDER.roles && c in RoleCapabilities(Founder);
  }

  lemma FounderIsActive(s: State)
    requires HasFounder(s.principals) && forall p :: p in s.principals ==> KnownPrincipal(p)
    ensures ActivePrincipal(s, "founder") == Some(FOUNDER)
  {
    var found := PrincipalOf(s, "founder");
    var p :| p in s.principals && p.principalId == FOUNDER_PRINCIPAL_ID;
  }

  lemma OneSessionPerToken(sys: System, x: Session, y: Session)
    requires Inv(sys) && x in sys.state.sessions && y in sys.state.sessions && x.tokenHash == y.tokenHash
    ensures x == y
  {
    hide ChallengesOk, ReceiptsOk, IssuedOk, FounderOk, CountersOk, ActsOk, CallersOk, MintedOk;
    assert SessionTracked(x, sys.h.sessions, sys.h.revoked) && SessionTracked(y, sys.h.sessions, sys.h.revoked);
    UniqueMembers(sys.state.sessions, SessionKey, x, y);
  }

  /** In every reachable state a token authenticates, for any capability, exactly when it is that of a
      stored session that is not revoked, not past its absolute expiry and was seen within the idle
      time; it then stands for that session and the founder. */
  lemma TokenAuthenticatesExactly(
      config: Config, run: seq<System>, i: nat, token: Hash, capability: Option<Capability>, now: int)
    requires IsRun(config, run) && i < |run|
    ensures
      var who := ReadSession(run[i].state, token, capability, now);
      && (who.Some? <==> exists x :: x in run[i].state.sessions && x.tokenHash == token && IsLive(config, x, now))
      && (who.Some? ==> who.value.principal == FOUNDER && who.value.session.tokenHash == token
                        && IsLive(config, who.value.session, now))
  {
    hide IsRun, Inv, HasCapability;
    RunKeepsInv(config, run, i);
    RunIdentifies(config, run, i);
    var s := run[i].state;
    var found := SessionByToken(s, token);
    if found.Some? {
      SessionsAreFounders(config, run, i, found.value);
      FounderIsActive(s);
      if capability.Some? {
        FounderHoldsAll(capability.value);
      }
      if x :| x in s.sessions && x.tokenHash == token && IsLive(config, x, now) {
        OneSessionPerToken(run[i], x, found.value);
      }
    }
    hide ActivePrincipal, KnownPrincipal;
  }

  /** A token first shown again once the idle time has passed since its session was last seen is refused,
      and so is one shown `sessionAbsoluteMs` after the login. */
  lemma StaleTokenIsRefused(
      config: Config, run: seq<System>, i: nat, x: Session, capability: Option<Capability>, now: int)
    requires IsRun(config, run) && i < |run| && x in run[i].state.sessions
    requires now >= x.lastSeenAt + config.sessionIdleMs || now >= x.absoluteExpiresAt
    ensures ReadSession(run[i].state, x.tokenHash, capability, now).None?
  {
    hide IsRun, Inv, ReadSession;
    TokenAuthenticatesExactly(config, run, i, x.tokenHash, capability, now);
    RunKeepsInv(config, run, i);
    if y :| y in run[i].state.sessions && y.tokenHash == x.tokenHash && IsLive(config, y, now) {
      OneSessionPerToken(run[i], y, x);
    }
  }

  /** What a caller gets by its look at the session, in every reachable state: the founder's identity,
      at once while its session was seen within `sessionTouchMs`, and otherwise once it is touched; or
      nothing, when there is no such session or it is not live. */
  lemma LookExactly(config: Config, run: seq<System>, i: nat, t: nat, now: int, x: Session)
    requires IsRun(config, run) && i < |run| && t in run[i].threads && run[i].threads[t].Authenticating?
    ensures
      var Authenticating(goal, token) := run[i].threads[t];
      var after := Step(config, run[i], ReadSessionState(t, now));
      && after.state == run[i].state
      && ((forall y :: y in run[i].state.sessions && y.tokenHash == token ==> !IsLive(config, y, now)) ==>
            t !in after.threads)
      && (x in run[i].state.sessions && x.tokenHash == token && IsLive(config, x, now) ==>
            && t in after.threads
            && after.threads[t] == if now < x.lastSeenAt + config.sessionTouchMs then
                                     Authorized(goal, token, Identity(FOUNDER, x))
                                   else Touching(goal, token, Identity(FOUNDER, x), now))
  {
    hide IsRun, Inv, ReadSession, IsLive, GoalCapability;
    var Authenticating(goal, token) := run[i].threads[t];
    var who := ReadSession(run[i].state, token, GoalCapability(goal), now);
    RunKeepsInv(config, run, i);
    TokenAuthenticatesExactly(config, run, i, token, GoalCapability(goal), now);
    if who.Some? && x in run[i].state.sessions && x.tokenHash == token && IsLive(config, x, now) {
      ReadIsStored(run[i].state, token, GoalCapability(goal), now);
      OneSessionPerToken(run[i], x, who.value.session);
    }
  }

  lemma ReadIsStored(s: State, token: Hash, capability: Option<Capability>, now: int)
    ensures
      var who := ReadSession(s, token, capability, now);
      who.Some? ==> who.value.session in s.sessions
  {
  }

  // ------------------------------------------------------------------- what rewriting them does

  /** A touch succeeds exactly for an open session, moves its own expiry alone, and stores what it
      answers. */
  lemma TouchExactly(s: State, id: Id, idleMs: int, now: int)
    requires UniqueBy(s.sessions, SessionKey)
    ensures
      var done := TouchTx(s, id, idleMs, now);
      && (done.Accept? <==> exists x :: x in s.sessions && x.sessionId == id && x.revokedAt.None?
                                        && now < x.absoluteExpiresAt && now < x.idleExpiresAt)
      && (done.Accept? ==>
            && done.next == s.(sessions := done.next.sessions) && |done.next.sessions| == |s.sessions|
            && done.result in done.next.sessions && done.result.sessionId == id
            && forall k :: 0 <= k < |s.sessions| ==>
                 && (s.sessions[k].sessionId != id ==> done.next.sessions[k] == s.sessions[k])
                 && (s.sessions[k].sessionId == id ==>
                       && done.next.sessions[k] == done.result
                       && done.result == s.sessions[k].(lastSeenAt := now, idleExpiresAt := done.result.idleExpiresAt)
                       && done.result.idleExpiresAt == EarlierOf(s.sessions[k].absoluteExpiresAt, now + idleMs)))
  {
    var found := SessionById(s, id);
    if x :| x in s.sessions && x.sessionId == id && x.revokedAt.None?
            && now < x.absoluteExpiresAt && now < x.idleExpiresAt {
      UniqueMembers(s.sessions, SessionKey, x, found.value);
    }
    var done := TouchTx(s, id, idleMs, now);
    if done.Accept? {
      forall k | 0 <= k < |s.sessions| && s.sessions[k].sessionId == id
        ensures s.sessions[k] == found.value && done.next.sessions[k] == done.result
      {
        UniqueMembers(s.sessions, SessionKey, s.sessions[k], found.value);
      }
      var i :| 0 <= i < |s.sessions| && s.sessions[i] == found.value;
      assert done.next.sessions[i] == done.result;
    }
  }

  function EarlierOf(a: int, b: int): (r: int)
    ensures r <= a && r <= b && (r == a || r == b)
  {
    if a <= b then a else b
  }

  /** Revoking one session succeeds exactly when it is stored, and sets its revocation time unless it has
      one; nothing else moves but the event list. */
  lemma RevokeOneExactly(s: State, target: Id, event: SecurityEvent, now: int)
    ensures
      var done := RevokeSessionTx(s, target, event, now);
      && (done.Accept? <==> exists x :: x in s.sessions && x.sessionId == target)
      && (done.Accept? ==>
            && done.next == s.(sessions := done.next.sessions, events := done.next.events)
            && |done.next.sessions| == |s.sessions|
            && forall k :: 0 <= k < |s.sessions| ==>
                 done.next.sessions[k]
                 == if s.sessions[k].sessionId != target || s.sessions[k].revokedAt.Some? then s.sessions[k]
                    else s.sessions[k].(revokedAt := Some(now)))
  {
    hide AppendEvent;
  }

  /** In a reachable state logging out succeeds exactly for the token of a session not yet revoked, expired
      or not, and revokes that one alone. */
  lemma LogoutExactly(sys: System, token: Hash, event: SecurityEvent, now: int)
    requires Inv(sys)
    ensures
      var s, done := sys.state, LogoutTx(sys.state, token, event, now);
      && (done.Accept? <==> exists x :: x in s.sessions && x.tokenHash == token && x.revokedAt.None?)
      && (done.Accept? ==>
            && done.next == s.(sessions := done.next.sessions, events := done.next.events)
            && |done.next.sessions| == |s.sessions|
            && forall k :: 0 <= k < |s.sessions| ==>
                 done.next.sessions[k]
                 == if s.sessions[k].tokenHash != token then s.sessions[k]
                    else s.sessions[k].(revokedAt := Some(now)))
  {
    hide AppendEvent, Inv;
    var s, found := sys.state, SessionByToken(sys.state, token);
    if found.Some? {
      forall k | 0 <= k < |s.sessions|
        ensures s.sessions[k].tokenHash == token <==> s.sessions[k].sessionId == found.value.sessionId
      {
        TokenIsKey(sys, s.sessions[k], found.value);
      }
      if x :| x in s.sessions && x.tokenHash == token && x.revokedAt.None? {
        OneSessionPerToken(sys, x, found.value);
      }
    }
  }

  lemma TokenIsKey(sys: System, x: Session, y: Session)
    requires Inv(sys) && x in sys.state.sessions && y in sys.state.sessions
    ensures x.tokenHash == y.tokenHash <==> x.sessionId == y.sessionId
  {
    if x.tokenHash == y.tokenHash {
      OneSessionPerToken(sys, x, y);
    }
    if x.sessionId == y.sessionId {
      hide RecordsOk, FounderOk, CountersOk, ActsOk, CallersOk, MintedOk;
      UniqueMembers(sys.state.sessions, SessionKey, x, y);
    }
  }

  // ------------------------------------------------------------------- who ended them

  predicate Names(goal: Goal, x: Session) {
    match goal
    case RevokeOne(target) => x.sessionId == target
    case RevokeAll(Some(principalId)) => x.principalId == principalId
    case RevokeAll(None) => x.principalId == "founder"
    case _ => false
  }

  /** `a` ends session `x` at `at`: it shows the session's own token, or its caller is authenticated as the
      founder and names the session, or the principal it belongs to, by default the caller's own. */
  predicate Ends(sys: System, a: Action, x: Session, at: int) {
    match a
    case Logout(token, _, now) => x.tokenHash == token && at == now
    case Perform(t, _, _, _, now) =>
      && at == now && t in sys.threads && sys.threads[t].Authorized? && sys.threads[t].who.principal == FOUNDER
      && Names(sys.threads[t].goal, x)
    case _ => false
  }

  /** The open session of that identifier, as `a` found and ended it. */
  ghost predicate EndsOpen(sys: System, a: Action, x: Session, id: Id, at: int) {
    x in sys.state.sessions && x.sessionId == id && x.revokedAt.None? && Ends(sys, a, x, at)
  }

  ghost predicate EndedAt(config: Config, run: seq<System>, k: nat, id: Id, at: int) {
    exists a, x :: Took(config, run, k, a) && EndsOpen(run[k], a, x, id, at)
  }

  lemma AdministratorsAreFounders(th: Thread)
    requires CallerOk(th) && th.Authorized? && (th.goal.RevokeOne? || th.goal.RevokeAll?)
    ensures th.who.principal == FOUNDER
  {
  }

  lemma RevokeOneEnds(config: Config, sys: System, a: Action, next: State, id: Id) returns (x: Session)
    requires Inv(sys) && a.Perform? && ProposalOf(config, sys, a) == Proposed(next)
    requires sys.threads[a.caller].goal.RevokeOne? && sys.threads[a.caller].who.principal == FOUNDER
    requires id !in sys.h.revoked && id in AfterPerform(config, sys, a, next).h.revoked
    ensures EndsOpen(sys, a, x, id, AfterPerform(config, sys, a, next).h.revoked[id])
  {
    hide ChallengesOk, ReceiptsOk, IssuedOk, BooksOk, CallersOk, AppendEvent, RevokeIfOpen;
    x := SessionById(sys.state, id).value;
    assert SessionTracked(x, sys.h.sessions, sys.h.revoked);
  }

  lemma RevokeAllEnds(config: Config, sys: System, a: Action, next: State, id: Id) returns (x: Session)
    requires a.Perform? && ProposalOf(config, sys, a) == Proposed(next)
    requires sys.threads[a.caller].goal.RevokeAll? && sys.threads[a.caller].who.principal == FOUNDER
    requires id !in sys.h.revoked && id in AfterPerform(config, sys, a, next).h.revoked
    ensures EndsOpen(sys, a, x, id, AfterPerform(config, sys, a, next).h.revoked[id])
  {
    hide AppendEvent, RevokeAllOf;
    var th := sys.threads[a.caller];
    x :| x in sys.state.sessions && x.principalId == TargetPrincipal(th.goal, th.who) && x.revokedAt.None?
         && x.sessionId == id;
  }

  lemma OthersEndNothing(config: Config, sys: System, a: Action, next: State)
    requires a.Perform? && a.caller in sys.threads && sys.threads[a.caller].Authorized?
    requires !sys.threads[a.caller].goal.RevokeOne? && !sys.threads[a.caller].goal.RevokeAll?
    ensures AfterPerform(config, sys, a, next).h.revoked == sys.h.revoked
  {
    hide ConsumeReceiptTx, Command, RequestCapability, StepUpChallenge;
  }

  lemma PerformEnds(config: Config, sys: System, a: Action, next: State, id: Id) returns (x: Session)
    requires Inv(sys) && Identified(sys) && a.Perform? && ProposalOf(config, sys, a) == Proposed(next)
    requires id !in sys.h.revoked && id in AfterPerform(config, sys, a, next).h.revoked
    ensures EndsOpen(sys, a, x, id, AfterPerform(config, sys, a, next).h.revoked[id])
  {
    hide Inv, PerformProposal, AfterPerform, KnownPrincipal, EndsOpen, CallerOk;
    var th := sys.threads[a.caller];
    assert CallerOk(th);
    if th.goal.RevokeOne? {
      AdministratorsAreFounders(th);
      x := RevokeOneEnds(config, sys, a, next, id);
    } else if th.goal.RevokeAll? {
      AdministratorsAreFounders(th);
      x := RevokeAllEnds(config, sys, a, next, id);
    } else {
      OthersEndNothing(config, sys, a, next);
    }
  }

  lemma LogoutEnds(config: Config, sys: System, a: Action, next: State, id: Id) returns (x: Session)
    requires Inv(sys) && a.Logout? && ProposalOf(config, sys, a) == Proposed(next)
    requires id !in sys.h.revoked && id in Committed(config, sys, a, next).h.revoked
    ensures EndsOpen(sys, a, x, id, Committed(config, sys, a, next).h.revoked[id])
  {
    hide Inv, AppendEvent, EndSession;
    x := SessionByToken(sys.state, a.token).value;
  }

  lemma CommitEnds(config: Config, sys: System, a: Action, next: State, id: Id) returns (x: Session)
    requires Inv(sys) && Identified(sys) && ProposalOf(config, sys, a) == Proposed(next)
    requires id !in sys.h.revoked && id in Committed(config, sys, a, next).h.revoked
    ensures EndsOpen(sys, a, x, id, Committed(config, sys, a, next).h.revoked[id])
  {
    hide Inv, Identified, PerformProposal, AfterPerform, FinishRegistrationTx, FinishLoginTx, FinishStepUpTx,
         ConsumeChallengeTx, EndsOpen, LogoutTx, FirstRevocation;
    if a.Perform? {
      x := PerformEnds(config, sys, a, next, id);
    } else if a.Logout? {
      x := LogoutEnds(config, sys, a, next, id);
    }
  }

  lemma EndsIfDrawn(sys: System, a: Action, x: Session, id: Id, at: int)
    ensures EndsOpen(Drawn(sys, Mints(a)), a, x, id, at) == EndsOpen(sys, a, x, id, at)
  {
    hide Mints, Minted;
  }

  /** Over every run, a session that counts as revoked was ended, at that very time and while it was open,
      by its own token or by the authenticated founder who named it or its principal. */
  lemma {:induction false} RevocationWasLedTo(config: Config, run: seq<System>, i: nat, id: Id) returns (k: nat)
    requires IsRun(config, run) && i < |run| && id in run[i].h.revoked
    ensures k < i && EndedAt(config, run, k, id, run[i].h.revoked[id])
  {
    hide IsRun, Step, Inv, Grows, Identified, Unseen, EndsOpen, ProposalOf, Committed, Mints, ValidState;
    StartRevokesNothing(config, run);
    Reached(config, run, i - 1, i);
    if id in run[i - 1].h.revoked {
      k := RevocationWasLedTo(config, run, i - 1, id);
      RevocationStays(run[i - 1].h, run[i].h, id);
    } else {
      k := i - 1;
      var a := StepOfRun(config, run, k);
      var next := CommitsOrNot(config, run[k], a);
      DrawingKeepsInv(run[k], Mints(a));
      RunIdentifies(config, run, k);
      StillIdentified(run[k], Mints(a));
      var x := CommitEnds(config, Drawn(run[k], Mints(a)), a, next.value, id);
      EndsIfDrawn(run[k], a, x, id, run[i].h.revoked[id]);
      assert Took(config, run, k, a);
    }
  }

  lemma StartRevokesNothing(config: Config, run: seq<System>)
    requires IsRun(config, run)
    ensures run[0].h.revoked == map[]
  {
  }

  lemma RevocationStays(h: History, h': History, id: Id)
    requires Grows(h, h') && id in h.revoked
    ensures id in h'.revoked && h'.revoked[id] == h.revoked[id]
  {
  }

  /** Once the founder's sweep committed, no session of the principal it named, by default the founder, is
      open, and nobody else's was touched. */
  lemma SweepClosesAll(config: Config, sys: System, a: Action, next: State, x: Session)
    requires a.Perform? && ProposalOf(config, sys, a) == Proposed(next) && sys.threads[a.caller].goal.RevokeAll?
    ensures
      var goal, who := sys.threads[a.caller].goal, sys.threads[a.caller].who;
      var named := if goal.principalId.None? then who.principal.principalId else goal.principalId.value;
      && (x in next.sessions && x.principalId == named ==> x.revokedAt.Some?)
      && (x.principalId != named ==> (x in next.sessions <==> x in sys.state.sessions))
  {
    hide AppendEvent;
    var after := next.sessions;
    assert |after| == |sys.state.sessions|;
    if x in sys.state.sessions {
      var i :| 0 <= i < |after| && sys.state.sessions[i] == x;
      assert after[i] in after;
    }
  }
}
