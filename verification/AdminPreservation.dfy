/** Every atomic step of the ceremony machine keeps the invariant. */
module AdminPreservation {
  import opened Collections
  import opened AdminContracts
  import opened AdminTransactions
  import opened CommandStrings
  import opened AdminCeremonies
  import opened AdminInvariants
  import OptimisticState

  /** A freshly drawn value names nothing yet. */
  ghost predicate Unseen(id: Id, h: History) {
    && id in h.minted
    && id !in h.challenges && id !in h.receipts && id !in h.sessions
    && (forall x :: x in h.sessions ==> h.sessions[x].tokenHash != id)
    && (forall x :: x in h.receipts ==> h.receipts[x].receipt.tokenHash != id)
  }

  function Drawn(sys: System, ids: seq<Id>): System {
    sys.(h := sys.h.(minted := Minted(sys.h.minted, ids)))
  }

  lemma DrawingKeepsInv(sys: System, ids: seq<Id>)
    requires Inv(sys) && Fresh(sys.h.minted, ids)
    ensures Inv(Drawn(sys, ids))
    ensures forall i :: 0 <= i < |ids| ==> Unseen(ids[i], Drawn(sys, ids).h)
  {
    var h' := Drawn(sys, ids).h;
    ThreadsSurvive(sys.threads, sys.h, h', sys.state.principals != [], sys.state.principals != []);
    assert ActsOk(h') by {
      forall k | 0 <= k < |h'.acts|
        ensures ActOk(h'.acts[k], h')
      {
        assert ActOk(sys.h.acts[k], sys.h);
      }
    }
  }

  lemma DroppingKeepsInv(sys: System, t: nat)
    requires Inv(sys)
    ensures Inv(sys.(threads := sys.threads - {t}))
  {
  }

  /** Steps that touch neither the records the callers rely on nor the callers themselves. */
  lemma EventAppended(es: seq<SecurityEvent>, e: SecurityEvent, h: History)
    requires MintedOk(h, es) && e.eventId in h.minted
    ensures MintedOk(h, AppendEvent(es, e))
  {
  }

  lemma CreateBootstrapKeeps(config: Config, sys: System, token: Hash, eventId: Id, now: int, next: State)
    requires Inv(sys) && eventId in sys.h.minted && ValidState(next)
    requires ProposalOf(config, sys, CreateBootstrap(token, eventId, now)) == Proposed(next)
    ensures Inv(Committed(config, sys, CreateBootstrap(token, eventId, now), next))
  {
    EventAppended(sys.state.events, SecurityEvent(eventId, BootstrapCreated), sys.h);
  }

  // ------------------------------------------------------------------- parts that outlive a step

  lemma ActsSurvive(h: History, h': History)
    requires ActsOk(h) && Extends(h, h') && h'.acts == h.acts
    ensures ActsOk(h')
  {
    forall k | 0 <= k < |h'.acts|
      ensures ActOk(h'.acts[k], h')
    {
      assert ActOk(h.acts[k], h);
    }
  }

  lemma IssuedSurvive(h: History, h': History)
    requires IssuedOk(h.receipts, h.challenges, h.used) && Extends(h, h') && h'.receipts == h.receipts
    ensures IssuedOk(h'.receipts, h'.challenges, h'.used)
  {
    forall id | id in h'.receipts
      ensures Earned(h'.receipts[id], h'.challenges, h'.used)
    {
      assert Earned(h.receipts[id], h.challenges, h.used);
    }
  }

  lemma FounderSurvives(s: State, next: State, h: History, h': History)
    requires FounderOk(s.bootstrap, s.principals, h.founders, h.challenges, h.used)
    requires next.bootstrap == s.bootstrap && next.principals == s.principals
    requires Extends(h, h') && h'.founders == h.founders
    ensures FounderOk(next.bootstrap, next.principals, h'.founders, h'.challenges, h'.used)
  {
  }

  lemma CallersSurvive(threads: map<nat, Thread>, h: History, h': History, founded: bool)
    requires CallersOk(threads, h, founded) && Extends(h, h')
    requires h'.receipts == h.receipts && h'.acts == h.acts
    ensures CallersOk(threads, h', founded)
  {
    ThreadsSurvive(threads, h, h', founded, founded);
  }

  lemma DroppedCaller(threads: map<nat, Thread>, t: nat, h: History, founded: bool)
    requires CallersOk(threads, h, founded)
    ensures CallersOk(threads - {t}, h, founded)
  {
  }

  /** What does not depend on the records an action rewrites. */
  lemma RestSurvives(s: State, next: State, h: History, h': History)
    requires IssuedOk(h.receipts, h.challenges, h.used) && BooksOk(s, h) && Extends(h, h')
    requires h'.receipts == h.receipts && h'.founders == h.founders && h'.acts == h.acts && h'.uses == h.uses
    requires next.bootstrap == s.bootstrap && next.principals == s.principals && next.credentials == s.credentials
    requires ValidState(next) && MintedOk(h', next.events)
    ensures IssuedOk(h'.receipts, h'.challenges, h'.used) && BooksOk(next, h')
  {
    IssuedSurvive(h, h');
    ActsSurvive(h, h');
    FounderSurvives(s, next, h, h');
  }

  // ------------------------------------------------------------------- challenges

  /** Storing a new challenge under a flow never seen before. */
  lemma ChallengeStored(sys: System, c: Challenge, next: State, threads: map<nat, Thread>, now: int)
    requires Inv(sys) && ValidState(next) && Unseen(c.flowId, sys.h) && c.usedAt.None?
    requires next.(challenges := sys.state.challenges, events := sys.state.events) == sys.state
    requires next.challenges == AppendChallenge(sys.state.challenges, c, now)
    requires MintedOk(sys.h, next.events)
    requires CallersOk(threads, sys.h, sys.state.principals != [])
    ensures Inv(System(next, threads, sys.h.(challenges := sys.h.challenges[c.flowId := c])))
  {
    var h' := sys.h.(challenges := sys.h.challenges[c.flowId := c]);
    AppendChallengeOk(sys.state.challenges, sys.h.challenges, sys.h.used, c, now);
    assert Extends(sys.h, h');
    hide ChallengesOk, ReceiptsOk, SessionsOk, IssuedOk, FounderOk, CountersOk, ActsOk, CallersOk, ValidState,
         AppendChallenge;
    RestSurvives(sys.state, next, sys.h, h');
    CallersSurvive(threads, sys.h, h', sys.state.principals != []);
  }

  lemma BeginRegistrationKeeps(
      config: Config, sys: System, presented: Hash, flowId: Id, sourceKey: Hash, now: int, next: State)
    requires Inv(sys) && Unseen(flowId, sys.h) && ValidState(next)
    requires ProposalOf(config, sys, BeginRegistration(presented, flowId, sourceKey, now)) == Proposed(next)
    ensures Inv(Committed(config, sys, BeginRegistration(presented, flowId, sourceKey, now), next))
  {
    ChallengeStored(sys, RegistrationChallenge(config, presented, flowId, sourceKey, now), next, sys.threads, now);
  }

  lemma OfferLoginKeeps(
      config: Config, sys: System, t: nat, flowId: Id, sourceKey: Hash, eventId: Id, now: int, next: State)
    requires Inv(sys) && Unseen(flowId, sys.h) && eventId in sys.h.minted && ValidState(next)
    requires ProposalOf(config, sys, OfferLogin(t, flowId, sourceKey, eventId, now)) == Proposed(next)
    ensures Inv(Committed(config, sys, OfferLogin(t, flowId, sourceKey, eventId, now), next))
  {
    EventAppended(sys.state.events, SecurityEvent(eventId, AuthenticationChallengeCreated), sys.h);
    DroppingKeepsInv(sys, t);
    ChallengeStored(sys, LoginChallenge(config, sys.threads[t].principalId, flowId, sourceKey, now), next,
                    sys.threads - {t}, now);
  }

  /** A caller takes hold of a step-up flow nobody holds and no receipt came from. */
  lemma FlowTaken(threads: map<nat, Thread>, t: nat, next: Thread, h: History, acts: seq<Act>, flow: Id)
    requires FlowsHeldOnce(threads, h.receipts) && ReceiptsHeldOnce(threads, acts) && t !in threads
    requires HeldReceipt(next).None? && (HeldFlow(next).Some? ==> HeldFlow(next) == Some(flow))
    requires forall u :: u in threads ==> HeldFlow(threads[u]) != Some(flow)
    requires forall id :: id in h.receipts ==> h.receipts[id].flowId != flow
    ensures FlowsHeldOnce(threads[t := next], h.receipts) && ReceiptsHeldOnce(threads[t := next], acts)
  {
    hide HeldFlow, HeldReceipt;
  }

  /** Nobody holds, and no receipt came from, a flow that is still unused. */
  lemma UnusedFlowIsFree(sys: System, flow: Id)
    requires IssuedOk(sys.h.receipts, sys.h.challenges, sys.h.used) && flow !in sys.h.used
    requires CallersOk(sys.threads, sys.h, sys.state.principals != [])
    ensures forall u :: u in sys.threads ==> HeldFlow(sys.threads[u]) != Some(flow)
    ensures forall id :: id in sys.h.receipts ==> sys.h.receipts[id].flowId != flow
  {
    forall u | u in sys.threads
      ensures HeldFlow(sys.threads[u]) != Some(flow)
    {
      assert ThreadOk(sys.threads[u], sys.h, sys.state.principals != []);
    }
    forall id | id in sys.h.receipts
      ensures sys.h.receipts[id].flowId != flow
    {
      assert Earned(sys.h.receipts[id], sys.h.challenges, sys.h.used);
    }
  }

  lemma AfterConsumeOk(c: Challenge, sessionToken: Hash, h: History, founded: bool)
    requires c.flowId in h.used && c.flowId in h.challenges && h.challenges[c.flowId] == c
    ensures
      var next := AfterConsume(c, sessionToken);
      next.Some? ==>
        && ThreadOk(next.value, h, founded) && HeldReceipt(next.value).None?
        && (HeldFlow(next.value).Some? ==> HeldFlow(next.value) == Some(c.flowId))
  {
  }

  /** A consumed challenge passes to exactly one caller. */
  lemma ConsumedChallengeHeld(sys: System, t: nat, c: Challenge, sessionToken: Hash)
    requires Inv(sys) && t !in sys.threads
    requires c in sys.state.challenges && c.usedAt.None?
    ensures
      var h' := sys.h.(used := sys.h.used + {c.flowId});
      CallersOk(With(sys.threads, t, AfterConsume(c, sessionToken)), h', sys.state.principals != [])
  {
    var h' := sys.h.(used := sys.h.used + {c.flowId});
    var founded := sys.state.principals != [];
    assert ChallengeTracked(c, sys.h.challenges, sys.h.used);
    assert c.(usedAt := None) == c;
    hide ReceiptsOk, SessionsOk, BooksOk, IssuedOk, FlowsHeldOnce, ReceiptsHeldOnce, ChallengesOk, AfterConsume,
         HeldFlow, HeldReceipt, ThreadOk;
    UnusedFlowIsFree(sys, c.flowId);
    AfterConsumeOk(c, sessionToken, h', founded);
    CallersSurvive(sys.threads, sys.h, h', founded);
    var next := AfterConsume(c, sessionToken);
    if next.Some? {
      FlowTaken(sys.threads, t, next.value, h', h'.acts, c.flowId);
    } else {
      DroppedCaller(sys.threads, t, h', founded);
    }
  }

  lemma ConsumeChallengeKeeps(
      config: Config, sys: System, t: nat, flowId: Id, kind: ChallengeKind, sourceKey: Hash, sessionToken: Hash,
      now: int, next: State)
    requires Inv(sys) && ValidState(next)
    requires ProposalOf(config, sys, ConsumeChallenge(t, flowId, kind, sourceKey, sessionToken, now)) == Proposed(next)
    ensures Inv(Committed(config, sys, ConsumeChallenge(t, flowId, kind, sourceKey, sessionToken, now), next))
  {
    var c := ConsumeChallengeTx(sys.state, flowId, kind, sourceKey, now).result;
    var h' := sys.h.(used := sys.h.used + {c.flowId});
    assert ChallengeTracked(c, sys.h.challenges, sys.h.used);
    MarkUsedOk(sys.state.challenges, sys.h.challenges, sys.h.used, c.flowId, now);
    hide ChallengesOk, ReceiptsOk, SessionsOk, IssuedOk, FounderOk, CountersOk, ActsOk, CallersOk, ValidState,
         AfterConsume, MarkUsed;
    ConsumedChallengeHeld(sys, t, c, sessionToken);
    RestSurvives(sys.state, next, sys.h, h');
  }

  lemma FinishRegistrationKeeps(
      config: Config, sys: System, t: nat, credentialId: Id, counter: nat, eventId: Id, now: int, next: State)
    requires Inv(sys) && eventId in sys.h.minted && ValidState(next)
    requires ProposalOf(config, sys, FinishRegistration(t, credentialId, counter, eventId, now)) == Proposed(next)
    ensures Inv(Committed(config, sys, FinishRegistration(t, credentialId, counter, eventId, now), next))
  {
    var sys' := Committed(config, sys, FinishRegistration(t, credentialId, counter, eventId, now), next);
    var c := sys.threads[t].challenge;
    assert ThreadOk(sys.threads[t], sys.h, sys.state.principals != []);
    AddCredentialOk(sys.state.credentials, sys.h.uses, Credential(credentialId, FOUNDER_PRINCIPAL_ID, counter));
    AddedPrincipal(sys.state.principals, Human(FOUNDER_PRINCIPAL_ID, [Founder], {}, true));
    EventAppended(sys.state.events, SecurityEvent(eventId, FounderRegistered), sys.h);
    DroppingKeepsInv(sys, t);
    ThreadsSurvive(sys'.threads, sys.h, sys'.h, sys.state.principals != [], true);
    ActsSurvive(sys.h, sys'.h);
    assert FounderOk(next.bootstrap, next.principals, sys'.h.founders, sys'.h.challenges, sys'.h.used);
  }

  /** What an accepted login changes: the counter it read is still the stored one. */
  lemma LoginAccepted(
      s: State, read: Credential, newCounter: nat, session: Session, event: SecurityEvent, now: int, next: State)
    requires Propose(FinishLoginTx(s, read, newCounter, session, event, now)) == Proposed(next)
    requires UniqueBy(s.credentials, CredentialKey)
    ensures CounterOf(s.credentials, read.credentialId) == Some(read.counter)
    ensures next == s.(credentials := SetCounter(s.credentials, read.credentialId, newCounter),
                       sessions := AppendSession(s.sessions, session, now),
                       events := AppendEvent(s.events, event))
  {
    var current := OwnedCredential(s, read.principalId, read.credentialId).value;
    CounterLookup(s.credentials, current);
  }

  lemma CountersAdvance(s: State, h: History, use: CounterUse, next: State, h': History)
    requires BooksOk(s, h) && CounterOf(s.credentials, use.credentialId) == Some(use.read)
    requires CounterContract(use.read, use.wrote)
    requires next.credentials == SetCounter(s.credentials, use.credentialId, use.wrote)
    requires next.bootstrap == s.bootstrap && next.principals == s.principals
    requires Extends(h, h') && MintedOk(h', next.events) && ValidState(next)
    requires h'.founders == h.founders && h'.acts == h.acts && h'.uses == h.uses + [use]
    ensures BooksOk(next, h')
  {
    UseCounterOk(s.credentials, h.uses, use);
    hide FounderOk, CountersOk, ActsOk, SetCounter, Extends, MintedOk, CounterContract, CounterOf;
    ActsSurvive(h, h');
    FounderSurvives(s, next, h, h');
  }

  lemma LoginCommitted(
      sys: System, t: nat, use: CounterUse, session: Session, event: SecurityEvent, now: int, next: State)
    requires Inv(sys) && Unseen(session.sessionId, sys.h) && Unseen(session.tokenHash, sys.h)
    requires event.eventId in sys.h.minted && ValidState(next)
    requires session.revokedAt.None? && session.idleExpiresAt <= session.absoluteExpiresAt
    requires CounterOf(sys.state.credentials, use.credentialId) == Some(use.read)
    requires CounterContract(use.read, use.wrote)
    requires next == sys.state.(credentials := SetCounter(sys.state.credentials, use.credentialId, use.wrote),
                                sessions := AppendSession(sys.state.sessions, session, now),
                                events := AppendEvent(sys.state.events, event))
    ensures
      Inv(System(next, sys.threads - {t},
                 sys.h.(sessions := sys.h.sessions[session.sessionId := session], uses := sys.h.uses + [use])))
  {
    var s, h := sys.state, sys.h;
    var h' := h.(sessions := h.sessions[session.sessionId := session], uses := h.uses + [use]);
    hide ChallengesOk, ReceiptsOk, SessionsOk, IssuedOk, FounderOk, CountersOk, ActsOk, CallersOk, ValidState,
         AppendSession, SetCounter, CounterOf, CounterContract;
    assert Extends(h, h') && MintedOk(h', next.events);
    hide Extends, MintedOk, AppendEvent;
    AppendSessionOk(s.sessions, h.sessions, h.revoked, session, now);
    CountersAdvance(s, h, use, next, h');
    IssuedSurvive(h, h');
    DroppedCaller(sys.threads, t, h, s.principals != []);
    CallersSurvive(sys.threads - {t}, h, h', s.principals != []);
  }

  lemma FinishLoginKeeps(
      config: Config, sys: System, t: nat, newCounter: nat, sessionId: Id, token: Hash, eventId: Id, now: int,
      next: State)
    requires Inv(sys) && Unseen(sessionId, sys.h) && Unseen(token, sys.h) && eventId in sys.h.minted
    requires ValidState(next)
    requires ProposalOf(config, sys, FinishLogin(t, newCounter, sessionId, token, eventId, now)) == Proposed(next)
    ensures Inv(Committed(config, sys, FinishLogin(t, newCounter, sessionId, token, eventId, now), next))
  {
    hide RecordsOk, CallersOk, Unseen, WithinBounds, FinishLoginTx, CounterContract, CounterOf, AppendSession,
         SetCounter,
         UniqueBy, MintedOk, FounderOk, CountersOk, ActsOk, AppendEvent;
    var read := sys.threads[t].credential;
    var session := NewSession(config, read.principalId, sessionId, token, now);
    var event := SecurityEvent(eventId, AuthenticationSucceeded);
    LoginAccepted(sys.state, read, newCounter, session, event, now, next);
    hide BooksOk, ValidState;
    LoginCommitted(sys, t, CounterUse(read.credentialId, read.counter, newCounter), session, event, now, next);
  }

  /** Replacing a caller's thread by one with the same goal keeps what the callers hold. */
  lemma SameGoalKeepsCallers(threads: map<nat, Thread>, t: nat, next: Thread, h: History, founded: bool)
    requires CallersOk(threads, h, founded) && t in threads && ThreadOk(next, h, founded)
    requires HeldFlow(next) == HeldFlow(threads[t]) && HeldReceipt(next) == HeldReceipt(threads[t])
    ensures CallersOk(threads[t := next], h, founded)
  {
  }

  /** A caller that holds neither a flow nor a receipt disturbs nobody. */
  lemma EmptyHandedKeepsCallers(threads: map<nat, Thread>, t: nat, next: Thread, h: History, founded: bool)
    requires CallersOk(threads, h, founded) && ThreadOk(next, h, founded)
    requires HeldFlow(next).None? && HeldReceipt(next).None?
    ensures CallersOk(threads[t := next], h, founded)
  {
  }

  lemma TouchCommitted(sys: System, t: nat, th: Thread, idleMs: int, touched: Session, next: State)
    requires Inv(sys) && ValidState(next) && t in sys.threads && sys.threads[t] == th && th.Touching?
    requires TouchTx(sys.state, th.who.session.sessionId, idleMs, th.now) == OptimisticState.Accept(next, touched)
    ensures
      var ready := Authorized(th.goal, th.token, th.who.(session := touched));
      Inv(sys.(state := next, threads := sys.threads[t := ready]))
  {
    assert ThreadOk(th, sys.h, sys.state.principals != []);
    var current := SessionById(sys.state, th.who.session.sessionId).value;
    assert SessionTracked(current, sys.h.sessions, sys.h.revoked);
    ReplaceSessionOk(sys.state.sessions, sys.h.sessions, sys.h.revoked, touched);
    SameGoalKeepsCallers(sys.threads, t, Authorized(th.goal, th.token, th.who.(session := touched)), sys.h,
                         sys.state.principals != []);
  }

  lemma TouchKeeps(config: Config, sys: System, t: nat, next: State)
    requires Inv(sys) && ValidState(next)
    requires ProposalOf(config, sys, Touch(t)) == Proposed(next)
    ensures Inv(Committed(config, sys, Touch(t), next))
  {
    hide Inv, ValidState, TouchTx;
    var th := sys.threads[t];
    TouchCommitted(sys, t, th, config.sessionIdleMs,
                   TouchTx(sys.state, th.who.session.sessionId, config.sessionIdleMs, th.now).result, next);
  }

  lemma LogoutKeeps(config: Config, sys: System, token: Hash, eventId: Id, now: int, next: State)
    requires Inv(sys) && eventId in sys.h.minted && ValidState(next)
    requires ProposalOf(config, sys, Logout(token, eventId, now)) == Proposed(next)
    ensures Inv(Committed(config, sys, Logout(token, eventId, now), next))
  {
    var sys' := Committed(config, sys, Logout(token, eventId, now), next);
    var session := SessionByToken(sys.state, token).value;
    assert SessionTracked(session, sys.h.sessions, sys.h.revoked);
    EndSessionOk(sys.state.sessions, sys.h.sessions, sys.h.revoked, session.sessionId, now);
    EventAppended(sys.state.events, SecurityEvent(eventId, SessionRevoked), sys.h);
    ThreadsSurvive(sys.threads, sys.h, sys'.h, sys.state.principals != [], next.principals != []);
    ActsSurvive(sys.h, sys'.h);
  }

  lemma RateLimitKeeps(config: Config, sys: System, a: Action, next: State)
    requires Inv(sys) && ValidState(next) && a.RateLimit? && ProposalOf(config, sys, a) == Proposed(next)
    ensures Inv(Committed(config, sys, a, next))
  {
  }

  lemma AuditKeeps(config: Config, sys: System, eventType: EventType, eventId: Id, next: State)
    requires Inv(sys) && ValidState(next) && eventId in sys.h.minted
    requires ProposalOf(config, sys, Audit(eventType, eventId)) == Proposed(next)
    ensures Inv(Committed(config, sys, Audit(eventType, eventId), next))
  {
    EventAppended(sys.state.events, SecurityEvent(eventId, eventType), sys.h);
  }

  lemma IssueOk(issued: map<Id, Issued>, created: map<Id, Challenge>, used: set<Id>, i: Issued)
    requires IssuedOk(issued, created, used) && Earned(i, created, used)
    requires forall id :: id in issued ==> issued[id].flowId != i.flowId
    ensures IssuedOk(issued[i.receipt.receiptId := i], created, used)
  {
  }

  /** The caller that turned its flow into a receipt leaves. */
  lemma FlowSpent(threads: map<nat, Thread>, t: nat, issued: map<Id, Issued>, i: Issued)
    requires FlowsHeldOnce(threads, issued) && t in threads && HeldFlow(threads[t]) == Some(i.flowId)
    ensures FlowsHeldOnce(threads - {t}, issued[i.receipt.receiptId := i])
    ensures forall id :: id in issued ==> issued[id].flowId != i.flowId
  {
    hide HeldFlow;
  }

  lemma StepUpAccepted(
      s: State, read: Credential, newCounter: nat, sessionId: Id, receipt: Receipt, event: SecurityEvent, now: int,
      next: State)
    requires Propose(FinishStepUpTx(s, read, newCounter, sessionId, receipt, event, now)) == Proposed(next)
    requires UniqueBy(s.credentials, CredentialKey)
    ensures CounterOf(s.credentials, read.credentialId) == Some(read.counter)
    ensures next == s.(credentials := SetCounter(s.credentials, read.credentialId, newCounter),
                       receipts := AppendReceipt(s.receipts, receipt, now),
                       events := AppendEvent(s.events, event))
  {
    CounterLookup(s.credentials, CredentialOf(s, read.credentialId).value);
  }

  /** The receipt a caller's held challenge earns. */
  lemma EarnedFromHeld(config: Config, th: Thread, receiptId: Id, token: Hash, now: int, h: History, founded: bool)
    requires th.VerifyingStepUp? && ThreadOk(th, h, founded) && FullyBound(th.challenge)
    ensures
      var earned := Issued(NewReceipt(config, th.challenge, receiptId, token, now), th.challenge.flowId);
      Earned(earned, h.challenges, h.used) && HeldFlow(th) == Some(earned.flowId)
  {
  }

  lemma StepUpCommitted(
      sys: System, t: nat, use: CounterUse, earned: Issued, event: SecurityEvent, now: int, next: State)
    requires Inv(sys) && t in sys.threads && HeldFlow(sys.threads[t]) == Some(earned.flowId)
    requires Earned(earned, sys.h.challenges, sys.h.used) && earned.receipt.consumedAt.None?
    requires Unseen(earned.receipt.receiptId, sys.h) && Unseen(earned.receipt.tokenHash, sys.h)
    requires event.eventId in sys.h.minted && ValidState(next)
    requires CounterOf(sys.state.credentials, use.credentialId) == Some(use.read)
    requires CounterContract(use.read, use.wrote)
    requires next == sys.state.(credentials := SetCounter(sys.state.credentials, use.credentialId, use.wrote),
                                receipts := AppendReceipt(sys.state.receipts, earned.receipt, now),
                                events := AppendEvent(sys.state.events, event))
    ensures
      Inv(System(next, sys.threads - {t},
                 sys.h.(receipts := sys.h.receipts[earned.receipt.receiptId := earned], uses := sys.h.uses + [use])))
  {
    var s, h, founded := sys.state, sys.h, sys.state.principals != [];
    var h' := h.(receipts := h.receipts[earned.receipt.receiptId := earned], uses := h.uses + [use]);
    hide ChallengesOk, SessionsOk, ReceiptsOk, IssuedOk, FounderOk, CountersOk, ActsOk, ThreadsOk, FlowsHeldOnce,
         ReceiptsHeldOnce, ValidState, HeldFlow, Earned, AppendReceipt, SetCounter, CounterOf, CounterContract;
    assert Extends(h, h') && MintedOk(h', next.events);
    CountersAdvance(s, h, use, next, h');
    AppendReceiptOk(s.receipts, h.receipts, h.spent, earned.receipt, earned.flowId, now);
    hide Unseen, MintedOk, Extends, BooksOk, AppendEvent;
    FlowSpent(sys.threads, t, h.receipts, earned);
    IssueOk(h.receipts, h.challenges, h.used, earned);
    DroppedCaller(sys.threads, t, h, founded);
    ThreadsSurvive(sys.threads - {t}, h, h', founded, founded);
  }

  lemma FinishStepUpKeeps(
      config: Config, sys: System, t: nat, newCounter: nat, receiptId: Id, token: Hash, eventId: Id, now: int,
      next: State)
    requires Inv(sys) && Unseen(receiptId, sys.h) && Unseen(token, sys.h) && eventId in sys.h.minted
    requires ValidState(next)
    requires ProposalOf(config, sys, FinishStepUp(t, newCounter, receiptId, token, eventId, now)) == Proposed(next)
    ensures Inv(Committed(config, sys, FinishStepUp(t, newCounter, receiptId, token, eventId, now), next))
  {
    hide RecordsOk, ThreadOk, FlowsHeldOnce, ReceiptsHeldOnce, Unseen, WithinBounds, FinishStepUpTx, CounterContract,
         CounterOf, AppendReceipt, SetCounter, UniqueBy, MintedOk, FounderOk, CountersOk, ActsOk, FullyBound, Earned,
         HeldFlow, AppendEvent;
    var th := sys.threads[t];
    var receipt := NewReceipt(config, th.challenge, receiptId, token, now);
    var event := SecurityEvent(eventId, StepUpSucceeded);
    StepUpAccepted(sys.state, th.credential, newCounter, th.session.sessionId, receipt, event, now, next);
    EarnedFromHeld(config, th, receiptId, token, now, sys.h, sys.state.principals != []);
    hide BooksOk, ValidState, CallersOk;
    StepUpCommitted(sys, t, CounterUse(th.credential.credentialId, th.credential.counter, newCounter),
                    Issued(receipt, th.challenge.flowId), event, now, next);
  }

  // ------------------------------------------------------------------- the authenticated acts

  lemma SessionsRevoked(sys: System, next: State, t: nat, revoked: map<Id, int>)
    requires Inv(sys) && ValidState(next)
    requires next.(sessions := sys.state.sessions, events := sys.state.events) == sys.state
    requires MintedOk(sys.h, next.events)
    requires SessionsOk(next.sessions, sys.h.sessions, revoked)
    ensures Inv(System(next, sys.threads - {t}, sys.h.(revoked := revoked)))
  {
    var h' := sys.h.(revoked := revoked);
    DroppingKeepsInv(sys, t);
    ThreadsSurvive(sys.threads - {t}, sys.h, h', sys.state.principals != [], next.principals != []);
    ActsSurvive(sys.h, h');
  }

  lemma RevokeOneKeeps(config: Config, sys: System, a: Action, next: State)
    requires Inv(sys) && ValidState(next) && a.Perform? && a.eventId in sys.h.minted
    requires ProposalOf(config, sys, a) == Proposed(next) && sys.threads[a.caller].goal.RevokeOne?
    ensures Inv(AfterPerform(config, sys, a, next))
  {
    var target := sys.threads[a.caller].goal.target;
    var session := SessionById(sys.state, target).value;
    assert SessionTracked(session, sys.h.sessions, sys.h.revoked);
    RevokeIfOpenOk(sys.state.sessions, sys.h.sessions, sys.h.revoked, target, a.now);
    EventAppended(sys.state.events, SecurityEvent(a.eventId, SessionRevoked), sys.h);
    SessionsRevoked(sys, next, a.caller, FirstRevocation(sys.h.revoked, target, a.now));
  }

  lemma RevokeAllKeeps(config: Config, sys: System, a: Action, next: State)
    requires Inv(sys) && ValidState(next) && a.Perform? && a.eventId in sys.h.minted
    requires ProposalOf(config, sys, a) == Proposed(next) && sys.threads[a.caller].goal.RevokeAll?
    ensures Inv(AfterPerform(config, sys, a, next))
  {
    var principalId := TargetPrincipal(sys.threads[a.caller].goal, sys.threads[a.caller].who);
    RevokeAllOk(sys.state.sessions, sys.h.sessions, sys.h.revoked, principalId, a.now);
    EventAppended(sys.state.events, SecurityEvent(a.eventId, AllSessionsRevoked), sys.h);
    SessionsRevoked(sys, next, a.caller,
                    RevokedTogether(sys.h.revoked, sys.state.sessions, principalId, a.now));
  }

  lemma OfferStepUpKeeps(config: Config, sys: System, a: Action, next: State)
    requires Inv(sys) && ValidState(next) && a.Perform? && Unseen(a.flowId, sys.h) && a.eventId in sys.h.minted
    requires ProposalOf(config, sys, a) == Proposed(next) && sys.threads[a.caller].goal.OfferStepUp?
    ensures Inv(AfterPerform(config, sys, a, next))
  {
    var th := sys.threads[a.caller];
    EventAppended(sys.state.events, SecurityEvent(a.eventId, StepUpChallengeCreated), sys.h);
    DroppingKeepsInv(sys, a.caller);
    ChallengeStored(sys, StepUpChallenge(config, th.goal, th.who, a.flowId, a.sourceKey, a.now), next,
                    sys.threads - {a.caller}, a.now);
  }

  /** A caller takes hold of a spent receipt nobody holds and no act came from. */
  lemma ReceiptTaken(threads: map<nat, Thread>, t: nat, next: Thread, h: History, id: Id)
    requires FlowsHeldOnce(threads, h.receipts) && ReceiptsHeldOnce(threads, h.acts)
    requires HeldFlow(next).None? && HeldReceipt(next) == Some(id)
    requires forall u :: u in threads ==> HeldReceipt(threads[u]) != Some(id)
    requires forall k :: 0 <= k < |h.acts| ==> h.acts[k].receiptId != id
    ensures FlowsHeldOnce(threads[t := next], h.receipts) && ReceiptsHeldOnce(threads[t := next], h.acts)
  {
    hide HeldFlow, HeldReceipt;
  }

  lemma UnspentReceiptIsFree(sys: System, id: Id)
    requires ActsOk(sys.h) && CallersOk(sys.threads, sys.h, sys.state.principals != []) && id !in sys.h.spent
    ensures forall u :: u in sys.threads ==> HeldReceipt(sys.threads[u]) != Some(id)
    ensures forall k :: 0 <= k < |sys.h.acts| ==> sys.h.acts[k].receiptId != id
  {
    forall u | u in sys.threads
      ensures HeldReceipt(sys.threads[u]) != Some(id)
    {
      assert ThreadOk(sys.threads[u], sys.h, sys.state.principals != []);
    }
    forall k | 0 <= k < |sys.h.acts|
      ensures sys.h.acts[k].receiptId != id
    {
      assert ActOk(sys.h.acts[k], sys.h);
    }
  }

  /** What spending a receipt requires of it, and what it changes. */
  lemma ReceiptAccepted(
      s: State, who: Identity, r: Request, event: SecurityEvent, now: int, receipt: Receipt, next: State)
    requires
      ConsumeReceiptTx(s, who, RequestCapability(r), Command(r), r.fingerprint, r.receiptToken, event, now)
      == OptimisticState.Accept(next, receipt)
    ensures receipt in s.receipts && receipt.consumedAt.None? && Serves(receipt, r)
    ensures receipt.principalId == who.principal.principalId && receipt.sessionId == who.session.sessionId
    ensures next == s.(receipts := Spend(s.receipts, receipt.receiptId, now), events := AppendEvent(s.events, event))
  {
    hide Command, RequestCapability;
  }

  lemma CarriedOnceSpent(sys: System, th: Thread, receipt: Receipt, h': History)
    requires ReceiptsOk(sys.state.receipts, sys.h.receipts, sys.h.spent) && receipt in sys.state.receipts
    requires receipt.consumedAt.None? && th.Authorized? && th.goal.SpendReceipt? && Serves(receipt, th.goal.request)
    requires ThreadOk(th, sys.h, true)
    requires receipt.principalId == th.who.principal.principalId && receipt.sessionId == th.who.session.sessionId
    requires h' == sys.h.(spent := sys.h.spent + {receipt.receiptId})
    ensures Carried(th.goal.request, receipt.receiptId, th.token, h')
    ensures receipt.receiptId !in sys.h.spent && receipt.receiptId in sys.h.receipts
  {
    hide Serves;
    assert ReceiptTracked(receipt, sys.h.receipts, sys.h.spent);
    assert receipt.(consumedAt := None) == receipt;
  }

  lemma ReceiptSpent(
      sys: System, t: nat, carrying: Thread, event: SecurityEvent, now: int, id: Id, h': History, next: State)
    requires Inv(sys) && event.eventId in sys.h.minted && ValidState(next)
    requires id !in sys.h.spent && id in sys.h.receipts && h' == sys.h.(spent := sys.h.spent + {id})
    requires HeldFlow(carrying).None? && HeldReceipt(carrying) == Some(id)
    requires ThreadOk(carrying, h', sys.state.principals != [])
    requires next == sys.state.(receipts := Spend(sys.state.receipts, id, now),
                                events := AppendEvent(sys.state.events, event))
    ensures Inv(System(next, sys.threads[t := carrying], h'))
  {
    var s, h, founded := sys.state, sys.h, sys.state.principals != [];
    hide ChallengesOk, SessionsOk, ReceiptsOk, IssuedOk, FounderOk, CountersOk, ActsOk, ValidState, HeldFlow,
         HeldReceipt, FlowsHeldOnce, ReceiptsHeldOnce, Spend, ThreadOk;
    assert Extends(h, h') && MintedOk(h', next.events);
    SpendOk(s.receipts, h.receipts, h.spent, id, now);
    hide Extends, MintedOk;
    UnspentReceiptIsFree(sys, id);
    ReceiptTaken(sys.threads, t, carrying, h', id);
    RestSurvives(s, next, h, h');
    ThreadsSurvive(sys.threads, h, h', founded, founded);
  }

  lemma SpendReceiptKeeps(config: Config, sys: System, a: Action, next: State)
    requires Inv(sys) && ValidState(next) && a.Perform? && a.eventId in sys.h.minted
    requires ProposalOf(config, sys, a) == Proposed(next) && sys.threads[a.caller].goal.SpendReceipt?
    ensures Inv(AfterPerform(config, sys, a, next))
  {
    hide ValidState, ConsumeReceiptTx, Command, RequestCapability, ChallengesOk, ReceiptsOk, SessionsOk, IssuedOk,
         BooksOk,
         FlowsHeldOnce, ReceiptsHeldOnce, AppendEvent, Spend, Serves, KnownIdentity, Carried;
    var th := sys.threads[a.caller];
    assert ThreadOk(th, sys.h, sys.state.principals != []);
    var r, event := th.goal.request, SecurityEvent(a.eventId, StepUpReceiptConsumed);
    var receipt := ConsumeReceiptTx(sys.state, th.who, RequestCapability(r), Command(r), r.fingerprint, r.receiptToken,
                                    event, a.now).result;
    ReceiptAccepted(sys.state, th.who, r, event, a.now, receipt, next);
    var h' := sys.h.(spent := sys.h.spent + {receipt.receiptId});
    CarriedOnceSpent(sys, th, receipt, h');
    var carrying := Authenticating(Carry(r, receipt.receiptId), th.token);
    assert HeldFlow(carrying).None? && HeldReceipt(carrying) == Some(receipt.receiptId);
    hide RecordsOk, CallersOk;
    ReceiptSpent(sys, a.caller, carrying, event, a.now, receipt.receiptId, h', next);
  }

  /** The caller that turned its receipt into an act leaves. */
  lemma ReceiptActedUpon(threads: map<nat, Thread>, t: nat, h: History, act: Act)
    requires ReceiptsHeldOnce(threads, h.acts) && FlowsHeldOnce(threads, h.receipts)
    requires t in threads && HeldReceipt(threads[t]) == Some(act.receiptId)
    ensures FlowsHeldOnce(threads - {t}, h.receipts) && ReceiptsHeldOnce(threads - {t}, h.acts + [act])
    ensures forall k :: 0 <= k < |h.acts| ==> h.acts[k].receiptId != act.receiptId
  {
    hide HeldReceipt, HeldFlow;
  }

  lemma OneMoreAct(h: History, act: Act)
    requires ActsOk(h) && ActOk(act, h)
    requires forall k :: 0 <= k < |h.acts| ==> h.acts[k].receiptId != act.receiptId
    ensures ActsOk(h.(acts := h.acts + [act]))
  {
    var h' := h.(acts := h.acts + [act]);
    forall k | 0 <= k < |h'.acts|
      ensures ActOk(h'.acts[k], h')
    {
      if k < |h.acts| {
        assert ActOk(h.acts[k], h);
      }
    }
  }

  /** The act in hand is covered by the receipt the caller carries. */
  lemma ActIsCovered(sys: System, th: Thread)
    requires SessionsOk(sys.state.sessions, sys.h.sessions, sys.h.revoked)
    requires th.Authorized? && th.goal.Carry? && ThreadOk(th, sys.h, sys.state.principals != [])
    ensures ActOk(Act(th.goal.request, th.goal.receiptId, th.who.principal.principalId), sys.h)
    ensures HeldReceipt(th) == Some(th.goal.receiptId)
  {
    hide Serves, SessionsOk;
    SameSession(sys, sys.h.receipts[th.goal.receiptId].receipt, th);
  }

  lemma ActCommitted(sys: System, t: nat, th: Thread, next: State)
    requires Inv(sys) && t in sys.threads && sys.threads[t] == th && th.Authorized? && th.goal.Carry?
    requires ValidState(next) && MintedOk(sys.h, next.events)
    requires next.(events := sys.state.events, principals := sys.state.principals) == sys.state
    requires FounderOk(next.bootstrap, next.principals, sys.h.founders, sys.h.challenges, sys.h.used)
    requires sys.state.principals != [] ==> next.principals != []
    ensures
      var act := Act(th.goal.request, th.goal.receiptId, th.who.principal.principalId);
      Inv(System(next, sys.threads - {t}, sys.h.(acts := sys.h.acts + [act])))
  {
    hide ChallengesOk, ReceiptsOk, SessionsOk, IssuedOk, CountersOk, ValidState, ActsOk, FlowsHeldOnce,
         ReceiptsHeldOnce, ThreadOk, HeldReceipt, ActOk;
    var s, h, founded := sys.state, sys.h, sys.state.principals != [];
    var act := Act(th.goal.request, th.goal.receiptId, th.who.principal.principalId);
    var h' := h.(acts := h.acts + [act]);
    assert s.credentials != [] ==> HasFounder(next.principals) by {
      assert HasFounder(s.principals) <==> HasFounder(next.principals);
    }
    assert ThreadOk(th, h, founded);
    ActIsCovered(sys, th);
    assert Extends(h, h') && MintedOk(h', next.events);
    hide Extends, MintedOk, FounderOk, HasFounder;
    ReceiptActedUpon(sys.threads, t, h, act);
    OneMoreAct(h, act);
    ThreadsSurvive(sys.threads, h, h', founded, next.principals != []);
  }

  /** The token in hand belongs to the session the receipt was bound to, hence to its principal. */
  lemma SameSession(sys: System, r: Receipt, th: Thread)
    requires SessionsOk(sys.state.sessions, sys.h.sessions, sys.h.revoked)
    requires th.Authorized? && KnownIdentity(th.who, th.token, sys.h)
    requires r.sessionId in sys.h.sessions && sys.h.sessions[r.sessionId].tokenHash == th.token
    requires sys.h.sessions[r.sessionId].principalId == r.principalId
    ensures r.principalId == th.who.principal.principalId
  {
    assert r.sessionId == th.who.session.sessionId;
  }

  lemma SwitchAuthorisedKeeps(config: Config, sys: System, a: Action, next: State)
    requires Inv(sys) && ValidState(next) && a.Perform? && a.eventId in sys.h.minted
    requires ProposalOf(config, sys, a) == Proposed(next)
    requires sys.threads[a.caller].goal.Carry? && sys.threads[a.caller].goal.request.KillSwitch?
    ensures Inv(AfterPerform(config, sys, a, next))
  {
    hide ValidState, RecordsOk, CountersOk, ActsOk, MintedOk, FounderOk, CallersOk, AppendEvent;
    EventAppended(sys.state.events, SecurityEvent(a.eventId, KillSwitchAuthorized), sys.h);
    ActCommitted(sys, a.caller, sys.threads[a.caller], next);
  }

  lemma ServiceRegisteredKeeps(config: Config, sys: System, a: Action, next: State)
    requires Inv(sys) && ValidState(next) && a.Perform? && a.eventId in sys.h.minted
    requires ProposalOf(config, sys, a) == Proposed(next)
    requires sys.threads[a.caller].goal.Carry? && sys.threads[a.caller].goal.request.RegisterService?
    ensures Inv(AfterPerform(config, sys, a, next))
  {
    hide ValidState, RecordsOk, CountersOk, ActsOk, MintedOk, FounderOk, CallersOk, AppendEvent, ProfileCapabilities,
         PrincipalOf;
    var r := sys.threads[a.caller].goal.request;
    EventAppended(sys.state.events, SecurityEvent(a.eventId, ServicePrincipalRegistered), sys.h);
    RegistrationKeepsFounder(sys, a.caller,
                             Service(r.principalId, r.profile, ProfileCapabilities(r.profile), true));
    ActCommitted(sys, a.caller, sys.threads[a.caller], next);
  }

  lemma CarryKeeps(config: Config, sys: System, a: Action, next: State)
    requires Inv(sys) && ValidState(next) && a.Perform? && a.eventId in sys.h.minted
    requires ProposalOf(config, sys, a) == Proposed(next) && sys.threads[a.caller].goal.Carry?
    ensures Inv(AfterPerform(config, sys, a, next))
  {
    hide ValidState, Inv, AfterPerform;
    if sys.threads[a.caller].goal.request.KillSwitch? {
      SwitchAuthorisedKeeps(config, sys, a, next);
    } else {
      ServiceRegisteredKeeps(config, sys, a, next);
    }
  }

  /** Only the founder can be there first, so a service principal never takes the founder's name. */
  lemma RegistrationKeepsFounder(sys: System, t: nat, p: Principal)
    requires Inv(sys) && t in sys.threads && sys.threads[t].Authorized?
    requires PrincipalOf(sys.state, p.principalId).None?
    ensures FounderOk(sys.state.bootstrap, sys.state.principals + [p], sys.h.founders, sys.h.challenges, sys.h.used)
  {
    assert ThreadOk(sys.threads[t], sys.h, sys.state.principals != []);
    AddedPrincipal(sys.state.principals, p);
  }

  lemma PerformKeeps(config: Config, sys: System, a: Action, next: State)
    requires Inv(sys) && ValidState(next) && a.Perform? && Unseen(a.flowId, sys.h) && a.eventId in sys.h.minted
    requires ProposalOf(config, sys, a) == Proposed(next)
    ensures Inv(Committed(config, sys, a, next))
  {
    match sys.threads[a.caller].goal {
      case RevokeOne(_) => RevokeOneKeeps(config, sys, a, next);
      case RevokeAll(_) => RevokeAllKeeps(config, sys, a, next);
      case OfferStepUp(_, _, _) => OfferStepUpKeeps(config, sys, a, next);
      case Redeem(_) =>
      case SpendReceipt(_) => SpendReceiptKeeps(config, sys, a, next);
      case Carry(_, _) => CarryKeeps(config, sys, a, next);
    }
  }
}
