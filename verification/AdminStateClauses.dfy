/** The length and uniqueness clauses of `validateState` in
    src/admin-security/file-admin-security-repository.ts hold of every successor an operation
    proposes, so the repository refuses one only for too many principals or limiter records. */
module AdminStateClauses {
  import opened Collections
  import opened AdminContracts
  import opened AdminTransactions
  import opened CommandStrings
  import opened AdminCeremonies
  import opened AdminInvariants
  import opened AdminPreservation
  import opened AdminRuns
  import opened AdminHistory
  import RateLimiter
  import RateLimitTable

  /** Every clause but the bounds on principals and limiter records. */
  ghost predicate Sound(s: State) {
    && |s.credentials| <= 2_048 && |s.challenges| <= 4_096 && |s.sessions| <= 4_096
    && |s.receipts| <= 4_096 && |s.events| <= 20_000
    && KeysUnique(s)
  }

  /** No stored record is keyed by `id`. */
  ghost predicate Novel(s: State, id: Id) {
    && (forall c :: c in s.challenges ==> c.flowId != id)
    && (forall x :: x in s.sessions ==> x.sessionId != id)
    && (forall r :: r in s.receipts ==> r.receiptId != id)
    && (forall e :: e in s.events ==> e.eventId != id)
  }

  lemma UnmintedIsNovel(sys: System, id: Id)
    requires Inv(sys) && id !in sys.h.minted
    ensures Novel(sys.state, id)
  {
    hide IssuedOk, FounderOk, CountersOk, ActsOk, CallersOk, ValidState;
    forall c | c in sys.state.challenges
      ensures c.flowId != id
    {
      assert ChallengeTracked(c, sys.h.challenges, sys.h.used);
    }
    forall x | x in sys.state.sessions
      ensures x.sessionId != id
    {
      assert SessionTracked(x, sys.h.sessions, sys.h.revoked);
    }
    forall r | r in sys.state.receipts
      ensures r.receiptId != id
    {
      assert ReceiptTracked(r, sys.h.receipts, sys.h.spent);
    }
  }

  // ------------------------------------------------------------------- single rewrites

  lemma EventStored(s: State, e: SecurityEvent)
    requires Sound(s) && forall y :: y in s.events ==> y.eventId != e.eventId
    ensures Sound(s.(events := AppendEvent(s.events, e)))
  {
    RetainKeepsUnique(s.events, KeepEvent(), e, MAX_SECURITY_EVENTS, EventKey);
  }

  lemma ChallengeStoredSoundly(s: State, c: Challenge, now: int)
    requires Sound(s) && forall y :: y in s.challenges ==> y.flowId != c.flowId
    ensures Sound(s.(challenges := AppendChallenge(s.challenges, c, now)))
  {
    RetainKeepsUnique(s.challenges, KeepChallenge(now), c, MAX_CHALLENGES, ChallengeKey);
  }

  lemma SessionStored(s: State, x: Session, now: int)
    requires Sound(s) && forall y :: y in s.sessions ==> y.sessionId != x.sessionId
    ensures Sound(s.(sessions := AppendSession(s.sessions, x, now)))
  {
    RetainKeepsUnique(s.sessions, KeepSession(now), x, MAX_SESSIONS, SessionKey);
  }

  lemma ReceiptStored(s: State, r: Receipt, now: int)
    requires Sound(s) && forall y :: y in s.receipts ==> y.receiptId != r.receiptId
    ensures Sound(s.(receipts := AppendReceipt(s.receipts, r, now)))
  {
    RetainKeepsUnique(s.receipts, KeepReceipt(now), r, MAX_STEP_UP_RECEIPTS, ReceiptKey);
  }

  lemma CounterSet(s: State, id: Id, n: nat)
    requires Sound(s)
    ensures Sound(s.(credentials := SetCounter(s.credentials, id, n)))
  {
    RewriteKeepsUnique(s.credentials, SetCounter(s.credentials, id, n), CredentialKey);
  }

  lemma ChallengeMarked(s: State, id: Id, now: int)
    requires Sound(s)
    ensures Sound(s.(challenges := MarkUsed(s.challenges, id, now)))
  {
    RewriteKeepsUnique(s.challenges, MarkUsed(s.challenges, id, now), ChallengeKey);
  }

  lemma ReceiptMarked(s: State, id: Id, now: int)
    requires Sound(s)
    ensures Sound(s.(receipts := Spend(s.receipts, id, now)))
  {
    RewriteKeepsUnique(s.receipts, Spend(s.receipts, id, now), ReceiptKey);
  }

  lemma SessionsRewritten(s: State, after: seq<Session>)
    requires Sound(s) && |after| == |s.sessions|
    requires forall i :: 0 <= i < |after| ==> after[i].sessionId == s.sessions[i].sessionId
    ensures Sound(s.(sessions := after))
  {
    RewriteKeepsUnique(s.sessions, after, SessionKey);
  }

  lemma PrincipalAdded(s: State, p: Principal)
    requires Sound(s) && forall q :: q in s.principals ==> q.principalId != p.principalId
    ensures Sound(s.(principals := s.principals + [p]))
  {
    var all := s.principals + [p];
    forall i, j | 0 <= i < j < |all|
      ensures PrincipalKey(all[i]) != PrincipalKey(all[j])
    {
      if j < |s.principals| {
        assert PrincipalKey(s.principals[i]) != PrincipalKey(s.principals[j]);
      } else {
        assert all[i] in s.principals;
      }
    }
  }

  lemma CredentialAdded(s: State, c: Credential)
    requires Sound(s) && s.credentials == []
    ensures Sound(s.(credentials := s.credentials + [c]))
  {
  }

  // ------------------------------------------------------------------- the operations

  lemma RegistrationIsSound(s: State, c: Challenge, credential: Credential, event: SecurityEvent, now: int)
    requires Sound(s) && Novel(s, event.eventId) && (s.credentials != [] ==> HasFounder(s.principals))
    requires FinishRegistrationTx(s, c, credential, event, now).Accept?
    requires s.principals != [] ==> HasFounder(s.principals)
    ensures Sound(FinishRegistrationTx(s, c, credential, event, now).next)
  {
    hide Sound, AppendEvent;
    EventStored(s, event);
    var s1 := s.(events := AppendEvent(s.events, event));
    CredentialAdded(s1, credential);
    var s2 := s1.(credentials := s1.credentials + [credential]);
    PrincipalAdded(s2, Human(FOUNDER_PRINCIPAL_ID, [Founder], {}, true));
    BootstrapSet(s2.(principals := s2.principals + [Human(FOUNDER_PRINCIPAL_ID, [Founder], {}, true)]),
                 Some(s.bootstrap.value.(consumedAt := Some(now))));
  }

  lemma BootstrapSet(s: State, b: Option<Bootstrap>)
    requires Sound(s)
    ensures Sound(s.(bootstrap := b))
  {
  }

  lemma OfferIsSound(s: State, c: Challenge, event: SecurityEvent, now: int)
    requires Sound(s) && Novel(s, c.flowId) && Novel(s, event.eventId)
    ensures Sound(OfferChallengeTx(s, c, event, now).next)
  {
    hide Sound, AppendEvent, AppendChallenge;
    EventStored(s, event);
    ChallengeStoredSoundly(s.(events := AppendEvent(s.events, event)), c, now);
  }

  lemma LoginIsSound(s: State, read: Credential, n: nat, x: Session, event: SecurityEvent, now: int)
    requires Sound(s) && Novel(s, x.sessionId) && Novel(s, event.eventId)
    requires FinishLoginTx(s, read, n, x, event, now).Accept?
    ensures Sound(FinishLoginTx(s, read, n, x, event, now).next)
  {
    hide Sound, AppendEvent, AppendSession, SetCounter;
    EventStored(s, event);
    var s1 := s.(events := AppendEvent(s.events, event));
    SessionStored(s1, x, now);
    CounterSet(s1.(sessions := AppendSession(s.sessions, x, now)), read.credentialId, n);
  }

  lemma StepUpIsSound(s: State, read: Credential, n: nat, id: Id, r: Receipt, event: SecurityEvent, now: int)
    requires Sound(s) && Novel(s, r.receiptId) && Novel(s, event.eventId)
    requires FinishStepUpTx(s, read, n, id, r, event, now).Accept?
    ensures Sound(FinishStepUpTx(s, read, n, id, r, event, now).next)
  {
    hide Sound, AppendEvent, AppendReceipt, SetCounter;
    EventStored(s, event);
    var s1 := s.(events := AppendEvent(s.events, event));
    ReceiptStored(s1, r, now);
    CounterSet(s1.(receipts := AppendReceipt(s.receipts, r, now)), read.credentialId, n);
  }

  lemma TouchIsSound(s: State, id: Id, idleMs: int, now: int)
    requires Sound(s) && TouchTx(s, id, idleMs, now).Accept?
    ensures Sound(TouchTx(s, id, idleMs, now).next)
  {
    SessionsRewritten(s, ReplaceSession(s.sessions, TouchTx(s, id, idleMs, now).result));
  }

  lemma EndingsAreSound(s: State, id: Id, principalId: string, event: SecurityEvent, now: int)
    requires Sound(s) && Novel(s, event.eventId)
    ensures
      var s1 := s.(events := AppendEvent(s.events, event));
      && Sound(s1) && Sound(s1.(sessions := EndSession(s.sessions, id, now)))
      && Sound(s1.(sessions := RevokeIfOpen(s.sessions, id, now)))
      && Sound(s1.(sessions := RevokeAllOf(s.sessions, principalId, now)))
  {
    EventStored(s, event);
    hide Sound, AppendEvent;
    var s1 := s.(events := AppendEvent(s.events, event));
    SessionsRewritten(s1, EndSession(s.sessions, id, now));
    SessionsRewritten(s1, RevokeIfOpen(s.sessions, id, now));
    SessionsRewritten(s1, RevokeAllOf(s.sessions, principalId, now));
  }

  lemma SpendingIsSound(
      s: State, who: Identity, capability: Capability, command: string, fingerprint: Hash, token: Hash,
      event: SecurityEvent, now: int)
    requires Sound(s) && Novel(s, event.eventId)
    requires ConsumeReceiptTx(s, who, capability, command, fingerprint, token, event, now).Accept?
    ensures Sound(ConsumeReceiptTx(s, who, capability, command, fingerprint, token, event, now).next)
  {
    hide Sound, AppendEvent, Spend;
    EventStored(s, event);
    var s1 := s.(events := AppendEvent(s.events, event));
    var spent := ConsumeReceiptTx(s, who, capability, command, fingerprint, token, event, now).result;
    ReceiptMarked(s1, spent.receiptId, now);
  }

  lemma ServiceIsSound(s: State, p: Principal, event: SecurityEvent)
    requires Sound(s) && Novel(s, event.eventId) && RegisterServiceTx(s, p, event).Accept?
    ensures Sound(RegisterServiceTx(s, p, event).next)
  {
    hide Sound, AppendEvent;
    EventStored(s, event);
    PrincipalAdded(s.(events := AppendEvent(s.events, event)), p);
  }

  lemma PerformIsSound(config: Config, sys: System, a: Action, next: State)
    requires Sound(sys.state) && a.Perform? && Novel(sys.state, a.flowId) && Novel(sys.state, a.eventId)
    requires ProposalOf(config, sys, a) == Proposed(next)
    ensures Sound(next)
  {
    hide Sound, Novel, ConsumeReceiptTx, RegisterServiceTx, OfferChallengeTx, Command, RequestCapability, AppendEvent,
         RevokeAllOf, RevokeIfOpen, EndSession, ProfileCapabilities;
    var s := sys.state;
    var Authorized(goal, token, who) := sys.threads[a.caller];
    match goal {
      case RevokeOne(target) => EndingsAreSound(s, target, "", SecurityEvent(a.eventId, SessionRevoked), a.now);
      case RevokeAll(_) =>
        EndingsAreSound(s, 0, TargetPrincipal(goal, who), SecurityEvent(a.eventId, AllSessionsRevoked), a.now);
      case OfferStepUp(_, _, _) =>
        OfferIsSound(s, StepUpChallenge(config, goal, who, a.flowId, a.sourceKey, a.now),
                     SecurityEvent(a.eventId, StepUpChallengeCreated), a.now);
      case Redeem(_) =>
      case SpendReceipt(r) =>
        SpendingIsSound(s, who, RequestCapability(r), Command(r), r.fingerprint, r.receiptToken,
                        SecurityEvent(a.eventId, StepUpReceiptConsumed), a.now);
      case Carry(request, _) =>
        match request {
          case KillSwitch(_, _, _, _) =>
            EndingsAreSound(s, 0, "", SecurityEvent(a.eventId, KillSwitchAuthorized), a.now);
          case RegisterService(principalId, profile, _, _) =>
            ServiceIsSound(s, Service(principalId, profile, ProfileCapabilities(profile), true),
                           SecurityEvent(a.eventId, ServicePrincipalRegistered));
        }
    }
  }

  lemma CeremonyIsSound(config: Config, sys: System, a: Action, next: State)
    requires Sound(sys.state) && ProposalOf(config, sys, a) == Proposed(next)
    requires a.FinishLogin? || a.FinishStepUp? || a.OfferLogin? || a.BeginRegistration? || a.ConsumeChallenge?
    requires forall i :: 0 <= i < |Mints(a)| ==> Novel(sys.state, Mints(a)[i])
    ensures Sound(next)
  {
    hide Sound, FinishLoginTx, FinishStepUpTx, OfferChallengeTx, BootstrapActive, MarkUsed, AppendChallenge;
    var s := sys.state;
    match a {
      case BeginRegistration(presented, flowId, sourceKey, now) =>
        assert Novel(s, Mints(a)[0]);
        ChallengeStoredSoundly(s, RegistrationChallenge(config, presented, flowId, sourceKey, now), now);
      case OfferLogin(t, flowId, sourceKey, eventId, now) =>
        assert Novel(s, Mints(a)[0]) && Novel(s, Mints(a)[1]);
        OfferIsSound(s, LoginChallenge(config, sys.threads[t].principalId, flowId, sourceKey, now),
                     SecurityEvent(eventId, AuthenticationChallengeCreated), now);
      case ConsumeChallenge(_, flowId, _, _, _, now) =>
        ChallengeMarked(s, flowId, now);
      case FinishLogin(t, n, sessionId, token, eventId, now) =>
        assert Novel(s, Mints(a)[0]) && Novel(s, Mints(a)[2]);
        var read := sys.threads[t].credential;
        LoginIsSound(s, read, n, NewSession(config, read.principalId, sessionId, token, now),
                     SecurityEvent(eventId, AuthenticationSucceeded), now);
      case FinishStepUp(t, n, receiptId, token, eventId, now) =>
        assert Novel(s, Mints(a)[0]) && Novel(s, Mints(a)[2]);
        var th := sys.threads[t];
        StepUpIsSound(s, th.credential, n, th.session.sessionId,
                      NewReceipt(config, th.challenge, receiptId, token, now),
                      SecurityEvent(eventId, StepUpSucceeded), now);
    }
  }

  lemma ProposalIsSound(config: Config, sys: System, a: Action, next: State)
    requires Sound(sys.state) && ProposalOf(config, sys, a) == Proposed(next)
    requires sys.state.credentials != [] ==> HasFounder(sys.state.principals)
    requires sys.state.principals != [] ==> HasFounder(sys.state.principals)
    requires forall i :: 0 <= i < |Mints(a)| ==> Novel(sys.state, Mints(a)[i])
    ensures Sound(next)
  {
    hide Sound, FinishRegistrationTx, FinishLoginTx, FinishStepUpTx, OfferChallengeTx, TouchTx, HasFounder,
         PerformProposal, AppendEvent, BeginRegistrationTx, ConsumeChallengeTx, EndSession;
    var s := sys.state;
    match a {
      case CreateBootstrap(token, eventId, now) =>
        assert Novel(s, Mints(a)[1]);
        var event := SecurityEvent(eventId, BootstrapCreated);
        EventStored(s, event);
        BootstrapSet(s.(events := AppendEvent(s.events, event)), next.bootstrap);
      case FinishRegistration(t, credentialId, counter, eventId, now) =>
        assert Novel(s, Mints(a)[0]);
        RegistrationIsSound(s, sys.threads[t].challenge, Credential(credentialId, FOUNDER_PRINCIPAL_ID, counter),
                            SecurityEvent(eventId, FounderRegistered), now);
      case Touch(t) =>
        TouchIsSound(s, sys.threads[t].who.session.sessionId, config.sessionIdleMs, sys.threads[t].now);
      case Perform(_, flowId, eventId, _, _) =>
        assert Novel(s, Mints(a)[0]) && Novel(s, Mints(a)[1]);
        PerformIsSound(config, sys, a, next);
      case Logout(token, eventId, now) =>
        assert Novel(s, Mints(a)[0]);
        var event := SecurityEvent(eventId, SessionRevoked);
        EndingsAreSound(s, LogoutTx(s, token, event, now).result, "", event, now);
      case RateLimit(event) => RateLimitsSet(s, next.rateLimits);
      case Audit(eventType, eventId) =>
        assert Novel(s, Mints(a)[0]);
        EventStored(s, SecurityEvent(eventId, eventType));
      case _ => CeremonyOnly(config, sys, a, next);
        CeremonyIsSound(config, sys, a, next);
    }
  }

  lemma CeremonyOnly(config: Config, sys: System, a: Action, next: State)
    requires ProposalOf(config, sys, a) == Proposed(next)
    requires !a.CreateBootstrap? && !a.FinishRegistration? && !a.Touch? && !a.Perform? && !a.Logout?
    requires !a.RateLimit? && !a.Audit?
    ensures a.FinishLogin? || a.FinishStepUp? || a.OfferLogin? || a.BeginRegistration? || a.ConsumeChallenge?
  {
  }

  lemma RateLimitsSet(s: State, rateLimits: seq<RateLimiter.Record>)
    requires Sound(s)
    ensures Sound(s.(rateLimits := rateLimits))
  {
  }

  // ------------------------------------------------------------------- what the register sees

  /** In every reachable state, whatever an operation proposes with freshly drawn identifiers,
      the repository's size and uniqueness clauses accept it exactly when it holds at most 1024
      principals and at most 8192 limiter records. */
  lemma RefusedOnlyForSize(config: Config, run: seq<System>, i: nat, a: Action, next: State)
    requires IsRun(config, run) && i < |run|
    requires Fresh(run[i].h.minted, Mints(a))
    requires ProposalOf(config, run[i], a) == Proposed(next)
    ensures ValidState(next) <==> |next.principals| <= 1_024 && |next.rateLimits| <= 8_192
  {
    hide IsRun, ProposalOf, Mints, Novel, RecordsOk, CallersOk, CountersOk, ActsOk, MintedOk;
    var sys := run[i];
    RunKeepsInv(config, run, i);
    forall k | 0 <= k < |Mints(a)|
      ensures Novel(sys.state, Mints(a)[k])
    {
      UnmintedIsNovel(sys, Mints(a)[k]);
    }
    ProposalIsSound(config, sys, a, next);
  }

  lemma PerformSizes(config: Config, s: State, goal: Goal, who: Identity, a: Action, next: State)
    requires a.Perform? && PerformProposal(config, s, goal, who, a) == Proposed(next)
    ensures |next.principals| <= |s.principals| + 1 && next.rateLimits == s.rateLimits
  {
    hide Command, RequestCapability, AppendEvent, Spend, RevokeAllOf, RevokeIfOpen, AppendChallenge;
  }

  lemma Sizes(config: Config, sys: System, a: Action, next: State)
    requires ProposalOf(config, sys, a) == Proposed(next)
    ensures |next.principals| <= |sys.state.principals| + 1
    ensures |next.rateLimits| <= |sys.state.rateLimits| || |next.rateLimits| <= config.limiter.maxEntries
  {
    hide PerformProposal, AppendEvent, AppendChallenge, AppendSession, AppendReceipt, SetCounter, MarkUsed,
         ReplaceSession, EndSession;
    match a {
      case RateLimit(event) => TableSize(sys.state.rateLimits, event, config.limiter);
      case Perform(_, _, _, _, _) =>
        PerformSizes(config, sys.state, sys.threads[a.caller].goal, sys.threads[a.caller].who, a, next);
      case _ =>
    }
  }

  lemma TableSize(table: seq<RateLimiter.Record>, e: RateLimitTable.Event, config: RateLimiter.Config)
    ensures
      var next := RateLimitTable.TableStep(table, e, config);
      |next| <= |table| || |next| <= config.maxEntries
  {
  }

  /** Hence with a limiter capacity of at most 8192 and fewer than 1024 principals, nothing an
      operation proposes is ever refused for its sizes or its keys. */
  lemma NeverRefused(config: Config, run: seq<System>, i: nat, a: Action, next: State)
    requires IsRun(config, run) && i < |run|
    requires Fresh(run[i].h.minted, Mints(a))
    requires ProposalOf(config, run[i], a) == Proposed(next)
    requires config.limiter.maxEntries <= 8_192 && |run[i].state.principals| < 1_024
    ensures ValidState(next)
  {
    hide IsRun, ProposalOf, Mints, Fresh, KeysUnique, RecordsOk, CallersOk, CountersOk, ActsOk, MintedOk, FounderOk;
    RunKeepsInv(config, run, i);
    RefusedOnlyForSize(config, run, i, a, next);
    Sizes(config, run[i], a, next);
  }
}
