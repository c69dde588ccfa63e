/** The bookkeeping of the ceremony machine only grows, along every run. */
module AdminHistory {
  import opened Collections
  import opened AdminContracts
  import opened AdminTransactions
  import opened CommandStrings
  import opened AdminCeremonies
  import opened AdminInvariants
  import opened AdminPreservation
  import opened AdminRuns

  ghost predicate Grows(h: History, h': History) {
    && Extends(h, h')
    && (forall id :: id in h.revoked ==> id in h'.revoked && h'.revoked[id] == h.revoked[id])
    && h.acts <= h'.acts && h.founders <= h'.founders && h.uses <= h'.uses
  }

  lemma GrowsAtOnce(h: History)
    ensures Grows(h, h)
  {
  }

  lemma GrowsOn(h1: History, h2: History, h3: History)
    requires Grows(h1, h2) && Grows(h2, h3)
    ensures Grows(h1, h3)
  {
  }

  lemma NewChallengeGrows(h: History, c: Challenge)
    requires Unseen(c.flowId, h)
    ensures Grows(h, h.(challenges := h.challenges[c.flowId := c]))
  {
  }

  lemma NewSessionGrows(h: History, id: Id, s: Session, use: CounterUse)
    requires Unseen(id, h)
    ensures Grows(h, h.(sessions := h.sessions[id := s], uses := h.uses + [use]))
  {
  }

  lemma NewReceiptGrows(h: History, id: Id, i: Issued, use: CounterUse)
    requires Unseen(id, h)
    ensures Grows(h, h.(receipts := h.receipts[id := i], uses := h.uses + [use]))
  {
  }

  lemma MarksGrow(h: History, id: Id, act: Act, founder: FounderRegistration)
    ensures Grows(h, h) && Grows(h, h.(used := h.used + {id})) && Grows(h, h.(spent := h.spent + {id}))
    ensures Grows(h, h.(acts := h.acts + [act])) && Grows(h, h.(founders := h.founders + [founder]))
  {
  }

  lemma RevocationsGrow(h: History, id: Id, ss: seq<Session>, principalId: string, now: int)
    ensures Grows(h, h.(revoked := FirstRevocation(h.revoked, id, now)))
    ensures Grows(h, h.(revoked := RevokedTogether(h.revoked, ss, principalId, now)))
  {
  }

  lemma PerformGrows(config: Config, sys: System, a: Action, next: State)
    requires ProposalOf(config, sys, a) == Proposed(next) && a.Perform? && Unseen(a.flowId, sys.h)
    ensures Grows(sys.h, AfterPerform(config, sys, a, next).h)
  {
    hide ConsumeReceiptTx, Command, RequestCapability, Grows, Unseen, FirstRevocation, RevokedTogether, PerformProposal;
    var Authorized(goal, token, who) := sys.threads[a.caller];
    var h := sys.h;
    MarksGrow(h, 0, Act(KillSwitch("", true, 0, 0), 0, ""), FounderRegistration(0, 0));
    match goal {
      case RevokeOne(target) => RevocationsGrow(h, target, [], "", a.now);
      case RevokeAll(_) => RevocationsGrow(h, 0, sys.state.sessions, TargetPrincipal(goal, who), a.now);
      case OfferStepUp(_, _, _) =>
        NewChallengeGrows(h, StepUpChallenge(config, goal, who, a.flowId, a.sourceKey, a.now));
      case Redeem(_) =>
      case SpendReceipt(r) =>
        var found := ConsumeReceiptTx(
          sys.state, who, RequestCapability(r), Command(r), r.fingerprint, r.receiptToken,
          SecurityEvent(a.eventId, StepUpReceiptConsumed), a.now);
        if found.Accept? {
          MarksGrow(h, found.result.receiptId, Act(r, 0, ""), FounderRegistration(0, 0));
        }
      case Carry(request, receiptId) =>
        MarksGrow(h, 0, Act(request, receiptId, who.principal.principalId), FounderRegistration(0, 0));
    }
  }

  lemma CeremonyGrows(config: Config, sys: System, a: Action, next: State)
    requires ProposalOf(config, sys, a) == Proposed(next)
    requires a.FinishRegistration? || a.FinishLogin? || a.FinishStepUp? || a.ConsumeChallenge?
    requires Mints(a) != [] ==> Unseen(Mints(a)[0], sys.h)
    ensures Grows(sys.h, Committed(config, sys, a, next).h)
  {
    hide Grows, Unseen, FinishRegistrationTx, FinishLoginTx, FinishStepUpTx;
    var act := Act(KillSwitch("", true, 0, 0), 0, "");
    match a {
      case ConsumeChallenge(t, flowId, kind, sourceKey, _, now) =>
        MarksGrow(sys.h, ConsumeChallengeTx(sys.state, flowId, kind, sourceKey, now).result.flowId, act,
                  FounderRegistration(0, 0));
      case FinishRegistration(t, _, _, _, _) =>
        var c := sys.threads[t].challenge;
        assert c.bootstrapTokenHash.Some? by { RegistrationIsBound(config, sys, a, next); }
        MarksGrow(sys.h, 0, act, FounderRegistration(c.flowId, c.bootstrapTokenHash.value));
      case FinishLogin(t, newCounter, sessionId, token, _, now) =>
        var read := sys.threads[t].credential;
        NewSessionGrows(sys.h, sessionId, NewSession(config, read.principalId, sessionId, token, now),
                        CounterUse(read.credentialId, read.counter, newCounter));
      case FinishStepUp(t, newCounter, receiptId, token, _, now) =>
        var th := sys.threads[t];
        NewReceiptGrows(sys.h, receiptId,
                        Issued(NewReceipt(config, th.challenge, receiptId, token, now), th.challenge.flowId),
                        CounterUse(th.credential.credentialId, th.credential.counter, newCounter));
    }
  }

  lemma RegistrationIsBound(config: Config, sys: System, a: Action, next: State)
    requires ProposalOf(config, sys, a) == Proposed(next) && a.FinishRegistration?
    ensures sys.threads[a.caller].challenge.bootstrapTokenHash.Some?
  {
  }

  lemma CommittedGrows(config: Config, sys: System, a: Action, next: State)
    requires ProposalOf(config, sys, a) == Proposed(next)
    requires Mints(a) != [] ==> Unseen(Mints(a)[0], sys.h)
    ensures Grows(sys.h, Committed(config, sys, a, next).h)
  {
    hide Grows, Unseen, PerformProposal, AfterPerform, FinishRegistrationTx, FinishLoginTx, FinishStepUpTx,
         FirstRevocation, ConsumeChallengeTx;
    MarksGrow(sys.h, 0, Act(KillSwitch("", true, 0, 0), 0, ""), FounderRegistration(0, 0));
    match a {
      case BeginRegistration(presented, flowId, sourceKey, now) =>
        NewChallengeGrows(sys.h, RegistrationChallenge(config, presented, flowId, sourceKey, now));
      case OfferLogin(t, flowId, sourceKey, _, now) =>
        NewChallengeGrows(sys.h, LoginChallenge(config, sys.threads[t].principalId, flowId, sourceKey, now));
      case Perform(_, flowId, eventId, _, _) => PerformGrows(config, sys, a, next);
      case Logout(token, eventId, now) =>
        RevocationsGrow(sys.h, LogoutTx(sys.state, token, SecurityEvent(eventId, SessionRevoked), now).result, [], "",
                        now);
      case ConsumeChallenge(_, _, _, _, _, _) => CeremonyGrows(config, sys, a, next);
      case FinishRegistration(_, _, _, _, _) => CeremonyGrows(config, sys, a, next);
      case FinishLogin(_, _, _, _, _, _) => CeremonyGrows(config, sys, a, next);
      case FinishStepUp(_, _, _, _, _, _) => CeremonyGrows(config, sys, a, next);
      case _ =>
    }
  }

  lemma IdleGrows(config: Config, sys: System, a: Action)
    ensures Local(config, sys, a).h == sys.h && Failed(sys, a).h == sys.h
    ensures Local(config, sys, a).state == sys.state && Failed(sys, a).state == sys.state
  {
    hide ReadSession, CredentialRead, ClientGoal, ActivePrincipal;
  }

  lemma StepGrows(config: Config, sys: System, a: Action)
    requires Inv(sys)
    ensures Grows(sys.h, Step(config, sys, a).h)
  {
    hide Inv, ProposalOf, Committed, Local, Failed, Unseen, ValidState, Mints, Fresh, Minted;
    if Fresh(sys.h.minted, Mints(a)) {
      var drawn := Drawn(sys, Mints(a));
      DrawingKeepsInv(sys, Mints(a));
      assert Grows(sys.h, drawn.h);
      IdleGrows(config, drawn, a);
      match ProposalOf(config, drawn, a) {
        case Proposed(next) =>
          CommittedGrows(config, drawn, a, next);
          if ValidState(next) {
            hide Grows;
            GrowsOn(sys.h, drawn.h, Committed(config, drawn, a, next).h);
          }
        case _ =>
      }
    }
  }

  lemma {:induction false} RunGrows(config: Config, run: seq<System>, i: nat, j: nat)
    requires IsRun(config, run) && i <= j < |run|
    ensures Grows(run[i].h, run[j].h)
    decreases j
  {
    hide Inv, Step, Grows, IsRun;
    if i == j {
      GrowsAtOnce(run[i].h);
    } else {
      RunGrows(config, run, i, j - 1);
      RunKeepsInv(config, run, j - 1);
      var a := StepOfRun(config, run, j - 1);
      StepGrows(config, run[j - 1], a);
      GrowsOn(run[i].h, run[j - 1].h, run[j].h);
    }
  }

  // ------------------------------------------------------------------- signature counters

  ghost predicate CountersRise(cs: seq<Credential>, cs': seq<Credential>) {
    forall id :: CounterOf(cs, id).Some? ==>
      CounterOf(cs', id).Some? && CounterOf(cs, id).value <= CounterOf(cs', id).value
  }

  lemma SetCounterRises(cs: seq<Credential>, id: Id, n: nat)
    requires UniqueBy(cs, CredentialKey) && CounterOf(cs, id).Some? && CounterOf(cs, id).value <= n
    ensures CountersRise(cs, SetCounter(cs, id, n))
  {
    forall other | CounterOf(cs, other).Some?
      ensures CounterOf(SetCounter(cs, id, n), other).Some?
      ensures CounterOf(cs, other).value <= CounterOf(SetCounter(cs, id, n), other).value
    {
      SetCounterLookup(cs, id, n, other);
    }
  }

  lemma AddedCredentialRises(cs: seq<Credential>, c: Credential)
    requires UniqueBy(cs + [c], CredentialKey) && UniqueBy(cs, CredentialKey)
    ensures CountersRise(cs, cs + [c])
  {
    forall id | CounterOf(cs, id).Some?
      ensures CounterOf(cs + [c], id) == CounterOf(cs, id)
    {
      var k :| 0 <= k < |cs| && cs[k].credentialId == id;
      CounterLookup(cs, cs[k]);
      assert (cs + [c])[k] == cs[k];
      CounterLookup(cs + [c], cs[k]);
    }
  }

  lemma AssertionRises(config: Config, sys: System, a: Action, next: State)
    requires ProposalOf(config, sys, a) == Proposed(next) && (a.FinishLogin? || a.FinishStepUp?)
    requires UniqueBy(sys.state.credentials, CredentialKey)
    ensures CountersRise(sys.state.credentials, next.credentials)
  {
    hide FinishLoginTx, FinishStepUpTx, CountersRise, CounterOf, SetCounter, NewReceipt, UniqueBy, AppendEvent,
         AppendSession, AppendReceipt;
    match a {
      case FinishLogin(t, n, sessionId, token, eventId, now) =>
        var read := sys.threads[t].credential;
        LoginAccepted(sys.state, read, n, NewSession(config, read.principalId, sessionId, token, now),
                      SecurityEvent(eventId, AuthenticationSucceeded), now, next);
        SetCounterRises(sys.state.credentials, read.credentialId, n);
      case FinishStepUp(t, n, receiptId, token, eventId, now) =>
        var th := sys.threads[t];
        StepUpAccepted(sys.state, th.credential, n, th.session.sessionId,
                       NewReceipt(config, th.challenge, receiptId, token, now),
                       SecurityEvent(eventId, StepUpSucceeded), now, next);
        SetCounterRises(sys.state.credentials, th.credential.credentialId, n);
    }
  }

  lemma ProposalRaisesCounters(config: Config, sys: System, a: Action, next: State)
    requires ProposalOf(config, sys, a) == Proposed(next) && ValidState(sys.state) && ValidState(next)
    ensures CountersRise(sys.state.credentials, next.credentials)
  {
    if a.FinishLogin? || a.FinishStepUp? {
      AssertionRises(config, sys, a, next);
    } else if a.FinishRegistration? {
      RegistrationAddsCredential(config, sys, a, next);
      AddedCredentialRises(sys.state.credentials, Credential(a.credentialId, FOUNDER_PRINCIPAL_ID, a.counter));
    } else {
      OthersLeaveCredentials(config, sys, a, next);
    }
  }

  lemma RegistrationAddsCredential(config: Config, sys: System, a: Action, next: State)
    requires ProposalOf(config, sys, a) == Proposed(next) && a.FinishRegistration?
    ensures next.credentials == sys.state.credentials + [Credential(a.credentialId, FOUNDER_PRINCIPAL_ID, a.counter)]
  {
  }

  lemma OthersLeaveCredentials(config: Config, sys: System, a: Action, next: State)
    requires ProposalOf(config, sys, a) == Proposed(next)
    requires !a.FinishLogin? && !a.FinishStepUp? && !a.FinishRegistration?
    ensures next.credentials == sys.state.credentials
  {
  }

  lemma CommittedState(config: Config, sys: System, a: Action, next: State)
    requires ProposalOf(config, sys, a) == Proposed(next)
    ensures Committed(config, sys, a, next).state == next
  {
  }

  lemma StepRaisesCounters(config: Config, sys: System, a: Action)
    requires Inv(sys)
    ensures CountersRise(sys.state.credentials, Step(config, sys, a).state.credentials)
  {
    hide RecordsOk, CallersOk, CounterOf, ProposalOf, Committed, Local, Failed, Mints, Fresh, WithinBounds, KeysUnique,
         MintedOk, FounderOk, CountersOk, ActsOk;
    var drawn := Drawn(sys, Mints(a));
    IdleGrows(config, drawn, a);
    match ProposalOf(config, drawn, a) {
      case Proposed(next) =>
        CommittedState(config, drawn, a, next);
        if ValidState(next) {
          ProposalRaisesCounters(config, drawn, a, next);
        }
      case _ =>
    }
  }

  lemma {:induction false} RunRaisesCounters(config: Config, run: seq<System>, i: nat, j: nat)
    requires IsRun(config, run) && i <= j < |run|
    ensures CountersRise(run[i].state.credentials, run[j].state.credentials)
    decreases j
  {
    hide Inv, Step, CounterOf, IsRun;
    if i < j {
      RunRaisesCounters(config, run, i, j - 1);
      RunKeepsInv(config, run, j - 1);
      var a := StepOfRun(config, run, j - 1);
      StepRaisesCounters(config, run[j - 1], a);
    }
  }

  /** Every state of a run satisfies the invariant, and its history extends those before. */
  lemma Reached(config: Config, run: seq<System>, i: nat, j: nat)
    requires IsRun(config, run) && i <= j < |run|
    ensures Inv(run[i]) && Inv(run[j]) && Grows(run[i].h, run[j].h)
  {
    hide Inv, Grows;
    RunKeepsInv(config, run, i);
    RunKeepsInv(config, run, j);
    RunGrows(config, run, i, j);
  }
}
