/** The audit log over every run: what is stored is the tail of a log in which every success of the
    books stands exactly once. */
module AdminAudit {
  import opened Collections
  import opened AdminContracts
  import opened AdminTransactions
  import opened CommandStrings
  import opened AdminCeremonies
  import opened AdminInvariants
  import opened AdminPreservation
  import opened AdminRuns
  import opened AdminHistory
  import opened AdminTrails
  import AdminSchedules

  /** The newest five thousand. */
  function Recent(log: seq<SecurityEvent>): seq<SecurityEvent> {
    if |log| <= 5_000 then log else log[|log| - 5_000..]
  }

  lemma {:induction false} KeptAll(es: seq<SecurityEvent>)
    ensures Filter(es, KeepEvent()) == es
  {
    if es != [] {
      KeptAll(es[1..]);
    }
  }

  lemma AppendIsRecent(es: seq<SecurityEvent>, e: SecurityEvent)
    ensures AppendEvent(es, e) == Recent(es + [e])
  {
    KeptAll(es);
  }

  lemma RecentOfRecent(log: seq<SecurityEvent>, e: SecurityEvent)
    ensures Recent(Recent(log) + [e]) == Recent(log + [e])
  {
  }

  /** How the log tells of an act. */
  function TellsOf(act: Act): EventType {
    if act.request.KillSwitch? then KillSwitchAuthorized else ServicePrincipalRegistered
  }

  predicate TellsAct(t: EventType) {
    t.KillSwitchAuthorized? || t.ServicePrincipalRegistered?
  }

  function CountOf(log: seq<SecurityEvent>, t: EventType): nat {
    if log == [] then 0 else CountOf(log[..|log| - 1], t) + if log[|log| - 1].eventType == t then 1 else 0
  }

  /** The acts a log tells of, in its order. */
  function ActsTold(log: seq<SecurityEvent>): seq<EventType> {
    if log == [] then []
    else
      ActsTold(log[..|log| - 1])
      + if TellsAct(log[|log| - 1].eventType) then [log[|log| - 1].eventType] else []
  }

  lemma OneMoreTold(log: seq<SecurityEvent>, e: SecurityEvent, t: EventType)
    ensures CountOf(log + [e], t) == CountOf(log, t) + if e.eventType == t then 1 else 0
    ensures ActsTold(log + [e]) == ActsTold(log) + if TellsAct(e.eventType) then [e.eventType] else []
  {
    assert (log + [e])[..|log|] == log;
  }

  function One(e: Option<SecurityEvent>, t: EventType): nat {
    if e.Some? && e.value.eventType == t then 1 else 0
  }

  /** One step of the books and the event it records. */
  ghost predicate Recorded(before: System, after: System, e: Option<SecurityEvent>) {
    && after.state.events == (if e.None? then before.state.events else Recent(before.state.events + [e.value]))
    && (e.Some? ==> e.value.eventId !in before.h.minted && e.value.eventId in after.h.minted)
    && before.h.minted <= after.h.minted
    && Counted(before.h, after.h, e)
  }

  /** The event a committed action records. */
  function EventOf(sys: System, a: Action): Option<SecurityEvent> {
    match a
    case CreateBootstrap(_, eventId, _) => Some(SecurityEvent(eventId, BootstrapCreated))
    case OfferLogin(_, _, _, eventId, _) => Some(SecurityEvent(eventId, AuthenticationChallengeCreated))
    case FinishRegistration(_, _, _, eventId, _) => Some(SecurityEvent(eventId, FounderRegistered))
    case FinishLogin(_, _, _, _, eventId, _) => Some(SecurityEvent(eventId, AuthenticationSucceeded))
    case FinishStepUp(_, _, _, _, eventId, _) => Some(SecurityEvent(eventId, StepUpSucceeded))
    case Logout(_, eventId, _) => Some(SecurityEvent(eventId, SessionRevoked))
    case Audit(eventType, eventId) => Some(SecurityEvent(eventId, eventType))
    case Perform(t, _, eventId, _, _) =>
      if t !in sys.threads || !sys.threads[t].Authorized? then None
      else
        Some(SecurityEvent(eventId,
                           match sys.threads[t].goal
                           case RevokeOne(_) => SessionRevoked
                           case RevokeAll(_) => AllSessionsRevoked
                           case OfferStepUp(_, _, _) => StepUpChallengeCreated
                           case SpendReceipt(_) => StepUpReceiptConsumed
                           case Carry(KillSwitch(_, _, _, _), _) => KillSwitchAuthorized
                           case Carry(RegisterService(_, _, _, _), _) => ServicePrincipalRegistered
                           case Redeem(_) => StepUpFailed))
    case _ => None
  }

  lemma PerformRecords(config: Config, sys: System, a: Action, next: State)
    requires a.Perform? && ProposalOf(config, sys, a) == Proposed(next)
    ensures EventOf(sys, a).Some? && next.events == AppendEvent(sys.state.events, EventOf(sys, a).value)
  {
    hide AppendEvent, AppendChallenge, Spend, Command, RequestCapability, RevokeAllOf, RevokeIfOpen,
         ProfileCapabilities;
  }

  lemma CommitRecords(config: Config, sys: System, a: Action, next: State)
    requires ProposalOf(config, sys, a) == Proposed(next)
    ensures next.events == if EventOf(sys, a).None? then sys.state.events
                           else AppendEvent(sys.state.events, EventOf(sys, a).value)
  {
    hide AppendEvent, AppendChallenge, AppendSession, AppendReceipt, SetCounter, MarkUsed, EndSession, PerformProposal,
         HasFounder;
    if a.Perform? {
      PerformRecords(config, sys, a, next);
    }
  }

  // ------------------------------------------------------------------- the books beside it

  /** How the books grow with an event. */
  ghost predicate Counted(h: History, h': History, e: Option<SecurityEvent>) {
    && |h'.founders| == |h.founders| + One(e, FounderRegistered)
    && |h'.sessions| == |h.sessions| + One(e, AuthenticationSucceeded)
    && |h'.receipts| == |h.receipts| + One(e, StepUpSucceeded)
    && |h'.spent| == |h.spent| + One(e, StepUpReceiptConsumed)
    && (if e.Some? && TellsAct(e.value.eventType) then
          && |h'.acts| == |h.acts| + 1 && h'.acts[..|h.acts|] == h.acts
          && TellsOf(h'.acts[|h.acts|]) == e.value.eventType
        else h'.acts == h.acts)
  }

  /** An event that stands for no entry of the books. */
  predicate IsNeutral(e: Option<SecurityEvent>) {
    e.Some? ==>
      && !e.value.eventType.FounderRegistered? && !e.value.eventType.AuthenticationSucceeded?
      && !e.value.eventType.StepUpSucceeded? && !e.value.eventType.StepUpReceiptConsumed?
      && !TellsAct(e.value.eventType)
  }

  predicate SameBooks(h: History, h': History) {
    && h'.founders == h.founders && h'.sessions == h.sessions && h'.receipts == h.receipts && h'.spent == h.spent
    && h'.acts == h.acts
  }

  lemma NeutralCounts(h: History, h': History, e: Option<SecurityEvent>)
    requires SameBooks(h, h') && IsNeutral(e)
    ensures Counted(h, h', e)
  {
  }

  lemma FounderCounts(h: History, f: FounderRegistration, id: Id)
    ensures Counted(h, h.(founders := h.founders + [f]), Some(SecurityEvent(id, FounderRegistered)))
  {
  }

  lemma SessionCounts(h: History, s: Session, key: Id, use: CounterUse, id: Id)
    requires key !in h.sessions
    ensures Counted(h, h.(sessions := h.sessions[key := s], uses := h.uses + [use]),
                    Some(SecurityEvent(id, AuthenticationSucceeded)))
  {
  }

  lemma ReceiptCounts(h: History, i: Issued, key: Id, use: CounterUse, id: Id)
    requires key !in h.receipts
    ensures Counted(h, h.(receipts := h.receipts[key := i], uses := h.uses + [use]),
                    Some(SecurityEvent(id, StepUpSucceeded)))
  {
  }

  lemma SpentCounts(h: History, key: Id, id: Id)
    requires key !in h.spent
    ensures Counted(h, h.(spent := h.spent + {key}), Some(SecurityEvent(id, StepUpReceiptConsumed)))
  {
  }

  lemma ActCounts(h: History, act: Act, id: Id)
    ensures Counted(h, h.(acts := h.acts + [act]), Some(SecurityEvent(id, TellsOf(act))))
  {
  }

  lemma PerformCounts(config: Config, sys: System, a: Action, next: State)
    requires Inv(sys) && a.Perform? && ProposalOf(config, sys, a) == Proposed(next)
    ensures Counted(sys.h, AfterPerform(config, sys, a, next).h, EventOf(sys, a))
  {
    hide Inv, Command, RequestCapability, FirstRevocation, RevokedTogether, StepUpChallenge, PerformProposal, Counted,
         ConsumeReceiptTx;
    var th, h' := sys.threads[a.caller], AfterPerform(config, sys, a, next).h;
    match th.goal {
      case SpendReceipt(_) => SpendCounts(config, sys, a, next);
      case Carry(request, receiptId) =>
        ActCounts(sys.h, Act(request, receiptId, th.who.principal.principalId), a.eventId);
      case Redeem(_) => NothingToRedeem(config, sys, a, next);
      case _ => NeutralCounts(sys.h, h', EventOf(sys, a));
    }
  }

  lemma NothingToRedeem(config: Config, sys: System, a: Action, next: State)
    requires a.Perform? && ProposalOf(config, sys, a) == Proposed(next)
    ensures !sys.threads[a.caller].goal.Redeem?
  {
  }

  lemma SpendCounts(config: Config, sys: System, a: Action, next: State)
    requires Inv(sys) && a.Perform? && ProposalOf(config, sys, a) == Proposed(next)
    requires sys.threads[a.caller].goal.SpendReceipt?
    ensures Counted(sys.h, AfterPerform(config, sys, a, next).h, EventOf(sys, a))
  {
    hide Command, RequestCapability, ChallengesOk, IssuedOk, SessionsOk, BooksOk, CallersOk, Spend, AppendEvent,
         Counted;
    var request, who := sys.threads[a.caller].goal.request, sys.threads[a.caller].who;
    var found := ConsumeReceiptTx(
      sys.state, who, RequestCapability(request), Command(request), request.fingerprint, request.receiptToken,
      SecurityEvent(a.eventId, StepUpReceiptConsumed), a.now);
    assert ReceiptTracked(found.result, sys.h.receipts, sys.h.spent);
    SpentCounts(sys.h, found.result.receiptId, a.eventId);
  }

  lemma RegistrationCounts(config: Config, sys: System, a: Action, next: State)
    requires Inv(sys) && a.FinishRegistration? && ProposalOf(config, sys, a) == Proposed(next)
    ensures Counted(sys.h, Committed(config, sys, a, next).h, EventOf(sys, a))
  {
    hide Inv, FinishRegistrationTx, Counted;
    RegistrationIsBound(config, sys, a, next);
    var c := sys.threads[a.caller].challenge;
    FounderCounts(sys.h, FounderRegistration(c.flowId, c.bootstrapTokenHash.value), a.eventId);
  }

  lemma LoginCounts(config: Config, sys: System, a: Action, next: State)
    requires a.FinishLogin? && ProposalOf(config, sys, a) == Proposed(next) && a.sessionId !in sys.h.sessions
    ensures Counted(sys.h, Committed(config, sys, a, next).h, EventOf(sys, a))
  {
    hide FinishLoginTx, Counted, NewSession;
    var read := sys.threads[a.caller].credential;
    SessionCounts(sys.h, NewSession(config, read.principalId, a.sessionId, a.token, a.now), a.sessionId,
                  CounterUse(read.credentialId, read.counter, a.newCounter), a.eventId);
  }

  lemma StepUpCounts(config: Config, sys: System, a: Action, next: State)
    requires a.FinishStepUp? && ProposalOf(config, sys, a) == Proposed(next) && a.receiptId !in sys.h.receipts
    ensures Counted(sys.h, Committed(config, sys, a, next).h, EventOf(sys, a))
  {
    hide FinishStepUpTx, Counted, NewReceipt;
    var th := sys.threads[a.caller];
    ReceiptCounts(sys.h, Issued(NewReceipt(config, th.challenge, a.receiptId, a.token, a.now), th.challenge.flowId),
                  a.receiptId, CounterUse(th.credential.credentialId, th.credential.counter, a.newCounter),
                  a.eventId);
  }

  lemma OthersCount(config: Config, sys: System, a: Action, next: State)
    requires ProposalOf(config, sys, a) == Proposed(next)
    requires !a.Perform? && !a.FinishRegistration? && !a.FinishLogin? && !a.FinishStepUp?
    ensures Counted(sys.h, Committed(config, sys, a, next).h, EventOf(sys, a))
  {
    hide PerformProposal, Counted, AfterPerform, ConsumeChallengeTx;
    NeutralCounts(sys.h, Committed(config, sys, a, next).h, EventOf(sys, a));
  }

  lemma CommitCounts(config: Config, sys: System, a: Action, next: State)
    requires Inv(sys) && ProposalOf(config, sys, a) == Proposed(next)
    requires Mints(a) != [] ==> Unseen(Mints(a)[0], sys.h)
    ensures Counted(sys.h, Committed(config, sys, a, next).h, EventOf(sys, a))
  {
    hide Inv, ProposalOf, Counted, EventOf;
    if a.Perform? {
      PerformCounts(config, sys, a, next);
    } else if a.FinishRegistration? {
      RegistrationCounts(config, sys, a, next);
    } else if a.FinishLogin? {
      LoginCounts(config, sys, a, next);
    } else if a.FinishStepUp? {
      StepUpCounts(config, sys, a, next);
    } else {
      OthersCount(config, sys, a, next);
    }
  }

  lemma EventIsDrawn(sys: System, a: Action)
    requires EventOf(sys, a).Some?
    ensures EventOf(sys, a).value.eventId in Mints(a)
  {
    var id := EventOf(sys, a).value.eventId;
    assert Mints(a)[|Mints(a)| - 1] == id;
  }

  lemma CountsIfDrawn(sys: System, ids: seq<Id>, h': History, e: Option<SecurityEvent>)
    requires Counted(Drawn(sys, ids).h, h', e)
    ensures Counted(sys.h, h', e)
  {
  }

  lemma FreshIsDrawn(sys: System, ids: seq<Id>, id: Id)
    requires Fresh(sys.h.minted, ids) && id in ids
    ensures id !in sys.h.minted && id in Drawn(sys, ids).h.minted
  {
    var i :| 0 <= i < |ids| && ids[i] == id;
    assert ids[i] in Minted(sys.h.minted, ids);
  }

  lemma StepRecords(config: Config, sys: System, a: Action) returns (e: Option<SecurityEvent>)
    requires Inv(sys)
    ensures Recorded(sys, Step(config, sys, a), e)
  {
    hide Inv, ProposalOf, Committed, Mints, EventOf, Counted, Unseen, ValidState, Step, Recent;
    var next := CommitsOrNot(config, sys, a);
    MintedGrows(config, sys, a);
    e := None;
    if next.Some? {
      var drawn := Drawn(sys, Mints(a));
      DrawingKeepsInv(sys, Mints(a));
      e := EventOf(drawn, a);
      CommitRecords(config, drawn, a, next.value);
      CommittedState(config, drawn, a, next.value);
      CommitCounts(config, drawn, a, next.value);
      CountsIfDrawn(sys, Mints(a), Committed(config, drawn, a, next.value).h, e);
      AdminSchedules.CommitDrawsNothing(config, drawn, a, next.value);
      if e.Some? {
        AppendIsRecent(sys.state.events, e.value);
        EventIsDrawn(drawn, a);
        FreshIsDrawn(sys, Mints(a), e.value.eventId);
      }
    } else {
      NeutralCounts(sys.h, Step(config, sys, a).h, None);
    }
  }

  lemma MintedGrows(config: Config, sys: System, a: Action)
    ensures sys.h.minted <= Step(config, sys, a).h.minted
  {
    hide ProposalOf, Committed, ValidState, Mints;
    var drawn := Drawn(sys, Mints(a));
    IdleGrows(config, drawn, a);
    match ProposalOf(config, drawn, a) {
      case Proposed(next) => AdminSchedules.CommitDrawsNothing(config, drawn, a, next);
      case _ =>
    }
  }

  // ------------------------------------------------------------------- over a run

  /** `log` tells everything the books hold. */
  ghost predicate Accounts(log: seq<SecurityEvent>, sys: System) {
    && sys.state.events == Recent(log)
    && (forall p, q :: 0 <= p < q < |log| ==> log[p].eventId != log[q].eventId)
    && (forall e :: e in log ==> e.eventId in sys.h.minted)
    && |sys.h.founders| == CountOf(log, FounderRegistered)
    && |sys.h.sessions| == CountOf(log, AuthenticationSucceeded)
    && |sys.h.receipts| == CountOf(log, StepUpSucceeded)
    && |sys.h.spent| == CountOf(log, StepUpReceiptConsumed)
    && ActsTold(log) == seq(|sys.h.acts|, k requires 0 <= k < |sys.h.acts| => TellsOf(sys.h.acts[k]))
  }

  lemma AccountsOn(log: seq<SecurityEvent>, sys: System, after: System, e: Option<SecurityEvent>)
    requires Accounts(log, sys) && Recorded(sys, after, e)
    ensures Accounts(if e.Some? then log + [e.value] else log, after)
  {
    hide CountOf, ActsTold, TellsAct, TellsOf;
    if e.Some? {
      RecentOfRecent(log, e.value);
      OneMoreTold(log, e.value, FounderRegistered);
      OneMoreTold(log, e.value, AuthenticationSucceeded);
      OneMoreTold(log, e.value, StepUpSucceeded);
      OneMoreTold(log, e.value, StepUpReceiptConsumed);
      hide Recent;
    }
  }

  /** Over every run there is a log, no event twice, of which the state holds the newest five thousand, and
      in which founder registrations, logins, step-ups, spent receipts and acts stand exactly as often as
      they committed, the acts in their order. */
  lemma {:induction false} EverySuccessIsOnRecord(config: Config, run: seq<System>, i: nat)
      returns (log: seq<SecurityEvent>)
    requires IsRun(config, run) && i < |run|
    ensures Accounts(log, run[i])
  {
    hide Inv, Step, Moves, Recorded;
    if i == 0 {
      log := [];
    } else {
      hide IsRun, Accounts;
      var before := EverySuccessIsOnRecord(config, run, i - 1);
      RunKeepsInv(config, run, i - 1);
      var a := StepOfRun(config, run, i - 1);
      var e := StepRecords(config, run[i - 1], a);
      AccountsOn(before, run[i - 1], run[i], e);
      log := if e.Some? then before + [e.value] else before;
    }
  }
}
