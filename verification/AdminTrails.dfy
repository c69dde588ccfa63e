/** Which steps of a run led to each record and each act, in what order and within what time: told by
    the actions themselves and the clocks they brought. */
module AdminTrails {
  import opened Collections
  import opened AdminContracts
  import opened AdminTransactions
  import opened CommandStrings
  import opened AdminCeremonies
  import opened AdminInvariants
  import opened AdminPreservation
  import opened AdminRuns
  import opened AdminHistory
  import opened AdminIdentities

  // ------------------------------------------------------------------- what one step records

  /** A step either commits its proposal, or leaves the state and the books as they were. */
  lemma CommitsOrNot(config: Config, sys: System, a: Action) returns (next: Option<State>)
    ensures next.None? ==>
              Step(config, sys, a).state == sys.state
              && Step(config, sys, a).h == sys.h.(minted := Step(config, sys, a).h.minted)
    ensures next.Some? ==>
              && Fresh(sys.h.minted, Mints(a)) && ValidState(next.value)
              && ProposalOf(config, Drawn(sys, Mints(a)), a) == Proposed(next.value)
              && Step(config, sys, a) == Committed(config, Drawn(sys, Mints(a)), a, next.value)
  {
    hide ProposalOf, Committed, Local, Failed, ValidState, Mints, Fresh, Minted;
    var drawn := Drawn(sys, Mints(a));
    IdleGrows(config, drawn, a);
    next := None;
    if Fresh(sys.h.minted, Mints(a)) {
      match ProposalOf(config, drawn, a) {
        case Proposed(s) =>
          if ValidState(s) {
            next := Some(s);
          }
        case _ =>
      }
    }
  }

  /** Challenge `c` is what `a` offers: to whom the bootstrap token was shown, to the founder, or to an
      authenticated human for the operation it named, for `challengeMs` from now. */
  predicate Offers(config: Config, sys: System, a: Action, c: Challenge) {
    match a
    case BeginRegistration(presented, flowId, sourceKey, now) =>
      && sys.state.bootstrap.Some? && sys.state.bootstrap.value.consumedAt.None?
      && sys.state.bootstrap.value.expiresAt > now && sys.state.bootstrap.value.tokenHash == presented
      && c == Challenge(flowId, Registration, Some(presented), None, None, None, None, None, sourceKey,
                        now + config.challengeMs, None)
    case OfferLogin(t, flowId, sourceKey, _, now) =>
      && t in sys.threads && sys.threads[t].OfferingLogin?
      && c == Challenge(flowId, Login, None, Some(sys.threads[t].principalId), None, None, None, None, sourceKey,
                        now + config.challengeMs, None)
    case Perform(t, flowId, _, sourceKey, now) =>
      && t in sys.threads && sys.threads[t].Authorized? && sys.threads[t].goal.OfferStepUp?
      && sys.threads[t].who.principal.Human?
      && var goal, who := sys.threads[t].goal, sys.threads[t].who;
         c == Challenge(flowId, StepUp, None, Some(who.principal.principalId), Some(who.session.sessionId),
                        Some(goal.capability), Some(goal.command), Some(goal.fingerprint), sourceKey,
                        now + config.challengeMs, None)
    case _ => false
  }

  /** `a` consumes it: by its flow and kind, from the same source, before it expires. */
  predicate Consumes(a: Action, c: Challenge) {
    a.ConsumeChallenge? && a.flowId == c.flowId && a.kind == c.kind && a.sourceKey == c.sourceKey && a.now < c.expiresAt
  }

  /** `a` issues the receipt, for `stepUpMs` from now, to a caller that holds the consumed challenge and
      verified an assertion of its owner's credential under a session still open. */
  predicate Issues(config: Config, sys: System, a: Action, i: Issued) {
    && a.FinishStepUp? && a.caller in sys.threads && sys.threads[a.caller].VerifyingStepUp?
    && var c, session, credential :=
         sys.threads[a.caller].challenge, sys.threads[a.caller].session, sys.threads[a.caller].credential;
       && i.flowId == c.flowId && c.sessionId == Some(session.sessionId)
       && c.principalId.Some? && c.capability.Some? && c.command.Some? && c.fingerprint.Some?
       && i.receipt == Receipt(a.receiptId, c.principalId.value, session.sessionId, c.capability.value, c.command.value,
                               c.fingerprint.value, a.token, a.now + config.stepUpMs, None)
       && (credential.counter == 0 == a.newCounter || credential.counter < a.newCounter)
       && exists x :: x in sys.state.sessions && x.sessionId == session.sessionId && x.revokedAt.None?
                      && a.now < x.absoluteExpiresAt && a.now < x.idleExpiresAt
  }

  /** `a` spends the receipt, before it expires, for the request it is made out for. */
  predicate Spends(sys: System, a: Action, r: Receipt) {
    && a.Perform? && a.caller in sys.threads && sys.threads[a.caller].Authorized?
    && sys.threads[a.caller].goal.SpendReceipt?
    && var request, who := sys.threads[a.caller].goal.request, sys.threads[a.caller].who;
       && IsFor(r, request) && a.now < r.expiresAt
       && r.principalId == who.principal.principalId && r.sessionId == who.session.sessionId
  }

  predicate IsFor(r: Receipt, request: Request) {
    && r.tokenHash == request.receiptToken && r.fingerprint == request.fingerprint && r.command == Command(request)
    && r.capability == if request.KillSwitch? then AdminKillSwitchControl else AdminServicePrincipalManage
  }

  /** `a` is the act. */
  predicate Carries(sys: System, a: Action, act: Act) {
    && a.Perform? && a.caller in sys.threads && sys.threads[a.caller].Authorized?
    && sys.threads[a.caller].goal == Carry(act.request, act.receiptId)
    && sys.threads[a.caller].who.principal.principalId == act.principalId
  }

  lemma PerformStores(config: Config, sys: System, a: Action, next: State)
    requires a.Perform? && a.caller in sys.threads && sys.threads[a.caller].Authorized?
    ensures
      var h, h' := sys.h, AfterPerform(config, sys, a, next).h;
      && h' == h.(challenges := h'.challenges, revoked := h'.revoked, spent := h'.spent, acts := h'.acts)
      && (!sys.threads[a.caller].goal.OfferStepUp? ==> h'.challenges == h.challenges)
  {
    hide Command, RequestCapability, ConsumeReceiptTx, FirstRevocation, RevokedTogether, StepUpChallenge, ClientGoal,
         TargetPrincipal;
  }

  lemma StepUpOffers(config: Config, sys: System, a: Action, next: State)
    requires a.Perform? && ProposalOf(config, sys, a) == Proposed(next) && sys.threads[a.caller].goal.OfferStepUp?
    ensures Committed(config, sys, a, next).h.challenges.Keys == sys.h.challenges.Keys + {a.flowId}
    ensures Offers(config, sys, a, Committed(config, sys, a, next).h.challenges[a.flowId])
  {
    hide OfferChallengeTx;
  }

  lemma CommitStoresChallenge(config: Config, sys: System, a: Action, next: State, f: Id)
    requires ProposalOf(config, sys, a) == Proposed(next) && f !in sys.h.challenges
    requires f in Committed(config, sys, a, next).h.challenges
    ensures Offers(config, sys, a, Committed(config, sys, a, next).h.challenges[f])
  {
    hide FinishRegistrationTx, FinishLoginTx, FinishStepUpTx, ConsumeChallengeTx, PerformProposal, AfterPerform,
         FirstRevocation, Offers, OfferChallengeTx, AppendChallenge;
    match a {
      case Perform(t, _, _, _, _) =>
        if sys.threads[t].goal.OfferStepUp? {
          StepUpOffers(config, sys, a, next);
        } else {
          PerformStores(config, sys, a, next);
        }
      case BeginRegistration(_, _, _, _) => RegistrationOffers(config, sys, a, next);
      case OfferLogin(_, _, _, _, _) => LoginOffers(config, sys, a, next);
      case _ =>
    }
  }

  lemma RegistrationOffers(config: Config, sys: System, a: Action, next: State)
    requires a.BeginRegistration? && ProposalOf(config, sys, a) == Proposed(next)
    ensures Committed(config, sys, a, next).h.challenges.Keys == sys.h.challenges.Keys + {a.flowId}
    ensures Offers(config, sys, a, Committed(config, sys, a, next).h.challenges[a.flowId])
  {
    hide AppendChallenge;
  }

  lemma LoginOffers(config: Config, sys: System, a: Action, next: State)
    requires a.OfferLogin? && ProposalOf(config, sys, a) == Proposed(next)
    ensures Committed(config, sys, a, next).h.challenges.Keys == sys.h.challenges.Keys + {a.flowId}
    ensures Offers(config, sys, a, Committed(config, sys, a, next).h.challenges[a.flowId])
  {
    hide AppendChallenge;
  }

  lemma CommitUsesChallenge(config: Config, sys: System, a: Action, next: State, f: Id)
    requires Inv(sys) && ProposalOf(config, sys, a) == Proposed(next) && f !in sys.h.used
    requires f in Committed(config, sys, a, next).h.used
    ensures f in sys.h.challenges && Consumes(a, sys.h.challenges[f])
  {
    hide FinishRegistrationTx, FinishLoginTx, FinishStepUpTx, PerformProposal, AfterPerform, FirstRevocation,
         ReceiptsOk, IssuedOk, SessionsOk, BooksOk, CallersOk, MarkUsed;
    if a.Perform? {
      PerformStores(config, sys, a, next);
    } else if a.ConsumeChallenge? {
      var c := ConsumeChallengeTx(sys.state, a.flowId, a.kind, a.sourceKey, a.now).result;
      assert ChallengeTracked(c, sys.h.challenges, sys.h.used);
    }
  }

  lemma CommitIssuesReceipt(config: Config, sys: System, a: Action, next: State, id: Id)
    requires Inv(sys) && Identified(sys) && ProposalOf(config, sys, a) == Proposed(next) && id !in sys.h.receipts
    requires id in Committed(config, sys, a, next).h.receipts
    ensures
      var i := Committed(config, sys, a, next).h.receipts[id];
      && Issues(config, sys, a, i) && i.flowId in sys.h.used
      && sys.threads[a.caller].credential.principalId == i.receipt.principalId
  {
    hide FinishRegistrationTx, FinishLoginTx, ConsumeChallengeTx, PerformProposal, AfterPerform, FirstRevocation,
         RecordsOk, BooksOk, FlowsHeldOnce, ReceiptsHeldOnce, AppendReceipt, SetCounter, AppendEvent;
    if a.Perform? {
      PerformStores(config, sys, a, next);
    } else if a.FinishStepUp? {
      assert ThreadOk(sys.threads[a.caller], sys.h, sys.state.principals != []);
      assert CallerOk(sys.threads[a.caller]);
    }
  }

  lemma CommitSpendsReceipt(config: Config, sys: System, a: Action, next: State, id: Id)
    requires Inv(sys) && ProposalOf(config, sys, a) == Proposed(next) && id !in sys.h.spent
    requires id in Committed(config, sys, a, next).h.spent
    ensures id in sys.h.receipts && Spends(sys, a, sys.h.receipts[id].receipt)
  {
    hide FinishRegistrationTx, FinishLoginTx, FinishStepUpTx, ConsumeChallengeTx, FirstRevocation, RevokedTogether,
         ChallengesOk, IssuedOk, SessionsOk, BooksOk, CallersOk, Spend, AppendEvent, Command;
    if a.Perform? && sys.threads[a.caller].goal.SpendReceipt? {
      var request, who := sys.threads[a.caller].goal.request, sys.threads[a.caller].who;
      var found := ConsumeReceiptTx(
        sys.state, who, RequestCapability(request), Command(request), request.fingerprint, request.receiptToken,
        SecurityEvent(a.eventId, StepUpReceiptConsumed), a.now);
      assert ReceiptTracked(found.result, sys.h.receipts, sys.h.spent);
    }
  }

  lemma CommitActs(config: Config, sys: System, a: Action, next: State)
    requires ProposalOf(config, sys, a) == Proposed(next) && Committed(config, sys, a, next).h.acts != sys.h.acts
    ensures
      var acts := Committed(config, sys, a, next).h.acts;
      && |acts| == |sys.h.acts| + 1 && acts[..|sys.h.acts|] == sys.h.acts && Carries(sys, a, acts[|sys.h.acts|])
  {
    hide FinishRegistrationTx, FinishLoginTx, FinishStepUpTx, ConsumeChallengeTx, FirstRevocation, RevokedTogether,
         ConsumeReceiptTx, Command, RequestCapability, PerformProposal;
  }

  // ------------------------------------------------------------------- over a run

  ghost predicate Took(config: Config, run: seq<System>, k: nat, a: Action) {
    k + 1 < |run| && run[k + 1] == Step(config, run[k], a)
  }

  ghost predicate OfferedAt(config: Config, run: seq<System>, k: nat, c: Challenge) {
    exists a :: Took(config, run, k, a) && Offers(config, run[k], a, c)
  }

  ghost predicate ConsumedAt(config: Config, run: seq<System>, k: nat, c: Challenge) {
    exists a :: Took(config, run, k, a) && Consumes(a, c)
  }

  ghost predicate IssuedAt(config: Config, run: seq<System>, k: nat, i: Issued) {
    exists a :: Took(config, run, k, a) && Issues(config, run[k], a, i)
                && run[k].threads[a.caller].credential.principalId == i.receipt.principalId
  }

  ghost predicate SpentAt(config: Config, run: seq<System>, k: nat, r: Receipt) {
    exists a :: Took(config, run, k, a) && Spends(run[k], a, r)
  }

  ghost predicate CarriedAt(config: Config, run: seq<System>, k: nat, act: Act) {
    exists a :: Took(config, run, k, a) && Carries(run[k], a, act)
  }

  lemma {:induction false} ChallengeWasOffered(config: Config, run: seq<System>, i: nat, f: Id) returns (k: nat)
    requires IsRun(config, run) && i < |run| && f in run[i].h.challenges
    ensures k < i && OfferedAt(config, run, k, run[i].h.challenges[f])
  {
    hide IsRun, Step, Inv, Offers, Grows;
    StartIsBlank(config, run);
    Reached(config, run, i - 1, i);
    if f in run[i - 1].h.challenges {
      k := ChallengeWasOffered(config, run, i - 1, f);
      EntriesStay(run[i - 1].h, run[i].h);
    } else {
      k := i - 1;
      var a := StepOfRun(config, run, k);
      var next := CommitsOrNot(config, run[k], a);
      CommitStoresChallenge(config, Drawn(run[k], Mints(a)), a, next.value, f);
      OffersIfDrawn(config, run[k], a, run[i].h.challenges[f]);
      assert Took(config, run, k, a);
    }
  }

  lemma StartIsBlank(config: Config, run: seq<System>)
    requires IsRun(config, run)
    ensures run[0].h.challenges == map[] && run[0].h.used == {} && run[0].h.receipts == map[]
    ensures run[0].h.spent == {} && run[0].h.acts == [] && run[0].h.sessions == map[] && run[0].state == EMPTY_STATE
  {
  }

  lemma EntriesStay(h: History, h': History)
    requires Grows(h, h')
    ensures forall f :: f in h.challenges ==> f in h'.challenges && h'.challenges[f] == h.challenges[f]
    ensures forall id :: id in h.receipts ==> id in h'.receipts && h'.receipts[id] == h.receipts[id]
    ensures h.used <= h'.used && h.spent <= h'.spent && h.acts <= h'.acts
  {
  }

  lemma OffersIfDrawn(config: Config, sys: System, a: Action, c: Challenge)
    ensures Offers(config, Drawn(sys, Mints(a)), a, c) == Offers(config, sys, a, c)
  {
    hide Mints, Minted;
  }

  lemma {:induction false} ChallengeWasConsumed(config: Config, run: seq<System>, i: nat, f: Id) returns (k: nat)
    requires IsRun(config, run) && i < |run| && f in run[i].h.used
    ensures k < i && f in run[k].h.challenges && ConsumedAt(config, run, k, run[k].h.challenges[f])
  {
    hide IsRun, Step, Inv, Consumes, Grows, Unseen;
    StartIsBlank(config, run);
    Reached(config, run, i - 1, i);
    if f in run[i - 1].h.used {
      k := ChallengeWasConsumed(config, run, i - 1, f);
    } else {
      k := i - 1;
      var a := StepOfRun(config, run, k);
      var next := CommitsOrNot(config, run[k], a);
      DrawingKeepsInv(run[k], Mints(a));
      CommitUsesChallenge(config, Drawn(run[k], Mints(a)), a, next.value, f);
      assert Took(config, run, k, a);
    }
  }

  lemma {:induction false} ReceiptWasIssued(config: Config, run: seq<System>, i: nat, id: Id) returns (k: nat)
    requires IsRun(config, run) && i < |run| && id in run[i].h.receipts
    ensures k < i && IssuedAt(config, run, k, run[i].h.receipts[id]) && run[i].h.receipts[id].flowId in run[k].h.used
  {
    hide IsRun, Step, Inv, Issues, Grows, Identified, Unseen;
    StartIsBlank(config, run);
    Reached(config, run, i - 1, i);
    if id in run[i - 1].h.receipts {
      k := ReceiptWasIssued(config, run, i - 1, id);
      EntriesStay(run[i - 1].h, run[i].h);
    } else {
      k := i - 1;
      var a := StepOfRun(config, run, k);
      var next := CommitsOrNot(config, run[k], a);
      DrawingKeepsInv(run[k], Mints(a));
      RunIdentifies(config, run, k);
      StillIdentified(run[k], Mints(a));
      CommitIssuesReceipt(config, Drawn(run[k], Mints(a)), a, next.value, id);
      IssuesIfDrawn(config, run[k], a, run[i].h.receipts[id]);
      assert Took(config, run, k, a);
    }
  }

  lemma StillIdentified(sys: System, ids: seq<Id>)
    requires Identified(sys)
    ensures Identified(Drawn(sys, ids))
  {
  }

  lemma IssuesIfDrawn(config: Config, sys: System, a: Action, i: Issued)
    ensures Issues(config, Drawn(sys, Mints(a)), a, i) == Issues(config, sys, a, i)
  {
    hide Mints, Minted;
  }

  lemma {:induction false} ReceiptWasSpent(config: Config, run: seq<System>, i: nat, id: Id) returns (k: nat)
    requires IsRun(config, run) && i < |run| && id in run[i].h.spent
    ensures k < i && id in run[k].h.receipts && SpentAt(config, run, k, run[k].h.receipts[id].receipt)
  {
    hide IsRun, Step, Inv, Spends, Grows, Unseen;
    StartIsBlank(config, run);
    Reached(config, run, i - 1, i);
    if id in run[i - 1].h.spent {
      k := ReceiptWasSpent(config, run, i - 1, id);
    } else {
      k := i - 1;
      var a := StepOfRun(config, run, k);
      var next := CommitsOrNot(config, run[k], a);
      DrawingKeepsInv(run[k], Mints(a));
      CommitSpendsReceipt(config, Drawn(run[k], Mints(a)), a, next.value, id);
      SpendsIfDrawn(run[k], a, run[k].h.receipts[id].receipt);
      assert Took(config, run, k, a);
    }
  }

  lemma SpendsIfDrawn(sys: System, a: Action, r: Receipt)
    ensures Spends(Drawn(sys, Mints(a)), a, r) == Spends(sys, a, r)
  {
    hide Mints, Minted, IsFor;
  }

  lemma {:induction false} ActWasCarried(config: Config, run: seq<System>, i: nat, j: nat) returns (k: nat)
    requires IsRun(config, run) && i < |run| && j < |run[i].h.acts|
    ensures k < i && CarriedAt(config, run, k, run[i].h.acts[j])
    ensures run[i].h.acts[j].receiptId in run[k].h.spent && run[i].h.acts[j].principalId == "founder"
    ensures WellNamed(Carry(run[i].h.acts[j].request, 0))
  {
    hide IsRun, Step, Inv, Grows, Moves;
    StartIsBlank(config, run);
    Reached(config, run, i - 1, i);
    EntriesStay(run[i - 1].h, run[i].h);
    if j < |run[i - 1].h.acts| {
      k := ActWasCarried(config, run, i - 1, j);
    } else {
      k := i - 1;
      var a := StepOfRun(config, run, k);
      StepCarries(config, run[k], a, run[i], j);
      RunIdentifies(config, run, k);
      CarriedByFounder(run[k], a, run[i].h.acts[j]);
      assert Took(config, run, k, a);
    }
  }

  lemma StepCarries(config: Config, sys: System, a: Action, after: System, j: nat)
    requires after == Step(config, sys, a) && |sys.h.acts| <= j < |after.h.acts|
    ensures Carries(sys, a, after.h.acts[j])
  {
    hide Step, Carries, Mints, Minted;
    var next := CommitsOrNot(config, sys, a);
    CommitActs(config, Drawn(sys, Mints(a)), a, next.value);
    CarriesIfDrawn(sys, a, after.h.acts[j]);
  }

  lemma CarriesIfDrawn(sys: System, a: Action, act: Act)
    ensures Carries(Drawn(sys, Mints(a)), a, act) == Carries(sys, a, act)
  {
    hide Mints, Minted;
  }

  /** Only the founder is qualified for what takes a receipt. */
  lemma CarriedByFounder(sys: System, a: Action, act: Act)
    requires Inv(sys) && Identified(sys) && Carries(sys, a, act)
    ensures act.receiptId in sys.h.spent && act.principalId == "founder" && WellNamed(Carry(act.request, 0))
  {
    hide RecordsOk, BooksOk, FlowsHeldOnce, ReceiptsHeldOnce, SafeIdentifier, Command;
    assert ThreadOk(sys.threads[a.caller], sys.h, sys.state.principals != []);
    assert CallerOk(sys.threads[a.caller]);
  }

  /** The caller whose mutation is refused, or who reads nothing it can go on with, is out. */
  lemma RefusedCallerIsOut(config: Config, sys: System, a: Action)
    requires Fresh(sys.h.minted, Mints(a)) && ProposalOf(config, Drawn(sys, Mints(a)), a).Refused?
    requires a.FinishRegistration? || a.FinishLogin? || a.Touch? || a.Perform? || a.FinishStepUp?
    ensures a.caller !in Step(config, sys, a).threads && Step(config, sys, a).state == sys.state
    ensures forall t :: t in sys.threads && t != a.caller ==>
              t in Step(config, sys, a).threads && Step(config, sys, a).threads[t] == sys.threads[t]
  {
    hide ProposalOf, Mints, Minted, Fresh;
  }

  /** Positions of the steps that led to an act. */
  datatype Trail = Trail(offer: nat, consume: nat, issue: nat, spend: nat, carry: nat)

  ghost predicate LedTo(config: Config, run: seq<System>, act: Act, c: Challenge, i: Issued, t: Trail) {
    && t.offer < t.consume < t.issue < t.spend < t.carry
    && OfferedAt(config, run, t.offer, c) && ConsumedAt(config, run, t.consume, c)
    && IssuedAt(config, run, t.issue, i) && SpentAt(config, run, t.spend, i.receipt)
    && CarriedAt(config, run, t.carry, act)
    && c.kind.StepUp? && c.principalId == Some("founder") && i.flowId == c.flowId
    && c.command == Some(i.receipt.command) && c.capability == Some(i.receipt.capability)
    && c.sessionId == Some(i.receipt.sessionId) && c.fingerprint == Some(i.receipt.fingerprint)
    && i.receipt.receiptId == act.receiptId && i.receipt.principalId == "founder"
    && IsFor(i.receipt, act.request) && act.principalId == "founder"
    && SafeIdentifier(Subject(act.request)) && SafeIdentifier(Command(act.request))
  }

  /** What the receipt of an act and the challenge behind it are made out for. */
  lemma ActIsCoveredAsNamed(sys: System, j: nat)
    requires Inv(sys) && j < |sys.h.acts|
    ensures
      var act := sys.h.acts[j];
      && act.receiptId in sys.h.receipts && sys.h.receipts[act.receiptId].flowId in sys.h.challenges
      && var i, c := sys.h.receipts[act.receiptId], sys.h.challenges[sys.h.receipts[act.receiptId].flowId];
         && i.receipt.receiptId == act.receiptId && IsFor(i.receipt, act.request)
         && i.receipt.principalId == act.principalId
         && c.flowId == i.flowId && c.kind.StepUp? && c.principalId == Some(act.principalId)
         && c.command == Some(i.receipt.command) && c.capability == Some(i.receipt.capability)
         && c.sessionId == Some(i.receipt.sessionId) && c.fingerprint == Some(i.receipt.fingerprint)
  {
    hide SessionsOk, FounderOk, CountersOk, CallersOk, ValidState, MintedOk, Command;
    assert ActOk(sys.h.acts[j], sys.h);
    assert Earned(sys.h.receipts[sys.h.acts[j].receiptId], sys.h.challenges, sys.h.used);
  }

  /** Over every run, each sensitive act was led to, in this order, by the founder's own five steps: the
      founder asked for a challenge for this very command, consumed it from the same source within
      `challengeMs`, earned a receipt for it with an assertion of the founder's credential, spent that
      within `stepUpMs`, and acted. */
  lemma EveryActWasLedTo(config: Config, run: seq<System>, i: nat, j: nat)
      returns (c: Challenge, issued: Issued, t: Trail)
    requires IsRun(config, run) && i < |run| && j < |run[i].h.acts|
    ensures LedTo(config, run, run[i].h.acts[j], c, issued, t) && t.carry < i
  {
    hide IsRun, Inv, Grows, IsFor, OfferedAt, ConsumedAt, IssuedAt, SpentAt, CarriedAt, SafeIdentifier, Command;
    var act := run[i].h.acts[j];
    RunKeepsInv(config, run, i);
    ActIsCoveredAsNamed(run[i], j);
    var carry := ActWasCarried(config, run, i, j);
    var spend := ReceiptWasSpent(config, run, carry, act.receiptId);
    SameEntries(config, run, spend, i);
    issued := run[i].h.receipts[act.receiptId];
    var issue := ReceiptWasIssued(config, run, spend, act.receiptId);
    var consume := ChallengeWasConsumed(config, run, issue, issued.flowId);
    SameEntries(config, run, consume, i);
    c := run[i].h.challenges[issued.flowId];
    var offer := ChallengeWasOffered(config, run, consume, issued.flowId);
    t := Trail(offer, consume, issue, spend, carry);
  }

  lemma SameEntries(config: Config, run: seq<System>, k: nat, i: nat)
    requires IsRun(config, run) && k <= i < |run|
    ensures forall f :: f in run[k].h.challenges ==>
              f in run[i].h.challenges && run[i].h.challenges[f] == run[k].h.challenges[f]
    ensures forall id :: id in run[k].h.receipts ==>
              id in run[i].h.receipts && run[i].h.receipts[id] == run[k].h.receipts[id]
  {
    hide IsRun, Grows;
    RunGrows(config, run, k, i);
    EntriesStay(run[k].h, run[i].h);
  }
}
