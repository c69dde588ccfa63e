/** What the admin-security ceremonies guarantee over every run from the empty state. */
module AdminTheorems {
  import opened Collections
  import opened AdminContracts
  import opened AdminTransactions
  import opened CommandStrings
  import opened AdminCeremonies
  import opened AdminInvariants
  import opened AdminPreservation
  import opened AdminRuns
  import opened AdminHistory

  // ------------------------------------------------------------------- sensitive operations

  predicate SameOperation(a: Request, b: Request) {
    && (a.KillSwitch? <==> b.KillSwitch?)
    && Subject(a) == Subject(b)
    && (a.KillSwitch? ==> a.desired == b.desired)
    && (a.RegisterService? ==> a.profile == b.profile)
  }

  /** The whole chain behind an act: its receipt was issued and spent, and earned by a step-up
      challenge that was consumed, and all three agree on who may do what. */
  ghost predicate SteppedUp(act: Act, h: History) {
    && act.receiptId in h.receipts && act.receiptId in h.spent
    && h.receipts[act.receiptId].flowId in h.challenges
    && h.receipts[act.receiptId].flowId in h.used
    && var r, c := h.receipts[act.receiptId].receipt, h.challenges[h.receipts[act.receiptId].flowId];
       && r.tokenHash == act.request.receiptToken
       && c.kind.StepUp?
       && c.principalId == Some(act.principalId) && r.principalId == act.principalId
       && c.sessionId == Some(r.sessionId)
       && c.capability == Some(r.capability) && r.capability == RequestCapability(act.request)
       && c.command == Some(r.command) && r.command == Command(act.request)
       && c.fingerprint == Some(r.fingerprint) && r.fingerprint == act.request.fingerprint
  }

  lemma ActIsSteppedUp(sys: System, k: nat)
    requires Inv(sys) && k < |sys.h.acts|
    ensures SteppedUp(sys.h.acts[k], sys.h)
  {
    hide ChallengesOk, ReceiptsOk, SessionsOk, FounderOk, CountersOk, CallersOk, ValidState, MintedOk, Command;
    assert ActOk(sys.h.acts[k], sys.h);
    assert Earned(sys.h.receipts[sys.h.acts[k].receiptId], sys.h.challenges, sys.h.used);
  }

  ghost predicate SeparatelySteppedUp(h: History, j: nat, k: nat) {
    && j < |h.acts| && k < |h.acts|
    && h.acts[j].receiptId != h.acts[k].receiptId
    && h.acts[j].receiptId in h.receipts && h.acts[k].receiptId in h.receipts
    && h.receipts[h.acts[j].receiptId].flowId != h.receipts[h.acts[k].receiptId].flowId
  }

  lemma ActsDiffer(sys: System, j: nat, k: nat)
    requires Inv(sys) && j < k < |sys.h.acts|
    ensures SeparatelySteppedUp(sys.h, j, k)
  {
    hide ChallengesOk, ReceiptsOk, SessionsOk, FounderOk, CountersOk, CallersOk, ValidState, MintedOk, Serves, Earned;
    assert ActOk(sys.h.acts[j], sys.h) && ActOk(sys.h.acts[k], sys.h);
  }

  /** Over every run, each sensitive act was stepped up for, and no two acts share a receipt or a
      challenge. */
  lemma EveryActHasItsOwnStepUp(config: Config, run: seq<System>, i: nat)
    requires IsRun(config, run) && i < |run|
    ensures forall k :: 0 <= k < |run[i].h.acts| ==> SteppedUp(run[i].h.acts[k], run[i].h)
    ensures forall j, k :: 0 <= j < k < |run[i].h.acts| ==> SeparatelySteppedUp(run[i].h, j, k)
  {
    hide Inv, IsRun, SteppedUp, SeparatelySteppedUp;
    RunKeepsInv(config, run, i);
    forall k | 0 <= k < |run[i].h.acts|
      ensures SteppedUp(run[i].h.acts[k], run[i].h)
    {
      ActIsSteppedUp(run[i], k);
    }
    forall j, k | 0 <= j < k < |run[i].h.acts|
      ensures SeparatelySteppedUp(run[i].h, j, k)
    {
      ActsDiffer(run[i], j, k);
    }
  }

  /** Nor does the command that the challenge named fit any other operation: whatever request
      yields it is for the same switch and state, or the same service principal and profile. */
  lemma NoOtherOperationFits(config: Config, run: seq<System>, i: nat, k: nat, other: Request)
    requires IsRun(config, run) && i < |run| && k < |run[i].h.acts|
    requires
      var h := run[i].h;
      && h.acts[k].receiptId in h.receipts && h.receipts[h.acts[k].receiptId].flowId in h.challenges
      && h.challenges[h.receipts[h.acts[k].receiptId].flowId].command == Some(Command(other))
    ensures SameOperation(run[i].h.acts[k].request, other)
  {
    hide Inv, IsRun, Command, SameOperation;
    RunKeepsInv(config, run, i);
    ActIsSteppedUp(run[i], k);
    OneOperationPerCommand(run[i].h.acts[k].request, other);
  }

  lemma OneOperationPerCommand(a: Request, b: Request)
    requires Command(a) == Command(b)
    ensures SameOperation(a, b)
  {
    hide Command;
    CommandPinsOperation(a, b);
  }

  lemma SpentReceiptIsRefused(
      sys: System, id: Id, who: Identity, capability: Capability, command: string, fingerprint: Hash,
      event: SecurityEvent, now: int)
    requires Inv(sys) && id in sys.h.spent && id in sys.h.receipts
    ensures ConsumeReceiptTx(sys.state, who, capability, command, fingerprint, sys.h.receipts[id].receipt.tokenHash,
                             event, now).Reject?
  {
    hide ChallengesOk, SessionsOk, IssuedOk, BooksOk, CallersOk;
    var token := sys.h.receipts[id].receipt.tokenHash;
    var found := Find(sys.state.receipts, (r: Receipt) => r.tokenHash == token);
    if found.Some? {
      assert ReceiptTracked(found.value, sys.h.receipts, sys.h.spent);
    }
  }

  lemma UsedChallengeIsRefused(sys: System, flow: Id, kind: ChallengeKind, sourceKey: Hash, now: int)
    requires Inv(sys) && flow in sys.h.used
    ensures ConsumeChallengeTx(sys.state, flow, kind, sourceKey, now).Reject?
  {
    hide ReceiptsOk, SessionsOk, IssuedOk, BooksOk, CallersOk;
    var found := Find(sys.state.challenges, (c: Challenge) => c.flowId == flow && c.kind == kind);
    if found.Some? {
      assert ChallengeTracked(found.value, sys.h.challenges, sys.h.used);
    }
  }

  /** However the run goes on, and whatever was pruned meanwhile, a spent receipt and a used
      challenge are refused for every caller, operation, source and clock. */
  lemma NothingServesTwice(
      config: Config, run: seq<System>, i: nat, j: nat, id: Id, who: Identity, capability: Capability,
      command: string, fingerprint: Hash, event: SecurityEvent, flow: Id, kind: ChallengeKind, sourceKey: Hash,
      now: int)
    requires IsRun(config, run) && i <= j < |run|
    ensures
      var early, late := run[i], run[j];
      && (id in early.h.spent && id in early.h.receipts ==>
            ConsumeReceiptTx(late.state, who, capability, command, fingerprint, early.h.receipts[id].receipt.tokenHash,
                             event, now).Reject?)
      && (flow in early.h.used ==> ConsumeChallengeTx(late.state, flow, kind, sourceKey, now).Reject?)
  {
    hide Inv, IsRun, ConsumeReceiptTx, ConsumeChallengeTx;
    var early, late := run[i], run[j];
    Reached(config, run, i, j);
    if id in early.h.spent && id in early.h.receipts {
      SpentReceiptIsRefused(late, id, who, capability, command, fingerprint, event, now);
    }
    if flow in early.h.used {
      UsedChallengeIsRefused(late, flow, kind, sourceKey, now);
    }
  }

  // ------------------------------------------------------------------- founder

  /** Over every run, the founder exists exactly when the bootstrap is consumed, and at most one
      registration ever committed: one from a used registration challenge bound to the bootstrap
      token the state still names. */
  lemma OneFounder(config: Config, run: seq<System>, i: nat)
    requires IsRun(config, run) && i < |run|
    ensures
      var sys := run[i];
      var founders := sys.h.founders;
      && (HasFounder(sys.state.principals) <==> sys.state.bootstrap.Some? && sys.state.bootstrap.value.consumedAt.Some?)
      && (HasFounder(sys.state.principals) <==> |founders| == 1)
      && |founders| <= 1
      && (founders != [] ==>
            && founders[0].flowId in sys.h.used && founders[0].flowId in sys.h.challenges
            && sys.h.challenges[founders[0].flowId].kind.Registration?
            && sys.h.challenges[founders[0].flowId].bootstrapTokenHash == Some(sys.state.bootstrap.value.tokenHash))
  {
    hide IsRun, RecordsOk, CallersOk, ValidState, CountersOk, ActsOk, MintedOk;
    RunKeepsInv(config, run, i);
  }

  /** Once a founder registration committed, every later one is refused, whatever challenge it
      holds, and so is every new bootstrap. */
  lemma NoSecondFounder(
      config: Config, run: seq<System>, i: nat, j: nat, c: Challenge, credential: Credential, b: Bootstrap,
      event: SecurityEvent, now: int)
    requires IsRun(config, run) && i <= j < |run|
    requires run[i].h.founders != []
    ensures
      var late := run[j].state;
      && FinishRegistrationTx(late, c, credential, event, now).Reject?
      && CreateBootstrapTx(late, b, event, now).Reject?
      && BeginRegistrationTx(late, c, b.tokenHash, now).Reject?
  {
    hide IsRun, RecordsOk, CallersOk, ValidState, CountersOk, ActsOk, MintedOk, Extends;
    Reached(config, run, i, j);
    assert run[i].h.founders <= run[j].h.founders;
  }

  /** A registration that commits saw its own token in the unconsumed, unexpired bootstrap. */
  lemma FounderCommitSawItsBootstrap(config: Config, sys: System, a: Action, next: State)
    requires a.FinishRegistration? && ProposalOf(config, sys, a) == Proposed(next)
    requires Inv(sys)
    ensures
      var c := sys.threads[a.caller].challenge;
      && sys.state.bootstrap.Some? && sys.state.bootstrap.value.consumedAt.None?
      && sys.state.bootstrap.value.expiresAt > a.now
      && c.bootstrapTokenHash == Some(sys.state.bootstrap.value.tokenHash)
      && c.kind.Registration? && c.flowId in sys.h.used && sys.h.challenges[c.flowId] == c
      && sys.h.founders == [] && sys.state.principals == []
  {
    hide RecordsOk, ValidState, CountersOk, ActsOk, MintedOk, FlowsHeldOnce, ReceiptsHeldOnce;
    assert ThreadOk(sys.threads[a.caller], sys.h, sys.state.principals != []);
  }

  /** A bootstrap secret stands until it is used or runs out: no operation replaces one that is
      consumed or not yet expired. */
  lemma BootstrapStands(config: Config, sys: System, a: Action, next: State)
    requires ProposalOf(config, sys, a) == Proposed(next) && sys.state.bootstrap.Some?
    ensures next.bootstrap.Some?
    ensures next.bootstrap.value.tokenHash != sys.state.bootstrap.value.tokenHash ==>
              && a.CreateBootstrap? && sys.state.bootstrap.value.consumedAt.None?
              && sys.state.bootstrap.value.expiresAt <= a.now
    ensures sys.state.bootstrap.value.consumedAt.Some? ==> next.bootstrap == sys.state.bootstrap
  {
    hide PerformProposal, AppendEvent, AppendChallenge, AppendSession, AppendReceipt, SetCounter, MarkUsed, HasFounder;
    if a.Perform? {
      PerformLeavesBootstrap(config, sys.state, sys.threads[a.caller].goal, sys.threads[a.caller].who, a, next);
    }
  }

  lemma PerformLeavesBootstrap(config: Config, s: State, goal: Goal, who: Identity, a: Action, next: State)
    requires a.Perform? && PerformProposal(config, s, goal, who, a) == Proposed(next)
    ensures next.bootstrap == s.bootstrap
  {
    hide Command, RequestCapability, AppendEvent, Spend, RevokeAllOf, RevokeIfOpen, AppendChallenge;
  }

  // ------------------------------------------------------------------- sessions

  /** A stored session that was revoked stays revoked as of the same moment for as long as its
      record is kept; its absolute expiry never moves and bounds its idle expiry. */
  lemma RevocationIsFinal(config: Config, run: seq<System>, i: nat, j: nat, s: Session, s': Session)
    requires IsRun(config, run) && i <= j < |run|
    requires s in run[i].state.sessions
    requires s' in run[j].state.sessions && s'.sessionId == s.sessionId
    ensures s.revokedAt.Some? ==> s'.revokedAt == s.revokedAt
    ensures s'.principalId == s.principalId && s'.tokenHash == s.tokenHash
    ensures s'.absoluteExpiresAt == s.absoluteExpiresAt
    ensures s.idleExpiresAt <= s.absoluteExpiresAt && s'.idleExpiresAt <= s'.absoluteExpiresAt
  {
    hide IsRun, ChallengesOk, ReceiptsOk, IssuedOk, CallersOk, BooksOk;
    var early, late := run[i], run[j];
    Reached(config, run, i, j);
    assert SessionTracked(s, early.h.sessions, early.h.revoked);
    assert SessionTracked(s', late.h.sessions, late.h.revoked);
  }

  lemma RevokedTokenIsRefused(sys: System, id: Id, capability: Option<Capability>, now: int)
    requires Inv(sys) && id in sys.h.revoked && id in sys.h.sessions
    ensures ReadSession(sys.state, sys.h.sessions[id].tokenHash, capability, now).None?
  {
    hide ChallengesOk, ReceiptsOk, IssuedOk, CallersOk, BooksOk;
    var who := ReadSession(sys.state, sys.h.sessions[id].tokenHash, capability, now);
    if who.Some? {
      assert SessionTracked(who.value.session, sys.h.sessions, sys.h.revoked);
    }
  }

  lemma RevokedSessionIsInactive(sys: System, id: Id, now: int)
    requires Inv(sys) && id in sys.h.revoked
    ensures !IsActiveSession(SessionById(sys.state, id), now)
  {
    hide ChallengesOk, ReceiptsOk, IssuedOk, CallersOk, BooksOk;
    var found := SessionById(sys.state, id);
    if found.Some? {
      assert SessionTracked(found.value, sys.h.sessions, sys.h.revoked);
    }
  }

  /** Whatever follows a committed revocation, the session's token authenticates nobody, its
      expiries are not extended, and it can finish no step-up. */
  lemma RevokedIsLockedOut(
      config: Config, run: seq<System>, i: nat, j: nat, s: Session, capability: Option<Capability>,
      idleMs: int, read: Credential, newCounter: nat, receipt: Receipt, event: SecurityEvent, now: int)
    requires IsRun(config, run) && i <= j < |run|
    requires s in run[i].state.sessions && s.revokedAt.Some?
    ensures
      var late := run[j].state;
      && ReadSession(late, s.tokenHash, capability, now).None?
      && TouchTx(late, s.sessionId, idleMs, now).Reject?
      && FinishStepUpTx(late, read, newCounter, s.sessionId, receipt, event, now).Reject?
  {
    hide IsRun, Inv, ReadSession, SessionById;
    Reached(config, run, i, j);
    StoredRevocation(run[i], s);
    RevokedTokenIsRefused(run[j], s.sessionId, capability, now);
    RevokedSessionIsInactive(run[j], s.sessionId, now);
  }

  lemma StoredRevocation(sys: System, s: Session)
    requires Inv(sys) && s in sys.state.sessions && s.revokedAt.Some?
    ensures s.sessionId in sys.h.revoked && s.sessionId in sys.h.sessions
    ensures sys.h.sessions[s.sessionId].tokenHash == s.tokenHash
  {
    hide ChallengesOk, ReceiptsOk, IssuedOk, CallersOk, BooksOk;
    assert SessionTracked(s, sys.h.sessions, sys.h.revoked);
  }

  /** Positions where the two lists disagree. */
  function Switched(before: seq<Session>, after: seq<Session>): (r: set<nat>)
    requires |before| == |after|
  {
    set i | 0 <= i < |before| && before[i] != after[i]
  }

  lemma {:induction false} FilterOneMore(ss: seq<Session>, x: Session, p: Session -> bool)
    ensures Filter(ss + [x], p) == Filter(ss, p) + if p(x) then [x] else []
  {
    if ss != [] {
      assert (ss + [x])[1..] == ss[1..] + [x];
      FilterOneMore(ss[1..], x, p);
    }
  }

  lemma SwitchedOneMore(ss: seq<Session>, x: Session, principalId: string, now: int)
    ensures Switched(ss + [x], RevokeAllOf(ss + [x], principalId, now))
            == Switched(ss, RevokeAllOf(ss, principalId, now))
               + if x.principalId == principalId && x.revokedAt.None? then {|ss|} else {}
  {
    var after, longer := RevokeAllOf(ss, principalId, now), RevokeAllOf(ss + [x], principalId, now);
    assert forall i :: 0 <= i < |ss| ==> longer[i] == after[i] && (ss + [x])[i] == ss[i];
  }

  lemma {:induction false} SwitchedCount(ss: seq<Session>, principalId: string, now: int)
    ensures |Switched(ss, RevokeAllOf(ss, principalId, now))|
            == |Filter(ss, (x: Session) => x.principalId == principalId && x.revokedAt.None?)|
  {
    if ss != [] {
      var p := (x: Session) => x.principalId == principalId && x.revokedAt.None?;
      var n := |ss| - 1;
      var init := ss[..n];
      assert ss == init + [ss[n]];
      SwitchedCount(init, principalId, now);
      FilterOneMore(init, ss[n], p);
      SwitchedOneMore(init, ss[n], principalId, now);
      assert n !in Switched(init, RevokeAllOf(init, principalId, now));
      hide RevokeAllOf, Filter, Switched;
    }
  }

  /** `revokeAllSessions` answers exactly how many sessions it switched, switches all and only
      the open ones of that principal, and leaves none of them open. */
  lemma RevokeAllCountsExactly(s: State, principalId: string, event: SecurityEvent, now: int)
    ensures
      var done := RevokeAllTx(s, principalId, event, now);
      && done.Accept? && |done.next.sessions| == |s.sessions|
      && done.result == |Switched(s.sessions, done.next.sessions)|
      && (forall i :: 0 <= i < |s.sessions| && i !in Switched(s.sessions, done.next.sessions) ==>
            done.next.sessions[i] == s.sessions[i])
      && (forall i :: i in Switched(s.sessions, done.next.sessions) ==>
            && s.sessions[i].principalId == principalId && s.sessions[i].revokedAt.None?
            && done.next.sessions[i] == s.sessions[i].(revokedAt := Some(now)))
      && (forall x :: x in done.next.sessions && x.principalId == principalId ==> x.revokedAt.Some?)
  {
    SwitchedCount(s.sessions, principalId, now);
  }

  // ------------------------------------------------------------------- signature counters

  /** No run ever lowers or loses a stored counter. */
  lemma CountersNeverDrop(config: Config, run: seq<System>, i: nat, j: nat, id: Id)
    requires IsRun(config, run) && i <= j < |run|
    ensures
      var before, after := CounterOf(run[i].state.credentials, id), CounterOf(run[j].state.credentials, id);
      before.Some? ==> after.Some? && before.value <= after.value
  {
    hide CounterOf;
    RunRaisesCounters(config, run, i, j);
  }

  /** Over every run: two committed assertions of one credential read the same counter only
      when that counter was zero and the first of them signed zero again. */
  lemma EqualReadsOnlyAtZero(config: Config, run: seq<System>, i: nat, a: nat, b: nat)
    requires IsRun(config, run) && i < |run| && a < b < |run[i].h.uses|
    requires run[i].h.uses[a].credentialId == run[i].h.uses[b].credentialId
    requires run[i].h.uses[a].read == run[i].h.uses[b].read
    ensures run[i].h.uses[a].read == 0 && run[i].h.uses[a].wrote == 0
  {
    hide IsRun, RecordsOk, CallersOk, ValidState, ActsOk, MintedOk, FounderOk;
    RunKeepsInv(config, run, i);
    var sys := run[i];
    assert UseOk(sys.h.uses[a], sys.state.credentials);
  }

  /** After a login that advanced the counter, a second one from the same read is refused; it
      goes through exactly when the counter was not advanced. */
  lemma SecondLoginExactly(
      s: State, read: Credential, first: nat, session1: Session, event1: SecurityEvent, now1: int,
      second: nat, session2: Session, event2: SecurityEvent, now2: int)
    requires UniqueBy(s.credentials, CredentialKey)
    requires FinishLoginTx(s, read, first, session1, event1, now1).Accept?
    requires CounterContract(read.counter, first)
    requires ActivePrincipal(s, session2.principalId).Some?
    ensures
      var next := FinishLoginTx(s, read, first, session1, event1, now1).next;
      FinishLoginTx(next, read, second, session2, event2, now2).Accept? <==> read.counter == 0 && first == 0
  {
    var next := FinishLoginTx(s, read, first, session1, event1, now1).next;
    OwnedAfterSet(s, next, read, first);
    hide SetCounter, OwnedCredential, AppendSession, AppendEvent, CounterContract;
    assert PrincipalOf(next, session2.principalId) == PrincipalOf(s, session2.principalId);
    hide PrincipalOf;
    assert first == read.counter <==> read.counter == 0 && first == 0 by {
      ContractSeparates(read.counter, first);
    }
  }

  lemma ContractSeparates(stored: nat, signed: nat)
    requires CounterContract(stored, signed)
    ensures signed == stored <==> stored == 0 && signed == 0
  {
  }

  lemma OwnedAfterSet(s: State, next: State, read: Credential, n: nat)
    requires UniqueBy(s.credentials, CredentialKey) && OwnedCredential(s, read.principalId, read.credentialId).Some?
    requires next.credentials == SetCounter(s.credentials, read.credentialId, n)
    ensures OwnedCredential(next, read.principalId, read.credentialId)
            == Some(OwnedCredential(s, read.principalId, read.credentialId).value.(counter := n))
  {
    var current := OwnedCredential(s, read.principalId, read.credentialId).value;
    var k :| 0 <= k < |s.credentials| && s.credentials[k] == current;
    assert next.credentials[k] == current.(counter := n);
    assert next.credentials[k] in next.credentials;
    RewriteKeepsUnique(s.credentials, next.credentials, CredentialKey);
    var again := OwnedCredential(next, read.principalId, read.credentialId);
    UniqueMembers(next.credentials, CredentialKey, next.credentials[k], again.value);
  }

  // ------------------------------------------------------------------- acceptance and pruning, exactly

  /** A challenge is consumed exactly when one of that flow and kind is stored, unused, unexpired
      and from the same source. */
  lemma ConsumableExactly(s: State, flow: Id, kind: ChallengeKind, sourceKey: Hash, now: int)
    requires UniqueBy(s.challenges, ChallengeKey)
    ensures ConsumeChallengeTx(s, flow, kind, sourceKey, now).Accept? <==>
              exists c :: Consumable(s, c, flow, kind, sourceKey, now)
    ensures ConsumeChallengeTx(s, flow, kind, sourceKey, now).Accept? ==>
              Consumable(s, ConsumeChallengeTx(s, flow, kind, sourceKey, now).result, flow, kind, sourceKey, now)
  {
    var found := Find(s.challenges, (c: Challenge) => c.flowId == flow && c.kind == kind);
    if c :| Consumable(s, c, flow, kind, sourceKey, now) {
      UniqueMembers(s.challenges, ChallengeKey, c, found.value);
    }
    if found.Some? {
      assert Consumable(s, found.value, flow, kind, sourceKey, now)
        <==> ConsumeChallengeTx(s, flow, kind, sourceKey, now).Accept?;
    }
  }

  predicate Consumable(s: State, c: Challenge, flow: Id, kind: ChallengeKind, sourceKey: Hash, now: int) {
    && c in s.challenges && c.flowId == flow && c.kind == kind
    && c.usedAt.None? && c.expiresAt > now && c.sourceKey == sourceKey
  }

  /** In a reachable state a receipt is spent exactly when the one its token stands for is
      unspent, unexpired, bound to the caller's principal and session, and for this operation. */
  lemma SpendableExactly(
      config: Config, run: seq<System>, i: nat, who: Identity, r: Request, event: SecurityEvent, now: int)
    requires IsRun(config, run) && i < |run|
    ensures ConsumeReceiptTx(run[i].state, who, RequestCapability(r), Command(r), r.fingerprint, r.receiptToken, event,
                             now).Accept?
            <==> exists x :: Spendable(run[i].state, x, who, r, now)
  {
    hide Inv, IsRun;
    RunKeepsInv(config, run, i);
    SpendableWithin(run[i], who, r, event, now);
  }

  lemma SpendableWithin(sys: System, who: Identity, r: Request, event: SecurityEvent, now: int)
    requires Inv(sys)
    ensures ConsumeReceiptTx(sys.state, who, RequestCapability(r), Command(r), r.fingerprint, r.receiptToken, event,
                             now).Accept?
            <==> exists x :: Spendable(sys.state, x, who, r, now)
  {
    hide Inv, Command, RequestCapability;
    var found := Find(sys.state.receipts, (x: Receipt) => x.tokenHash == r.receiptToken);
    if x :| Spendable(sys.state, x, who, r, now) {
      OneReceiptPerToken(sys, x, found.value);
    }
    if found.Some? {
      assert Spendable(sys.state, found.value, who, r, now)
        <==> ConsumeReceiptTx(sys.state, who, RequestCapability(r), Command(r), r.fingerprint, r.receiptToken, event,
                              now).Accept?;
    }
  }

  predicate Spendable(s: State, x: Receipt, who: Identity, r: Request, now: int) {
    && x in s.receipts && x.tokenHash == r.receiptToken && x.consumedAt.None? && x.expiresAt > now
    && x.principalId == who.principal.principalId && x.sessionId == who.session.sessionId
    && x.capability == RequestCapability(r) && x.command == Command(r) && x.fingerprint == r.fingerprint
  }

  lemma OneReceiptPerToken(sys: System, x: Receipt, y: Receipt)
    requires Inv(sys) && x in sys.state.receipts && y in sys.state.receipts && x.tokenHash == y.tokenHash
    ensures x == y
  {
    hide ChallengesOk, SessionsOk, IssuedOk, FounderOk, CountersOk, ActsOk, CallersOk, MintedOk;
    assert ReceiptTracked(x, sys.h.receipts, sys.h.spent) && ReceiptTracked(y, sys.h.receipts, sys.h.spent);
    UniqueMembers(sys.state.receipts, ReceiptKey, x, y);
  }

  /** Storing a session drops an open, unexpired one only when 1023 such sessions were stored
      after it. */
  lemma SessionKeptExactly(ss: seq<Session>, x: Session, now: int, i: nat)
    requires i < |ss| && UniqueBy(ss + [x], SessionKey)
    ensures ss[i] in AppendSession(ss, x, now) <==>
              ss[i].revokedAt.None? && ss[i].absoluteExpiresAt > now && |Filter(ss[i + 1..], KeepSession(now))| <= 1_022
  {
    RetainedExactly(ss, KeepSession(now), x, MAX_SESSIONS, i, SessionKey);
  }

  /** Storing a receipt drops an unspent, unexpired one only when 511 such were stored after it. */
  lemma ReceiptKeptExactly(rs: seq<Receipt>, x: Receipt, now: int, i: nat)
    requires i < |rs| && UniqueBy(rs + [x], ReceiptKey)
    ensures rs[i] in AppendReceipt(rs, x, now) <==>
              rs[i].consumedAt.None? && rs[i].expiresAt > now && |Filter(rs[i + 1..], KeepReceipt(now))| <= 510
  {
    RetainedExactly(rs, KeepReceipt(now), x, MAX_STEP_UP_RECEIPTS, i, ReceiptKey);
  }

  /** Storing a challenge drops an unused one, expired or not, only when 255 challenges that were
      unused or used within the last five minutes were stored after it. */
  lemma ChallengeKeptExactly(cs: seq<Challenge>, x: Challenge, now: int, i: nat)
    requires i < |cs| && UniqueBy(cs + [x], ChallengeKey)
    ensures cs[i] in AppendChallenge(cs, x, now) <==>
              && (cs[i].usedAt.None? || now - cs[i].usedAt.value <= 300_000)
              && |Filter(cs[i + 1..], KeepChallenge(now))| <= 254
  {
    RetainedExactly(cs, KeepChallenge(now), x, MAX_CHALLENGES, i, ChallengeKey);
  }
}
