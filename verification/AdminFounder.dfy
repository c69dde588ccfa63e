/** The steps that led to the founder: from the bootstrap secret to the registration that used it up,
    each in time. */
module AdminFounder {
  import opened Collections
  import opened AdminContracts
  import opened AdminTransactions
  import opened CommandStrings
  import opened AdminCeremonies
  import opened AdminInvariants
  import opened AdminPreservation
  import opened AdminRuns
  import opened AdminHistory
  import opened AdminIdentities
  import opened AdminTrails
  import AdminAudit
  import AdminTheorems

  /** `a` creates the secret, good for `bootstrapMs` from now. */
  predicate Creates(config: Config, a: Action, token: Hash, expiresAt: int) {
    a.CreateBootstrap? && a.token == token && expiresAt == a.now + config.bootstrapMs
  }

  ghost predicate CreatedAt(config: Config, run: seq<System>, k: nat, token: Hash, expiresAt: int) {
    exists a :: Took(config, run, k, a) && Creates(config, a, token, expiresAt)
                && token !in run[k].h.minted && token in run[k + 1].h.minted
  }

  /** The caller of `a` holds the consumed registration challenge `c` while the secret it was shown is
      still good, nobody has used it, and there is nobody else. */
  predicate Registers(sys: System, a: Action, c: Challenge, expiresAt: int) {
    && a.FinishRegistration? && a.caller in sys.threads && sys.threads[a.caller] == HoldingRegistration(c)
    && sys.state.bootstrap.Some? && sys.state.bootstrap.value.consumedAt.None?
    && c.bootstrapTokenHash == Some(sys.state.bootstrap.value.tokenHash)
    && sys.state.bootstrap.value.expiresAt == expiresAt && a.now < expiresAt
    && sys.state.principals == []
  }

  ghost predicate RegisteredAt(config: Config, run: seq<System>, k: nat, c: Challenge, expiresAt: int) {
    exists a :: Took(config, run, k, a) && Registers(run[k], a, c, expiresAt)
  }

  /** A new secret is accepted exactly when there is no founder and none is waiting, used or not. */
  lemma CreateBootstrapExactly(s: State, b: Bootstrap, event: SecurityEvent, now: int)
    ensures CreateBootstrapTx(s, b, event, now).Accept? <==>
              && (forall p :: p in s.principals ==> p.principalId != "founder")
              && (s.bootstrap.Some? ==> s.bootstrap.value.consumedAt.None? && s.bootstrap.value.expiresAt <= now)
    ensures CreateBootstrapTx(s, b, event, now).Accept? ==>
              CreateBootstrapTx(s, b, event, now).next.bootstrap == Some(b)
  {
    hide AppendEvent;
  }

  /** What a secret says after one step: what it said, unless it was created or used up there. */
  lemma CommitBootstrap(config: Config, sys: System, a: Action, next: State)
    requires ProposalOf(config, sys, a) == Proposed(next) && next.bootstrap.Some?
    ensures
      var after := next.bootstrap.value;
      || (a.CreateBootstrap? && Creates(config, a, after.tokenHash, after.expiresAt))
      || (&& sys.state.bootstrap.Some? && sys.state.bootstrap.value.tokenHash == after.tokenHash
          && sys.state.bootstrap.value.expiresAt == after.expiresAt)
  {
    hide PerformProposal, AppendEvent, AppendChallenge, AppendSession, AppendReceipt, SetCounter, MarkUsed, HasFounder;
    if a.Perform? {
      AdminTheorems.PerformLeavesBootstrap(
        config, sys.state, sys.threads[a.caller].goal, sys.threads[a.caller].who, a, next);
    }
  }

  lemma {:induction false} BootstrapWasCreated(config: Config, run: seq<System>, i: nat) returns (k: nat)
    requires IsRun(config, run) && i < |run| && run[i].state.bootstrap.Some?
    ensures k < i
    ensures CreatedAt(config, run, k, run[i].state.bootstrap.value.tokenHash, run[i].state.bootstrap.value.expiresAt)
  {
    hide IsRun, Step, ProposalOf, Committed, Mints, ValidState;
    StartIsBlank(config, run);
    k := i - 1;
    var a := StepOfRun(config, run, k);
    var next := CommitsOrNot(config, run[k], a);
    assert Took(config, run, k, a);
    if next.Some? {
      CommittedState(config, Drawn(run[k], Mints(a)), a, next.value);
      CommitBootstrap(config, Drawn(run[k], Mints(a)), a, next.value);
      var after := next.value.bootstrap.value;
      if a.CreateBootstrap? && Creates(config, a, after.tokenHash, after.expiresAt) {
        TokenIsDrawn(config, run[k], a, next.value);
      } else {
        k := BootstrapWasCreated(config, run, i - 1);
      }
    } else {
      k := BootstrapWasCreated(config, run, i - 1);
    }
  }

  lemma TokenIsDrawn(config: Config, sys: System, a: Action, next: State)
    requires a.CreateBootstrap? && Fresh(sys.h.minted, Mints(a))
    requires ProposalOf(config, Drawn(sys, Mints(a)), a) == Proposed(next)
    ensures a.token !in sys.h.minted && a.token in Committed(config, Drawn(sys, Mints(a)), a, next).h.minted
  {
    assert Mints(a)[0] == a.token;
    AdminAudit.FreshIsDrawn(sys, Mints(a), a.token);
  }

  lemma {:induction false} MintedStays(config: Config, run: seq<System>, i: nat, j: nat)
    requires IsRun(config, run) && i <= j < |run|
    ensures run[i].h.minted <= run[j].h.minted
    decreases j
  {
    hide IsRun, Step;
    if i < j {
      MintedStays(config, run, i, j - 1);
      var a := StepOfRun(config, run, j - 1);
      AdminAudit.MintedGrows(config, run[j - 1], a);
    }
  }

  lemma CommitRegisters(config: Config, sys: System, a: Action, next: State)
    requires Inv(sys) && ProposalOf(config, sys, a) == Proposed(next)
    requires Committed(config, sys, a, next).h.founders != sys.h.founders
    ensures
      && a.FinishRegistration? && a.caller in sys.threads && sys.threads[a.caller].HoldingRegistration?
      && sys.state.bootstrap.Some?
      && var c := sys.threads[a.caller].challenge;
         && Registers(sys, a, c, sys.state.bootstrap.value.expiresAt)
         && c.kind.Registration? && c.flowId in sys.h.used && c.flowId in sys.h.challenges
         && sys.h.challenges[c.flowId] == c
  {
    hide RecordsOk, FlowsHeldOnce, ReceiptsHeldOnce, ValidState, CountersOk, ActsOk, MintedOk, FinishLoginTx,
         FinishStepUpTx, ConsumeChallengeTx, PerformProposal, ConsumeReceiptTx, AppendEvent, FirstRevocation,
         RevokedTogether, Command, RequestCapability;
    if a.FinishRegistration? {
      assert ThreadOk(sys.threads[a.caller], sys.h, sys.state.principals != []);
    }
  }

  /** The secret a step is shown is the one that was created: no other ever had its token. */
  lemma OneSecretPerToken(
      config: Config, run: seq<System>, j: nat, k: nat, token: Hash, first: int, second: int)
    requires IsRun(config, run) && CreatedAt(config, run, j, token, first) && CreatedAt(config, run, k, token, second)
    ensures j == k
  {
    hide IsRun, Step, Creates;
    if j < k {
      MintedStays(config, run, j + 1, k);
    } else if k < j {
      MintedStays(config, run, k + 1, j);
    }
  }

  lemma {:induction false} FounderWasRegistered(config: Config, run: seq<System>, i: nat)
      returns (k: nat, c: Challenge, expiresAt: int)
    requires IsRun(config, run) && i < |run| && run[i].h.founders != []
    ensures k < i && RegisteredAt(config, run, k, c, expiresAt)
    ensures c.kind.Registration? && c.flowId in run[k].h.used
    ensures c.flowId in run[k].h.challenges && run[k].h.challenges[c.flowId] == c
    ensures run[k].state.bootstrap.Some? && c.bootstrapTokenHash == Some(run[k].state.bootstrap.value.tokenHash)
    ensures run[k].state.bootstrap.value.expiresAt == expiresAt
  {
    hide IsRun, Step, Inv, Grows, Unseen, ProposalOf, Committed, Mints, ValidState;
    StartHasNoFounder(config, run);
    if run[i - 1].h.founders != [] {
      k, c, expiresAt := FounderWasRegistered(config, run, i - 1);
    } else {
      k := i - 1;
      RunKeepsInv(config, run, k);
      var a := StepOfRun(config, run, k);
      var next := CommitsOrNot(config, run[k], a);
      DrawingKeepsInv(run[k], Mints(a));
      CommitRegisters(config, Drawn(run[k], Mints(a)), a, next.value);
      c := run[k].threads[a.caller].challenge;
      expiresAt := run[k].state.bootstrap.value.expiresAt;
      assert Took(config, run, k, a) && Registers(run[k], a, c, expiresAt);
    }
  }

  lemma StartHasNoFounder(config: Config, run: seq<System>)
    requires IsRun(config, run)
    ensures run[0].h.founders == []
  {
  }

  /** Over every run, a founder was led to by these steps, in this order: the secret was created; whoever
      showed it while it was good was offered a challenge, consumed it from the same source within
      `challengeMs`, and registered before `bootstrapMs` had passed since the secret was created. */
  lemma FounderWasLedTo(config: Config, run: seq<System>, i: nat)
      returns (c: Challenge, expiresAt: int, create: nat, offer: nat, consume: nat, register: nat)
    requires IsRun(config, run) && i < |run| && run[i].h.founders != []
    ensures create < offer < consume < register < i
    ensures c.kind.Registration? && c.bootstrapTokenHash.Some?
    ensures CreatedAt(config, run, create, c.bootstrapTokenHash.value, expiresAt)
    ensures OfferedAt(config, run, offer, c) && ConsumedAt(config, run, consume, c)
    ensures RegisteredAt(config, run, register, c, expiresAt)
  {
    hide IsRun, Inv, Step, OfferedAt, ConsumedAt, RegisteredAt, Grows, CreatedAt;
    register, c, expiresAt := FounderWasRegistered(config, run, i);
    create := BootstrapWasCreated(config, run, register);
    consume := ChallengeWasConsumed(config, run, register, c.flowId);
    SameEntries(config, run, consume, register);
    offer := ChallengeWasOffered(config, run, consume, c.flowId);
    var expiry := OfferSawSecret(config, run, offer, c);
    var earlier := BootstrapWasCreated(config, run, offer);
    OneSecretPerToken(config, run, create, earlier, c.bootstrapTokenHash.value, expiresAt, expiry);
  }

  lemma OfferSawSecret(config: Config, run: seq<System>, k: nat, c: Challenge) returns (expiry: int)
    requires OfferedAt(config, run, k, c) && c.kind.Registration?
    ensures k < |run| && run[k].state.bootstrap.Some?
    ensures c.bootstrapTokenHash == Some(run[k].state.bootstrap.value.tokenHash)
    ensures expiry == run[k].state.bootstrap.value.expiresAt
  {
    hide Step;
    var a :| Took(config, run, k, a) && Offers(config, run[k], a, c);
    expiry := run[k].state.bootstrap.value.expiresAt;
  }
}
