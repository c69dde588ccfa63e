/** Signature counters over whole runs: an assertion commits exactly when none that advanced the
    counter has committed since its caller read it. */
module AdminCounters {
  import opened Collections
  import opened AdminContracts
  import opened AdminTransactions
  import opened AdminCeremonies
  import opened AdminInvariants
  import opened AdminPreservation
  import opened AdminRuns
  import opened AdminHistory

  lemma OwnedCounter(cs: seq<Credential>, s: State, owner: string, id: Id)
    requires cs == s.credentials && UniqueBy(cs, CredentialKey) && OwnedCredential(s, owner, id).Some?
    ensures CounterOf(cs, id) == Some(OwnedCredential(s, owner, id).value.counter)
    ensures CredentialOf(s, id) == OwnedCredential(s, owner, id)
  {
    var mine, found := OwnedCredential(s, owner, id).value, CredentialOf(s, id);
    CounterLookup(cs, mine);
    UniqueMembers(cs, CredentialKey, mine, found.value);
  }

  lemma OwnedIs(s: State, c: Credential)
    requires UniqueBy(s.credentials, CredentialKey) && c in s.credentials
    ensures OwnedCredential(s, c.principalId, c.credentialId) == Some(c)
  {
    UniqueMembers(s.credentials, CredentialKey, c, OwnedCredential(s, c.principalId, c.credentialId).value);
  }

  lemma OwnedOnceSet(s: State, next: State, target: Id, n: nat, owner: string, id: Id)
    requires UniqueBy(s.credentials, CredentialKey) && UniqueBy(next.credentials, CredentialKey)
    requires next.credentials == SetCounter(s.credentials, target, n) && OwnedCredential(s, owner, id).Some?
    ensures
      var c := OwnedCredential(s, owner, id).value;
      OwnedCredential(next, owner, id) == Some(if target == id then c.(counter := n) else c)
  {
    var c := OwnedCredential(s, owner, id).value;
    var k :| 0 <= k < |s.credentials| && s.credentials[k] == c;
    assert next.credentials[k] in next.credentials;
    OwnedIs(next, next.credentials[k]);
  }

  lemma OwnedOnceAdded(s: State, next: State, c: Credential, owner: string, id: Id)
    requires UniqueBy(next.credentials, CredentialKey)
    requires next.credentials == s.credentials + [c] && OwnedCredential(s, owner, id).Some?
    ensures OwnedCredential(next, owner, id) == OwnedCredential(s, owner, id)
  {
    OwnedIs(next, OwnedCredential(s, owner, id).value);
  }

  /** What one step does to a credential: nothing, or one assertion from the counter it has. */
  ghost predicate Tracked(before: System, after: System, owner: string, id: Id)
    requires OwnedCredential(before.state, owner, id).Some?
  {
    var c, uses := OwnedCredential(before.state, owner, id).value, after.h.uses;
    if uses == before.h.uses then OwnedCredential(after.state, owner, id) == Some(c)
    else
      && |uses| == |before.h.uses| + 1 && before.h.uses <= uses
      && var u := uses[|before.h.uses|];
         if u.credentialId == id then
           && u.read == c.counter && CounterContract(u.read, u.wrote)
           && OwnedCredential(after.state, owner, id) == Some(c.(counter := u.wrote))
         else OwnedCredential(after.state, owner, id) == Some(c)
  }

  lemma AssertionUses(config: Config, sys: System, a: Action, next: State)
    requires ProposalOf(config, sys, a) == Proposed(next) && (a.FinishLogin? || a.FinishStepUp?)
    requires UniqueBy(sys.state.credentials, CredentialKey)
    ensures
      var read := sys.threads[a.caller].credential;
      && next.credentials == SetCounter(sys.state.credentials, read.credentialId, a.newCounter)
      && CounterOf(sys.state.credentials, read.credentialId) == Some(read.counter)
      && CounterContract(read.counter, a.newCounter)
      && Committed(config, sys, a, next).h.uses
         == sys.h.uses + [CounterUse(read.credentialId, read.counter, a.newCounter)]
  {
    hide FinishLoginTx, FinishStepUpTx, CounterOf, SetCounter, NewReceipt, UniqueBy, AppendEvent, AppendSession,
         AppendReceipt, CounterContract;
    match a {
      case FinishLogin(t, n, sessionId, token, eventId, now) =>
        var read := sys.threads[t].credential;
        LoginAccepted(sys.state, read, n, NewSession(config, read.principalId, sessionId, token, now),
                      SecurityEvent(eventId, AuthenticationSucceeded), now, next);
      case FinishStepUp(t, n, receiptId, token, eventId, now) =>
        var th := sys.threads[t];
        StepUpAccepted(sys.state, th.credential, n, th.session.sessionId,
                       NewReceipt(config, th.challenge, receiptId, token, now),
                       SecurityEvent(eventId, StepUpSucceeded), now, next);
    }
  }

  lemma OthersUseNothing(config: Config, sys: System, a: Action, next: State)
    requires ProposalOf(config, sys, a) == Proposed(next) && !a.FinishLogin? && !a.FinishStepUp?
    ensures Committed(config, sys, a, next).h.uses == sys.h.uses
  {
    hide ConsumeReceiptTx, PerformProposal, FirstRevocation, RevokedTogether;
  }

  lemma AssertionTracks(config: Config, sys: System, a: Action, next: State, owner: string, id: Id)
    requires ProposalOf(config, sys, a) == Proposed(next) && (a.FinishLogin? || a.FinishStepUp?)
    requires ValidState(sys.state) && ValidState(next) && OwnedCredential(sys.state, owner, id).Some?
    ensures Tracked(sys, Committed(config, sys, a, next), owner, id)
  {
    CommittedState(config, sys, a, next);
    OwnedCounter(sys.state.credentials, sys.state, owner, id);
    AssertionUses(config, sys, a, next);
    OwnedOnceSet(sys.state, next, sys.threads[a.caller].credential.credentialId, a.newCounter, owner, id);
    hide ProposalOf, Committed, CounterContract, OwnedCredential, SetCounter, CounterOf;
  }

  lemma CommitTracks(config: Config, sys: System, a: Action, next: State, owner: string, id: Id)
    requires ProposalOf(config, sys, a) == Proposed(next) && ValidState(sys.state) && ValidState(next)
    requires OwnedCredential(sys.state, owner, id).Some?
    ensures Tracked(sys, Committed(config, sys, a, next), owner, id)
  {
    hide ProposalOf, Committed, OwnedCredential, CounterContract;
    CommittedState(config, sys, a, next);
    if a.FinishLogin? || a.FinishStepUp? {
      AssertionTracks(config, sys, a, next, owner, id);
    } else if a.FinishRegistration? {
      OthersUseNothing(config, sys, a, next);
      RegistrationAddsCredential(config, sys, a, next);
      OwnedOnceAdded(sys.state, next, Credential(a.credentialId, FOUNDER_PRINCIPAL_ID, a.counter), owner, id);
    } else {
      OthersUseNothing(config, sys, a, next);
      OthersLeaveCredentials(config, sys, a, next);
      OwnedIfSame(sys.state, next, owner, id);
    }
  }

  lemma OwnedIfSame(s: State, next: State, owner: string, id: Id)
    requires next.credentials == s.credentials
    ensures OwnedCredential(next, owner, id) == OwnedCredential(s, owner, id)
  {
  }

  lemma StepTracks(config: Config, sys: System, a: Action, owner: string, id: Id)
    requires Inv(sys) && OwnedCredential(sys.state, owner, id).Some?
    ensures Tracked(sys, Step(config, sys, a), owner, id)
  {
    hide RecordsOk, CallersOk, OwnedCredential, ProposalOf, Committed, Local, Failed, Mints, Fresh, WithinBounds,
         KeysUnique, MintedOk, FounderOk, CountersOk, ActsOk, CounterContract;
    var drawn := Drawn(sys, Mints(a));
    IdleGrows(config, drawn, a);
    match ProposalOf(config, drawn, a) {
      case Proposed(next) =>
        if ValidState(next) {
          CommitTracks(config, drawn, a, next, owner, id);
        }
      case _ =>
    }
  }

  /** Among the assertions committed between `p` and `q`, one of this credential that left its counter
      above zero. */
  ghost predicate Advanced(run: seq<System>, p: nat, q: nat, id: Id)
    requires p <= q < |run|
  {
    exists k :: |run[p].h.uses| <= k < |run[q].h.uses| && run[q].h.uses[k].credentialId == id
                && run[q].h.uses[k].wrote > 0
  }

  lemma AdvancedOneMore(run: seq<System>, p: nat, q: nat, owner: string, id: Id)
    requires p <= q && q + 1 < |run| && |run[p].h.uses| <= |run[q].h.uses|
    requires OwnedCredential(run[q].state, owner, id).Some? && Tracked(run[q], run[q + 1], owner, id)
    ensures
      var uses, n := run[q + 1].h.uses, |run[q].h.uses|;
      Advanced(run, p, q + 1, id)
      <==> Advanced(run, p, q, id) || (uses != run[q].h.uses && uses[n].credentialId == id && uses[n].wrote > 0)
  {
    var before, uses := run[q].h.uses, run[q + 1].h.uses;
    hide OwnedCredential, CounterContract;
    assert forall k :: 0 <= k < |before| ==> uses[k] == before[k];
  }

  /** A stored counter is what it was exactly when no assertion advanced it in between. */
  lemma {:induction false} CounterStandsExactly(
      config: Config, run: seq<System>, p: nat, q: nat, owner: string, id: Id)
    requires IsRun(config, run) && p <= q < |run| && OwnedCredential(run[p].state, owner, id).Some?
    ensures OwnedCredential(run[q].state, owner, id).Some?
    ensures
      var before := OwnedCredential(run[p].state, owner, id).value;
      var after := OwnedCredential(run[q].state, owner, id).value;
      && before.counter <= after.counter
      && (after == before <==> !Advanced(run, p, q, id))
    decreases q
  {
    hide IsRun, Inv, Step, OwnedCredential, Grows;
    if p < q {
      CounterStandsExactly(config, run, p, q - 1, owner, id);
      RunKeepsInv(config, run, q - 1);
      var a := StepOfRun(config, run, q - 1);
      StepTracks(config, run[q - 1], a, owner, id);
      UsesGrow(config, run, p, q - 1);
      AdvancedOneMore(run, p, q - 1, owner, id);
      hide Advanced;
    }
  }

  lemma UsesGrow(config: Config, run: seq<System>, p: nat, q: nat)
    requires IsRun(config, run) && p <= q < |run|
    ensures |run[p].h.uses| <= |run[q].h.uses|
  {
    hide IsRun, Extends;
    RunGrows(config, run, p, q);
  }

  /** Over every run: a login whose caller read the credential at `p` commits at `q` exactly when no
      assertion advanced that counter in between and the principal is still active. */
  lemma LoginCommitsExactly(
      config: Config, run: seq<System>, p: nat, q: nat, read: Credential, newCounter: nat, session: Session,
      event: SecurityEvent, now: int)
    requires IsRun(config, run) && p <= q < |run|
    requires OwnedCredential(run[p].state, read.principalId, read.credentialId) == Some(read)
    ensures FinishLoginTx(run[q].state, read, newCounter, session, event, now).Accept?
            <==> !Advanced(run, p, q, read.credentialId) && ActivePrincipal(run[q].state, session.principalId).Some?
  {
    CounterStandsExactly(config, run, p, q, read.principalId, read.credentialId);
    OwnedKeepsName(run[q].state, read.principalId, read.credentialId);
    hide IsRun, OwnedCredential, Advanced, ActivePrincipal;
  }

  lemma OwnedKeepsName(s: State, owner: string, id: Id)
    ensures
      var found := OwnedCredential(s, owner, id);
      found.Some? ==> found.value.principalId == owner && found.value.credentialId == id
  {
  }

  /** The same for a step-up, with its session instead of the principal. */
  lemma StepUpCommitsExactly(
      config: Config, run: seq<System>, p: nat, q: nat, read: Credential, newCounter: nat, sessionId: Id,
      receipt: Receipt, event: SecurityEvent, now: int)
    requires IsRun(config, run) && p <= q < |run|
    requires OwnedCredential(run[p].state, read.principalId, read.credentialId) == Some(read)
    ensures FinishStepUpTx(run[q].state, read, newCounter, sessionId, receipt, event, now).Accept?
            <==> !Advanced(run, p, q, read.credentialId) && IsActiveSession(SessionById(run[q].state, sessionId), now)
  {
    CounterStandsExactly(config, run, p, q, read.principalId, read.credentialId);
    OwnedKeepsName(run[q].state, read.principalId, read.credentialId);
    KeysOfRun(config, run, q);
    OwnedCounter(run[q].state.credentials, run[q].state, read.principalId, read.credentialId);
    hide IsRun, OwnedCredential, CredentialOf, Advanced, SessionById, UniqueBy;
  }

  lemma KeysOfRun(config: Config, run: seq<System>, q: nat)
    requires IsRun(config, run) && q < |run|
    ensures UniqueBy(run[q].state.credentials, CredentialKey)
  {
    RunKeepsInv(config, run, q);
    hide IsRun, RecordsOk, CallersOk, MintedOk, FounderOk, CountersOk, ActsOk;
  }
}
