/** A run of the ceremony machine in which a session is revoked between its owner's last look at it
    and the commit that spends its receipt. */
module AdminWitness {
  import opened Collections
  import opened AdminContracts
  import opened AdminTransactions
  import opened CommandStrings
  import opened AdminCeremonies
  import opened AdminInvariants
  import opened AdminPreservation
  import opened AdminRuns
  import opened AdminHistory
  import opened AdminStateClauses
  import opened AdminSchedules

  /** A reachable state, its audit trail aside; every value drawn so far is below `n`. */
  ghost predicate Shows(sys: System, s: State, threads: map<nat, Thread>, n: nat) {
    && Inv(sys) && sys.threads == threads && sys.state == s.(events := sys.state.events)
    && forall id :: id in sys.h.minted ==> id < n
  }

  lemma RetainsAll<T(!new)>(s: seq<T>, keep: T -> bool, x: T, n: nat)
    requires (forall y :: y in s ==> keep(y)) && |s| < n
    ensures Retain(s, keep, x, n) == s + [x]
  {
    FiltersNothing(s, keep);
  }

  lemma {:induction false} FiltersNothing<T(!new)>(s: seq<T>, keep: T -> bool)
    requires forall y :: y in s ==> keep(y)
    ensures Filter(s, keep) == s
  {
    if s != [] {
      FiltersNothing(s[1..], keep);
    }
  }

  lemma AllFresh(minted: set<nat>, ids: seq<Id>, n: nat, m: nat)
    requires (forall id :: id in minted ==> id < n) && n <= m
    requires forall i :: 0 <= i < |ids| ==> n <= ids[i] < m
    requires forall i, j :: 0 <= i < j < |ids| ==> ids[i] != ids[j]
    ensures Fresh(minted, ids) && forall id :: id in Minted(minted, ids) ==> id < m
  {
  }

  /** One more committed mutation. */
  lemma Commits(
      config: Config, sys: System, a: Action, s: State, threads: map<nat, Thread>, n: nat, next: State, m: nat)
    requires Shows(sys, s, threads, n) && |next.principals| <= 1 && next.rateLimits == [] && n <= m
    requires forall i :: 0 <= i < |Mints(a)| ==> n <= Mints(a)[i] < m
    requires forall i, j :: 0 <= i < j < |Mints(a)| ==> Mints(a)[i] != Mints(a)[j]
    requires ProposalOf(config, Drawn(sys, Mints(a)), a) == Proposed(next)
    ensures
      var after := Step(config, sys, a);
      && after == Committed(config, Drawn(sys, Mints(a)), a, next)
      && Shows(after, next, after.threads, m)
  {
    hide Inv, ProposalOf, Committed, Mints, Step;
    AllFresh(sys.h.minted, Mints(a), n, m);
    ProposalIsStored(config, sys, a, next);
    CommitDrawsNothing(config, Drawn(sys, Mints(a)), a, next);
    CommittedState(config, Drawn(sys, Mints(a)), a, next);
  }

  /** One more local step. */
  lemma Computes(config: Config, sys: System, a: Action, s: State, threads: map<nat, Thread>, n: nat, m: nat)
    requires Shows(sys, s, threads, n) && n <= m
    requires forall i :: 0 <= i < |Mints(a)| ==> n <= Mints(a)[i] < m
    requires forall i, j :: 0 <= i < j < |Mints(a)| ==> Mints(a)[i] != Mints(a)[j]
    requires ProposalOf(config, Drawn(sys, Mints(a)), a).NoMutation?
    ensures
      var after := Step(config, sys, a);
      && after == Local(config, Drawn(sys, Mints(a)), a)
      && Shows(after, s, after.threads, m)
  {
    hide Inv, ProposalOf, Local, Mints, Step;
    AllFresh(sys.h.minted, Mints(a), n, m);
    LocalStep(config, sys, a);
    StepKeepsInv(config, sys, a);
    IdleGrows(config, Drawn(sys, Mints(a)), a);
  }

  // ------------------------------------------------------------------- the founder registers

  const FOUNDER: Principal := Human(FOUNDER_PRINCIPAL_ID, [Founder], {}, true)
  const CREDENTIAL: Credential := Credential(0, FOUNDER_PRINCIPAL_ID, 0)

  function Secret(config: Config): Bootstrap { Bootstrap(1, config.bootstrapMs, None) }
  function Entry(config: Config): Challenge { RegistrationChallenge(config, 1, 3, 0, 0) }

  function Invited(config: Config): State {
    EMPTY_STATE.(bootstrap := Some(Secret(config)))
  }

  lemma Inviting(config: Config, sys: System)
    requires Shows(sys, EMPTY_STATE, map[], 0)
    ensures Shows(Step(config, sys, CreateBootstrap(1, 2, 0)), Invited(config), map[], 3)
  {
    hide Inv, Step;
    var a := CreateBootstrap(1, 2, 0);
    assert Mints(a) == [1, 2];
    var next := Invited(config).(events := AppendEvent(sys.state.events, SecurityEvent(2, BootstrapCreated)));
    hide AppendEvent;
    Commits(config, sys, a, EMPTY_STATE, map[], 0, next, 3);
  }

  function Entering(config: Config): State {
    Invited(config).(challenges := [Entry(config)])
  }

  lemma Enters(config: Config, sys: System)
    requires Shows(sys, Invited(config), map[], 3)
    ensures Shows(Step(config, sys, BeginRegistration(1, 3, 0, 0)), Entering(config), map[], 4)
  {
    hide Inv, Step;
    var a := BeginRegistration(1, 3, 0, 0);
    assert Mints(a) == [3];
    var next := Entering(config).(events := sys.state.events);
    RetainsAll([], KeepChallenge(0), Entry(config), MAX_CHALLENGES);
    Commits(config, sys, a, Invited(config), map[], 3, next, 4);
  }

  function Spent(c: Challenge): Challenge { c.(usedAt := Some(0)) }

  function Registering(config: Config): State {
    Invited(config).(challenges := [Spent(Entry(config))])
  }

  lemma Consumes(config: Config, sys: System, s: State, c: Challenge, next: State, n: nat, th: Thread)
    requires Shows(sys, s, map[], n) && |s.principals| <= 1 && s.rateLimits == []
    requires c in s.challenges && c.usedAt.None? && c.expiresAt > 0 && c.sourceKey == 0
    requires next == s.(challenges := MarkUsed(s.challenges, c.flowId, 0))
    requires AfterConsume(c, 8) == Some(th)
    ensures Shows(Step(config, sys, ConsumeChallenge(0, c.flowId, c.kind, 0, 8, 0)), next, map[0 := th], n)
  {
    hide Inv, Step, MarkUsed, AfterConsume;
    var a := ConsumeChallenge(0, c.flowId, c.kind, 0, 8, 0);
    assert Mints(a) == [];
    assert UniqueBy(sys.state.challenges, ChallengeKey) by { ChallengesAreUnique(sys); }
    FoundAgain(sys.state, c);
    var stored := next.(events := sys.state.events);
    Commits(config, sys, a, s, map[], n, stored, n);
  }

  lemma ChallengesAreUnique(sys: System)
    requires Inv(sys)
    ensures UniqueBy(sys.state.challenges, ChallengeKey)
  {
  }

  lemma FoundAgain(s: State, c: Challenge)
    requires c in s.challenges && UniqueBy(s.challenges, ChallengeKey)
    ensures Find(s.challenges, (x: Challenge) => x.flowId == c.flowId && x.kind == c.kind) == Some(c)
  {
    var found := Find(s.challenges, (x: Challenge) => x.flowId == c.flowId && x.kind == c.kind);
    UniqueMembers(s.challenges, ChallengeKey, c, found.value);
  }

  function Founded(config: Config): State {
    Registering(config).(
      bootstrap := Some(Secret(config).(consumedAt := Some(0))), credentials := [CREDENTIAL], principals := [FOUNDER])
  }

  lemma Registers(config: Config, sys: System)
    requires Shows(sys, Registering(config), map[0 := HoldingRegistration(Entry(config))], 4)
    ensures Shows(Step(config, sys, FinishRegistration(0, 0, 0, 4, 0)), Founded(config), map[], 5)
  {
    hide Inv, Step, AppendEvent;
    var a := FinishRegistration(0, 0, 0, 4, 0);
    assert Mints(a) == [4];
    var next := Founded(config).(events := AppendEvent(sys.state.events, SecurityEvent(4, FounderRegistered)));
    assert CredentialOf(sys.state, 0).None?;
    Commits(config, sys, a, Registering(config), map[0 := HoldingRegistration(Entry(config))], 4, next, 5);
  }

  // ------------------------------------------------------------------- the founder logs in

  function Door(config: Config): Challenge { LoginChallenge(config, FOUNDER_PRINCIPAL_ID, 5, 0, 0) }
  function Visit(config: Config): Session { NewSession(config, FOUNDER_PRINCIPAL_ID, 7, 8, 0) }

  lemma AsksIn(config: Config, sys: System)
    requires Shows(sys, Founded(config), map[], 5)
    ensures Shows(Step(config, sys, BeginLogin(0)), Founded(config), map[0 := OfferingLogin(FOUNDER_PRINCIPAL_ID)], 5)
  {
    hide Inv, Step;
    var a := BeginLogin(0);
    assert Mints(a) == [];
    assert ActivePrincipal(sys.state, FOUNDER_PRINCIPAL_ID) == Some(FOUNDER);
    assert CREDENTIAL in sys.state.credentials;
    Computes(config, sys, a, Founded(config), map[], 5, 5);
  }

  function Knocking(config: Config): State {
    Founded(config).(challenges := [Spent(Entry(config)), Door(config)])
  }

  lemma Knocks(config: Config, sys: System)
    requires Shows(sys, Founded(config), map[0 := OfferingLogin(FOUNDER_PRINCIPAL_ID)], 5)
    ensures Shows(Step(config, sys, OfferLogin(0, 5, 0, 6, 0)), Knocking(config), map[], 7)
  {
    hide Inv, Step, AppendEvent;
    var a := OfferLogin(0, 5, 0, 6, 0);
    assert Mints(a) == [5, 6];
    var next := Knocking(config).(
      events := AppendEvent(sys.state.events, SecurityEvent(6, AuthenticationChallengeCreated)));
    RetainsAll([Spent(Entry(config))], KeepChallenge(0), Door(config), MAX_CHALLENGES);
    assert [Spent(Entry(config))] + [Door(config)] == next.challenges;
    Commits(config, sys, a, Founded(config), map[0 := OfferingLogin(FOUNDER_PRINCIPAL_ID)], 5, next, 7);
  }

  function Admitting(config: Config): State {
    Founded(config).(challenges := [Spent(Entry(config)), Spent(Door(config))])
  }

  lemma ShowsCredential(config: Config, sys: System, s: State, th: Thread, next: Thread, n: nat)
    requires Shows(sys, s, map[0 := th], n) && s.principals == [FOUNDER] && s.credentials == [CREDENTIAL]
    requires CredentialRead(s, th, 0) == Some(next)
    ensures Shows(Step(config, sys, ReadCredential(0, 0)), s, map[0 := next], n)
  {
    hide Inv, Step;
    var a := ReadCredential(0, 0);
    assert Mints(a) == [];
    assert CredentialRead(sys.state, th, 0) == CredentialRead(s, th, 0);
    hide CredentialRead;
    Computes(config, sys, a, s, map[0 := th], n, n);
  }

  function Inside(config: Config): State {
    Admitting(config).(sessions := [Visit(config)])
  }

  lemma ComesIn(config: Config, sys: System)
    requires Shows(sys, Admitting(config), map[0 := VerifyingLogin(Door(config), CREDENTIAL)], 7)
    ensures Shows(Step(config, sys, FinishLogin(0, 0, 7, 8, 9, 0)), Inside(config), map[], 10)
  {
    hide Inv, Step, AppendEvent, LoginChallenge;
    var a := FinishLogin(0, 0, 7, 8, 9, 0);
    assert Mints(a) == [7, 8, 9];
    var next := Inside(config).(events := AppendEvent(sys.state.events, SecurityEvent(9, AuthenticationSucceeded)));
    RetainsAll([], KeepSession(0), Visit(config), MAX_SESSIONS);
    assert SetCounter([CREDENTIAL], 0, 0) == [CREDENTIAL];
    assert OwnedCredential(sys.state, FOUNDER_PRINCIPAL_ID, 0) == Some(CREDENTIAL);
    assert ActivePrincipal(sys.state, FOUNDER_PRINCIPAL_ID) == Some(FOUNDER);
    Commits(config, sys, a, Admitting(config), map[0 := VerifyingLogin(Door(config), CREDENTIAL)], 7, next, 10);
  }

  // ------------------------------------------------------------------- the founder steps up

  const REQUEST: Request := KillSwitch("s", true, 0, 15)
  const WISH: Goal := OfferStepUp(AdminKillSwitchControl, Command(REQUEST), 0)

  function Me(config: Config): Identity { Identity(FOUNDER, Visit(config)) }

  function Proof(config: Config): Challenge { StepUpChallenge(config, WISH, Me(config), 10, 0, 0) }

  lemma CommandsAreSafe()
    ensures SafeIdentifier(Command(REQUEST)) && Presentable(REQUEST)
  {
    PresentableExactly(REQUEST);
  }

  lemma Presents(config: Config, sys: System, s: State, goal: Goal, n: nat)
    requires Shows(sys, s, map[], n) && ClientGoal(goal)
    ensures Shows(Step(config, sys, Present(0, goal, 8)), s, map[0 := Authenticating(goal, 8)], n)
  {
    hide Inv, Step, ClientGoal;
    var a := Present(0, goal, 8);
    assert Mints(a) == [];
    Computes(config, sys, a, s, map[], n, n);
  }

  lemma FounderMayRead(config: Config, s: State)
    requires s.sessions == [Visit(config)] && s.principals == [FOUNDER]
    ensures ReadSession(s, 8, Some(AdminKillSwitchControl), 0) == Some(Me(config))
  {
    assert SessionByToken(s, 8) == Some(Visit(config));
    assert ActivePrincipal(s, FOUNDER_PRINCIPAL_ID) == Some(FOUNDER);
    assert Founder in FOUNDER.roles && AdminKillSwitchControl in RoleCapabilities(Founder);
  }

  lemma Looks(config: Config, sys: System, s: State, goal: Goal, n: nat)
    requires Shows(sys, s, map[0 := Authenticating(goal, 8)], n)
    requires s.sessions == [Visit(config)] && s.principals == [FOUNDER]
    requires GoalCapability(goal) == Some(AdminKillSwitchControl)
    ensures Shows(Step(config, sys, ReadSessionState(0, 0)), s, map[0 := Authorized(goal, 8, Me(config))], n)
  {
    hide Inv, Step, ReadSession, GoalCapability;
    var a := ReadSessionState(0, 0);
    assert Mints(a) == [];
    FounderMayRead(config, sys.state);
    Computes(config, sys, a, s, map[0 := Authenticating(goal, 8)], n, n);
  }

  function Challenged(config: Config): State {
    Inside(config).(challenges := [Spent(Entry(config)), Spent(Door(config)), Proof(config)])
  }

  lemma IsChallenged(config: Config, sys: System)
    requires Shows(sys, Inside(config), map[0 := Authorized(WISH, 8, Me(config))], 10)
    ensures Shows(Step(config, sys, Perform(0, 10, 11, 0, 0)), Challenged(config), map[], 12)
  {
    hide Inv, Step, AppendEvent, Command;
    var a := Perform(0, 10, 11, 0, 0);
    assert Mints(a) == [10, 11];
    var before := [Spent(Entry(config)), Spent(Door(config))];
    var next := Challenged(config).(events := AppendEvent(sys.state.events, SecurityEvent(11, StepUpChallengeCreated)));
    RetainsAll(before, KeepChallenge(0), Proof(config), MAX_CHALLENGES);
    assert before + [Proof(config)] == next.challenges;
    Commits(config, sys, a, Inside(config), map[0 := Authorized(WISH, 8, Me(config))], 10, next, 12);
  }

  function Proven(config: Config): State {
    Inside(config).(challenges := [Spent(Entry(config)), Spent(Door(config)), Spent(Proof(config))])
  }

  lemma Binds(config: Config, sys: System)
    requires Shows(sys, Proven(config), map[0 := Authorized(Redeem(Proof(config)), 8, Me(config))], 12)
    ensures Shows(Step(config, sys, Perform(0, 12, 13, 0, 0)), Proven(config),
                  map[0 := BoundStepUp(Proof(config), Visit(config))], 14)
  {
    hide Inv, Step, Command;
    var a := Perform(0, 12, 13, 0, 0);
    assert Mints(a) == [12, 13];
    Computes(config, sys, a, Proven(config), map[0 := Authorized(Redeem(Proof(config)), 8, Me(config))], 12, 14);
  }

  function Permit(config: Config): Receipt { NewReceipt(config, Proof(config), 14, 15, 0) }

  function Permitted(config: Config): State {
    Proven(config).(receipts := [Permit(config)])
  }

  lemma EarnsPermit(config: Config, sys: System)
    requires Shows(sys, Proven(config), map[0 := VerifyingStepUp(Proof(config), Visit(config), CREDENTIAL)], 14)
    ensures Shows(Step(config, sys, FinishStepUp(0, 0, 14, 15, 16, 0)), Permitted(config), map[], 17)
  {
    hide Inv, Step, AppendEvent, Command;
    var a := FinishStepUp(0, 0, 14, 15, 16, 0);
    assert Mints(a) == [14, 15, 16];
    var next := Permitted(config).(events := AppendEvent(sys.state.events, SecurityEvent(16, StepUpSucceeded)));
    RetainsAll([], KeepReceipt(0), Permit(config), MAX_STEP_UP_RECEIPTS);
    assert SetCounter([CREDENTIAL], 0, 0) == [CREDENTIAL];
    assert CredentialOf(sys.state, 0) == Some(CREDENTIAL);
    assert SessionById(sys.state, 7) == Some(Visit(config));
    Commits(config, sys, a, Proven(config),
            map[0 := VerifyingStepUp(Proof(config), Visit(config), CREDENTIAL)], 14, next, 17);
  }

  function Closed(config: Config): State {
    Permitted(config).(sessions := [Visit(config).(revokedAt := Some(0))])
  }

  lemma LogsOut(config: Config, sys: System, th: Thread)
    requires Shows(sys, Permitted(config), map[0 := th], 17)
    ensures Shows(Step(config, sys, Logout(8, 17, 0)), Closed(config), map[0 := th], 18)
  {
    hide Inv, Step, AppendEvent, Command, StepUpChallenge, NewReceipt;
    var a := Logout(8, 17, 0);
    assert Mints(a) == [17];
    var next := Closed(config).(events := AppendEvent(sys.state.events, SecurityEvent(17, SessionRevoked)));
    assert SessionByToken(sys.state, 8) == Some(Visit(config));
    Commits(config, sys, a, Permitted(config), map[0 := th], 17, next, 18);
  }

  // ------------------------------------------------------------------- the whole run

  const SCRIPT: seq<Action> := [
    CreateBootstrap(1, 2, 0),
    BeginRegistration(1, 3, 0, 0),
    ConsumeChallenge(0, 3, Registration, 0, 8, 0),
    FinishRegistration(0, 0, 0, 4, 0),
    BeginLogin(0),
    OfferLogin(0, 5, 0, 6, 0),
    ConsumeChallenge(0, 5, Login, 0, 8, 0),
    ReadCredential(0, 0),
    FinishLogin(0, 0, 7, 8, 9, 0),
    Present(0, WISH, 8),
    ReadSessionState(0, 0),
    Perform(0, 10, 11, 0, 0),
    ConsumeChallenge(0, 10, StepUp, 0, 8, 0),
    ReadSessionState(0, 0),
    Perform(0, 12, 13, 0, 0),
    ReadCredential(0, 0),
    FinishStepUp(0, 0, 14, 15, 16, 0),
    Present(0, SpendReceipt(REQUEST), 8),
    ReadSessionState(0, 0),
    Logout(8, 17, 0),
    Perform(0, 18, 19, 0, 0)]

  // The last look is step 18, the logout step 19, the mutation step 20.
  const SPENDING: Spending := Spending(0, REQUEST, 8, 18, 18, 20, 0, SCRIPT[20])

  ghost predicate Plays(config: Config, run: seq<System>) {
    && |run| == |SCRIPT| + 1 && run[0] == START
    && forall k: nat :: k < |SCRIPT| ==> run[k + 1] == Step(config, run[k], SCRIPT[k])
  }

  lemma {:induction false} Trace(config: Config, actions: seq<Action>) returns (run: seq<System>)
    ensures |run| == |actions| + 1 && run[0] == START
    ensures forall k: nat :: k < |actions| ==> run[k + 1] == Step(config, run[k], actions[k])
  {
    hide Step;
    if actions == [] {
      run := [START];
    } else {
      var n := |actions| - 1;
      run := Trace(config, actions[..n]);
      run := run + [Step(config, run[n], actions[n])];
    }
  }

  lemma PlaysIsRun(config: Config, run: seq<System>)
    requires Plays(config, run)
    ensures IsRun(config, run)
  {
    hide Step;
    forall i: nat | i + 1 < |run|
      ensures Moves(config, run, i)
    {
      assert run[i + 1] == Step(config, run[i], SCRIPT[i]);
    }
  }

  lemma StartShows()
    ensures Shows(START, EMPTY_STATE, map[], 0)
  {
    StartKeepsInv();
    hide Inv;
  }

  lemma MarksLast(cs: seq<Challenge>, used: seq<Challenge>, c: Challenge)
    requires forall x :: x in cs ==> x.flowId != c.flowId
    requires used == cs + [Spent(c)]
    ensures MarkUsed(cs + [c], c.flowId, 0) == used
  {
  }

  lemma Founding(config: Config, run: seq<System>)
    requires Plays(config, run)
    ensures Shows(run[4], Founded(config), map[], 5)
  {
    hide Step, Shows;
    StartShows();
    assert run[1] == Step(config, run[0], SCRIPT[0]);
    Inviting(config, run[0]);
    assert run[2] == Step(config, run[1], SCRIPT[1]);
    Enters(config, run[1]);
    assert run[3] == Step(config, run[2], SCRIPT[2]);
    MarksLast([], [Spent(Entry(config))], Entry(config));
    Consumes(config, run[2], Entering(config), Entry(config), Registering(config), 4,
             HoldingRegistration(Entry(config)));
    assert run[4] == Step(config, run[3], SCRIPT[3]);
    Registers(config, run[3]);
  }

  lemma LoggingIn(config: Config, run: seq<System>)
    requires Plays(config, run)
    ensures Shows(run[9], Inside(config), map[], 10)
  {
    hide Step, Shows;
    Founding(config, run);
    var door := Door(config);
    assert run[5] == Step(config, run[4], SCRIPT[4]);
    AsksIn(config, run[4]);
    assert run[6] == Step(config, run[5], SCRIPT[5]);
    Knocks(config, run[5]);
    assert run[7] == Step(config, run[6], SCRIPT[6]);
    MarksLast([Spent(Entry(config))], [Spent(Entry(config)), Spent(door)], door);
    Consumes(config, run[6], Knocking(config), door, Admitting(config), 7, HoldingLogin(door));
    assert run[8] == Step(config, run[7], SCRIPT[7]);
    assert ActivePrincipal(Admitting(config), FOUNDER_PRINCIPAL_ID) == Some(FOUNDER);
    assert OwnedCredential(Admitting(config), FOUNDER_PRINCIPAL_ID, 0) == Some(CREDENTIAL);
    ShowsCredential(config, run[7], Admitting(config), HoldingLogin(door), VerifyingLogin(door, CREDENTIAL), 7);
    assert run[9] == Step(config, run[8], SCRIPT[8]);
    ComesIn(config, run[8]);
  }

  lemma SteppingUp(config: Config, run: seq<System>)
    requires Plays(config, run)
    ensures Shows(run[14], Proven(config), map[0 := Authorized(Redeem(Proof(config)), 8, Me(config))], 12)
  {
    hide Step, Shows, Command;
    LoggingIn(config, run);
    CommandsAreSafe();
    var proof := Proof(config);
    var before := [Spent(Entry(config)), Spent(Door(config))];
    assert run[10] == Step(config, run[9], SCRIPT[9]);
    Presents(config, run[9], Inside(config), WISH, 10);
    assert run[11] == Step(config, run[10], SCRIPT[10]);
    Looks(config, run[10], Inside(config), WISH, 10);
    assert run[12] == Step(config, run[11], SCRIPT[11]);
    IsChallenged(config, run[11]);
    assert run[13] == Step(config, run[12], SCRIPT[12]);
    MarksLast(before, before + [Spent(proof)], proof);
    Consumes(config, run[12], Challenged(config), proof, Proven(config), 12, Authenticating(Redeem(proof), 8));
    assert run[14] == Step(config, run[13], SCRIPT[13]);
    Looks(config, run[13], Proven(config), Redeem(proof), 12);
  }

  lemma Earning(config: Config, run: seq<System>)
    requires Plays(config, run)
    ensures Shows(run[18], Permitted(config), map[0 := Authenticating(SpendReceipt(REQUEST), 8)], 17)
  {
    hide Step, Shows, Command, Presentable;
    SteppingUp(config, run);
    CommandsAreSafe();
    var proof, visit := Proof(config), Visit(config);
    assert run[15] == Step(config, run[14], SCRIPT[14]);
    Binds(config, run[14]);
    assert run[16] == Step(config, run[15], SCRIPT[15]);
    assert OwnedCredential(Proven(config), FOUNDER_PRINCIPAL_ID, 0) == Some(CREDENTIAL);
    ShowsCredential(config, run[15], Proven(config), BoundStepUp(proof, visit),
                    VerifyingStepUp(proof, visit, CREDENTIAL), 14);
    assert run[17] == Step(config, run[16], SCRIPT[16]);
    EarnsPermit(config, run[16]);
    assert run[18] == Step(config, run[17], SCRIPT[17]);
    Presents(config, run[17], Permitted(config), SpendReceipt(REQUEST), 17);
  }

  lemma Closing(config: Config, run: seq<System>)
    requires Plays(config, run)
    ensures
      var ready := map[0 := Authorized(SpendReceipt(REQUEST), 8, Me(config))];
      && Shows(run[18], Permitted(config), map[0 := Authenticating(SpendReceipt(REQUEST), 8)], 17)
      && Shows(run[19], Permitted(config), ready, 17) && Shows(run[20], Closed(config), ready, 18)
  {
    hide Step, Shows, Command;
    Earning(config, run);
    assert run[19] == Step(config, run[18], SCRIPT[18]);
    Looks(config, run[18], Permitted(config), SpendReceipt(REQUEST), 17);
    assert run[20] == Step(config, run[19], SCRIPT[19]);
    LogsOut(config, run[19], Authorized(SpendReceipt(REQUEST), 8, Me(config)));
  }

  lemma SessionsInBooks(sys: System, x: Session)
    requires Inv(sys) && x in sys.state.sessions
    ensures x.sessionId in sys.h.sessions && sys.h.sessions[x.sessionId].tokenHash == x.tokenHash
    ensures sys.h.sessions[x.sessionId].principalId == x.principalId
    ensures x.revokedAt.Some? <==> x.sessionId in sys.h.revoked
  {
    hide ChallengesOk, ReceiptsOk, IssuedOk, BooksOk, CallersOk;
    assert SessionTracked(x, sys.h.sessions, sys.h.revoked);
  }

  lemma LastStepsFollow(config: Config, run: seq<System>)
    requires Plays(config, run)
    ensures Follows(config, run, SPENDING)
  {
    hide Step, Command, Inv;
    Closing(config, run);
    assert run[19] == Step(config, run[18], SCRIPT[18]) && run[21] == Step(config, run[20], SCRIPT[20]);
    assert Mints(SCRIPT[20]) == [18, 19];
  }

  lemma LogoutRevokes(config: Config, run: seq<System>)
    requires Plays(config, run)
    ensures RevokedAt(run, 19, 7)
    ensures 7 in run[20].h.sessions && run[20].h.sessions[7].tokenHash == 8
    ensures run[20].h.sessions[7].principalId == FOUNDER_PRINCIPAL_ID
  {
    hide Step, Command, Inv;
    Closing(config, run);
    var visit := Visit(config);
    assert visit in run[19].state.sessions;
    SessionsInBooks(run[19], visit);
    var closed := visit.(revokedAt := Some(0));
    assert closed in run[20].state.sessions;
    SessionsInBooks(run[20], closed);
  }

  lemma SpendingIsDue(config: Config, run: seq<System>)
    requires Plays(config, run)
    ensures Unexpired(run[18].state, 7, 0)
    ensures Entitled(run[18].state, FOUNDER_PRINCIPAL_ID, Some(AdminKillSwitchControl))
    ensures Redeemable(run[20].state, Permit(config), 7, FOUNDER_PRINCIPAL_ID, REQUEST, 0)
  {
    hide Step, Command, Inv, ReadSession;
    Closing(config, run);
    assert Visit(config) in run[18].state.sessions;
    assert ActivePrincipal(run[18].state, FOUNDER_PRINCIPAL_ID) == Some(FOUNDER);
    assert Founder in FOUNDER.roles && AdminKillSwitchControl in RoleCapabilities(Founder);
  }

  ghost predicate SpentOnceRevoked(config: Config, run: seq<System>, s: Spending, id: Id, n: nat) {
    && IsRun(config, run) && Follows(config, run, s)
    && id in run[s.q].h.sessions && run[s.q].h.sessions[id].tokenHash == s.token
    && RevokedAt(run, n, id) && s.m < n < s.q
    && SpendCommits(run, s)
  }

  /** A receipt outlives its session: at any settings some run revokes the session after its caller
      last looked at it, and the spend commits all the same. */
  lemma ReceiptOutlivesItsSession(config: Config)
    ensures exists run, s, id, n :: SpentOnceRevoked(config, run, s, id, n)
  {
    hide Step, Command, Follows, Unexpired, Entitled, Redeemable, IsRun, Shows;
    var run := Trace(config, SCRIPT);
    assert Plays(config, run);
    PlaysIsRun(config, run);
    LastStepsFollow(config, run);
    LogoutRevokes(config, run);
    SpendingIsDue(config, run);
    RevokedSessionSpendsExactly(config, run, SPENDING, 7, 19);
    assert SpentOnceRevoked(config, run, SPENDING, 7, 19);
  }
}
