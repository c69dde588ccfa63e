/** When a receipt is spent, told by the positions of the caller's own reads in the run. */
module AdminSchedules {
  import opened Collections
  import opened AdminContracts
  import OptimisticState
  import opened AdminTransactions
  import opened CommandStrings
  import opened AdminCeremonies
  import opened AdminInvariants
  import opened AdminPreservation
  import opened AdminRuns
  import opened AdminHistory
  import opened AdminTheorems
  import opened AdminStateClauses

  // ------------------------------------------------------------------- single steps

  function ThreadAt(sys: System, t: nat): Option<Thread> {
    if t in sys.threads then Some(sys.threads[t]) else None
  }

  lemma DrawnIsNovel(sys: System, a: Action)
    requires Inv(sys) && Fresh(sys.h.minted, Mints(a))
    ensures forall k :: 0 <= k < |Mints(a)| ==> Novel(sys.state, Mints(a)[k])
  {
    hide Inv, Novel, Mints;
    forall k | 0 <= k < |Mints(a)|
      ensures Novel(sys.state, Mints(a)[k])
    {
      UnmintedIsNovel(sys, Mints(a)[k]);
    }
  }

  /** A proposal from a state the invariant describes is stored unless it is too large. */
  lemma ProposalIsStored(config: Config, sys: System, a: Action, next: State)
    requires Inv(sys) && Fresh(sys.h.minted, Mints(a))
    requires ProposalOf(config, Drawn(sys, Mints(a)), a) == Proposed(next)
    requires |next.principals| <= 1_024 && |next.rateLimits| <= 8_192
    ensures Step(config, sys, a) == Committed(config, Drawn(sys, Mints(a)), a, next)
    ensures Inv(Step(config, sys, a))
  {
    StepKeepsInv(config, sys, a);
    assert ValidState(next) by {
      DrawnIsNovel(sys, a);
      BooksAreSound(sys);
      hide Inv, ProposalOf, Committed, Mints, Fresh, Novel, KeysUnique, HasFounder;
      ProposalIsSound(config, Drawn(sys, Mints(a)), a, next);
    }
    hide Inv, ProposalOf, Committed, Mints, Fresh, ValidState;
  }

  lemma BooksAreSound(sys: System)
    requires Inv(sys)
    ensures Sound(sys.state) && |sys.state.principals| <= 1_024 && |sys.state.rateLimits| <= 8_192
    ensures sys.state.principals != [] ==> HasFounder(sys.state.principals)
    ensures sys.state.credentials != [] ==> HasFounder(sys.state.principals)
  {
    hide RecordsOk, CallersOk, CountersOk, ActsOk, MintedOk;
  }

  lemma LocalStep(config: Config, sys: System, a: Action)
    requires Fresh(sys.h.minted, Mints(a)) && ProposalOf(config, Drawn(sys, Mints(a)), a).NoMutation?
    ensures Step(config, sys, a) == Local(config, Drawn(sys, Mints(a)), a)
  {
    hide ProposalOf, Local, Mints, Fresh;
  }

  lemma RefusedStep(config: Config, sys: System, a: Action)
    requires Fresh(sys.h.minted, Mints(a)) && ProposalOf(config, Drawn(sys, Mints(a)), a).Refused?
    ensures Step(config, sys, a) == Failed(Drawn(sys, Mints(a)), a)
  {
    hide ProposalOf, Failed, Mints, Fresh;
  }

  lemma CommitDrawsNothing(config: Config, sys: System, a: Action, next: State)
    requires ProposalOf(config, sys, a) == Proposed(next)
    ensures Committed(config, sys, a, next).h.minted == sys.h.minted
  {
    hide ConsumeReceiptTx, Command, RequestCapability, FirstRevocation, RevokedTogether, PerformProposal;
  }

  // ------------------------------------------------------------------- what a read admits

  /** Session `id` is stored and neither of its expiries has passed; revocation aside. */
  predicate Unexpired(s: State, id: Id, now: int) {
    exists x :: x in s.sessions && x.sessionId == id && x.absoluteExpiresAt > now && x.idleExpiresAt > now
  }

  predicate Entitled(s: State, principalId: string, capability: Option<Capability>) {
    && ActivePrincipal(s, principalId).Some?
    && (capability.Some? ==> HasCapability(ActivePrincipal(s, principalId).value, capability.value))
  }

  /** `later` still knows every session of `h`, and session `id` by its token and owner. */
  ghost predicate Remembers(h: History, later: History, id: Id, owner: Session) {
    && Grows(h, later) && id in later.sessions && later.sessions[id] == owner
    && forall a, b :: a in later.sessions && b in later.sessions && a != b ==>
         later.sessions[a].tokenHash != later.sessions[b].tokenHash
  }

  lemma SessionsAgree(sys: System, later: History, id: Id, owner: Session, x: Session)
    requires Inv(sys) && Remembers(sys.h, later, id, owner) && x in sys.state.sessions
    ensures x.tokenHash == owner.tokenHash <==> x.sessionId == id
    ensures x.sessionId == id ==> x.principalId == owner.principalId && (x.revokedAt.Some? <==> id in sys.h.revoked)
  {
    hide ChallengesOk, ReceiptsOk, IssuedOk, BooksOk, CallersOk;
    assert SessionTracked(x, sys.h.sessions, sys.h.revoked);
  }

  lemma SessionIsActive(sys: System, id: Id, now: int)
    requires Inv(sys)
    ensures IsActiveSession(SessionById(sys.state, id), now) <==> Unexpired(sys.state, id, now) && id !in sys.h.revoked
    ensures var found := SessionById(sys.state, id); found.Some? ==> found.value.sessionId == id
  {
    hide ChallengesOk, ReceiptsOk, IssuedOk, CallersOk, MintedOk, FounderOk, CountersOk, ActsOk;
    var found := SessionById(sys.state, id);
    if found.Some? {
      assert SessionTracked(found.value, sys.h.sessions, sys.h.revoked);
    }
    if x :| x in sys.state.sessions && x.sessionId == id && x.absoluteExpiresAt > now && x.idleExpiresAt > now {
      UniqueMembers(sys.state.sessions, SessionKey, x, found.value);
    }
  }

  lemma TokenFindsSession(sys: System, later: History, id: Id, owner: Session)
    requires Inv(sys) && Remembers(sys.h, later, id, owner)
    ensures SessionByToken(sys.state, owner.tokenHash) == SessionById(sys.state, id)
    ensures var found := SessionById(sys.state, id); found.Some? ==> found.value.principalId == owner.principalId
  {
    hide ChallengesOk, ReceiptsOk, IssuedOk, CallersOk, MintedOk, FounderOk, CountersOk, ActsOk, Grows;
    var byToken, byId := SessionByToken(sys.state, owner.tokenHash), SessionById(sys.state, id);
    if byToken.Some? {
      SessionsAgree(sys, later, id, owner, byToken.value);
    }
    if byId.Some? {
      SessionsAgree(sys, later, id, owner, byId.value);
    }
    if byToken.Some? && byId.Some? {
      UniqueMembers(sys.state.sessions, SessionKey, byToken.value, byId.value);
    }
  }

  /** `authenticateSession` reads an identity exactly when the session is stored, unexpired and
      not yet revoked, and its principal is active and entitled. */
  lemma ReadExactly(
      sys: System, later: History, id: Id, owner: Session, capability: Option<Capability>, now: int)
    requires Inv(sys) && Remembers(sys.h, later, id, owner)
    ensures
      var who := ReadSession(sys.state, owner.tokenHash, capability, now);
      && (who.Some? <==> && id !in sys.h.revoked && Unexpired(sys.state, id, now)
                         && Entitled(sys.state, owner.principalId, capability))
      && (who.Some? ==> who.value.session.sessionId == id && who.value.principal.principalId == owner.principalId)
  {
    TokenFindsSession(sys, later, id, owner);
    SessionIsActive(sys, id, now);
    hide Inv, Remembers, Unexpired, SessionById, SessionByToken, HasCapability;
  }

  // ------------------------------------------------------------------- one caller's spending

  /** The schedule of one caller: it presents `token` to spend `r`, reads the session at `p`,
      looks again at `m` when its session is due a touch (else `m` is `p`), and mutates at `q`. */
  datatype Spending = Spending(t: nat, r: Request, token: Hash, p: nat, m: nat, q: nat, readAt: int, perform: Action)

  ghost predicate StandsStill(run: seq<System>, t: nat, from: nat, until: nat)
    requires from <= until < |run|
  {
    forall k :: from <= k <= until ==> ThreadAt(run[k], t) == ThreadAt(run[from], t)
  }

  ghost predicate Follows(config: Config, run: seq<System>, s: Spending) {
    && s.p <= s.m < s.q && s.q + 1 < |run|
    && s.perform.Perform? && s.perform.caller == s.t && Fresh(run[s.q].h.minted, Mints(s.perform))
    && ThreadAt(run[s.p], s.t) == Some(Authenticating(SpendReceipt(s.r), s.token))
    && run[s.p + 1] == Step(config, run[s.p], ReadSessionState(s.t, s.readAt))
    && (s.m == s.p <==> !DueTouch(run[s.p + 1], s.t))
    && (s.m > s.p ==> && StandsStill(run, s.t, s.p + 1, s.m)
                      && run[s.m + 1] == Step(config, run[s.m], Touch(s.t)))
    && StandsStill(run, s.t, s.m + 1, s.q)
    && run[s.q + 1] == Step(config, run[s.q], s.perform)
  }

  predicate DueTouch(sys: System, t: nat) {
    t in sys.threads && sys.threads[t].Touching?
  }

  /** The receipt `x` is unspent, unexpired, and made out to this session's owner for `r`. */
  predicate Redeemable(s: State, x: Receipt, id: Id, principalId: string, r: Request, now: int) {
    && x in s.receipts && x.tokenHash == r.receiptToken && x.consumedAt.None? && x.expiresAt > now
    && x.principalId == principalId && x.sessionId == id
    && x.capability == RequestCapability(r) && x.command == Command(r) && x.fingerprint == r.fingerprint
  }

  ghost predicate SpendCommits(run: seq<System>, s: Spending)
    requires s.q + 1 < |run|
  {
    run[s.q + 1].h.spent != run[s.q].h.spent
  }

  /** The caller holds session `id`, ready to mutate. */
  predicate Ready(th: Option<Thread>, s: Spending, id: Id, principalId: string) {
    && th.Some? && th.value.Authorized? && th.value.goal == SpendReceipt(s.r) && th.value.token == s.token
    && th.value.who.session.sessionId == id && th.value.who.principal.principalId == principalId
  }

  predicate ReadyToTouch(th: Option<Thread>, s: Spending, id: Id, principalId: string) {
    && th.Some? && th.value.Touching? && th.value.goal == SpendReceipt(s.r) && th.value.token == s.token
    && th.value.now == s.readAt
    && th.value.who.session.sessionId == id && th.value.who.principal.principalId == principalId
  }

  lemma AfterRead(config: Config, sys: System, later: History, s: Spending, id: Id, owner: Session)
    requires Inv(sys) && Remembers(sys.h, later, id, owner) && s.token == owner.tokenHash
    requires ThreadAt(sys, s.t) == Some(Authenticating(SpendReceipt(s.r), s.token))
    ensures
      var th := ThreadAt(Step(config, sys, ReadSessionState(s.t, s.readAt)), s.t);
      if && id !in sys.h.revoked && Unexpired(sys.state, id, s.readAt)
         && Entitled(sys.state, owner.principalId, Some(RequestCapability(s.r)))
      then Ready(th, s, id, owner.principalId) || ReadyToTouch(th, s, id, owner.principalId)
      else th == None
  {
    hide Step, Local, Unexpired, Entitled, ReadSession, RequestCapability, Remembers, Inv;
    var a := ReadSessionState(s.t, s.readAt);
    ReadExactly(sys, later, id, owner, Some(RequestCapability(s.r)), s.readAt);
    assert Mints(a) == [];
    LocalStep(config, sys, a);
    hide ProposalOf;
    AuthenticationRead(config, Drawn(sys, []), a);
  }

  lemma AuthenticationRead(config: Config, sys: System, a: Action)
    requires a.ReadSessionState? && a.caller in sys.threads && sys.threads[a.caller].Authenticating?
    ensures
      var Authenticating(goal, token) := sys.threads[a.caller];
      var who := ReadSession(sys.state, token, GoalCapability(goal), a.now);
      var th := ThreadAt(Local(config, sys, a), a.caller);
      if who.None? then th == None
      else th == Some(Authorized(goal, token, who.value)) || th == Some(Touching(goal, token, who.value, a.now))
  {
    hide ReadSession, GoalCapability;
  }

  lemma AfterTouch(config: Config, sys: System, s: Spending, id: Id, principalId: string)
    requires Inv(sys) && ReadyToTouch(ThreadAt(sys, s.t), s, id, principalId)
    ensures
      var th := ThreadAt(Step(config, sys, Touch(s.t)), s.t);
      if id !in sys.h.revoked && Unexpired(sys.state, id, s.readAt) then Ready(th, s, id, principalId) else th == None
  {
    hide Step, Inv, Sound, HasFounder, Unexpired, ProposalOf, Committed, Failed, SessionById;
    var a := Touch(s.t);
    SessionIsActive(sys, id, s.readAt);
    BooksAreSound(sys);
    TouchProposes(config, Drawn(sys, []), a);
    var touched := TouchTx(sys.state, id, config.sessionIdleMs, s.readAt);
    if touched.Accept? {
      ProposalIsStored(config, sys, a, touched.next);
    } else {
      RefusedStep(config, sys, a);
    }
  }

  lemma TouchProposes(config: Config, sys: System, a: Action)
    requires a.Touch? && a.caller in sys.threads && sys.threads[a.caller].Touching?
    ensures
      var Touching(goal, token, who, now) := sys.threads[a.caller];
      var touched := TouchTx(sys.state, who.session.sessionId, config.sessionIdleMs, now);
      && ThreadAt(Failed(sys, a), a.caller) == None
      && (touched.Reject? ==> ProposalOf(config, sys, a) == Refused)
      && (touched.Accept? ==>
            && ProposalOf(config, sys, a) == Proposed(touched.next)
            && touched.next.principals == sys.state.principals && touched.next.rateLimits == sys.state.rateLimits
            && touched.result.sessionId == who.session.sessionId
            && ThreadAt(Committed(config, sys, a, touched.next), a.caller)
               == Some(Authorized(goal, token, who.(session := touched.result))))
  {
    hide ReplaceSession;
  }

  function Redemption(sys: System, a: Action, who: Identity, r: Request): OptimisticState.Outcome<State, Receipt>
    requires a.Perform?
  {
    ConsumeReceiptTx(sys.state, who, RequestCapability(r), Command(r), r.fingerprint, r.receiptToken,
                     SecurityEvent(a.eventId, StepUpReceiptConsumed), a.now)
  }

  lemma PerformSpends(config: Config, sys: System, a: Action)
    requires a.Perform? && a.caller in sys.threads && sys.threads[a.caller].Authorized?
    requires sys.threads[a.caller].goal.SpendReceipt?
    ensures
      var done := Redemption(sys, a, sys.threads[a.caller].who, sys.threads[a.caller].goal.request);
      && Failed(sys, a).h == sys.h
      && (done.Reject? ==> ProposalOf(config, sys, a) == Refused)
      && (done.Accept? ==>
            && ProposalOf(config, sys, a) == Proposed(done.next)
            && done.next.principals == sys.state.principals && done.next.rateLimits == sys.state.rateLimits
            && Committed(config, sys, a, done.next).h.spent == sys.h.spent + {done.result.receiptId})
  {
    hide Command, RequestCapability, Spend, AppendEvent;
  }

  lemma AfterPerform(config: Config, sys: System, s: Spending, id: Id, principalId: string)
    requires Inv(sys) && Ready(ThreadAt(sys, s.t), s, id, principalId)
    requires s.perform.Perform? && s.perform.caller == s.t && Fresh(sys.h.minted, Mints(s.perform))
    ensures Step(config, sys, s.perform).h.spent != sys.h.spent
            <==> exists x :: Redeemable(sys.state, x, id, principalId, s.r, s.perform.now)
  {
    hide Step, Committed, Failed, Inv, HasFounder, Sound, Spendable, Redeemable, Command, RequestCapability, Mints,
         Fresh;
    var a, who := s.perform, sys.threads[s.t].who;
    var drawn := Drawn(sys, Mints(a));
    SpendableWithin(sys, who, s.r, SecurityEvent(a.eventId, StepUpReceiptConsumed), a.now);
    RedeemableIsSpendable(sys.state, who, s.r, a.now);
    BooksAreSound(sys);
    PerformSpends(config, drawn, a);
    var done := Redemption(sys, a, who, s.r);
    hide ConsumeReceiptTx;
    if done.Accept? {
      SpentAnew(sys, a, who, s.r);
      ProposalIsStored(config, sys, a, done.next);
    } else {
      RefusedStep(config, sys, a);
    }
  }

  lemma SpentAnew(sys: System, a: Action, who: Identity, r: Request)
    requires Inv(sys) && a.Perform? && Redemption(sys, a, who, r).Accept?
    ensures Redemption(sys, a, who, r).result.receiptId !in sys.h.spent
  {
    hide ChallengesOk, SessionsOk, IssuedOk, BooksOk, CallersOk, Command, RequestCapability;
    assert ReceiptTracked(Redemption(sys, a, who, r).result, sys.h.receipts, sys.h.spent);
  }

  lemma RedeemableIsSpendable(s: State, who: Identity, r: Request, now: int)
    ensures forall x :: Redeemable(s, x, who.session.sessionId, who.principal.principalId, r, now)
                        <==> Spendable(s, x, who, r, now)
  {
    hide Command, RequestCapability;
  }

  lemma AbsentSpendsNothing(config: Config, sys: System, a: Action)
    requires a.Perform? && a.caller !in sys.threads
    ensures Step(config, sys, a).h.spent == sys.h.spent
  {
    if Fresh(sys.h.minted, Mints(a)) {
      LocalStep(config, sys, a);
    }
  }

  /** Main result.  Over every run, a caller's attempt to spend a receipt commits exactly when its
      session was not yet revoked at the caller's own last look, that look found it unexpired and
      its principal entitled, and the receipt is unspent, unexpired and made out for this. */
  lemma SpendCommitsExactly(config: Config, run: seq<System>, s: Spending, id: Id)
    requires IsRun(config, run) && Follows(config, run, s)
    requires id in run[s.q].h.sessions && run[s.q].h.sessions[id].tokenHash == s.token
    ensures
      var owner := run[s.q].h.sessions[id].principalId;
      SpendCommits(run, s)
      <==> && id !in run[s.m].h.revoked
           && Unexpired(run[s.p].state, id, s.readAt) && Unexpired(run[s.m].state, id, s.readAt)
           && Entitled(run[s.p].state, owner, Some(RequestCapability(s.r)))
           && exists x :: Redeemable(run[s.q].state, x, id, owner, s.r, s.perform.now)
  {
    hide IsRun, Inv, Grows, Step, Unexpired, Entitled, Redeemable, RequestCapability, Fresh, Mints, Ready, ReadyToTouch,
         Remembers;
    var later := run[s.q].h;
    var owner := later.sessions[id];
    Reached(config, run, s.p, s.m);
    Reached(config, run, s.m, s.q);
    Reached(config, run, s.p, s.q);
    StillRemembered(run[s.p], run[s.q], id);
    RevokedBefore(run[s.p].h, run[s.m].h, id);
    AfterRead(config, run[s.p], later, s, id, owner);
    ReadyOrTouching(run[s.p + 1], s, id, owner.principalId);
    if s.m > s.p {
      assert ThreadAt(run[s.m], s.t) == ThreadAt(run[s.p + 1], s.t);
      AfterTouch(config, run[s.m], s, id, owner.principalId);
    }
    assert ThreadAt(run[s.q], s.t) == ThreadAt(run[s.m + 1], s.t);
    ReadyOrTouching(run[s.q], s, id, owner.principalId);
    if ThreadAt(run[s.q], s.t) == None {
      AbsentSpendsNothing(config, run[s.q], s.perform);
    } else {
      AfterPerform(config, run[s.q], s, id, owner.principalId);
    }
  }

  lemma LooksRevokeNothing(config: Config, sys: System, a: Action)
    requires a.ReadSessionState? || a.Touch?
    ensures Step(config, sys, a).h.revoked == sys.h.revoked
  {
    hide ReadSession, TouchTx, ValidState, GoalCapability;
  }

  /** Where the revocation of `id` commits. */
  ghost predicate RevokedAt(run: seq<System>, n: nat, id: Id) {
    n + 1 < |run| && id !in run[n].h.revoked && id in run[n + 1].h.revoked
  }

  /** Of a session that has been revoked meanwhile, a receipt is spent exactly when the caller's own
      last look at the session came before the revocation, the other conditions being the same. */
  lemma RevokedSessionSpendsExactly(config: Config, run: seq<System>, s: Spending, id: Id, n: nat)
    requires IsRun(config, run) && Follows(config, run, s)
    requires id in run[s.q].h.sessions && run[s.q].h.sessions[id].tokenHash == s.token
    requires RevokedAt(run, n, id) && n < s.q
    ensures
      var owner := run[s.q].h.sessions[id].principalId;
      SpendCommits(run, s)
      <==> && s.m < n
           && Unexpired(run[s.p].state, id, s.readAt) && Unexpired(run[s.m].state, id, s.readAt)
           && Entitled(run[s.p].state, owner, Some(RequestCapability(s.r)))
           && exists x :: Redeemable(run[s.q].state, x, id, owner, s.r, s.perform.now)
  {
    hide IsRun, Step, Unexpired, Entitled, Redeemable, RequestCapability, Inv, Fresh, StandsStill;
    SpendCommitsExactly(config, run, s, id);
    LooksRevokeNothing(config, run[s.m], if s.m == s.p then ReadSessionState(s.t, s.readAt) else Touch(s.t));
    assert run[s.m + 1].h.revoked == run[s.m].h.revoked;
    if s.m < n {
      RunGrows(config, run, s.m, n);
    } else if n < s.m {
      RunGrows(config, run, n + 1, s.m);
    }
    hide Follows;
  }

  lemma ReadyOrTouching(sys: System, s: Spending, id: Id, principalId: string)
    ensures Ready(ThreadAt(sys, s.t), s, id, principalId) ==> s.t in sys.threads && !DueTouch(sys, s.t)
    ensures ReadyToTouch(ThreadAt(sys, s.t), s, id, principalId) ==> DueTouch(sys, s.t)
  {
  }

  lemma StillRemembered(sys: System, last: System, id: Id)
    requires Inv(last) && Grows(sys.h, last.h) && id in last.h.sessions
    ensures Remembers(sys.h, last.h, id, last.h.sessions[id])
  {
    hide ChallengesOk, ReceiptsOk, IssuedOk, BooksOk, CallersOk, Grows;
  }

  lemma RevokedBefore(h: History, later: History, id: Id)
    requires Grows(h, later)
    ensures id in h.revoked ==> id in later.revoked
  {
  }
}
