/** What every reachable state of the ceremony machine satisfies, part by part, and what each
    kind of rewrite does to each part. */
module AdminInvariants {
  import opened Collections
  import opened AdminContracts
  import opened AdminTransactions
  import opened CommandStrings
  import opened AdminCeremonies

  // ------------------------------------------------------------------- challenges

  /** A stored challenge is the one created under its flow, and is marked used exactly when that
      flow was consumed. */
  ghost predicate ChallengeTracked(c: Challenge, created: map<Id, Challenge>, used: set<Id>) {
    && c.flowId in created
    && c.(usedAt := None) == created[c.flowId]
    && (c.usedAt.Some? <==> c.flowId in used)
  }

  ghost predicate ChallengesOk(cs: seq<Challenge>, created: map<Id, Challenge>, used: set<Id>) {
    && used <= created.Keys
    && (forall f :: f in created ==> created[f].flowId == f && created[f].usedAt.None?)
    && (forall c :: c in cs ==> ChallengeTracked(c, created, used))
  }

  lemma AppendChallengeOk(cs: seq<Challenge>, created: map<Id, Challenge>, used: set<Id>, c: Challenge, now: int)
    requires ChallengesOk(cs, created, used) && c.flowId !in created && c.usedAt.None?
    ensures ChallengesOk(AppendChallenge(cs, c, now), created[c.flowId := c], used)
  {
    forall x | x in AppendChallenge(cs, c, now)
      ensures ChallengeTracked(x, created[c.flowId := c], used)
    {
      if x != c {
        assert ChallengeTracked(x, created, used);
      }
    }
  }

  lemma MarkUsedOk(cs: seq<Challenge>, created: map<Id, Challenge>, used: set<Id>, flowId: Id, now: int)
    requires ChallengesOk(cs, created, used) && flowId in created
    ensures ChallengesOk(MarkUsed(cs, flowId, now), created, used + {flowId})
  {
    var marked := MarkUsed(cs, flowId, now);
    forall x | x in marked
      ensures ChallengeTracked(x, created, used + {flowId})
    {
      var i :| 0 <= i < |marked| && marked[i] == x;
      assert ChallengeTracked(cs[i], created, used);
    }
  }

  // ------------------------------------------------------------------- receipts

  ghost predicate ReceiptTracked(r: Receipt, issued: map<Id, Issued>, spent: set<Id>) {
    && r.receiptId in issued
    && r.(consumedAt := None) == issued[r.receiptId].receipt
    && (r.consumedAt.Some? <==> r.receiptId in spent)
  }

  ghost predicate ReceiptsOk(rs: seq<Receipt>, issued: map<Id, Issued>, spent: set<Id>) {
    && spent <= issued.Keys
    && (forall id :: id in issued ==> issued[id].receipt.receiptId == id && issued[id].receipt.consumedAt.None?)
    && (forall a, b :: a in issued && b in issued && a != b ==>
          issued[a].receipt.tokenHash != issued[b].receipt.tokenHash)
    && (forall r :: r in rs ==> ReceiptTracked(r, issued, spent))
  }

  lemma AppendReceiptOk(rs: seq<Receipt>, issued: map<Id, Issued>, spent: set<Id>, r: Receipt, flow: Id, now: int)
    requires ReceiptsOk(rs, issued, spent) && r.receiptId !in issued && r.consumedAt.None?
    requires forall id :: id in issued ==> issued[id].receipt.tokenHash != r.tokenHash
    ensures ReceiptsOk(AppendReceipt(rs, r, now), issued[r.receiptId := Issued(r, flow)], spent)
  {
    forall x | x in AppendReceipt(rs, r, now)
      ensures ReceiptTracked(x, issued[r.receiptId := Issued(r, flow)], spent)
    {
      if x != r {
        assert ReceiptTracked(x, issued, spent);
      }
    }
  }

  lemma SpendOk(rs: seq<Receipt>, issued: map<Id, Issued>, spent: set<Id>, id: Id, now: int)
    requires ReceiptsOk(rs, issued, spent) && id in issued
    ensures ReceiptsOk(Spend(rs, id, now), issued, spent + {id})
  {
    var after := Spend(rs, id, now);
    forall x | x in after
      ensures ReceiptTracked(x, issued, spent + {id})
    {
      var i :| 0 <= i < |after| && after[i] == x;
      assert ReceiptTracked(rs[i], issued, spent);
    }
  }

  /** A receipt carries exactly the bindings of the challenge that earned it. */
  ghost predicate Earned(i: Issued, created: map<Id, Challenge>, used: set<Id>) {
    && i.flowId in used && i.flowId in created
    && var c, r := created[i.flowId], i.receipt;
       && c.kind.StepUp?
       && c.principalId == Some(r.principalId) && c.sessionId == Some(r.sessionId)
       && c.capability == Some(r.capability) && c.command == Some(r.command)
       && c.fingerprint == Some(r.fingerprint)
  }

  ghost predicate IssuedOk(issued: map<Id, Issued>, created: map<Id, Challenge>, used: set<Id>) {
    && (forall id :: id in issued ==> Earned(issued[id], created, used))
    && (forall a, b :: a in issued && b in issued && a != b ==> issued[a].flowId != issued[b].flowId)
  }

  // ------------------------------------------------------------------- sessions

  ghost predicate SessionTracked(s: Session, created: map<Id, Session>, revoked: map<Id, int>) {
    && s.sessionId in created
    && s.principalId == created[s.sessionId].principalId
    && s.tokenHash == created[s.sessionId].tokenHash
    && s.absoluteExpiresAt == created[s.sessionId].absoluteExpiresAt
    && s.idleExpiresAt <= s.absoluteExpiresAt
    && s.revokedAt == if s.sessionId in revoked then Some(revoked[s.sessionId]) else None
  }

  ghost predicate SessionsOk(ss: seq<Session>, created: map<Id, Session>, revoked: map<Id, int>) {
    && revoked.Keys <= created.Keys
    && (forall a, b :: a in created && b in created && a != b ==> created[a].tokenHash != created[b].tokenHash)
    && (forall s :: s in ss ==> SessionTracked(s, created, revoked))
  }

  lemma AppendSessionOk(ss: seq<Session>, created: map<Id, Session>, revoked: map<Id, int>, s: Session, now: int)
    requires SessionsOk(ss, created, revoked) && s.sessionId !in created
    requires s.revokedAt.None? && s.idleExpiresAt <= s.absoluteExpiresAt
    requires forall id :: id in created ==> created[id].tokenHash != s.tokenHash
    ensures SessionsOk(AppendSession(ss, s, now), created[s.sessionId := s], revoked)
  {
    forall x | x in AppendSession(ss, s, now)
      ensures SessionTracked(x, created[s.sessionId := s], revoked)
    {
      if x != s {
        assert SessionTracked(x, created, revoked);
      }
    }
  }

  lemma ReplaceSessionOk(ss: seq<Session>, created: map<Id, Session>, revoked: map<Id, int>, next: Session)
    requires SessionsOk(ss, created, revoked) && SessionTracked(next, created, revoked)
    ensures SessionsOk(ReplaceSession(ss, next), created, revoked)
  {
    var after := ReplaceSession(ss, next);
    forall x | x in after
      ensures SessionTracked(x, created, revoked)
    {
      var i :| 0 <= i < |after| && after[i] == x;
      assert SessionTracked(ss[i], created, revoked);
    }
  }

  lemma EndSessionOk(ss: seq<Session>, created: map<Id, Session>, revoked: map<Id, int>, id: Id, now: int)
    requires SessionsOk(ss, created, revoked) && id in created && id !in revoked
    ensures SessionsOk(EndSession(ss, id, now), created, FirstRevocation(revoked, id, now))
  {
    var after := EndSession(ss, id, now);
    forall x | x in after
      ensures SessionTracked(x, created, FirstRevocation(revoked, id, now))
    {
      var i :| 0 <= i < |after| && after[i] == x;
      assert SessionTracked(ss[i], created, revoked);
    }
  }

  lemma RevokeIfOpenOk(ss: seq<Session>, created: map<Id, Session>, revoked: map<Id, int>, id: Id, now: int)
    requires SessionsOk(ss, created, revoked) && id in created
    ensures SessionsOk(RevokeIfOpen(ss, id, now), created, FirstRevocation(revoked, id, now))
  {
    var after := RevokeIfOpen(ss, id, now);
    forall x | x in after
      ensures SessionTracked(x, created, FirstRevocation(revoked, id, now))
    {
      var i :| 0 <= i < |after| && after[i] == x;
      assert SessionTracked(ss[i], created, revoked);
    }
  }

  lemma RevokeAllOk(ss: seq<Session>, created: map<Id, Session>, revoked: map<Id, int>, principalId: string, now: int)
    requires SessionsOk(ss, created, revoked)
    ensures SessionsOk(RevokeAllOf(ss, principalId, now), created, RevokedTogether(revoked, ss, principalId, now))
  {
    var after, together := RevokeAllOf(ss, principalId, now), RevokedTogether(revoked, ss, principalId, now);
    forall x | x in after
      ensures SessionTracked(x, created, together)
    {
      var i :| 0 <= i < |after| && after[i] == x;
      assert SessionTracked(ss[i], created, revoked);
      if x.sessionId in together && x.sessionId !in revoked {
        var y :| y in ss && y.principalId == principalId && y.revokedAt.None? && y.sessionId == x.sessionId;
        assert SessionTracked(y, created, revoked);
      }
    }
  }

  // ------------------------------------------------------------------- founder

  ghost predicate FounderOk(
      bootstrap: Option<Bootstrap>, principals: seq<Principal>, founders: seq<FounderRegistration>,
      created: map<Id, Challenge>, used: set<Id>)
  {
    && (HasFounder(principals) <==> bootstrap.Some? && bootstrap.value.consumedAt.Some?)
    && (principals != [] ==> HasFounder(principals))
    && |founders| == (if HasFounder(principals) then 1 else 0)
    && (HasFounder(principals) ==>
          && founders[0].flowId in used && founders[0].flowId in created
          && created[founders[0].flowId].kind.Registration?
          && created[founders[0].flowId].bootstrapTokenHash == Some(founders[0].tokenHash)
          && founders[0].tokenHash == bootstrap.value.tokenHash)
  }

  lemma AddedPrincipal(principals: seq<Principal>, p: Principal)
    ensures HasFounder(principals + [p]) <==> HasFounder(principals) || p.principalId == FOUNDER_PRINCIPAL_ID
  {
    assert p in principals + [p];
    if HasFounder(principals) {
      var q :| q in principals && q.principalId == FOUNDER_PRINCIPAL_ID;
      assert q in principals + [p];
    }
  }

  // ------------------------------------------------------------------- counters

  function CounterOf(cs: seq<Credential>, id: Id): Option<nat> {
    var c := Find(cs, (c: Credential) => c.credentialId == id);
    if c.Some? then Some(c.value.counter) else None
  }

  ghost predicate UseOk(u: CounterUse, cs: seq<Credential>) {
    && CounterContract(u.read, u.wrote)
    && CounterOf(cs, u.credentialId).Some?
    && u.wrote <= CounterOf(cs, u.credentialId).value
  }

  ghost predicate CountersOk(cs: seq<Credential>, uses: seq<CounterUse>) {
    && (forall i :: 0 <= i < |uses| ==> UseOk(uses[i], cs))
    && (forall i, j :: 0 <= i < j < |uses| && uses[i].credentialId == uses[j].credentialId ==>
          uses[i].wrote <= uses[j].read)
  }

  lemma CounterLookup(cs: seq<Credential>, c: Credential)
    requires UniqueBy(cs, CredentialKey) && c in cs
    ensures CounterOf(cs, c.credentialId) == Some(c.counter)
  {
    var found := Find(cs, (x: Credential) => x.credentialId == c.credentialId);
    UniqueMembers(cs, CredentialKey, c, found.value);
  }

  lemma SetCounterLookup(cs: seq<Credential>, id: Id, n: nat, other: Id)
    requires UniqueBy(cs, CredentialKey)
    ensures UniqueBy(SetCounter(cs, id, n), CredentialKey)
    ensures CounterOf(SetCounter(cs, id, n), other)
            == if other == id && CounterOf(cs, id).Some? then Some(n) else CounterOf(cs, other)
  {
    var after := SetCounter(cs, id, n);
    RewriteKeepsUnique(cs, after, CredentialKey);
    if CounterOf(cs, other).Some? {
      var i :| 0 <= i < |cs| && cs[i].credentialId == other;
      CounterLookup(cs, cs[i]);
      CounterLookup(after, after[i]);
    } else {
      forall i | 0 <= i < |after|
        ensures after[i].credentialId != other
      {
        assert cs[i] in cs;
      }
    }
  }

  lemma UseCounterOk(cs: seq<Credential>, uses: seq<CounterUse>, u: CounterUse)
    requires UniqueBy(cs, CredentialKey) && CountersOk(cs, uses)
    requires CounterOf(cs, u.credentialId) == Some(u.read) && CounterContract(u.read, u.wrote)
    ensures CountersOk(SetCounter(cs, u.credentialId, u.wrote), uses + [u])
  {
    var after, uses' := SetCounter(cs, u.credentialId, u.wrote), uses + [u];
    forall i | 0 <= i < |uses'|
      ensures UseOk(uses'[i], after)
    {
      SetCounterLookup(cs, u.credentialId, u.wrote, uses'[i].credentialId);
      if i < |uses| {
        assert UseOk(uses[i], cs);
      }
    }
    forall i, j | 0 <= i < j < |uses'| && uses'[i].credentialId == uses'[j].credentialId
      ensures uses'[i].wrote <= uses'[j].read
    {
      if j == |uses| {
        assert UseOk(uses[i], cs);
      }
    }
  }

  lemma AddCredentialOk(cs: seq<Credential>, uses: seq<CounterUse>, c: Credential)
    requires UniqueBy(cs, CredentialKey) && UniqueBy(cs + [c], CredentialKey) && CountersOk(cs, uses)
    ensures CountersOk(cs + [c], uses)
  {
    forall i | 0 <= i < |uses|
      ensures UseOk(uses[i], cs + [c])
    {
      assert UseOk(uses[i], cs);
      var k :| 0 <= k < |cs| && cs[k].credentialId == uses[i].credentialId;
      CounterLookup(cs, cs[k]);
      assert (cs + [c])[k] == cs[k];
      CounterLookup(cs + [c], cs[k]);
    }
  }

  // ------------------------------------------------------------------- threads

  /** A consumed challenge in the hands of a caller. */
  ghost predicate Held(c: Challenge, kind: ChallengeKind, h: History) {
    && c.kind == kind && c.flowId in h.used && c.flowId in h.challenges
    && h.challenges[c.flowId] == c
  }

  ghost predicate KnownIdentity(who: Identity, token: Hash, h: History) {
    && who.session.sessionId in h.sessions
    && h.sessions[who.session.sessionId].tokenHash == token
    && h.sessions[who.session.sessionId].principalId == who.principal.principalId
  }

  predicate Serves(r: Receipt, request: Request) {
    && r.capability == RequestCapability(request)
    && r.command == Command(request)
    && r.fingerprint == request.fingerprint
    && r.tokenHash == request.receiptToken
  }

  /** A receipt consumed for `request` under the session that `token` belongs to. */
  ghost predicate Carried(request: Request, receiptId: Id, token: Hash, h: History) {
    && receiptId in h.spent && receiptId in h.receipts
    && var r := h.receipts[receiptId].receipt;
       && Serves(r, request)
       && r.sessionId in h.sessions
       && h.sessions[r.sessionId].tokenHash == token
       && h.sessions[r.sessionId].principalId == r.principalId
  }

  ghost predicate GoalOk(goal: Goal, token: Hash, h: History) {
    match goal
    case Redeem(c) => Held(c, StepUp, h) && FullyBound(c)
    case Carry(request, receiptId) => Carried(request, receiptId, token, h)
    case _ => true
  }

  ghost predicate ThreadOk(th: Thread, h: History, founded: bool) {
    match th
    case OfferingLogin(_) => true
    case HoldingLogin(c) => Held(c, Login, h)
    case VerifyingLogin(c, _) => Held(c, Login, h)
    case HoldingRegistration(c) => Held(c, Registration, h)
    case Authenticating(goal, token) => GoalOk(goal, token, h)
    case Touching(goal, token, who, _) => GoalOk(goal, token, h) && KnownIdentity(who, token, h) && founded
    case Authorized(goal, token, who) => GoalOk(goal, token, h) && KnownIdentity(who, token, h) && founded
    case BoundStepUp(c, session) => Held(c, StepUp, h) && FullyBound(c) && c.sessionId == Some(session.sessionId)
    case VerifyingStepUp(c, session, _) =>
      Held(c, StepUp, h) && FullyBound(c) && c.sessionId == Some(session.sessionId)
  }

  function GoalOf(th: Thread): Option<Goal> {
    match th
    case Authenticating(goal, _) => Some(goal)
    case Touching(goal, _, _, _) => Some(goal)
    case Authorized(goal, _, _) => Some(goal)
    case _ => None
  }

  /** The flow whose consumed step-up challenge this caller may still turn into a receipt. */
  function HeldFlow(th: Thread): Option<Id> {
    match th
    case BoundStepUp(c, _) => Some(c.flowId)
    case VerifyingStepUp(c, _, _) => Some(c.flowId)
    case _ =>
      var goal := GoalOf(th);
      if goal.Some? && goal.value.Redeem? then Some(goal.value.challenge.flowId) else None
  }

  /** The spent receipt this caller may still turn into an act. */
  function HeldReceipt(th: Thread): Option<Id> {
    var goal := GoalOf(th);
    if goal.Some? && goal.value.Carry? then Some(goal.value.receiptId) else None
  }

  ghost predicate FlowsHeldOnce(threads: map<nat, Thread>, issued: map<Id, Issued>) {
    && (forall t, u :: t in threads && u in threads && t != u && HeldFlow(threads[t]).Some? ==>
          HeldFlow(threads[t]) != HeldFlow(threads[u]))
    && (forall t, id :: t in threads && id in issued ==> HeldFlow(threads[t]) != Some(issued[id].flowId))
  }

  ghost predicate ReceiptsHeldOnce(threads: map<nat, Thread>, acts: seq<Act>) {
    && (forall t, u :: t in threads && u in threads && t != u && HeldReceipt(threads[t]).Some? ==>
          HeldReceipt(threads[t]) != HeldReceipt(threads[u]))
    && (forall t, k :: t in threads && 0 <= k < |acts| ==> HeldReceipt(threads[t]) != Some(acts[k].receiptId))
  }

  ghost predicate ThreadsOk(threads: map<nat, Thread>, h: History, founded: bool) {
    forall t :: t in threads ==> ThreadOk(threads[t], h, founded)
  }

  /** The history a thread relies on only grows. */
  ghost predicate Extends(h: History, h': History) {
    && h.used <= h'.used && h.spent <= h'.spent
    && (forall f :: f in h.challenges ==> f in h'.challenges && h'.challenges[f] == h.challenges[f])
    && (forall id :: id in h.receipts ==> id in h'.receipts && h'.receipts[id] == h.receipts[id])
    && (forall id :: id in h.sessions ==> id in h'.sessions && h'.sessions[id] == h.sessions[id])
  }

  lemma ThreadsSurvive(threads: map<nat, Thread>, h: History, h': History, founded: bool, founded': bool)
    requires ThreadsOk(threads, h, founded) && Extends(h, h') && (founded ==> founded')
    ensures ThreadsOk(threads, h', founded')
  {
    forall t | t in threads
      ensures ThreadOk(threads[t], h', founded')
    {
      assert ThreadOk(threads[t], h, founded);
    }
  }

  // ------------------------------------------------------------------- acts and ids

  ghost predicate ActOk(a: Act, h: History) {
    && a.receiptId in h.spent && a.receiptId in h.receipts
    && Serves(h.receipts[a.receiptId].receipt, a.request)
    && h.receipts[a.receiptId].receipt.principalId == a.principalId
  }

  ghost predicate ActsOk(h: History) {
    && (forall k :: 0 <= k < |h.acts| ==> ActOk(h.acts[k], h))
    && (forall j, k :: 0 <= j < k < |h.acts| ==> h.acts[j].receiptId != h.acts[k].receiptId)
  }

  ghost predicate MintedOk(h: History, events: seq<SecurityEvent>) {
    && h.challenges.Keys <= h.minted && h.receipts.Keys <= h.minted && h.sessions.Keys <= h.minted
    && (forall id :: id in h.sessions ==> h.sessions[id].tokenHash in h.minted)
    && (forall id :: id in h.receipts ==> h.receipts[id].receipt.tokenHash in h.minted)
    && (forall e :: e in events ==> e.eventId in h.minted)
  }

  // ------------------------------------------------------------------- all together

  ghost predicate RecordsOk(s: State, h: History) {
    && ChallengesOk(s.challenges, h.challenges, h.used)
    && ReceiptsOk(s.receipts, h.receipts, h.spent)
    && IssuedOk(h.receipts, h.challenges, h.used)
    && SessionsOk(s.sessions, h.sessions, h.revoked)
  }

  ghost predicate BooksOk(s: State, h: History) {
    && ValidState(s)
    && MintedOk(h, s.events)
    && FounderOk(s.bootstrap, s.principals, h.founders, h.challenges, h.used)
    && CountersOk(s.credentials, h.uses)
    && (s.credentials != [] ==> HasFounder(s.principals))
    && ActsOk(h)
  }

  ghost predicate CallersOk(threads: map<nat, Thread>, h: History, founded: bool) {
    && ThreadsOk(threads, h, founded)
    && FlowsHeldOnce(threads, h.receipts)
    && ReceiptsHeldOnce(threads, h.acts)
  }

  ghost predicate Inv(sys: System) {
    && RecordsOk(sys.state, sys.h)
    && BooksOk(sys.state, sys.h)
    && CallersOk(sys.threads, sys.h, sys.state.principals != [])
  }
}
