/** The session and step-up ceremonies of src/admin-security/admin-security-service.ts as the
    methods they are: a read or two, then a mutation through the retry loop, over a repository
    that rivals write to at any moment. */
module AdminService {
  import opened Collections
  import opened AdminContracts
  import opened AdminTransactions
  import opened CommandStrings
  import opened OptimisticState
  import AdminCeremonies
  import AdminInvariants
  import AdminTheorems
  import RateLimiter
  import RateLimitTable
  import RecordOrder

  /** What others commit before a call's own read, before its mutation's first read, and between
      each of the mutation's reads and the swap that follows. */
  datatype Rivals = Rivals(earlier: seq<State>, before: seq<State>, windows: seq<seq<State>>)

  /** A mutation that began at `start` last saw `seen`: what was there, with the rivals' commits of its
      first windows, none of which was quiet.  It was overtaken in all of them exactly when it had as
      many as it may retry, and it swapped only in a quiet one. */
  ghost predicate Passed(start: State, rivals: Rivals, seen: State, swapped: bool, overtaken: bool) {
    exists k: nat :: LastLook(start, rivals, seen, k)
      && (overtaken <==> k == 12) && (swapped ==> Quiet(rivals.windows, k))
  }

  ghost predicate LastLook(start: State, rivals: Rivals, seen: State, k: nat) {
    && k <= 12 && seen == After(After(start, rivals.before), Before(rivals.windows, k))
    && forall j :: 0 <= j < k ==> !Quiet(rivals.windows, j)
  }

  /** How a mutation that saw `seen` last left the repository. */
  ghost predicate Settles<R(!new)>(mutate: State -> Outcome<State, R>, seen: State, reply: Reply<R>, now: State) {
    match reply
    case Done(result) => mutate(seen) == Accept(now, result)
    case Threw(error) => mutate(seen) == Reject(error) && now == seen
    case Conflict => now == seen
  }

  /** The session and principal a token stood for: an open session of an active principal that
      holds the capability. */
  ghost predicate StoodFor(s: State, token: Hash, capability: Option<Capability>, now: int, who: Identity) {
    exists x, p :: x in s.sessions && p in s.principals
      && x.tokenHash == token && x.revokedAt.None? && x.absoluteExpiresAt > now && x.idleExpiresAt > now
      && p.principalId == x.principalId && p.active && (capability.Some? ==> HasCapability(p, capability.value))
      && who.session.sessionId == x.sessionId && who.principal == p
  }

  lemma ReadStandsFor(s: State, token: Hash, capability: Option<Capability>, now: int, who: Identity, touched: Session)
    requires ReadSession(s, token, capability, now) == Some(who) && touched.sessionId == who.session.sessionId
    ensures StoodFor(s, token, capability, now, who.(session := touched))
  {
    assert who.session in s.sessions && who.principal in s.principals;
  }

  /** The states an authenticated call passes through: as its session was read, as the touch or
      the denial last saw the store, as authentication left it, as the call's own mutation last
      saw it. */
  datatype Trail = Trail(read: State, touching: State, entered: State, seen: State)

  /** What authentication answers and leaves, for a call that found the store at `start`: nothing is
      written for a token without an open session, an inactive principal, or a session seen a moment
      ago; a missing capability leaves a denial, and any other call the touch of its session, each
      unless rivals overtook it. */
  ghost predicate Entered(
      config: AdminCeremonies.Config, start: State, token: Hash, capability: Option<Capability>, now: int, deniedId: Id,
      rivals: Rivals, reply: Reply<Identity>, trail: Trail)
  {
    var s, session := trail.read, SessionByToken(trail.read, token);
    && s == After(start, rivals.earlier)
    && if !IsActiveSession(session, now) then reply == Threw(SessionInvalid) && trail.entered == s
       else
         var principal := ActivePrincipal(s, session.value.principalId);
         if principal.None? then reply == Threw(CredentialInvalid) && trail.entered == s
         else if capability.Some? && !HasCapability(principal.value, capability.value) then
           && Passed(s, rivals, trail.touching, !reply.Conflict?, reply.Conflict?)
           && (reply == Conflict || reply == Threw(CapabilityDenied))
           && trail.entered == if reply.Conflict? then trail.touching
                               else RecordEventTx(trail.touching, SecurityEvent(deniedId, AuthorizationDenied)).next
         else if now - session.value.lastSeenAt < config.sessionTouchMs then
           reply == Done(Identity(principal.value, session.value)) && trail.entered == s
         else
           && Passed(s, rivals, trail.touching, reply.Done?, reply.Conflict?)
           && (reply.Done? ==> reply.result.principal == principal.value)
           && Settles((latest: State) => TouchTx(latest, session.value.sessionId, config.sessionIdleMs, now),
                      trail.touching, SessionOf(reply), trail.entered)
  }

  function SessionOf(reply: Reply<Identity>): Reply<Session> {
    match reply
    case Done(who) => Done(who.session)
    case Threw(error) => Threw(error)
    case Conflict => Conflict
  }

  /** Whoever enters shows a token that stood for an open session. */
  lemma EnteredStoodFor(
      config: AdminCeremonies.Config, start: State, token: Hash, capability: Option<Capability>, now: int, deniedId: Id,
      rivals: Rivals, reply: Reply<Identity>, trail: Trail)
    requires Entered(config, start, token, capability, now, deniedId, rivals, reply, trail) && reply.Done?
    ensures StoodFor(trail.read, token, capability, now, reply.result)
  {
    var s, session := trail.read, SessionByToken(trail.read, token);
    var who := Identity(ActivePrincipal(s, session.value.principalId).value, session.value);
    assert ReadSession(s, token, capability, now) == Some(who);
    ReadStandsFor(s, token, capability, now, who, reply.result.session);
  }

  /** How a call answers when an earlier part of it failed. */
  function Relay<Q, R>(failed: Reply<Q>): Reply<R>
    requires !failed.Done?
  {
    if failed.Threw? then Threw(failed.error) else Conflict
  }

  /** `receipt` was unspent in `seen`, bound to `who`, served `request`, and is spent in `after`. */
  ghost predicate SpentFor(seen: State, who: Identity, request: Request, receipt: Receipt, now: int, after: State) {
    && receipt in seen.receipts && receipt.consumedAt.None? && receipt.expiresAt > now
    && receipt.principalId == who.principal.principalId && receipt.sessionId == who.session.sessionId
    && AdminInvariants.Serves(receipt, request)
    && (forall r :: r in after.receipts && r.receiptId == receipt.receiptId ==> r.consumedAt == Some(now))
  }

  lemma SpentByTransaction(
      s: State, who: Identity, request: Request, event: SecurityEvent, now: int, receipt: Receipt, after: State)
    requires ConsumeReceiptTx(s, who, RequestCapability(request), Command(request), request.fingerprint,
                              request.receiptToken, event, now)
             == Accept(after, receipt)
    ensures SpentFor(s, who, request, receipt, now, after)
  {
    hide Command, RequestCapability;
  }

  /** `count` is how many sessions of `seen` the sweep switched; it switched the open ones of
      `principalId`, left none of them open, and touched nothing but sessions and events. */
  ghost predicate AllRevoked(seen: State, principalId: string, now: int, count: nat, after: State) {
    && |after.sessions| == |seen.sessions| && count == |AdminTheorems.Switched(seen.sessions, after.sessions)|
    && (forall i :: i in AdminTheorems.Switched(seen.sessions, after.sessions) ==>
          && seen.sessions[i].principalId == principalId && seen.sessions[i].revokedAt.None?
          && after.sessions[i] == seen.sessions[i].(revokedAt := Some(now)))
    && (forall x :: x in after.sessions && x.principalId == principalId ==> x.revokedAt.Some?)
    && after.(sessions := seen.sessions, events := seen.events) == seen
  }

  /** What `consumeStepUpReceipt` answers and leaves, for a call that found the store at `start`. */
  ghost predicate Consumed(
      config: AdminCeremonies.Config, start: State, request: Request, token: Hash, eventId: Id, deniedId: Id,
      authNow: int, now: int, first: Rivals, rivals: Rivals, reply: Reply<Receipt>, auth: Reply<Identity>,
      trail: Trail, after: State)
  {
    && Entered(config, start, token, Some(RequestCapability(request)), authNow, deniedId, first, auth, trail)
    && (!auth.Done? ==> reply == Relay(auth) && after == trail.entered)
    && (auth.Done? ==> Passed(trail.entered, rivals, trail.seen, reply.Done?, reply.Conflict?))
    && (reply.Done? ==>
          && auth.Done? && SpentFor(trail.seen, auth.result, request, reply.result, now, after)
          && var event := SecurityEvent(eventId, StepUpReceiptConsumed);
             after == trail.seen.(receipts := Spend(trail.seen.receipts, reply.result.receiptId, now),
                                  events := AppendEvent(trail.seen.events, event)))
    && (auth.Done? && !reply.Done? ==> after == trail.seen)
    && (auth.Done? && reply.Threw? ==>
          && reply.error == StepUpInvalid
          && ConsumeReceiptTx(trail.seen, auth.result, RequestCapability(request), Command(request),
                              request.fingerprint, request.receiptToken,
                              SecurityEvent(eventId, StepUpReceiptConsumed), now).Reject?)
  }

  /** The two halves of a kill-switch authorisation: spending the receipt, then authenticating
      again and recording. */
  datatype Authorisation = Authorisation(
    consumed: Reply<Receipt>, first: Reply<Identity>, spending: Trail, spent: State, second: Reply<Identity>,
    recording: Trail)

  /** The states a rate-limited call passes through: as the count last saw the store, as it left it,
      and as the record of a denial last saw it. */
  datatype Count = Count(seen: State, counted: State, denied: State)

  /** Nothing but the table changes, and the key's record takes the single-key step of a check,
      unless capacity cuts it off. */
  ghost predicate Counted(limiter: RateLimiter.Config, seen: State, key: RateLimiter.Key, now: int, after: State) {
    && after == seen.(rateLimits := RateLimitTable.CheckTable(seen.rateLimits, key, now, limiter))
    && (UniqueBy(seen.rateLimits, RecordOrder.KeyOf) ==>
          var others := RateLimitTable.Others(RateLimitTable.Active(seen.rateLimits, now), key);
          RateLimitTable.Lookup(after.rateLimits, key)
          == if RecordOrder.Newer(others, now) < limiter.maxEntries then
               RateLimiter.KeyStep(key, RateLimitTable.Lookup(seen.rateLimits, key),
                                   RateLimiter.KeyEvent(RateLimiter.Check, now), limiter)
             else None)
  }

  lemma TableCounts(limiter: RateLimiter.Config, seen: State, key: RateLimiter.Key, now: int)
    ensures Counted(limiter, seen, key, now,
                    seen.(rateLimits := RateLimitTable.CheckTable(seen.rateLimits, key, now, limiter)))
  {
    if UniqueBy(seen.rateLimits, RecordOrder.KeyOf) {
      RateLimitTable.OwnStepExactly(
        seen.rateLimits, RateLimitTable.Event(RateLimitTable.CheckOp, key, now), limiter);
    }
  }

  class AdminSecurityService {
    const repository: Repository<State>
    const config: AdminCeremonies.Config

    constructor (repository: Repository<State>, config: AdminCeremonies.Config)
      ensures this.repository == repository && this.config == config
    {
      this.repository := repository;
      this.config := config;
    }

    method Mutate<R(!new)>(mutate: State -> Outcome<State, R>, rivals: Rivals)
        returns (reply: Reply<R>, ghost seen: State)
      modifies repository
      ensures Settles(mutate, seen, reply, repository.state)
      ensures Passed(old(repository.state), rivals, seen, reply.Done?, reply.Conflict?)
    {
      repository.Interfere(rivals.before);
      ghost var start := repository.state;
      ghost var attempts;
      reply, attempts := repository.MutateAdminSecurityState(mutate, DEFAULT_CONFLICT_RETRIES, rivals.windows);
      seen := After(start, Before(rivals.windows, attempts));
      assert LastLook(old(repository.state), rivals, seen, attempts);
    }

    method AuthenticateSession(token: Hash, capability: Option<Capability>, now: int, deniedId: Id, rivals: Rivals)
        returns (reply: Reply<Identity>, ghost trail: Trail)
      modifies repository
      ensures Entered(config, old(repository.state), token, capability, now, deniedId, rivals, reply, trail)
      ensures repository.state == trail.entered == trail.seen
      ensures reply.Done? ==> StoodFor(trail.read, token, capability, now, reply.result)
    {
      repository.Interfere(rivals.earlier);
      var _, s := repository.Read();
      ghost var touching;
      trail := Trail(s, s, s, s);
      var session := SessionByToken(s, token);
      if !IsActiveSession(session, now) {
        return Threw(SessionInvalid), trail;
      }
      var principal := ActivePrincipal(s, session.value.principalId);
      if principal.None? {
        return Threw(CredentialInvalid), trail;
      }
      if capability.Some? && !HasCapability(principal.value, capability.value) {
        var event := SecurityEvent(deniedId, AuthorizationDenied);
        var denied;
        denied, touching := Mutate((latest: State) => RecordEventTx(latest, event), rivals);
        trail := Trail(s, touching, repository.state, repository.state);
        return if denied.Conflict? then Conflict else Threw(CapabilityDenied), trail;
      }
      var who := Identity(principal.value, session.value);
      if now - session.value.lastSeenAt < config.sessionTouchMs {
        EnteredStoodFor(config, old(repository.state), token, capability, now, deniedId, rivals, Done(who), trail);
        return Done(who), trail;
      }
      var id, idleMs := session.value.sessionId, config.sessionIdleMs;
      var touched;
      touched, touching := Mutate((latest: State) => TouchTx(latest, id, idleMs, now), rivals);
      trail := Trail(s, touching, repository.state, repository.state);
      if touched.Done? {
        reply := Done(who.(session := touched.result));
        EnteredStoodFor(config, old(repository.state), token, capability, now, deniedId, rivals, reply, trail);
      } else {
        reply := if touched.Threw? then Threw(touched.error) else Conflict;
      }
    }

    /** Ends the open session of a token; anything else leaves what rivals left. */
    method Logout(token: Hash, eventId: Id, now: int, rivals: Rivals) returns (reply: Reply<Id>, ghost seen: State)
      modifies repository
      ensures Passed(old(repository.state), rivals, seen, reply.Done?, reply.Conflict?)
      ensures reply.Done? ==>
                && (exists x :: x in seen.sessions && x.tokenHash == token && x.revokedAt.None?
                                && x.sessionId == reply.result)
                && repository.state == seen.(sessions := EndSession(seen.sessions, reply.result, now),
                                             events := AppendEvent(seen.events, SecurityEvent(eventId, SessionRevoked)))
      ensures !reply.Done? ==> repository.state == seen
      ensures reply.Threw? ==>
                reply.error == SessionInvalid
                && (SessionByToken(seen, token).None? || SessionByToken(seen, token).value.revokedAt.Some?)
    {
      var event := SecurityEvent(eventId, SessionRevoked);
      reply, seen := Mutate((s: State) => LogoutTx(s, token, event, now), rivals);
    }

    /** Only an administrator's token gets to the mutation, and then the target's sessions and
        the event are all that changes. */
    method RevokeSession(
        token: Hash, target: Id, eventId: Id, deniedId: Id, authNow: int, now: int, first: Rivals, rivals: Rivals)
        returns (reply: Reply<()>, ghost auth: Reply<Identity>, ghost trail: Trail)
      modifies repository
      ensures Entered(config, old(repository.state), token, Some(AdminSessionManage), authNow, deniedId, first, auth,
                      trail)
      ensures !auth.Done? ==> reply == Relay(auth) && repository.state == trail.entered
      ensures auth.Done? ==> Passed(trail.entered, rivals, trail.seen, reply.Done?, reply.Conflict?)
      ensures reply.Done? ==>
                && auth.Done? && (exists x :: x in trail.seen.sessions && x.sessionId == target)
                && repository.state
                   == trail.seen.(sessions := RevokeIfOpen(trail.seen.sessions, target, now),
                                  events := AppendEvent(trail.seen.events, SecurityEvent(eventId, SessionRevoked)))
                && forall x :: x in repository.state.sessions && x.sessionId == target ==> x.revokedAt.Some?
      ensures auth.Done? && !reply.Done? ==> repository.state == trail.seen
      ensures auth.Done? && reply.Threw? ==> reply.error == SessionInvalid && SessionById(trail.seen, target).None?
    {
      var entered;
      entered, trail := AuthenticateSession(token, Some(AdminSessionManage), authNow, deniedId, first);
      auth := entered;
      if !entered.Done? {
        return Relay(entered), auth, trail;
      }
      var event := SecurityEvent(eventId, SessionRevoked);
      ghost var seen;
      reply, seen := Mutate((s: State) => RevokeSessionTx(s, target, event, now), rivals);
      trail := trail.(seen := seen);
    }

    /** Answers how many sessions it switched, and leaves none of the principal's open. */
    method RevokeAllSessions(
        token: Hash, principalId: Option<string>, eventId: Id, deniedId: Id, authNow: int, now: int, first: Rivals,
        rivals: Rivals)
        returns (reply: Reply<nat>, ghost auth: Reply<Identity>, ghost trail: Trail)
      modifies repository
      ensures Entered(config, old(repository.state), token, Some(AdminSessionManage), authNow, deniedId, first, auth,
                      trail)
      ensures !auth.Done? ==> reply == Relay(auth) && repository.state == trail.entered
      ensures auth.Done? ==>
                var target := if principalId.Some? then principalId.value else auth.result.principal.principalId;
                if !SafeIdentifier(target) then reply == Threw(InputInvalid) && repository.state == trail.entered
                else
                  && Passed(trail.entered, rivals, trail.seen, reply.Done?, reply.Conflict?) && !reply.Threw?
                  && (reply.Conflict? ==> repository.state == trail.seen)
                  && (reply.Done? ==>
                        && AllRevoked(trail.seen, target, now, reply.result, repository.state)
                        && repository.state.events
                           == AppendEvent(trail.seen.events, SecurityEvent(eventId, AllSessionsRevoked)))
    {
      var entered;
      entered, trail := AuthenticateSession(token, Some(AdminSessionManage), authNow, deniedId, first);
      auth := entered;
      if !entered.Done? {
        return Relay(entered), auth, trail;
      }
      var subject := if principalId.Some? then principalId.value else entered.result.principal.principalId;
      if !SafeIdentifier(subject) {
        return Threw(InputInvalid), auth, trail;
      }
      var event := SecurityEvent(eventId, AllSessionsRevoked);
      ghost var seen;
      reply, seen := Mutate((s: State) => RevokeAllTx(s, subject, event, now), rivals);
      trail := trail.(seen := seen);
      AdminTheorems.RevokeAllCountsExactly(seen, subject, event, now);
    }

    /** Spends the receipt of `request` for the session the token stood for when it was read; the
        receipt served that very request and was not spent before.  Whatever fails leaves what
        authentication and rivals left. */
    method ConsumeStepUpReceipt(
        request: Request, token: Hash, eventId: Id, deniedId: Id, authNow: int, now: int, first: Rivals, rivals: Rivals)
        returns (reply: Reply<Receipt>, ghost auth: Reply<Identity>, ghost trail: Trail)
      modifies repository
      ensures !SafeIdentifier(Command(request)) ==>
                reply == Threw(InputInvalid) && repository.state == old(repository.state)
      ensures SafeIdentifier(Command(request)) ==>
                Consumed(config, old(repository.state), request, token, eventId, deniedId, authNow, now, first, rivals,
                         reply, auth, trail, repository.state)
    {
      if !SafeIdentifier(Command(request)) {
        ghost var s := repository.state;
        return Threw(InputInvalid), Conflict, Trail(s, s, s, s);
      }
      var entered;
      entered, trail := AuthenticateSession(token, Some(RequestCapability(request)), authNow, deniedId, first);
      auth := entered;
      if !entered.Done? {
        return Relay(entered), auth, trail;
      }
      var caller := entered.result;
      var event := SecurityEvent(eventId, StepUpReceiptConsumed);
      ghost var seen;
      reply, seen := Mutate(
        (s: State) =>
          ConsumeReceiptTx(s, caller, RequestCapability(request), Command(request), request.fingerprint,
                           request.receiptToken, event, now),
        rivals);
      trail := trail.(seen := seen);
      if reply.Done? {
        SpentByTransaction(seen, caller, request, event, now, reply.result, repository.state);
      }
    }

    /** An authorisation is granted only after a receipt for this switch and state was spent by
        the session the token stood for, and only if the token still stood for one afterwards.
        A call that fails after that has still spent the receipt; one that fails before has not. */
    method AuthorizeKillSwitchChange(
        request: Request, token: Hash, ids: seq<Id>, clock: seq<int>, rivals: seq<Rivals>)
        returns (reply: Reply<string>, ghost call: Authorisation)
      requires request.KillSwitch? && |ids| == 4 && |clock| == 3 && |rivals| == 4
      modifies repository
      ensures !Presentable(request) ==>
                reply == Threw(InputInvalid) && repository.state == old(repository.state)
      ensures Presentable(request) ==>
                Consumed(config, old(repository.state), request, token, ids[0], ids[1], clock[0], clock[1], rivals[0],
                         rivals[1], call.consumed, call.first, call.spending, call.spent)
      ensures Presentable(request) && !call.consumed.Done? ==>
                reply == Relay(call.consumed) && repository.state == call.spent
      ensures Presentable(request) && call.consumed.Done? ==>
                && Entered(config, call.spent, token, Some(AdminKillSwitchControl), clock[2], ids[2], rivals[2],
                           call.second, call.recording)
                && (!call.second.Done? ==> reply == Relay(call.second) && repository.state == call.recording.entered)
                && (call.second.Done? ==>
                      && Passed(call.recording.entered, rivals[3], call.recording.seen, reply.Done?, reply.Conflict?)
                      && !reply.Threw?
                      && (reply.Conflict? ==> repository.state == call.recording.seen)
                      && (reply.Done? ==>
                            && reply.result == call.second.result.principal.principalId
                            && repository.state
                               == RecordEventTx(call.recording.seen, SecurityEvent(ids[3], KillSwitchAuthorized)).next))
      ensures reply.Done? ==> Presentable(request) && call.consumed.Done? && call.second.Done?
    {
      ghost var s := repository.state;
      call := Authorisation(Conflict, Conflict, Trail(s, s, s, s), s, Conflict, Trail(s, s, s, s));
      if !SafeIdentifier(request.switchId) {
        return Threw(InputInvalid), call;
      }
      var consumed;
      ghost var first, spending;
      consumed, first, spending :=
        ConsumeStepUpReceipt(request, token, ids[0], ids[1], clock[0], clock[1], rivals[0], rivals[1]);
      call := Authorisation(consumed, first, spending, repository.state, Conflict, call.recording);
      if !consumed.Done? {
        return Relay(consumed), call;
      }
      var second;
      ghost var recording;
      second, recording := AuthenticateSession(token, Some(AdminKillSwitchControl), clock[2], ids[2], rivals[2]);
      call := call.(second := second, recording := recording);
      if !second.Done? {
        return Relay(second), call;
      }
      var event := SecurityEvent(ids[3], KillSwitchAuthorized);
      var recorded;
      ghost var seen;
      recorded, seen := Mutate((latest: State) => RecordEventTx(latest, event), rivals[3]);
      call := call.(recording := recording.(seen := seen));
      reply := if recorded.Done? then Done(second.result.principal.principalId) else Conflict;
    }

    /** `#checkRateLimit`: the call counts against the table as rivals left it; one that exceeds a
        limit is recorded as denied after that, unless the record meets a conflict. */
    method CheckRateLimit(key: RateLimiter.Key, now: int, eventId: Id, first: Rivals, rivals: Rivals)
        returns (reply: Reply<()>, ghost count: Count)
      modifies repository
      ensures
        || (&& reply.Conflict? && Passed(old(repository.state), first, count.seen, false, true)
            && repository.state == count.seen)
        || (&& Passed(old(repository.state), first, count.seen, true, false)
            && Counted(config.limiter, count.seen, key, now, count.counted)
            && if RateLimitTable.CheckPermits(count.seen.rateLimits, key, now, config.limiter) then
                 reply == Done(()) && repository.state == count.counted
               else
                 && Passed(count.counted, rivals, count.denied, reply.Threw?, reply.Conflict?)
                 && (|| (reply.Conflict? && repository.state == count.denied)
                     || (&& reply == Threw(RateLimitExceeded)
                         && repository.state == RecordEventTx(count.denied, SecurityEvent(eventId, RateLimited)).next)))
    {
      var limiter := config.limiter;
      var permitted;
      ghost var seen;
      permitted, seen := Mutate(
        (s: State) =>
          Accept(s.(rateLimits := RateLimitTable.CheckTable(s.rateLimits, key, now, limiter)),
                 RateLimitTable.CheckPermits(s.rateLimits, key, now, limiter)),
        first);
      count := Count(seen, repository.state, repository.state);
      if !permitted.Done? {
        return Conflict, count;
      }
      TableCounts(limiter, seen, key, now);
      if permitted.result {
        return Done(()), count;
      }
      var event := SecurityEvent(eventId, RateLimited);
      var recorded;
      ghost var denied;
      recorded, denied := Mutate((s: State) => RecordEventTx(s, event), rivals);
      count := count.(denied := denied);
      reply := if recorded.Done? then Threw(RateLimitExceeded) else Conflict;
    }
  }
}
