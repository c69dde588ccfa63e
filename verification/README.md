# Verified models of the MV AI OS core

This project models, in Dafny, the parts of the repository whose correctness depends on
interleavings, on whole runs, or on several functions agreeing with each other, and proves what
those parts promise. `dafny verify dfyconfig.toml` checks everything.

**Admin security** (`src/admin-security/`). One state record sits behind an optimistic
compare-and-set. `OptimisticState` is the retry loop, as a small-step machine of many callers and
as the loop itself over a `Repository` that rivals write to. `AdminContracts` holds the records, `AdminTransactions` the mutation closures,
`CommandStrings` the command builders. `AdminCeremonies` is the machine of all ceremonies: every
caller is a program counter between reads and atomic mutations, callers interleave freely, may stop
anywhere and bring their own clocks; `AdminAtomicity` proves that whatever concurrent retry loops
commit is a path of that machine, and `AdminRetries` that a machine with the retry loops inside, where
callers arrive, read, compute and commit in any order, only has runs of that machine. `AdminInvariants`, `AdminPreservation`, `AdminRuns` and
`AdminHistory` carry its invariant through every step and every run; `AdminTheorems` and
`AdminStateClauses` state what follows. `AdminIdentities` says who the principals are and what they
may do, `AdminTrails`, `AdminFounder`, `AdminSessions` and `AdminLogins` which steps, in what order and
within what time, lead to an act, a founder, a session and its end, and `AdminAudit` what the event
list tells of all that. `AdminSchedules` says when a receipt is spent, by the
positions of its caller's own reads in the run, `AdminCounters` when an assertion commits, and
`AdminWitness` plays a run in which that happens after the session was revoked. `AdminService` has the
session and receipt ceremonies as the methods they are, each mutation through the retry loop under
arbitrary rival writes. `RateLimiter` is the limiter seen from one key, `RateLimitTable` the stored
table, `RateLimitAnswers` exactly which checks are let through, `PersistentRateLimiter` the limiter
class, `RecordOrder` its capacity cut.

**Agent Company workday** (`src/agent-company/`). `AgentCompany` has the records, the validator's
clauses, gates, rewrites and repository rules, and the real catalogue and dependency graph.
`WorkdayMachine` is any number of racing, crashing runners over one workday; `WorkdayShape` and
`WorkdayInvariants` prove what every reachable state keeps, `WorkdayTheorems` and
`WorkdayAcceptance` what follows, `WorkdayRecords` what every stored task tells of its attempt,
`WorkdayOutcome` which catalogues let a day end at all, and `WorkdayRaces` which of several runners gets
to store. `WorkdayService` is `run` as the loop it is, over the store it updates. `References` covers reference briefs and the provenance check.

**Compact algorithms.** `TitleWrap` is the greedy title wrap. `RuntimeCatalog` is the executor
catalogue and its resolver. `GuardianConsultation` and `DelegationPolicy` are the consultation and
the delegation decision built on it, `GuardianAcceptance` and `DelegationAcceptance` the validators
around them, `Redaction` what those ask of identifiers and texts. `ReadinessOrder` and `ReadinessReport` are the readiness
report and its validator. `Collections`, `StableSort` and `Collation` hold list and string idioms.

## What the models found

- A kill switch whose identifier has 109 characters can be authorised ON but never OFF: the command
  string is checked as an identifier of at most 128 characters, and `:OFF` is one character longer
  (`CommandStrings.PresentableExactly`, for such a switch `CommandStrings.OnButNeverOff`).
- A step-up receipt can be spent after its session was revoked. `consumeStepUpReceipt` reads the
  session before its mutation, which does not look at it again, so the spend commits exactly when the
  caller's own last look came before the revocation and the receipt is otherwise good
  (`AdminSchedules.RevokedSessionSpendsExactly`); `AdminWitness.ReceiptOutlivesItsSession` gives such
  a run. A call that begins after the revocation is refused (`AdminTheorems.RevokedIsLockedOut`), and
  so is the act the receipt was spent for, which reads the session once more.
- The rate limiter bounds a key only while the key keeps time: a check that lies before its stored
  window starts a new one, and so does a check after a sweep that another clock made too early
  (`RateLimitTable.BackwardClocksLiftTheQuota`, `RateLimitTable.ForwardClocksForgetTheWindow`); under
  that condition the bound holds whatever the other keys' clocks say (`RateLimitTable.KeyQuota`).
- A failure recorded more than the retention time after its check makes pruning visible
  (`RateLimitTable.LateFailureMakesPruningVisible`); the stored records are those of a map that never
  forgets exactly when no failure was counted anew (`RateLimitTable.TableRecordsAgreeExactly`).
- The workday's dependency-block branch can never store anything, for any catalogue: a task it would
  block has no start time, which the validator wants of a blocked task
  (`WorkdayTheorems.DependencyBranchStoresNothing`). A runner gets there exactly when the catalogue
  puts a task before one of its dependencies and all before it can be completed
  (`WorkdayOutcome.DependencyBranchExactly`, for such a catalogue `WorkdayOutcome.UpsideDownIsStuck`).
- A company's day reaches AWAITING_FABIO in some run exactly when the catalogue is topological and no
  executor always throws (`WorkdayOutcome.AwaitsFabioExactly`). The real company's backup guardian
  always does (`WorkdayTheorems.OnlywayNeverAwaitsFabio`).
- Without the attention-acknowledgement flag, delegating less can be refused where delegating more is
  allowed; `DelegationPolicy.SubsetRefusedExactly` says exactly when, and
  `DelegationAcceptance.LessCanBeRefused` gives two requests the program accepts.
- A delegation request that its validator accepts can still get no answer, because the decision is
  refused by a validator of its own: exactly when a consultation that blocks gives no reason, or when
  what the decision repeats of the consultation carries a marker word that only the second validator
  looks for (`DelegationAcceptance.AnsweredExactly`). With the program's own consultation only an
  approval identifier such as `rotate-secret` is left (`OwnConsultationAnsweredExactly`). Accepted
  requests for all three: `ReasonlessBlockIsRefused`, `MarkedApprovalIsRefused`,
  `MarkedBlockerIsRefused`.

## Model

| member | source | states |
|---|---|---|
| OptimisticState.EveryInterleavingIsSerial | src/admin-security/admin-security-state.ts:14-34 | for every interleaving of any number of callers the register equals the committed mutations run one at a time in revision order; a normal return committed exactly once with that result, a throw or exhausted retries committed nothing, and exhaustion takes at least that many rival commits |
| OptimisticState.Repository.CompareAndSet | src/admin-security/admin-security-repository.ts:9-15 | swaps exactly when the expected revision is current, and otherwise changes nothing |
| OptimisticState.Repository.MutateAdminSecurityState | src/admin-security/admin-security-state.ts:14-34 | under any schedule of rival commits the loop returns exactly when some attempt meets a quiet window, with its mutation applied once to what the rivals left; a conflict means every attempt was overtaken and nothing was written |
| AdminAtomicity.LoopsAreAtomicSteps | src/admin-security/admin-security-state.ts:14-34 | from any state of the ceremony machine, the retry loops of any number of concurrent calls of different callers, with reads and swaps in any order, commit exactly a path of atomic steps of that machine, one per call that committed |
| AdminRetries.RetryRunsAreRuns | src/admin-security/admin-security-state.ts:14-40 | with the retry loops inside the ceremony machine, calls arriving, looking, swapping, conflicting and giving up between any steps of other callers, the systems of every run are a run of the machine with atomic mutations |
| AdminTheorems.EveryActHasItsOwnStepUp | src/admin-security/admin-security-service.ts:887-1270 | in every state of every run each kill-switch authorisation or service registration is covered by a spent receipt, earned by a used step-up challenge with equal principal, session, capability, command and fingerprint, and no two acts share a receipt or a challenge |
| AdminTrails.EveryActWasLedTo | src/admin-security/admin-security-service.ts:887-1270 | over every run, behind each kill-switch authorisation and service registration stand five steps of the founder's in this order: a challenge asked for this very command, consumed from the same source within its lifetime, a receipt earned for it by an assertion of the founder's credential under a session still open, spent within its own lifetime, and the act, all for one capability, command, fingerprint and session |
| AdminIdentities.OnlyFounderAndServices | src/admin-security/admin-security-service.ts:1170-1229 | over every run the only principals are the founder, with the founder's role, and services with the one runtime capability of their profile |
| AdminIdentities.HoldsExactly | src/admin-security/admin-security-contracts.ts:362-393 | what an active principal may do: its own grants, everything for a founder, reading for any other role with commands for an operator and the event list for an auditor, and a service's one capability |
| AdminAudit.EverySuccessIsOnRecord | src/admin-security/admin-security-service.ts:1611-1615 | over every run there is a log without repeated events of which the state holds exactly the newest 5000, and in which founder registrations, logins, step-ups and spent receipts stand as often as they committed and the acts stand in their order |
| AdminTheorems.NoOtherOperationFits | src/admin-security/admin-security-service.ts:1507-1521 | the command such a challenge named fits no request for another switch, state, service principal or profile |
| AdminTheorems.NothingServesTwice | src/admin-security/admin-security-service.ts:1344-1382 | in whatever follows, pruning included, a used challenge and a spent receipt are refused for every caller, operation, source and clock |
| AdminTheorems.ConsumableExactly | src/admin-security/admin-security-service.ts:1352-1381 | a challenge is consumed exactly when one of that flow and kind is stored, unused, unexpired and from the same source |
| AdminTheorems.SpendableExactly | src/admin-security/admin-security-service.ts:1132-1166 | in every reachable state a receipt is spent exactly when the one its token stands for is unspent, unexpired and bound to this caller, session and operation |
| AdminTheorems.ChallengeKeptExactly | src/admin-security/admin-security-service.ts:1562-1577 | which challenges pruning drops: exactly those used over five minutes ago, or with 255 retained ones after them |
| AdminTheorems.SessionKeptExactly | src/admin-security/admin-security-service.ts:1579-1593 | which sessions pruning drops: exactly the closed and expired, or with 1023 live ones after them |
| AdminTheorems.ReceiptKeptExactly | src/admin-security/admin-security-service.ts:1595-1609 | which receipts pruning drops: exactly the spent and expired, or with 511 live ones after them |
| AdminSchedules.SpendCommitsExactly | src/admin-security/admin-security-service.ts:1106-1166 | over every run, an attempt to spend a receipt commits exactly when the session was not yet revoked at the caller's own last look, that look found it unexpired and its principal entitled, and the receipt is unspent, unexpired and made out for this session, principal and request when the mutation commits |
| AdminSchedules.RevokedSessionSpendsExactly | src/admin-security/admin-security-service.ts:1106-1166 | of a session revoked meanwhile: exactly when the position of that look precedes the position of the revocation, the other conditions being the same |
| AdminWitness.ReceiptOutlivesItsSession | src/admin-security/admin-security-service.ts:1106-1166 | a run from the empty state, at any settings, whose caller looks at its session, another call logs the session out, and the spend commits all the same |
| AdminService.AdminSecurityService.AuthenticateSession | src/admin-security/admin-security-service.ts:680-750 | under arbitrary rival writes it succeeds only for a token that stood for an open session of an active and capable principal when it was read; an inactive session and an unavailable principal have their own errors; what it leaves is what rivals left, or that with the touch of that session, or, on a denial, that with the denial event |
| AdminService.AdminSecurityService.Logout | src/admin-security/admin-security-service.ts:752-789 | on success what rivals left, with the open session of that token revoked now and the event added, otherwise just what rivals left; it refuses only a token without an open session |
| AdminService.AdminSecurityService.RevokeSession | src/admin-security/admin-security-service.ts:791-835 | only an administrator's token gets there; then what rivals left, with no record of the existing target open and the event added, and nothing but what rivals left when it fails |
| AdminService.AdminSecurityService.RevokeAllSessions | src/admin-security/admin-security-service.ts:837-885 | the answer is the number of sessions that changed, against what rivals left when the loop committed; exactly the open ones of the principal changed, and a failure leaves what rivals left |
| AdminService.AdminSecurityService.ConsumeStepUpReceipt | src/admin-security/admin-security-service.ts:1106-1168 | authentication, then on success what rivals left in between, where the receipt was unspent, unexpired, bound to the caller's session and principal and served this very request, with that receipt spent and the event added; on failure nothing but what authentication or rivals left |
| AdminService.AdminSecurityService.AuthorizeKillSwitchChange | src/admin-security/admin-security-service.ts:1231-1270 | a receipt spent for this switch and state, a second authentication from the state that left, and a record from the state that left, in that order, each link tied to the one before; whatever fails leaves the last state reached |
| AdminService.AdminSecurityService.CheckRateLimit | src/admin-security/admin-security-service.ts:1323-1342 | a check through the retry loop: against what rivals left the table alone changes, its key's record by the single-key step; a call that stays open answers, another is refused, and its denial recorded against what rivals left then |
| AdminTheorems.OneFounder | src/admin-security/admin-security-service.ts:415-452 | over every run the founder exists exactly when the bootstrap is consumed and exactly when one registration committed, never more, from a used registration challenge bound to the bootstrap the state names |
| AdminTheorems.NoSecondFounder | src/admin-security/admin-security-service.ts:268-299 | after one registration every later registration, bootstrap creation and registration start is refused, however the run goes on |
| AdminTheorems.FounderCommitSawItsBootstrap | src/admin-security/admin-security-service.ts:415-452 | a registration that commits saw its own token in the unconsumed and unexpired bootstrap, with no principal stored yet |
| AdminFounder.FounderWasLedTo | src/admin-security/admin-security-service.ts:229-452 | over every run a founder was led to by the creation of the secret, a challenge offered to whoever showed that secret while it was good, its consumption from the same source within its lifetime, and a registration before the secret's own lifetime had passed, in that order |
| AdminFounder.CreateBootstrapExactly | src/admin-security/admin-security-service.ts:268-299 | a new secret is accepted exactly when there is no founder and no secret that was used or is still good |
| AdminTheorems.BootstrapStands | src/admin-security/admin-security-service.ts:268-299 | no operation replaces a bootstrap secret that is consumed or not yet expired |
| AdminTheorems.RevocationIsFinal | src/admin-security/admin-security-service.ts:791-885 | along every run a stored revocation time is never overwritten, the owner, token and absolute expiry never change, and the idle expiry never passes the absolute one |
| AdminTheorems.RevokedIsLockedOut | src/admin-security/admin-security-service.ts:680-750 | after a committed revocation the token authenticates nobody, the session is never extended and it finishes no step-up, in every later state |
| AdminSessions.SessionLifetimes | src/admin-security/admin-security-service.ts:582-604 | over every run each stored session was opened by a login the absolute lifetime before its absolute expiry, was last seen by that login or a later call that found it open, and its idle expiry is the earlier of the absolute one and the idle time past that |
| AdminSessions.LoginWasLedTo | src/admin-security/admin-security-service.ts:482-580 | the login that opened it held a login challenge offered to the founder and consumed from the same source within its lifetime; the session is the founder's |
| AdminLogins.EveryLoginHasItsOwnChallenge | src/admin-security/admin-security-service.ts:1344-1382 | over every run no two logins that opened a session went through the same challenge |
| AdminSessions.TokenAuthenticatesExactly | src/admin-security/admin-security-service.ts:680-728 | in every reachable state a token authenticates, for any capability, exactly when its session is stored, not revoked, before its absolute expiry and seen within the idle time, and then it stands for that session and the founder |
| AdminSessions.StaleTokenIsRefused | src/admin-security/admin-security-service.ts:1658-1666 | a token shown again once the idle time has passed since its session was last seen, or past the absolute lifetime, is refused |
| AdminSessions.LookExactly | src/admin-security/admin-security-service.ts:680-716 | in every reachable state an authenticated caller goes straight on while its session was seen within the touch interval, and otherwise has to touch it first |
| AdminSessions.TouchExactly | src/admin-security/admin-security-service.ts:717-749 | a touch succeeds exactly for an open session, moves its last-seen time and idle expiry alone, capped by the absolute one, and stores what it answers |
| AdminSessions.LogoutExactly | src/admin-security/admin-security-service.ts:752-789 | in every reachable state logging out succeeds exactly for the token of a session not yet revoked, and revokes that one alone |
| AdminSessions.RevokeOneExactly | src/admin-security/admin-security-service.ts:791-835 | revoking a session succeeds exactly when it is stored, and sets its revocation time unless it has one |
| AdminSessions.RevocationWasLedTo | src/admin-security/admin-security-service.ts:752-885 | over every run a revoked session was ended at that time, while open, by its own token or by the authenticated founder who named it or its principal |
| AdminSessions.SweepClosesAll | src/admin-security/admin-security-service.ts:837-885 | after revoking all no session of the named principal, by default the caller's own, is open, and nobody else's changed |
| AdminTheorems.RevokeAllCountsExactly | src/admin-security/admin-security-service.ts:837-885 | the number returned is the number of stored sessions that changed; those are exactly the open ones of the principal, each revoked now, and none of the principal's stays open |
| AdminTheorems.CountersNeverDrop | src/admin-security/admin-security-service.ts:590-648 | no run lowers or loses a stored signature counter |
| AdminTheorems.EqualReadsOnlyAtZero | src/admin-security/admin-security-service.ts:573-644 | over every run two committed assertions of one credential read the same counter only if it was zero and the first signed zero |
| AdminTheorems.SecondLoginExactly | src/admin-security/admin-security-service.ts:606-648 | of two logins from the same read, the second commits exactly when read and signed counters were both zero |
| AdminCounters.CounterStandsExactly | src/admin-security/admin-security-service.ts:590-648 | between any two states of a run a credential keeps its counter exactly when no committed assertion of it left it above zero |
| AdminCounters.LoginCommitsExactly | src/admin-security/admin-security-service.ts:606-648 | over every run a login commits exactly when no assertion advanced the counter since its caller read it and the principal is active |
| AdminCounters.StepUpCommitsExactly | src/admin-security/admin-security-service.ts:1035-1081 | over every run a step-up commits exactly when no assertion advanced the counter since its caller read it and its session is active |
| AdminRuns.StepKeepsInv | src/admin-security/admin-security-service.ts:229-1270 | every atomic step of every ceremony keeps the invariant that ties stored records, callers in flight and history together |
| AdminRuns.RunKeepsInv | src/admin-security/admin-security-service.ts:229-1270 | so does every run of any number of interleaved ceremonies |
| AdminHistory.RunGrows | src/admin-security/admin-security-service.ts:229-1270 | between any two states of a run used, spent, issued and revoked facts are only added to, never altered |
| AdminPreservation.ConsumedChallengeHeld | src/admin-security/admin-security-service.ts:1344-1382 | a consumed flow is held by exactly one caller, and no receipt was issued for it |
| AdminPreservation.LoginAccepted | src/admin-security/admin-security-service.ts:606-648 | an accepted login read the counter that is still stored, whatever was committed since |
| AdminPreservation.StepUpAccepted | src/admin-security/admin-security-service.ts:1035-1081 | so did an accepted step-up |
| AdminPreservation.ReceiptAccepted | src/admin-security/admin-security-service.ts:1132-1166 | an accepted receipt was unspent, bound to the caller's principal and session, and served the very request |
| AdminPreservation.ActIsCovered | src/admin-security/admin-security-service.ts:1170-1270 | the principal that acts is the one the receipt in hand was issued to, although its session is read again |
| AdminInvariants.RevokeAllOk | src/admin-security/admin-security-service.ts:862-880 | after revoking all, every stored revocation time is that of the first revocation in history |
| AdminStateClauses.RefusedOnlyForSize | src/admin-security/file-admin-security-repository.ts:249-286 | in every reachable state, whatever an operation proposes passes the length and uniqueness clauses exactly when it holds at most 1024 principals and 8192 limiter records |
| AdminStateClauses.NeverRefused | src/admin-security/file-admin-security-repository.ts:249-286 | with a limiter capacity of at most 8192 and fewer than 1024 principals nothing proposed is refused for sizes or keys |
| CommandStrings.CommandPinsOperation | src/admin-security/admin-security-service.ts:1507-1521 | equal command strings mean the same kind of operation, subject and switch state or profile, although subjects may contain colons |
| CommandStrings.PresentableExactly | src/admin-security/admin-security-service.ts:1106-1123 | a request passes both identifier checks exactly when its parts fit 128 characters, hence 109 for ON and 108 for OFF |
| CommandStrings.OnButNeverOff | src/admin-security/admin-security-service.ts:1106-1123 | a switch identifier that can be presented for ON and never for OFF |
| RateLimiter.OneWindowPermitsAtMostMaxRequests | src/admin-security/persistent-admin-rate-limiter.ts:173-212 | per key that keeps time, one window lets through at most `maxRequests` whatever failures, successes, locks and sweeps occur in it |
| RateLimiter.AnyIntervalPermitsAtMostTwice | src/admin-security/persistent-admin-rate-limiter.ts:173-212 | and any interval of length `windowMs` at most twice that |
| RateLimiter.ClockOrderKeepsTime | src/admin-security/persistent-admin-rate-limiter.ts:173-212 | a key keeps time whenever all clocks are in order and windows are no longer than the retention time |
| RateLimitAnswers.UnlockedCheckExactly | src/admin-security/persistent-admin-rate-limiter.ts:173-212 | per key that keeps time, whatever other keys' clocks say: an unlocked check is let through exactly when its window is over or fewer than `maxRequests` checks were let through in it, and a refused one shuts the key until `lockoutMs` later |
| RateLimitAnswers.CheckAnsweredExactly | src/admin-security/persistent-admin-rate-limiter.ts:46-126 | over every clock-ordered run a check is let through exactly when no failure too many and no refused check of the last `lockoutMs` has shut the key without a success since, and its window is over or not full; told by calls and answers, not by records |
| RateLimitAnswers.WindowBeginsExactly | src/admin-security/persistent-admin-rate-limiter.ts:188-202 | a check begins a new window, at its own time, exactly when nothing shuts the key and the last window is over |
| RateLimitAnswers.ForgottenExactly | src/admin-security/persistent-admin-rate-limiter.ts:233-244 | a sweep forgets a record exactly when nothing shuts its key and its last call lies more than a day back |
| RateLimitAnswers.TableAnswersExactly | src/admin-security/persistent-admin-rate-limiter.ts:46-149 | the same on the stored table: in every clock-ordered run that does not evict the key a check is let through exactly when nothing has shut its key and its window is over or not full |
| RateLimitAnswers.TableUnlockedExactly | src/admin-security/persistent-admin-rate-limiter.ts:46-84 | and of a key that keeps time, whatever other clocks say, an unlocked check exactly when its window is over or not full; a refused one is stored as shut until `lockoutMs` later |
| RateLimitTable.BackwardClocksLiftTheQuota | src/admin-security/persistent-admin-rate-limiter.ts:180-202 | on the stored table, at any settings and for any n, n checks of one key at the positive times base + n down to base + 1 are all let through; the key does not keep time |
| RateLimitTable.ForwardClocksForgetTheWindow | src/admin-security/persistent-admin-rate-limiter.ts:233-244 | a run in which another key's clock, a day ahead, makes the sweep forget a record and two checks of one moment pass where one is the limit |
| RateLimiter.LockHolds | src/admin-security/persistent-admin-rate-limiter.ts:173-212 | a lock holds until it runs out or the key records a success, whatever else happens, and no later failure shortens it |
| RateLimiter.FailuresLockOut | src/admin-security/persistent-admin-rate-limiter.ts:86-126 | the failure that brings a key to `maxFailures` shuts it for `lockoutMs` |
| RateLimitTable.TableLockHolds | src/admin-security/persistent-admin-rate-limiter.ts:46-149 | the same for a stored lock in the whole table, whatever other keys do and whatever is swept |
| RateLimiter.RecordsAgreeExactly | src/admin-security/persistent-admin-rate-limiter.ts:233-244 | per key, the pruned record after every check and failure is the one without pruning exactly when each failure finds a record if the other has one |
| RateLimiter.PruningIsInvisible | src/admin-security/persistent-admin-rate-limiter.ts:233-244 | then it answers every check as one that is never forgotten |
| RateLimiter.PromptFailuresRemember | src/admin-security/persistent-admin-rate-limiter.ts:86-126 | failures recorded within the retention time of the check before them find their record |
| RateLimitTable.LateFailureMakesPruningVisible | src/admin-security/persistent-admin-rate-limiter.ts:86-126 | a clock-ordered run of the stored table in which a failure a day late is forgotten, so that a check passes that a map without pruning refuses |
| RateLimitTable.KeyQuota | src/admin-security/persistent-admin-rate-limiter.ts:46-149 | in every run of the whole table that loses no record of the key and in which the key keeps time, whatever other keys' clocks say, at most `2 * maxRequests` of its calls pass in any stretch of `windowMs` |
| RateLimitTable.KeyWindowQuota | src/admin-security/persistent-admin-rate-limiter.ts:46-149 | and at most `maxRequests` while its stored window start stays |
| RateLimitTable.TableQuota | src/admin-security/persistent-admin-rate-limiter.ts:46-149 | for clock-ordered runs it is enough that the key is not evicted |
| RateLimitTable.TableWindowQuota | src/admin-security/persistent-admin-rate-limiter.ts:46-149 | the same for one window |
| RateLimitTable.TableRecordsAgreeExactly | src/admin-security/persistent-admin-rate-limiter.ts:52-125 | over every clock-ordered run without eviction of the key, the stored table has the record of a map that never forgets exactly when no failure was counted anew |
| RateLimitTable.TablePruningIsInvisible | src/admin-security/persistent-admin-rate-limiter.ts:52-125 | then it answers each check as that map |
| RateLimitTable.TableTracksKey | src/admin-security/persistent-admin-rate-limiter.ts:233-257 | what other keys do to the shared table is invisible to a key whose record is not lost, whatever the clocks say |
| RateLimitTable.OwnStepExactly | src/admin-security/persistent-admin-rate-limiter.ts:46-126 | a check or failure leaves its key's record as the single-key step makes it exactly when fewer than `maxEntries` live records of other keys carry a later timestamp, and otherwise leaves none |
| RateLimitTable.TableFacts | src/admin-security/persistent-admin-rate-limiter.ts:246-257 | along every run each scope and key has at most one record and capacity is respected |
| RateLimitTable.JustTouchedIsKeptExactly | src/admin-security/persistent-admin-rate-limiter.ts:246-257 | the record just written is kept exactly when fewer than `maxEntries` live others carry a later timestamp |
| RateLimitTable.BelowCapacityNothingIsEvicted | src/admin-security/persistent-admin-rate-limiter.ts:246-257 | below capacity a sweep loses nothing but stale records |
| PersistentRateLimiter.PersistentAdminRateLimiter.CheckAndConsume | src/admin-security/persistent-admin-rate-limiter.ts:46-84 | after any calls, in clock order and as long as the key is not evicted, the answer is yes exactly when nothing has shut the key and its window is not full; its key's record takes the single-key step unless `maxEntries` live records of other keys are newer, and any other record still stored is as the sweep left it |
| PersistentRateLimiter.PersistentAdminRateLimiter.RecordFailure | src/admin-security/persistent-admin-rate-limiter.ts:86-126 | the record of its key counts a failure by the single-key step, unless `maxEntries` live records of other keys are newer; any other record still stored is as the sweep left it |
| PersistentRateLimiter.PersistentAdminRateLimiter.RecordSuccess | src/admin-security/persistent-admin-rate-limiter.ts:128-149 | the record of its key, if there is one, has no failures and no lock, and every other key's record is unchanged |
| RecordOrder.LastIsKeptExactly | src/admin-security/persistent-admin-rate-limiter.ts:246-257 | after the stable sort and the cut the record appended last survives exactly when fewer than `maxEntries` others are newer |
| WorkdayTheorems.CompletedIsAClosedPrefix | src/agent-company/operational-agent-company-service.ts:187-215 | whatever is stored, at any crash point and with any racing runners, the completed tasks are a catalogue prefix closed under dependencies, at most one task is running or blocked, and the day is blocked exactly when a task is |
| WorkdayTheorems.OutputsAreFinal | src/agent-company/operational-agent-company-service.ts:357-361 | a completed task is never touched again by any continuation |
| WorkdayTheorems.SettledIsAbsorbing | src/agent-company/operational-agent-company-service.ts:173-186 | once blocked or awaiting, neither record nor events ever change |
| WorkdayTheorems.ReturnedIsStored | src/agent-company/operational-agent-company-service.ts:173-216 | a run that returns hands back exactly what is stored, and that is settled |
| WorkdayTheorems.VersionIsConserved | src/agent-company/operational-agent-company-service.ts:357-361 | version equals attempts plus completed plus blocked tasks plus one if awaiting, every version up to it was announced exactly once and in order, and it stays bounded |
| WorkdayTheorems.DependencyBranchIsUnreachable | src/agent-company/operational-agent-company-service.ts:188-195 | with a topological catalogue no runner ever finds a missing task or an open dependency |
| WorkdayTheorems.DependencyBranchStoresNothing | src/agent-company/operational-agent-company-service.ts:192-195 | with any catalogue the record that branch proposes is always refused |
| WorkdayTheorems.FailingAgentNeverAwaits | src/agent-company/operational-agent-company-service.ts:196-216 | while one agent's executor always throws, no run reaches AWAITING_FABIO |
| WorkdayOutcome.AwaitsFabioExactly | src/agent-company/operational-agent-company-service.ts:173-216 | some run reaches AWAITING_FABIO exactly when the catalogue puts every dependency first and no executor in it always throws |
| WorkdayOutcome.DependencyBranchExactly | src/agent-company/operational-agent-company-service.ts:188-195 | some runner gets to the dependency branch exactly when some task stands before one of its dependencies and everything before it can be completed |
| WorkdayOutcome.UpsideDownIsStuck | src/agent-company/operational-agent-company-service.ts:188-195 | a catalogue of two agents for which a runner does, and whose day never awaits Fabio |
| WorkdayTheorems.OnlywayNeverAwaitsFabio | src/agent-company/operational-agent-company-service.ts:258 | which is the case of the real company |
| WorkdayInvariants.StepKeepsInv | src/agent-company/operational-agent-company-service.ts:173-216 | every step of every runner keeps the shape of all stored versions, the events and what runners believe |
| WorkdayInvariants.UpdateSawTheLatest | src/persistence/sqlite/sqlite-agent-company-workday-repository.ts:16 | an update that the version check lets through was computed from the very record it replaces |
| WorkdayAcceptance.ValidatorAcceptsExactly | src/agent-company/operational-agent-company-validator.ts:33-54 | in every reachable state what any runner proposes satisfies the validator exactly when attempts, duration, output size and error text stay in bounds |
| WorkdayAcceptance.GatesPassExactly | src/agent-company/operational-agent-company-service.ts:340-348 | which outputs the gates let through, exactly |
| WorkdayRecords.EveryVersionTellsItself | src/agent-company/operational-agent-company-service.ts:196-214 | over every run of racing and crashing runners, in every version ever stored: a completed task has an output that all three gates judged and let through, a blocked one names the first gate that failed, with its findings, or the error thrown, and asks for the backup receipt exactly for that conflict |
| WorkdayRecords.BackupGuardianAsksForItsReceipt | src/agent-company/operational-agent-company-service.ts:258 | in every run of the real company the backup guardian, whenever it is stored as blocked, asks for the backup receipt |
| WorkdayRecords.AttemptIsTold | src/agent-company/operational-agent-company-service.ts:357-385 | an ended attempt leaves its task with exactly its times, and the output and gates, or the gates and the blocker, that it calls for |
| WorkdayRecords.GatesJudge | src/agent-company/operational-agent-company-service.ts:340-348 | each gate's findings are exactly those the output calls for, and it passes exactly when it has none |
| WorkdayAcceptance.EveryRunTerminates | src/agent-company/operational-agent-company-service.ts:187-215 | however others interleave, a runner makes at most 2n + 3 transactions after its first read, and then has returned or thrown |
| WorkdayAcceptance.NeverStuck | src/agent-company/operational-agent-company-service.ts:187-215 | an unfinished runner always has a next transaction |
| WorkdayRaces.CommitsExactly | src/persistence/sqlite/sqlite-agent-company-workday-repository.ts:16-22 | in every reachable state of racing runners a transaction stores its record exactly when nobody stored anything since the record its runner holds, the serialised record is small enough and the bounds are met; otherwise nothing is stored |
| WorkdayRaces.OneOfTwoStores | src/agent-company/operational-agent-company-service.ts:196-214 | of two runners holding the same record one stores at most: the other, whatever it proposes and whenever, is refused and out, but for the one transaction that its handler still tries |
| WorkdayRaces.LoadsExactly | src/agent-company/operational-agent-company-service.ts:173-185 | a runner that comes later makes an untouched day of its own only where none is stored, takes up the stored one exactly when it brings that day's input, and returns it exactly when it is settled |
| WorkdayRaces.SkipsExactly | src/agent-company/operational-agent-company-service.ts:187-191 | a runner goes on without storing exactly at a completed task |
| WorkdayRaces.StoredIsSound | src/agent-company/operational-agent-company-validator.ts:33-54 | whatever is proposed, an update is stored only over a running day of the same input and the expected version and with one task changed at most; then every agent has exactly one task, a finished one with its times, all three gates and its output or blocker, an unfinished one without, and the day awaits Fabio or is blocked only if its tasks say so |
| WorkdayService.OperationalAgentCompanyService.Open | src/agent-company/operational-agent-company-service.ts:173-186 | hands back the stored record unless it was opened with another input, or inserts the initial one with its event unless the database has no room |
| WorkdayService.OperationalAgentCompanyService.Run | src/agent-company/operational-agent-company-service.ts:173-216 | whatever catalogue an undisturbed run has, whatever it finds and whatever attempts, times, outputs, messages and room in the database it meets: a refused insert, a conflict or a settled day ends it at once, else it ends as its loop does; every version is announced once |
| WorkdayService.OperationalAgentCompanyService.WorkThrough | src/agent-company/operational-agent-company-service.ts:187-215 | the loop ends awaiting Fabio with every task completed by its own shift's output, or at the first task whose turn does not complete it, blocked or thrown out as its dependencies, attempts and bounds say, everything before it completed and everything after untouched |
| WorkdayService.OperationalAgentCompanyService.WorkOn | src/agent-company/operational-agent-company-service.ts:196-214 | one turn changes that task alone and ends as attempts left, gates and the validator's bounds say: not started, completed, blocked, blocked by the handler after a refused update, or thrown out of with the task left running; every field of the task is then told by the turn's attempt and clock readings, the blocker by the first failing gate or the error |
| AgentCompany.CatalogIsTopological | src/agent-company/operational-agent-company.ts:141-159 | in the catalogue every dependency comes first |
| AgentCompany.IdentifierListIsNotTopological | src/agent-company/operational-agent-company.ts:7-25 | in the identifier list it does not |
| AgentCompany.OnlywayIsWellFormed | src/agent-company/operational-agent-company-service.ts:37-55 | the real catalogue has no duplicates, lists the validator's agents and closes the dependency graph |
| References.IntersectionIsWhatAllHave | src/agent-company/operational-agent-company-service.ts:513-523 | a reference survives exactly when every brief has it unchanged, and survives once |
| References.IntersectionFailsOnConflict | src/agent-company/operational-agent-company-service.ts:513-523 | with one or two platforms intersecting fails exactly when the briefs disagree about a reference |
| References.AppliedAreTheSmallest | src/agent-company/operational-agent-company-service.ts:459 | a reference is applied exactly when fewer than three have a smaller identifier |
| References.AppliedIgnoresOrder | src/agent-company/operational-agent-company-service.ts:263-283 | the applied references depend on neither the order of assets nor the order of briefs |
| References.SpreadingPassesExactly | src/agent-company/operational-agent-company-service.ts:404-458 | an output that spreads the prepared provenance and constraints passes the check exactly when none of its other fields contradicts them |
| References.PreparedSays | src/agent-company/operational-agent-company-service.ts:404-470 | an agent is told that references are available exactly when there are some, and then gets for each applied one what to learn as patterns and what not to copy as constraints, and nothing else |
| TitleWrap.WrapTitle | scripts/render_live_ai_brand_media_factory.py:103-116 | the loop returns the first three lines of the greedy breaking |
| TitleWrap.WrapIsLegalAndMaximal | scripts/render_live_ai_brand_media_factory.py:107-115 | the greedy lines hold all words in order, exceed the limit only with a single word, and none has room for the next word |
| TitleWrap.MaximalIsWrap | scripts/render_live_ai_brand_media_factory.py:107-115 | and it is the only breaking of that kind |
| TitleWrap.GreedyUsesFewestLines | scripts/render_live_ai_brand_media_factory.py:107-115 | no legal breaking has fewer lines |
| TitleWrap.KeepsWordsInOrder | scripts/render_live_ai_brand_media_factory.py:104-116 | splitting the wrapped text again gives the first words of the title, in order |
| TitleWrap.CutLosesOnlyWhenItMust | scripts/render_live_ai_brand_media_factory.py:116 | all words are kept exactly when some legal breaking has at most three lines |
| RuntimeCatalog.Build | src/agents/agent-runtime-resolution.ts:82-130 | building succeeds exactly when registrations and bindings are sound and no two active bindings clash, and then the tables hold exactly them |
| RuntimeCatalog.RegisterAll | src/agents/agent-runtime-resolution.ts:87-102 | the first loop succeeds exactly for sound registrations with distinct keys, and records exactly them |
| RuntimeCatalog.ActivateAll | src/agents/agent-runtime-resolution.ts:104-127 | the second loop succeeds exactly for sound bindings without a clash, and records exactly the active ones |
| RuntimeCatalog.BuiltIsCatalogOk | src/agents/agent-runtime-resolution.ts:82-130 | a built catalogue is an injective partial map from specifications to safe, registered executors |
| RuntimeCatalog.ResolveIsExact | src/agents/agent-runtime-resolution.ts:149-174 | resolving never answers executor_not_found, identity_mismatch or unsafe_executor, and a resolved executor carries exactly the requested specification and capabilities |
| RuntimeCatalog.ResolveIsInjective | src/agents/agent-runtime-resolution.ts:149-174 | distinct specifications resolve to distinct executors |
| RuntimeCatalog.ResolvesEveryBinding | src/agents/agent-runtime-resolution.ts:149-174 | a well-formed request resolves exactly when an active binding offers it |
| RuntimeCatalog.ResolveAnswersExactly | src/agents/agent-runtime-resolution.ts:149-174 | which of the answers that occur is given, told by the request's identifiers, the registered specifications and the active bindings |
| RuntimeCatalog.ResolvedIsSafe | src/agents/agent-runtime-resolution.ts:176-190 | what is resolved is local and deterministic with every effect off, has valid identifiers, and is the agent of exactly the registered specification and version asked for |
| RuntimeCatalog.SpecificationFoundExactly | src/agents/agent-runtime-resolution.ts:154-158 | cutting at the last at-sign finds exactly the registered identifier under that very version |
| RuntimeCatalog.SpecKeyIsInjective | src/agents/agent-runtime-resolution.ts:195 | the specification key tells valid identifiers apart |
| RuntimeCatalog.ExecutorKeyIsNotInjective | src/agents/agent-runtime-resolution.ts:194 | the executor key does not |
| GuardianConsultation.AskingMoreIsStricter | src/assistants/deterministic-guardian-consultation.ts:101-211 | under any policy more operations or a higher risk never make the decision more permissive, nor drop a missing domain or a required approval |
| GuardianConsultation.EvaluateFacts | src/assistants/deterministic-guardian-consultation.ts:213-351 | a decision's kind depends only on report, risk, missing domains and approvals; it has blockers exactly when blocked |
| GuardianConsultation.DecidedExactly | src/assistants/deterministic-guardian-consultation.ts:101-351 | what decides each kind, the acknowledgement and the approval flag, told by the lists of request, policy and report |
| GuardianConsultation.MissingExactly | src/assistants/deterministic-guardian-consultation.ts:458-475 | a domain is missing exactly when the risk or a requirement for an operation asked for calls for it and the report does not cover it |
| GuardianConsultation.CheckedExactly | src/assistants/deterministic-guardian-consultation.ts:445-456 | it is covered exactly when there is a report and it includes the domain, or the domain is operator safety |
| GuardianConsultation.ApprovalsExactly | src/assistants/deterministic-guardian-consultation.ts:477-487 | an approval is required exactly when the policy lists it for an operation asked for |
| GuardianConsultation.DomainsAreSorted | src/assistants/deterministic-guardian-consultation.ts:445-475 | whatever order policy and report use, both lists of domains come out in the fixed order without duplicates |
| GuardianConsultation.UncoveredDomainStops | src/assistants/deterministic-guardian-consultation.ts:146-160 | a domain required for an operation asked for and not included in the report blocks the request, or makes it wait for Fabio where the policy does not block, under any report that is not critical |
| GuardianConsultation.BlockersExactly | src/assistants/deterministic-guardian-consultation.ts:213-351 | a blocked decision says exactly that there is no report, or each critical domain of the report, or each missing domain |
| GuardianAcceptance.EvaluatedIsAccepted | src/assistants/guardian-consultation-validator.ts:323-450 | under an accepted policy every accepted request gets a decision that the consultation's own validator accepts |
| DelegationPolicy.VerdictExactly | src/assistants/deterministic-main-assistant-delegation-policy.ts:52-314 | with one target per agent a delegation is allowed, waits for approval, or waits for Fabio exactly when some declared target makes it eligible, with every approval granted and the guardian unreserved, with one lacking, or with all granted and the guardian reserved; it is denied exactly when no target does |
| DelegationPolicy.ApprovalsListedExactly | src/assistants/deterministic-main-assistant-delegation-policy.ts:381-398 | the approvals required are exactly those the target names, those of the guardian for an operation asked for or needed by the target, and the one for publishing; the missing ones are those not granted |
| DelegationPolicy.MissingDomainsExactly | src/assistants/deterministic-main-assistant-delegation-policy.ts:368-379 | a denial for coverage names exactly the domains the target takes that the consultation did not check |
| DelegationPolicy.ReasonExactly | src/assistants/deterministic-main-assistant-delegation-policy.ts:52-235 | the reason is the first check that fails, in the order of the source |
| DelegationPolicy.RepeatsExactly | src/assistants/deterministic-main-assistant-delegation-policy.ts:175-285 | a blocking consultation's blockers become the reasons one by one, and its recommended actions are repeated exactly when it blocks or waits for Fabio |
| DelegationAcceptance.AllowedMeansCleared | src/assistants/main-assistant-delegation-policy-validator.ts:1083-1170 | whoever is handed work by an allowed answer is declared, is no tool and neither sells nor writes to outsiders, is not on the path, and had a consultation with an operator safety report that reserves nothing and covered operator safety and what its category takes; every approval it takes is granted, and it takes one if it publishes or its risk is high |
| DelegationPolicy.DelegationIsDownwardClosed | src/assistants/deterministic-main-assistant-delegation-policy.ts:52-314 | with the acknowledgement flag no verdict gets more severe when operations are taken away, so what is allowed stays allowed for every subset |
| DelegationPolicy.SubsetRefusedExactly | src/assistants/deterministic-main-assistant-delegation-policy.ts:236-314 | without it, a subset of an allowed set is refused exactly when the report asks for attention and no approval covers the subset |
| DelegationAcceptance.LessCanBeRefused | src/assistants/deterministic-main-assistant-delegation-policy.ts:27-50 | two requests the validators accept and the program answers, alike but for fewer operations, of which the larger is allowed and the smaller is not |
| DelegationPolicy.RulingsAreConsistent | src/assistants/main-assistant-delegation-policy-validator.ts:1172-1219 | with a consultation of its own every ruling meets the consistency clauses of the decision validator |
| DelegationPolicy.InconsistentExactly | src/assistants/main-assistant-delegation-policy-validator.ts:1172-1219 | with any consultation it meets those clauses, except exactly when the target is declared and of the category, category, path and depth pass, and the consultation blocks with no blockers |
| DelegationAcceptance.AnsweredExactly | src/assistants/deterministic-main-assistant-delegation-policy.ts:27-50 | an accepted request is answered, except exactly when such a reasonless block gets through, or when an approval identifier, blocker or recommended action that the decision repeats carries a marker its validator refuses, each told by the guards that lead there |
| DelegationAcceptance.OwnConsultationAnsweredExactly | src/assistants/deterministic-main-assistant-delegation-policy.ts:27-50 | with the consultation of the same operations, exactly when the request is past the guardian and the consultation's policy requires an approval with a marked identifier for an operation asked for |
| DelegationAcceptance.ReasonlessBlockIsRefused | src/assistants/main-assistant-delegation-policy-validator.ts:1192-1198 | an accepted request whose consultation blocks without a reason gets no answer |
| DelegationAcceptance.MarkedApprovalIsRefused | src/assistants/main-assistant-delegation-policy-validator.ts:1321-1376 | an accepted policy and request whose approval identifier says secret get none, although the ruling is consistent |
| DelegationAcceptance.MarkedBlockerIsRefused | src/assistants/main-assistant-delegation-policy-validator.ts:1410-1460 | nor does an accepted consultation whose blocker says transportInternals |
| Redaction.SafeExactly | src/assistants/main-assistant-delegation-policy-validator.ts:292-298 | a text is safe exactly when no key starts one of its words and none of its whole words is a marker; the two validators' lists differ in one word |
| ReadinessOrder.NamesArePrefixFree | src/assistants/agent-company-readiness-review.ts:45-62 | no category name begins another |
| ReadinessOrder.KeyOrderAgrees | src/assistants/agent-company-readiness-review-validator.ts:653-675 | comparing findings field by field and comparing their joined keys agree, for every collation |
| ReadinessOrder.PrefixesWouldDisagree | src/assistants/agent-company-readiness-review-validator.ts:653-675 | with a category that began another they could disagree |
| ReadinessReport.ReportIsAccepted | src/assistants/agent-company-readiness-review-validator.ts:617-665 | the report of any findings meets the validator's clauses on the order of the joined keys, distinct identifiers, and a summary with the numbers of findings it selects by severity, which add up, and score and status in its terms |
| ReadinessReport.ReportIsCanonical | src/assistants/agent-company-readiness-review-service.ts:95-125 | the report depends only on which findings there are, not on the order they were found in |
| ReadinessReport.Evaluate | src/assistants/agent-company-readiness-review-service.ts:95-125 | collecting, ordering and counting give that report |
| ReadinessReport.ReportDuplicates | src/assistants/agent-company-readiness-review-service.ts:1046-1059 | a value is reported exactly when it occurs more than once, and only once |
| ReadinessReport.IdentifiersAreAcceptable | src/assistants/agent-company-readiness-review-service.ts:989-1021 | every whole finding identifier meets the validator's pattern and length, and categories never share one |
| ReadinessReport.LastAddedStands | src/assistants/agent-company-readiness-review-service.ts:989-1021 | of the findings added under one identifier exactly the last one stands |
| ReadinessReport.SafeIdKeeps | src/assistants/agent-company-readiness-review-service.ts:1092-1099 | a code that is an identifier already is kept |
| ReadinessReport.SafeIdJoins | src/assistants/agent-company-readiness-review-service.ts:1092-1099 | two words with a gap of other characters, and no dashes, come out in lower case with one dash for the gap |

## Left out

- File, lock, fsync and permission handling, HTTP, cookies, origin parsing, SQLite and redacting logs: input and output; the repository is an atomic register, and the workday store is one transactional record. What `validateState` refuses is refused in `AdminCeremonies`, `AdminAtomicity` and `AdminRetries`; `OptimisticState.Repository.CompareAndSet`, and with it `AdminService`, takes any state.
- Random identifiers, tokens and hashes: drawn values are fresh, and hashing is injective, so a token and its hash are one value; SHA-256 fingerprints of outputs, inputs and briefs are functions of what they cover.
- WebAuthn verification: an oracle that keeps the counter contract of Web Authentication Level 2, section 7.2 step 21, and answers for the right credential.
- Bootstrap, registration, authentication and step-up ceremonies as methods: they are program-counter steps of interleaved callers, because what matters is what happens between their mutations; the session and receipt ceremonies are modelled both ways.
- Session labels, source keys of sessions, profile checks of the request context, event texts and event listing: they decide nothing proved here.
- The rate limiter's part in the ceremonies: limiter calls are separate steps of the machine, so a run may also skip them.
- The retry loop inside `PersistentAdminRateLimiter`: the class acts on the table directly, and `AdminService.AdminSecurityService.CheckRateLimit` puts a check of it through the loop.
- A write that fails after it took effect: not covered by the atomic register.
- Field-by-field schema checks, byte sizes of whole records, regular expressions over free text and unknown-key checks: the size check of a stored record is an arbitrary answer of the database.
- JSON comparison by key order: records are compared as values.
- Executor bodies of the workday: an arbitrary output, or an error, except for agents that always throw; which fields of an output the gates read is kept.
- Cost and executor-binding fields of work items: constant in every run. Of a blocker its reason and evidence are kept, not its owner and advice.
- Truncating and rejecting reference texts, and fetching briefs: references are taken as already bounded.
- `localeCompare` beyond single characters: strings are compared by an arbitrary weight per character.
- The rules that find readiness findings, and the constant registries of roles, capabilities, permissions and handoffs: any list of findings is covered.
- Operator-facing texts of guardian and delegation decisions: only what decides something, or is copied from one into the other, is kept; the evaluators' own sentences are taken to pass the redaction check.
- Fields of delegation requests that decide nothing: forbidden modes, constraints, descriptions, policy and request identifiers, timestamps.
- Sensitive words in readiness reports: their check reads every text of a report, most of which is not modelled.
- UTF-16: a string is a sequence of characters, so lengths count characters and not code units. Lower case outside ASCII: such letters are taken as other characters, which for the Kelvin sign and the dotted capital I differs.
- The sorted list of descriptors of the runtime catalogue: display only.
- WorkdayService.OperationalAgentCompanyService.Run: assumes that no rival interferes, because the machine of racing runners covers rivals.
