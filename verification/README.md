# A verified model of the PKI / mTLS lab

A certificate authority publishes revocations, a controller authenticates
requests and keeps a node table and an audit log, and agents on the nodes
register, beat and renew their certificates. This project models those parts and
proves what holds over whole runs of them.

`dafny verify dfyconfig.toml` checks everything.

## The layers

- `Wrappers`, `Tables`, `Security`, `Requests`: optional values, rows, identity
  extraction, what one request is answered and what it may write.
- `Controller`: the controller serving one request at a time. The class `Server`
  has the handlers' steps (session, flush, record, commit, raise, roll back); its
  `Handle` is proved equal to the pure `Serve`. `Traces` compares whole serial
  runs with a policy over a keyed registry that knows no tables, sessions or
  commits; `Purge` says which requests can matter to whom. `Admission` and `Ledger`
  restate who gets in, what is answered and stored, and what is logged and counted,
  from the header fields, literal prefixes, rows and labels alone.
- `Interleaving`: any number of requests in flight, split at their awaits. Reads
  take no lock, the first flush opens the single write transaction, uniqueness is
  checked at that flush, commit and rollback are atomic, any request may fail or
  be cancelled wherever it waits, the process may restart. `Invariants` is what
  every step keeps; `Safety`, `Activation`, `Cutoff`, `Rights` and `Fleet` are the theorems
  over all runs (`Fleet` adds the agents); `Solo` proves that an uninterrupted
  request does exactly what `Serve` says.
- `Revocation`, `NodeCert`, `ServiceCerts`, `Heartbeats`: the timed parts, over
  real-valued time (`Durations`, `Schedules`). `ServiceCerts` runs the script as a
  list of commands in a small shell with errexit. `Paging`, `Gauges`, `Firewall`:
  the algorithms beside them.

## Main results

1. In every interleaving node ids stay unique and the node rows are, in order,
   exactly the committed NODE_REGISTER/SUCCESS rows (`NodesMatchRegistrations`).
2. Every audit row since a start belongs to exactly one request, says what that
   request was answered, and no other request has one (`EveryRunIsAccountable`).
   No request counts twice (`NoRequestCountsTwice`); one that is not abandoned
   counts once if its reply is audited and not at all otherwise, so a registration
   that loses the race counts nothing (`EachRequestCountsOnce`); exactly those
   abandoned between counting and committing have counted a row they then lose
   (`AbandonedCountIsLost`). Counters equal committed, uncommitted and lost rows
   (`CounterIsConserved`).
3. Rows only ever move from onboarding to active, with a committed record
   (`RowsOnlyActivate`). "Exactly one record" is false: two beats that both read
   the node as onboarding both log (`OverlappingFirstBeatsBothLog`,
   `TwoRecordsFromStart`). It holds exactly when no two beats of the node are ever
   between that read and their commit together, over runs that abandon none of
   them (`LoggedOnceIffNeverPaired`). Over all runs, reads of the node as
   onboarding are the activations logged, pending and abandoned
   (`ReadsAreAccountedFor`).
4. Other nodes' requests can change what node `c` is told: an id can be taken first
   (`TakenIdBlocksItsOwner`). From any store and over any serial run they do so if
   and only if `c` names an id that one of their registrations claimed
   (`OthersMatterIffClaimedIdNamed`), which the naming rule rules out
   (`OtherNodesDoNotMatter`). In every interleaving a row is its earlier self with
   exactly its own node's committed heartbeats applied (`RowIsItsOwnBeats`).
5. A revoked serial is refused after at most k+1 sleeps and k+2 fetches
   (`BoundedLag`, `RevokedIsRejectedInTime`), and no smaller bound would do
   (`LagIsTight`). With requests in flight, a request with a cached serial can still
   write a node row if and only if it had passed the check and nothing in the tables
   blocks it (`CutOff`); one that does is `RevokedStillRegisters`.
6. A node certificate never lapses if k+1 renewal periods are shorter than the
   48 h window, and can lapse as soon as they are not (`NeverLapses`,
   `LapsesAtTheBound`); expiry is final without re-enrolment (`ExpiryIsFinal`); a
   running agent holds the certificate on disk if and only if every renewal it was
   not restarted for has been made up (`AgentHoldsDiskCert`).
7. Agents never beat before a 201 or 409, and never get 404 afterwards
   (`RegisteredBeforeBeatingAndNever404`).
8. The controller-side renewal script never reports a failed entry
   (`NothingIsReported`): on the left of `||` errexit is off, so the status is the
   last command's (`LastCommandDecides`), and every path through `renew_cert` ends
   in one that cannot fail. It fails silently exactly when the entry is in its
   window and either the renewal check itself fails or renewal and re-issue both do
   (`SilentFailure`); the first kind is silent with errexit on as well.
9. Refusals, answers and effects follow from the request's own fields: who is
   refused and how it is counted (`RefusedByHeaders`, `AuthCountsByHeaders`), which
   serial texts are revoked, in either case (`RevokedByHeaders`,
   `UpperCaseSerialsAreChecked`), who may register and beat (`RegistersByNames`,
   `BeatsByNames`). In every run, also with requests in flight, every stored row was
   registered by a controller or by the node it names (`EveryRowWasRegistered`,
   `EveryRowIsRightful`).
10. The log of every run is, row by row and field by field, the record of the
   answers given (`RunTells`, `EveryRowRecordsItsRequest`), log and counter show as
   many refusals, registrations and activations as there were, and nothing else
   (`LogShowsTheAnswers`, `CounterShowsTheAnswers`).
11. Removing the provisioning rule seals the nodes off from the internet if and
   only if no node opened a connection while it stood (`SealedAfterProvisioning`).

## Where the code and its documentation disagree

- node-agent/deploy/RUNBOOK-reenroll.md:61-63 says a power-on once a week keeps a
  certificate alive. The script renews only inside the last 48 hours:
  `WeeklyPowerOnLapses` gives a weekly schedule that lapses.
- scripts/renew-certs.sh:102-105 means to log a failed entry. `renew_cert` is
  called on the left of `||`, so errexit is off inside it, and a failed re-issue is
  followed by a log line and a post-action that both return zero: the FAILED line
  is never printed (`NothingIsReported`, `SilentFailure`).
- node-agent/deploy/renew-cert.sh:47-52 warns when the agent's restart fails, but
  nothing restarts it later: `FailedRestartStrandsAgent`.
- controller/app/models/node.py:11-17 lists more state transitions than the code
  makes, and the payload may set any initial state.
- node-agent/app/http_client.py:67 is called unreachable; any 2xx other than 201
  reaches it. `RegisterAnswer` shows that this controller never sends one.
- controller/app/api/nodes.py:68-72 says a CN mismatch is caught before the
  duplicate check. Only `common_name` is compared; `node_id` is not.

## Assumptions

- SQLite through the asynchronous driver: SELECTs run outside a transaction, one
  write transaction at a time, an UPDATE writes the changed columns only.
- A labelled counter is a multiset of label pairs.
- Header text is Latin-1. The serial header is absent, plain hexadecimal digits as
  nginx writes them, or a text that `int(raw, 16)` refuses.
- `step certificate needs-renewal --expires-in=T`, when it works, means "less than T
  is left", and `step ca renew` needs a certificate that has not expired; the instant
  of expiry counts as expired, as in `assert_cert_usable`.
- Writing a log line, entering the certificate's directory and splitting the list of
  names succeed in scripts/renew-certs.sh.
- A heartbeat's commit lands within a fixed time of its being sent, whether or not
  the agent is still waiting (node-agent/app/http_client.py:31 gives up after 10 s,
  nginx/conf.d/mtls.conf:110 after 30 s). `AgeIsBounded` has a sharper bound for
  commits that land before the next beat, and `LateCommitBringsBackOldStamp` shows
  what happens otherwise.
- Rows with equal timestamps are listed in one fixed order.
- The router calls a packet established or related only if an accepted connection
  joins its two interfaces; a packet no rule matches is accepted.
- `allow_unauthenticated` is false.

## Model

| member | source | states |
|---|---|---|
| Security.Search | controller/app/core/security.py:26 | The match is at the least position of `CN=` followed by a non-separator; none is found exactly when there is none |
| Security.RunEnd | controller/app/core/security.py:26 | The captured run is maximal: separator-free up to a separator or the end |
| Security.StripTrims | controller/app/core/security.py:107 | Stripping takes exactly the Latin-1 blanks off both ends; with `TrimIsUnique` that determines the common name |
| Security.InertHeadIsSkipped | controller/app/core/security.py:97-107 | An attribute in front with no live `CN=` in it (a decoy `CN=` with an empty run included) does not change what is extracted |
| Security.CnRoundTrip | controller/app/core/security.py:97-107 | Extraction inverts printing: on a printed DN it returns the first printed CN, trimmed |
| Security.ParsesNumerals | controller/app/core/security.py:53-62 | A text of hex digits is read as `n` if and only if it is a hexadecimal numeral for `n`, digit by digit from the tables of upper and lower case digits |
| Security.PrintedIsNumeral | controller/app/core/security.py:53-55 | Printing in upper case, as nginx does, or in lower case gives such a numeral for every serial |
| Security.PrintsLowerCase | controller/app/core/security.py:132 | The audit targets print serials in lower case |
| Security.SerialRoundTrip | controller/app/core/security.py:53-62 | Parsing inverts `:x` printing for every serial |
| Security.PrintOfParse | controller/app/core/security.py:53-62 | Printing a parsed text gives it back in lower case without leading zeros, so `cert:<hex>` targets are canonical |
| Security.SameSerialIffSameCanonicalText | controller/app/core/security.py:126-134 | Two serial texts look up the same cache entry if and only if they agree up to case, letter by letter, and leading zeros |
| Requests.EventFor | controller/app/core/audit.py:13-35 | A row appears only for an audited response, names the acting CN, and is a registration only when the node was created |
| Controller.Server.Flush | controller/app/models/node.py:27 | A flush writes the session's node unless its id is already there, in which case nothing changes |
| Controller.Server.RecordEvent | controller/app/core/audit.py:27-51 | The row joins the caller's transaction with any changed node; the counter goes up by its labels; nothing is committed |
| Controller.Server.Commit | controller/app/api/nodes.py:200 | Everything flushed and unflushed becomes committed at once |
| Controller.Server.Rollback | controller/app/db/session.py:63-67 | The transaction falls back to the committed tables; counters stay |
| Controller.Server.Refuse | controller/app/api/nodes.py:54-66 | A refusal is recorded and committed before it is raised |
| Controller.Server.GetIdentity | controller/app/core/security.py:79-113 | The handler returns and counts what `Authenticate` says, whose meaning is `Admission.AuthenticatesByHeaders` |
| Controller.Server.RequireLive | controller/app/core/security.py:126-142 | Exactly the certificates with a cached serial are refused, with one committed AUTH_FAILURE row that survives the raise |
| Controller.Server.RegisterNode | controller/app/api/nodes.py:46-103 | Response, tables, log and counter are those of the specification, whether the handler returns or raises |
| Controller.Server.TouchNode | controller/app/api/nodes.py:166-200 | The row gets the beat's time; an onboarding row is activated with one event, any other logs nothing |
| Controller.Server.Heartbeat | controller/app/api/nodes.py:133-202 | Response, tables, log and counter are those of the specification: existence before authorisation |
| Controller.Server.Dispatch | controller/app/db/session.py:58-67 | After any handler the session is clean and only what was committed remains |
| Controller.Server.Admit | controller/app/core/security.py:116-142 | A request that does not get past the dependencies is completely described by the specification; one that does has a live identity |
| Controller.Server.Handle | controller/app/core/security.py:145-147 | One request, start to end, refines `Serve` and answers `Respond` |
| Controller.Server.InstallCrl | controller/app/core/revocation.py:46-49 | Installing a CRL replaces the cache and nothing else |
| Admission.AuthenticatesByHeaders | controller/app/core/security.py:79-113 | In terms of the header texts: missing, failed verification and no name are the only refusals, and a verified certificate is identified by the first name in its DN, trimmed |
| Admission.RefusedByHeaders | controller/app/core/security.py:79-105 | 401, 403 and 400 go exactly to the requests whose headers say so, add exactly one label, and change neither rows, log nor event counter |
| Admission.RevokedByHeaders | controller/app/core/security.py:126-142 | A verified certificate is refused as revoked if and only if its serial text is a numeral for a cached serial; otherwise it reaches its handler |
| Admission.UpperCaseSerialsAreChecked | controller/app/core/security.py:53-55 | For serials in upper case, as nginx forwards them: refused if and only if cached |
| Admission.RegistersByNames | controller/app/api/nodes.py:46-103 | A live registration gets 403 unless its CN starts with `controller.`, or starts with `pi-` and is the payload's; then 409 if a row has the id, else 201 and one new row with the payload |
| Admission.BeatsByNames | controller/app/api/nodes.py:133-202 | A live heartbeat gets 404 if no row has the id, 403 if the row's common name is another's, else 200; the row's fields after it are given one by one, activation included |
| Admission.ReadsByRows | controller/app/api/nodes.py:106-122 | Reads find what is there and write nothing |
| Admission.AuthCountsByHeaders | controller/app/core/security.py:79-142 | Over any run each label of the authentication counter goes up by the requests whose headers say so |
| Admission.RefusedLeaveNoTrace | controller/app/core/security.py:79-105 | Without the requests refused on arrival every run ends with the same nodes, log, event counter and cache |
| Admission.EveryRowWasRegistered | controller/app/api/nodes.py:46-101 | Over any serial run every added row is, up to activation, the payload of a registration by a controller or the node it names |
| Ledger.RunTells | controller/app/core/audit.py:13-35 | The log gained by any serial run is one row per audited answer, in order, with actor, action, result, target and details spelled out from the request |
| Ledger.LogShowsTheAnswers | controller/app/core/audit.py:27-35 | It has as many AUTH_FAILURE/REJECTED, NODE_REGISTER/SUCCESS and NODE_STATE_CHANGE/SUCCESS rows as there were refusals, 201s and activations, and no others |
| Ledger.CounterCountsRows | controller/app/core/audit.py:48-49 | Each label pair of the event counter counts the rows that bear it |
| Ledger.CounterShowsTheAnswers | controller/app/core/audit.py:48-49 | Without a restart the event counter shows the same totals, and nothing under any other label |
| Ledger.EveryRowRecordsItsRequest | controller/app/core/audit.py:13-35 | In every interleaving the rows since the start are, field by field, the records of the requests that wrote them, one each |
| Rights.EveryRowIsRightful | controller/app/api/nodes.py:47-101 | In every interleaving every added row is, up to activation, the payload of a registration by a controller or the node it names |
| Rights.EveryRowIsRightfulFromStart | controller/app/api/nodes.py:47-101 | From any start that registration is an arrival of the run itself |
| Traces.PolicyStep | controller/app/api/nodes.py:46-101 | A handler on the scanned table does what the policy says on a keyed registry: rows, next registry and status |
| Traces.RunFollowsPolicy | controller/app/api/nodes.py:46-202 | For every serial run with CRL installs and restarts: the committed log is the policy's log, the table ends as its registry (names, onboarding, last beat), every request gets its status |
| Traces.AuthOutcomesAreConserved | controller/app/core/security.py:79-142 | Accepted plus the three failure labels equals requests seen; accepted minus revoked equals requests that reach a handler |
| Purge.RevokedStepWritesNothing | controller/app/core/security.py:126-141 | A request with a cached serial is refused and leaves the node table alone |
| Purge.RevokedSerialNeverTouchesNodes | controller/app/core/security.py:126-141 | While a serial stays cached, deleting all requests that carry it leaves the node table of the run unchanged |
| Purge.OwnDecideAlike | controller/app/api/nodes.py:47-85 | Between the tables with and without the foreign requests, a live request by `c` is decided alike if and only if it names no claimed id |
| Purge.OthersMatterIffClaimedIdNamed | controller/app/api/nodes.py:47-160 | From any store and over any serial run, deleting every other node's requests changes the answers to `c` if and only if `c` registers or beats for an id claimed by one of their registrations |
| Purge.TrailAndRowsWithoutOthers | controller/app/api/nodes.py:47-160 | If it never does, its audit trail is the same without them, and its rows are if and only if no controller tried to register a taken id for it |
| Purge.OtherNodesDoNotMatter | controller/app/api/nodes.py:47-66 | Under the naming rule, deleting every other node's requests from any run changes neither the answers, the rows nor the audit trail of `c` |
| Purge.TakenIdBlocksItsOwner | controller/app/api/nodes.py:68-85 | The shortest run in which others matter: an unrevoked node that registers another's id first turns its owner's 201 into 409 |
| Invariants.CommitKeepsTables | controller/app/api/nodes.py:87-101 | A commit keeps ids unique and registrations matched, because the flush held the lock from the uniqueness check on |
| Invariants.RollbackKeepsInv | controller/app/db/session.py:60-67 | Rolling back at any await frees the lock and accounts for the counted row it removes |
| Invariants.StepKeepsInv | controller/app/api/nodes.py:34-202 | Every step of any request, failure, CRL install or restart keeps the whole invariant |
| Invariants.RunKeepsInv | controller/app/db/session.py:58-67 | Every run keeps the invariant, with the session rolled back at any exception |
| Safety.NodesMatchRegistrations | controller/app/models/node.py:27 | In every run ids are unique and node rows match committed NODE_REGISTER/SUCCESS rows one to one, in order |
| Safety.CounterIsConserved | controller/app/core/audit.py:34-51 | In every run each labelled counter equals rows committed since start plus recorded plus lost to rollback, and never falls below the committed ones |
| Safety.RowsOnlyActivate | controller/app/api/nodes.py:166-200 | Across any run rows are kept in place, only onboarding becomes active, and every row that moved has a committed state-change row in between |
| Safety.OthersNeverAlterARow | controller/app/api/nodes.py:143-160 | Any step that changes an existing row is a step of a heartbeat that names the row's node and shows its common name |
| Safety.RowIsItsOwnBeats | controller/app/api/nodes.py:143-200 | Over any run, with everyone's requests interleaved, a row ends as it was with exactly its own node's committed heartbeats applied in commit order |
| Safety.EveryRunIsAccountable | controller/app/api/nodes.py:53-101 | Committed rows since start are in bijection with the requests whose reply is audited, and each says what its request was answered |
| Safety.CreatedIsDurable | controller/app/api/nodes.py:101-103 | A registration answered 201 stays stored as sent, up to activation, in every continuation |
| Safety.RaceLoserLeavesNothing | controller/app/api/nodes.py:87-90 | A registration that loses the race for an id ends as an unhandled 500 with nothing stored, logged or counted |
| Safety.EachRequestCountsOnce | controller/app/api/nodes.py:87-101 | Over any run without a restart a request that was not abandoned bumps the counter once if its reply is audited and otherwise not at all; a lost race, a duplicate or a 404 bumps nothing |
| Safety.NoRequestCountsTwice | controller/app/core/audit.py:34-51 | Abandoned or not, and across restarts, no request bumps the counter more than once, and none after it has counted |
| Safety.AbandonedCountIsLost | controller/app/db/session.py:60-67 | A failure at an await loses a counted row exactly when it hits between counting and committing; the counter keeps it and nothing is stored |
| Activation.ActivatingCommit | controller/app/api/nodes.py:169-188 | The commit of a beat that read the node as onboarding adds exactly one record and leaves the node active, whether or not another beat was there first |
| Activation.ReadsAreAccountedFor | controller/app/api/nodes.py:162-188 | Conservation over any run: records logged, beats pending and beats abandoned add up to the beats that have read the node as onboarding |
| Activation.ReadFindsItOnboarding | controller/app/api/nodes.py:166-171 | What is counted as such a read did find the node onboarding |
| Activation.LoggedOnceUnlessPaired | controller/app/api/nodes.py:162-188 | If no two beats of a node are ever between reading it as onboarding and committing together, its activation is logged exactly once, whatever fails or restarts |
| Activation.LoggedOnceIffNeverPaired | controller/app/api/nodes.py:162-188 | Over runs that abandon no such beat: logged exactly once if and only if no two were ever together, and at least twice otherwise |
| Activation.LoggedOnceWithoutOverlap | controller/app/api/nodes.py:133-188 | One unfinished heartbeat of a node at a time is enough for a single record |
| Solo.SoloRunIsServe | controller/app/api/nodes.py:34-202 | A request nobody interrupts ends with exactly the store and response of the serial specification |
| Solo.OtherEventsAgree | controller/app/core/revocation.py:22-49 | A new cache and a restart do the same in both models; a restart keeps the tables and forgets cache and counters |
| Solo.OverlappingFirstBeatsBothLog | controller/app/api/nodes.py:133-188 | Any two first beats of a node, from any two requests, that both read before either commits log two activations |
| Solo.TwoRecordsFromStart | controller/app/api/nodes.py:133-188 | Whatever tables the controller starts with, any onboarding node in them can have its activation logged twice |
| Cutoff.BarredWritesNothing | controller/app/core/security.py:126-141 | A request that is before the revocation check, refused by it or failed changes no node row, not even when it commits |
| Cutoff.OthersAreRefused | controller/app/core/security.py:126-142 | While a serial stays cached, every request with it that had not passed the check, in flight or yet to come, is refused or fails |
| Cutoff.ChangeIsWrite | controller/app/api/nodes.py:88-200 | Only a commit with an insert or an update changes the node table |
| Cutoff.CutOff | controller/app/core/security.py:116-142 | While a serial stays cached, a request with it can still write a node row in some interleaving if and only if it is past the check and its write is under way or not blocked by a taken id or another node's row |
| Cutoff.RevokedStillRegisters | controller/app/core/security.py:116-142 | From any start, a certificate whose serial is cached two turns after its registration arrived still gets its node stored |
| Fleet.RegisterAnswer | node-agent/app/http_client.py:59-67 | Whenever `register` would return, the controller had answered 201 or 409 and the node is in the table |
| Fleet.SendsItself | node-agent/app/http_client.py:53-76 | An agent registers under its own names, as onboarding, beats for its own id, and only when registered |
| Fleet.HearsRegistration | node-agent/app/http_client.py:59-67 | It starts to beat exactly on 201, 409 or another success |
| Fleet.BeatsOn | node-agent/app/heartbeat.py:40-51 | A heartbeat's answer, or its loss, never stops the agent |
| Fleet.GivesUpAfterTen | node-agent/app/heartbeat.py:17-29 | From every reboot on, an agent that hears nothing tries ten times and gives up |
| Fleet.ProgressAvoids404 | controller/app/api/nodes.py:133-141 | A heartbeat for a stored node never heads for 404 |
| Fleet.RegisteredBeforeBeatingAndNever404 | node-agent/app/heartbeat.py:17-51 | With any agents, clients, losses, reboots and restarts: every beat was preceded by a 201 or 409, and is never answered 404 |
| Revocation.Cache.PeriodicRefresh | controller/app/core/revocation.py:39-52 | After any rounds of the loop the cache is the last good result, or what it was |
| Revocation.CacheIsLastSuccess | controller/app/core/revocation.py:44-51 | The cache is the CRL of the last successful round; failed rounds after it keep it |
| Revocation.CacheAtIsLastGood | controller/app/core/revocation.py:39-52 | The cache at an instant is what the loop makes of the rounds over by then, empty before the first success |
| Revocation.SuccessInBudget | controller/app/core/revocation.py:44-52 | Within the budget some fetch that started after the publication has succeeded |
| Revocation.BoundedLag | controller/app/core/revocation.py:22-52 | A listed serial is cached at every instant from the bound on, for as long as the CA lists it |
| Revocation.RevokedIsRejectedInTime | controller/app/core/security.py:126-141 | From the bound on every request with that certificate is refused and changes no node row |
| Revocation.LagIsTight | controller/app/core/revocation.py:39-52 | For every smaller budget some run that keeps all assumptions lets the certificate pass |
| NodeCert.Node.RunRenewal | node-agent/deploy/renew-cert.sh:36-63 | The script's run is the specified step; it exits zero exactly when it renewed, had nothing to do, or its check failed |
| NodeCert.Node.Launch | node-agent/app/cert_guard.py:24-59 | The agent starts exactly on a readable certificate that has not expired, and loads it |
| NodeCert.NeverLapses | node-agent/deploy/renew-cert.sh:41-45 | If k+1 periods are shorter than the window, the certificate is usable at every instant despite k failed attempts in a row, by the check or by the CA |
| NodeCert.LapsesAtTheBound | node-agent/deploy/renew-cert.sh:29 | As soon as k+1 periods reach the window, some run within the assumptions lapses |
| NodeCert.WeeklyPowerOnLapses | node-agent/deploy/RUNBOOK-reenroll.md:61-63 | A weekly power-on schedule with an always reachable CA that lapses |
| NodeCert.ExpiryIsFinal | node-agent/deploy/renew-cert.sh:8-11 | After expiry no sequence of automated steps changes the certificate or starts the agent |
| NodeCert.ReEnrolmentRecovers | node-agent/deploy/RUNBOOK-reenroll.md:16-45 | Re-enrolment gives a fresh certificate and the agent starts |
| NodeCert.AgentHoldsDiskCert | node-agent/deploy/renew-cert.sh:46-53 | Over any automated run the agent ends up holding the certificate on disk if and only if every renewal it was not restarted for is followed by a restart, a start or a stop |
| NodeCert.ScriptKeepsAgentCurrent | node-agent/deploy/renew-cert.sh:41-53 | Over runs of the script under a running agent: if and only if the last run that renewed also restarted, or none renewed |
| NodeCert.FailedRestartStrandsAgent | node-agent/deploy/renew-cert.sh:47-53 | After one failed restart no run of the script reloads the agent before its old certificate has expired |
| ServiceCerts.OnAgreesUnlessAborted | scripts/renew-certs.sh:18 | For any script errexit makes a difference only by aborting |
| ServiceCerts.LastCommandDecides | scripts/renew-certs.sh:102-104 | With errexit off the status is zero after a return and otherwise the last command's, whatever failed before it |
| ServiceCerts.QuietScriptReportsSuccess | scripts/renew-certs.sh:26-50 | A script that ends on every path in a command that cannot fail reports success whatever failed in it |
| ServiceCerts.PostsAreQuiet | scripts/renew-certs.sh:26-50 | Both post-actions are such scripts and issue no certificate |
| ServiceCerts.AbortsIffAnyFails | scripts/renew-certs.sh:18 | With errexit on, a script without certificate commands and early returns stops exactly when one of its commands fails outside a condition |
| ServiceCerts.PostsWouldAbort | scripts/renew-certs.sh:26-50 | What the caller's or-list hides: exactly which failed copies, modes and signals would have stopped the run |
| ServiceCerts.RenewScriptIs | scripts/renew-certs.sh:54-92 | What the whole command list does, with errexit off and on: skipped (nothing due, or the check failed), renewed, re-issued, untouched, or aborted by a failed re-issue |
| ServiceCerts.Registry.RenewCert | scripts/renew-certs.sh:54-92 | One entry ends with the certificate and the status its command list gives with errexit off |
| ServiceCerts.Registry.RenewAll | scripts/renew-certs.sh:102-105 | Every entry is attempted exactly once, in order, with an outcome of its own |
| ServiceCerts.NothingIsReported | scripts/renew-certs.sh:102-105 | For any registry whose post-actions end quietly, no entry is ever logged as FAILED, whatever its commands do |
| ServiceCerts.OneRunStabilises | scripts/renew-certs.sh:65-85 | One run leaves at least the threshold if and only if it was left already, or the check worked and renewal or re-issue did |
| ServiceCerts.SilentFailure | scripts/renew-certs.sh:65-92 | Success is reported on a certificate left in its window if and only if it was in the window and either the check failed or renewal and re-issue both did; errexit would abort the second kind and not the first |
| ServiceCerts.SelfHealing | scripts/renew-certs.sh:7-10 | From any state, once the check works in a run that can re-issue, at least the threshold is left after it whatever the other runs do |
| ServiceCerts.UncheckedIsSkippedForEver | scripts/renew-certs.sh:65-68 | While the check fails nothing is ever done, and success is reported every time |
| Heartbeats.AttemptRegister | node-agent/app/heartbeat.py:17-29 | Registers if and only if one of ten attempts would; total sleep is the sum of the delays of the failures before it, the last one included |
| Heartbeats.NextDelay | node-agent/app/heartbeat.py:20-28 | Capping every step equals capping once; delays are nondecreasing between 2 and 60 |
| Heartbeats.DelaysAre | node-agent/app/heartbeat.py:20-28 | The delays are 2, 3.6, 6.48, 11.664, 20.9952, 37.79136 and then 60 seconds; ten failures cost 322.53056 |
| Heartbeats.TotalDelayBounds | node-agent/app/heartbeat.py:20-29 | n failures cost between 2n and 60n seconds |
| Heartbeats.AgeIsBounded | controller/app/core/metrics_hooks.py:40-47 | With at most m failed beats in a row the age shown after the first success never exceeds (m+1) rounds plus one request if commits land before the next beat, and in any case that plus the longest time a commit takes |
| Heartbeats.LateCommitBringsBackOldStamp | controller/app/api/nodes.py:173-175 | Whenever a beat's commit is the last to land after a later beat's with a newer stamp was, the stamp goes back; only a late commit can do that |
| Heartbeats.StampNeverGoesBack | controller/app/api/nodes.py:173-200 | If every commit lands before the next beat is sent, the stamp never goes back |
| Heartbeats.LongPausesAreNeverLate | node-agent/app/heartbeat.py:47-51 | A sleep at least as long as a commit can take keeps every commit in time |
| Paging.ListedNewestFirst | controller/app/api/audit.py:36 | The listing is a permutation of the log in newest-first order |
| Paging.SelectsWhatIsWanted | controller/app/api/audit.py:36-45 | Every row with the value of each given parameter is selected as often as it is in the log, no other is, newest first |
| Paging.PageIsWanted | controller/app/api/audit.py:47-48 | A page is the stretch of that list from the offset on, at most `limit` rows |
| Paging.PagesConcatenate | controller/app/api/audit.py:36-48 | On a fixed log the pages put together are the whole filtered list |
| Paging.RowMovesBack | controller/app/api/audit.py:36-45 | Whatever rows come in, a selected row only moves back |
| Paging.NothingMovesForward | controller/app/api/audit.py:36-45 | Whatever rows come in, the selected rows behind an offset stay behind it, each as often as before |
| Paging.GrowthSkipsNothing | controller/app/api/audit.py:36-48 | Reading successive offsets of a growing log gives every row that matched at the first read at least as often as it was there |
| Gauges.Metrics.RefreshNodeGauges | controller/app/core/metrics_hooks.py:20-47 | Each present (state, role) gauge is the number of such rows, absent pairs have no label, ages are those of the rows that have beaten and old labels stay |
| Gauges.CountIsRows | controller/app/core/metrics_hooks.py:29-35 | The count under a state and a role is the number of rows whose own state and role they are |
| Gauges.GaugesSumToRows | controller/app/core/metrics_hooks.py:29-35 | The gauge values add up to the number of nodes |
| Gauges.AgeLabelsStayNodes | controller/app/core/metrics_hooks.py:40-47 | Age labels always name existing nodes, over any run between refreshes |
| Firewall.RemovingOneRule | docs/evidence/step-13/scenario-6-segmentation/05-rule-23-removed-filter-print.txt:5-14 | In any rule list, removing a rule changes exactly the verdicts it decided and the rest would decide otherwise |
| Firewall.VerdictIs | docs/evidence/step-13/scenario-6-segmentation/05-rule-23-removed-filter-print.txt:24-118 | Every verdict of the deployed chain in terms of interfaces, protocol, port and connection state |
| Firewall.RemovalAffectsOnlyNodesToWan | docs/evidence/step-13/scenario-6-segmentation/01-firewall-filter-export.rsc:28-41 | Removing the provisioning rule changes the verdict exactly for fresh packets from nodes to the internet |
| Firewall.NothingCrosses | docs/evidence/step-13/scenario-6-segmentation/05-rule-23-removed-filter-print.txt:81-118 | Without a connection every packet between nodes and internet is dropped |
| Firewall.AirGapHolds | docs/evidence/step-13/scenario-6-segmentation/05-rule-23-removed-filter-print.txt:24-118 | From a table without such a connection no run of packets has one accepted in either direction |
| Firewall.SealedIffAirGapped | docs/evidence/step-13/scenario-6-segmentation/05-rule-23-removed-filter-print.txt:24-118 | No run from a table has a packet accepted across the gap if and only if the table has no connection across it |
| Firewall.SealedAfterProvisioning | docs/evidence/step-13/scenario-6-segmentation/01-firewall-filter-export.rsc:9-30 | After any run under the old rules, the new rules seal the nodes off if and only if no node opened a connection to the internet in that run |

## Left out

- Python's wider `int(raw, 16)` grammar (sign, prefix, underscores, spaces): header texts of that form are not in the model.
- Escaped values in distinguished names: `Security.CnRoundTrip` covers values without separators.
- Response bodies, row ids, and the re-read after a commit: a response is its outcome and status.
- TLS, nginx, CRL decoding, the `step` command line, the clock and the network: inputs.
- Request validation (422), health, whoami: one-branch facts; whole-table reads are one read-only call.
- The agent's endless beat loop as code: its protocol is in `Fleet`, its timing in `Heartbeats`; the success and failure counters are not modelled.
- Purge.OthersMatterIffClaimedIdNamed: serial runs only. With requests in flight a deleted request also frees the write lock for others, so the two runs do not correspond event by event; `Safety.RowIsItsOwnBeats` covers the rows of `c` there.
- The metrics server's CN allowlist (node-agent/app/metrics_server.py): a membership test.
- The shutdown supervisor (node-agent/app/main.py), logging, dashboards, Ansible, Compose.
- The router's input chain, address lists and the switch's port isolation.
- Shell `cd` failures and file permissions in the renewal scripts: taken as succeeding.
