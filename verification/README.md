# Escrow backend: verified model

A Dafny 4.11 model of the parts of the P2P escrow backend that carry state, arithmetic or text, with proofs
about whole runs. `dafny verify dfyconfig.toml` checks everything.

| part of the backend | modules |
|---|---|
| escrow and order rows, the chain listener, replay | `EventTypes`, `EscrowTables`, `Handlers`, `Services`, `Listener`, `Replay`, `Effects`, `Transparency`, `TwoListeners`, `Lifecycle`, `Agreement` |
| event classification | `UpperCase`, `EventClassifier` |
| wallet login | `LoginProtocol` |
| login rate limiter | `RateLimit` |
| IBAN and CPF check digits | `Decimal`, `Residues`, `UpperCase`, `Iban`, `Cpf` |
| amounts and fees of a send | `Decimal`, `Money` |
| signing of the transaction envelope | `Envelope` |
| cumulative timeline of the statistics | `Calendar`, `Timeline` |

`Effects` tells field by field what each event and each service call writes and when it is refused; `Wrappers` and
`Numbers` hold the few helpers that several modules share.

**Form.** Services, listener, guard and login are classes whose methods are proved equal to a specification
function on the old state; the theorems are lemmas about those functions. Loops that the source writes as
loops (mod 97, CPF check, sweep, page, timeline, buffers) are loops here. Pure tables and the money texts are
functions.

**Assumptions.**
- Each service call and each event is one serialised step on the escrow tables: `syncTransaction` and
  `processEvent` read, check and write without a conditional write. The login is modelled in separate,
  freely interleaved steps, because its consume is a conditional update.
- Generated ids, challenges and newly deployed contracts are new; contract ids are not the empty text.
- Replies of the chain, of the storage and of the signature check are inputs, whatever they are; the clock
  does not run backwards.
- For the replay, a page holds everything the log has for the contracts asked for between its start ledger
  and its latest ledger, in ledger order; event ids are unique; the storage accepts every transaction; a poll
  that gets an answer could read its target contracts. The process may stop after any entry of a page.
- For the comparison of two listeners, a contract handed out is not named by the log up to the highest ledger
  polled so far, and no open sets a funded escrow back; the storage may refuse any transaction, and service
  calls and stops fall anywhere.

**Where the code does less than one might expect.** Each is a lemma below, with its exact condition where
there is one.
- Replay: an event refused at its turn may be taken up when it is delivered again. The tables equal one pass
  over the log in every run, whatever process stops in whatever page, exactly when at no place of the pass an
  entry before it could still be applied (`Replay.ReplayExactly`, `Replay.EarlyReleaseIsUnsettled`).
- `open` sets an escrow without a contract back to `initialized`, even a funded one
  (`Handlers.OpenLowersExactly`, `Transparency.UnguardedOpenShows`).
- A release synced by a client never reaches the order row, and the release event is then judged already
  processed (`Lifecycle.SyncedReleaseStrandsOrder`, `Agreement.SyncAgreesExactly`).
- A cancelled order is opened again by the next event of its escrow (`Lifecycle.CancelledOrderReopens`).
- A login that took its instant before a purge can lose a row it would have consumed, and in no other way does
  a deletion change the outcome of any login in any run (`LoginProtocol.StaleStampLoses`,
  `LoginProtocol.DeletionShowsExactly`).
- The limiter lets 19 requests through in one minute, and no more (`RateLimit.BoundReached`).
- The envelope's hash is over the right bytes exactly when there is no signature yet (`Envelope.PreimageExact`).
- Swapping a digit and a letter of the account part of an IBAN goes unnoticed for the pairs 1B, 2M and 3X
  (`Iban.AccountSwapExact`); three kinds of single digit changes in a CPF go unnoticed (`Cpf.SingleDigitExact`).

## Model

| member | source | states |
|---|---|---|
| EscrowTables.AppliedIsSpent | src/modules/escrow/escrow.service.ts:145-170 | An event that may be applied raises the rank of the escrow and is out of reach from then on; one judged already processed is out of reach too; no event is both |
| EscrowTables.AppliesInInterval | src/modules/escrow/escrow.service.ts:652-688 | An event may be applied over exactly one interval of ranks; below it, it is never passed over as already processed, and in the status it leads to it always is |
| EscrowTables.LatePassedOver | src/modules/escrow/escrow.service.ts:652-688 | An event that comes too late for its escrow is passed over as already processed, except for eight listed pairs, which are refused |
| EscrowTables.FindStable | src/modules/stellar/stellar-listener.service.ts:350-371 | The escrow an event is about depends only on the contract and order ids of the escrows, not on any status, order or audit row |
| EscrowTables.DeliverKeeps | src/modules/stellar/stellar-listener.service.ts:273-333 | Delivering any event keeps the tables' keys, loses no rank, changes nothing unless applied, and leaves an applied or already processed event spent on its escrow |
| EscrowTables.HashesWritten | src/modules/stellar/stellar-listener.service.ts:292-304 | An applied event with a hash writes it to the lock exactly for a funding, to the release exactly for a release or refund; nothing else writes either |
| EscrowTables.SpentHasNoEffect | src/modules/escrow/escrow.service.ts:652-688 | An event spent on its escrow, or without one, changes no row |
| Effects.FindExactly | src/modules/stellar/stellar-listener.service.ts:350-371 | An event is about the escrow of its contract, or, if none has it, of its engagement id, or of its order id without one |
| Effects.OutcomeExactly | src/modules/stellar/stellar-listener.service.ts:265-290 | Applied, passed over, refused or unknown: each exactly, by the rank of the escrow found |
| Effects.AppliedTells | src/modules/stellar/stellar-listener.service.ts:317-332 | An applied event adds one row, about the escrow found, with its order id and with the action, contract id, hash, ledger and index of the event |
| Effects.AppliedWrites | src/modules/stellar/stellar-listener.service.ts:306-315 | It changes one escrow and its order, and of them no key, no party and no expiry |
| Effects.StatusesWritten | src/modules/stellar/stellar-listener.service.ts:383-403 | The status of the escrow and that of the order, for each kind of event |
| Effects.RowsTellApplied | src/modules/stellar/stellar-listener.service.ts:317-332 | The rows that a pass over a log adds tell of exactly the applied entries, field by field and in order |
| Handlers.ClientMatchesChain | src/modules/escrow/escrow.service.ts:145-170 | The client's actions and the chain's events for them are accepted in the same statuses and lead to the same status; a fiat notice is accepted exactly one rank below |
| Handlers.GuardsByRank | src/modules/order/order.service.ts:268-274 | Cancellation is blocked exactly from `funded` on, expiry exactly from `fiat_sent` on; a funded order alone can expire and not be cancelled |
| Handlers.SyncKeeps | src/modules/escrow/escrow.service.ts:510-541 | A sync, whatever the replies, keeps the tables sane, an escrow's contract and order, and every rank |
| Effects.SyncWrites | src/modules/escrow/escrow.service.ts:522-541 | What a successful sync writes: status, contract id from the reply when it has one, and the first 64 characters of the transaction as lock hash of an initialization or release hash of a release; nothing else changes |
| Effects.SyncTells | src/modules/escrow/escrow.service.ts:543-563 | The service writes one row for a funding or a release, about that escrow and action, and none otherwise |
| Effects.SyncedContractFound | src/modules/escrow/escrow.service.ts:525-529 | After a synced initialization every event of the contract in the reply finds that escrow |
| Effects.SyncRefusals | src/modules/escrow/escrow.service.ts:510-520 | Each refusal of a sync exactly; keys can clash only when an initialization brings the contract of another escrow |
| Handlers.OpenKeeps | src/modules/escrow/escrow.service.ts:246-289 | Opening keeps the tables sane and every escrow that has a contract as it is; under the guard no escrow loses rank |
| Handlers.OpenLowersExactly | src/modules/escrow/escrow.service.ts:246-272 | A successful open lowers the rank of some escrow if and only if the order's escrow has no contract and is past `initialized` |
| Effects.OpenWrites | src/modules/escrow/escrow.service.ts:255-281 | Opening leaves one initialized escrow of the order with the deployed contract, the existing row or a new one, and one audit row exactly for a new one |
| Effects.OpenRefusals | src/modules/escrow/escrow.service.ts:246-253 | Each refusal of opening exactly |
| Handlers.InitializeKeeps | src/modules/escrow/escrow.service.ts:291-355 | Initializing keeps the tables sane and every rank |
| Effects.InitializeWrites | src/modules/escrow/escrow.service.ts:325-352 | A new pending escrow without contract for an order that has none, with its audit row; otherwise no modelled column changes |
| Effects.InitializeRefusals | src/modules/escrow/escrow.service.ts:291-300 | Each refusal of initializing exactly |
| Handlers.CreateKeeps | src/modules/order/order.repository.ts:52-91 | Creating an order with its escrow keeps the tables sane and every rank |
| Effects.CreateWrites | src/modules/order/order.repository.ts:64-79 | The new order and its initialized escrow find each other by order and by contract, and all other rows stay |
| Handlers.HandleKeeps | src/modules/escrow/escrow.service.ts:246-570 | Every service call keeps the tables sane, and an escrow with a contract keeps contract and order while its status stays or rises in rank |
| Handlers.SweepAgain | src/modules/order/order.service.ts:312-350 | The sweep changes exactly the overdue, active, unprotected orders whose write succeeds; a second sweep finishes what failing writes left, and after a full sweep another one changes nothing |
| Handlers.SameClosers | src/modules/order/order.service.ts:380-443 | After a sweep, exactly the orders that should have closed and whose write failed still should |
| Effects.SweepWrites | src/modules/order/order.service.ts:389-437 | A sweep makes an order cancelled exactly from locked and expired exactly from created, when it is past its expiry, its escrow is none or not past funded, and its own write succeeds; no other field changes |
| Effects.CancelExactly | src/modules/order/order.service.ts:241-284 | Each answer to a cancellation exactly: buyer and seller alone, of an open order alone, with no escrow or one not yet funded |
| Effects.CancelWrites | src/modules/order/order.service.ts:292-294 | A cancellation changes one status and nothing else, a refused one nothing |
| Services.Database.FindByOrder | src/modules/escrow/escrow.service.ts:247 | The row found is the escrow of the order, and none is missed |
| Services.Database.FindByContract | src/modules/stellar/stellar-listener.service.ts:353-359 | The row found is the escrow of the contract, and none is missed |
| Services.EscrowService.SyncTransaction | src/modules/escrow/escrow.service.ts:510-570 | The whole new tables and the outcome of a sync, for every status, action, reply and key conflict |
| Services.EscrowService.OpenEscrow | src/modules/escrow/escrow.service.ts:246-289 | The whole new tables and the outcome of opening an escrow |
| Services.EscrowService.InitializeEscrow | src/modules/escrow/escrow.service.ts:291-355 | The whole new tables and the outcome of initializing an escrow |
| Services.OrderService.CancelOrder | src/modules/order/order.service.ts:236-295 | The whole new tables and the outcome of a cancellation, with each refusal |
| Services.OrderService.ExpireOrders | src/modules/order/order.service.ts:312-350 | The loop over overdue orders, in any order and with any balance answers and failing writes, is the pointwise sweep |
| Services.OrderService.ProcessExpiredOrder | src/modules/order/order.service.ts:380-443 | One overdue order is closed unless protected or its write fails; no other row changes |
| Listener.StellarListener.constructor | src/modules/stellar/stellar-listener.service.ts:445-479 | A new process remembers nothing and starts from the ledger of the newest escrow row, if the listener wrote it |
| Listener.StellarListener.FindEscrowRecord | src/modules/stellar/stellar-listener.service.ts:350-371 | The escrow of the event: by contract, else by the order it names |
| Listener.StellarListener.ProcessEvent | src/modules/stellar/stellar-listener.service.ts:257-348 | The whole new tables, the memory and the outcome of one event, for duplicates, unknown escrows, refusals and failing storage |
| Listener.StellarListener.GetTargetContractIds | src/modules/stellar/stellar-listener.service.ts:175-202 | Exactly the configured contract and those of escrows neither released nor resolved |
| Listener.StellarListener.ReceiveEntry | src/modules/stellar/stellar-listener.service.ts:140-163 | One entry of a page: what throws leaves the ledger mark, what does not moves it up; counted exactly when a row was written |
| Listener.StellarListener.FetchAndProcessNewEvents | src/modules/stellar/stellar-listener.service.ts:129-170 | One poll: the whole new state, and the count of audit rows written |
| Effects.RemembersExactly | src/modules/stellar/stellar-listener.service.ts:258-279 | A key is remembered exactly when its event was applied or judged already processed, and a remembered key is a duplicate |
| Effects.ReceiveMarks | src/modules/stellar/stellar-listener.service.ts:145-163 | An event moves the mark up to its ledger exactly when it did not throw |
| Effects.TargetsExactly | src/modules/stellar/stellar-listener.service.ts:175-202 | The contracts asked for: the configured one and those of escrows neither released nor resolved, none empty |
| Effects.PollAsks | src/modules/stellar/stellar-listener.service.ts:207-233 | A poll asks from its mark on, or without a start when it has none, takes the page and ends no lower than the latest ledger; without targets it does nothing |
| Effects.PageByEntry | src/modules/stellar/stellar-listener.service.ts:140-163 | A page is taken in entry by entry, each with its own storage reply |
| Effects.StartsExactly | src/modules/stellar/stellar-listener.service.ts:445-479 | A new process starts from the ledger of the last applied event if its row is the newest, and from 0 after a row of a service, without rows or without an answer |
| Replay.ReplayExactly | src/modules/stellar/stellar-listener.service.ts:129-170 | Every run of polls, failed polls, restarts and processes that stop after any entry of a page leaves the tables of one pass over the log as far as it was reached, if and only if at no place of that pass an entry before it could still be applied |
| Replay.RunCatchesUp | src/modules/stellar/stellar-listener.service.ts:257-348 | Along every such run over a settled log: tables, memory and ledger mark stand at one place of the log |
| Replay.PagePrefix | src/modules/stellar/stellar-listener.service.ts:140-163 | After any number of entries of a page, re-delivered or new, the tables are those of the log so far |
| Replay.PollCatchesUp | src/modules/stellar/stellar-listener.service.ts:129-170 | One poll with inclusive re-delivery takes in each new entry once and repeats none |
| Replay.BreakCatchesUp | src/modules/stellar/stellar-listener.service.ts:140-163 | A process that stops anywhere in a page leaves a new one with the entries taken so far and a mark that misses none of the others |
| Replay.EveryStopIsReached | src/modules/stellar/stellar-listener.service.ts:140-163 | Stopping after any number of entries of a page is stopping after what it holds of some first entries of the log |
| Replay.PollsReach | src/modules/stellar/stellar-listener.service.ts:165-167 | A page taken to its end brings the run at least to the end of its latest ledger |
| Replay.RestartKeeps | src/modules/stellar/stellar-listener.service.ts:445-479 | The ledger read back at a restart is never beyond an entry not yet taken in |
| Replay.ValidSettles | src/modules/escrow/escrow.service.ts:145-170 | A log in which every event is valid, already processed or of an unknown escrow at its turn is settled at every place |
| Replay.EarlyReleaseIsUnsettled | src/modules/stellar/stellar-listener.service.ts:287-290 | A log that is admissible and not settled: a release before the funding of the same ledger |
| Replay.UntargetedIsQuiet | src/modules/stellar/stellar-listener.service.ts:175-202 | An event of a tracked contract that a poll does not ask for cannot take effect, then or later |
| Replay.RestartRepeats | src/modules/stellar/stellar-listener.service.ts:36-37 | A process started afresh over what was taken in changes the tables when an entry of it can still be applied |
| Transparency.Transparent | src/modules/stellar/stellar-listener.service.ts:257-279 | Event by event, with restarts and service calls in between, as long as no open sets a funded escrow back, dropping the memory of processed events and the filter on closed contracts changes no row in any run |
| Transparency.TransparentFromStart | src/modules/stellar/stellar-listener.service.ts:36-37 | So for every process just started over sane tables |
| Transparency.StepAgrees | src/modules/stellar/stellar-listener.service.ts:260-263 | What the memory or the filter leaves out would have changed nothing |
| Transparency.StepKeeps | src/modules/stellar/stellar-listener.service.ts:342 | Every remembered key is of an event that is spent on the escrow it is about, after every step |
| Transparency.ClosedIsSpent | src/modules/stellar/stellar-listener.service.ts:183-191 | Every event of the contract of a released or resolved escrow is spent on it |
| Transparency.UnguardedOpenShows | src/modules/escrow/escrow.service.ts:246-272 | Without the guard on `open` the memory does show: a run where the two listeners end with different statuses |
| TwoListeners.ListenersAgree | src/modules/stellar/stellar-listener.service.ts:129-202 | Two listeners polling from their own ledger marks, one with memory and filter and one with neither, leave the same tables after any run of pages, refused transactions, stops and service calls, and the mark of the first is never ahead |
| TwoListeners.MoveKeeps | src/modules/stellar/stellar-listener.service.ts:129-202 | After every single move the tables are equal and the mark that lags behind misses nothing |
| TwoListeners.RoundIsPoll | src/modules/stellar/stellar-listener.service.ts:129-170 | Begun, taken entry by entry and ended without disturbance, a round is one poll of each listener, whatever entries the storage refuses |
| TwoListeners.OneSided | src/modules/stellar/stellar-listener.service.ts:182-191 | What the filtering listener gets, the other gets too; what only the other gets is about released or resolved escrows |
| TwoListeners.HandleSaved | src/modules/stellar/stellar-listener.service.ts:445-479 | No service call moves the ledger of the next start forward |
| Lifecycle.RankPays | src/modules/escrow/escrow.service.ts:145-170 | Over any run, an escrow with a contract keeps it and its order, and its status changes at most as often as its rank rises, at most five times |
| Lifecycle.ProtectedForGood | src/modules/order/order.service.ts:255-284 | From `fiat_sent`, `disputed`, `released` or `resolved` on, no cancellation and no sweep of any run changes the order row |
| Lifecycle.OverForGood | src/modules/escrow/escrow.service.ts:652-688 | A released or resolved escrow with a contract keeps its status, and its order row stays as it is, over any run |
| Lifecycle.SyncedReleaseStrandsOrder | src/modules/escrow/escrow.service.ts:510-555 | After a synced release the order row is the one from before the sync, after any run |
| Lifecycle.CancelledOrderReopens | src/modules/stellar/stellar-listener.service.ts:306-315 | An event on the escrow of a cancelled order takes the order out of `cancelled` if and only if it is the creation of a pending or the funding of an initialized escrow |
| Agreement.AuditTells | src/modules/stellar/stellar-listener.service.ts:306-333 | In runs of events and fiat notices from a created order with an unfunded escrow: the order status is a function of the escrow status, at most one listener row per event type, at most one fiat notice taken, and rows and notice tell the escrow status |
| Agreement.EventOnSelf | src/modules/stellar/stellar-listener.service.ts:383-422 | One event on the escrow keeps order, audit trail and status in agreement |
| Agreement.SyncAgreesExactly | src/modules/escrow/escrow.service.ts:523-541 | A successful sync leaves order and escrow in agreement if and only if it initializes or notes the fiat payment |
| EventClassifier.ResolvedByCandidates | src/modules/stellar/stellar-event-parser.service.ts:110-158 | The type depends only on which keywords occur inside single candidates, the longer keywords adding nothing to the shorter |
| EventClassifier.JoinMentions | src/modules/stellar/stellar-event-parser.service.ts:114-117 | A keyword occurs in the joined text if and only if it occurs in one candidate |
| EventClassifier.TopicOrderIrrelevant | src/modules/stellar/stellar-event-parser.service.ts:110-158 | Topics with the same texts in any order, however often, give the same type |
| EventClassifier.LetterCaseIrrelevant | src/modules/stellar/stellar-event-parser.service.ts:114-117 | Topics that are alike in upper case give the same type |
| UpperCase.UpperOfConcat | src/modules/stellar/stellar-event-parser.service.ts:117 | Upper-casing a joined text is joining the upper-cased parts, with characters that become several |
| UpperCase.UpperTwice | src/modules/payment-methods/payment-method-validator.service.ts:172 | Upper-casing twice is upper-casing once |
| EventClassifier.MoreTopicsMoveUp | src/modules/stellar/stellar-event-parser.service.ts:110-158 | Additional topics never lower the precedence of the type |
| EventClassifier.RefundNeverFunded | src/modules/stellar/stellar-event-parser.service.ts:126-158 | A refund is never read as funded, though its text mentions `FUND`; exactly when the type is funded |
| EventClassifier.MentionedExactly | src/modules/stellar/stellar-event-parser.service.ts:114-116 | A keyword is found exactly when the direct type, if it is a text, or some topic contains it |
| EventClassifier.OneTopic | src/modules/stellar/stellar-event-parser.service.ts:119-157 | The type of a single topic by the words in it, earlier lines first |
| UpperCase.PlainUpper | src/modules/stellar/stellar-event-parser.service.ts:117 | Plain letters become their capitals, other plain characters stay, one for one |
| UpperCase.SpecialUpper | src/modules/stellar/stellar-event-parser.service.ts:117 | Which other characters have an upper case with a plain letter in it |
| UpperCase.SpecialTexts | src/modules/stellar/stellar-event-parser.service.ts:117 | What those become |
| LoginProtocol.AuthService.CreateChallenge | src/modules/auth/auth.service.ts:50-72 | The whole new store: expired rows deleted, the key's row replaced; an invalid key changes nothing |
| LoginProtocol.AuthService.Login | src/modules/auth/auth.service.ts:79-182 | Each answer exactly: malformed key, challenge not consumable at the check, signature not good, race lost, token; the whole new store, in which a row taken is consumable no more |
| LoginProtocol.IssueWrites | src/modules/auth/auth.service.ts:61-69 | Issuing leaves a fresh unused row for the key and, of the other keys, exactly the rows not expired |
| LoginProtocol.ConsumeWrites | src/modules/auth/auth.service.ts:139-147 | The update changes exactly the unused, matching, unexpired row, and of it the use alone |
| LoginProtocol.PurgeWrites | src/modules/auth/auth.service.ts:259-268 | A purge deletes exactly the expired rows and those used before the threshold |
| LoginProtocol.AuthService.PurgeExpiredChallenges | src/modules/auth/auth.service.ts:251-268 | Which rows are deleted, and how many |
| LoginProtocol.SingleUse | src/modules/auth/auth.service.ts:139-155 | In every interleaving, each issued challenge yields at most one token, for the key it was issued to, with a valid signature, before its expiry |
| LoginProtocol.InvStep | src/modules/auth/auth.service.ts:86-155 | Each single step of any login, issue or purge keeps the invariant behind single use |
| LoginProtocol.FailuresTruthful | src/modules/auth/auth.service.ts:107-155 | In every interleaving a login fails for its signature only if that does not verify, and wins or loses the race only if it does |
| LoginProtocol.PhasesExactly | src/modules/auth/auth.service.ts:86-147 | Which row each login reads, and when it fails its check, its signature and its update |
| LoginProtocol.DeletionsInvisible | src/modules/auth/auth.service.ts:251-268 | From the empty table, in every run whose updates carry instants no older than the deletions before them, deleting expired and used rows changes the outcome of no login |
| LoginProtocol.RefinesStep | src/modules/auth/auth.service.ts:61-69 | Each step of the deleting store is matched by the store that never deletes |
| LoginProtocol.DeletionShowsExactly | src/modules/auth/auth.service.ts:139-147 | Over every run the outcomes of all logins are those of the store that never deletes, if and only if no update of the run misses a deleted row that could still be consumed; that store can always follow |
| LoginProtocol.StepAgreesExactly | src/modules/auth/auth.service.ts:86-147 | A single step brings the two stores apart if and only if it is such an update |
| LoginProtocol.StaleStampLoses | src/modules/auth/auth.service.ts:139-155 | A run from the empty table in which it does show |
| RateLimit.AuthRateLimitGuard.CanActivate | src/modules/auth/auth-rate-limit.guard.ts:23-44 | The whole new set of windows and the decision |
| RateLimit.AuthRateLimitGuard.PruneExpired | src/modules/auth/auth-rate-limit.guard.ts:50-56 | Exactly the stale windows are deleted |
| RateLimit.StepExactly | src/modules/auth/auth-rate-limit.guard.ts:27-43 | A request is let through exactly without a window, after 60000 ms of it, or as one of the first ten in it; what becomes of every window |
| RateLimit.KeysTellApart | src/modules/auth/auth-rate-limit.guard.ts:25 | Two clients of one path have different windows, and so do two paths of one client |
| RateLimit.PruningInvisible | src/modules/auth/auth-rate-limit.guard.ts:30-34 | Over every trace the decisions are those of a limiter that never deletes |
| RateLimit.IntervalBound | src/modules/auth/auth-rate-limit.guard.ts:18-44 | No half-open interval of 60000 ms holds more than 19 allowed requests of one key |
| RateLimit.BoundReached | src/modules/auth/auth-rate-limit.guard.ts:18-44 | A trace with 19 of them |
| RateLimit.RefusalJustified | src/modules/auth/auth-rate-limit.guard.ts:36-43 | A refusal is preceded by ten allowed requests of the key within the last 60000 ms |
| Iban.ChunkStep | src/modules/payment-methods/payment-method-validator.service.ts:163-169 | Remainder and next chunk, read together, stay below 970000000 and have the remainder of all text read so far |
| Iban.Mod97 | src/modules/payment-methods/payment-method-validator.service.ts:163-169 | The chunked remainder is that of the whole decimal value, for every text of digits |
| Iban.IsValidIban | src/modules/payment-methods/payment-method-validator.service.ts:171-189 | The loop accepts exactly the normalised texts of the right shape and length whose rearranged number leaves 1 modulo 97 |
| Iban.CheckDigitsExact | src/modules/payment-methods/payment-method-validator.service.ts:182-188 | The generation law of ISO 13616: the check digits accepted are exactly those equal modulo 97 to 98 less the remainder of account, country and two zeros |
| Iban.GeneratedAccepted | src/modules/payment-methods/payment-method-validator.service.ts:182-188 | The digits so computed are accepted, and any others exactly if equal to them modulo 97 |
| Iban.NorwegianExample | src/modules/payment-methods/payment-method-validator.service.ts:171-189 | One literal IBAN that is accepted, and one that is not |
| Iban.AcceptedShape | src/modules/payment-methods/payment-method-validator.service.ts:173-180 | What is accepted has two letters, two digits, letters or digits, 15 to 34 characters, and the length of its country if listed |
| Iban.BlanksAndCaseIgnored | src/modules/payment-methods/payment-method-validator.service.ts:172 | Whitespace anywhere does not matter, nor does the case of a letter |
| Iban.WhitespaceIs | src/modules/payment-methods/payment-method-validator.service.ts:172 | The characters that count as whitespace, by their codes |
| Iban.NormalFormStays | src/modules/payment-methods/payment-method-validator.service.ts:172 | Texts of capitals and digits are their own normal form |
| Iban.LengthsA | src/modules/payment-methods/payment-method-validator.service.ts:86-160 | The lengths of these countries, in the order of their codes |
| Iban.LengthsB | src/modules/payment-methods/payment-method-validator.service.ts:86-160 | The lengths of these countries, in the order of their codes |
| Iban.LengthsCToE | src/modules/payment-methods/payment-method-validator.service.ts:86-160 | The lengths of these countries, in the order of their codes |
| Iban.LengthsFToG | src/modules/payment-methods/payment-method-validator.service.ts:86-160 | The lengths of these countries, in the order of their codes |
| Iban.LengthsHToI | src/modules/payment-methods/payment-method-validator.service.ts:86-160 | The lengths of these countries, in the order of their codes |
| Iban.LengthsJToL | src/modules/payment-methods/payment-method-validator.service.ts:86-160 | The lengths of these countries, in the order of their codes |
| Iban.LengthsM | src/modules/payment-methods/payment-method-validator.service.ts:86-160 | The lengths of these countries, in the order of their codes |
| Iban.LengthsNToP | src/modules/payment-methods/payment-method-validator.service.ts:86-160 | The lengths of these countries, in the order of their codes |
| Iban.LengthsQToR | src/modules/payment-methods/payment-method-validator.service.ts:86-160 | The lengths of these countries, in the order of their codes |
| Iban.LengthsS | src/modules/payment-methods/payment-method-validator.service.ts:86-160 | The lengths of these countries, in the order of their codes |
| Iban.LengthsTToX | src/modules/payment-methods/payment-method-validator.service.ts:86-160 | The lengths of these countries, in the order of their codes |
| Iban.MiddleDecides | src/modules/payment-methods/payment-method-validator.service.ts:171-189 | Two texts that differ in one stretch of equal width leave the same remainder exactly when the stretches do |
| Iban.CancelPow10 | src/modules/payment-methods/payment-method-validator.service.ts:163-169 | Powers of ten can be cancelled modulo 97 |
| Iban.SubstitutionDetected | src/modules/payment-methods/payment-method-validator.service.ts:171-189 | Another digit for a digit, or another letter for a letter, anywhere in an accepted IBAN, is rejected |
| Iban.AccountSwapExact | src/modules/payment-methods/payment-method-validator.service.ts:171-189 | Swapping two different adjacent characters of the account part is accepted if and only if they are one of three pairs of a digit and a letter |
| Iban.HeaderSwapDetected | src/modules/payment-methods/payment-method-validator.service.ts:171-189 | Swapping two different adjacent characters of the first four is rejected |
| Cpf.IsValidCpf | src/modules/payment-methods/payment-method-validator.service.ts:195-209 | The loops accept exactly the eleven-digit, not all identical texts whose two last digits are the folded check digits |
| Cpf.SingleDigitExact | src/modules/payment-methods/payment-method-validator.service.ts:195-209 | Changing one digit of an accepted CPF goes unnoticed if and only if it is the first by 1 or the sixth by 2 or 9, at a fold of 10 to 0 |
| Cpf.UnnoticedChangesOccur | src/modules/payment-methods/payment-method-validator.service.ts:195-209 | Each of the three kinds does occur |
| Cpf.CheckDigitsFixed | src/modules/payment-methods/payment-method-validator.service.ts:200-208 | The first nine digits fix the two check digits |
| Cpf.RepeatedRefused | src/modules/payment-methods/payment-method-validator.service.ts:198 | Eleven times the same digit is refused, although its check digits are right |
| Cpf.SignsIgnored | src/modules/payment-methods/payment-method-validator.service.ts:49-51 | Characters other than digits are ignored wherever they stand, and digits are kept |
| Cpf.DigitsStripped | src/modules/payment-methods/payment-method-validator.service.ts:49-51 | A text of digits is read as it stands |
| Money.RoundTrip | src/modules/send/send.service.ts:171-190 | Every printed amount matches the amount format and reads back as the same stroops |
| Money.ReadsExactly | src/modules/send/send.service.ts:171-181 | What is read is exactly ten million times the real number written |
| Money.SameTextIffSameAmount | src/modules/send/send.service.ts:171-190 | Two accepted texts normalise to the same text if and only if they denote the same amount |
| Money.NormalFormExact | src/lib/constants/regex.ts:6 | An accepted text is its own normal form if and only if it has no needless zero in front or behind |
| Money.PrepareExact | src/modules/send/send.service.ts:60-114 | With good accounts, a send is prepared if and only if the text is an amount and amount times basis points reaches 10000; then the three texts read as amount, fee and their sum; the two refusals of the amount exactly |
| Money.PrepareRefusals | src/modules/send/send.service.ts:67-89 | Each refusal of a send exactly, for all senders, recipients, amounts, rates and collectors |
| Money.MatchesExactly | src/lib/constants/regex.ts:6 | The texts that match: digits, or digits, a dot and one to seven digits |
| Money.DenotesExactly | src/modules/send/send.service.ts:171-181 | The real number that each such text denotes |
| Money.GoodTexts | src/modules/stellar/stellar.service.ts:218-229 | The builder accepts every positive printed amount and fee between good accounts |
| Money.PositivePasses | src/modules/stellar/stellar.service.ts:329-336 | Every positive printed amount passes the builder's check |
| Money.FeeReachesOne | src/modules/send/send.service.ts:82-89 | The fee is positive exactly from 10000 on, and is the integer part of the exact fee |
| Money.FeeOfSplit | src/modules/send/send.service.ts:82 | Splitting an amount loses at most one stroop of fee and gains none |
| Envelope.SignAndEncode | src/modules/escrow/trustless-work.service.ts:196-255 | The buffers that the method fills and joins are the specified bytes, with and without earlier signatures, and out of range where the source throws |
| Envelope.WriteUInt32BE | src/modules/escrow/trustless-work.service.ts:210-226 | Four bytes are written, all others stay |
| Envelope.CopyInto | src/modules/escrow/trustless-work.service.ts:221-223 | The source's bytes are written at the offset, all others stay |
| Envelope.DecorateInPlace | src/modules/escrow/trustless-work.service.ts:219-223 | The 72 bytes of a decorated signature: hint, length 64, signature |
| Envelope.RoundTrip | src/modules/escrow/trustless-work.service.ts:239-252 | Every envelope decodes to its type, body and signatures (sections 4.10 and 4.13 of RFC 4506) |
| Envelope.DecodeAllEncoded | src/modules/escrow/trustless-work.service.ts:231-236 | Every list of decorated signatures decodes to itself |
| Envelope.WordRoundTrip | src/modules/escrow/trustless-work.service.ts:198-199 | Four bytes are the big-endian word of a number if and only if they read as it |
| Envelope.SignsUnsigned | src/modules/escrow/trustless-work.service.ts:207-253 | An envelope without signatures becomes the one with exactly ours, 72 bytes longer, signed over network id, type and body |
| Envelope.PreimageExact | src/modules/escrow/trustless-work.service.ts:199-214 | What is hashed is network id, type and body if and only if there is no signature yet |
| Envelope.AppendsToTrailing | src/modules/escrow/trustless-work.service.ts:230-245 | Bytes with signatures in front of their count get the count raised and put before them, and ours after them |
| Envelope.SigningRefused | src/modules/escrow/trustless-work.service.ts:198-226 | Signing is refused exactly for inputs shorter than a word and for a full count |
| Envelope.SubarrayBounds | src/modules/escrow/trustless-work.service.ts:233-241 | Slice bounds: negative ones count from the end, those beyond an end are the end |
| Envelope.EnvelopeLayout | src/modules/escrow/trustless-work.service.ts:239-252 | Where type, body, count and each signature stand in the bytes (section 4.13 of RFC 4506) |
| Envelope.DecoratedLayout | src/modules/escrow/trustless-work.service.ts:219-223 | Hint, the bytes 0 0 0 64, signature (section 4.10 of RFC 4506) |
| Envelope.WordIsBigEndian | src/modules/escrow/trustless-work.service.ts:210-226 | The most significant byte of a word stands first |
| Calendar.TextOrder | src/modules/stats/stats.service.ts:128-133 | Comparing two formatted dates as texts is comparing the days |
| Calendar.ParseFormat | src/modules/stats/stats.service.ts:128-133 | A formatted date reads back as the same day |
| Calendar.NextIsLater | src/modules/stats/stats.service.ts:79 | The next day is a day, later, and has the day before it |
| Calendar.NextIsOneMore | src/modules/stats/stats.service.ts:79 | The next day has the next number in the closed form of the Gregorian calendar, leap years and month lengths included |
| Calendar.PlusIsMore | src/modules/stats/stats.service.ts:79 | So entry k is exactly k days after the first |
| Calendar.MonthBackIsDays | src/modules/stats/stats.service.ts:90-93 | Setting the month back by one, overflow of short months included, is going back as many days as the month before has |
| Timeline.BuildTimeline | src/modules/stats/stats.service.ts:53-80 | One entry for each day from the first count to today, each with the sum of all counts dated on or before it |
| Timeline.GetTimeline | src/modules/stats/stats.service.ts:53-108 | What is shown is the end of the one full timeline: 7 or 14 entries, one more than the days of the month before, or all, and never more than there are |
| Timeline.WindowSizes | src/modules/stats/stats.service.ts:82-103 | The number of entries in each window: 7, 14, all, or 29 to 32 by the month |
| Timeline.FullTimelineUnique | src/modules/stats/stats.service.ts:67-80 | There is only one full timeline for the counts and the day |
| Timeline.WindowIsSuffix | src/modules/stats/stats.service.ts:82-108 | The filter on texts cuts exactly that suffix |
| Timeline.LastIsTotal | src/modules/stats/stats.service.ts:67-80 | The last entry is today's and carries the grand total |
| Timeline.DailyDifference | src/modules/stats/stats.service.ts:67-80 | Consecutive days differ by the count of the later one |
| Timeline.SignedUpIsPrefix | src/modules/stats/stats.service.ts:70-78 | With ascending days the sum up to a day is that of a prefix of the counts |

## Left out

- HTTP, RPC and database clients, timers, cron wiring and logging: their replies are inputs.
- Hashes, signatures, base64, JWT and key parsing: uninterpreted or omitted.
- Replay.ReplayExactly: pages cut off at 100 events, transactions that the storage refuses and polls that could not read their target contracts are outside the run, because the ledger mark moves past what they miss.
- Transparency.Transparent: contracts that no escrow holds and that are not configured are polled by neither listener; a contract handed out later is not one that an event has named before.
- TwoListeners.ListenersAgree: polls that could not read their target contracts are outside the run.
- Handlers.HandleKeeps: `OrderService.update` and `remove`, and the legacy create, update and remove of escrows, are unconditional writes and not modelled.
- Handlers.InitializeKeeps: addresses and amounts of an escrow are not modelled, so that initializing an existing escrow changes nothing.
- Handlers.CreateKeeps: the offer marked as executed is not modelled.
- Agreement.AuditTells: other syncs are excluded, because a synced initialization writes no listener row and the other two leave the order behind (`Agreement.SyncAgreesExactly`).
- Money.PrepareExact: the recipient's resolution and the basis points are inputs; reading the percentage as a floating-point number is not modelled.
- Timeline.GetTimeline: days outside the years 1032 to 9998 and changes of the local time zone are not modelled.
- Envelope.SignAndEncode: for an envelope that has signatures the source takes the last four bytes of the last one for the count; the bytes are modelled so, and no meaning is claimed for that output.
- LoginProtocol.AuthService.Login: the user row, the audit row and the token's content are not modelled.
- RateLimit.AuthRateLimitGuard.CanActivate: `reset` and the reading of path and address from the request are not modelled.
- Listener.StellarListener.ProcessEvent: the key text is modelled as the pair of event id and type; the notification is omitted, and so is an event type outside the six.
- The parsing of raw events other than their type, statistics other than the timeline, other payment method checks, KYC, chat, files and DTO validation: single lookups or patterns.
