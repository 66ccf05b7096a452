# Verified model of the umrahservice API

A Dafny model of the logic inside a Go mobile API for pilgrimage groups: the wallet and its double-entry
journal, the rate limiter and throttles, codes that must parse back to what was printed, the room-number merge,
incidents and tasks over time, task visibility, the schedule and notification paging.

| file | what it models |
|---|---|
| `Finance.dfy` | cash rows, accounts, rates, what a row stands for in the journal, the balance query |
| `Wallet.dfy` | the wallet handlers and the journal hook, updating the tables step by step |
| `LedgerTheorems.dfy` | agreement of journal and rows over runs, trial balance, wallet balances, frozen rows |
| `RateLimit.dfy`, `Throttle.dfy` | fixed windows per key, sliding bounds, interleaved requests through the API and login throttles, Retry-After |
| `GoText.dfy`, `Base64.dfy`, `LuggageTag.dfy`, `Tokens.dfy`, `Channels.dfy` | text functions and the three printed codes |
| `Rooming.dfy` | the ordered merge of room numbers and its reader |
| `Incidents.dfy`, `Tasks.dfy` | status with progress log, tasks with checklists |
| `TaskVisibility.dfy` | the SQL scope and the in-memory policy |
| `Schedule.dfy`, `Paging.dfy` | sorting by formatted time, pages of fifteen |
| `Prelude.dfy`, `Lists.dfy` | nullable columns, finite sums, filters and sorting |

How it is built. Objects the program updates in place are classes whose methods follow the handlers and are proved
against a step of a value-level state; what holds over whole runs is proved about those values. For the journal
the step is told by its effect only (`Finance.Saves`): the saved row's journal is what a pure projection of the row
gives, everything else keeps id and content. `AnySave` admits any row at each step, so runs include changes of type,
currency, recipient and category, and moves into and out of the skipped case made by the back office on the same tables.

Assumptions. A request is one step, except at the limiter, and a save commits together with its hook. Auto-increment ids are fresh and never
reused. Deleting an incident leaves its progress rows in
place, as the handler deletes the incident row alone; a cascade would belong to the database schema. Categories, account codes and (per save) the table of exchange rates are given. Where a theorem needs a clock
that does not run backwards it says so. Amounts and rates are exact reals; SHA-256 is an arbitrary function; `amount_c` is
an arbitrary function of the row. Each hit on the limiter is one step under its lock, and requests interleave
freely between hits. Access decisions (`allowed`, `admin`, `visible`) are inputs of the incident and task
requests; the task scope behind `visible` is modelled in `TaskVisibility.dfy`.

Where the code does less than one would expect:
- Wallet balance and journal differ on skipped rows, on transfers to oneself and on income or expense rows that
  name a recipient. The wallet's validation accepts the last two. Fixed rows and rows tied to another record come from
  the back office, but a wallet edit may put a tied row into a vendor-payment category, which skips it
  (`EditSkipsExactly`). `WalletReconciles` gives the difference and `WalletAgreementExactly` the exact condition.
- The limiter reopens a window only strictly after its reset time, so waiting exactly Retry-After seconds can fail
  (`RetryOnTheDotInRuns`, reached in `RetryOnTheDotIsReached`).
- A room-numbers request that clears and renames the same hotel saves the pair twice (`SavedDistinctExactly`), and
  sending it again may change the list once more (`MergeAgainExactly`).
- The task scope matches an empty role name and the policy does not (`FormsAgreeExactly`).
- Page numbers whose offset overflows 64 bits are served other rows (`IdealExactlyWhenFitting`).
- Notifications are ordered by creation time alone, so pages from separate queries can show one row twice and miss
  another (`PartitionExactly`).
- Unchecking an item reopens it under a task that stays completed (`OpenItemUnderCompletedTask`).

## Model

| member | source | states |
|---|---|---|
| Finance.LatestRate | internal/models/finance_journal.go:103-116 | the rate row used is one within the seven days up to the date with the greatest day; there is none exactly when no row applies |
| Wallet.FirstHeader | internal/models/finance_journal.go:146-149 | the header found is the one with the least id among this cash row's, and none is found exactly when the row has none |
| Wallet.Ledger.constructor | internal/models/finance_journal.go:25-65 | a new ledger has empty tables |
| Wallet.Ledger.DeleteWithItems | internal/models/finance_journal.go:43-48 | exactly the header and the lines hanging on it disappear |
| Wallet.Ledger.UpsertItem | internal/models/finance_journal.go:240-269 | the one line of this header and side is overwritten in place, or one line with a fresh id is added; nothing else changes |
| Wallet.Ledger.UpsertHeader | internal/models/finance_journal.go:167-192 | an existing header keeps id and creator and takes the row's date, details and editor; otherwise one fresh header is added |
| Wallet.Ledger.PostLines | internal/models/finance_journal.go:195-221 | the debit and credit written are the two lines the row stands for, for each of the three types |
| Wallet.Ledger.RemoveEntry | internal/models/finance_journal.go:151-158 | a skipped row ends without any entry, the rest of the journal keeping ids and contents |
| Wallet.Ledger.PostEntry | internal/models/finance_journal.go:160-224 | a row that is not skipped ends with one header and exactly its two lines, the rest untouched, ids reused when it was posted before |
| Wallet.Ledger.SyncJournalEntry | internal/models/finance_journal.go:136-224 | the hook after a save, from any consistent books: the row's journal is rebuilt from the row alone and every other entry and line keeps id and content |
| Wallet.Ledger.Save | internal/models/finance_journal.go:131-224 | creating or overwriting any cash row together with its hook is one such save, and the entry it leaves tells the row: accounts, owners, currency, amount and the quoted rate |
| Wallet.Ledger.WalletStore | internal/handlers/wallet.go:145-243 | a refusal names exactly the bad fields and changes nothing; otherwise a new open and untied row of the user holds what the request says, with the inverse of its currency's rate, its entry tells it, and the books stay consistent |
| Wallet.Ledger.WalletUpdate | internal/handlers/wallet.go:246-336 | which guard answers, in order, and which fields are bad; a refusal changes nothing; NotOwner or Locked is answered exactly for rows not editable by the user; otherwise the row holds what the request says in every editable column and keeps the others, its entry tells it, and the books stay consistent |
| Wallet.OthersStayMirrored | internal/models/finance_journal.go:146-221 | saving one row leaves every other row's journal equal to what that row stands for |
| Wallet.SaveKeepsSound | internal/models/finance_journal.go:43-48 | after any save no line dangles and no cash-row header lacks its row |
| Wallet.SaveKeepsConsistent | internal/models/finance_journal.go:136-224 | any save of any row keeps the journal equal, row by row, to the pure projection of the cash table |
| Wallet.RateTold | internal/models/finance_journal.go:96-125 | the rate of an entry is 1 for IDR, else that of the newest quote against IDR for the currency within the seven days up to the date, else 16000 for USD, 4300 for SAR and 1 otherwise |
| Wallet.PairTold | internal/models/finance_journal.go:195-221 | the two lines by type: advance cash 1.101.003 of sender, recipient or owner, against the category's account or else 1.101.001 for income and 6.000.009 for expense |
| Wallet.MirrorTells | internal/models/finance_journal.go:136-224 | a mirrored row with the quote of its save has no entry if fixed or a tied vendor payment, otherwise one header and exactly two lines that say all of this |
| Wallet.NewRowTells | internal/handlers/wallet.go:200-230 | a new row holds the request's type, amount, currency, details, date, group, category and recipient, and the inverse rate |
| LedgerTheorems.JournalFollowsRows | internal/models/finance_journal.go:136-269 | in every state of every run of saves, each row has no entry if skipped, otherwise one header with exactly one debit and one credit line of the projected account, currency, amount, owner and last rate |
| LedgerTheorems.JournalIsOfLastSave | internal/models/finance_journal.go:136-269 | over any run of saves the journal tells, of each row, exactly what its last save had to write, with the rates quoted then |
| LedgerTheorems.HeaderOutlivesEdits | internal/models/finance_journal.go:167-192 | while a row is not skipped its header id, creator and line ids survive all edits of it and of other rows |
| LedgerTheorems.SaveSparesOthers | internal/models/finance_journal.go:146-221 | saving another row leaves a row's header and lines exactly as they were |
| LedgerTheorems.StepSparesLocked | internal/handlers/wallet.go:249-261 | no wallet request of any user touches a fixed or PIC-verified row, its header or its lines |
| LedgerTheorems.LockedRowsAreFrozen | internal/handlers/wallet.go:249-261 | over any run of wallet requests by any users a fixed or verified row and its journal stay identical |
| LedgerTheorems.WalletRowsArePosted | internal/handlers/wallet.go:200-232 | every row the wallet alone created, in every reachable state, is unskipped and has its posted entry |
| LedgerTheorems.LedgerIsRowSum | internal/models/finance_journal.go:197-221 | any measure summed over the journal's cash-row lines equals the sum over present rows of the measure of the two lines each stands for |
| LedgerTheorems.HistoryIsForgotten | internal/models/finance_journal.go:136-224 | two histories ending in the same rows and last quotes give equal sums for every measure |
| LedgerTheorems.TrialBalance | internal/models/finance_journal.go:197-221 | in every state of every run debits equal credits per currency and, as amount times rate, in the base currency |
| LedgerTheorems.WalletReconciles | internal/handlers/wallet.go:34-42 | for every user and currency, wallet balance = signed journal lines owned by the user + the listed reconciling items, exactly |
| LedgerTheorems.JournalAgreesWithWallet | internal/handlers/wallet.go:34-42 | with no skipped row, self-transfer, or recipient on income or expense concerning the user, journal and wallet balance are equal in every state |
| LedgerTheorems.WalletAgreementExactly | internal/handlers/wallet.go:34-42 | wallet and journal agree for all amounts and currencies if and only if each of the user's rows meets that condition |
| LedgerTheorems.SelfTransferParts | internal/handlers/wallet.go:170-178 | a transfer to oneself passes validation, raises the balance and moves no journal total of the user |
| LedgerTheorems.RecipientOnIncomeParts | internal/handlers/wallet.go:216-218 | an income that names a recipient passes validation and raises the recipient's balance without a line of theirs |
| LedgerTheorems.EditSkipsExactly | internal/models/finance_journal.go:137-158 | an accepted edit of a row that is not fixed skips it if and only if the row is tied to a record and the new category is a vendor payment |
| LedgerTheorems.SkippingEditParts | internal/models/finance_journal.go:151-158 | such an edit leaves the row without any entry while the owner's balance goes on counting it |
| LedgerTheorems.SkippingEditIsAccepted | internal/handlers/wallet.go:249-296 | the guards and the validation let such an edit through for any open row tied to a record |
| LedgerTheorems.BalanceEquation | internal/handlers/wallet.go:24-43 | balance = total_in - total_out + the user's transfers to themselves, for every cash table |
| LedgerTheorems.SumOfBalancesExactly | internal/handlers/wallet.go:34-42 | the exact sum of all users' balances: how often each row's amount counts in it |
| LedgerTheorems.BalancesConserved | internal/handlers/wallet.go:34-42 | when transfers go to somebody else and other rows name no recipient, balances add up to income minus expense |
| LedgerTheorems.SaveMovesBalance | internal/handlers/wallet.go:34-42 | saving a row moves a user's balance by what the new row counts less what the old one counted |
| LedgerTheorems.UpdateMovesBalance | internal/handlers/wallet.go:305-312 | an accepted edit takes out of everybody's balance what the row counted and puts in the form's amount, signed by its type text and recipient |
| LedgerTheorems.StoreMovesBalance | internal/handlers/wallet.go:200-217 | an accepted new transaction moves everybody's balance by the form's amount, signed likewise |
| RateLimit.Limiter.Hit | internal/ratelimit/limiter.go:26-41 | only this key's counter changes, by one hit; the answer is whether it is within max; the wait is the time to reset |
| RateLimit.KeysDoNotInterfere | internal/ratelimit/limiter.go:30-40 | over any trace the answers for a key are those of a one-key limiter fed only that key's hits |
| RateLimit.SlackStep | internal/ratelimit/limiter.go:31-39 | one hit keeps the accounting of admissions owed inside and outside an interval |
| RateLimit.SlidingBound | internal/ratelimit/limiter.go:31-39 | any closed interval as long as the window admits at most 2*max-1 hits of a key, for any nondecreasing clock |
| RateLimit.SlidingBoundIsTight | internal/ratelimit/limiter.go:31-39 | for every max and window a trace reaches 2*max-1 |
| RateLimit.CountIsWindowHits | internal/ratelimit/limiter.go:31-36 | a counter counts exactly the hits of its window, whose reset time is never in the past nor more than a window ahead of the last hit |
| RateLimit.BlockedHitKeepsReset | internal/ratelimit/limiter.go:32-39 | with a quota of at least one a blocked hit leaves the reset time as it was; with no quota the first hit is blocked and still sets one |
| RateLimit.WindowQuota | internal/ratelimit/limiter.go:31-39 | each window admits exactly min(max, hits in it) |
| Throttle.BucketsAreApart | internal/router/throttle.go:33-49 | two buckets share a key if and only if they are the same bucket: families and clients never collide |
| Throttle.ApiThrottle | internal/router/throttle.go:31-39 | charges the IP's API bucket once; passes if that admits, else answers the rounded wait |
| Throttle.LoginThrottle | internal/router/throttle.go:42-55 | charges the login bucket of the IP, and that of the email only if the first admitted; passes when both do; the wait is that of the refusing bucket |
| Throttle.LoginRoute | internal/router/router.go:26-29 | a login is charged to its IP's API bucket first and reaches the login throttle only when admitted there |
| Throttle.RetryIsHonest | internal/router/throttle.go:19-26 | Retry-After lies in 1..60 and a hit strictly later is admitted |
| Throttle.RetryOnTheDot | internal/router/throttle.go:19-26 | returning exactly at the announced second fails if and only if whole seconds were left |
| Throttle.UninterruptedIsChain | internal/router/router.go:26-29 | a request whose hits are not interrupted does in a run exactly what the chain of its middlewares does |
| Throttle.PassedWasAdmitted | internal/router/throttle.go:31-55 | a request got past a bucket only by a hit of its own that the bucket admitted |
| Throttle.ChargedInOrder | internal/router/throttle.go:42-55 | a login is charged to a bucket only after every bucket before it on its route admitted it: API, then IP, then email |
| Throttle.LoginIsChargedInOrder | internal/router/router.go:26-29 | a login hits its IP's login bucket only after its API bucket admitted it, and its email's only after both; it hits no other bucket |
| Throttle.LoginNeedsAllThree | internal/router/router.go:26-29 | a login that got through was admitted by all three |
| Throttle.TurnMovesBucket | internal/router/throttle.go:31-55 | a turn moves the bucket it hits by exactly one hit and leaves every other bucket alone |
| Throttle.BucketFollowsItsHits | internal/ratelimit/limiter.go:30-40 | in every state of every interleaving a bucket's counter is that of a limiter fed its own hits alone |
| Throttle.ThrottleBounds | internal/router/router.go:26-29 | over any run, however the hits of requests interleave, in any minute at most 239 requests of an IP to the API, logins included, 9 logins of an IP and 39 logins for an email get through, counted when they hit that bucket |
| Throttle.ThroughChargedAll | internal/router/router.go:26-29 | no request gets through uncounted: it hit every bucket of its route |
| Throttle.AdmittedExactly | internal/router/throttle.go:31-55 | in any run a hit is admitted if and only if it is among the first 120 (API), 5 (login IP) or 20 (login email) of its minute's window |
| Throttle.ApiQuotaIsReached | internal/router/throttle.go:33-33 | of requests of one IP at one instant the 120th is admitted and the 121st refused |
| Throttle.IpQuotaIsReached | internal/router/throttle.go:44-44 | of logins from one IP with any emails the 5th is admitted there and the 6th refused |
| Throttle.EmailQuotaIsReached | internal/router/throttle.go:49-49 | of logins for one email from different IPs the 20th is admitted there and the 21st refused |
| Throttle.RefusalIsHonest | internal/router/throttle.go:19-55 | in any reachable limiter the bucket just hit promises 1..60 seconds, and the next hit on it by anybody, if strictly later than that, is admitted |
| Throttle.RetryOnTheDotInRuns | internal/router/throttle.go:19-26 | after a refusal in any run, the next hit on that bucket at exactly the announced second is refused again if and only if a whole number of seconds was left |
| Throttle.RetryOnTheDotIsReached | internal/ratelimit/limiter.go:32-39 | a run reaches it: 121 requests at one instant, the last told 60 seconds, and a request exactly 60 seconds later refused |
| GoText.FormatUintDigits | internal/handlers/helpers.go:85-85 | a printed id is a non-empty run of digits with the id's value |
| GoText.ParseFormatUint | internal/handlers/helpers.go:92-98 | every 64-bit id survives print and parse |
| GoText.ParseUintExactly | internal/handlers/helpers.go:92-98 | exactly the printed 64-bit numbers, leading zeros allowed, parse, and to that number |
| GoText.TrimParts | internal/handlers/pilgrim.go:92-92 | trimming takes off two runs from the cut set and leaves clean ends |
| GoText.SplitInTwo | internal/handlers/pilgrim.go:24-28 | two parts mean exactly one separator, between them |
| GoText.TrimCore | internal/handlers/pilgrim.go:92-92 | trimming removes exactly the cut-set padding around a clean core |
| GoText.SplitFirst | internal/handlers/pilgrim.go:24-24 | splitting cuts at the first separator |
| Base64.RoundTrip | internal/handlers/pilgrim.go:19-23 | decoding the standard base64 encoding of any bytes gives the bytes back |
| Base64.DecodeExactly | internal/handlers/pilgrim.go:19-23 | exactly whole quanta of the alphabet with padding at the end decode, and to the bytes whose encoding they are up to unchecked low bits |
| Base64.LineBreaksDoNotCount | internal/handlers/pilgrim.go:19-19 | a carriage return or line feed anywhere in a code makes no difference |
| Base64.TaggedEncodesPlain | internal/handlers/pilgrim.go:88-93 | the encoding of digits and ':' has only letters, digits and padding: no '/', '+', '-' or space |
| LuggageTag.NormalizeFindsCode | internal/handlers/pilgrim.go:88-93 | from any URL ending in the marker, or none, with slashes and spaces around it, the code comes out whole |
| LuggageTag.NormalizeParts | internal/handlers/pilgrim.go:88-93 | for any text, the code is what stands behind the last marker, if any, with exactly the slashes and spaces around it taken off |
| LuggageTag.ParseTagExactly | internal/handlers/pilgrim.go:16-34 | a pair is found if and only if the code decodes to two decimal 64-bit ids with one colon in between |
| LuggageTag.TagRoundTrip | internal/handlers/pilgrim.go:16-34 | every pair of 64-bit ids is read back from its printed code in any such scanned text |
| Tokens.RandomToken | internal/support/support.go:35-42 | each random byte is replaced in place by the letter or digit it selects |
| Tokens.SecretIsAlphanumeric | internal/support/support.go:15-42 | a secret is 40 letters and digits, hence has neither the separator nor white space |
| Tokens.SecretSpelled | internal/support/support.go:15-42 | each of the 40 characters is the letter or digit its random byte selects modulo 62 |
| Tokens.Sanctum.CreateToken | internal/auth/create_token.go:14-29 | inserts one row of the user with a fresh id and the secret's hash; returns id, bar and secret |
| Tokens.Sanctum.Authenticate | internal/auth/token.go:35-80 | succeeds exactly when the header resolves, returns that token and user, and touches only its last use |
| Tokens.Sanctum.LogOut | internal/handlers/auth.go:66-72 | removes exactly the token row that authenticated the request |
| Tokens.ResolveExactly | internal/auth/token.go:35-88 | a header is let in as user u with token id if and only if it is the scheme, white space, decimal text of id, a bar and a secret whose hash is the one stored in row id, a user token of existing u that has not expired |
| Tokens.OnlyItsSecretOpens | internal/auth/token.go:58-63 | over any run, with an injective hash, only a header carrying an issued token's own secret is let in with its id, and as the user it was issued to |
| Tokens.TokensFollowUsers | internal/auth/token.go:69-72 | when a user is removed exactly the headers that resolved to that user are refused |
| Tokens.BearerFindsToken | internal/auth/token.go:82-88 | the scheme in any letter case and white space around the token do not matter |
| Tokens.IssuedResolves | internal/auth/token.go:35-73 | a header with an issued token resolves to its own row and user if both exist and is refused otherwise |
| Tokens.RowPersists | internal/auth/create_token.go:16-27 | from its issue on a row keeps owner and hash until it goes, and its id is never reused |
| Tokens.IssuedTokenIsOwners | internal/auth/token.go:35-80 | over any run of logins, requests, logouts and user changes, an issued token is its owner's while row and user exist |
| Tokens.RefusedAfterLogout | internal/handlers/auth.go:66-72 | after a logout with its own header a token is refused in every later state |
| Channels.LastDot | internal/handlers/broadcast.go:59-60 | in a type, a dot and digits the last dot is that one, even when the type contains dots |
| Channels.ChannelRoundTrip | internal/handlers/broadcast.go:29-79 | the published channel of any type and 64-bit id parses to the same type and id |
| Channels.AuthorizedExactly | internal/handlers/broadcast.go:26-72 | a subscription is granted if and only if the name, its prefix taken off, is the caller's own user channel or that of a parent the caller may view |
| Channels.SubscribersOfParent | internal/handlers/broadcast.go:48-72 | the view check runs on the very parent published, and distinct parents have distinct channels |
| Channels.TaskChannelIsTaskVisibility | internal/auth/policies.go:164-184 | for callers without an empty role name a subscription to the channel published for a task is granted exactly to the super admin, or when the task exists and the caller is privileged or permitted with the task in their own list; unknown parent types are open to the super admin alone |
| Channels.TaskChannelIsTaskPolicy | internal/handlers/broadcast.go:57-79 | for every caller it is granted exactly to the super admin, or when the task exists and the view policy admits |
| Rooming.Merge | internal/handlers/rooming.go:100-137 | the three loops compute the specified order filtered by the specified map |
| Rooming.Room.RoomingUpdate | internal/handlers/rooming.go:79-145 | bad entries are reported and nothing is saved; otherwise the merged list is saved and the sibling keys survive |
| Rooming.MergeIsOverride | internal/handlers/rooming.go:100-137 | as a map the saved list is the stored one, last value winning, with the request folded in and blanks deleting |
| Rooming.SavedExactly | internal/handlers/rooming.go:100-137 | a pair is saved if and only if it is the last word on its id: the trimmed text of the last request entry that names it, blank meaning none, else the last stored number |
| Rooming.CopiesAgree | internal/handlers/rooming.go:128-136 | every copy of a repeated id carries its final value |
| Rooming.SavedCopies | internal/handlers/rooming.go:112-136 | an id with a final value is saved once plus once per time it was cleared on the way; others not at all |
| Rooming.SavedDistinctExactly | internal/handlers/rooming.go:112-136 | saved ids are distinct if and only if no id with a final value was cleared while it had one |
| Rooming.ClearedAndRenamedIsSavedTwice | internal/handlers/rooming.go:112-126 | one request that clears and then renames a hotel's number saves the pair twice |
| Rooming.DistinctRequestOrder | internal/handlers/rooming.go:100-136 | with distinct request ids the saved ids are distinct, survivors keep stored order and new ids follow in request order |
| Rooming.SavedInOrder | internal/handlers/rooming.go:100-136 | with distinct request ids the saved ids stand in the order of their first stored pairs, then of the request entries |
| Rooming.MergeAgain | internal/handlers/rooming.go:100-137 | with distinct request ids sending the request again changes nothing |
| Rooming.MergeAgainExactly | internal/handlers/rooming.go:100-137 | for every stored list, the saved ids are distinct and sending the request again changes nothing if and only if the request never clears an id to which it gives a value in the end |
| Rooming.SecondTimeDiffers | internal/handlers/rooming.go:112-136 | clearing and then naming a hotel on an empty list saves one copy the first time and two the second |
| Rooming.HotelRoomMap | internal/handlers/pilgrim.go:221-234 | the reader loops compute the specified map |
| Rooming.ReaderSeesOverride | internal/handlers/pilgrim.go:229-233 | for a saved room the reader sees exactly the non-empty part of the folded map, over earlier rooms |
| Incidents.Tracker.RecordStatusChange | internal/handlers/incident.go:274-285 | appends exactly one transition entry with a fresh id |
| Incidents.Tracker.IncidentStore | internal/handlers/incident.go:97-159 | reply and effect of a report: a new open incident with its reporter and time of occurrence (now when none was given), no log entry |
| Incidents.Tracker.IncidentUpdate | internal/handlers/incident.go:186-270 | reply and effect of an update; a status entry is logged exactly when an administrator's valid status differs |
| Incidents.Tracker.IncidentProgressStore | internal/handlers/incident_progress.go:41-115 | reply and effect of a progress post: a transition, a bare note, or a refusal when there is neither |
| Incidents.Tracker.IncidentProgressDestroy | internal/handlers/incident_progress.go:119-142 | only an administrator removes an entry, and only of its own incident |
| Incidents.Tracker.IncidentDestroy | internal/handlers/incident.go:288-300 | only an administrator removes the incident row |
| Incidents.RefusalsExactly | internal/handlers/incident_progress.go:41-91 | which refusal answers: unknown incident or entry, then the policy |
| Incidents.RefusedFields | internal/handlers/incident.go:106-125 | which fields a refused report, update or progress post names |
| Incidents.StatusMovesExactly | internal/handlers/incident_progress.go:55-80 | an incident's status moves if and only if an allowed administrator asks, in a valid update or with progress, for another of the four statuses |
| Incidents.LogGrowsExactly | internal/handlers/incident_progress.go:80-107 | a request logs its move with caller, time, both statuses and trimmed note, else the bare note of allowed progress, else nothing |
| Incidents.StatusMoveIsLogged | internal/handlers/incident.go:253-285 | over any run a status differs between two boards only by such a request, which leaves exactly its log entry |
| Incidents.TransitionsAreAdministrators | internal/handlers/incident.go:253-285 | every transition in the history beyond the start was made by such a request of the run |
| Incidents.EntryGoesExactly | internal/handlers/incident_progress.go:119-142 | a log entry goes if and only if an administrator deletes it as an entry of its own incident |
| Incidents.IncidentsComeAndGo | internal/handlers/incident.go:97-159 | incidents appear exactly by valid allowed reports, open, signed and dated, and go exactly by administrators |
| Incidents.ColumnsMoveExactly | internal/handlers/incident.go:200-247 | which columns an update writes; assignment and resolution notes only for administrators; the reporter never moves |
| Incidents.RequestKeepsChain | internal/handlers/incident.go:253-285 | one request keeps the history of an incident a chain of valid transitions ending in its status |
| Incidents.HistoryReplays | internal/handlers/incident_progress.go:80-107 | over any run, log deletions included, each incident's full history leads from its origin (open for reported ones) to its present status, each from equal to the previous to and different from its own to |
| Incidents.LogIsPartOfHistory | internal/handlers/incident_progress.go:119-142 | the stored log is the full history less exactly the deleted entries, in order |
| Incidents.LogReplaysToStatus | internal/handlers/incident.go:253-285 | without deletions the stored log itself is that chain |
| Incidents.ListingReversedIsLog | internal/handlers/incident.go:181-183 | with a clock that never ran backwards, any listing sorted newest first is the log read backwards |
| Incidents.ListingTellsTheStory | internal/handlers/incident_progress.go:28-32 | the listing read from its end is the chain from origin to present status |
| Tasks.TaskBoard.AuthorizeChecklistItem | internal/handlers/task.go:250-271 | which error answers, and success exactly for a visible task and an item of its own |
| Tasks.TaskBoard.TaskCheckItem | internal/handlers/task.go:175-222 | reply and effect of checking an item, photo rules included |
| Tasks.TaskBoard.TaskUncheckItem | internal/handlers/task.go:225-245 | reply and effect of unchecking an item |
| Tasks.TaskBoard.TaskComplete | internal/handlers/task.go:111-172 | reply and effect of completing a task |
| Tasks.RefusalsExactly | internal/handlers/task.go:111-205 | which refusal answers each request, in order |
| Tasks.TaskMovesExactly | internal/handlers/task.go:121-165 | a task row moves if and only if a visible task whose time has come and whose items are all done is completed: who, when first, last photo and note |
| Tasks.ItemMovesExactly | internal/handlers/task.go:183-242 | an item moves if and only if it is named under its own visible task with the photo it needs; a check signs and dates it, an uncheck clears it |
| Tasks.LastTouchTells | internal/handlers/task.go:213-242 | over any run a done item shows who last checked it, when and with which photo, an unchecked one nobody |
| Tasks.ItemsStayWellFormed | internal/handlers/task.go:213-242 | over any run an item is done exactly when it has a done time and a checker, and a done item that needs a photo has one |
| Tasks.CompletionIsFinal | internal/handlers/task.go:148-165 | a completion time once set never changes and a completed task stays completed |
| Tasks.CompletionHasAMoment | internal/handlers/task.go:121-165 | a task that became completed did so at a request when all its items were done and its time had come, and that moment is its completion time unless it had one |
| Tasks.OpensExactlyByUncheck | internal/handlers/task.go:225-245 | a request leaves a completed task whose items are all done with an open item if and only if it is an accepted uncheck for that task; the task row and the other items stay as they were |
| Tasks.LastTouchDecides | internal/handlers/task.go:213-242 | over any run an item is done or open as its last accepted check or uncheck left it, and stays with its task |
| Tasks.OpenItemUnderCompletedTask | internal/handlers/task.go:279-285 | over any run a task completed with all items done stays completed, and has an open item if and only if some item of it was last unchecked since |
| Tasks.CompletedInRunHasOpenItemExactly | internal/handlers/task.go:121-165 | the same for every task completed during a run, counted from the request that completed it |
| Tasks.OpenItemIsReached | internal/handlers/task.go:237-242 | check, complete, uncheck lead from a well-formed start to a completed task with an open item |
| TaskVisibility.RolesExcept | internal/handlers/task.go:46-54 | the roles without one of them, in order |
| TaskVisibility.ScopeMeans | internal/handlers/task.go:19-43 | the SQL scope read out: own tasks, tasks of a role one has, mutawif tasks of one's group left to the role |
| TaskVisibility.ScopeIsPolicyPlusEmptyRole | internal/handlers/task.go:19-43 | for every database and task the SQL scope under three-valued logic is the policy plus tasks with an empty role name the caller has |
| TaskVisibility.FormsAgreeExactly | internal/auth/policies.go:136-160 | scope and policy agree on all databases and tasks if and only if the caller has no empty role name |
| TaskVisibility.ViewIsPermissionAndScope | internal/auth/policies.go:126-134 | the view policy is privilege, or the permission together with the list's own scope |
| Schedule.Schedule | internal/handlers/schedule.go:35-77 | the response is the stable sort of arrivals, departures, check-ins and check-outs in that order |
| Schedule.HotelClocks | internal/handlers/schedule.go:169-176 | a check-in reads its date at T15:00:00 and a check-out its own at T12:00:00, undated ones nothing |
| Schedule.LayoutIs | internal/handlers/schedule.go:114-117 | the date-time text character by character |
| Schedule.TextOrderIsTimeOrder | internal/handlers/schedule.go:114-117 | for years 0000 to 9999 comparing the texts is comparing wall-clock instants |
| Schedule.ScheduleIsChronologicalAndStable | internal/handlers/schedule.go:41-84 | for all flights and stays with four-digit years the response is a permutation of their items in chronological order, undated first, ties kept as arrivals, departures, check-ins, check-outs in list order |
| Schedule.StableResultIsUnique | internal/handlers/schedule.go:77-77 | chronological order with ties in list order leaves one possible response, so any stable sort gives this one |
| Paging.PagesPartition | internal/handlers/notification.go:20-52 | for rows in one order, pages 1 to last_page concatenate to the whole list, all but the last are full, pages beyond are empty while the offset fits in 64 bits, last_page is at least 1 |
| Paging.PartitionExactly | internal/handlers/notification.go:32-36 | each page being its own query by created_at, reading all pages shows each row once for every order the database may choose if and only if no two rows of one instant stand on either side of a page boundary |
| Paging.TieIsServedTwice | internal/handlers/notification.go:32-36 | for every such tie there are admissible orders under which one of the two rows is served twice |
| Paging.DistinctTimesServeTheList | internal/handlers/notification.go:32-36 | with distinct creation times the pages are the list itself, newest first |
| Paging.IdealExactlyWhenFitting | internal/handlers/notification.go:20-36 | a page number is served correctly for every list if and only if (page-1)*15 does not overflow 64 bits |
| Paging.OverflowServesFirstPage | internal/handlers/notification.go:20-36 | page 1229782938247303442 shows the first page again |

## Left out

- Routing, CORS, cookies, multipart and JSON plumbing, response labels: no deep property.
- Object storage, the PDF service, the broadcaster's trigger, bcrypt, HMAC, random sources: foreign code; uploads enter as their outcome, secrets as given bytes.
- GORM and MariaDB internals: collations, preloads, partial I/O errors, and a negative OFFSET being dropped is taken as GORM's rule.
- Reading the email out of a login body (`peekEmail`): the address enters as given.
- Duplicate account codes: the chart maps a code to one account, while the query takes any row with the code.
- Float rounding and the float and date text parsers: the parsed values come with the form.
- Time zones and calendar arithmetic: instants are seconds, rates are keyed by whole days, schedule fields are given.
- Interleaving of the database calls of one request: the code takes no lock there.
- `resolved_at` and the updated_at columns of incidents, and storage deletion of replaced task photos: they carry no rule.
- `FlexInt` and the JSON text of room meta: stored numbers enter decoded.
- The view policy of incidents, as parents of a channel: an arbitrary function of the caller and the incident id.
- `LuggageTag` beyond the decoded pair, and hotel handlers, contacts and colours: lookups without further rules.
- Integer overflow of the limiter's count: it would need 2^63 hits in one window.
- Marking and deleting notifications, transactions, recipients and category lists, overview counts, group, message, profile and baggage handlers: only easy members.
