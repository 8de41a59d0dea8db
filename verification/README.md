# Verification of the sector extension service

This project models the service that extends the expirations of a storage miner's sectors and proves what its planner and its request ledger promise. It has four parts, which meet in one end-to-end method.

1. **Planning** (`Targets`, `PledgeBudget`, `Buckets`, `Selection`, `Declarations`, `Packing`, `PackingLaws`, `PackLoop`, `Bitfields`, `Planner`, `PlanLaws`, `LifetimeCap`). The miner's active sectors are filtered by a window, sorted by pledge, charged to a budget, given a clamped target expiration, bucketed per partition with a tolerance, and packed into messages. Go decides three things by chance or by library choice: how the sort breaks ties, which of several qualifying buckets a map iteration meets first, and in which order two nested maps yield the buckets. Each is left open in the model, and the theorems hold for every way it can turn out.
2. **The range printer** (`Words`, `Text`, `RangePrinter`). The sectors of a declaration are stored as text such as "1,3-5,8-9". The model includes a reader for that format and works on real decimal strings and 64-bit arithmetic.
3. **Publishing and the ledger** (`Publisher`, `Ledger`, `LedgerLaws`, `Outcomes`, `LedgerRuns`, `LiveRecords`, `StaleWrites`, `Service`). Planned messages are pushed and recorded; handlers then carry a request to its verdict. `Ledger` gives each handler as a step on two tables and on the requests the checker has loaded, whose check may come at any later time. `Service` runs the handlers on mutable records and tables and is proved to perform those steps. `Outcomes` says what each step does, in the words of its event. `LedgerLaws` and `LedgerRuns` prove what holds in every reachable state and over every run; `LiveRecords` carries the planner's promises into every later state: what the live messages of a request store stays sound and complete, whatever is replaced. `StaleWrites` says what an update or a processing pass does that starts from an old copy of the row, and when that is the ledger's step.
4. **Goroutines in flight** (`InFlight`). The guarded loops and the speed-up semaphore as interleavings of atomic actions.

`Publisher.Extend` joins planning, printing and publishing: every stored extension, read back from its own text, names only sectors that were active in the window, under their own deadline and partition, with a sound new expiration. `Service.Service.ProcessCreated` feeds its reply to the ledger, so the counter chain `succeeded <= published <= total` starts from the planner.

Findings stated as lemmas:

- A negative tolerance, which request creation lets through, makes two sectors of one partition with equal targets overwrite each other. `Buckets.NothingIsOverwrittenIff` gives the exact condition under which no sector is lost and `Buckets.NegativeToleranceLosesSector` a smallest case.
- A request whose extension equals its tolerance is accepted although it can extend nothing (`Targets.AcceptedIsUsefulIff` says exactly which accepted requests can extend something).
- The lifetime cap of a single sector can be exceeded, by at most the tolerance, because it is applied before the bucket is chosen. `LifetimeCap.LifetimeCapIsExceeded` is an input that does it. `LifetimeCap.SentAboveCapIff` gives the exact condition: some run sends a sector above its cap if and only if, when it is visited, a bucket above the cap and within the tolerance of its target is open. That depends on the visiting order alone. `LifetimeCap.CapIsKeptByEveryRunIff` states it for a whole plan. The cap counted from the current epoch is never exceeded, and without a positive tolerance neither is the lifetime cap.
- Sectors held back by their claims are still declared in the bitfield of their message. The sector limit bounds the extendable sectors of a message but not its bitfields: `PackingLaws.BitfieldExceedsLimit` declares two sectors under a limit of one. The two counts agree if and only if no sector of the message is held back (`PackingLaws.LoadIsSizeIff`). Some order of the buckets makes a message exceed the limit if and only if some buckets fit one message by load and by number but not by size, and the buckets hold anything extendable or are too many for one message (`Bitfields.SomeOrderExceedsIff`). Map iterations meet partitions one after the other, so for them the condition is necessary, and sufficient where all buckets are of one partition (`Bitfields.SomeIterationExceedsIff`).
- A message can be sent in which nothing is extended, although one that comes last is held back for that reason: exactly when a full chunk holds only sectors held back, or the shared message is full of declarations that extend nothing when another bucket comes (`Bitfields.IdleMessageIsSentIff`, failing input `Bitfields.IdleMessageIsSent`).
- The pledge budget is charged before the sector is found not worth extending. The sectors charged are as many as the cap allows, but those scheduled need not be: `PledgeBudget.ChargedAndSkippedTakesRoom` is a failing input, `PledgeBudget.ScheduledIsMostIff` and `PlanLaws.PlanSchedulesMostIff` the exact condition.
- A check, an update and a processing pass save whole rows that may have been loaded long before.
  - A late check can only bring back an older base fee limit (`LedgerRuns.StaleCheckRevertsOnlyLimit`).
  - A late update changes only the limit if and only if the status is still the one loaded (`StaleWrites.LateUpdateIsHarmlessIff`). If it reopens a finished request, the next check gives the request its row back if and only if it was loaded as pending (`StaleWrites.ReopenedRequestHealsIff`). One loaded as created is set back to created: no check looks at it, and processing publishes everything a second time (`StaleWrites.ReopenedAsCreatedStays`, `StaleWrites.ReopenedIsPublishedAgain`).
  - A late processing pass, dry run or not, is the processor's step whatever it publishes if and only if the request is still created and its present base fee limit does not make it wait (`StaleWrites.LateProcessingIsTheStepIff`). Otherwise it may publish twice, or undo a failure although nothing had been published (`StaleWrites.LatePassUndoesFailure`). The sectors of the live messages still add up to the published count if and only if nothing was published meanwhile (`StaleWrites.LateProcessingPublishesOnceIff`). `StaleWrites.LateWritesCanFail` is a smallest case.

What the model takes from its surroundings: active sector numbers are distinct, pledges are not negative, the network limits are at least one, error texts are not empty, the chain gives one receipt per message, the chain message behind a cid keeps its nonce, and a nonce on chain is no longer pending. Epochs are mathematical integers; sector numbers are 64-bit.

## Model

| member | source | states |
|---|---|---|
| Sorting.SortSlice | service.go:429-431 | The contract of the library sort: ascending keys, same elements, ties in any order |
| Targets.TargetIsLatestAllowed | service.go:485-503 | The target is the latest epoch allowed by the request (absolute before relative) and by both caps; a sector is extended exactly when what is asked for and both caps lie beyond its expiration by more than the tolerance |
| Targets.AcceptedIsUsefulIff | service.go:298-321 | An accepted request can extend some sector if and only if it asks for an absolute expiration or for a positive extension different from its tolerance |
| Targets.AdmittedTerms | service.go:298-324 | A request is admitted with an extension not below its tolerance (20160 unless given) or with an absolute expiration alone, and an absolute expiration clears the tolerance |
| PledgeBudget.ChargedIsPrefix | service.go:473-482 | The charged sectors are a prefix of the ascending order; every later one is refused |
| PledgeBudget.BudgetIsKept | service.go:476-482 | A positive cap is never exceeded, zero is no cap, a negative cap refuses everybody |
| PledgeBudget.GreedyIsOptimal | service.go:473-482 | No choice of candidates within the cap has more sectors than the greedy one |
| PledgeBudget.ScheduledIsMostIff | service.go:473-503 | The sectors both charged and worth extending are as many as the cap allows, if and only if no later one worth extending fits beside them |
| PledgeBudget.ChargedAndSkippedTakesRoom | service.go:482-503 | Cap 10, pledges 5 (not worth extending) and 6 (worth it): nothing is scheduled though the second alone would fit |
| Buckets.BucketContents | service.go:509-529 | A bucket holds exactly the sectors sent to its key, in order; under a negative tolerance only the last of them |
| Buckets.BucketsAreDisjoint | service.go:509-529 | No bucket repeats a sector and no sector is in two buckets |
| Buckets.NothingIsOverwrittenIff | service.go:517-528 | No scheduled sector is lost if and only if the tolerance is not negative or no partition holds two equal targets |
| Buckets.NegativeToleranceLosesSector | service.go:527 | With tolerance -1, which creation accepts, and two equal targets the first sector is lost |
| Buckets.KeysAreDetermined | service.go:516-528 | The keys of a partition are a function of the order its sectors were visited in, whichever qualifying key the map iteration met |
| Buckets.PicksAreNear | service.go:517-528 | Every sector ends under a key within the tolerance of its target |
| Buckets.AtMostTwoKeysNear | service.go:516-524 | At most two keys qualify for a target, at most one at zero tolerance |
| Buckets.BucketingIsTwoApproximate | service.go:509-530 | At most twice as many keys as any set of expirations serving the same targets; none fewer at zero tolerance |
| Buckets.PartitionBuckets | service.go:509-530 | Per partition: same buckets for every iteration, pairwise more than the tolerance apart, at most twice the optimum |
| Buckets.TwoIsTight | service.go:509-530 | The factor of two is reached for every size |
| Selection.AimAt | service.go:485-500 | The two clamps compute the target |
| Selection.AddToBuckets | service.go:509-529 | One sector joins a qualifying bucket or opens its own; the pick is one some map iteration makes |
| Selection.Schedule | service.go:473-530 | The selection loop: the buckets are those of a legal run over everything charged and worth extending; it fails only on a charged sector without location |
| Declarations.StandingMeans | service.go:711-747 | A claim-carrying sector is kept exactly when all its claims are known and end strictly after the new expiration, with its full claim list; otherwise the first claim that does not is known and blocks it, or unknown and stops everything |
| Declarations.BuildSplitsInput | service.go:707-762 | Unclaimed, kept, blocked and bare sectors are disjoint and cover the list; all are declared; the count is that of the extendable ones |
| Declarations.KeptClaims | service.go:740-746 | The claim entries collected from a list are exactly those of its kept sectors: full claim list maintained, nothing dropped |
| Declarations.BuildDeclares | service.go:753-761 | What is built for a list is one declaration at its place and epoch of all its sectors, with one claim entry for each kept sector and no other |
| Declarations.ScanClaims | service.go:715-739 | The claim loop of one sector finds its standing |
| Declarations.BuildParams | service.go:707-762 | The loops of buildParams build the declaration, the blocked list and the count, or fail on the first unknown claim |
| Packing.ChunksAreFull | service.go:564-577 | Each chunk is one declaration of exactly the sector limit; 1 to that many sectors remain |
| Packing.ChunksConcatenate | service.go:564-577 | The chunks declare consecutive pieces of the list; the pieces followed by the remainder are the list |
| Packing.ChunkCountIs | service.go:564-577 | A bucket of n sectors makes exactly (n - 1) / limit full chunks |
| Packing.BucketShape | service.go:561-593 | A bucket becomes its chunks plus one declaration of the remainder for the shared message |
| Packing.PackingFailsIff | service.go:567-582 | Packing fails exactly when some bucketed sector meets an unknown claim, for every order |
| Packing.PackingErrorIsMet | service.go:567-582 | The claim an error names is unknown and met by some bucketed sector at its bucket's key |
| Packing.BlockedAreReported | service.go:571-585 | The sectors reported as not extendable are exactly those blocked at their bucket's key |
| PackingLaws.PackingConserves | service.go:560-595 | Every measure additive over a cut of a list is conserved by packing, for every order |
| PackingLaws.SectorsAreConserved | service.go:560-595 | Each sector is declared at its partition and key exactly as often as buckets held it there |
| PackingLaws.NoExtendableSectorIsLost | service.go:560-600 | The messages sent declare every extendable sector as often as buckets held it, whatever the order |
| PackingLaws.MessagesKeepLimits | service.go:578-600 | Every message has 1 to declMax declarations, none empty, and at most the limit of extendable sectors; only a last message with nothing extendable is held back |
| PackingLaws.LoadIsConserved | service.go:560-600 | The extendable sectors of the messages sent add up to those of the buckets |
| PackingLaws.PackedClaimsOk | service.go:560-595 | Packing leaves every declaration the claim entries of its kept sectors |
| PackingLaws.UnsentIsReported | service.go:571-600 | Every sector of the message held back is reported as not extendable, unless its claim record is an empty list |
| PackingLaws.LoadIsSizeIff | service.go:749-759 | A message's bitfields hold at least its extendable load, and exactly that if and only if no sector in it is held back |
| PackingLaws.BitfieldExceedsLimit | service.go:749-759 | With one sector to a message, a blocked and an unclaimed sector end up in one message of two |
| PackingLaws.MessageCountBound | service.go:578-600 | At most one message per chunk, 2 load/(limit+1) + declarations/declMax flushes, and one more |
| PackingLaws.FlushesWithinThreeTimesAnyPacking | service.go:586-592 | Any other packing within the limits that sends at least the same load in at least as many declarations in m messages means at most 3m flushes |
| PackingLaws.SumOverAnyOrder | service.go:560-561 | The terms of the bound and the declared multiplicities are the same for every iteration order |
| PackLoop.PackBucket | service.go:564-593 | The chunk loop and the remainder branch perform one bucket's packing |
| PackLoop.Pack | service.go:560-595 | The nested map iterations meet every bucket once, partition by partition, and pack them in the order met |
| Bitfields.IdleMessageIsSentIff | service.go:564-600 | A message that extends nothing is sent if and only if a full chunk holds only sectors held back, or the shared message is full of declarations that extend nothing when another bucket comes |
| Bitfields.IdleMessageIsSent | service.go:586-600 | With one declaration to a message a blocked sector is sent on its own |
| Bitfields.SomeOrderExceedsIff | service.go:578-600 | Some order of the buckets makes a message declare more sectors than the limit, if and only if some buckets fit one message by load and number but not by size and the shared message is bound to be sent |
| Bitfields.SomeIterationExceedsIff | service.go:560-600 | For the orders of two nested map iterations the condition is necessary, and for buckets of one partition also sufficient |
| Planner.SelectWindow | service.go:417-427 | The window filter yields exactly the active sectors expiring in the window, each once |
| Planner.PlanMessages | service.go:376-606 | The planning half of extend: a plan of some run, or one of four errors, each returned if and only if its cause holds for the run: nothing asked for, limit above the network's, a scheduled sector without location, a bucketed sector with an unknown claim; the last two name theirs |
| Planner.ItemIsSound | service.go:485-530 | Any scheduled sector and the key it was sent to satisfy the soundness bounds |
| Planner.PlanIsSound | service.go:417-600 | Every sector declared in any message was active in the window, sits under its own deadline and partition, and gets an expiration above its old one, within tolerance of its target, under the cap from now, and at most the tolerance above its lifetime cap |
| PlanLaws.CandidatesAreTheWindow | service.go:417-427 | The candidates are exactly the active sectors expiring in the window, and the total is their number |
| PlanLaws.DeservingIsScheduled | service.go:473-530 | Every charged candidate whose bounds all lie beyond its expiration by more than the tolerance is scheduled, at its own partition and target |
| PlanLaws.PlanIsComplete | service.go:473-600 | Each of them was put into one bucket of its partition, soundly; if its claims allow it, exactly one declaration of exactly one message extends it there, and nothing is declared for it elsewhere |
| PlanLaws.PlanKeepsLimits | service.go:397-403 | Every message extends at most as many sectors as the request asks for, if it sets a limit, never more than the network admits, in 1 to declMax declarations, none empty |
| PlanLaws.PlanMessageCount | service.go:397-403 | The bound on the number of messages, in the request's own limit |
| PlanLaws.PlanClaimsOk | service.go:740-758 | Every declaration of a plan carries one claim entry for each of its kept sectors, with the full claim list, and no other |
| PlanLaws.PlanDeclaresAtMostTotal | service.go:612-629 | The messages declare no more sectors than there were candidates |
| PlanLaws.LimitBoundsBitfields | service.go:749-759 | If no bucketed sector is blocked or bare at its key, every message's bitfields together keep the sector limit |
| PlanLaws.PlanCanExceedIff | service.go:560-600 | The same condition for the buckets of a plan |
| PlanLaws.PlanSendsIdleIff | service.go:560-600 | When a plan has a message that extends nothing |
| PlanLaws.DeclarationCountIsDetermined | service.go:516-528 | Whichever qualifying keys the map iterations stopped at: the same buckets by partition and key, as many of them, and as many declarations through the shared message |
| PlanLaws.ScheduledPledgeWithinCap | service.go:473-503 | The pledges of the sectors actually scheduled stay within a positive cap |
| PlanLaws.PlanSchedulesMostIff | service.go:473-503 | A plan schedules as many sectors as the cap allows, if and only if no one left out and worth extending fits beside those scheduled |
| LifetimeCap.SentAboveCapIff | service.go:497-528 | Some run sends a sector above its cap if and only if a bucket above the cap within tolerance of its target is open when it is visited |
| LifetimeCap.CapIsKeptByEveryRunIff | service.go:497-528 | In a plan: every run keeps every lifetime cap, if and only if no sector meets such a bucket |
| LifetimeCap.CapIsKeptWithoutTolerance | service.go:497-528 | With a tolerance of zero or less no declared sector exceeds its lifetime cap |
| LifetimeCap.LifetimeCapIsExceeded | service.go:497-519 | Two sectors, tolerance 10: the second is sent to 1000 though its lifetime cap is 995 |
| RangePrinter.SplitRecoversRunStart | service.go:1166 | The text before the first dash of a partial run is always its first number |
| RangePrinter.ParseUndoesRender | service.go:1149-1178 | Reading printed ranges gives the same ranges in order |
| RangePrinter.PrintRoundTrip | service.go:1149-1178 | Reading a printed set gives exactly the set, as canonical ranges and as few as possible |
| RangePrinter.PrintIsShortest | service.go:1149-1178 | No text that reads as the same ranges is shorter: no leading zeros, no run split up |
| RangePrinter.PrintedExample | service.go:1149 | "1,3-5,8-9" is the only print of 1, 3, 4, 5, 8 and 9 |
| RangePrinter.PrintsSameTextIffSameSet | service.go:1149-1178 | Two printed texts are equal if and only if they print the same set |
| RangePrinter.CanonicalIsShortest | service.go:1163-1171 | No list of ranges for the same numbers is shorter than the canonical one |
| RangePrinter.CanonicalIsUnique | service.go:1163-1171 | A set of numbers has only one canonical list of ranges |
| RangePrinter.ArrayToString | service.go:1149-1178 | For any array, duplicates and order included, the text is the canonical print of its set; the array is sorted in place |
| Publisher.PrintSectors | model.go:123-137 | The bitfield of a declaration is stored as the canonical print of its members |
| Publisher.NewExtension2FromParams | model.go:119-144 | Each declaration is recorded with its own deadline, partition, claims, expiration and printed sectors |
| Publisher.NewPseudoExtendParams | service.go:1126-1147 | A dry run reports each declaration with its own location, expiration and printed sectors |
| Publisher.Publish | service.go:612-675 | Refused messages are skipped and noted; accepted ones are recorded in order with nonce and sector count; the published count is their sum |
| Publisher.NoMoreThanAll | service.go:617-675 | The accepted messages declare no more sectors than all; accepted and refused together are all |
| Publisher.AnswersAreMatched | service.go:617-675 | The k-th message, if accepted, is the next of those taken, with its nonce; if refused, its text is the next of the refusals |
| Publisher.ReplyTellsRefusals | service.go:693-697 | There is no error exactly if every push was accepted; otherwise the error starts with the first refusal and contains every one |
| Publisher.ReplySeparatesRefusals | service.go:693-697 | A refusal and the next are separated by a semicolon and a line break |
| Publisher.RecordsAreSound | service.go:662-674 | Every stored extension, read back from its text, is sound, and carries exactly the claim entries of the kept sectors it names |
| Publisher.RecordsAreComplete | service.go:612-675 | If every push is accepted, every charged candidate whose bounds all lie beyond its expiration and whose claims allow it is named, in the stored text, by an extension of its own partition and bucket |
| Publisher.Extend | service.go:372-698 | extend end to end: the reply follows from a plan and the node's answers, its error is the refusal texts joined, its counts are consistent, its records are sound |
| LedgerLaws.LiveAccount | model.go:62-75 | What the loaded messages show is the account of the message table |
| Outcomes.CreateOutcome | service.go:337-354 | A new request comes last, as asked for, with nothing done |
| Outcomes.UpdateOutcome | api.go:131-147 | An update writes the new limit and nothing else a reader sees, if and only if the request exists and is not finished |
| Outcomes.ProcessNotDue | service.go:236-246 | Nothing happens unless the request is created and has no limit or a known base fee not above it |
| Outcomes.NothingSentOutcome | service.go:258-267 | A reply without messages ends the request: success, or failure if there was an error |
| Outcomes.SomethingSentOutcome | service.go:268-288 | Any other reply writes its counts; a dry run is finished, otherwise the request is pending with the messages of the reply, live and off chain |
| Outcomes.AllRefusedFails | service.go:258-267 | A request whose pushes are all refused ends as failed, with every refusal in its error and no message |
| Outcomes.AllAcceptedIsClean | service.go:256-258 | A request whose pushes are all accepted gets no error |
| Outcomes.LiveMeans | service.go:357-366 | The messages loaded are the live ones of the request in the order of their rows |
| Outcomes.LoadOutcome | model.go:62-75 | A reader sees the row with its succeeded count recomputed from the live messages, or the published count of a dry run |
| Outcomes.LandedMeans | model.go:67-71 | The succeeded count adds up the sectors of the messages on chain with exit code zero |
| Outcomes.QueryOutcome | service.go:199-215 | The checker's query loads exactly the pending requests |
| Outcomes.JudgeOutcome | service.go:844-870 | A check saves a verdict if and only if all loaded messages are on chain, and the loaded row with it |
| Outcomes.VerdictMeans | service.go:844-866 | Success, failure and part failure by the exit codes; the earlier error stays in front and every bad exit is in the text |
| Outcomes.ReceiveOutcome | service.go:916-925 | A receipt puts its exit code on a live message and changes nothing else |
| Outcomes.ReplacementOutcome | service.go:1024-1087 | If the message is live, the pool holds one of its sender and nonce and the push is accepted, the old row dies and one new row of the same request, nonce, sectors and extensions is appended; otherwise nothing changes |
| LedgerLaws.StepKeepsInvariant | service.go:228-1096 | Every handler step, the check of an old copy included, keeps the row invariants of all requests and the agreement of all loaded copies with the tables |
| LedgerLaws.RunKeepsInvariant | service.go:153-224 | Every run of steps keeps them |
| LedgerLaws.CounterChain | service.go:266-287 | In every reachable state succeeded <= published <= total; success means all succeeded, failed means none; the error is empty exactly on success |
| LedgerLaws.VerdictIsExact | service.go:824-866 | The checker finishes a request exactly when all live messages are on chain; failed exactly when all landed badly; success exactly when all landed well and no error preceded; earlier errors stay at the front of the text |
| LedgerLaws.ReceiveAccount | service.go:916-925 | A first receipt moves one message of its request from off chain to landed or bad, a repeated one moves nothing; count and sectors stay, other requests are untouched |
| LedgerLaws.ReplaceKeepsSums | service.go:1067-1087 | Replacing a message leaves every sum over a request's live messages as it was, for any measure blind to the exit code of an off-chain message |
| LedgerLaws.ReplaceKeepsAccounts | service.go:1067-1087 | Replacing a message leaves every request's account as it was |
| LedgerLaws.FoundIsFirstPending | service.go:1024-1030 | The pool search yields a message of that sender and nonce with none before it, nothing exactly if there is none |
| LedgerLaws.LandedMessagesStay | service.go:1032-1036 | Once all messages of a request are on chain, no step touches them |
| LedgerRuns.RunConservesLedger | service.go:1067-1095 | After processing, every run conserves the multiset of (nonce, sectors, extensions) of a request's live messages and its published sum |
| LedgerRuns.ProcessingCreatesEntries | service.go:282-287 | Processing gives a request exactly the messages of the reply and their sum as published |
| LedgerRuns.DryRunEndsAtOnce | service.go:270-281 | A dry run finishes with processing, leaves no message, and shows what it would publish as published and succeeded |
| LedgerRuns.StepMovesForward | service.go:256-288 | No step moves a request backwards, and a status change lowers its rank |
| LedgerRuns.FinishedStaysPut | service.go:844-870 | No step changes what a reader sees of a finished request, except that a late check may bring back an older base fee limit |
| LedgerRuns.ReceiptsLeadToVerdict | service.go:916-925 | A pending request has a live message; a first receipt lowers the off-chain count; at zero the next check finishes it |
| LedgerRuns.FinishedIsAbsorbing | model.go:77-79 | Over any run the rank never rises, and a finished request keeps its messages and its row up to the base fee limit |
| LedgerRuns.MovesAreBounded | service.go:844-870 | A processed request moves at most once per off-chain message and once to its verdict |
| LiveRecords.ProcessedMessages | service.go:282-287 | Processing a created request leaves it with exactly the messages of the reply |
| LiveRecords.RunKeepsCarried | service.go:1067-1087 | What the live messages of a processed request carry is the same after every run |
| LiveRecords.StoredRecordsAreSoundForever | service.go:662-1087 | In every state after processing, every extension of every live message of the request, read back from its text, is sound for the request's own window and terms and carries the right claim entries, whatever was replaced |
| LiveRecords.ExtendableSectorsStayNamed | service.go:612-1087 | If every push was accepted, in every state after processing every charged candidate whose bounds all lie beyond its expiration and whose claims allow it is named by an extension of a live message of the request |
| LedgerRuns.StaleCheckRevertsOnlyLimit | service.go:200-223 | Checking a loaded copy saves its whole row: a finished request loses nothing but its base fee limit, a pending one gets the row a fresh check would give it, up to that limit |
| LedgerRuns.StaleCheckGivesSameVerdict | service.go:200-224 | Over any run after a request was loaded with all messages on chain, its messages stay those loaded and its row waits for or carries the verdict of that copy |
| StaleWrites.LateUpdateIsHarmlessIff | api.go:131-147 | Saving an update of a request loaded before a run changes its base fee limit and nothing else, if and only if its status is still the one loaded |
| StaleWrites.ReopenedRequestHealsIff | api.go:131-147 | A finished request reopened by a late update gets its row back from the next check, up to the limit, if and only if it was loaded as pending; loaded as created it is not checked at all |
| StaleWrites.ReopenedIsPublishedAgain | api.go:131-147 | Processing a request set back to created publishes on top of what was published before |
| StaleWrites.ReopenedAsCreatedStays | api.go:131-147 | A failed request saved from a copy loaded as created stays created, whatever the checker does |
| StaleWrites.LateProcessingIsTheStepIff | service.go:159-182 | Processing an old copy, dry run or not, is the processor's step whatever extend replies, if and only if the request is still created and need not wait; a pass that brings messages is the step exactly then |
| StaleWrites.LateProcessingPublishesOnceIff | service.go:159-182 | The live sectors still equal the published count after a late pass if and only if nothing was published meanwhile |
| StaleWrites.LatePassUndoesFailure | service.go:159-182 | A late pass that publishes reopens a request that had failed and clears its error; a failed dry run becomes a success |
| StaleWrites.SecondPassPublishesAgain | service.go:159-182 | Two passes over one loaded request leave twice the published sectors in its messages |
| StaleWrites.LateWritesCanFail | service.go:159-182 | One request, one message, one sector: the late pass publishes twice or undoes a failure, the late update sets it back to created |
| Service.RequestRecord.AfterFind | model.go:62-75 | The reload hook sets the succeeded count in place |
| Service.Service.Preload | service.go:201-203 | The live messages of a request are collected in row order |
| Service.Service.ProcessRequest | service.go:228-295 | Processing any loaded record, however old, with its own window, terms and limits: the record and the tables become what the ledger prescribes for a reply that follows from a plan for them, or nothing changes while the base fee is too high |
| Service.Service.ProcessCreated | service.go:159-182 | One pass of the processor with nothing in between performs its ledger step; its reply is one the ledger allows, follows from a plan for the request's own arguments, and stores sound extensions |
| Service.Service.QueryPending | service.go:199-215 | The checker's query loads a pending request for a check that may come at any later time |
| Service.Service.CheckMessage | service.go:819-872 | The check loop performs the ledger's judging of any loaded record, however old, and saves only a verdict |
| Service.Service.CheckPending | service.go:199-223 | A query followed at once by its check performs both ledger steps |
| Service.Service.ReceiveReceipt | service.go:916-925 | Performs the receipt step of the ledger (Outcomes.ReceiveOutcome, LedgerLaws.ReceiveAccount) |
| Service.Service.ReplaceMessage | service.go:997-1096 | Performs the replacement step of the ledger and reports exactly when it took place: live message, match in the pool, accepted push (Outcomes.ReplacementOutcome, LedgerLaws.ReplaceKeepsSums) |
| Service.Service.SaveUpdate | api.go:131-147 | Saving an update of any loaded record, however old: the whole row is written with the new limit, unless it was loaded as finished |
| Service.Service.UpdateRequest | api.go:113-147 | With nothing in between: the base fee limit of an unfinished request is changed, nothing else |
| Service.Service.SearchPool | service.go:1024-1030 | The pool search finds the first pending message of the same sender and nonce, told apart by its cid |
| Service.Service.SpeedupRequest | service.go:764-792 | A speed-up queues exactly the off-chain messages of a pending request in ascending nonce order |
| InFlight.OneGoroutinePerRequest | service.go:153-183 | After any interleaving an id is in the guard exactly while one goroutine works on it |
| InFlight.ActMeans | service.go:163-182 | A visit starts one goroutine on an id that the guard does not hold, and none otherwise; a return ends one and frees its id |
| InFlight.AtMostCapacityRunning | service.go:794-817 | At most batchSpeedup replacements of the speed-up worker run at once |
| InFlight.PossibleMeans | service.go:803-806 | A received message is launched as soon as fewer than the capacity run |

## Left out

- HTTP routing, JSON decoding, auth tokens, command line, database opening and shutdown: plumbing around the modelled handlers.
- Calls to the node and the chain: their results are parameters; a read that fails makes `extend` return an error and no result, which the ledger covers as one of the replies it admits.
- Gas estimation, fee caps and signing in replacement: they decide whether the push succeeds, which is a parameter of the step.
- Timestamps, tickers, timings, logging, confirmation time, the text of a dry run result and the float formatting of the pledge cap: no property depends on them.
- Request creation: its checks of the window, the start time and the sector limit are not modelled, the rules on expiration and tolerance are.
- The database layer: every handler is one atomic step; failed saves, associations written again on save and the upsert of a row deleted meanwhile are not modelled, so a receipt lands only on a live message.
- Service.Service.UpdateRequest: load, check and save are one step of the ledger; what the handler does with a row that changed in between is `Service.Service.SaveUpdate`, outside the runs of the ledger, and `StaleWrites` says when it does harm.
- Service.Service.ProcessCreated: query, status test and processing are one step of the ledger; a pass over an old copy is `Service.Service.ProcessRequest`, outside the runs of the ledger, and `StaleWrites` says when it is not that step.
- Service.Service.CheckPending: query and check follow each other at once; the checker that comes later is `QueryPending` and `CheckMessage`, which the runs of the ledger include.
- At-most-once processing and one watcher per message: not claimed, because the query and the guard check are separate actions; `InFlight` excludes two goroutines at the same time only. The checker of messages pending too long replaces them one after the other, outside the semaphore of the speed-up worker.
- InFlight: a goroutine is one action from start to return; a panic inside it is not modelled.
- Bitfields are sets: counting or iterating over one never fails.
- Publisher.ErrorOf: the error texts are abbreviated; only that none is empty matters.
- Starting and cancelling watchers, the six-hour warning and the choice of messages waiting too long: they only decide when a receipt or a replacement step happens.
