# A verified model of the trading agent

The agent keeps money-relevant state across crashes, restarts and a broker it cannot
trust. This project models the parts that do so, and the arithmetic kernels whose fast
or incremental form must equal a simple definition, in Dafny, and proves what they keep.
`dafny verify dfyconfig.toml` checks all of it.

## How it is laid out

Code that works step by step is a class or a method with loops, proved against functions
on values; what the source promises is then proved of those functions, as invariants over
every run wherever state lives from one call to the next.

- **The journal** (`JournalText`, `JournalDisk`, `JournalReader`, `Journal`): lines,
  prefixes and replay; a file that outsiders may rewrite between any two system calls;
  the incremental reader; writers, clients and whole schedules. Parse and hash of a line
  are uninterpreted.
- **Opening and closing orders**: the tick grid (`Pricing`), tighten-only configuration
  and gates (`Config`), the preflight ladder (`Ladder`, `LadderReasons`), single-use
  authorizations (`Preflight`), write-ahead order keeping (`OrderJournal`, `OrderFold`,
  `WriteAheadLog`, `WriteAhead`). The broker's answers are arbitrary, and the process may
  stop after every single event.
- **The kill switch**: the flatten protocol as a function of a script of broker answers
  (`FlattenSpec`), what it leaves (`FlattenOutcome`), its runs (`FlattenRuns`), its ledger,
  crashes and restarts (`KillRestart`), and the adapters and switches themselves (`Flatten`).
- **Broker reconciliation**: the LIFO planner (`Planner`), the positions it plans for
  (`PaperBook`), the cash telescope (`Cash`), the order probes (`OrderProbe`), the rows
  and their fold (`ReconcileRows`, `ReconcileFold`), passes, crashes and restarts (`Reconcile`), what a
  pass reports and leaves (`ReconcileVerdicts`), and the pass as a class (`ReconcilePass`).
- **Modeled fills** (`ModeledFill`, `FillCharges`, `Rounding`, `CappedFill`), **forecast
  scoring** (`Murphy`, `Resolver`, `ForecastVerdicts`, `ResolverRun`), **bars** (`Resample`,
  `BarSeries`, `BarLookups`, `BarReader`), **corporate actions** (`CorporateActions`,
  `CorporateEvents`) and the **back-test** (`CrossSectional`, `Drawdown`).

Beside the laws over runs stand exact characterizations of the single operations:
what is written, charged, reported or left, read off the inputs.

Money, prices and quantities are exact reals; instants, dates and sequence numbers are
integers; quantizing is modelled where it decides something (ticks, the recorded cap of
a modeled fill, the profit factor).

## What the code turned out not to keep

Each of these is a theorem with the exact condition and, where it takes a history, a
concrete one.

- The incremental reader's documentation equates it with full replay. Full replay also
  takes an unterminated last line if it verifies; the two agree exactly when there is no
  such line (`JournalText.ReplayIsCompleteRowsIff`).
- An append cannot see who else writes while it runs. What its closing checks certify as
  a growth is one exactly if the last outside store since its first check, before its own
  write or after it, kept the checked bytes in front (`Journal.GrowthIff`,
  `Journal.JournalWriter.Append`). Otherwise a client can end up with rows that the file
  does not hold (`Journal.MisledFollower`), until its next full read: exactly if the lines
  before the stretch it reads no longer have the rows it knows
  (`JournalReader.ResumedIsReplayIff`, `Journal.World.Run`).
- An HTTP error in answer to an order is recorded as the broker's refusal, whatever its
  status. After a gateway timeout the order may be live, and is missing from the open
  orders for good: every order the broker may hold is open exactly unless this happened
  to it (`WriteAheadLog.StopAnywhere`, `WriteAheadLog.TimeoutLosesOrder`,
  `WriteAhead.OrderDesk.AfterSubmit`).
- A retry of the kill switch that stops between sending a flatten order and recording it
  leaves the reason of before. After the restart a late 404 lets a second order out for
  the symbol (`KillRestart.LateCrashHistory`). Over any history a second order goes out
  exactly if some retry, at a turn it still has, meets a symbol that is on the wire,
  carries a safe reason, and gets a 404, an exact view and a price
  (`KillRestart.HistorySendsOnceIff`).
- A cash residue that a process had let go can come back on a restart, when a crash had
  left cash drift without its summary; the latch is still held
  (`Reconcile.ResidueComesBackIff`).
- A resolver forgets when a call raises. If the first call raises in its replay, the next
  one can write a second row for a forecast it has not replayed; if a call raises at a
  decision, the next one repeats every row that it wrote before and considers again
  (`Resolver.AfterAFailureOnceIff`, `Resolver.AfterABreakOnceIff`; over whole runs
  `Resolver.RunOnceIff`). Throwing the resolver away avoids it
  (`Resolver.FreshAfterRaiseOnce`).
- The alert for a refused reduce mint carries the id the order would have had, and so
  looks like an open order when the journal is rebuilt (`WriteAhead.RefusedMintLooksOpen`).

Two limits that only a foreign collaborator could reach: a broker that raised in the very
words of a safe flatten reason would be sent a second order (`FlattenRuns.SecondSendIff`
says exactly when; the shipped one does not, unless a library below it does,
`FlattenRuns.ShippedIsPoliteIff`), and a cap
off the tick grid would not re-integrate exactly (`ModeledFill.DepthReintegrates`; every
cap the agent prices with does, `CappedFill.PricedFillReintegrates`).

## Model

| member | source | states |
|---|---|---|
| JournalText.ReplayText | scripts/agent/journal.py:47-74 | the loop over the split lines returns the declarative replay: all rows, or none if a terminated line fails, a failing unterminated last line being dropped |
| JournalText.SplitShape | scripts/agent/journal.py:145-153 | splitting cuts the bytes into complete lines and the tail after the last newline, and loses nothing |
| JournalText.VerifyAllMeaning | scripts/agent/journal.py:59-73 | the rows of a list of lines exist exactly when every single line verifies, and are then those rows in order |
| JournalText.RowsOfGrowth | scripts/agent/journal.py:227-237 | when the old content is a prefix of the new, the rows of the new are the rows of the old followed by those parsed from the old last newline on: what makes parsing only the suffix sound |
| JournalText.LinesOfGrowth | scripts/agent/journal.py:227-237 | the same for the complete lines, wherever the old content was cut |
| JournalText.ReplayIsCompleteRowsIff | scripts/agent/journal.py:68-73 | full replay equals the replay of the newline-terminated prefix exactly when the unterminated tail is empty or does not verify |
| JournalText.UnterminatedRowReplaysButIsPending | scripts/agent/journal.py:68-73 | a last row whose newline is missing is replayed by the one reading and pending for the other, so the two readings really differ |
| JournalText.CrashRepair | scripts/agent/journal.py:348-406 | after a crash that left any part of a row's line, cutting back to the last newline yields exactly the earlier rows, plus the row in flight if and only if its whole line had landed |
| JournalText.AppendedRow | scripts/agent/journal.py:456-466 | appending one encoded row to a terminated file adds exactly that row to its replay |
| JournalText.RowsAreAuthentic | scripts/agent/journal.py:47-74 | each replayed row is what its own line says, under the hash that the line carries |
| JournalDisk.Disk.ReadStable | scripts/agent/journal.py:210-233 | a read taken as stable returned bytes that the file state checked around it really stood for, whatever happened in between |
| JournalDisk.SameStateSameContent | scripts/agent/journal.py:30-37 | a file whose state is the same before and after holds the same bytes at every moment in between |
| JournalReader.AuthorizedMeansGrowth | scripts/agent/journal.py:165-176 | the key invariant: while the appends of a lineage were growths, same lineage, later generation and matching file state together imply that the bytes the reader has parsed are a prefix of the file |
| JournalReader.ParsedIsPieced | scripts/agent/journal.py:226-240 | whatever is there, a parse that resumes behind the cache is the parse of the bytes as they were read, each stretch at its time, and from the last stretch on those are the content |
| JournalReader.ParsedIsReplay | scripts/agent/journal.py:226-240 | a parse of the suffix behind the cached offset, or the cache itself, gives the rows, count and offset of a parse of everything, unless the parsed bytes are no prefix of what is there |
| JournalReader.ReadingIsReplay | scripts/agent/journal.py:186-259 | a stable read that is not misled succeeds exactly when the complete lines verify, with their rows |
| JournalReader.ResumedIsReplayIff | scripts/agent/journal.py:226-237 | a resumed read, misled or not, finds the rows of the complete lines exactly if the content up to the first line start at or after the cached offset verifies to the cached rows and what was read behind them |
| JournalReader.ResumedAtLineIff | scripts/agent/journal.py:226-237 | so where the cached offset still follows a newline, exactly if the content before it verifies to the cached rows |
| JournalReader.ReadingIsSound | scripts/agent/journal.py:246-257 | whatever a read finds, the cache stays sound: an authorization names content the reader has parsed, and what was served is a prefix of the cache unless a rebuild is pending |
| JournalReader.NeverMisled | scripts/agent/journal.py:165-176 | while every append of the lineage was a growth, no read is misled |
| JournalReader.ReaderOkIsStable | scripts/agent/journal.py:165-184 | whatever writers and outsiders do, what a reader has cached stays sound for its own checks |
| JournalReader.StreamOkIsStable | scripts/agent/journal.py:293-308 | outside mutations and time leave the writers' shared record true of the versions it speaks about |
| JournalReader.IncrementalJournalReader.ParseCandidate | scripts/agent/journal.py:143-163 | consumes complete lines only: rows, line count and offset move by exactly the verified lines up to the last newline |
| JournalReader.IncrementalJournalReader.ParseFile | scripts/agent/journal.py:210-240 | when the checks around the read pass, the parse is the specified one of exactly what the path holds: resumed where authorized, of everything otherwise |
| JournalReader.IncrementalJournalReader.ReadOnce | scripts/agent/journal.py:200-249 | one attempt parses the content that the path holds at its end, or reports that the file moved |
| JournalReader.IncrementalJournalReader.Refresh | scripts/agent/journal.py:186-259 | two attempts: success is one stable read of the file as it is, and unless misled its rows are the replay of the newline-terminated prefix; failure changes nothing cached; undisturbed it does what a stable read does |
| JournalReader.IncrementalJournalReader.ReadNew | scripts/agent/journal.py:266-290 | the replacement flag and the delta together make the accumulation what the stable read found, which unless misled is the replay |
| JournalReader.RebuiltIff | scripts/agent/journal.py:246-290 | a client is told to replace its rows exactly if, since it was served last, the file was gone or neither as cached nor an authorized append to it |
| Journal.JournalWriter.RepairTail | scripts/agent/journal.py:377-406 | truncates to the last newline and nothing else |
| Journal.JournalWriter.StableInitialSnapshot | scripts/agent/journal.py:348-425 | the snapshot is of a path-stable, repaired file, and without interference it succeeds exactly when the complete lines verify |
| Journal.JournalWriter.Initialize | scripts/agent/journal.py:328-346 | a writer starts from the verified rows; a file other than the one recorded starts a new lineage, which revokes every reader's authorization, and the recorded one keeps it |
| Journal.JournalWriter.OpenExpected | scripts/agent/journal.py:437-453 | opening succeeds only on a file that holds what the last append left |
| Journal.JournalWriter.AppendPayload | scripts/agent/journal.py:437-470 | with outsiders free to write before the write, after it and anywhere else: a certified append left what the last of them stored and the payload behind it make, at the expected size |
| Journal.JournalWriter.Append | scripts/agent/journal.py:427-479 | a reserved key refuses the row exactly if the fields collide; success moves seq and generation by one, and the row written carries the entry's event type, instant, decision and order, its own fields and the writer's run; undisturbed it is the one new row at the end of the file's replay; it is a growth exactly if the last outside store since the check, in either window, spared the checked bytes; an unexpected file state or a short write changes neither seq nor generation |
| Journal.AppendGainsRow | scripts/agent/journal.py:427-466 | the terminated replay gains exactly the appended row, last |
| Journal.World.DoAppend | scripts/agent/journal.py:427-479 | in the world of all writers and clients too: after an acknowledged append whose windows were undisturbed, the file replays to its earlier rows and the entry under its own event type and run |
| Journal.GrowthIff | scripts/agent/journal.py:454-478 | the closing checks compare sizes: what they certify is a growth exactly if the last outside store, before or after the write, kept the checked bytes in front |
| Journal.MisledFollower | scripts/agent/journal.py:427-479 | a history of writers, readers and just one outside store, in the window before a write: for every row of the same size put over the first, the append is acknowledged and the client ends up with rows the file does not hold |
| Journal.Follower.Poll | scripts/agent/journal.py:266-290 | the client's rows after a successful read are the replay of the bytes as they were read, stretch by stretch, which from the last stretch on, and unless its reader was misled altogether, are the terminated prefix of the file; a failed read leaves them untouched |
| Journal.RepairKeepsOrder | scripts/agent/journal.py:377-425 | repairing keeps rows numbered from 1 and the counter equal to their number |
| Journal.AppendKeepsOrder | scripts/agent/journal.py:456-479 | an append, landed or cut short, keeps the numbering |
| Journal.World.Run | scripts/agent/journal.py:86-479 | any schedule of writer constructions, appends with outside stores in their windows, outside mutations and reads: every client's accumulation is the replay of what the file held at its last read exactly if the part before the last stretch, up to a line start, still has the rows it had when it was read; nobody is misled as long as every acknowledged append had its checked bytes spared; and without tampering the rows are numbered 1..n |
| Pricing.DownToGridIsGreatest | scripts/agent/order_pricing.py:78-95 | rounding down loses less than a tick and gives the greatest grid price at or below, on either side of $1.00 |
| Pricing.UpToGridShape | scripts/agent/order_pricing.py:78-95 | rounding up lands on the grid even when it crosses $1.00, within a tick |
| Pricing.UpToGridIsLeast | scripts/agent/order_pricing.py:78-95 | rounding up gives the lowest grid price at or above, on either side of $1.00 |
| Pricing.BuyLimitWithinBudget | scripts/agent/order_pricing.py:107-174 | the buy limit is on the grid, within the slippage budget and within the strategy limit |
| Pricing.BuyMarketableIff | scripts/agent/order_pricing.py:145-174 | for every usable ask, on the grid or off it, and every budget: the buy is marketable exactly when a grid price lies between the ask and the budget and no strategy limit is below the ask |
| Pricing.OnGridAskIsMarketable | scripts/agent/order_pricing.py:145-174 | an on-grid ask with any positive budget and no strategy limit always leaves a marketable limit, across the tick change at $1.00 too |
| Pricing.SellLimitWithinBudget | scripts/agent/order_pricing.py:145-174 | the sell limit is on the grid and never below the budget nor the strategy limit |
| Pricing.NoLostEdgeBoundsDecisionQuote | scripts/agent/order_pricing.py:125-181 | without a lost-edge reason the limit is bounded against the quote the decision was made on, not only the later one |
| Pricing.ReduceSellCapIff | scripts/agent/order_pricing.py:184-216 | a reduce is deferred exactly when the touch is unusable or its budget falls below a tick |
| Pricing.ReduceSellCapBelowOpenSellCap | scripts/agent/order_pricing.py:202-216 | on one quote the reduce-path sell cap is the open-path one or exactly one tick below it |
| Pricing.GridMeaning | scripts/agent/order_pricing.py:78-95 | on the grid means a whole number of cents from a dollar up, of hundredths of a cent below |
| Pricing.BudgetMeaning | scripts/agent/order_pricing.py:107-174 | the budget is so many basis points above the touch for a buy, below it for a sell |
| Pricing.OpenCapIff | scripts/agent/order_pricing.py:107-174 | the open cap is the best grid price within the slippage budget and the strategy limit: for a buy the highest, for a sell the lowest |
| Pricing.ReduceCapIff | scripts/agent/order_pricing.py:184-216 | the reduce caps round the other way: a sell's is the highest grid price within the budget below the bid, a buy's the lowest at or above its budget |
| Pricing.ReduceBuyCapIff | scripts/agent/order_pricing.py:184-216 | a reducing buy is deferred exactly for want of an ask or of a positive budget |
| Pricing.ToBpsIff | scripts/agent/order_pricing.py:107-181 | the adverse move in basis points is the nearest hundredth, a tie going to the even one |
| Pricing.LostEdgeIff | scripts/agent/order_pricing.py:107-181 | the edge is lost exactly if the touch moved against the order by more than the budget, to the nearest hundredth of a basis point |
| Pricing.NoMoveWithoutTouches | scripts/agent/order_pricing.py:107-181 | without both touches there is no move and no lost edge |
| Pricing.OpenCapReasonsIff | scripts/agent/order_pricing.py:107-181 | no cap exactly without a usable touch or with an unusable strategy limit, marketable exactly if it reaches the touch, and each of these reasons exactly when it is one |
| Config.MergeTightens | scripts/agent/config.py:24-43 | a tighten-only overlay never raises a number, turns a flag on, or adds or drops a key, at any depth |
| Config.MergesCommute | scripts/agent/config.py:24-43 | two overlays give the same tree in either order |
| Config.MergeIdempotent | scripts/agent/config.py:24-43 | applying an overlay twice changes nothing more |
| Config.AtMostMergeIff | scripts/agent/config.py:24-43 | a tree is at most the merge exactly if it is at most the base and no looser than the overlay wherever the two meet |
| Config.MergeIsLoosest | scripts/agent/config.py:24-43 | the merge is the loosest tree that tightens the base and keeps within the overlay, and the only one |
| Config.OverlayOrderIrrelevant | scripts/agent/config.py:24-43 | a list of overlays gives the same tree in every order |
| Config.Gate | scripts/agent/gates.py:14-20 | the walk down the path is true only where it leads to exactly true |
| Config.OverlaysNeverOpen | scripts/agent/gates.py:14-26 | if opening is allowed after any list of overlays, the base allowed it |
| Config.MergedGateIff | scripts/agent/gates.py:14-26 | a gate survives a merge exactly when it is open in the base and the overlay does not hold exactly false there |
| Ladder.PassIff | scripts/agent/execution_preflight.py:312-505 | the ladder passes exactly when every gate is met at once, with no stage left to hide another |
| Ladder.NoReasonsIff | scripts/agent/execution_preflight.py:351-470 | the collected reasons are empty exactly when each stage finds nothing |
| LadderReasons.FoundIff | scripts/agent/execution_preflight.py:351-470 | each reason is collected exactly when its own fact holds, whatever else is found |
| LadderReasons.RejectedIff | scripts/agent/execution_preflight.py:312-505 | the three gates come first, each the only reason of its stage; past them a rejection carries every reason there is, and the cap if one was found |
| LadderReasons.ClearedIs | scripts/agent/execution_preflight.py:471-505 | what passes is the candidate's own order, at the cap on record |
| LadderReasons.BrokenIff | scripts/agent/execution_preflight.py:312-350 | the ladder raises exactly on an unknown kill state, where a stage does, or when nothing speaks against the order and it still has no limit |
| Ladder.PassMeansBoundedBuy | scripts/agent/execution_preflight.py:471-505 | what passes buys the candidate's whole shares at an on-grid limit within the slippage budget |
| Ladder.TightenedConfigNeverOpens | scripts/agent/execution_preflight.py:360-382 | what passes under a tightened configuration would have found opening allowed in the base |
| Preflight.ReduceNeverFlips | scripts/agent/execution_preflight.py:535-556 | whatever part of a reduce authorization is filled, the position shrinks or goes flat |
| Preflight.MayReduceIff | scripts/agent/execution_preflight.py:535-556 | a reduce may be minted exactly if filling all of it takes the same symbol's position towards zero and not beyond |
| Preflight.OpenCoversIff | scripts/agent/broker/base.py:43-69 | an open authorization covers exactly the order that the ladder passed |
| Preflight.ReduceCoversIff | scripts/agent/broker/base.py:43-69 | and a reduce authorization exactly the reducing orders of its size, at whatever limit |
| Preflight.BackedMeansWarranted | scripts/agent/execution_preflight.py:149-168 | the consume-time checks are what a stored authorization needs to be warranted |
| Preflight.Registry.MintOpen | scripts/agent/execution_preflight.py:508-532 | an open authorization is issued exactly when the ladder clears, for what it cleared |
| Preflight.Registry.MintReduceOnly | scripts/agent/execution_preflight.py:535-556 | a reduce authorization is issued exactly for a genuinely reducing order |
| Preflight.Registry.Consume | scripts/agent/execution_preflight.py:149-168 | consumption succeeds at most once per token; an open only within 2000 ms, under its kill generation, with a runtime bound; any attempt on an open removes it; and each failure says which of these it was |
| Preflight.Registry.VoidToken | scripts/agent/execution_preflight.py:171-180 | removes the authorization, and is idempotent |
| Preflight.Registry.BindRuntime | scripts/agent/execution_preflight.py:134-140 | one runtime at a time |
| Preflight.Registry.RequireToken | scripts/agent/broker/base.py:43-69 | the broker's chokepoint consumes exactly a covering authorization and otherwise leaves the registry alone; a covered reduce always passes |
| FlattenSpec.PassOnlyOnEvidence | scripts/agent/orchestrator.py:439-574 | a flatten submit succeeds only on a terminal full fill of that very intent as the last answer it took, or on a fresh view without the symbol |
| FlattenSpec.SubmitOnlyOnEvidence | scripts/agent/orchestrator.py:439-574 | the fill is among the answers that this very submit took |
| FlattenSpec.ProbingSendsOnlyAllowed | scripts/agent/orchestrator.py:481-519 | a retry sends only a symbol it was allowed to, and only after a 404 |
| FlattenSpec.SafeReasonNotSent | scripts/agent/orchestrator.py:411-414 | a reason that allows resubmission proves that this call put nothing on the wire |
| FlattenSpec.KillPassSends | scripts/agent/kill_switch.py:18-47 | one pass sends each symbol at most once, and only symbols it holds |
| FlattenSpec.FlattenedOnlyOnEvidence | scripts/agent/kill_switch.py:18-47 | each symbol a pass reports flat is backed by a full fill among the answers taken in that very pass, or by an exact fresh view |
| FlattenSpec.ConfirmedOnlyOnEvidence | scripts/agent/orchestrator.py:576-601 | a residual is confirmed flat without a position only by a fill among the answers taken while asking, or by a 404 and a fresh view |
| FlattenSpec.TriggerIsSound | scripts/agent/risk/risk_kill.py:107-193 | after the trigger, no symbol is on the wire twice, and a residual with a safe failure was never sent |
| FlattenSpec.RetryIsSound | scripts/agent/risk/risk_kill.py:195-247 | a residual retry keeps that |
| FlattenSpec.AtMostOneFlattenPerSymbol | scripts/agent/orchestrator.py:2001-2019 | one trigger and any number of retries, against any script of answers: at most one flatten order per symbol |
| FlattenSpec.LeavesResidualOnlyOnEvidence | scripts/agent/risk/risk_kill.py:195-247 | a symbol leaves the residual only on a full fill among the answers taken in that very retry, or on a current view without it |
| FlattenSpec.FlatAtTriggerOnlyOnEvidence | scripts/agent/risk/risk_kill.py:107-193 | a symbol held at the trigger is not in the residual only on an answer taken in that very trigger, or on the view |
| FlattenOutcome.SubmitPassesIff | scripts/agent/orchestrator.py:481-574 | a submit passes exactly if its probe, or the answer to what it sent, is a terminal full fill of that intent, or it is let past the probe and a fresh view lacks the symbol |
| FlattenOutcome.SubmitFailsWith | scripts/agent/orchestrator.py:481-574 | and otherwise fails with the one reason of the point it got to |
| FlattenOutcome.UnsentIsSafeIff | scripts/agent/orchestrator.py:411-414 | of the orders that did not go out, exactly those fail for a safe reason that were let past the probe and lacked an exact view or a price |
| FlattenOutcome.FullFillFlattens | scripts/agent/orchestrator.py:439-507 | the fill that counts is a filled order of that very intent, priced, which leaves nothing of the position |
| FlattenOutcome.SymbolFillIff | scripts/agent/orchestrator.py:457-475 | asked for without a position, the fill counts that would for some position of the symbol |
| FlattenOutcome.FlattenedIff | scripts/agent/kill_switch.py:18-47 | a pass reports a symbol flat exactly if one of these befalls it at its turn |
| FlattenOutcome.FailedIff | scripts/agent/kill_switch.py:18-47 | and failed, with its reason, exactly if none does |
| FlattenOutcome.TriggerResidualIff | scripts/agent/risk/risk_kill.py:107-193 | after the trigger a symbol is in the residual exactly if it was held and none of these befell it at its turn |
| FlattenOutcome.RememberedReasons | scripts/agent/risk/risk_kill.py:107-193 | and the reason kept for it is that of its last turn |
| FlattenOutcome.ConfirmedIff | scripts/agent/orchestrator.py:576-601 | an absent residual is confirmed flat exactly on a full fill, or on a 404 with a fresh view that lacks the symbol |
| FlattenOutcome.AskedIff | scripts/agent/risk/risk_kill.py:195-247 | a retry asks about exactly the residuals without a position, when its adapter sees the broker, and covers exactly the positions of the residual |
| FlattenOutcome.RetryResidualIff | scripts/agent/risk/risk_kill.py:195-247 | after a retry a symbol is in the residual exactly if it was and is neither gone at its turn nor, without a position, confirmed; a new reason replaces the old |
| FlattenRuns.SentIff | scripts/agent/orchestrator.py:481-574 | exactly when a submit hands an order to the broker |
| FlattenRuns.SentFailsSafelyIff | scripts/agent/orchestrator.py:411-414 | an order that was handed over fails for a safe reason exactly if the broker raised in the words of one |
| FlattenRuns.SecondSendIff | scripts/agent/risk/risk_kill.py:195-247 | for every state, broker and set of positions: a retry sends a second order for a symbol exactly if one whose order is on the wire carries a safe reason, and at its turn gets a 404, an exact view and a price |
| FlattenRuns.RunSendsOnceIff | scripts/agent/orchestrator.py:2001-2019 | over any number of retries against any answers, each symbol is sent at most once exactly if no retry meets such a symbol |
| FlattenRuns.ForeignBrokerHistory | scripts/agent/orchestrator.py:411-414 | the input on which they are met: a broker that raises in the words of a safe reason after it took the order; with any other words there is one order |
| FlattenRuns.ShippedIsPoliteIff | scripts/agent/broker/alpaca.py:111-130 | no exception that leaves the shipped broker's placement reads like a safe reason, exactly unless a library below it raises with that very text |
| FlattenRuns.ShippedAtMostOne | scripts/agent/orchestrator.py:2001-2019 | so with the shipped broker there is at most one flatten order per symbol whatever else it answers |
| KillRestart.HappenRebuilds | scripts/agent/risk/risk_kill.py:258-308 | after any trigger, retry, crash or restart the ledger rebuilds exactly what the switch knows |
| KillRestart.CutRetryResendsIff | scripts/agent/risk/risk_kill.py:195-247 | a retry that stops after any of its questions and positions puts some symbol on the wire twice exactly if it still had the turn of a position whose order is on the wire, carries a safe reason, and gets a 404, an exact view and a price |
| KillRestart.StepSendsOnceIff | scripts/agent/risk/risk_kill.py:107-308 | one step of any kind, from any state and against any answers, leaves each symbol on the wire at most once exactly if it is no retry, whole or cut short, that meets such a symbol |
| KillRestart.HistorySendsOnceIff | scripts/agent/risk/risk_kill.py:107-308 | over any history of triggers, retries, crashes and restarts, whatever the broker answers: the ledger rebuilds the switch, and each symbol is sent at most once exactly if no step of the history meets such a symbol |
| KillRestart.AtMostOneAcrossRestarts | scripts/agent/risk/risk_kill.py:107-308 | from the start of a run: the same exact condition, which holds whenever the broker never raises in the words of a safe reason and no retry crashes after a send |
| KillRestart.LateCrashHistory | scripts/agent/risk/risk_kill.py:258-308 | a history that meets it with an honest broker: the retry sends, the process stops before its row, the restart rebuilds the reason of before, and a late 404 lets the order out a second time |
| Flatten.FlattenAdapter.SubmitOrder | scripts/agent/orchestrator.py:509-574 | both adapters do as specified, with the same wire and the same answers taken, and leave no reduce authorization unconsumed |
| Flatten.FlattenAdapter.ConfirmResidualFlat | scripts/agent/orchestrator.py:576-601 | the confirmation asks and answers as specified |
| Flatten.KillSwitch.Trigger | scripts/agent/kill_switch.py:18-47 | every position is tried whatever befell the others, failures are recorded, and the switch always halts |
| Flatten.RiskKillSwitch.TriggerKill | scripts/agent/risk/risk_kill.py:107-193 | the first trigger flattens, computes the residual and writes its two rows as specified; later ones send nothing |
| Flatten.RiskKillSwitch.RetryResidual | scripts/agent/risk/risk_kill.py:195-247 | a retry does and records as specified, and is refused unless halted with a residual |
| Flatten.RiskKillSwitch.Rehydrate | scripts/agent/risk/risk_kill.py:258-296 | the loop over the rows is the fold |
| Planner.CascadeShape | scripts/agent/broker_reconcile.py:379-394 | taking shares newest first: each lot gives up no more than it has, older lots only after newer ones are empty |
| Planner.PlanConserves | scripts/agent/broker_reconcile.py:361-429 | the adjusted lots hold exactly the broker's shares and, when its cost is known, the surviving lots carry exactly that cost |
| Planner.PlanIsLifo | scripts/agent/broker_reconcile.py:361-429 | older lots lose shares only once every newer one is empty; shares are added to the newest alone; only the first surviving lot changes its cost |
| Planner.NoPlanUnlessAdjusting | scripts/agent/broker_reconcile.py:432-439 | frozen and deferred symbols, and passes that may not adjust, get no plan |
| Planner.AdjustedSymbolIsClean | scripts/agent/broker_reconcile.py:442-526 | on a book of open lots an adjusted symbol compares clean against the same broker view |
| Planner.AdjustedSymbolIsCleanIff | scripts/agent/broker_reconcile.py:442-526 | on lots that need not be open, which the paper book never hands over: clean exactly when the cost stuck in the empty ones is within the tolerance |
| Planner.SecondPassAdjustsNothing | scripts/agent/broker_reconcile.py:442-526 | the fixpoint over the whole book: the second pass plans nothing, and reports only what it was not allowed to adjust |
| Planner.AdjustedBookIsClean | scripts/agent/broker_reconcile.py:442-526 | where every finding was adjustable, the adjusted book has none left |
| Planner.BookStaysNonNegative | scripts/agent/broker_reconcile.py:361-429 | no adjustment makes a lot negative |
| PaperBook.OpenLotsAreOpen | scripts/agent/orchestrator.py:1053-1065 | the lots a reconcile is given are open and hold shares |
| PaperBook.OpenLotsAre | scripts/agent/orchestrator.py:1053-1065 | and are the lots of just the open positions of the symbol, in the order of the book |
| PaperBook.AppliedPlansAreBookAfter | scripts/agent/paper_book.py:429-452 | once the book has applied the plans of a symbol, its open lots are the ones the planner reckons with |
| PaperBook.PaperBook.OpenPosition | scripts/agent/paper_book.py:372-408 | a new position in front of the others; an id is used once |
| PaperBook.PaperBook.ApplyFill | scripts/agent/paper_book.py:410-427 | adds to an open position and nothing else |
| PaperBook.PaperBook.ClosePosition | scripts/agent/paper_book.py:531-605 | an exit of at most what is held takes just that from the position, which is closed exactly when nothing is left |
| PaperBook.PaperBook.ApplyPositionAdjust | scripts/agent/paper_book.py:429-452 | an adjustment replaces the lot of an open position and closes it exactly when nothing is left |
| Planner.CascadeLoop | scripts/agent/broker_reconcile.py:382-394 | the loop that stops when enough is taken equals the cascade over all lots |
| Planner.PlanPositionAdjusts | scripts/agent/broker_reconcile.py:361-429 | the in-order updates yield exactly the specified plans |
| Planner.DiffPositions | scripts/agent/broker_reconcile.py:442-526 | the loop over symbols yields the specified findings, plans and notes |
| Cash.DiffCash | scripts/agent/broker_reconcile.py:529-558 | clean exactly when baseline cash plus the sells less the buys, each fill once, equals the broker's cash; fails exactly on an unreadable row |
| Cash.NetBySide | scripts/agent/broker_reconcile.py:529-558 | the net of rows of readable fills with distinct ids is the total cost of the sells less the total cost of the buys |
| Cash.NewFillMoves | scripts/agent/broker_reconcile.py:547-550 | one new buy lowers the expected cash by its cost, one new sell raises it, and a fill seen before moves nothing |
| Cash.ReadableIff | scripts/agent/broker_reconcile.py:529-558 | the rows can be added up exactly if each first row of a fill has a side and a cost |
| Cash.FillRowsSince | scripts/agent/orchestrator.py:1099-1111 | the rows above the watermark less those already seen at or below it |
| Cash.FillsSeqWatermark | scripts/agent/orchestrator.py:1082-1085 | the highest seq of a fill row |
| Cash.Telescope | scripts/agent/orchestrator.py:1099-1111 | wherever the watermark cuts the journal, the fills up to it and the deduplicated fills since add up to the whole |
| Cash.NewBaseline | scripts/agent/orchestrator.py:1591-1605 | a baseline taken now expects exactly the cash it was taken with |
| Cash.AppendKeepsAnchor | scripts/agent/orchestrator.py:1099-1111 | later fills do not change what a baseline stands for |
| ReconcileRows.RehydrateReconcileState | scripts/agent/reconcile_ledger.py:381-457 | the loop over the rows is the fold |
| ReconcileRows.ResidueMeansLatched | scripts/agent/reconcile_ledger.py:381-457 | whatever rows are on disk, an outstanding residue comes with the latch |
| ReconcileFold.LatchedIff | scripts/agent/reconcile_ledger.py:381-457 | a restart is latched exactly if some finding has not been cleared since by the summary of a whole, clean, not immediate pass with an empty window |
| ReconcileFold.ResidueIff | scripts/agent/reconcile_ledger.py:381-457 | the residue it finds is the last finding about cash, if not rebaselined and not settled since by a whole pass without one |
| ReconcileFold.BaselineIff | scripts/agent/reconcile_ledger.py:381-457 | the baseline in force is the last one written |
| ReconcileFold.PassesAre | scripts/agent/reconcile_ledger.py:423-424 | every summary counts as a pass, whole or not |
| ReconcileRows.FoldPass | scripts/agent/reconcile_ledger.py:414-446 | the folded effect of all the rows of one pass |
| ReconcileRows.FindingsAreSorted | scripts/agent/orchestrator.py:1312-1329 | the findings are written sorted by the names of their kinds, the cash row before orders and positions, and none is lost |
| ReconcileRows.PartialPass | scripts/agent/reconcile_ledger.py:414-446 | a crash that leaves any part of a pass's rows, in the order they are written, fails closed: latch and residue stay, the baseline is the old one or the pass's own |
| OrderProbe.ResolvedIffSettled | scripts/agent/broker_reconcile.py:596-700 | an order gets a terminal row exactly on evidence that it can fill no further, is then always reported, and otherwise keeps its symbol out of the comparison |
| OrderProbe.VerdictIff | scripts/agent/broker_reconcile.py:596-700 | exactly what one probe resolves, reports and holds back |
| OrderProbe.ProbeAllIff | scripts/agent/orchestrator.py:1492-1536 | the probes of a pass report, resolve and hold back exactly what the orders, the residuals and the held flattens do, and complete exactly if none raised |
| OrderProbe.ProbeEverything | scripts/agent/orchestrator.py:1492-1536 | the three probing loops as specified |
| OrderProbe.QuietMeansSettled | scripts/agent/orchestrator.py:1492-1563 | cash is compared only when the probing completed, nothing is held, and every named order and flatten is over |
| Reconcile.PassKeepsInv | scripts/agent/orchestrator.py:1305-1398 | a pass keeps the in-process state equal to what a restart would rebuild |
| Reconcile.EvaluatedFindingsAreSorted | scripts/agent/orchestrator.py:1312-1329 | whatever a pass finds goes to disk in that order |
| Reconcile.RunKeepsInv | scripts/agent/orchestrator.py:867-889 | over any run of passes, fills, crashes and restarts the latch is the one a restart rebuilds and an outstanding residue holds it |
| Reconcile.TelescopeOverRuns | scripts/agent/orchestrator.py:1551-1605 | without a rebaseline the baseline in force expects of the fills exactly what the first baseline does, over any such run |
| Reconcile.CashDriftIff | scripts/agent/orchestrator.py:1551-1580 | a quiet pass reports cash drift exactly when the broker's cash is not the first baseline's less all buys and plus all sells since |
| Reconcile.LatchClearsOnly | scripts/agent/orchestrator.py:1383-1388 | the latch is let go only by a completed, finding-free, non-immediate pass after a clean window with nothing frozen, whose cash matched or whose account was not quiet and had no residue |
| Reconcile.CrashClearsOnlyWhenWritten | scripts/agent/reconcile_ledger.py:424-432 | a crash loses the latch only if the whole of a clean pass had been written |
| Reconcile.ResidueClearsOnlyOnMatch | scripts/agent/orchestrator.py:1551-1580 | short of a rebaseline a residue is let go only by a pass that saw the expected cash, crashes included |
| Reconcile.GapStaysLatched | scripts/agent/orchestrator.py:1551-1605 | an unexplained cash gap stays outstanding and latched through any run in which no pass sees the expected cash |
| Reconcile.RestartRebuilds | scripts/agent/orchestrator.py:866-889 | a restart rebuilds the whole state, except that a residue the process had let go may come back |
| Reconcile.ResidueComesBackIff | scripts/agent/reconcile_ledger.py:433-440 | exactly when: after a pass that matched in a window in which a crash had left cash drift |
| Reconcile.ResidueComesBack | scripts/agent/reconcile_ledger.py:433-440 | such a history |
| Reconcile.RunKeepsBookOpen | scripts/agent/orchestrator.py:1053-1065 | over any run in which fills and restarts bring the paper book's lots, every lot a pass compares holds shares |
| Reconcile.TwoPassesRecover | scripts/agent/orchestrator.py:1305-1398 | two passes over one quiet view whose differences are all adjustable clear the latch, whatever had set it |
| ReconcileVerdicts.FindingIff | scripts/agent/broker_reconcile.py:442-526 | a symbol has at most one finding, and it is this: short at the broker, unknown here, missing there, other shares, or a cost more than half a cent a share off, with whose turn it is to act |
| ReconcileVerdicts.NotesIff | scripts/agent/broker_reconcile.py:442-526 | noted are exactly a held position without a broker price and a difference that waits for an order in flight |
| ReconcileVerdicts.DiffAllIff | scripts/agent/broker_reconcile.py:442-526 | a comparison reports and notes just what its symbols do |
| ReconcileVerdicts.AdjustedIsTheBrokers | scripts/agent/broker_reconcile.py:361-429 | an adjusted symbol ends up with the broker's shares and, where it gives a price, at the broker's cost |
| ReconcileVerdicts.QuietCash | scripts/agent/orchestrator.py:1551-1605 | on a quiet account a mismatch is the drift, and the baseline moves up over a match or a rebaseline and only then |
| ReconcileVerdicts.BusyCash | scripts/agent/orchestrator.py:1551-1605 | until the account is quiet a residue is reported again and nothing is compared |
| ReconcileVerdicts.FirstBaseline | scripts/agent/orchestrator.py:1581-1605 | the first baseline is the cash of the first quiet pass |
| ReconcileVerdicts.RebaselineAdopts | scripts/agent/orchestrator.py:1581-1605 | after a rebaseline the broker's cash is what is expected, and no residue is left |
| ReconcileVerdicts.LatchAfterPass | scripts/agent/orchestrator.py:1383-1398 | the latch after a pass, exactly: set by a silent adjustment or by anything found; let go by a completed clean pass after a clean window with nothing frozen; otherwise as it was |
| ReconcileVerdicts.AfterPassIs | scripts/agent/orchestrator.py:1305-1398 | and the rest of what a pass leaves: counters, frozen symbols and the book |
| ReconcileVerdicts.RaisingPass | scripts/agent/orchestrator.py:1400-1616 | a pass raises exactly for a rebaseline outside the command line or over a fill it cannot read |
| ReconcilePass.Reconciler.constructor | scripts/agent/orchestrator.py:866-889 | the state after a restart is the fold of the rows on disk |
| ReconcilePass.Reconciler.CompareCash | scripts/agent/orchestrator.py:1551-1580 | the cash stage as specified |
| ReconcilePass.Reconciler.FinishReconcilePass | scripts/agent/orchestrator.py:1305-1398 | rows in order, then the latch, as specified |
| ReconcilePass.Reconciler.RunReconcile | scripts/agent/orchestrator.py:1400-1616 | the whole pass takes the state to the specified one, a raising pass included |
| Murphy.GroupsAreBins | scripts/agent/calibration.py:354-358 | the groups are the occupied bins: distinct, non-empty, each member in its bin |
| Murphy.BinIff | scripts/agent/calibration.py:326-328 | the bin of a forecast is the one of the equal bins it falls in, 1 or more in the last |
| Murphy.BinningKeepsTotals | scripts/agent/calibration.py:354-367 | whatever is added up over the samples comes to the same bin by bin |
| Murphy.MurphyIdentity | scripts/agent/calibration.py:342-381 | exactly: Brier = reliability - resolution + uncertainty + mean of d^2 - 2de within bins |
| Murphy.ThreeTermIdentity | scripts/agent/calibration.py:342-349 | the three-term identity whenever the forecasts in each bin agree |
| Murphy.ResolutionAtMostUncertainty | scripts/agent/calibration.py:360-369 | resolution never exceeds uncertainty, with equality exactly when each bin's outcomes agree |
| Murphy.MurphyDecomposition | scripts/agent/calibration.py:342-381 | the accumulating loops compute the decomposition; no samples is an error |
| Rounding.QuantizeKeepsIff | scripts/agent/execution_realism.py:504-511 | quantizing keeps exactly the values on the grid |
| Rounding.QuantizeIff | scripts/agent/execution_realism.py:504-511 | quantizing gives the nearest millionth, a tie going to the even one, and nothing else is that |
| ModeledFill.PrefixServes | scripts/agent/execution_realism.py:593-603 | the recorded prefix of a walk serves every smaller order as the ladder would have |
| ModeledFill.DepthReintegrates | scripts/agent/execution_realism.py:593-603 | depth model, any cap at all: re-integration over f shares is the model's charge for f shares, exactly when none is left for the cap or the cap is on the recorded grid |
| ModeledFill.TouchReintegrates | scripts/agent/execution_realism.py:583-592 | the same for the top-of-book model |
| ModeledFill.ReintegrationIsTheModel | scripts/agent/execution_realism.py:358-515 | a recorded fill charges every part of its order what the model would have charged for an order of that size at that moment, whichever model applied |
| CappedFill.TickPriceIsFine | scripts/agent/order_pricing.py:78-95 | a tick price is a whole number of millionths |
| CappedFill.OpenCapIsTickPrice | scripts/agent/order_pricing.py:107-181 | whatever cap the open path returns is a tick price or not positive |
| CappedFill.ReduceCapIsTickPrice | scripts/agent/order_pricing.py:184-216 | whatever cap the reduce path returns is a positive tick price |
| CappedFill.PricedFillReintegrates | scripts/agent/execution_realism.py:583-603 | for every cap the agent prices an order with, re-integrating any filled part charges exactly what the model would have charged for an order of that size, and a full fill reproduces the modeled cost |
| ModeledFill.WalkIsOptimal | scripts/agent/execution_realism.py:447-475 | no way of filling the order from displayed sizes with the remainder at the cap buys for less or sells for more |
| ModeledFill.WalkIsAnAllocation | scripts/agent/execution_realism.py:447-475 | and the walk is one of those ways |
| ModeledFill.OptimisticBeatsTheBook | scripts/agent/execution_realism.py:605-616 | a fill flagged optimistic by the depth model beats every allocation of the displayed book |
| ModeledFill.WalkLadder | scripts/agent/execution_realism.py:447-465 | the early-stopping loop equals the walk over the whole ladder |
| ModeledFill.ModelFill | scripts/agent/execution_realism.py:358-515 | model selection, error cases and both models as specified |
| FillCharges.ModelFailsIff | scripts/agent/execution_realism.py:358-420 | a model raises exactly on a size or cap that is not positive and on depth of another instrument |
| FillCharges.OppositeIsTouch | scripts/agent/execution_realism.py:442 | a buy is modelled against the ask and a sell against the bid |
| FillCharges.FillableByQuoteIff | scripts/agent/execution_realism.py:476-503 | without usable depth a buy can be filled exactly if the verdict is ok, the ask and its size are positive and the ask is within the cap; a sell likewise at the bid |
| FillCharges.ChargedByQuote | scripts/agent/execution_realism.py:476-503 | and is then charged the touch for up to the displayed size and the cap for the rest |
| FillCharges.FillableByDepthIff | scripts/agent/execution_realism.py:420-475 | with usable depth it can be filled exactly if the quote is good on the opposite side and the book shows a share within the cap, and then as much of it as is shown there |
| FillCharges.ChargedByDepth | scripts/agent/execution_realism.py:447-475 | and is charged the best that the opposite book allows, with the rest at the cap: that is one way of taking displayed shares, and no other is better for the order |
| FillCharges.WorstByDepth | scripts/agent/execution_realism.py:447-475 | its worst price is the cap when some of it is left to that, else the level where the shares wanted run out |
| FillCharges.ReasonsIff | scripts/agent/execution_realism.py:358-515 | each reason a model records, exactly when it is one |
| FillCharges.NeverBetterThanTheBook | scripts/agent/execution_realism.py:358-515 | no order is modelled at better than the best price the opposite book shows |
| FillCharges.AssessmentIff | scripts/agent/execution_realism.py:555-620 | what the broker charged is compared with the model's charge for an order of just the filled size: optimistic for a buy below it or a sell above it, conservative the other way, with an alert exactly beyond ten basis points |
| FillCharges.UnfillableIsUnassessed | scripts/agent/execution_realism.py:555-620 | an unfillable model assesses nothing |
| ModeledFill.AssessDivergence | scripts/agent/execution_realism.py:555-620 | the assessment as specified, error cases included |
| OrderJournal.FoldMeaning | scripts/agent/exec_ledger.py:1116-1148 | the fold's open orders, closed set, symbols and denials in terms of the rows; it fails on no write-ahead journal |
| OrderJournal.OpenMeansNotClosed | scripts/agent/exec_ledger.py:1098-1108 | open orders are those with a row and without a closing one |
| OrderJournal.RehydrateExecState | scripts/agent/exec_ledger.py:1096-1148 | the loop with its early failure is the fold |
| OrderFold.ClosedIff | scripts/agent/exec_ledger.py:1116-1148 | an order is closed exactly if some row is its terminal row, its refusal by the broker or its reject |
| OrderFold.AttemptedIff | scripts/agent/exec_ledger.py:1116-1148 | its symbol is that of its last write-ahead row |
| OrderFold.DeniedIff | scripts/agent/exec_ledger.py:1116-1148 | a symbol is denied exactly if this run left an order of it unconfirmed as not found or as an offline orphan |
| OrderFold.FailsIff | scripts/agent/exec_ledger.py:1116-1148 | the rebuild fails exactly over such a row of an order without a write-ahead row before it |
| OrderFold.OpenIff | scripts/agent/exec_ledger.py:1098-1148 | an order is reported open, with its last row, exactly if some row mentions it and none closes it |
| WriteAheadLog.GoodIsCovered | scripts/agent/orchestrator.py:2328-2455 | under the discipline of the order path every order the broker may hold has its attempt row, and is closed only as refused on an error that settled nothing |
| WriteAheadLog.GoodIsSafeIff | scripts/agent/orchestrator.py:2328-2455 | every order the broker may hold is open in the journal, exactly as long as none that was closed on such an error may be live |
| WriteAheadLog.StopAnywhere | scripts/agent/orchestrator.py:2328-2374 | wherever the process stops, the rebuild succeeds and knows the symbol of every order passed to the broker that the broker has not ended or refused; the order is open in it exactly unless it was closed on an error that settled nothing |
| WriteAheadLog.SentOnce | scripts/agent/orchestrator.py:2457-2495 | no id is ever passed to the broker twice |
| WriteAheadLog.SendSafeIff | scripts/agent/orchestrator.py:2328-2348 | when sending an id is safe: exactly if its row is there and open, or the broker has said it is over |
| WriteAheadLog.CloseSafeIff | scripts/agent/orchestrator.py:2445-2455 | when closing an order is safe: exactly if it cannot be live |
| WriteAheadLog.RefusalSafeIff | scripts/agent/orchestrator.py:2378-2390 | recording an error as a refusal keeps the journal safe exactly if the error settles the order or the order could not be live |
| WriteAheadLog.RefusedSubmissionSafeIff | scripts/agent/orchestrator.py:2328-2390 | for a new order written ahead, sent and answered with an error: exactly if the error settles it |
| WriteAheadLog.TimeoutLosesOrder | scripts/agent/broker/alpaca.py:127-130 | after any run, and on an empty journal: a gateway timeout in answer to an order the broker took leaves it possibly live and not among the open orders |
| WriteAhead.OrderDesk.constructor | scripts/agent/orchestrator.py:832-863 | after a restart every order the broker may hold is queued for recovery unless it was closed on an error that settled nothing, only open orders with an attempt row are, each once, and the denials are this run's |
| WriteAhead.OrderDesk.WriteAttempt | scripts/agent/orchestrator.py:2328-2338 | the write-ahead row makes a new id ready to be sent |
| WriteAhead.OrderDesk.Query | scripts/agent/orchestrator.py:2461-2474 | asks at most three times, sends nothing, and returns the first parsed answer exactly if one of the three is |
| WriteAhead.OrderDesk.SubmitRecovery | scripts/agent/orchestrator.py:2457-2495 | an ambiguous submission is asked after, at most three times: the first parsed answer is adopted and watched, or closed when terminal; with none its symbol is denied and the order let go; never sent again |
| WriteAhead.OrderDesk.RecordHttpError | scripts/agent/orchestrator.py:2378-2390 | an error is recorded as a refusal whatever its status; a safe journal stays safe exactly if the status is a 4xx or the order could not be live |
| WriteAhead.OrderDesk.AfterSubmit | scripts/agent/orchestrator.py:2376-2443 | after an acknowledgement the order is watched as acknowledged, its symbol kept, and a terminal one is closed and let go; an error closes it; an unparseable answer is asked about; a safe journal stays safe exactly unless the answer is an error outside 4xx to an order that may be live |
| WriteAhead.OrderDesk.Adopt | scripts/agent/orchestrator.py:2411-2443 | an adopted order has its submitted row and is watched in the state the broker gave, or is closed and let go when that is terminal |
| WriteAhead.OrderDesk.PassToBroker | scripts/agent/orchestrator.py:2345-2374 | one send, then exactly what the answer says of the order: watched, closed, refused, or asked about when the broker raised |
| WriteAhead.OrderDesk.ObserveOrder | scripts/agent/orchestrator.py:2524-2556 | a terminal report closes the order, which is then let go; any other keeps it watched in that state, with a cancel tried for the guards that fired and not tried before |
| WriteAhead.OrderDesk.Poll | scripts/agent/orchestrator.py:2499-2522 | a poll sends nothing; a parsed answer is observed, and on any other the order is watched as before, with one update row |
| WriteAhead.OrderDesk.RequoteAndSubmit | scripts/agent/orchestrator.py:2279-2374 | the open path sends at most one new order, of a new id, after its write-ahead row, and then keeps, closes or denies it as its answer says; a stale token is refused on this side; a safe journal stays safe exactly unless the answer is an error outside 4xx |
| WriteAhead.OrderDesk.StartClose | scripts/agent/orchestrator.py:2899-3017 | the close path likewise; an unpriced close and a refused mint write one row and send nothing, and a stale token is asked about like a lost answer |
| WriteAhead.OrderDesk.RetireForKill | scripts/agent/orchestrator.py:2093-2133 | a kill cancels the watched order, may retire a close without closing it, closes as rejected exactly the orders whose token is outstanding, and denies nothing |
| WriteAhead.OrderDesk.RecoverDanglingOrders | scripts/agent/orchestrator.py:1654-1685 | recovery sends nothing; each queued order is asked after and then adopted and cancelled or left unconfirmed and denied |
| WriteAhead.OrderDesk.RecoverOne | scripts/agent/orchestrator.py:1654-1685 | a queued order that the broker knows is adopted, watched and cancelled, or closed when terminal; one it does not know is left unconfirmed and its symbol denied |
| WriteAhead.OrderDesk.ResolveOfflineOrphans | scripts/agent/orchestrator.py:1645-1652 | without a broker every queued symbol ends up denied |
| WriteAhead.RefusedMintLooksOpen | scripts/agent/orchestrator.py:2971-2977 | the alert for a refused reduce mint makes an id that was never attempted look open on a rebuild |
| BarSeries.HistoryAgreesWithGet | scripts/agent/bar_series.py:272-324 | the history holds exactly the bars that a point lookup at the same instant finds |
| BarSeries.NoLookAhead | scripts/agent/bar_series.py:303-324 | two series with the same eligible bars give the same history, whatever else is in them |
| BarSeries.GetSettles | scripts/agent/bar_series.py:272-295 | only a future receipt can turn into another answer later |
| BarLookups.GetIff | scripts/agent/bar_series.py:272-295 | a point lookup has exactly one answer: the bar of that end if ended and received, a future receipt if not yet, the recorded reason, no quotes within the span of the series, or out of it |
| BarLookups.HistoryIs | scripts/agent/bar_series.py:303-324 | a history holds bars ended and received by the instant, oldest first, as many as asked for or all there are, and leaves out only older ones |
| BarSeries.BisectRight | scripts/agent/bar_series.py:316 | the cut separates the ends up to the instant from those after it |
| BarSeries.EligibleHistory | scripts/agent/bar_series.py:303-324 | bisection and the backward walk return the last K of the ascending eligible bars |
| BarReader.MakeReader | scripts/agent/bar_series.py:218-270 | a reader is made of exactly the strictly increasing, disjoint series |
| BarReader.MidBarSeriesReader.GetBar | scripts/agent/bar_series.py:272-295 | the table lookups answer as the series does, with the same four reasons |
| BarReader.MidBarSeriesReader.GetHistory | scripts/agent/bar_series.py:303-324 | the indexed history is the filtered one |
| BarReader.MidBarSeriesReader.LatestEligible | scripts/agent/bar_series.py:297-301 | the latest eligible bar, if any |
| Resample.ChosenIsLast | scripts/agent/bar_series.py:151-166 | a bar comes from the last valid quote of its bucket by event, vendor sequence and position |
| Resample.ResampleMidbars | scripts/agent/bar_series.py:106-205 | exactly one record for each bucket with a quote, and what the resampler makes the reader takes |
| BarLookups.RecordIff | scripts/agent/bar_series.py:106-205 | a bar ends with its whole minute, lies half way between bid and ask of the last usable quote and was received when that was; a minute with only unusable quotes is on record as that |
| Resolver.VerdictSettles | scripts/agent/calibration.py:252-300 | a verdict once reached is the verdict at every later instant |
| Resolver.ReplayIsIdempotent | scripts/agent/calibration.py:72-81 | replaying a stream over a climatology that holds it changes nothing |
| Resolver.TallyBalances | scripts/agent/calibration.py:230-323 | due = scored + unresolved + deferred, and only the first two add rows |
| Resolver.RunKeepsInv | scripts/agent/calibration.py:203-323 | over any run of calls that go through and fresh resolvers, at any instants and over the same bars: one row per forecast, each the settled verdict, and memory equal to what the stream amounts to |
| Resolver.StepKeepsInv | scripts/agent/calibration.py:213-236 | after each call the climatology is a function of the stream alone, restarted or not |
| Resolver.ScheduleDoesNotMatter | scripts/agent/calibration.py:203-323 | two schedules over the same bars never disagree about a forecast both resolved |
| Resolver.CallResolvesAllItCan | scripts/agent/calibration.py:236-307 | after a call a forecast has a row exactly if it had one or its labels have been received |
| Resolver.CallAdds | scripts/agent/calibration.py:236-323 | from any idea of what was seen, one row per forecast survives exactly when nothing resolved had a row |
| Resolver.AfterAFailureOnceIff | scripts/agent/calibration.py:216-235 | what a raising first call leaves behind repeats a row on the next call exactly when that call can resolve an id not yet replayed |
| Resolver.AFailureRepeats | scripts/agent/calibration.py:216-235 | such a history |
| Resolver.AfterABreakOnceIff | scripts/agent/calibration.py:213-318 | a call, the first or a later one, that raises at some decision has written rows it does not remember: the next call keeps one row per forecast exactly when none of those is among its decisions |
| Resolver.ABreakRepeats | scripts/agent/calibration.py:226-318 | such a history |
| Resolver.RunOnceIff | scripts/agent/calibration.py:203-323 | over any run, each resolver with its own bars, in which calls may raise during their replay or at any decision: one row per forecast exactly if no call resolves a forecast that has a row its resolver does not remember |
| Resolver.FreshAfterRaiseOnce | scripts/agent/calibration.py:203-236 | which never happens in a run that throws a resolver away once a call of it has raised |
| ForecastVerdicts.VerdictIff | scripts/agent/calibration.py:252-300 | the verdict is out once neither label is still to be received, and is exactly what they say: the first missing reason, a source mismatch, or the outcome and its squared error |
| ForecastVerdicts.CellsMean | scripts/agent/calibration.py:55-81 | each cell of the climatology holds the outcomes of its scored forecasts in stream order |
| ForecastVerdicts.TallyCounts | scripts/agent/calibration.py:230-323 | the tally counts the decisions by what becomes of each |
| ForecastVerdicts.GoesThroughIff | scripts/agent/calibration.py:213-235 | a call goes through exactly if no decision raises and a first replay meets no scored row without its decision |
| ForecastVerdicts.RunGoesThroughIff | scripts/agent/calibration.py:203-323 | and a run exactly if each of its calls does |
| ForecastVerdicts.ReplayedIs | scripts/agent/calibration.py:213-235 | a replay has remembered the rows up to and with the first scored one without its decision, or all of them |
| ForecastVerdicts.ByIdIs | scripts/agent/calibration.py:203-212 | a forecast is known by its first decision row |
| ResolverRun.AsOfClimatology.IngestResolved | scripts/agent/calibration.py:72-81 | ingestion is idempotent per forecast id |
| ResolverRun.ForecastResolver.ReplayStream | scripts/agent/calibration.py:213-235 | the replay as specified, its failure included |
| ResolverRun.ForecastResolver.ResolveDue | scripts/agent/calibration.py:203-323 | the call takes stream, memory and climatology to the specified state, also when a decision's row raises, and its tally balances |
| CorporateActions.OrderDoesNotMatter | scripts/agent/corporate_actions.py:348-416 | every field of the event, and any refusal, is the same for every permutation of the reports |
| CorporateActions.KeyDetermines | scripts/agent/corporate_actions.py:284-298 | the total key leaves no two different reports of a group tied |
| CorporateActions.IndependentIff | scripts/agent/corporate_actions.py:373-379 | the two cardinality tests say exactly that some two reports differ in both source and vendor id |
| CorporateActions.StatusMeaning | scripts/agent/corporate_actions.py:357-389 | confirmed exactly when all agree, all are complete and two corroborate; conflicting exactly on disagreement or incompleteness |
| CorporateActions.MoreReports | scripts/agent/corporate_actions.py:301-389 | more reports never undo a conflict nor turn a confirmation into a lone report |
| CorporateActions.LiftsOnlyByConfirmation | scripts/agent/corporate_actions.py:453-471 | a blackout lifts with more reports only by confirmation, and only after the window |
| CorporateActions.IsBlackedOut | scripts/agent/corporate_actions.py:453-471 | true exactly when some event has begun to black the date out and no confirmation has ended that |
| CorporateActions.Validate | scripts/agent/corporate_actions.py:301-416 | refuse, sort, scan and decide as specified |
| CorporateEvents.BeforeIff | scripts/agent/corporate_actions.py:284-298 | the total key compares source, then vendor id, type, amounts, identifiers, ticker and the two times, each in dictionary order, a missing text as the empty one |
| CorporateEvents.CleanMeaning | scripts/agent/corporate_actions.py:245-267 | a cleaned identifier is what is left between the white space around it, and begins and ends with none |
| CorporateEvents.ValidatedIff | scripts/agent/corporate_actions.py:301-416 | an event comes out exactly if both windows are at least a day, there is a report, each one's source is its provenance's and its id not blank, every security is durably identified, and all are of one security and ex-date |
| CorporateEvents.EventMeaning | scripts/agent/corporate_actions.py:391-416 | its security, type, date and amounts are those of the first report in key order, its sources those of all, and its provenance one entry for each in that order |
| CorporateEvents.RefusedFor | scripts/agent/corporate_actions.py:301-356 | which of several faults is the one reported |
| CorporateEvents.ConfirmedIff | scripts/agent/corporate_actions.py:357-389 | confirmed exactly if all agree on amounts and dates, none is incomplete, and two differ in both source and vendor id |
| CorporateEvents.BlackoutMeaning | scripts/agent/corporate_actions.py:391-471 | a day is blacked out from the lead days before the ex-date on, and only a confirmation ends that, the trail days after it |
| CrossSectional.BacktestKept | scripts/agent/backtest_historical.py:1841-1952 | two trades of a symbol never overlap, every candidate is a trade, a skip or a suppressed overlap, and leg counts are trade counts |
| CrossSectional.SuppressedIff | scripts/agent/backtest_historical.py:1925-1928 | a leg is suppressed exactly when some trade of its symbol is not over at its entry |
| CrossSectional.LegIff | scripts/agent/backtest_historical.py:1900-1952 | what becomes of a candidate, exactly: suppressed when blocked, else skipped with its reason, or a trade with the decision's own entry and exit |
| CrossSectional.NothingInvented | scripts/agent/backtest_historical.py:1841-1952 | every trade is a filled candidate of a decision, with that decision's instants, and every skip an unfilled one with its reason |
| CrossSectional.NothingLost | scripts/agent/backtest_historical.py:1841-1952 | after a decision each of its filled candidates has a trade of its symbol that lasts to the entry or beyond, its own if no other |
| CrossSectional.CountersMean | scripts/agent/backtest_historical.py:1841-1952 | the counters count the short decisions, the offered legs and the opened ones |
| CrossSectional.LegCountsSum | scripts/agent/backtest_historical.py:1944-1946 | the leg counts sum to the number of trades |
| CrossSectional.RunBacktest | scripts/agent/backtest_historical.py:1841-1952 | the nested loops as specified |
| Drawdown.MaxDrawdown | scripts/agent/backtest_metrics.py:84-95 | the one pass finds the lowest sum over all runs of consecutive trades, the empty run included, and no other number is that |
| Drawdown.WorstDay | scripts/agent/backtest_metrics.py:98-104 | the lowest day total |
| Drawdown.DayIsARun | scripts/agent/backtest_metrics.py:98-104 | with each day's trades together, a day's total is the sum of a run |
| Drawdown.DrawdownAtMostWorstDay | scripts/agent/backtest_metrics.py:159-162 | the drawdown is then at or below the worst day |
| Drawdown.ProfitFactor | scripts/agent/backtest_metrics.py:74-81 | the two sums as specified |
| Drawdown.GainsAndLosses | scripts/agent/backtest_metrics.py:74-81 | gains less losses is the net, and gains and losses together are all that moved |
| Drawdown.ProfitFactorValue | scripts/agent/backtest_metrics.py:74-81 | the profit factor, of the net and of all that moved: the nearest millionth of gains over losses, and without a loss the constant, or zero |
| Drawdown.ProfitFactorMeansProfit | scripts/agent/backtest_metrics.py:195-209 | even quantized, a factor above one means a profit, so the pinned minimum forces a positive net |

## Left out

- Journal.JournalWriter.Append: a write reaches the file as one piece; an outside store between two parts of it counts as one before it or after it.
- Journal.World.Run: keeps the numbering 1..n only while nobody but the writers has touched the file, and says nothing of what a read that fails would have found.
- JournalDisk.Disk.ReadStable: assumes that a file state (device, inode, size, two times) never recurs with other bytes, by a stamp that is new on every mutation.
- FlattenSpec.AtMostOneFlattenPerSymbol: assumes one position row per symbol, and a broker whose exception texts are not the two safe reasons, which FlattenRuns.ShippedIsPoliteIff settles for the shipped one; without that second assumption FlattenRuns.RunSendsOnceIff is the exact statement.
- FlattenRuns.ShippedAtMostOne: assumes that no library below the broker raises with exactly the text of one of the two safe reasons.
- KillRestart.HistorySendsOnceIff: the ledger is written whole or not at all, and the cause, generation and annotations of its rows are left out.
- WriteAhead.OrderDesk.RequoteAndSubmit: takes the order id as given, new to the journal and not yet spoken of by the broker, where the code derives it from a hash of run, decision and preflight; a 4xx status counts as the broker's word that it does not hold the order, and no other status does.
- WriteAheadLog.StopAnywhere: does not cover the terminal rows a reconcile writes; their evidence is OrderProbe.ResolvedIffSettled.
- WriteAhead.OrderDesk.constructor: queues the orders in journal order where the code sorts them by id, and a later adopted order replaces an earlier one as the watched task just as it does there.
- Reconcile.RunKeepsInv: abstracts how the book and the frozen symbols survive a crash and what a fill does to the book; any book and any frozen set may be found.
- ReconcilePass.Reconciler.RunReconcile: leaves out notes, the identity note and durable seeds, none of which the fold or the latch reads, and the order among the findings about orders and positions; an immediate pass freezes its symbol first, as its only caller does.
- ReconcilePass.Reconciler.FinishReconcilePass: leaves out the same, and the terminal rows of probed orders, which go to another journal.
- PaperBook.PaperBook.ApplyFill: takes a fill to add shares, which the delta of two broker snapshots always does; the modeled side, marks and fees are left out.
- CorporateActions.OrderDoesNotMatter: takes amounts as canonical texts, equal exactly when the quantized amounts are; amounts that do not round-trip and dates that do not parse, which raise, are not modelled.
- CorporateEvents.CleanMeaning: knows the white space up to U+00FF only.
- CorporateActions.Validate: calls a sort by insertion where the code calls the built-in one.
- Resolver.RunKeepsInv: the bars stay the same throughout, as a reader rebuilt with more bars may turn an absent label into a present one, and no call raises; for other bars and raising calls Resolver.RunOnceIff states one row per forecast alone.
- ResolverRun.ForecastResolver.ResolveDue: always has a climatology, takes as given at which decision a row raises, and leaves out the reference rate and ids of rows without a forecast.
- BarReader.MakeReader: relies on the strict order that admission enforces instead of sorting the ends again.
- Resample.ResampleMidbars: buckets by the minute of the instant, which is what flooring in Eastern time comes to, and leaves out malformed rows, which raise.
- ModeledFill.ModelFill: leaves out the quantized vwap, the slippage figure and the provenance record.
- ModeledFill.AssessDivergence: leaves out the divergence in basis points.
- Murphy.MurphyDecomposition: the values before the output quantization.
- CrossSectional.RunBacktest: takes ranking, horizons and simulated legs as given, and leaves out the benchmark and the exclusion counts.
- Pricing.NoLostEdgeBoundsDecisionQuote: bounds the limit up to the two decimals that the adverse move is rounded to.
- UTF-8, JSON, SHA-256, locks and threads: a line verifies or not, and one method runs at a time.
- Decimal context precision, except where a quantum decides.
- Time zones, calendars, timestamp parsing and session schedules.
- Network clients, vendor adapters, credentials, command line, dashboard, reports and drivers.
- Margin, day-trade and loss monitors, and the market-state decider, beyond what their callers read.
- Feature engine and forecast: floating point, with no faithful exact model.
- Schema and vocabulary validators, each settled by one branch.
- The rest of the tick loop: scanning, marks and session edges.
