# A verified model of the searcher's core

This project models the parts of the Mobius searcher where a mistake costs money or loses data, and proves
what they promise:

- `Assembly`, `Messages`, `Instructions`, `Compose`: packing swap legs into one Solana transaction or a bundle. The
  pass that drops no-op account creations is proved against an interpreter of the instructions it looks at, which may
  fail. The version-0 message compiler is given by its specification, and the lookup of a message's accounts is proved
  against it. The instructions the searcher writes itself are bytes, read back by decoders of their own.
- `RowMirror`, `EventMirror`: the read-only follower of the engine's live database. Engine, retention, follower and
  crashes are steps of one transition system; the copying loops are methods proved against a pass over the live answers.
- `Purse`: the wallet page. Checks, sends and clears are tasks that interleave wherever one waits.
- `Pipeline`, `Confirmations`, `Live`: the life of an opportunity up to submission, the operator's confirmation,
  and the send-and-poll machine. Prices, simulations, risk, the operator, the clock and the chain give arbitrary answers.
- `Config`, `Migration`: layered configuration and the move of a file to the new layout.
- `Profit`, `Costs`, `Decimals`, `Series`: integer money, decimal text and the bounded time series.

`Wrappers` and `Ordered` hold the shared option, result and ascending-order notions.

## Assumptions

- Interpreter of instructions (`Assembly.Programs`, `Promised`): swaps and other unknown instructions neither open nor
  close the tracked accounts, only instructions after the swap close accounts, an address has one mint. Of the accounts
  believed to exist, only the non-wSOL ones must really be open. Creations outside a leg's setup are allowed, and are
  then not on the list of deposits (`Assembly.OpenedElsewhere`).
- Lookup tables of one address are snapshots of a list that only grows, and no instruction names the all-ones key.
- SQLite gives a new row a rowid above every rowid in the table; a replaced row gets a new one. An ended session
  receives no more events, since ending a session packs what is left first (crates/storage/src/store.rs:179-186).
- Sequence numbers start at 1 and increase.
- One job per opportunity: an id is handed out once (crates/execution/src/pipeline.rs:439-441), so `Pipeline.Interleaved`
  gives each id one fate.
- The wallet's USDC account is neither the wallet itself nor the recipient's account (`Purse.UsdcIsPaid`).

## Where the code does less than its words

Each item has a concrete input and the exact condition.

- Rows and cursors: retention also prunes old rows of a session that is kept (crates/storage/src/retention.rs:193-207). If
  these were at the top of the table, the session's next row takes their rowid; it is then at or below the cursor
  (`RowMirror.OwnPruningCanHideARow`), or at or below the batch in hand, whose commit hides it
  (`RowMirror.PruningInHandCanHideARow`). `RowMirror.CoveredExactlyWhenSafe` gives the condition over runs: every write
  lands past all that has been read, or is of a row the tracker has.
- Events: retention prunes a kept session's events and blocks too (crates/storage/src/retention.rs:91-92). An event deleted
  before it is copied is missing from a session marked complete (`EventMirror.UncopiedEventIsMissed`); a block that
  takes the rowid of a pruned one is passed over, and the copy of a later block then drops the loose copies of its events
  (`EventMirror.CopiedEventIsLost`). `EventMirror.Drops` names the steps that put an event out of the tracker's reach:
  retention taking it live or taking its uncopied block, its block landing at or below the cursor or passed over by a
  commit, or a stop that gives up its block when that is gone. A copied event is lost exactly when it is out of reach and
  at or below the last packed one at a deletion (`LostExactlyWhenDropped`). It is missing at the end exactly when some
  step put it out of reach and either a copied block reaches past it or no loose copy was ever made (`CompleteExactly`);
  a loose copy past all copied blocks stays.
- Wallet page: `Clear` never removes a transfer that is being sent, but a new check started meanwhile does
  (`Purse.CheckHidesTheTransfer`); the page follows the transfer exactly when no check is started while one is on its
  way (`TransferStaysOnThePage`). The page's only caller sends no check then, since it takes no key while a transfer is
  being sent (crates/tui/src/wallet.rs:289).
- Wallet page: amount plus fee wraps around 64 bits in a release build (`Purse.WrappedSumPasses`), so a passed check is
  payable exactly when the sum fits (`PassedCheckIsPayable`).
- Guards: at each scale, and for a positive input, `Profit.SoundExactlyAt` says for which settings passing the guards means
  meeting them. With a negative edge minimum, a loss passes a dollar minimum from the loss on whose rescaled value can
  wrap: at nine decimals, half a SOL (`HalfASol`). With an edge minimum of zero it takes a loss of about
  9 223 SOL, whose edge over an input of one does not fit and reads as zero; that much also passes without a dollar
  minimum. `SoundExactly` is the same over all numbers of decimals and also for an input of zero, where the bound is a
  lamport or two.
- Costs: with an edge that does not fit its integer, higher costs can pass where lower ones are refused
  (`Profit.DearerCanPass`); `CheaperPassesExactly` and `Costs.BundleRescuesExactly` give the condition.
- Tips: a share of more than the whole profit, which the configuration allows, can make a bundle pass where one
  transaction fails (`Costs.GreedyShareRescues`). For any policy `AnyTipExactly` gives the condition on the two profits; a
  share of at most the whole profit meets it on every route (`PolicyKeepsProfit`, `TippedBundleRescuesExactly`).
- `parse_decimal` reads a lone point as zero, the wallet page's reader refuses it (`Decimals.ReadersAgree`).
- A range whose start is after its end panics if some point lies strictly between (`Series.TimeSeries.Range`).

## Model

| member | source | states |
|---|---|---|
| Assembly.Tracker.LegInstructions | crates/execution/src/assemble.rs:123-153 | one leg's instructions, the accounts that then exist and the accounts left created are those of a left-to-right scan of its setup, swap and closing instructions; what the scan leaves out is stated by `LeavesOutExactlyTheIdle` |
| Assembly.LegInOrder | crates/execution/src/assemble.rs:128-152 | a leg is its setup, its swap, its cleanup if there is one and its other instructions, in that order, and only the first part is setup |
| Assembly.LeavesOutExactlyTheIdle | crates/execution/src/assemble.rs:129-141 | the output is the instructions in order with non-wSOL setup creates left out; with just the open non-wSOL accounts known, one that is reached is left out only if running it there would change nothing, and a kept one changes the ledger there unless an instruction outside the setups may have opened its account |
| Assembly.PruningPreservesMeaning | crates/execution/src/assemble.rs:113-153 | from every ledger in which each non-wSOL account believed to exist is open, the pruned instructions end in the same ledger as the full ones, or both fail, stale wSOL entries and accounts closed and reopened included; and what is believed of non-wSOL accounts stays true |
| Assembly.PrunedTransactionMeansTheSame | crates/execution/src/assemble.rs:232-242 | the same for a whole transaction, whatever instructions stand before and after the legs |
| Assembly.DepositsAreBracketed | crates/execution/src/assemble.rs:123-153 | the list of accounts left created has no duplicates, each member is open at the end, and each account closed at the start and open at the end is a member unless an instruction outside the legs' setup opens it |
| Assembly.ListedAlthoughOpen | crates/execution/src/assemble.rs:129-151 | with every open non-wSOL account known, a listed account that was open at the start is wSOL or was closed on the way |
| Assembly.CreatesOnlyReport | crates/execution/src/assemble.rs:123-153 | the list only reports: output and existing accounts do not depend on it |
| Assembly.LegByLeg | crates/execution/src/assemble.rs:232-242 | scanning leg by leg gives the same instructions as scanning all legs at once, and every account the whole leaves created is one some leg leaves created |
| Messages.MessageAccountKeys | crates/execution/src/assemble.rs:279-298 | the keys pushed one by one are static, then loaded writable, then loaded readonly ones; none as soon as one index is unknown |
| Messages.TablesAgree | crates/execution/src/assemble.rs:164-183 | a table unioned first-wins and masked agrees with the last-wins one at every unmasked index both have |
| Messages.FirstAndLastWin | crates/execution/src/assemble.rs:164-183 | of several copies of one table the first is compiled with and the last resolved with |
| Messages.LookedUpExactly | crates/execution/src/assemble.rs:164-205 | a key of the message is looked up if and only if it is not the payer, does not sign, is not invoked, is not excluded and the first copy of some table lists it; as writable if and only if some instruction writes it; every other key is static |
| Messages.EveryKeyIsCarried | crates/execution/src/assemble.rs:198-205 | every instruction finds its program among the static keys and each account among the message's, static if it signs and not looked up as readonly if it is written |
| Messages.StaticKeysInOrder | crates/execution/src/assemble.rs:198-205 | the payer comes first, then writable signers, readonly signers, writable and readonly keys |
| Messages.ResolutionIsRightWhenItAnswers | crates/execution/src/assemble.rs:275-298 | account-key resolution answers exactly when every looked-up index is within its table, and then with exactly the message's accounts in balance order, which are the payer and every named key, each once |
| Messages.ExcludedKeysAreStatic | crates/execution/src/assemble.rs:164-183 | an excluded key the message carries is a static key and never looked up |
| Messages.StaticKeysAreWhatIsLeft | crates/execution/src/assemble.rs:196-205 | the static keys are exactly the keys no table stands in for, each once |
| Instructions.LittleEndianRoundTrip | crates/core/src/ix.rs:64-88 | a number that fits its bytes is read back from them |
| Instructions.ComputeBudgetRoundTrip | crates/core/src/ix.rs:35-74 | units and price are read back from the instructions that set them, and neither passes for the other |
| Instructions.TransferRoundTrip | crates/core/src/ix.rs:77-88 | a transfer is read as one of exactly its lamports from its source to its destination, also with accounts appended |
| Instructions.AtaCreateIsRecognised | crates/core/src/ix.rs:119-134 | the creation of an account is recognised by the pass over the legs, as one of wSOL if and only if that is its mint |
| Compose.Compile | crates/execution/src/assemble.rs:185-229 | a compiled transaction carries its plan behind the compute budget, its message is the compiled instructions, its locks are counted and within the limit, and it fits a packet; a refusal names its reason: not compiled, too many locks, or, these being in order, too long |
| Compose.ComposeSingle | crates/execution/src/assemble.rs:232-242 | the single transaction is the compiled plan of all legs scanned at once, with the tip last |
| Compose.ComposeBundle | crates/execution/src/assemble.rs:253-273 | a bundle is one compiled transaction per leg scanned after the legs before it, or the error of the first leg that does not compile |
| Compose.BundleAndSingleAgree | crates/execution/src/assemble.rs:232-273 | the bundle's instructions without compute budget, joined, are the single transaction's; they end with the one tip; the tips add up to the same; accounts the single plan leaves created are among the bundle's |
| Compose.TipIsPaid | crates/execution/src/assemble.rs:155-162 | the single transaction and the last one of a bundle end with an instruction whose bytes, read back, transfer exactly the recorded tip from the payer to the tip account; on any balances that have it, the tip account is richer by it, the payer poorer, and nobody else touched; the other transactions record no tip |
| Compose.BudgetIsRead | crates/execution/src/assemble.rs:193-197 | read back from its bytes, a transaction asks first for the units and the price recorded with it |
| Compose.BundleLimits | crates/execution/src/assemble.rs:268-270 | each transaction of a bundle asks for its own limit, or for the common one where none is given for it |
| Compose.CreationsAreCounted | crates/execution/src/assemble.rs:217-228 | the single transaction and each one of a bundle count exactly the creations among their own instructions; these cover the accounts listed as left created, each of which one of them opens |
| Compose.AccountsAreWhatWasCounted | crates/execution/src/assemble.rs:198-205 | when resolution answers, it returns as many keys as were counted as locks, each named key once |
| Compose.TipIsStatic | crates/execution/src/assemble.rs:155-205 | the tip account and the dont-front marker are static keys wherever they are named and never looked up; a transaction that carries the tip names both |
| RowMirror.Mirror.CopyRows | scripts/live_tracker.py:76-96 | the loop leaves the dataset and count of a pass over the live table's answers, stopping at an empty or short batch or when cut off |
| RowMirror.CountIsWhatWasCopied | scripts/live_tracker.py:76-96 | the count of a pass is that of the rows written, whatever the table answers; nothing counted means nothing done |
| RowMirror.StillTableIsCopied | scripts/live_tracker.py:76-96 | over a table that stands still, a pass that is not cut off counts exactly the rows past the cursor and leaves none, and the dataset then has every row of the session |
| RowMirror.QueryIsExact | scripts/live_tracker.py:86-89 | a query returns live rows of the session past the cursor in order, and skips none up to the last it returns |
| RowMirror.CursorsNeverMissARow | scripts/live_tracker.py:31-33 | in every interleaving of writes, replacements, pruning of other sessions with rowid reuse, fetches, commits and crashes, each live row at or below the cursor is in the dataset with its present content, and when nothing is past the cursor the dataset holds exactly the session's live rows |
| RowMirror.LooseRowsAreCopiedOnce | scripts/live_tracker.py:76-96 | for tables without a key, the dataset has in order the live rows up to the cursor, each exactly once, if the session is spared; and among its copies, each once and in order, every live row up to the cursor, if it is pruned but each write lands past what was read |
| RowMirror.TurnIsFetchAndCommit | scripts/live_tracker.py:85-96 | one turn of the loop is a fetch and a commit of the transition system |
| RowMirror.PassIsPartOfARun | scripts/live_tracker.py:76-96 | however the engine works meanwhile, a whole pass of the loop over the live table leaves the dataset that the same fetches and commits leave as steps of a run |
| RowMirror.WriteKeepsExactly | crates/storage/src/retention.rs:193-207 | a write keeps the session covered, now and when what is in hand is committed, if and only if its rowid is past all that was read or the row is one the dataset has, or will have with what is in hand |
| RowMirror.CoveredExactlyWhenSafe | scripts/live_tracker.py:76-96 | over every run, whatever is pruned: covered all along, also if the batch in hand were committed at any point, if and only if every write was safe where it was made |
| RowMirror.OwnPruningCanHideARow | crates/storage/src/retention.rs:193-207 | a five-step run in which pruning the session itself hides a row from the cursor |
| RowMirror.PruningInHandCanHideARow | crates/storage/src/retention.rs:193-207 | a run in which the write is past the cursor and the commit of what is in hand hides it |
| EventMirror.Mirror.CopyEvents | scripts/live_tracker.py:99-118 | the loop leaves the dataset and count of a pass that starts past both the cursor and the copied blocks |
| EventMirror.TurnIsFetchAndCommit | scripts/live_tracker.py:106-118 | one turn of the loop is a fetch and a commit of the transition system |
| EventMirror.LoopIsPartOfARun | scripts/live_tracker.py:106-118 | however engine and retention work meanwhile, a whole loop over the live events leaves the dataset the run's fetches and commits leave, and counts what they copy |
| EventMirror.CopiedLooseOnce | scripts/live_tracker.py:99-118 | over every run, an event in one committed batch is in no later one |
| EventMirror.StepKeepsInv | scripts/live_tracker.py:121-145 | every step of engine, retention, follower and crash keeps the invariant of blocks, loose events and cursors |
| EventMirror.InOneBlock | crates/storage/src/store.rs:257-303 | copied blocks hold each event at most once |
| EventMirror.DroppedExactlyByAStep | crates/storage/src/retention.rs:193-207 | over every run an event is out of the follower's reach if and only if some step so far put it there: it was taken live, its block was taken uncopied, landed behind the cursor, was passed over, or was in hand, gone and given up |
| EventMirror.DropsExactlyWhenCareless | crates/storage/src/retention.rs:193-207 | a step puts some event out of reach if and only if it is careless |
| EventMirror.DroppedStays | scripts/live_tracker.py:99-118 | what is out of reach stays so |
| EventMirror.DroppedExactlyWhenCareless | crates/storage/src/retention.rs:193-207 | over every run nothing is out of reach if and only if every step so far was careful |
| EventMirror.LostExactlyWhenDropped | scripts/live_tracker.py:114-115 | a step loses a copied event if and only if it is the deletion of packed events and the event was out of reach and at or below the last packed one |
| EventMirror.NothingCopiedIsLost | scripts/live_tracker.py:114-115 | where nothing is out of reach, no step loses a copied event |
| EventMirror.CopiedStaysCopied | scripts/live_tracker.py:99-118 | over every run whose steps are careful, what was copied is there ever after |
| EventMirror.CompleteExactly | scripts/live_tracker.py:131-142 | in every run, a session marked complete has ended and holds each recorded event at most once; an event is missing if and only if some step put it out of reach and a copied block reaches past it or no loose copy was ever made; any other is there with its content |
| EventMirror.CompleteExactlyAfterAnEmptyPass | scripts/live_tracker.py:131-142 | over every run, a session is marked complete if and only if a pass that began after its end has run to its end without a row to copy |
| EventMirror.CompleteMeansMirroredOnce | scripts/live_tracker.py:131-142 | in every run whose steps are careful, a complete session is mirrored exactly once, as a row or in a copied block, even if the engine packed between the two copies of one pass |
| EventMirror.UncopiedEventIsMissed | crates/storage/src/retention.rs:193-207 | a run that marks a session complete with an event nowhere in the dataset |
| EventMirror.CopiedEventIsLost | scripts/live_tracker.py:114-115 | a run in which a copied event is deleted from the dataset with no copied block holding it |
| Purse.CheckMeansTheRequest | apps/mobius-searcher/src/purse.rs:308-442 | whatever the chain answers, a passed check has the asset, recipient and atoms the request means, so a second check cannot change them |
| Purse.PassesExactlyWhen | apps/mobius-searcher/src/purse.rs:308-442 | a check passes if and only if the request can be read, the recipient can receive and the wallet can afford it without leaving dust |
| Purse.RefusedForTheFirstReason | apps/mobius-searcher/src/purse.rs:308-442 | a refusal names the first of the obstacles, in the order in which they are looked for; with none of them the check passes |
| Purse.PassedCheckIsPayable | apps/mobius-searcher/src/purse.rs:308-442 | a passed SOL check leaves nothing or at least the rent minimum, and is payable if and only if amount and fee fit 64 bits |
| Purse.FeeIsExact | apps/mobius-searcher/src/purse.rs:80-86 | the units and the price asked for cost exactly the fee the check reckoned with |
| Purse.SolIsPaid | apps/mobius-searcher/src/purse.rs:88-98 | executed on the ledger the chain described, a plan that passed goes through: the recipient has the atoms more, the wallet is left with what the review said, nobody else's money moves |
| Purse.UsdcIsPaid | apps/mobius-searcher/src/purse.rs:88-98 | the same for USDC, with the rent of an account that has to be opened |
| Purse.WrappedSumPasses | apps/mobius-searcher/src/purse.rs:308-442 | a request whose amount and fee wrap passes the check of a wallet that cannot pay it |
| Purse.StepKeepsInv | apps/mobius-searcher/src/purse.rs:445-573 | every step of every task keeps: a reviewed page has its plan in the cell, sends and the unspent review are covered by reviews, dispatches are as reviewed; what ends a transfer is stated by `PageTellsWhatHappened` |
| Purse.EverySendIsCounted | apps/mobius-searcher/src/purse.rs:463-553 | over every interleaving, dispatches of a request and sends still waiting for their second check are together no more than its sends |
| Purse.ReviewedBeforeSent | apps/mobius-searcher/src/purse.rs:445-573 | over every interleaving: a page showing a review has that request in `reviewed`, a request is dispatched no more often than sent, sent no more often than reviewed and reviewed no more often than checked, and what is dispatched has the asset, recipient and atoms shown |
| Purse.PageTellsWhatHappened | apps/mobius-searcher/src/purse.rs:445-573 | over every interleaving, for every page: it is shown if and only if the last step that put any page put that one; a transfer is put as done exactly by the chain confirming it, as failed exactly by a refused second check, a key not the wallet's, or the chain not confirming it |
| Purse.DispatchedExactly | apps/mobius-searcher/src/purse.rs:485-553 | over every interleaving, a plan is handed to the chain for a review if and only if a second check of it passed with that plan and with the wallet's own key |
| Purse.DoneMeansConfirmed | apps/mobius-searcher/src/purse.rs:485-553 | a page that shows a transfer as done means that the chain confirmed one dispatched before for that review; a failed one was refused, not signed for, or not confirmed |
| Purse.TransferStaysOnThePage | apps/mobius-searcher/src/purse.rs:556-573 | a step keeps the transfer being sent on the page if and only if it is not a new check |
| Purse.CheckHidesTheTransfer | apps/mobius-searcher/src/purse.rs:445-460 | a run in which a check started while a transfer is on its way takes it off the page |
| Pipeline.Runner.RunJob | crates/execution/src/pipeline.rs:480-605 | the events of one opportunity from pricing to its end, with no execution left open |
| Pipeline.Runner.SimulateTxs | crates/execution/src/pipeline.rs:922-984 | a simulation is ok if and only if every transaction was simulated without error |
| Pipeline.NeverRevived | crates/execution/src/pipeline.rs:573-593 | a job enters simulation as a candidate only if no verdict on the way was to skip it |
| Pipeline.SentExactlyWhenCleared | crates/execution/src/pipeline.rs:752-1258 | an opportunity is sent if and only if every condition holds, and its events are then exactly the clearance of its mode and the outcome |
| Pipeline.FirstClosedGateDecides | crates/execution/src/pipeline.rs:752-1258 | a candidate that is simulated is skipped at the first gate closed to it, for that gate's reason and after exactly the events of the gates before; past all gates it is filled on paper or sent |
| Pipeline.SomeGateIsFirst | crates/execution/src/pipeline.rs:752-1258 | for every candidate some gate is the first closed one, or none is closed |
| Pipeline.OthersKeepTheirReason | crates/execution/src/pipeline.rs:480-605 | any other opportunity is skipped for the reason of the re-pricing in its assembled shape, or else of pricing and protection, or else of assembly, and keeps it if it is simulated as a sample |
| Pipeline.SubmissionSafety | crates/execution/src/pipeline.rs:752-1258 | in every interleaved log, a send happens only with the live gate, never in PAPER, after exactly quoted, simulated clean, approved by risk and, in CONFIRM, by the operator |
| Pipeline.SentAtMostOnce | crates/execution/src/pipeline.rs:1127-1258 | in every interleaved log an opportunity is sent at most once |
| Pipeline.TerminalStaysTerminal | crates/execution/src/pipeline.rs:752-1258 | once a terminal status has been emitted for an id, no different status is ever emitted for it |
| Pipeline.ExecutionsStayBalanced | crates/execution/src/pipeline.rs:1035-1258 | at every moment at most one execution of an opportunity is open, and none once it is through |
| Pipeline.ExecutionsBalanceOverall | crates/execution/src/pipeline.rs:1035-1258 | over all opportunities at once, the executions opened and not closed are as many as the opportunities that have one open |
| Pipeline.NoneIsLeftOpen | crates/execution/src/pipeline.rs:1035-1258 | none is open once every opportunity is through |
| Confirmations.Confirms.Resolve | crates/execution/src/pipeline.rs:114-116 | an answer takes the pending entry away, is put where the waiting job receives it, and reports true exactly when it was; that it is the one the job gets is stated by `FirstAnswerReaches` |
| Confirmations.FirstAnswerReaches | crates/execution/src/pipeline.rs:102-117 | over every interleaving: the answer that reaches a job is the operator's first one while it waits; the job can receive it from then until its timer fires, and cannot before |
| Confirmations.JobEndsAsAnswered | crates/execution/src/pipeline.rs:1089-1125 | over every interleaving: a job that received is approved exactly if the answer that reached it was an approval and declined exactly if it was a refusal, expires exactly if its timer fired first, and only an approved one is sent |
| Confirmations.SentOnlyIfApproved | crates/execution/src/pipeline.rs:1089-1125 | over every interleaving: sent only if the operator's approval took the pending entry in time and no refusal did, sent at most once, one answer per id, nothing pending once the wait has ended |
| Confirmations.LateAnswersDoNothing | apps/mobius-searcher/src/engine.rs:695-697 | a late or repeated answer changes nothing a job can see |
| Confirmations.DecidedOnce | crates/execution/src/pipeline.rs:1089-1125 | what a job decided it never decides again |
| Live.ExecuteLive | crates/execution/src/live.rs:59-164 | for every backend: at most one bundle, sent only after headroom, one transaction, a clean simulation of the very bytes and a sufficient balance; every outcome, also not sent and timed out, is justified by the answers seen; status is asked for only after the bundle was seen landed; polls are bounded |
| Live.Confirm | crates/execution/src/live.rs:121-150 | landed exactly on the first confirmed or finalized status without error, failed exactly on the first error, whichever is first deciding, and timed out only after the timeout with nothing settled; nothing is polled after the deciding answer |
| Live.PollsFitTheTimeout | crates/execution/src/live.rs:113-163 | at most timeout / poll + 2 polls |
| Config.Merge | crates/core/src/config.rs:1561-1570 | merging key by key gives the recursive merge |
| Config.UserDelta | crates/core/src/config.rs:1636-1662 | the delta built key by key is the recursive difference |
| Config.DiffThenMerge | crates/core/src/config.rs:1636-1662 | merging the delta over what is below gives the current table if and only if it keeps every key below it, recursively |
| Config.NoChangeNoDelta | crates/core/src/config.rs:1636-1662 | the delta of a table against itself is empty |
| Config.DeltaIsTheChangedLeaves | crates/core/src/config.rs:1636-1662 | a leaf is in the delta if and only if it is in the current table and not the same below |
| Config.DeltaIsLeast | crates/core/src/config.rs:1636-1662 | any file that gives the current table over the one below has every leaf of the delta |
| Config.MergedLeaf | crates/core/src/config.rs:1561-1570 | a merged leaf is the file's, or the one below where the file has none |
| Config.OriginNamesTheSource | crates/core/src/config.rs:1588-1624 | the value in effect of every setting is the one in the layer its origin names |
| Migration.LiftSolana | crates/core/src/config.rs:1532-1558 | lifting step by step gives the lifted table and legacy flag, or refuses; when and to what is stated by `LiftsExactlyWhen` and `LiftsTo` |
| Migration.LiftsExactlyWhen | crates/core/src/config.rs:1532-1558 | a file lifts if and only if what stands under `venues.solana` is a table of sections, none of them also at the top, its `kind` being right where it has one; it counts as old if and only if a section stands at its top |
| Migration.LiftsTo | crates/core/src/config.rs:1532-1558 | key by key: what the lifted table has |
| Migration.PlanMigration | apps/mobius-searcher/src/migrate.rs:13-48 | the migration built step by step is the planned one; when sections move and where to is stated by `MovesExactlyWhen` and `MovedAndNothingElse` |
| Migration.MovesExactlyWhen | apps/mobius-searcher/src/migrate.rs:13-48 | nothing is to be moved if and only if no section stands at the top; otherwise sections move if and only if each is a `[table]`, `venues` and `venues.solana` are absent or tables, and none of them stands there too; else the file is refused |
| Migration.MovedAndNothingElse | apps/mobius-searcher/src/migrate.rs:13-48 | after a move exactly the sections at the top are reported, each is found with all its content under `venues.solana` and no longer at the top, and at every other path the file is the same |
| Migration.MovedLiftsTheSame | crates/core/src/config.rs:1532-1558 | sections at the top or under `venues.solana` lift to the same table, or neither lifts |
| Migration.MigrationKeepsTheMeaning | apps/mobius-searcher/src/migrate.rs:13-48 | whenever sections move, the new file lifts to the same table as the old one, with the legacy flag now false, or both are refused |
| Migration.MigratedOnce | apps/mobius-searcher/src/migrate.rs:13-48 | a second migration finds nothing to move |
| Migration.MigrationKeepsEveryLayering | crates/core/src/config.rs:1598-1621 | every layering around the migrated file merges to the same effective table |
| Profit.EdgeIsExact | crates/core/src/units.rs:37-44 | the floored ratio meets a minimum if and only if the exact one does |
| Profit.GivenWhereTheyFit | crates/core/src/units.rs:37-44 | a ratio and a dollar value are given if and only if they fit, and are then the floored ones |
| Profit.RescaleNeverOverstates | crates/core/src/profit.rs:80-106 | the two-step rescale of dollars is at most the exact floored value |
| Profit.RescaleLosesAtMostOne | crates/core/src/profit.rs:80-106 | and at most one micro-dollar below it |
| Profit.GuardsAreSound | crates/core/src/profit.rs:80-106 | with guards that ask for some edge or at least for the bound, passing means the smaller of simulated and expected net meets the lamport minimum, the unrounded edge and the dollar minimum at its exact floored value |
| Profit.SoundExactly | crates/core/src/profit.rs:80-106 | over all scales and inputs, zero included: passing means meeting the guards, whatever is priced and simulated, if and only if they ask for some edge or for a lamport minimum of at least 0 (no dollar minimum), -1, or -2 (the largest one) |
| Profit.UnsoundGuardsPassALoss | crates/core/src/profit.rs:80-106 | for every other setting, a scale and an input on which a loss passes |
| Profit.GuardsAreSoundAt | crates/core/src/profit.rs:80-106 | at a scale, on positive inputs: with some edge minimum or a lamport minimum above the bound of the scale, passing means meeting all three minimums |
| Profit.SoundExactlyAt | crates/core/src/profit.rs:80-106 | at every scale, on positive inputs: passing means meeting the guards if and only if they ask for some edge or for a lamport minimum above the bound of the scale |
| Profit.UnsoundGuardsPassALossAt | crates/core/src/profit.rs:80-106 | at every scale, for every other setting, a positive input on which a loss passes |
| Profit.HalfASol | crates/core/src/profit.rs:80-106 | at nine decimals the least loss that can wrap is half a SOL |
| Profit.GuardsLetPass | crates/core/src/profit.rs:80-106 | a result that meets all three with a micro-dollar to spare passes |
| Profit.RefusalNamesTheGuard | crates/core/src/profit.rs:80-106 | the guard named is the first not met, in the order lamports, unrounded edge, price, dollars |
| Profit.CheaperPassesExactly | crates/core/src/profit.rs:24-43 | what passes before simulation at higher costs passes at lower ones, for every setting of the guards, if and only if the edge and the dollars they read do not fall |
| Profit.CheaperPassesToo | crates/core/src/profit.rs:24-43 | in particular where edges and dollars fit their integers |
| Profit.EdgeReadRises | crates/core/src/units.rs:37-44 | where the better edge fits, the edge read does not fall if and only if the worse one fits or the better is no loss |
| Profit.DearerCanPass | crates/core/src/profit.rs:80-106 | costs of 9 300 SOL pass where costs of 9 000 are refused |
| Costs.LimitCoversUse | crates/core/src/units.rs:153-157 | the units requested after simulation cover what was used with the whole margin, unless capped, and are not a unit more |
| Costs.MeasuredIsCovered | crates/core/src/costs.rs:147-186 | after simulation each transaction asks for what it used in that way |
| Costs.CostsRoundUp | crates/core/src/costs.rs:147-200 | as long as they fit, the total never understates the exact costs, and overstates them by less than a lamport for each transaction and two more |
| Costs.TotalIsSum | crates/core/src/costs.rs:58-65 | the total is the sum of its parts, cut at 64 bits |
| Costs.EstimateIsShared | crates/core/src/costs.rs:147-186 | at the quote stage the estimated units are shared out evenly among the transactions, rounded down and within what one may ask for |
| Costs.LegByLegIsDearer | crates/core/src/costs.rs:147-186 | with one transaction per leg a bundle's fees are at least the extra signatures more, at every price and for every estimate, capping and saturation included |
| Costs.PerLegIsSameRoute | crates/core/src/costs.rs:129-131 | the source's bundle of up to 255 legs has one transaction per leg |
| Costs.NeverCheaperExactly | crates/core/src/costs.rs:147-186 | for a count of transactions unrelated to the legs, which no caller has: splitting is never cheaper, for every estimate, if and only if the unit price is at most 5 000 lamports |
| Costs.BundleCanBeCheaper | crates/core/src/costs.rs:147-186 | above that price such a split is cheaper for some estimate |
| Costs.BundleTotalAtLeastSingle | crates/core/src/costs.rs:58-65 | at the quote stage the total of a bundle is at least that of one transaction: with one transaction per leg at every price, with any other count up to 5 000 lamports a unit |
| Costs.BundleRescuesExactly | crates/execution/src/pipeline.rs:573-581 | no route that fails the guards as one transaction passes them as a bundle before simulation, whatever the guards, if and only if the edge and the dollars they read are no better for the bundle |
| Costs.BundleCannotRescue | crates/execution/src/pipeline.rs:573-581 | in particular where edges and dollars fit their integers |
| Costs.PolicyKeepsProfit | crates/jito/src/tip_policy.rs:44-64 | under a fixed or percentile tip, or a share of at most the whole profit, what is left does not fall when the profit grows |
| Costs.TipIsWithinBounds | crates/jito/src/tip_policy.rs:44-64 | the tip is between the least a bundle may carry and the bound set for it, and within these it is the fixed one, or the share of the profit rounded down |
| Costs.TippedTotals | crates/strategy/src/pricing.rs:97-100 | under such a policy a bundle with the tip for its own profit still costs at least as much |
| Costs.AnyTipExactly | crates/strategy/src/pricing.rs:97-100 | for any tip policy and any two shapes: nothing is rescued, whatever the guards, if and only if the bundle's profit leaves no more after its tip and what the guards read of it is no better |
| Costs.TippedBundleRescuesExactly | crates/strategy/src/pricing.rs:97-100 | with tips quoted for each shape's own profit, nothing is rescued, whatever the guards, if and only if the edge and the dollars read are no better for the bundle |
| Costs.TippedBundleCannotRescue | crates/strategy/src/pricing.rs:97-100 | in particular where edges and dollars fit their integers |
| Costs.GreedyShareRescues | crates/jito/src/tip_policy.rs:44-64 | a share of twice the profit lets a bundle pass where one transaction fails |
| Decimals.ParseSolReads | apps/mobius-searcher/src/setup.rs:2060-2077 | exactly the well-formed positive amounts that fit are read, as their value |
| Decimals.AtomsReads | apps/mobius-searcher/src/purse.rs:101-110 | exactly the well-formed amounts that fit, with some digit, are read, as their value |
| Decimals.ParseDecimalReads | crates/core/src/units.rs:161-182 | the same around spaces, a lone point included |
| Decimals.ReadersAgree | apps/mobius-searcher/src/setup.rs:2060-2077 | on every text the three readers return the same integer, and exactly where each accepts more than the others |
| Decimals.SolRoundTrip | apps/mobius-searcher/src/setup.rs:2079-2086 | every positive 64-bit amount printed as SOL is read back |
| Decimals.AtomsRoundTrip | crates/core/src/units.rs:197-207 | every 64-bit amount of atoms printed in full is read back |
| Decimals.SignedRoundTrip | crates/core/src/units.rs:184-207 | every signed amount printed in full is read back by the reader of signed amounts |
| Decimals.AtomsAreCut | crates/core/src/units.rs:197-207 | printed with fewer digits than there are, an amount is cut toward zero, shows its sign and as many digits as asked for |
| Decimals.FormatSolIsShortest | apps/mobius-searcher/src/setup.rs:2060-2086 | of all texts read as an amount of SOL, the one printed is the shortest |
| Series.PartitionPoint | crates/core/src/series.rs:44-44 | the binary search ends where a count of the points before the time does |
| Series.TimeSeries.Push | crates/core/src/series.rs:35-49 | a finite sample is inserted after all points at or before its time, the first point dropped when full; the series stays sorted and bounded |
| Series.SeriesIsSorted | crates/core/src/series.rs:35-49 | after every history the series is sorted and holds as many points as fit |
| Series.SeriesIsStable | crates/core/src/series.rs:34-49 | after every history it holds for each time the latest pushes of that time in order, all of them while nothing was dropped |
| Series.InOrderKeepsTheNewest | crates/core/src/series.rs:35-49 | points that arrive in order: exactly the newest ones are kept |
| Series.TimeSeries.Range | crates/core/src/series.rs:71-76 | exactly the points a scan selects; a panic if and only if a point lies strictly between a later start and an earlier end |
| Series.SliceIsBetween | crates/core/src/series.rs:71-76 | the slice between the two searches is what the scan selects |
| Series.TimeSeries.ValueAt | crates/core/src/series.rs:78-82 | the last point at or before a time, as a scan from the back finds it |
| Series.TimeSeries.Nearest | crates/core/src/series.rs:84-93 | no point is nearer; ties go to the earlier time |
| Series.NearestIsUnique | crates/core/src/series.rs:84-93 | the description of the nearest point fits one position |
| Series.TimeSeries.MinMax | crates/core/src/series.rs:95-100 | the least and greatest value among the points in range |
| Series.TimeSeries.Candles | crates/core/src/series.rs:103-121 | strictly increasing starts; each candle has the exact open, high, low, close and count of its bucket; the buckets joined are the range |
| Series.CandlesPartition | crates/core/src/series.rs:103-121 | candles of sorted points partition them in order |

## Left out

- RPC, Jupiter, Jito, OKX and WebSocket clients, `doctor.rs`, `quote.rs`, `budget.rs`, engine task wiring: their answers are arbitrary inputs here.
- Pricing beyond the costs and tip of one quote, strategy, the risk engine and the router: verdicts of theirs are inputs.
- Signing, key files, base58, base64 and the encoding of messages: signed bytes are opaque values and the wire size is a parameter.
- `token_transfer_checked_ix` (the wallet's USDC transfer): its instruction is a value in `Purse`, not bytes.
- Setup wizard, translations, terminal interface, charts, `probe.rs` (latency counters) and `view.rs` (caches): not modelled.
- `Config::validate` and threshold tables: not modelled.
- Research scripts, the OKX poller of the tracker and its small tables copied whole on every pass.
- `compose_plain` (a wallet transfer without legs), `sol_equivalent_delta` (a measured balance change) and the file of recent recipients: not modelled.
- Messages.TryCompile: models the one compile error that depends on the tables, an index above 255; the other limits of the message format are not modelled.
- Live.ExecuteLive: block height plus margin is added without the 64-bit limit; a poll time of zero is excluded because the loop is then bounded only by the clock.
- Series.TimeSeries.Nearest: times are unbounded integers, so the overflow of a difference of two extreme times is not captured; values are reals.
- Costs.TipIsWithinBounds: a percentile of landed tips is a fixed tip here, and a share of the profit beyond 64 bits is not covered.
- Migration.PlanMigration: the sections moved are a set; the order in which they are reported, comments and layout are not modelled.
- Costs.BundleTotalAtLeastSingle: stated for the quote stage; measured compute units above the per-transaction maximum (where the clamp panics) are excluded from `Compute`, and a route of more than 255 legs, whose count is cut to eight bits, counts as another shape.
- Profit.SoundExactlyAt: stated for a dollar minimum that leaves room for the bound below 64 bits; beyond, `GuardsAreSoundAt` still holds.
- Profit.GuardsAreSound: stated for a net that does not clamp; a net beyond 64 bits keeps the dollars of the larger one.
- Profit.CheaperPassesExactly: stated for nets that do not clamp.
- Decimals.AtomsRoundTrip: stated up to 38 decimals, beyond which the power of ten does not fit the source's integers.
- Config.OriginNamesTheSource: a setting is a path of keys; the joining of a path into one dotted string is not modelled.
- Purse.StepKeepsInv: the two mutex-held cells are parts of a state that each task changes in one step between two waits; the locks themselves are not modelled.
- RowMirror.Mirror.CopyRows: the live table is a function from the cursor to the answer at each query; SQL is not modelled.
