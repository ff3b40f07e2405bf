# Bleavit harness and gate models

A Dafny model of the algorithmic cores of the Bleavit repository, with proofs of what they
promise over every input and every run.

- **Admission** (`Admission.dfy`, `Oracle.dfy`, `SafetyFilter.dfy`, `AdmissionTheorems.dfy`, `Verdicts.dfy`,
  `Generator.dfy`). The nested-call filter in three forms: the filter the runtime ships, the walk it is
  compared with, and a conjunction of three tree functions. Filter and walk thread one mutable budget
  and stop at the first error; both are proved against a scan of the pre-order event trace of the call
  tree, and the scan against the three functions, from every starting budget, and against equations
  that give the verdict on each constructor from the verdicts on what is inside it. Most results hold
  for any limits and any domain tables (`Rules`); `PRODUCTION` holds the shipped ones.
- **Ledger** (`Ledger.dfy`, `PartialFailures.dfy`, `Conservation.dfy`). The in-memory ledger as a class over an
  entry list.
  Each operation is proved to be a script of credits and debits on a finite map, stopping where the
  code stops. Conservation is proved once for scripts and read off for every operation and run.
- **Book** (`Book.dfy`, `BookTheorems.dfy`, `Acceptance.dfy`, `Harness.dfy`). The buy and sell scripts of every
  kind of book, rolled back as a whole on failure, and the seeding of single books and external
  pairs; the exact inventory identity, the drain ceiling, no profit on a closed run, where fees and
  cash end up, and exactly when the ledger accepts a trade. The pricing kernel is a parameter with
  stated conditions; `Harness.AssumptionsSatisfiable` shows they can be met.
- **Seeds** (`Quantiser.dfy`, `SeedCodec.dfy`). The printer and parser of the trade-seed format, and
  the two quantisation maps.
- **Gates**. The critical-path budget worklist (`BundleBudget.dfy`), the chain-literal scan
  (`LiteralText.dfy`, `ChainLiterals.dfy`, `LiteralReport.dfy`), the release-tree digest and reproducibility comparison
  (`ReleaseTree.dfy`), and the development chain pin (`ChainPin.dfy`).

`dafny verify dfyconfig.toml` checks everything.

Where the code and its own words disagree, the model follows the code:

- From a budget whose depth is already past the limit, the walk still accepts a call that opens no
  container, because only `enter` looks at the depth (`AdmissionTheorems.ExhaustedDepthAdmitsLeaf`).
- The independent form counts nodes in `u32`. In wrapping arithmetic it accepts an oversized tree
  whose count wraps into the limit; the two forms disagree exactly on the trees of 2^32 nodes or
  more that the independent form accepts (`AdmissionTheorems.OracleMatchesIndependent`,
  `AdmissionTheorems.WrappedCountAcceptsTooMuch`).
- Merging what was just split is refused for a zero amount on a leg without an entry
  (`Conservation.MergeUndoesSplit`).
- The tree generator draws eleven of the twelve call domains: never the client domain of the hosted
  service (`Generator.DomainsDrawn`).
- A sell that yields nothing skips its zero amounts and goes through. A buy skips only a zero fee: at
  no cost it still debits zero amounts, for which the ledger of the harness wants an entry, so at no
  cost and no fee a trader without one is refused
  (`Acceptance.BuyAccepted`, `Acceptance.SellAccepted`).
- The refusal of fractional and exponent literals never decides anything: the big-integer reader
  refuses the same texts (`LiteralText.FractionCheckIsRedundant`).
- Kind selector 14 is commented as Gate/Reject/Security, and the fuzz README says Gate and Decision
  seeds reach either branch. The code makes selector 14 External/Reject, and no seed reaches a Gate
  or Decision book on Reject (`SeedCodec.SelectorFourteenIsExternal`, `SeedCodec.KindsReachable`).
- "No two roles may pin the same genesis" is checked on the hash text. Two spellings of one hash
  that differ in letter case pass (`ChainPin.CaseHidesCollision`); the exact condition is
  `ChainPin.DistinctGenesisExactly`.
- The header decoder takes two longer spellings of block number 0 besides the canonical one
  (`ChainPin.AcceptedHeaders`).

## Model

| member | source | states |
|---|---|---|
| Oracle.OracleBudget.Count | fuzz/src/lib.rs:74-80 | counts a node, or reports `TooManyCalls` on overflow (counter kept) or past the limit (counter advanced) |
| Oracle.OracleBudget.Enter | fuzz/src/lib.rs:82-88 | opens a level, or reports `TooDeep` with the depth left one too high unless it was saturated |
| Oracle.OracleWalk | fuzz/src/lib.rs:112-159 | same verdict, error variant and call count as the scan of the pre-order trace; depth restored, except one too high after `TooDeep` |
| Oracle.OracleMany | fuzz/src/lib.rs:161-176 | the bracketed scan of all children, stopping at the first failing child |
| Oracle.OracleWrapped | fuzz/src/lib.rs:178-188 | the bracketed scan of one child |
| Oracle.OracleValidate | fuzz/src/lib.rs:96-98 | the verdict of the whole trace from an empty budget |
| Oracle.OracleValidateBatch | fuzz/src/lib.rs:101-110 | one budget shared by all top-level calls: the verdict of their concatenated traces |
| AdmissionTheorems.VerdictIsFirstFailure | fuzz/src/lib.rs:419-433 | the reported error is that of the first failing event of the trace |
| AdmissionTheorems.WalkAdmitsExactly | fuzz/src/lib.rs:112-305 | from any budget: accepted iff calls plus node count, depth plus container depth (unless it is 0) and admissibility all fit; then depth is restored and calls grow by the node count |
| AdmissionTheorems.ExhaustedDepthAdmitsLeaf | fuzz/src/lib.rs:82-88 | concrete budget past the depth limit from which a leaf is still accepted |
| AdmissionTheorems.WrappingCount | fuzz/src/lib.rs:224-240 | the count in wrapping `u32` arithmetic is the exact count modulo 2^32 |
| AdmissionTheorems.OracleMatchesIndependent | fuzz/src/lib.rs:214-218 | the walk accepts iff the independent form accepts and the tree has fewer than 2^32 nodes |
| AdmissionTheorems.WrappedCountAcceptsTooMuch | fuzz/src/lib.rs:224-240 | a concrete tree on which the wrapped independent form accepts and the walk refuses |
| AdmissionTheorems.BatchAdmitsExactly | fuzz/src/lib.rs:468-481 | a batch is accepted iff summed counts, each call's depth and each call's admissibility are in bounds |
| AdmissionTheorems.BatchMatchesIndependent | fuzz/src/lib.rs:459-481 | the shared-budget walk agrees with the independent batch form below 2^32 nodes |
| AdmissionTheorems.AcceptedWithoutOriginIsSafe | fuzz/src/lib.rs:451-535 | under any pinned tables, accepted with no origin: no Nobody leaf, no privileged leaf outside a scheduler, none below any proxy or multisig wrapper even through a scheduler |
| AdmissionTheorems.ProductionIsPinned | crates/origins-core/src/lib.rs:95-122 | the shipped tables are pinned: with no origin exactly the public and the client domain are allowed, and no governance origin reaches the client domain |
| AdmissionTheorems.ProductionAcceptsOnlySafe | fuzz/src/lib.rs:451-456 | the same safety for the shipped limits and tables, over all twelve domains and with nothing assumed |
| AdmissionTheorems.BatchVerdictPermutes | fuzz/src/lib.rs:101-110 | the batch verdict is invariant under permutation of the calls |
| AdmissionTheorems.WrappedBatchAdmits | fuzz/src/lib.rs:137-141 | a `UtilityBatch` is accepted iff the bare batch is, with one node and one level to spare |
| AdmissionTheorems.BatchAdmitsMembers | fuzz/src/lib.rs:101-110 | an accepted batch has only accepted members |
| Verdicts.LeafVerdict | fuzz/src/lib.rs:120-130 | the verdict on a leaf by domain, table and proxied position, error variant included |
| Verdicts.OpaqueVerdicts | fuzz/src/lib.rs:145-148 | dispatch-as and derivative denied, multisig approval admitted, without looking inside |
| Verdicts.WrapperVerdicts | fuzz/src/lib.rs:136-138 | with-weight and sudo: the verdict on the inside with one node and one level spent |
| Verdicts.ProxyVerdicts | fuzz/src/lib.rs:139-144 | the four proxies and multisigs: the same, judged as proxied |
| Verdicts.SchedulerVerdict | fuzz/src/lib.rs:149-157 | refused unless it captures the values or the resolution origin, else the verdict on the inside under that origin |
| Verdicts.SchedulerAdmits | crates/origins-core/src/lib.rs:263-270 | admitted iff it captures one of the two origins and the inside is admitted under it with one node and one level to spare |
| Verdicts.BatchVerdicts | fuzz/src/lib.rs:131-135 | the three batches: the verdict on the siblings with one node and one level spent |
| Verdicts.SiblingVerdicts | fuzz/src/lib.rs:161-176 | the first error stops the siblings; an accepted one spends its nodes and no level |
| Verdicts.NodesOf | fuzz/src/lib.rs:224-240 | every node counts once, inside denied wrappers too |
| Verdicts.AcceptedHoldsNone | crates/origins-core/src/lib.rs:230-276 | whatever the origin and tables, an accepted tree holds nowhere a Nobody leaf, a dispatch-as or derivative, or a scheduler capturing another origin |
| Verdicts.AcceptedBatchHoldsNone | crates/origins-core/src/lib.rs:214-223 | the same for an accepted payload |
| Verdicts.ContainsNobodyIsOccurs | fuzz/src/lib.rs:497-513 | the search for a Nobody leaf finds it iff it occurs |
| Verdicts.ProductionLimits | crates/origins-core/src/lib.rs:173-188 | the shipped limits are sixteen calls and four levels |
| Verdicts.OriginsReach | crates/origins-core/src/lib.rs:95-122 | which domains each of the eight origins reaches, which none needs, and which are privileged |
| Verdicts.OriginsAreDisjoint | crates/origins-core/src/lib.rs:95-122 | two different origins share no domain but the public one |
| SafetyFilter.Budget.Leave | crates/origins-core/src/lib.rs:179-181 | closes a level, saturating at zero |
| SafetyFilter.ValidateInner | crates/origins-core/src/lib.rs:230-276 | the shipped recursion: verdict, error variant and call count of the scan; depth restored on success, never below its start on failure |
| SafetyFilter.ValidateMany | crates/origins-core/src/lib.rs:278-290 | the bracketed scan of all children, leaving the level only on success |
| SafetyFilter.ValidateWrapped | crates/origins-core/src/lib.rs:292-302 | the bracketed scan of one child, leaving the level whatever the result |
| SafetyFilter.Validate | crates/origins-core/src/lib.rs:201-204 | for every origin and tree the same verdict and error variant as the walk |
| SafetyFilter.ValidateBatch | crates/origins-core/src/lib.rs:214-223 | for every payload the same verdict and error variant as the shared-budget walk |
| SafetyFilter.AssertWrapperCase | fuzz/src/lib.rs:414-482 | every assertion of the differential check holds on a payload iff no independent verdict accepts a count that wrapped |
| Generator.DomainsDrawn | fuzz/src/lib.rs:351-365 | the drawn domains are all but the client domain, by their position modulo eleven |
| Generator.ArbitraryCall | fuzz/src/lib.rs:367-412 | for every outcome of its choices: at most six levels below the root, and nodes bounded by four for each unit of budget spent |
| Generator.ArbitraryRoots | fuzz/src/lib.rs:314-327 | one to four roots under one budget: at most 100 nodes and six levels |
| Generator.GeneratedFormsAgree | fuzz/src/lib.rs:414-482 | on what the generator makes, walk and independent form agree on the batch and on each call |
| Ledger.PutRefines | fuzz/src/lib.rs:946-967 | overwriting or appending one entry keeps one entry a key and updates the map at that key |
| Ledger.MockLedger.Balance | fuzz/src/lib.rs:939-944 | the mapped balance, or zero |
| Ledger.MockLedger.Credit | fuzz/src/lib.rs:946-957 | adds, fails only on overflow, opens no entry for zero |
| Ledger.MockLedger.Debit | fuzz/src/lib.rs:959-967 | succeeds iff an entry exists and covers the amount, so a zero debit of an absent key fails |
| Ledger.MockLedger.DoTransfer | fuzz/src/lib.rs:969-972 | debit, then credit, with the partial state on failure |
| Ledger.MockLedger.DoSplit | fuzz/src/lib.rs:1069-1078 | credits both branches' USDC in order, stopping at the first failure |
| Ledger.MockLedger.DoMerge | fuzz/src/lib.rs:1132-1141 | debits Accept then Reject; a failing Reject leaves Accept debited |
| Ledger.MockLedger.DoSplitScalar | fuzz/src/lib.rs:1090-1106 | USDC into a Long and Short pair, as its move script |
| Ledger.MockLedger.DoMergeScalar | fuzz/src/lib.rs:1143-1158 | a Long and Short pair back into USDC, as its move script |
| Ledger.MockLedger.DoSplitGate | fuzz/src/lib.rs:1108-1125 | USDC into a YES and NO pair, as its move script |
| Ledger.MockLedger.DoMergeGate | fuzz/src/lib.rs:1160-1176 | a YES and NO pair back into USDC, as its move script |
| Ledger.MockLedger.DoSplitBaseline | fuzz/src/lib.rs:1127-1130 | mints a baseline pair, as its move script |
| Ledger.MockLedger.DoMergeBaseline | fuzz/src/lib.rs:1178-1181 | burns a baseline pair, as its move script |
| PartialFailures.SplitStopsAfterAccept | fuzz/src/lib.rs:1069-1141 | a split that fails on Reject has credited Accept, a merge that fails on Reject has debited it |
| PartialFailures.BaselineStopsAfterLong | fuzz/src/lib.rs:1127-1181 | the same for Long before Short on a baseline |
| PartialFailures.TransferStopsAfterDebit | fuzz/src/lib.rs:969-972 | a transfer whose receiver overflows has debited the sender |
| PartialFailures.SplitLegsStops | fuzz/src/lib.rs:1090-1125 | a branch split stops after the USDC, or after Long or YES |
| PartialFailures.MergeLegsStops | fuzz/src/lib.rs:1143-1176 | a branch merge stops after Long or YES, or after both legs |
| Conservation.RunChangesTotal | fuzz/src/lib.rs:946-972 | a completed script changes the total of any position family by the script's net, over all owners |
| Conservation.OpIsBalanced | fuzz/src/lib.rs:1068-1181 | every operation adds equally to both legs of every pair and to both branches' backing what it splits or merges |
| Conservation.LedgerLaws | fuzz/src/lib.rs:1068-1181 | in every run with failed composites rolled back: Long equals Short, YES equals NO, baseline legs equal, and backing on Accept and Reject both equal net split minus merged |
| Conservation.FailedMergeUnbalances | fuzz/src/lib.rs:1132-1141 | in a reachable ledger with equal branch totals, a merge that finds Reject missing leaves, unless rolled back, Accept short by the whole amount |
| Conservation.MergeUndoesSplit | fuzz/src/lib.rs:1069-1181 | a merge right after its split restores every balance; refused iff the amount is zero and a leg has no entry |
| Conservation.TransferToSelf | fuzz/src/lib.rs:969-972 | needs the balance, changes nothing |
| Book.BuyOpsAt | crates/market-core/src/lib.rs:2157-2305 | a buy adds its cost to both book legs, takes the amount from one, leaves liquid USDC unchanged, on every kind |
| Book.SellOpsAt | crates/market-core/src/lib.rs:2306-2477 | a sell drains its gross proceeds from both book legs and returns the amount to one, on every kind |
| Book.BranchBuySettles | crates/market-core/src/lib.rs:2157-2268 | the fee ends with the fees account on both branches, the mirror of the cost with the trader and nothing on the traded branch, the side delivered |
| Book.BranchSellSettles | crates/market-core/src/lib.rs:2306-2433 | the fee ends with the fees account; the net, less what merges with the trader's mirror USDC, with the trader; both branches lose the matched part |
| Book.BaselineSettles | crates/market-core/src/lib.rs:2269-2477 | a baseline buy's fee becomes a pair of the fees account; on a sell the net becomes pairs of the trader and the fee stays outside every position |
| Book.PlannedExactly | crates/market-core/src/lib.rs:1370-1560 | an order is planned iff it is quoted and cost with fee, accrued fees and quantity stay in range |
| Book.SidesByKind | fuzz/src/lib.rs:1002-1021 | which position each side is on each kind of book, as delivered by a buy and taken back by a sell |
| BookTheorems.AttemptKeepsInventory | fuzz/src/lib.rs:1420-1440 | after an accepted or rolled-back trade, leg plus liquid equals funded plus inventory minus q on both sides, for any quotes |
| BookTheorems.RunTelescopes | fuzz/src/lib.rs:1408-1415 | over any run, revenue, inventory and the trader's net payment each rise at least as much as the cost function |
| BookTheorems.RunIsSolvent | fuzz/src/lib.rs:1391-1454 | every run from any seeded book, locked branch USDC included: gross revenue never negative, exact inventory identity and never negative, one-sided drain within the headroom, locked USDC untouched |
| BookTheorems.NoProfit | fuzz/src/lib.rs:1456-1490 | any run, from any state, that returns to its starting quantities pays the trader no profit net of fees |
| BookTheorems.SellMergesAllItCan | crates/market-core/src/lib.rs:2413-2433 | an accepted branch sell splits its net into a rise on the traded branch and a fall on the other, with a rise only if the other is used up |
| BookTheorems.FeesAreHeld | crates/market-core/src/lib.rs:1370-1560 | over any run of a branch book, the accrued fees rise by exactly what the fees account receives on the traded branch |
| Acceptance.BuyAccepted | crates/market-core/src/lib.rs:2157-2305 | a buy goes through iff no credit overflows, the leg with the cost split into it covers the amount and, only if it costs nothing, the entries it debits exist |
| Acceptance.SellAccepted | crates/market-core/src/lib.rs:2306-2477 | a sell goes through iff no credit overflows, the trader holds the amount and both legs cover the proceeds, zero proceeds included; the final merge never refuses |
| Harness.SeedFunds | crates/market-core/src/lib.rs:1566-1688 | seeding goes through iff there is headroom, and puts it on both legs with as much again in locked branch USDC for an external book and none otherwise |
| Harness.ExternalSeeded | crates/market-core/src/lib.rs:109-147 | both books of an external pair are funded alike and the funder keeps no USDC on either branch |
| Harness.BuyNeverShort | fuzz/src/lib.rs:1391-1454 | in a reachable state of any kind of book a soundly quoted buy is refused by nothing but an overflow or, at no cost, a missing entry |
| Harness.LegAfterRun | fuzz/src/lib.rs:1417-1440 | the leg alone equals its seeded amount plus inventory minus q, so the locked USDC of an external book is never drawn on |
| Harness.RoundTripGoesThrough | fuzz/src/lib.rs:1456-1490 | buying from a fresh book and selling back, at any proceeds: only an overflow refuses the sell, q returns to zero, no profit |
| Harness.CashIsBacked | crates/market-core/src/lib.rs:1370-1560 | over any run, net USDC split into the traded proposal equals paid minus received plus the trader's unmatched branch USDC; every other proposal takes in nothing |
| Harness.HarnessObeysLedgerLaws | fuzz/src/lib.rs:1320-1370 | from seeding on, every state of a run on any kind of book obeys the ledger laws; the backing of both branches is the seeded amount plus paid minus received plus the unmatched branch USDC |
| Harness.AssumptionsSatisfiable | fuzz/src/lib.rs:1408-1415 | a cost function and quotes exist that meet every assumed condition |
| Harness.SellOnLedger | crates/market-core/src/lib.rs:2306-2433 | payout, then the mirror balance read, then the merge: the same script as with the balance read at the start |
| Harness.BuyBook | crates/market-core/src/lib.rs:1370-1468 | quote, ledger script, quantity and accrued fees, each checked: succeeds iff the abstract step is accepted, and then is it |
| Harness.SellBook | crates/market-core/src/lib.rs:1472-1560 | the same for a sell |
| Harness.AtomicTrade | fuzz/src/lib.rs:1320-1370 | whole trade or unchanged book and ledger, exactly the abstract step |
| Harness.SeededBook | fuzz/src/lib.rs:1268-1304 | a fresh book and ledger of any kind in exactly the seeded state |
| Harness.StepMoves | fuzz/src/lib.rs:1510-1550 | one turn: no change if too little may be sold or the book refuses, else the operation's own side moves by the stated floor, up on a buy and down on a sell |
| Harness.DriveAppend | fuzz/src/lib.rs:1510-1510 | operations are taken in the order given |
| Harness.NextOrder | fuzz/src/lib.rs:1517-1534 | the order a parsed operation becomes, reading the trader's live holding for a sell |
| Harness.TakeStep | fuzz/src/lib.rs:1510-1554 | one turn on the mutable book and ledger with its accumulators is one step |
| Harness.RoundTripSettles | fuzz/src/lib.rs:1456-1490 | after a round trip: q back at zero, the sale nets no more than the purchase cost, and the book is solvent |
| Harness.AssertRoundTrip | fuzz/src/lib.rs:1456-1490 | passes, with those assertions made on the way, iff neither half is refused |
| Harness.DriveTrades | fuzz/src/lib.rs:1500-1560 | the loop over mutable book and ledger ends exactly where the pure run of its trades does, solvent after every trade |
| Harness.AssertLmsrCase | fuzz/src/lib.rs:1492-1563 | the round trip and then the loop, for every kind of book |
| Quantiser.AmountInRange | fuzz/src/lib.rs:1306-1309 | amounts stay between the minimum trade and a quarter of b, both ends attained |
| Quantiser.AmountIsFloor | fuzz/src/lib.rs:1306-1309 | the amount above the minimum is the exact floor of its share |
| Quantiser.AmountMonotone | fuzz/src/lib.rs:1306-1309 | larger selectors never give smaller amounts |
| Quantiser.SellWithinHolding | fuzz/src/lib.rs:1311-1318 | a sell is offered iff a minimum trade is held and allowed, and never exceeds what is held |
| Quantiser.SellAmountIsFloor | fuzz/src/lib.rs:1311-1318 | both end points, and the exact floor between them |
| Quantiser.SellAmountMonotone | fuzz/src/lib.rs:1311-1318 | monotone in the selector and in what is held |
| Quantiser.SelectorIsFloor | fuzz/examples/generate_corpus.rs:35-41 | the inverse quantiser is an exact floor |
| Quantiser.SelectorMonotone | fuzz/examples/generate_corpus.rs:35-41 | larger amounts never give smaller selectors |
| Quantiser.SelectorFits | fuzz/examples/generate_corpus.rs:35-41 | the selector fits `u16` iff the scaled amount is below one step past the cap; always up to b/4 |
| Quantiser.SelectorThenAmount | fuzz/examples/generate_corpus.rs:35-41 | amount to selector and back never exceeds the amount and loses less than one step and one unit |
| Quantiser.AmountThenSelector | fuzz/src/lib.rs:1306-1309 | selector to amount and back never overshoots and loses less than the stated step |
| Quantiser.FixedIsExactFloor | fuzz/src/lib.rs:1382-1389 | the split conversion equals floor(v * 2^64 / USDC), refused iff the whole units pass `u64` |
| Quantiser.FixedStrictlyIncreasing | fuzz/src/lib.rs:1382-1389 | the conversion is strictly increasing, so injective |
| SeedCodec.ParsedReads | fuzz/src/lib.rs:892-923 | for any bytes: the subsidy by residue and range, flags in bit 0, selectors, number and place of the records |
| SeedCodec.ReadsOnce | fuzz/src/lib.rs:892-923 | those conditions leave one case |
| SeedCodec.FromSeedBytes | fuzz/src/lib.rs:892-923 | the parser with its loop returns the case that any bytes read as |
| SeedCodec.PrintableExactly | fuzz/examples/generate_corpus.rs:35-52 | exactly which arguments the printer takes |
| SeedCodec.TradeSeed | fuzz/examples/generate_corpus.rs:43-52 | the printer loop writes offset, round-trip selector and records |
| SeedCodec.TradeSeedKind | fuzz/examples/generate_corpus.rs:59-70 | ORs the shifted selector into byte 10: the flag stays, seven bits of the selector sit above it |
| SeedCodec.SeedRoundTrip | fuzz/src/lib.rs:887-923 | parsing a printed seed yields the subsidy modulo its range, Decision/Accept, the selector and the first 24 operations |
| SeedCodec.SeedRecovered | fuzz/src/lib.rs:887-923 | the seed is recovered iff b is at most 10,000,000 USDC and there are at most 24 operations |
| SeedCodec.KindSeedRoundTrip | fuzz/examples/generate_corpus.rs:53-70 | a kind selector changes only the book kind, is read back modulo 128, and is lost without a record |
| SeedCodec.KindsReachable | fuzz/src/lib.rs:853-885 | exactly which kind each selector row names |
| SeedCodec.SelectorFourteenIsExternal | fuzz/examples/generate_corpus.rs:54-58 | selector 14 is External/Reject, not Gate/Reject/Security |
| BundleBudget.WeighCriticalPath | app/tools/check-bundle-budget.ts:101-122 | terminates on cyclic graphs, weighs exactly the reachable chunks once each, fails only on a reachable missing chunk |
| BundleBudget.RowsAddUp | app/tools/check-bundle-budget.ts:101-122 | the rows of the report add up to the weight |
| BundleBudget.BudgetOfOneChunk | app/tools/check-bundle-budget.ts:83-152 | one chunk passes iff its compressed size is at most 450,000 bytes |
| BundleBudget.Gate | app/tools/check-bundle-budget.ts:83-152 | passes iff there is an entry, every reachable chunk exists and their sum is within the hard limit; warns iff past the target |
| BundleBudget.EntriesAreASet | app/tools/check-bundle-budget.ts:87-102 | the verdict and total do not depend on entry order or duplicates |
| BundleBudget.PreloadIsFree | app/tools/check-bundle-budget.ts:91-93 | adding an entry that was reachable anyway changes nothing |
| LiteralText.CharactersOfLiterals | app/tools/check-chain-literals.ts:234-247 | digits of each base and the six prefixes, by character |
| LiteralText.CleanedExactly | app/tools/check-chain-literals.ts:238-238 | one final `n` and every separator are dropped, nothing else |
| LiteralText.ReadsExactly | app/tools/check-chain-literals.ts:236-247 | a literal reads as a number iff, without suffix and separators, it consists of digits of its base |
| LiteralText.FractionCheckIsRedundant | app/tools/check-chain-literals.ts:239-241 | the fraction check refuses only what the big-integer reader refuses |
| LiteralText.SeparatorIgnored | app/tools/check-chain-literals.ts:238-238 | a separator anywhere but at the end changes nothing |
| LiteralText.SpellingsAgree | app/tools/check-chain-literals.ts:234-247 | decimal or prefixed, number or big integer: all spellings of one number read as it |
| ChainLiterals.PowerLaws | app/tools/check-chain-literals.ts:260-280 | powers add up in the exponent, from the base itself |
| ChainLiterals.FoldIsExact | app/tools/check-chain-literals.ts:234-280 | folding answers iff the expression is arithmetic over readable literals with exponents below 1024, and then exactly |
| ChainLiterals.NormaliseSnoc | app/tools/check-chain-literals.ts:191-193 | identifiers are compared on letters, lowered, and digits only |
| ChainLiterals.CoversAtBoundary | app/tools/check-chain-literals.ts:292-310 | an exemption prefix covers a path iff it is that path or ends at a path separator in it |
| ChainLiterals.FoldedHasNoBinding | app/tools/check-chain-literals.ts:368-384 | what rule B prunes contains no binding |
| ChainLiterals.Scanner.Visit | app/tools/check-chain-literals.ts:340-385 | the traversal appends exactly the reports of the pruned pre-order walk |
| ChainLiterals.Deduplicate | app/tools/check-chain-literals.ts:388-391 | one finding for each file, line and rule: the last one, standing where its key first turned up |
| LiteralReport.DistinctiveHolds | app/tools/check-chain-literals.ts:321-330 | the value table holds each listed value that is distinctive, for the last constant that lists it |
| LiteralReport.ByNameHolds | app/tools/check-chain-literals.ts:323-324 | the name table holds the last constant of each normalised name |
| LiteralReport.Scan | app/tools/check-chain-literals.ts:319-392 | the report of a scan: one finding for each file, line and rule that visiting the files turns up, in first-seen order |
| LiteralReport.FrozenValueIsFound | app/tools/check-chain-literals.ts:361-391 | a literal or operator expression with a listed distinctive value that no covering group exempts is found at its line or that of such an expression around it |
| LiteralReport.FrozenNameIsFound | app/tools/check-chain-literals.ts:341-359 | a binding of a listed name to a constant that no covering group exempts is found at its line, pruning notwithstanding |
| LiteralReport.FoundIsFrozen | app/tools/check-chain-literals.ts:340-386 | every finding is such a value or binding, in the file and at the line it names, with the last constant listed for it |
| ReleaseTree.SortKeeps | tools/ci/check-release-reproducibility.py:112-113 | sorting is ascending and keeps the paths |
| ReleaseTree.LeqByFirstDifference | tools/ci/check-release-reproducibility.py:112-113 | of two sorted paths the first differing character decides, a prefix first |
| ReleaseTree.FileMapGrows | tools/ci/check-release-reproducibility.py:142-150 | a file map takes any entry whose path is new |
| ReleaseTree.SerialiseSnoc | tools/ci/check-release-reproducibility.py:112-119 | each row is path, NUL, digest, newline |
| ReleaseTree.Sha256IsPrinted | tools/ci/check-release-reproducibility.py:89-90 | a digest is the lowercase print of 32 bytes |
| ReleaseTree.SerialiseInjective | tools/ci/check-release-reproducibility.py:93-120 | different row lists have different bytes, given no NUL in paths and no newline in digests |
| ReleaseTree.TreeBytesFaithful | tools/ci/check-release-reproducibility.py:93-120 | tree bytes are equal iff the file maps are, in whatever order they were written |
| ReleaseTree.Sha256RowsFramed | tools/ci/check-release-reproducibility.py:89-120 | with sha256 digests only the paths need to be free of NUL |
| ReleaseTree.TreeDigest | tools/ci/check-release-reproducibility.py:109-120 | refuses an empty map or names a path without a sha256 digest, otherwise hashes the tree bytes |
| ReleaseTree.CompareRecipeAxes | tools/ci/check-release-reproducibility.py:158-198 | no failure iff every recipe axis is recorded on both sides with one value |
| ReleaseTree.TwoEnvironmentsExactly | tools/ci/check-release-reproducibility.py:158-248 | ids differ, axes match, the source date epoch is recorded on both sides with one value, and another axis is known on both with two |
| ReleaseTree.CompareEnvironments | tools/ci/check-release-reproducibility.py:201-248 | no failure iff ids differ, axes match, the recipe agrees and a non-recipe axis has two known unequal values |
| ReleaseTree.CompareFiles | tools/ci/check-release-reproducibility.py:251-264 | names, in order and once each, exactly the paths on which the maps disagree |
| ReleaseTree.CompareBuilds | tools/ci/check-release-reproducibility.py:291-318 | each build failure is listed iff its own comparison fails |
| ReleaseTree.Check | tools/ci/check-release-reproducibility.py:267-325 | refused iff a manifest is malformed; otherwise no failure iff the release is reproduced |
| ReleaseTree.ReproducedSymmetric | tools/ci/check-release-reproducibility.py:267-325 | the verdict is symmetric in the two manifests |
| ReleaseTree.ReproducedIsByteIdentical | tools/ci/check-release-reproducibility.py:267-325 | a passing pair has equal tree bytes and one declared digest |
| ChainPin.HexRoundTrip | app/tools/dev-chain-pin.ts:120-122 | parsing printed hex gives the bytes back |
| ChainPin.ParseThenPrint | app/tools/dev-chain-pin.ts:120-151 | printing parsed hex lowers the letter case and changes nothing else |
| ChainPin.HexTextByCharacter | app/tools/dev-chain-pin.ts:116-119 | which texts are headers at all, by character |
| ChainPin.GenesisStateRoot | app/tools/dev-chain-pin.ts:116-152 | the decoder, loop included, computes the header decoding or the first refusal in order |
| ChainPin.CompactRecovered | app/tools/dev-chain-pin.ts:133-142 | the mode bits give the width and the accumulation recovers every n below 2^30 |
| ChainPin.CanonicalHeader | app/tools/dev-chain-pin.ts:123-151 | a canonical header is accepted iff the parent is zero, the block is 0 and the root is whole |
| ChainPin.MissingBytesAreZero | app/tools/dev-chain-pin.ts:133-146 | a number cut off by the end of the header reads as if zeros followed |
| ChainPin.GenesisRootPrinted | app/tools/dev-chain-pin.ts:147-151 | a canonical genesis header yields its root, printed in lowercase hex |
| ChainPin.AcceptedHeaders | app/tools/dev-chain-pin.ts:123-151 | every accepted byte string: zero parent, one of three spellings of zero, the root |
| ChainPin.PinByRole | app/tools/dev-chain-pin.ts:343-379 | the linkage and the distinct hashes, role by role |
| ChainPin.BuildDevPin | app/tools/dev-chain-pin.ts:343-392 | accepted iff every parachain names the relay and no two roles carry one hash text; a refusal names the role or the shared hash |
| ChainPin.DistinctGenesisExactly | app/tools/dev-chain-pin.ts:338-341 | roles have different genesis hashes iff no two hash texts agree up to letter case |
| ChainPin.CaseHidesCollision | app/tools/dev-chain-pin.ts:364-379 | a concrete accepted pin in which two roles share one genesis |

## Left out

- The LMSR kernel: a cost function and quotes are parameters, assumed monotone, at least either
  quantity, covered by the headroom at the origin and rounded against the trader. A quote of `None`
  stands for every refusal outside the ledger that depends only on the quantities and the order:
  phase, trade bounds, kernel domain, the price after the trade. The fee is any number the quote
  names. Slippage limits are left out, because the harness passes none. That buys strictly raise the
  cost, and the domain probes of `assert_fixed_domain`, are not modelled.
- `observe_book`: the price observations and their overflow check; quotes and last prices of a book.
- `seed_headroom`: the headroom is a parameter. The harness stops where it is zero or an external
  pair's double does not fit, so the harness methods require otherwise.
- `withdraw_book`, `withdraw_fees` and `seed_branch_pair`: the harness does not run them.
- `MarketState::try_state`, events, and the redemption methods of the ledger, which always fail.
- The harness's `i128` accumulators are unbounded integers here.
- Harness.AtomicTrade: one method for both `atomic_buy` and `atomic_sell`, whose wrappers are the same.
- `container_depth` is an exact natural number; its `u32` overflow needs a tree 2^32 levels deep.
- The execution guard, payload decoding and service settlement: their cores are not
  part of this model.
- The distribution of the random inputs: the generator's choices are nondeterministic here.
- ChainLiterals.FoldIsExact: a literal's text is the one the TypeScript parser hands over; what that
  parser does to it first is not modelled. Folded values are compared as integers, which for
  canonical decimal text is the same. Parsing the frozen table and the classification file is left out.
- BundleBudget.WeighCriticalPath: chunk sizes and import edges are given; gzip, the import regex and
  path normalisation are left out.
- ReleaseTree.TreeDigest: the hash is a parameter, and paths are sequences of code points rather than
  UTF-8 bytes. The report lines printed beside the failures are left out.
- ChainPin.BuildDevPin: starts from roles that passed their own single-role checks; JSON, file
  writing, the forbidden-path check and the light chain spec are left out.
- The remaining checkers, the runtime API declarations and the front end: plumbing or easy set equalities.
