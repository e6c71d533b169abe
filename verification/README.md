# Teller: deposits, boxes and crashes

Teller watches block chains for payments to deposit addresses and turns a full payment into the release of a
"box". The money passes through several stores that must agree although the process may stop at any point:
the scanner's bucket of deposits, the exchange's records with their per-address index and payment tracks, the
bindings of addresses to boxes, the pool of addresses, and the agent's reservations and users. This project
models that path and states what stays true over every run, with crashes, rollbacks, redeliveries and restarts.

## How it is organised

- `Common`, `Deposits`: Go's integer widths, the key order of a bolt bucket, `tx:n` identifiers and their check.
- `ScanStore`, `MatchOrder`, `ScanHistory`: the scanner's store as an object, the order of what a scan finds, and
  histories of the store compared with one clean scan.
- `FakeChain`, `ChainWalk`, `ScanLoop`, `ScanRuns`: the linked block store of `cmd/btcd`; the scanner's waits on a
  chain that grows under it; its loader and scan loop on a store that others change beside it; and what a run of the
  loop guarantees.
- `Exchange`, `ExchangeLedger`, `LedgerRuns`, `LedgerCases`: the exchange's store and the crediting transaction, an
  invariant of all its transactions in any order, what follows for money, records and totals, and runs that end badly.
- `Pipeline`, `PipelineSafety`, `PipelineFanIn`, `PipelineBounds`, `PipelineRuns`: scanners, multiplexer, receiver
  and buy step as one step machine with bounded channels and crashes.
- `PipelineMarks`, `PipelineOrder`, `PipelineProgress`: what a scanner is told and marks over such runs, the order in
  which its deposits arrive, and that the pipeline comes to rest with every deposit settled.
- `PipelineCredits`, `DoubleCredit`: how often a record is credited over such runs, and a run that credits one twice.
- `Addrs`: the address allocator, as objects and as runs of several managers on one bucket.
- `Reservations`, `ReservationSafety`, `ReservationPrices`: the reservation request as one transaction with in-memory
  copies that are not rolled back, its safety over every run, and the prices that a start brings in.
- `AddressFate`, `BlockedBoxes`: what becomes of an address, a box and a user whose reservation did not commit.
- `JointRuns`: reservations and the exchange working on the same file.
- `Tracker`: the interval tracker of `cmd/scan`.

A bolt transaction is a copy of the buckets that replaces them at commit; a failing one leaves them alone. A put
with an empty key fails. Objects whose methods change fields are classes, and each method is proved equal to a
function of the old state; the theorems are about those functions.

### The pipeline's steps

A step that is not enabled leaves the state as it is, so every list of steps is a run. `Start`, `Load`, `Push` are
the loader and the sends of scanBlock (`src/scanner/base_scanner.go:88-108`, `src/scanner/btc.go:72-98`); `ScanBlock`
is the scan transaction (`src/scanner/store.go:280-319`); `Take`, `Hand`, `Mark` are the pipe goroutine and
processDeposit (`src/scanner/base_scanner.go:116-148`, `src/scanner/base_scanner.go:317-339`); `Forward` is a
forwarding goroutine (`src/scanner/multiplexer.go:77-108`); `Receive`, `Save`, `Answer`, `Emit`, `StartReceiver`,
`Reload` are the receiver (`src/exchange/receiver.go:63-136`); `BuyTake`, `BuyCredit` are the buy step
(`src/exchange/buy.go:76-143`); `Crash` drops all that is not in a bucket; the rest are address lists, bindings and
prices changing in between.

### Where the code differs from its own words

- The write that completes a payment uses the record's `Txid` as its key (`src/exchange/buy.go:130`), and nothing
  sets it. So that transaction always fails. The key is a parameter here, `AsWritten` or `Intended` (the record's
  own identifier): the invariants are proved for both, `AsWrittenNeverReleases` says what the code does as it
  stands, and `IntendedReleasesWhenFull` what it does with the other key. The record that updateStatus returns stays
  WaitPartial in both cases (`DecideOutcome`).
- A redelivered deposit is forwarded again (`src/exchange/receiver.go:128-133`) and credited again. A record is credited
  at most as often as its deposit was saved (`CreditedAtMostSaved`), so a track is exact when each deposit was saved once
  (`ExactWhenSavedOnce`); a single credit keeps it exact exactly when the record was still WaitDecide or the value is 0
  (`CreditStaysExactIff`). After a crash both scanners, which share one store (`cmd/teller/teller.go:193-227`), load
  the same deposit, and then it is credited twice, under either key: `OneCoinPaysTwice` is that run. A release then need
  not be paid for by distinct records. `ReleaseIsEarnedIff` says, for every credit and whatever happened before it, when
  it is; `FirstCreditReleasesUnpaid` is a run in which a record credited for the first time is released unpaid.
- The amount of a track is an int64. A full track stays full under a credit of a value that is not negative exactly when
  the amount does not overflow (`StaysPaidIff`); `OverflowUnpays` is a run, with the record's own key, in which it does.
- GetUnprocessedDeposits does not look at the coin (`src/scanner/store.go:231-252`), so each scanner reloads the
  deposits of all coins.
- btcBlock2CommonBlock and skyBlock2CommonBlock leave `N` at 0 (`src/scanner/btc.go:144-147`), so two outputs of one
  transaction to watched addresses, equal or different, share an identifier: only the first is stored and the other
  payment is lost. A scan of a block stores every payment in it exactly when no transaction of the block has two of them
  and none has one stored before (`BlockKeepsAllIff`, over runs `ScanKeepsAllIff`). `SecondOutputIsLost` and
  `EqualOutputIsLost` are blocks of a linked chain that lose one.
- IsBound reads a bucket that nothing writes. No binding is ever refused for it; that a box has one address comes
  from the reservations alone (`ReservationsAgree`).
- NewAddressWithTx shortens the pool at once, and AddScanAddress has its own transaction that is never rolled back
  (`src/exchange/receiver.go:198`, `src/scanner/store.go:195-199`). So a reservation that fails after that point loses its
  address for good: a start puts it back into the pool, and every request that draws it is refused
  (`StrandedForever`, `RequestStrandsIff`). An unbound address of the list can still be bound exactly when it is not on the scan list
  (`CanBeBoundIff`). It never leads to a second committed issue (`NoAddressIssuedTwice`).
- Only a Bitcoin reservation stores its coin type (`src/agent/reservation.go:150-153`): the stored type is that of the
  binding exactly for Bitcoin (`StoredTypeIsBindingsIff`).
- The handler answers with success when the commit failed; the buckets are then unchanged (`HandleOutcome`).
- The cached box and user are changed before the commit. A request that fails after that leaves a free box looking
  reserved, and one whose commit fails also leaves its user at the limit; only a restart clears it
  (`RequestBlocksIff`, `RequestBlocksUserIff`, `BlockedUntilRestart`, `RestartClears`).

## Model

| member | source | states |
|---|---|---|
| `Common.KeysInOrder` | src/scanner/store.go:231-252 | the keys that ForEach visits: each key of the bucket once, in strictly ascending byte order |
| `Common.ForEachKey` | src/scanner/store.go:235-249 | walking a bucket yields exactly that order |
| `Common.WrapAdd` | src/exchange/buy.go:121 | adding to an int64 step by step is the same as wrapping the exact sum once |
| `Deposits.IdentifierInjective` | src/scanner/scanner.go:81-83 | two deposits share an identifier exactly when transaction and output number agree, for all strings and uint32s |
| `Deposits.DecimalReadsBack` | src/scanner/scanner.go:81-83 | the printed output number reads back as the same number |
| `Deposits.DecimalIsShortest` | src/scanner/scanner.go:81-83 | and has no leading zero, but for zero itself |
| `Deposits.SplitAt` | src/exchange/deposit.go:174-177 | splitting at a separator splits the two sides independently |
| `Deposits.IdentifierValidity` | src/exchange/deposit.go:170-186 | an identifier passes isValidBtcTx exactly when its transaction hash is non-empty and has no colon |
| `ScanStore.MatchesExact` | src/scanner/store.go:321-350 | a scan finds a deposit exactly when some output of some transaction of the block names a watched address, with that output's data |
| `MatchOrder.MatchesInOrder` | src/scanner/store.go:321-350 | a scan lists its finds by transaction, output and address, each place that pays a watched address once |
| `ScanStore.ScanSpecifiedBlock` | src/scanner/store.go:321-350 | the loop over transactions, outputs and addresses produces those matches in block order |
| `ScanStore.PushAllFirstWins` | src/scanner/store.go:256-268 | after storing a list, an identifier holds its old entry, else the first deposit of the list that has it |
| `ScanStore.FreshExact` | src/scanner/store.go:280-319 | what a scan returns is stored as returned and was not there before, no identifier is returned twice, every new entry is returned, old entries stay |
| `ScanStore.AllKeptIff` | src/scanner/store.go:256-319 | storing a list keeps every deposit of it as itself exactly when no two different ones, stored before or in the list, are the same output number of one transaction |
| `ScanStore.AllFreshIff` | src/scanner/store.go:280-319 | a scan makes one new entry for each match exactly when the matches are distinct outputs and none was stored before |
| `ScanStore.AllValueIff` | src/scanner/store.go:280-319 | for positive values, exactly then the value stored is the value found, and less otherwise |
| `ScanStore.UnprocessedExact` | src/scanner/store.go:231-252 | the start-up list holds a deposit exactly when it is stored and not processed |
| `ScanStore.UnprocessedInOrder` | src/scanner/store.go:231-252 | the start-up list is in the order of the identifiers |
| `ScanStore.Store.AddSupportedCoin` | src/scanner/store.go:136-146 | creates the address list of a supported coin once and never empties an existing one |
| `ScanStore.Store.GetScanAddresses` | src/scanner/store.go:149-185 | the coin's list, or the error for an unsupported or unregistered coin |
| `ScanStore.Store.AddScanAddress` | src/scanner/store.go:188-210 | appends an address that is not listed; a duplicate or a missing list changes nothing |
| `ScanStore.Store.SetDepositProcessed` | src/scanner/store.go:213-228 | marks exactly the deposit under the key as Accepted, or fails without change |
| `ScanStore.Store.GetUnprocessedDeposits` | src/scanner/store.go:231-252 | the not processed deposits, all of them, in key order |
| `ScanStore.Store.ScanBlock` | src/scanner/store.go:272-319 | stores the block's matches first-wins and returns those it stored, in one transaction; a failure changes nothing |
| `ScanHistory.HistoryIsOneScan` | src/scanner/store.go:256-319 | any history with repeats, aborts, marks and restarts stores and returns what one scan of everything found would |
| `ScanHistory.StoredAndReturnedOnce` | src/scanner/store.go:256-350 | from an empty bucket the stored identifiers are exactly those found by committed scans, and each is returned by exactly one call |
| `ScanHistory.AcceptedForever` | src/scanner/store.go:213-268 | a stored deposit keeps its data, and once Accepted it never returns to NotProcessed |
| `ScanHistory.RefinesCleanRun` | src/scanner/store.go:256-350 | with a fixed address list, any history ends like the run that scans each block once in the order of first commits |
| `FakeChain.CreateOutputs` | cmd/btcd/btcd.go:132-161 | the loop with its running index builds the outputs of the specification |
| `FakeChain.PlacedAtOwnIndex` | cmd/btcd/btcd.go:141-161 | every deposit lands at its own output index exactly when the indices strictly increase |
| `FakeChain.PlacedLength` | cmd/btcd/btcd.go:141-161 | with increasing indices there are last N + 1 outputs |
| `FakeChain.OutputsExact` | cmd/btcd/btcd.go:141-161 | with increasing indices the output at N is the deposit's and all others are zero-value padding |
| `FakeChain.BlockStore.constructor` | cmd/btcd/btcd.go:1375-1407 | the store starts with one block under its height and hash |
| `FakeChain.BlockStore.HandleGetBlock` | cmd/btcd/btcd.go:225-242 | answers with the block and a NextHash computed from the heights, or not found |
| `FakeChain.BlockStore.ProcessDeposits` | cmd/btcd/btcd.go:317-345 | links a new block behind the best one and updates height and both indexes together; without a best block nothing changes |
| `FakeChain.ExtendAdds` | cmd/btcd/btcd.go:317-345 | on a linked chain the new block is on top under its hash, with one transaction that pays the given deposits, or with none if there are none |
| `FakeChain.RunLinked` | cmd/btcd/btcd.go:317-345 | any run with fresh hashes keeps heights contiguous and BlockHashes, HashBlocks and NextHash in agreement, and only adds blocks on top |
| `FakeChain.StoredLinkIsAnswer` | cmd/btcd/btcd.go:225-242 | on a linked chain the NextHash computed for an answer is the stored one |
| `FakeChain.GenesisLinked` | cmd/btcd/btcd.go:1375-1407 | the initial store is linked |
| `ChainWalk.ConvertedIsSame` | src/scanner/btc.go:126-153 | a converted block has the node block's height, hash and transactions, each with its txid and at its position, and each output with its value, its one address and number 0; only a Bitcoin block without transactions is refused |
| `ChainWalk.AnswerIsBlock` | src/scanner/btc.go:106-153 | every answer of the node shows a block of the chain under its own hash and height, with all its transactions and outputs, and with a link exactly when a block follows |
| `ChainWalk.NextIsNext` | src/scanner/btc.go:156-174 | the next block that a poll yields has the next height of the same chain |
| `ChainWalk.ShownIsFound` | src/scanner/btc.go:156-174 | a call that gets through on a chain with the next block finds it |
| `ChainWalk.WaitForLink` | src/scanner/btc.go:182-210 | rescanning the known block ends with its link set, a shutdown, or no poll that showed a next block; converting it never fails |
| `ChainWalk.WaitForBlock` | src/scanner/sky.go:165-194 | returns the first answer that shows the next height; only a shutdown, seen before that, ends the wait otherwise |
| `ChainWalk.WaitForNextBlock` | src/scanner/btc.go:177-238 | returns the block of the next height and never an error; two polls that show it end the wait, and so do two waits that see a shutdown |
| `ScanLoop.BaseScanner.LoadUnprocessedDeposits` | src/scanner/base_scanner.go:88-108 | ends without a quit exactly when the list fits the buffer (and no shutdown comes first), and then the channel holds it all in store order |
| `ScanLoop.BaseScanner.ProcessDeposit` | src/scanner/base_scanner.go:116-148 | the list that the next start loads stays as it was, but for this deposit, and that leaves it only if the exchange answered nil |
| `ScanLoop.BaseScanner.ScanBlock` | src/scanner/btc.go:72-98 | one scan transaction, then all returned deposits are sent, or the part that fits before a shutdown |
| `ScanLoop.BaseScanner.ScanRound` | src/scanner/base_scanner.go:246-312 | a block is committed exactly when call, store and confirmations allow; the loop moves to the next height only after a commit and repeats the same block otherwise |
| `ScanLoop.BaseScanner.ScanChain` | src/scanner/base_scanner.go:228-314 | while addresses are added, answers come in and other coins are scanned beside it, the loop keeps its invariant: consecutive blocks each scanned once, in order, confirmed; unless somebody shuts it down it goes on whatever fails, and commits a block in each good round |
| `ScanLoop.BaseScanner.Run` | src/scanner/base_scanner.go:183-345 | the loop starts exactly when the start-up list fits and the node has a convertible block at the initial height; then from that height, with the channel loaded, the pipe goroutine working beside it |
| `ScanLoop.NewComesFromBlock` | src/scanner/store.go:321-350 | a deposit of the coin that a history adds has the height of one of the blocks committed for the coin |
| `ScanRuns.ScanIsGapless` | src/scanner/base_scanner.go:228-314 | the committed heights are the initial one, +1, +2 and so on, each once and of the chain; if the coin's deposits at the start were confirmed, all that are persisted are confirmed by the current block count |
| `ScanRuns.ConfirmedIff` | src/scanner/base_scanner.go:246-312 | a block has its confirmations exactly when that many blocks of the chain are above it, for Skycoin the block itself included |
| `ScanRuns.PaymentsFound` | src/scanner/btc.go:126-153 | a scan of a converted block finds exactly the payments of the node block's outputs to watched addresses, with their transaction, value, address and height |
| `ScanRuns.BlockPaymentsFound` | src/scanner/sky.go:129-153 | the same for every block that the scan loop commits |
| `ScanRuns.GivenDepositsFound` | cmd/btcd/btcd.go:132-181 | from the stand-in node's input to the scanner: with increasing indices a scan of the newest block finds exactly the given deposits to watched addresses |
| `ScanRuns.BlockKeepsAllIff` | src/scanner/btc.go:126-153 | a scan of a converted block stores every match, and for positive values their whole value, exactly when no two matches are of one transaction and none has its identifier stored before; otherwise fewer entries are made |
| `ScanRuns.ScanKeepsAllIff` | src/scanner/store.go:256-350 | over a run of the loop every find was stored and returned exactly when no two finds are the same output and none was stored before; for converted blocks, when no two are of one transaction |
| `ScanRuns.NodeBlockStoresOne` | cmd/btcd/btcd.go:132-181 | the stand-in node pays all deposits of a block in one transaction; of the newest block of a linked chain a scan stores at most one |
| `ScanRuns.SecondOutputIsLost` | src/scanner/btc.go:140-148 | when the newest block of a linked chain pays two watched addresses in one transaction, both payments are found and only the first is stored |
| `ScanRuns.EqualOutputIsLost` | src/scanner/btc.go:140-148 | two payments of 5 to one address in one transaction: 10 are found, 5 are stored |
| `Exchange.Store.BindAddressTo` | src/exchange/store.go:178-244 | binds a free address of a supported coin, or fails without change |
| `Exchange.Store.GetOrCreateDepositInfo` | src/exchange/store.go:248-325 | returns the existing record unchanged, or creates record, sequence number, index entry and track in one transaction, or fails without change; when and what is `RecordedIff`, `RecordedFields` and `NotRecordedBecause` |
| `Exchange.Store.UpdateDepositInfoCallback` | src/exchange/store.go:561-593 | writes the updated record and the callback's effect together, or neither |
| `Exchange.Store.GetDepositStats` | src/exchange/store.go:626-658 | the int64 sums over all records of each coin, and the number of records that are Done |
| `Exchange.Buy.UpdateDepositStatus` | src/exchange/buy.go:113-143 | one crediting transaction, committed or without any effect |
| `Exchange.RunningTotalExact` | src/exchange/store.go:630-650 | a running int64 total equals the wrapped exact total |
| `Exchange.DoneCountExact` | src/exchange/store.go:642-650 | the number of boxes sent is the number of records that are Done, each counted once |
| `ExchangeLedger.DecideOutcome` | src/exchange/buy.go:113-143 | a credit commits exactly when the payment stays incomplete or the completing write has a key; record and track change together; the caller sees WaitPartial |
| `ExchangeLedger.RecordFacts` | src/exchange/store.go:342-433 | every stored record has its own key, an empty Txid, and a track for its address |
| `ExchangeLedger.StepKeepsInv` | src/exchange/store.go:248-433 | every transaction keeps: records under their own identifiers and valid, sequence numbers exactly 1..n, the index duplicate-free in sequence order, a track for each recorded address, amounts equal to credits, release only when paid |
| `ExchangeLedger.RunKeepsInv` | src/exchange/store.go:248-433 | the same after every run, in any order and with any redelivery |
| `LedgerRuns.ConservationByRecord` | src/exchange/buy.go:113-143 | a track holds the int64 of the sum of its address's credits; that sum is the value of the records that left WaitDecide when none of the address was credited twice, and never less when their values are not negative |
| `LedgerRuns.CreditStaysExactIff` | src/exchange/buy.go:113-143 | a credit keeps the credits of its address equal to the value of the credited records exactly when the stored record is still WaitDecide or its value is 0 |
| `LedgerRuns.ReleasedIsPaidByRecords` | src/exchange/buy.go:113-143 | when no record of the address was credited twice, a release is paid for by distinct records |
| `LedgerRuns.ReleaseIsEarnedIff` | src/exchange/buy.go:113-143 | for any credit, after double credits and overflows too: distinct records pay for the track afterwards exactly when they do before, with this record's value if it is still WaitDecide; and the credit releases unpaid exactly when that falls short while the int64 amount does not |
| `LedgerRuns.ReleasedIsPaid` | src/exchange/buy.go:113-143 | after every run a WaitSend record has a track with deposited at least required, repeated credits included, when no credit of its address is negative and their sum stays below 2^63 |
| `LedgerRuns.StaysPaidIff` | src/exchange/buy.go:113-143 | a full track stays full under one more credit that is not negative exactly when the amount does not overflow int64 |
| `LedgerCases.OverflowUnpays` | src/exchange/buy.go:121 | with the record's own key, which the code does not use, a concrete run after which a released record's track is short because the amount overflowed |
| `LedgerCases.FirstCreditReleasesUnpaid` | src/exchange/buy.go:113-143 | with the record's own key, a concrete run that releases a record at its first credit at a price of 3 while distinct records add up to 2 |
| `LedgerRuns.AsWrittenNeverReleases` | src/exchange/buy.go:124-134 | with the key as it is written, no run ever releases a record, and every track that requires something holds less than that |
| `LedgerRuns.IntendedReleasesWhenFull` | src/exchange/buy.go:113-143 | with the record's own key every credit commits, and it releases exactly when the track is then full |
| `LedgerRuns.RunExtends` | src/exchange/store.go:413-433 | no run changes a record's data or number, a track's box or required amount, or a binding |
| `LedgerRuns.RecordedIff` | src/exchange/store.go:248-386 | a new deposit is recorded exactly when its coin is supported, its address is bound in it to a non-empty box, its value is not 0, and for Bitcoin its hash is non-empty without a colon (and the box has a price or the address its track) |
| `LedgerRuns.NotRecordedBecause` | src/exchange/deposit.go:111-186 | which error a new deposit that is not recorded gets: the first of these conditions that fails |
| `LedgerRuns.RecordedFields` | src/exchange/store.go:248-433 | a new record carries the deposit's data, its binding's box and the next number; the index of the address gains it at the end, and a first deposit makes a track at the box's price in its coin |
| `LedgerRuns.AcceptableIff` | src/exchange/deposit.go:111-186 | the deposits that the record's check accepts, in terms of deposit and binding alone |
| `LedgerRuns.BoundIff` | src/exchange/store.go:178-244 | an address can be bound exactly when its coin is supported and it is free and not empty, and then under its coin and address to this box |
| `LedgerRuns.FeedOutcome` | src/exchange/store.go:248-325 | feeding any list leaves the old records plus one for each identifier with an acceptable deposit, made from the first such deposit |
| `LedgerRuns.FeedIgnoresRepeatsAndOrder` | src/exchange/store.go:248-325 | feeding the same deposits with any repeats in any order records the same |
| `LedgerRuns.CoinTotalOrder` | src/exchange/store.go:626-658 | a coin's total does not depend on the order in which records are visited |
| `LedgerRuns.TotalCountsEachRecordOnce` | src/exchange/store.go:626-658 | through every run a coin's total grows by each first recording and by nothing else |
| `Pipeline.WaitDecideExact` | src/exchange/receiver.go:63-102 | the receiver's start-up list holds a record exactly when it is stored as WaitDecide |
| `Pipeline.WaitDecideInOrder` | src/exchange/receiver.go:63-102 | that list is in the order of the identifiers |
| `PipelineMarks.AnswerOutcome` | src/exchange/receiver.go:104-136 | in every reachable state in which a saved deposit waits for its answer, its scanner waits for exactly it and is told nil if the deposit has a record and an error otherwise; only then is the record forwarded |
| `PipelineMarks.MarkOutcome` | src/scanner/base_scanner.go:116-148 | in every reachable state in which a scanner has its answer: nil sets exactly this deposit to Accepted, an error adds exactly it to the refused ones, and nothing else changes |
| `PipelineMarks.AcceptedIff` | src/scanner/store.go:213-228 | in every reachable state a deposit is Accepted exactly when some scanner was told nil about it and marked it, in this run or before a crash |
| `PipelineMarks.ReloadedIff` | src/scanner/store.go:231-252 | a start loads a stored deposit exactly when no scanner ever took nil for it, so one that was answered nil and marked is in no later list |
| `PipelineMarks.RefusedIff` | src/scanner/base_scanner.go:116-148 | a deposit is refused exactly when some scanner took an error for it since the last crash |
| `PipelineMarks.RefusedHadNoRecord` | src/exchange/receiver.go:104-166 | a refused deposit had no record when the receiver answered for it, after the last crash and before its scanner gave it up |
| `PipelineMarks.FailedIff` | src/exchange/buy.go:76-143 | a record counts as failed exactly when, since the last crash, a credit of it would have completed the payment with the key as it is written; with the record's own key there is none |
| `PipelineSafety.ScanSafe` | src/scanner/store.go:280-319 | whatever a scan adds is held by its scanner from then on |
| `PipelineRuns.ScanOutcome` | src/scanner/store.go:280-319 | a scan in the pipeline stores every match of the block first-wins, keeps what was stored, and gives exactly the new ones to the scanner |
| `PipelineRuns.WatchOutcome` | src/scanner/store.go:188-210 | watching an address appends it to the list of a registered coin unless it is there |
| `PipelineSafety.SaveSafe` | src/exchange/receiver.go:104-166 | saving keeps the scanner's and the exchange's buckets in agreement |
| `PipelineFanIn.StepFanIn` | src/scanner/multiplexer.go:77-108 | every step keeps each scanner's notes in order, with at most one not answered |
| `PipelineFanIn.ForwardNeverBlocks` | src/scanner/multiplexer.go:77-108 | outChan holds at most one note a scanner, so with up to 1000 scanners a send into it never blocks |
| `PipelineFanIn.AnswerNeverBlocks` | src/exchange/receiver.go:104-136 | when the receiver answers, the sender waits for exactly that deposit on an empty ErrC |
| `PipelineFanIn.ReceivedIsMerge` | src/scanner/multiplexer.go:77-108 | received notes followed by outChan are a merge of what the scanners handed over, nothing lost or doubled, but for one note still being forwarded |
| `PipelineBounds.ChannelsBounded` | src/exchange/receiver.go:44-60 | in every reachable state each channel is within its capacity |
| `PipelineBounds.LoaderEndsIffFits` | src/scanner/base_scanner.go:88-108 | from any reachable state the loader ends, with the whole list queued in order, exactly when the list fits; otherwise the scanner never hands anything on |
| `PipelineBounds.StartLoads` | src/scanner/store.go:231-252 | a scanner that starts loads exactly the stored deposits not processed |
| `PipelineBounds.ReceiverLoads` | src/exchange/receiver.go:63-102 | the receiver starts with exactly the WaitDecide records to reload and changes nothing else |
| `PipelineRuns.NoDepositLost` | src/scanner/base_scanner.go:88-148 | in every reachable state an Accepted deposit has its record; as soon as any scanner is up, one not processed is in flight at a scanner that is up or was refused in this run; records come from scanned deposits; a record not credited is on its way, failed in this run, or will be reloaded |
| `PipelineOrder.FirstInFirstOut` | src/scanner/base_scanner.go:88-148 | in every reachable state what a scanner has handed over, holds, has queued and has still to send is, in this order, its start-up list and what its scans returned since it started |
| `PipelineOrder.ReceivedInOrder` | src/scanner/multiplexer.go:77-108 | what the exchange has received from a scanner is, in order, a first part of what the scanner was given |
| `PipelineProgress.BusyEnds` | src/exchange/receiver.go:63-136 | between two scans, starts or crashes only boundedly many steps change anything, however they are scheduled; so the reload ends too |
| `PipelineProgress.NoDeadlock` | src/scanner/base_scanner.go:317-339 | in every reachable state with a running receiver and start-up lists that fit, something can move as long as anything is on its way |
| `PipelineProgress.EverythingSettles` | src/exchange/receiver.go:63-136 | from every such state with a scanner up, boundedly many steps lead to rest, with every stored deposit Accepted and recorded or refused, and every record credited or failed |
| `PipelineProgress.NothingMovesIsSettled` | src/exchange/receiver.go:63-136 | and every reachable state of this kind in which no step changes anything is settled in this way |
| `PipelineCredits.CreditedAtMostSaved` | src/exchange/receiver.go:104-136 | over every run with crashes anywhere, a record is credited and still to be credited at most as often as its deposit was saved |
| `PipelineCredits.ExactWhenSavedOnce` | src/exchange/buy.go:113-143 | when no deposit of an address was saved twice in the whole history, its track holds exactly its records that left WaitDecide |
| `PipelineCredits.ReleasedIsPaidOnce` | src/exchange/buy.go:113-143 | then a record is released only when distinct records of values that are not negative, without overflow, add up to what the track requires |
| `DoubleCredit.OneCoinPaysTwice` | src/scanner/store.go:231-252 | a concrete run from a new installation: after a crash two scanners reload one deposit, it is recorded once and credited twice under either key; with the record's own key a price of twice its value releases it |
| `PipelineRuns.PipelineRefinesLedger` | src/exchange/receiver.go:104-166 | every run of the pipeline performs a run of the exchange's transactions, so the ledger theorems hold of it |
| `PipelineRuns.RunTracked` | src/exchange/receiver.go:104-136 | the whole invariant holds after every run with crashes at any point |
| `Tracker.ExistTx` | cmd/scan/scan.go:105-112 | true exactly when the transaction is in the list |
| `Tracker.FindTxs` | cmd/scan/scan.go:95-103 | the address's deposits of the block that are not listed yet, in order |
| `Tracker.UpdateAddressInfo` | cmd/scan/scan.go:123-152 | the in-place loop updates every address by the four-branch rule and nothing else; what the rule covers is `UpdateCovers` |
| `Tracker.UpdateCovers` | cmd/scan/scan.go:123-152 | after a scan of a block it is covered exactly when it was, nothing was scanned before, or it comes right after one of the two ranges; no other block changes its coverage, and min <= mid <= max stays |
| `Tracker.UpdateExact` | cmd/scan/scan.go:95-152 | scanning any block keeps the list equal to the matches of the covered blocks, also when the ranges meet |
| `Tracker.ScansExact` | cmd/scan/scan.go:95-152 | the same for all addresses after any sequence of blocks |
| `Tracker.NoneMissingNoneTwice` | cmd/scan/scan.go:95-152 | from a new wallet a transaction is listed exactly when it is in a covered block, and not twice unless its block lists it twice |
| `Tracker.FindMin` | cmd/scan/scan.go:242-251 | one more than the smallest min |
| `Tracker.FindMax` | cmd/scan/scan.go:253-262 | one more than the largest max |
| `Tracker.FindShort` | cmd/scan/scan.go:275-294 | the block after the lower range of the first address with the smallest gap that is not zero, for any wallet |
| `Tracker.MinAdvances` | cmd/scan/scan.go:325-342 | scanning the block that findMin names moves findMin on by exactly one |
| `Tracker.MaxAdvances` | cmd/scan/scan.go:344-362 | scanning the block that findMax names moves findMax on by exactly one, covers the block for every new address and every one with the largest max, and leaves the others alone |
| `Tracker.GapNeverRises` | cmd/scan/scan.go:123-152 | no scan enlarges the missing middle, and scanning behind an open lower range shrinks it |
| `Tracker.ShortStepFills` | cmd/scan/scan.go:364-382 | an update at findShort shrinks the missing middle while there is one |
| `Tracker.ShortRunCloses` | cmd/scan/scan.go:364-382 | as many such updates as there are missing blocks leave every address covering all of 1..max |
| `Addrs.FirstUnused` | src/addrs/addrs.go:146-160 | the first pool address that is not used, all before it being used |
| `Addrs.EmptyMeansUsed` | src/addrs/addrs.go:140-173 | the empty-pool error comes exactly when all pool addresses are used or an unused empty string comes first |
| `Addrs.UsedStore.Put` | src/addrs/store.go:38-47 | adds exactly this address, or fails on an empty key |
| `Addrs.Addrs.constructor` | src/addrs/addrs.go:107-137 | the pool is the listed addresses that are not used, in order |
| `Addrs.UnusedInOrder` | src/addrs/addrs.go:107-137 | the unused addresses are those at ascending positions of the list, all of them and no other |
| `Addrs.RestartRecovers` | src/addrs/addrs.go:107-137 | a manager that restarts has back every listed address that is not used, those of rolled-back transactions included |
| `Addrs.Addrs.NewAddress` | src/addrs/addrs.go:140-173 | takes the first unused address, marks it and drops all before it, or changes nothing |
| `Addrs.Addrs.NewAddressWithTx` | src/addrs/addrs.go:175-208 | the same, except that the mark goes into the caller's transaction while the check reads the committed bucket |
| `Addrs.NoAddressIssuedTwice` | src/addrs/addrs.go:107-208 | over any run of several managers with rollbacks and restarts no address is committed twice, and each listed address is in its pool, used, or taken by a rolled-back transaction since the start |
| `Addrs.TakenIsKeptIffCommitted` | src/addrs/addrs.go:175-208 | the address taken stays in this manager's pool or among the used ones exactly when the transaction commits |
| `Addrs.PoolOrUsed` | src/addrs/addrs.go:107-208 | without rollbacks every listed address is in its manager's pool or used after every run |
| `Addrs.EmptyMeansExhausted` | src/addrs/addrs.go:140-173 | after any run an empty-pool error means that every listed address is used or was taken by a rolled-back transaction |
| `Reservations.Service.constructor` | src/agent/agent.go:47-113 | start-up rebuilds the cached boxes and users from the buckets and the entries and stores new boxes only; box by box that is `RestartExact` |
| `ReservationPrices.RestartExact` | src/agent/agent.go:68-102 | after a start the cached boxes are those with an entry, with the prices of their last entry; a stored box keeps all it had, a new one is stored with status and prices of its first entry and nobody's; the cache agrees with the store in all but the prices |
| `ReservationPrices.RequestPrices` | src/agent/reservation.go:129-205 | a request changes no cached price, and the box that it stores has its cached prices |
| `ReservationPrices.PricesGivenBefore` | src/agent/agent.go:79-92 | over every run the box of a binding is stored with the prices that the last start before its reservation was given for it |
| `Reservations.Service.ReserveAddress` | src/teller/teller.go:107-123 | takes an address, binds it in the transaction and adds it to the scan list, with every early exit's effect |
| `Reservations.Service.Reserve` | src/agent/reservation.go:129-205 | changes the cached reservation and user first and the buckets last, with every early exit's effect |
| `Reservations.Service.Complete` | src/teller/handlers.go:311-353 | the outside calls, the user limit and the commit; the answer does not depend on the commit |
| `Reservations.Service.MakeReservationHandler` | src/teller/handlers.go:199-369 | the whole request equals the specified one, rollback included |
| `ReservationSafety.MakeReservationOutcome` | src/agent/reservation.go:129-205 | success means the box was available, and buckets and cache hold the same reservation for this user and address |
| `ReservationSafety.HandleOutcome` | src/teller/handlers.go:256-353 | the buckets change exactly when the request succeeds and the commit works, and then by one address, one binding, one reserved box and one user |
| `ReservationSafety.RestartOutcome` | src/agent/agent.go:68-102 | a restart needs only sound buckets, restores the cache invariant and changes no stored entry |
| `ReservationSafety.RunOutcome` | src/agent/reservation.go:129-205 | over every run a stored reservation, binding, used address and reserving user never change again |
| `ReservationSafety.ReservationsAgree` | src/teller/handlers.go:256-353 | in every reachable state used addresses are exactly the bound ones, a bound box is reserved at its only binding, owners differ, no user exceeds the limit, and stored reservations show as reserved in the cache |
| `ReservationSafety.SucceedsIff` | src/teller/handlers.go:256-353 | exactly which requests succeed: those that draw an address, take the box, and complete |
| `ReservationSafety.FailsBecause` | src/teller/handlers.go:199-369 | which error a failing request gets: that of its first obstacle |
| `ReservationSafety.BindingsHavePrices` | src/exchange/store.go:609-623 | in every reachable state each binding is well keyed and its box has a price, which is what recording a deposit relies on |
| `ReservationSafety.StoredTypeIsBindingsIff` | src/agent/reservation.go:150-153 | in every reachable state a bound box is stored with its binding's coin type exactly for Bitcoin, and with none otherwise |
| `AddressFate.StrandedForever` | src/exchange/receiver.go:188-203 | an address on the scan list that is not bound is never bound, through all requests and restarts |
| `AddressFate.RequestStrandsIff` | src/teller/handlers.go:256-353 | a request strands the address that the pool offers exactly when it draws it onto the scan list and then the verification, the box, the user, an outside call or the commit stops it |
| `AddressFate.CanBeBoundIff` | src/teller/teller.go:107-123 | an unbound listed address of an enabled coin can be bound by some run exactly when it is not on the scan list |
| `BlockedBoxes.RequestBlocksIff` | src/agent/reservation.go:129-205 | a request leaves a box that is not reserved in the store looking reserved exactly when it is for that box, takes it, and an outside call, the user's limit or the commit stops it |
| `BlockedBoxes.RequestBlocksUserIff` | src/agent/user.go:49-60 | a request leaves a user without a stored reservation at the limit exactly when it is that user's, succeeds and is not committed |
| `BlockedBoxes.BlockedUntilRestart` | src/agent/reservation.go:129-205 | no requests clear a box or a user blocked in this way |
| `BlockedBoxes.RestartClears` | src/agent/agent.go:68-102 | after a restart no box and no user is blocked |
| `JointRuns.RequiredIsReservedPrice` | src/exchange/store.go:413-433 | over every run of requests, restarts, deliveries and credits, what a track requires is the price of the box that is reserved for good at its address |
| `JointRuns.RequiredIsGivenPrice` | src/exchange/store.go:413-433 | over these runs what a track requires is the price, in the coin of the binding, that the last start before the reservation was given for the box |
| `JointRuns.RunKeepsJointInv` | src/exchange/store.go:413-433 | over these runs the invariants of reservations and of the exchange hold together, on shared bindings and prices |

## Left out

- HTTP servers, TLS, rate limits, the monitor, websocket and RPC plumbing, logging and configuration: input and output only.
- bolt and JSON encoding: buckets are typed maps, and encoding is taken to round-trip; two open writable transactions never overlap, as bolt guarantees.
- AddScanAddress opens its own transaction inside the reservation's: how the two locks meet is not modelled; the address list is a separate set that is not rolled back.
- src/exchange/send.go and src/sender: the WaitSend step is not implemented there, so nothing is said about sending or about statuses after WaitSend.
- The box API, the verification service and the price source: their answers are inputs (`World`, `Entry`), so any answer is covered.
- The UpdatedAt and OwnerAddress fields of a deposit record: a clock and a display field.
- GetDepositInfoOfKittyID and GetKittyBindAddress: they read a bucket that nothing writes; IsBound is therefore modelled as no check.
- Reservations.Service.constructor: loads each stored user under its own address, where agent.go:100-102 keeps the address of one loop variable; which user that leaves behind is decided by the compiler's loop semantics.
- The order in which channels close at shutdown: a shutdown ends the scan loop's run, and in the pipeline a crash drops all volatile state.
- BTC blocks that fail to convert later than the first time: base_scanner.go:301-311 overwrites `block` on an error; on a linked chain that error does not occur for a block scanned before (`WaitForNextBlock`), and a next block without transactions is polled again.
- Amount conversion from floating point and droplets, address decoding and base58: library code; amounts are int64 inputs.
- Heights are unbounded integers: the int32 height of the stand-in node and the int64 sum of height and confirmations do not wrap.
- Block hashes of the stand-in node: inputs that are required to be fresh, which is what hashing is relied on for.
- findMid and findFar: findFar names a block that is already scanned, so it makes no progress.
- Wallet files and address input of cmd/scan, mathutil, dbfix, dbmigrate and the dummy scanner and sender: easy or library-bound.
- Concurrent calls of one address manager: its methods hold a mutex, so calls are one at a time.
- ReleasedIsPaid: counts repeated credits as payment and assumes that the address's credits stay below 2^63; `ReleaseIsEarnedIff` counts distinct records, `StaysPaidIff` has the exact overflow condition for one credit.
- OverflowUnpays: is a run with the record's own key; with the key as it is written nothing is ever released (`AsWrittenNeverReleases`).
- ScanLoop.BaseScanner.Run: the bounded channel between the scan loop and the pipe goroutine is followed in `Pipeline`; here any answers may come in between two rounds of the loop.
