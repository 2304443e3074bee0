# Ocelot tracker: verified model

A Dafny model of the Ocelot BitTorrent tracker: the Go announce path and the C++ tracker it was ported
from, the peer-selection algorithms, the Compute Commons ledger and pricing, and the replica controller
with the parts it rests on. Each imperative operation is a method or a class proved against a pure
function, and the promises of the system are lemmas about those functions over every input, every run or
every interleaving.

| module | what it covers |
|---|---|
| `PeerKeys` | the two encodings of a (user, peer_id) pair as a peer-map key, and 32-bit counters |
| `Announce`, `AnnounceRuns`, `Accounting` | one Go announce; counters against swarms over runs; where the bytes go |
| `Interleaving` | concurrent Go announces, region by region |
| `CppTracker`, `Simulation` | the C++ swarm machine with delete, reap and reload; the Go port against it |
| `Sampling`, `Shuffle` | reservoir sampling and Fisher-Yates over all draw sequences |
| `Whitelist` | the linear whitelist and the trie that replaces it |
| `Pricing`, `Ledger` | 64-bit fixed-point prices; settlement, balances and budgets |
| `CircuitBreaker`, `BufferedWrites` | breaker and write buffer under any interleaving |
| `Heatmap` | the demand ring buffer as a sliding window |
| `Placement`, `NodeReach`, `Replicas`, `Controller` | ranking and placement, reachability, the replica lifecycle, reconcile passes |
| `LateReports`, `Fleet` | agent reports split into read and act; nodes and replicas in one run |
| `MapSums`, `Seqs`, `Options` | sums over finite maps, sequences without repetition, optional values |

## Where the code does not meet the property

The model follows the code. Where a property fails of it, a lemma gives a failing input or run and another the
exact condition, unless "Left out" says otherwise.

- Go's delete and reap leave the global and per-user counters alone, so the counters run ahead of the swarms
  (`AnnounceRuns.CountersRunAhead`) by exactly the peers lost (`AnnounceRuns.ExactIffNothingLost`).
- Two accounts with one user ID share peer keys: only the sum of their counters is right. An account's own counters
  are right over every run exactly when it is alone with its user ID (`AnnounceRuns.OwnCountersExactIff`), and
  otherwise one can wrap (`AnnounceRuns.SharedIDBreaks`).
- Two overlapping stops of the same peer are both counted while one removes it
  (`Interleaving.OverlappingStopsWrap`), and an announce that overlaps a deletion goes on counting in the orphaned
  torrent (`Interleaving.DeletionMidAnnounce`). The exact error is `Interleaving.QuietExactIff`; announces of peers
  that nothing else touches meanwhile are off by orphans and swept peers only (`Interleaving.SerialExact`).
- A key in both lists makes the port book the same bytes twice (`Accounting.DoubleBooking`). When an announce books
  the right growth, with one record or two, is `Accounting.BooksGrowthIff`; each record still telescopes on its own
  (`Accounting.ReportsTelescope`).
- The Go port and the C++ original part ways only on a `completed` with a negative `left`
  (`Simulation.NegativeLeftDiverges`, `Simulation.AnnounceAgreesIff`).
- The comment at commons/credit.go:49-51 says results beyond the safe range are clamped. The code wraps
  (`Pricing.TransferWraps`), exactly when the remainder's product or the amount leaves 64 bits
  (`Pricing.TransferExactIff`). That is also exactly when settling in pieces and settling once come apart
  (`Pricing.PiecesDifferByLessThanCountIff`), and above 57 GiB in one announce a matched transfer can mint credit
  (`Pricing.MintsNothingIff`).
- A scarcity factor that overflows when multiplied makes the price fall as leechers join
  (`Pricing.WrappedFactorFalls`), and every such factor does (`Pricing.MultiplierMonotoneIff`). So can a base price
  that overflows when scaled (`Pricing.WrappedBaseFalls`).
- `SetUserPriority` is a load and a write-back, so settlements in between are lost (`Ledger.LostUpdate`,
  `Ledger.LostUpdateIff`). `SetUserBudget` is a delete and an insert, so overlapping calls leave several caps
  (`Ledger.OverlappingBudgets`, `Ledger.RowsAreInserts`).
- A cap over all torrents is never charged, so it never tightens (`Ledger.GlobalCapNeverTightens`).
- Transaction IDs resolve to the second, so an announce settles a direction only if none of the same user, torrent
  and second did before (`Ledger.SameSecondSettlesOnce`, `Ledger.AnnounceSettlesIff`).
- A write accepted after the drain goroutine has returned is never handed over, though a later `Flush` returns
  (`BufferedWrites.FlushDrainsIff`, `BufferedWrites.LateWritesStranded`).
- A call that panics records no result. Losing the one that takes the last half-open slot wedges any breaker
  (`CircuitBreaker.OneLossWedges`); the exact condition is `CircuitBreaker.RecoversIff`.
- `GreedyPlace` looks at domains first, so it can place a node twice (`Placement.DuplicateNodePlacedTwice`), exactly
  when the node heads two of the first domains (`Placement.PlacedDistinctIff`). `RankNodes` lists no node twice.
- The lifecycle diagram at tracker/replica_class.go:51-55 lets an INVALID replica rejoin. Nothing ever makes that
  transition (`Replicas.InvalidForever`).
- Read and act of an agent report are separate locked regions. A hash_ok read before an eviction can verify the next
  copy (`LateReports.StaleReportVerifies`); provenance holds exactly when every verifying act follows a hash_ok read
  of the same copy (`LateReports.ProvenanceIff`).
- A JOIN can outlive the copy it was for and wait in the queue while its replica is ABSENT
  (`Replicas.JoinOutlivesCopy`); for each JOIN, exactly when is `Replicas.SentJoinAbsentIff`.
- The deficit of a reconcile pass leaves out replicas in flight, so passes can ask for more than the target
  (`Controller.AskedTwice`, `Controller.WithinTargetIff`).
- Nothing tells the controller that a RETIRE was carried out, so a surplus persists and every pass sends its RETIREs
  again (`Controller.SurplusPersists`, `Controller.SurplusNeverFalls`). Of the steps the code takes, only an invalid
  report and an eviction take a replica off the count (`Controller.CountShrinksIff`; a move to the ARCHIVAL class
  would as well, but nothing asks for it).
- Promotion to CACHE is documented at tracker/swarm_controller.go:256-260 for consecutive cycles. Those are enough
  (`Controller.ConsecutivePromotes`) but not needed (`Controller.PromotedWithGaps`): passes that do not consider the
  replica neither count nor break the row (`Controller.PromotedIff`).
- A hard-down breaks the grace period (`NodeReach.HardDownBreaks`) exactly on a node seen since its last flap
  (`NodeReach.SilentIff`). Only test code calls `MarkUnreachable`.

## Model

| member | source | states |
|---|---|---|
| `PeerKeys.GoKeyReadsBack` | tracker/optimize.go:214-230 | the Go key determines the user ID and the peer_id it was made from |
| `PeerKeys.DecimalReadsBack` | cpp-original/worker.cpp:314-318 | the decimal digits of a user ID read back as that ID |
| `PeerKeys.CppKeyReadsBack` | cpp-original/worker.cpp:314-318 | the C++ key determines the user ID and the peer_id it was made from |
| `PeerKeys.KeysAgree` | tracker/optimize.go:214-230 | both encodings are injective, so two announces share a key in one tracker exactly when they do in the other |
| `PeerKeys.KeyPrefixes` | tracker/optimize.go:214-230 | both keys start with one of the last eight bytes of the peer_id, the same one below torrent 16381 |
| `Announce.FindOrCreatePeer` | tracker/announce.go:441-448 | the stored peer, or a blank one for this user, is in the list afterwards, and `inserted` says which |
| `Announce.Locate` | tracker/announce.go:114-152 | the peer found or created, both lists afterwards, and each of the four counter flags, in all branches including a key in both lists |
| `Announce.Conclude` | tracker/announce.go:308-349 | stops raise the decrement of the announced side; a snatch is counted, moves the leecher over and burns the token |
| `Announce.Worker.UpdateCounters` | tracker/announce.go:154-248 | session counters, balance, freeleech and token accounting of the announce; what the records come to is Accounting.BooksHoldGrowth |
| `Announce.Worker.ApplyFlags` | tracker/announce.go:359-375 | global and per-user counters move by increments less decrements, mod 2^32 |
| `Announce.Worker.EditSwarm` | tracker/announce.go:114-387 | the flags add up to the change in presence of this key in each list |
| `Announce.Worker.Announce` | tracker/announce.go:45-431 | the tracker afterwards is the specified one for every request, and unchanged when the request is rejected |
| `AnnounceRuns.RunKeyed` | tracker/optimize.go:214-230 | over every run the user ID inside each key is the user ID of the stored peer |
| `AnnounceRuns.CountersTrackSwarms` | tracker/announce.go:308-387 | over every run of announces, additions, deletions and reaps, every counter is the swarm measure plus the peers lost, mod 2^32 |
| `AnnounceRuns.AnnouncesKeepCountersExact` | tracker/announce.go:359-387 | over every run of announces, global counters are the summed map sizes, and the counters of a user ID's accounts add up to the entries carrying it |
| `AnnounceRuns.NothingLost` | tracker/update.go:62-103 | announces and added torrents lose no peers |
| `AnnounceRuns.ExactIffNothingLost` | tracker/update.go:127-172 | a counter is exact if and only if the peers that deletion and reaping took out are a multiple of 2^32 |
| `AnnounceRuns.CountersRunAhead` | tracker/reaper.go:50-78 | in every fresh tracker with an account, adding a torrent, starting one seeder and deleting or reaping leaves a counter of one over empty swarms |
| `AnnounceRuns.AccountsKept` | tracker/announce.go:359-375 | no run changes which accounts there are or their user IDs |
| `AnnounceRuns.SoleAccountExact` | tracker/announce.go:359-375 | over every run of announces, an account alone with its user ID has exact counters of its own |
| `AnnounceRuns.SharedIDBreaks` | tracker/announce.go:359-375 | in every fresh tracker, a second account with the same user ID can leave the first counter up with its entry gone, and wrap its own |
| `AnnounceRuns.OwnCountersExactIff` | tracker/announce.go:308-387 | an account's counters are the entries carrying its user ID after every run, if and only if no other account has that ID |
| `Interleaving.CounterInvariant` | tracker/announce.go:82-387 | over every interleaving of torrent lookups, locked regions, additions, deletions and reaps, a counter is the peers listed in all torrent objects, deleted ones included, less what announces in flight owe, plus the drift |
| `Interleaving.QuietExactIff` | tracker/update.go:127-172 | with nothing in flight a counter is the live list size if and only if the peers left in deleted torrents and the drift cancel out |
| `Interleaving.SerialNoDrift` | tracker/announce.go:308-387 | if nothing else touches a peer while an announce of it is in its regions, the drift is exactly the peers swept out |
| `Interleaving.SerialExact` | tracker/reaper.go:50-78 | under that condition, whenever nothing is in flight, the counters are the live list sizes plus the peers left in deleted torrents plus those swept out |
| `Interleaving.TwoStops` | tracker/announce.go:377-387 | two overlapping stops of a listed seeder take two off the counter and one off the list |
| `Interleaving.OverlappingStopsWrap` | tracker/announce.go:377-387 | a run from the empty tracker ends with no seeders and a counter of 2^32-1 |
| `Interleaving.DeletionMidAnnounce` | tracker/update.go:127-172 | a leecher that finishes while its torrent is deleted leaves no torrent and one seeder counted |
| `Interleaving.AloneIsAtomic` | tracker/announce.go:114-387 | the regions of one announce in a row do to the lists and counters what the atomic announce does |
| `Accounting.BalanceIsNetFlow` | tracker/announce.go:154-248 | over every run a torrent's balance changes by the sum of upload less download less corrupt increases |
| `Accounting.OwnAnnounceAdvances` | tracker/announce.go:154-248 | an announce that continues a record, in either list, moves it by exactly the deltas it books |
| `Accounting.ReportsTelescope` | tracker/announce.go:154-248 | between resets the deltas booked on a record add up to its last report less its first, wherever it moves and whatever happens to another record of the same key |
| `Accounting.BooksGrowthIff` | tracker/announce.go:114-152 | with one record or two, an announce books the growth over the later record if and only if it looks in the list holding it or both grow alike |
| `Accounting.DoubleBooking` | tracker/announce.go:114-152 | alternating `left` puts a key in both lists and books the same bytes twice |
| `Accounting.DownloadsSplit` | tracker/announce.go:196-248 | over every run the raw download deltas split exactly into user-charged, token-recorded and forgiven bytes |
| `Accounting.BooksHoldGrowth` | tracker/announce.go:204-248 | over every run the uploads recorded for a user grow by that user's upload growth, report less stored record, on torrents that are not NEUTRAL, the downloads by the growth on NORMAL torrents without a token, and the bytes on a user's token by the growth there |
| `Accounting.TokenUsedUpIff` | tracker/announce.go:345-349 | a token goes if and only if its holder completes the download with bytes to book on it |
| `Accounting.StoredIsLastReport` | tracker/announce.go:154-190 | over every run a listed peer's counters are those of the last announce of its key into that list |
| `Accounting.StoredCorrupt` | tracker/announce.go:154-190 | the corrupt count is taken over at a start, kept when a counter went back, and otherwise never lowered |
| `Accounting.CompletedCounts` | tracker/announce.go:315-322 | over every run the completed count grows by one for each download completed by a peer not listed as a seeder only |
| `Accounting.FinishCountsOnce` | tracker/announce.go:123-134 | a finish repeated at once is not counted again |
| `CppTracker.CLocate` | cpp-original/worker.cpp:320-375 | peer, lists and counter flags of the C++ lookup in all branches |
| `CppTracker.CEdit` | cpp-original/worker.cpp:320-375 | the flags of an announce add up to the change in presence of this key in each list |
| `CppTracker.ReapList` | cpp-original/worker.cpp:1018-1065 | the loop keeps exactly the peers announced since the deadline and counts the others |
| `CppTracker.CppWorker.AnnouncePeer` | cpp-original/worker.cpp:645-687 | lists and counters after an announce, kept exact |
| `CppTracker.CppWorker.DeleteTorrent` | cpp-original/worker.cpp:866-891 | the torrent is gone and its peers are off the counters |
| `CppTracker.CppWorker.ReapTorrent` | cpp-original/worker.cpp:1018-1065 | one torrent is swept and the totals fall by the numbers returned |
| `CppTracker.CppWorker.ReapPeers` | cpp-original/worker.cpp:1018-1065 | every torrent is swept and the counters are exact afterwards |
| `CppTracker.CppWorker.LoadTorrents` | cpp-original/db.cpp:74-140 | torrents of the rows are added or updated, vanished ones leave with their peers, counters stay exact |
| `CppTracker.StepCounts` | cpp-original/worker.cpp:534-569 | every atomic step, including the removal of a single peer by a reap, keeps counter equal to list sizes plus what the reap has not subtracted yet |
| `CppTracker.CountersOverRuns` | cpp-original/worker.cpp:329-374 | over every interleaving of announce, delete, reap and reload steps the counters match the total map sizes |
| `CppTracker.NeverBelowZero` | cpp-original/worker.cpp:645-687 | while the true totals fit into 32 bits, no step subtracts more than the counter holds |
| `CppTracker.NeverBelowZeroOverRuns` | cpp-original/worker.cpp:1018-1065 | over every interleaving, while they fit, the counter is exactly totals plus pending and no next step takes off more |
| `CppTracker.StampIsLastAnnounce` | cpp-original/worker.cpp:503-505 | over every interleaving a listed peer carries the time of the last announce into that list, except that a finish finding the key in both lists keeps the older seeder record |
| `CppTracker.SweptIff` | cpp-original/worker.cpp:1018-1065 | a sweep removes exactly the listed peers whose record no announce has written since the deadline |
| `CppTracker.ReloadedIff` | cpp-original/db.cpp:74-140 | a reload leaves exactly the torrents the table lists under a hash, known ones with their peers as they were |
| `Simulation.AnnounceAgrees` | cpp-original/worker.cpp:314-375 | on reports both read alike, both trackers keep the same (user, peer_id) sets and the same completed count |
| `Simulation.AnnounceAgreesIff` | tracker/announce.go:105-152 | for any report the two agree exactly when it is read alike, or the peer seeds and does not leech |
| `Simulation.NegativeLeftDiverges` | cpp-original/worker.cpp:314-375 | a fresh peer completing with a remainder of -1 is a snatch to the original and none to the port |
| `Simulation.StepSimulates` | tracker/announce.go:105-152 | one request to whole trackers keeps them in step, with no account changed in identity |
| `Simulation.GoSimulatesCpp` | cpp-original/worker.cpp:541-565 | over every run of such requests seeder sets, leecher sets and completed counts stay equal |
| `Sampling.ReservoirDistinct` | tracker/optimize.go:35-58 | for every draw sequence no position is taken twice and all are in range |
| `Sampling.AllDrawsAreDraws` | tracker/optimize.go:35-58 | the counted set is exactly the draw sequences the loop can make |
| `Sampling.AllDrawsSize` | tracker/optimize.go:35-58 | one more peer multiplies the number of draw sequences by the number of peers |
| `Sampling.ReservoirUniform` | tracker/optimize.go:35-58 | every position is in the reservoir in exactly k/n of all draw sequences |
| `Sampling.ReservoirSample` | tracker/optimize.go:35-58 | the sample holds the peers at the reservoir's positions; k at or below zero gives none, k at or above n all |
| `Shuffle.ShufflePermutes` | tracker/optimize.go:17-23 | every draw sequence gives a permutation |
| `Shuffle.DrawsForReaches` | tracker/optimize.go:17-23 | the draws computed for a permutation reach it |
| `Shuffle.DrawsForOnly` | tracker/optimize.go:17-23 | the draws computed from a result are the ones that made it |
| `Shuffle.ShuffleBijective` | tracker/optimize.go:17-23 | every permutation of distinct peers is reached from exactly one draw sequence |
| `Shuffle.FisherYatesShuffle` | tracker/optimize.go:17-23 | the in-place loop computes that permutation |
| `Whitelist.Linear.IsAllowed` | tracker/types.go:331-344 | allowed exactly when the list is empty or a listed prefix begins the peer ID |
| `Whitelist.Linear.Add` | tracker/types.go:347-356 | the prefix is appended unless listed |
| `Whitelist.Linear.Remove` | tracker/types.go:359-369 | the list with that prefix taken out |
| `Whitelist.KeptContents` | tracker/types.go:359-369 | removing takes out every copy of the prefix and nothing else |
| `Whitelist.Trie.Add` | tracker/optimize.go:348-358 | the trie now stands for one prefix more, at every length including the empty one |
| `Whitelist.Trie.IsAllowed` | tracker/optimize.go:362-381 | the walk answers as the scan of all added prefixes does |
| `Whitelist.BuildTrieFromSlice` | tracker/optimize.go:384-390 | the trie stands for exactly the given list |
| `Whitelist.TrieMatchesScan` | tracker/optimize.go:348-390 | for every prefix list and every peer ID, trie and scan agree |
| `Pricing.SplitIsExact` | commons/credit.go:52-69 | quotient and remainder parts add up to the truncated exact product, for either sign |
| `Pricing.MulFracExact` | commons/credit.go:52-69 | with 64-bit arithmetic the result is exact when its two products and its result fit |
| `Pricing.SmallProductExact` | commons/credit.go:52-69 | it is exact whenever the plain product fits into 64 bits |
| `Pricing.TransferFits` | commons/price.go:108-126 | prices up to 500 CC/GB and transfers up to 16 GiB never leave 64 bits |
| `Pricing.TransferExactIff` | commons/price.go:108-126 | for every price and size the amount is exact if and only if the remainder's product and the amount fit into 64 bits |
| `Pricing.InexactIsFar` | commons/credit.go:52-69 | an amount that is not exact is off by at least 2^33 base units |
| `Pricing.TransferWraps` | commons/credit.go:52-69 | at 500 CC/GB, 9 GiB come to 4500 CC and 18 GiB come out negative |
| `Pricing.PiecesDifferByLessThanCountIff` | commons/price.go:108-126 | with 64-bit arithmetic, settling k right pieces loses fewer than k base units against settling once and never gains, if and only if the single settlement is right |
| `Pricing.PriceInRangeIff` | commons/price.go:54-63 | the effective price is within floor and ceiling in every swarm exactly when floor is at most ceiling |
| `Pricing.MultiplierRange` | commons/price.go:65-90 | the multiplier is 1000 without leechers and reaches exactly its ceiling, 3000 where none above 1000 is set |
| `Pricing.UnpricedIsFree` | commons/price.go:54-63 | what has no price costs and earns nothing |
| `Pricing.PriceMonotone` | commons/price.go:54-90 | with a base price of at least zero and no overflow in scaling, the price never falls as leechers grow and never rises as seeders grow |
| `Pricing.NegativeBaseAntitone` | commons/price.go:54-90 | with a negative base price it goes the other way |
| `Pricing.MultiplierMonotoneIff` | commons/price.go:65-90 | for a factor of at least zero the multiplier is monotone in every pair of swarms if and only if the factor's largest product fits into 64 bits |
| `Pricing.WrappedFactorFalls` | commons/price.go:65-90 | for every larger factor an effective price falls as a leecher replaces a seeder |
| `Pricing.WrappedBaseFalls` | commons/price.go:54-63 | with the largest base price the effective price falls from the first leecher on |
| `Pricing.DefaultPrices` | commons/price.go:24-50 | ranges of the default upload and download prices over all swarms |
| `Pricing.MatchedTransfersMintNothing` | commons/price.go:108-126 | upload credit is at most download charge for the same bytes in the same swarm, up to just above 57 GiB |
| `Pricing.ScarceTransfersMint` | commons/price.go:108-126 | above that, under full scarcity, the charge is not positive and the credit is |
| `Pricing.MintsNothingIff` | commons/price.go:108-126 | up to twice that size, a transfer mints nothing in any swarm if and only if it is no larger than that |
| `Pricing.GiantTransferIsFree` | commons/price.go:108-126 | beyond, size no longer decides: 2^62 bytes cost and earn nothing in every swarm |
| `Ledger.Commons.Settle` | commons/ledger.go:76-174 | account, ledger and budgets after a settlement, and the reply, for new and reused transaction IDs |
| `Ledger.Commons.HasTxn` | commons/ledger.go:113-131 | finds a transaction ID exactly when the ledger has it |
| `Ledger.Commons.ConsumeBudgets` | commons/ledger.go:154-161 | every matching budget with room is charged, and no other |
| `Ledger.Commons.SettleAnnounce` | commons/commons.go:61-107 | an announce settles its upload credit, then its download charge, as ordinary settlements |
| `Ledger.Commons.SetUserPriority` | commons/commons.go:215-238 | an invalid class changes nothing; a valid one sets it and keeps the balance |
| `Ledger.Commons.SetUserBudget` | commons/commons.go:243-260 | the old rows of the scope go, then one with the cap wrapped to 64 bits and nothing consumed is inserted, as two statements |
| `Ledger.Commons.CheckBudgetAvailable` | commons/ledger.go:194-213 | the least remaining credit of the applicable unexpired budgets, not below zero; the maximum if there is none |
| `Ledger.ClosingIsGrantMinusCharges` | commons/ledger.go:89-111 | in a ledger whose entries chain, the last balance is the grant less all charges |
| `Ledger.BalancesReconstruct` | commons/ledger.go:76-174 | over every run, entries chain, transaction IDs are unique and each balance is the grant less that account's charges |
| `Ledger.RunAppends` | commons/ledger.go:72-75 | the ledger only grows and no account disappears |
| `Ledger.ReplayChangesNothing` | commons/ledger.go:131-143 | a settlement repeated after any run changes nothing at all |
| `Ledger.ReusedIdSettlesNothing` | commons/ledger.go:131-143 | a reused transaction ID leaves ledger, budgets and existing accounts alone, and at most opens an account |
| `Ledger.StepWithinCap` | commons/ledger.go:154-161 | a step keeps every consumed amount within its cap if and only if it inserts no negative cap |
| `Ledger.BudgetsStayWithinCap` | commons/ledger.go:154-161 | over every run with caps of at least zero, no budget is consumed beyond its cap |
| `Ledger.RowsAreInserts` | commons/commons.go:243-260 | whatever runs in between, the rows of a scope are the caps inserted since its last delete, each with exactly the charges consumed that were entered since and fitted |
| `Ledger.AllAbsorbed` | commons/ledger.go:154-161 | as long as the charges since a cap was set fit together, it has consumed exactly their sum |
| `Ledger.CapApplies` | commons/commons.go:263-270 | a cap set for torrent 0 applies to every torrent of the user, any other to its own only |
| `Ledger.PriorityIsLastSet` | commons/commons.go:215-238 | over every run a user's class is the one last validly set |
| `Ledger.OverlappingBudgets` | commons/commons.go:243-260 | two overlapping calls from the empty store leave both caps in force |
| `Ledger.GlobalCapNeverTightens` | commons/ledger.go:154-161 | over every run a cap over all torrents has nothing consumed and leaves its whole cap available |
| `Ledger.LostUpdateIff` | commons/commons.go:215-238 | balances still reconstruct after a late write-back exactly when the settlements in between come to nothing |
| `Ledger.LostUpdate` | commons/db.go:189-227 | one unit settled between the two statements on an empty store is in the ledger and not in the balance |
| `Ledger.AnnounceTextInjective` | commons/commons.go:272-274 | two announce IDs have the same text if and only if user, torrent, second and direction are the same |
| `Ledger.AnnounceTextHasColon` | commons/ledger.go:45-52 | no announce ID is a text without a colon, such as a generated one |
| `Ledger.SameTxnIff` | commons/commons.go:272-274 | two announces share a transaction ID if and only if user, torrent, second and direction are the same |
| `Ledger.SecondHolds` | commons/commons.go:272-274 | the second is the one the instant falls into |
| `Ledger.SameSecondSettlesOnce` | commons/commons.go:272-274 | a second announce of the same user and torrent in the same second settles nothing in a direction the first one settled, whatever comes in between |
| `Ledger.SettledIff` | commons/ledger.go:113-131 | over every run from the empty store, an announce's ID is in the ledger if and only if some announce of the same user, torrent and second had a positive amount in that direction |
| `Ledger.AnnounceSettlesIff` | commons/commons.go:61-107 | over every run from the empty store, an announce enters its amount and moves the balance by it if and only if the amount is positive and no earlier announce of the same user, torrent and second had a positive one in that direction |
| `CircuitBreaker.CircuitBreaker.CanExecute` | tracker/circuit_breaker.go:86-117 | verdict and state of the admission step |
| `CircuitBreaker.CircuitBreaker.RecordResult` | tracker/circuit_breaker.go:120-175 | state after a recorded result, in each mode |
| `CircuitBreaker.CircuitBreaker.Reset` | tracker/circuit_breaker.go:200-208 | closed with no failures and no half-open slots |
| `CircuitBreaker.RunInv` | tracker/circuit_breaker.go:64-175 | the breaker's invariant holds at every point of every interleaving of admissions, results, lost calls and resets |
| `CircuitBreaker.ClosedCountsCurrentRun` | tracker/circuit_breaker.go:120-175 | CLOSED has failures equal to the current run of recorded failures and below the maximum; a half-open episode admits at most halfOpenMax+1 calls |
| `CircuitBreaker.RefusedIff` | tracker/circuit_breaker.go:86-117 | over every run a call is refused, and changes nothing, if and only if the breaker is OPEN with the last recorded failure less than the timeout ago, or HALF_OPEN with every slot taken |
| `CircuitBreaker.ModeChangesIff` | tracker/circuit_breaker.go:120-175 | over every run, exactly which steps open, half-open and close the breaker |
| `CircuitBreaker.NeverWedged` | tracker/circuit_breaker.go:64-117 | as long as every call records its result, a refused call means OPEN within the reset timeout, or HALF_OPEN with the last admitted call still in flight, whose result leaves HALF_OPEN |
| `CircuitBreaker.RecoversIff` | tracker/circuit_breaker.go:64-72 | after any run, lost calls included, some calls and returns get a call admitted if and only if the breaker is not HALF_OPEN with every slot taken and nothing in flight |
| `CircuitBreaker.OneLossWedges` | tracker/circuit_breaker.go:64-72 | every breaker reaches that state by losing one call |
| `BufferedWrites.BufferedDB.Enqueue` | tracker/buffered_db.go:118-125 | the write is queued if there is room and counted as dropped otherwise |
| `BufferedWrites.BufferedDB.DrainRest` | tracker/buffered_db.go:66-96 | the final drain hands over the whole queue in order |
| `BufferedWrites.HandedInOrder` | tracker/buffered_db.go:66-125 | at every point the writes handed over are a prefix of the accepted ones, the rest is queued, and every other offer was counted as dropped |
| `BufferedWrites.FlushDrainsIff` | tracker/buffered_db.go:149-154 | when Flush returns, every write accepted before it began has been handed over, if and only if none was accepted after the drain goroutine returned |
| `BufferedWrites.LateWritesStranded` | tracker/buffered_db.go:118-125 | a write accepted after the drain goroutine returned is never handed over |
| `Heatmap.DropOldest` | tracker/demand_heatmap.go:56-66 | decrementing and deleting at zero gives the histogram of the window without its oldest entry |
| `Heatmap.AddNewest` | tracker/demand_heatmap.go:70-73 | incrementing gives the histogram of the window with one entry more |
| `Heatmap.WindowSlides` | tracker/demand_heatmap.go:47-74 | dropping the oldest when full and appending is the last-N window of the longer history |
| `Heatmap.RingPush` | tracker/demand_heatmap.go:47-74 | writing at the head of the ring, read in order, appends to the window |
| `Heatmap.SameNetIff` | tracker/demand_heatmap.go:47-51 | two addresses are of one network if and only if their first two bytes agree |
| `Heatmap.DemandHeatmap.Record` | tracker/demand_heatmap.go:47-74 | ring, histogram and total stand for the last recorded networks; short addresses and a ring without room change nothing |
| `Heatmap.DemandHeatmap.ModalNet` | tracker/demand_heatmap.go:78-93 | a most frequent network of the window, or none if it is empty |
| `Heatmap.DemandHeatmap.NetFraction` | tracker/demand_heatmap.go:103-110 | the share of the network in the window, between zero and one |
| `Placement.FirstsCover` | tracker/locality.go:106-123 | the first pass covers a new domain with each pick and stops short only when all are covered |
| `Placement.FirstsAreHighest` | tracker/locality.go:106-123 | each first-pass pick is the highest-ranked candidate of its domain |
| `Placement.FilledFills` | tracker/locality.go:124-137 | the second pass adds distinct candidates and stops short only when nothing is left |
| `Placement.PlacedCovers` | tracker/locality.go:106-137 | for every list, at most `needed` of its candidates, covering min(needed, number of domains) domains |
| `Placement.PlacedNodes` | tracker/locality.go:106-137 | with no node listed twice, min(needed, n) distinct nodes |
| `Placement.PlacedIsOptimal` | tracker/locality.go:106-137 | for every list, no selection of that size covers more domains |
| `Placement.PlacedDistinctIff` | tracker/locality.go:106-137 | the placement repeats no node if and only if no node heads two of the first `needed` domains |
| `Placement.DuplicateNodePlacedTwice` | tracker/locality.go:106-123 | a node listed twice in two domains is placed twice |
| `Placement.GreedyPlace` | tracker/locality.go:106-137 | the loops compute that placement |
| `Placement.SortDescending` | tracker/swarm_controller.go:505-511 | the in-place insertion sort orders by score and keeps the same candidates |
| `Placement.RankNodes` | tracker/locality.go:85-101 | one candidate per node with its score and domain, best first, no node twice |
| `Placement.ScoreWeighs` | tracker/locality.go:60-74 | one more unit of a weight adds exactly the input it weighs, an unavailable one counting zero |
| `Placement.CandidateCarries` | tracker/locality.go:85-101 | a candidate carries its node's own score and domain |
| `NodeReach.NodeRegistry.Heartbeat` | tracker/node_registry.go:316-341 | the node is REACHABLE and seen now; unknown nodes are ignored |
| `NodeReach.NodeRegistry.MarkStale` | tracker/node_registry.go:473-521 | one staleness pass over all nodes |
| `NodeReach.ReachCountsMissedPasses` | tracker/node_registry.go:473-521 | over every run, UNREACHABLE after three missed passes with no heartbeat between, FLAPPING after one, REACHABLE otherwise, with the flap time of the first miss |
| `NodeReach.LastSeenIsLastBeat` | tracker/node_registry.go:316-341 | over every run a node was last seen at its last heartbeat, or its registration |
| `NodeReach.GraceExpiredIff` | tracker/swarm_controller.go:301-330 | over every run of heartbeats and passes, a node is past its grace period if and only if it missed FlapThreshold passes and the first of them is longer ago than GraceTTL, and then it has been silent for longer |
| `NodeReach.SilentIff` | tracker/node_registry.go:344-348 | with explicit hard-downs, being past the grace period means having been silent for longer if and only if none since the last heartbeat hit a node seen since its last flap |
| `NodeReach.HardDownBreaks` | tracker/node_registry.go:344-348 | a run of flap, recovery and hard-down that is past the grace period before having been silent for that long |
| `NodeReach.BudgetCountsToday` | tracker/node_registry.go:174-215 | over every ordered run of uploads the WAN budget holds exactly what was sent on the latest day |
| `NodeReach.NearCapIff` | tracker/node_registry.go:209-215 | a node is near its cap if and only if it has a limit and today's uploads reach nine tenths of it |
| `Fleet.RunAccounted` | tracker/node_registry.go:316-341 | over every run of the whole fleet each node is what its own heartbeats and passes make of it |
| `Fleet.EvictionMeansSilence` | tracker/swarm_controller.go:301-330 | over every run of heartbeats, staleness passes, reconciles and all other steps, a replica goes from verified to ABSENT exactly in a grace check of a node past its grace period, which has then missed FlapThreshold passes and been silent for longer than GraceTTL |
| `Replicas.StepGood` | tracker/replica_class.go:98-184 | every atomic step keeps the history of each replica to what its state stands for |
| `Replicas.HistoryMatchesState` | tracker/replica_class.go:98-184 | over every run, the history of a replica since it was last ABSENT is exactly what its state stands for |
| `Replicas.VerifiedHasProvenance` | tracker/agent_heartbeat.go:78-113 | a replica counted as verified has passed all four states in order and then got a hash_ok |
| `Replicas.InvalidForever` | tracker/replica_class.go:98-112 | whatever happens, an INVALID replica stays INVALID |
| `Replicas.EntersIff` | tracker/agent_heartbeat.go:78-113 | exactly which steps take a replica into each state |
| `Replicas.ClassIsFirstAsked` | tracker/replica_class.go:188-231 | over every run a replica's class is the one first asked for, raised by upgrades |
| `Replicas.ClassesInOrder` | tracker/replica_class.go:10-20 | EPHEMERAL, CACHE, STANDARD, PINNED, ARCHIVAL in upgrade order |
| `Replicas.JoinsPairDepartures` | tracker/swarm_controller.go:371-396 | over the whole history, every JOIN comes directly after a departure from ABSENT, and every departure is followed directly by its JOIN or the way back |
| `Replicas.SentJoinsPair` | tracker/swarm_controller.go:706-722 | every JOIN ever queued has a departure of its own, at different places of the history in queue order |
| `Replicas.JoinOutlivesCopy` | tracker/swarm_controller.go:301-330 | a run ends with the replica ABSENT and its JOIN still queued |
| `Replicas.PresentIffJoinStands` | tracker/swarm_controller.go:371-396 | over every run a replica is away from ABSENT if and only if some JOIN for it has no later return to ABSENT |
| `Replicas.SentJoinAbsentIff` | tracker/swarm_controller.go:706-722 | for every JOIN ever queued, its replica is ABSENT if and only if it went back to ABSENT after that JOIN and has not been asked for since |
| `LateReports.PlayFine` | tracker/agent_heartbeat.go:78-113 | with reports split into read and acts, over every interleaving each state still has its states in order behind it |
| `LateReports.AtOnceIsReport` | tracker/agent_heartbeat.go:78-113 | with nothing in between, read and acts are the atomic report |
| `LateReports.ProvenanceIff` | tracker/agent_heartbeat.go:78-113 | all verified replicas have a hash_ok of their own at every point of a run if and only if every verifying act comes after a hash_ok read of the same copy |
| `LateReports.NoAbsenceBetween` | tracker/agent_heartbeat.go:78-113 | that holds if no replica becomes ABSENT between the read of a hash_ok and its act |
| `LateReports.StaleReportVerifies` | tracker/agent_heartbeat.go:78-113 | a run of two reads, an eviction and a rejoin after which the second act verifies a copy nobody vouched for |
| `Replicas.QueueOverRuns` | tracker/swarm_controller.go:379-396 | over every run the queue is what was sent and not yet delivered, in order, within its capacity |
| `Replicas.SentIff` | tracker/swarm_controller.go:379-396 | a directive is queued exactly while fewer than 256 are waiting |
| `Controller.Controller.TryJoin` | tracker/swarm_controller.go:371-396 | a JOIN is queued exactly when the replica was ABSENT and there was room; otherwise the replica's state is as before |
| `Controller.Controller.EnsureArtifact` | tracker/swarm_controller.go:674-731 | the reply in each of the six cases and the state it leaves, with back-pressure taken back |
| `Controller.Controller.ReconcileInventory` | tracker/agent_heartbeat.go:78-113 | the report step of the lifecycle, for every pair of reported and current state |
| `Controller.Controller.ClassifyEdgeReplicas` | tracker/swarm_controller.go:261-296 | heat and class of exactly the verified EPHEMERAL replicas on EDGE nodes with a known share; no state and no counted replica changes |
| `Controller.Controller.RetireGraceExpired` | tracker/swarm_controller.go:301-330 | exactly the verified replicas of the artifact on registered nodes past their grace period become ABSENT, and their RETIREs are queued as far as there is room |
| `Controller.Controller.VerifiedCount` | tracker/replica_class.go:254-263 | the number of verified replicas whose class counts |
| `Controller.Controller.HasVerifiedCoreReplica` | tracker/node_registry.go:535-551 | true exactly when some CORE node holds a verified replica |
| `Controller.Controller.ExistingNodeSet` | tracker/swarm_controller.go:406-415 | the nodes whose replica is not ABSENT |
| `Controller.Controller.ScoreCandidates` | tracker/swarm_controller.go:424-512 | exactly the directable nodes without the artifact, below the WAN cap, and EDGE only with a verified CORE replica; each once, best score first |
| `Controller.Controller.JoinLoop` | tracker/swarm_controller.go:371-397 | as many JOINs as deficit, candidates and queue allow, to the first candidates in order, each with its departure from ABSENT |
| `Controller.Controller.SelectRetirements` | tracker/swarm_controller.go:540-581 | as many RETIREs as surplus, candidates and queue allow, none to PINNED or ARCHIVAL, STANDARD only after every lower one, no state changed |
| `Controller.Controller.ReconcileArtifact` | tracker/swarm_controller.go:332-402 | a whole pass: classification, grace evictions with their RETIREs, then JOINs to the best eligible nodes or RETIREs, and every replica's history still matches its state |
| `Controller.JoinedAreInFlight` | tracker/swarm_controller.go:371-397 | a pass puts exactly the joined replicas in flight |
| `Controller.JoinedComesToCount` | tracker/swarm_controller.go:371-397 | a node joined by a pass and reported through to SEEDING is counted, so the next deficit is one smaller, unless it was an older replica of a class that does not count |
| `Controller.JoinedNodes` | tracker/swarm_controller.go:424-512 | who a pass asks, spelled out: reachable nodes without the artifact, below nine tenths of the WAN limit, EDGE only beside a verified CORE replica |
| `Controller.BestScoresFirst` | tracker/swarm_controller.go:505-511 | no eligible node with a higher score is passed over |
| `Controller.RetiredReplicas` | tracker/swarm_controller.go:540-581 | whom a pass retires, spelled out; STANDARD only when the lower ones are fewer than the surplus |
| `Controller.LowReplicas` | tracker/swarm_controller.go:545-553 | the lower ones are the verified EPHEMERAL and CACHE replicas |
| `Controller.EvictedReplicas` | tracker/swarm_controller.go:301-330 | whom the grace-period pass takes, spelled out |
| `Controller.PromotedReplicas` | tracker/swarm_controller.go:261-296 | whom a classification promotes, spelled out |
| `Controller.CountedReplicas` | tracker/replica_class.go:38-43 | what counts towards the target: verified STANDARD and PINNED replicas |
| `Controller.ReplyMeans` | tracker/swarm_controller.go:674-731 | what each reply to an ensure request says about the world before and after |
| `Controller.WithinTargetIff` | tracker/swarm_controller.go:354-369 | verified plus in-flight replicas stay within the target if and only if those in flight and the new JOINs fit into the deficit |
| `Controller.AskedTwice` | tracker/swarm_controller.go:354-369 | from nothing, two passes with a target of one ask two nodes |
| `Controller.SurplusPersists` | tracker/swarm_controller.go:540-581 | over any run of retiring passes and deliveries the counted replicas stay the same, and a later pass with the same target sends min(surplus, candidates, room) RETIREs again |
| `Controller.UncountedIff` | tracker/replica_class.go:177-196 | a counted replica stops counting exactly by an invalid report, an eviction or a move to ARCHIVAL |
| `Controller.CountShrinksIff` | tracker/replica_class.go:254-263 | no other step, RETIRE and delivery included, takes anything off the count |
| `Controller.SurplusNeverFalls` | tracker/swarm_controller.go:354-369 | over every run without a step that takes a counted replica off, the counted set never shrinks |
| `Controller.PassesFollowHeat` | tracker/swarm_controller.go:261-296 | over every run of classifications, with nodes, shares and states changing in between, heat and class are those of the shares in the passes that consider the replica |
| `Controller.PromotedIff` | tracker/swarm_controller.go:261-296 | over every such run a replica is promoted to CACHE if and only if three passes in a row, of those that consider it, found its network hot |
| `Controller.ConsecutivePromotes` | tracker/swarm_controller.go:256-260 | three hot passes directly after one another always promote |
| `Controller.PromotedWithGaps` | tracker/swarm_controller.go:261-296 | hot, not verified, hot, not verified, hot promotes as well |

## Left out

- HTTP, UDP, TLS, JSON and URL parsing, metrics, logging, Redis and the PHP panel: input and output only.
- The SQL engine and database errors: tables are maps and sequences, and statements succeed.
- Admission, anomaly detection and the whitelist verdict inside an announce are one input, `screened`.
- Peer selection for the reply, IP addresses, ports, visibility and announce intervals: they change no swarm state.
- Torrent balances and byte counters are unbounded integers, without 64-bit wrap-around.
- Which Go peers the reaper finds stale is an input; times of announces are modelled for the C++ tracker only.
- Peer and torrent records are values in maps: two lists holding the same peer object are not modelled as sharing it.
- Snapshots, reload with eviction, configuration, authentication and API keys: little state to reason over.
- C++ per-user counters and byte accounting: user objects can be recreated under one ID, so the C++ claims are about lists and global counters.
- Interleaving.CounterInvariant: global counters and membership only; per-user counters move by the same flags, and one announce applies its flags in one step.
- Pricing.MintsNothingIff: does not decide transfers above twice the limit, about 114 GiB in one announce, where the wrapped amounts follow no threshold.
- Pricing.NegativeBaseAntitone: within the same bounds.
- Pricing.PriceMonotone: one way only as to the base price; `Bounded` keeps the scaled base within 64 bits, and beyond that the clamps can hide a fall. As to the factor, Pricing.MultiplierMonotoneIff is exact.
- `CreditForSeeding`: its whole-unit and proportional branches do not join into a monotone function.
- Credit reservations and their expiry: nothing creates one.
- Whitelist.Trie.Add: trie nodes are positions in a growing arena instead of pointers, so aliasing between nodes is not captured.
- Sampling.ReservoirSample: the random draws are a parameter, within the ranges the loop draws from.
- Shuffle.FisherYatesShuffle: the same.
- Controller.Controller.ScoreCandidates: scores, including proximity, tier bonus and anti-affinity, are one real number per node given to the pass.
- Controller.Controller.ReconcileArtifact: the popularity policy's target and each network's share of the demand are inputs, and controller calls do not overlap.
- Floating point: scores and shares are real numbers, and IsNearCap compares exactly.
- Virtual server and compute packages: not modelled.
