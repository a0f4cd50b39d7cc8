# DBFabric: control plane, routing and wire protocol in Dafny

DBFabric is a proxy in front of sharded Postgres. This project models the parts whose correctness depends on order and
interleaving, and proves what they keep. `dafny verify dfyconfig.toml` checks all of it.

## How it is organised

- **Failover protocol.** `ShardMap`, `Failover` and `Checker` follow the Go files method by method: `class Map`,
  `class Controller`, `class HealthChecker`, each method proved against a function. `CheckMachine` is one shard's check
  as its goroutines run it: one step per lock-protected action (`All`, `tryAcquire`, each heartbeat with its miss count,
  `Set`, `Get`, each vote, `pg_promote`, `Set`, drain, release), every backend answer carried by the step, and a log of
  everything observable. `World` runs any number of overlapping sweeps over any number of shards with one shared table,
  one busy set and one miss map. `WorldProjection` shows that each shard of such a run is a run of its own machine, and
  `WorldTheorems` states the guarantees for whole runs. The one specification of a check (`Checker.WholeCheck` for entry
  and counts, `Checker.CallsOfCheck` for what it asks of the backends and does to the table) is what the sequential
  `CheckShard` computes and what `CheckReduction` and `CheckCalls` reduce every concurrent run to.
- **Ring, router, lookups.** `Ring` is the class over a growing array and an owner map, with the in-place filter and the
  binary search; `RingLaws` and `RingSpread` prove the laws of consistent hashing for an arbitrary 32-bit hash, collisions
  included.
  `Router` adds the health and lag filters, and `Routing` runs lookups while shards are added, checked and failed over.
- **Pools.** `Pool` has the manager class and its calls as interleaved critical sections.
- **Wire and sessions.** `Wire` and `WireRows` are the codec, each writer against a reader written from the message
  formats. `Session` is the connection loop as a class whose writes may start to fail at any point; `SessionLaws` states
  what a client can rely on, and `SessionReads` what its readers make of the messages. `Sql` is what the proxy reads off a
  query's text; `HintLaws` and `Transactions` state that on the text itself.
- **Simulator.** The simulator's actions on a shard, as supporting lemmas.

Assumptions taken from the design: addresses are distinct within and across shards (the miss counts are keyed by
address, and `internal/config/config.go:162-175` does not check it); `downAfter >= 1` where a lemma says so
(`internal/config/config.go:200-206`); the default lag ceiling is not negative (`internal/config/config.go:215-217`).

## Where the code differs from what is said about it

- The comment at `internal/health/checker.go:66-70` says that the busy flag alone makes it safe for a check to replace
  its shard's entry. `sweep` reads the table at line 134 before it takes the flag at line 135, so a check can start from
  an entry that another sweep's failover has since replaced, and its write-back at line 189 puts the retired primary
  back. `StaleSnapshot.StaleCheckRestoresRetiredPrimary` is such a run. The model keeps the code's order.
  `WorldTheorems.UndoneExactlyByStaleStarts` is the exact condition, in both directions: a failover is undone if and only
  if some check started from a snapshot whose primary was no longer the table's. Everything else below holds without it
  unless its row says "current starts".
- `internal/proxy/query.go:142` looks for the end of a block comment from its opener on, so in `/*/x*/BEGIN` the comment
  ends at its third character and the transaction keyword is missed (`Sql.SlashBodyHidesTheKeyword`).
  `Sql.CloseIsItsOwnExactlyWhen` is the exact condition for where a comment ends. For keywords and verdicts,
  `Sql.KeptExactlyWhenSkipped` is exact on any text before any query: they are kept if and only if the scan passes over
  all of that text, which some comments that end too early allow as well (`Sql.IllFormedYetSkipped`).
- A stream that ends right after a message's five-byte header reads as a clean end, not as a cut-off message
  (`Wire.CleanEndExactlyWhen`); a parameter list whose last string is unterminated loses it silently
  (`Wire.TailIsDroppedExactlyWhen`); a result row reads back exactly when it has at most 65535 columns and no text of
  2^31 bytes or more (`WireRows.RowReadsBackExactlyWhen`).

## Model

| member | source | states |
|---|---|---|
| `ShardMap.Map.Get` | internal/shardmap/shardmap.go:48-53 | the entry under the id, or none |
| `ShardMap.Map.Set` | internal/shardmap/shardmap.go:55-62 | one entry is replaced, every other is as it was |
| `ShardMap.Map.All` | internal/shardmap/shardmap.go:69-77 | every entry of the table exactly once, in some order |
| `Failover.BestIsTheBest` | internal/health/failover.go:165-178 | the scan finds the first least-lagged usable replica, and that one only; it fails exactly when none is usable |
| `Failover.SelectPromotionCandidate` | internal/health/failover.go:165-186 | the candidate and the replicas without it, order kept |
| `Failover.WitnessesAreTheUsable` | internal/health/failover.go:109-114 | the witnesses are exactly the replicas not DOWN |
| `Failover.CollectWitnesses` | internal/health/failover.go:109-114 | the loop collects those witnesses in order |
| `Failover.CountVotes` | internal/health/failover.go:134-145 | the counts are the multiplicities of the two kinds of answer; abstentions count for neither |
| `Failover.GuardIsStrictMajority` | internal/health/failover.go:153-159 | the guard passes if and only if some witness answered and strictly more than half of the answers cannot see the primary |
| `Failover.DrainComesLast` | internal/health/failover.go:82-98 | the table is swapped only when nothing refuses, after the votes and a successful promotion; the drain comes right after the swap and last |
| `Failover.RefusalSaysWhy` | internal/health/failover.go:76-91 | no healthy replica exactly when all are DOWN; a veto carries the three tallies of its votes; a failed promotion names the candidate |
| `Failover.Controller.CheckQuorum` | internal/health/failover.go:108-151 | a veto with its tallies exactly when the guard is not met |
| `Failover.Controller.Authorize` | internal/health/failover.go:82-91 | guard, then pg_promote: the first refusal, with the backend calls made on the way |
| `Failover.Controller.Promote` | internal/health/failover.go:67-103 | on refusal the table is untouched and nothing is drained; else the entry is the failed-over one |
| `Checker.OrderDoesNotMatter` | internal/health/checker.go:176-187 | the miss counts after pinging a shard's nodes do not depend on the order of the answers |
| `Checker.OwnCountsOnly` | internal/health/checker.go:266-275 | a check's outcome depends on no other shard's counts |
| `Checker.OthersUntouched` | internal/health/checker.go:266-275 | a check counts nothing against another shard's nodes |
| `Checker.HealthChecker.TryAcquire` | internal/health/checker.go:148-156 | takes the flag exactly when it is free |
| `Checker.HealthChecker.Release` | internal/health/checker.go:158-162 | frees that shard's flag and no other |
| `Checker.HealthChecker.RecordResult` | internal/health/checker.go:266-275 | success forgets the misses, failure adds one |
| `Checker.HealthChecker.PingNode` | internal/health/checker.go:237-264 | DOWN at the DOWN threshold, SUSPECT from the SUSPECT threshold up to it, UP below both; a failed heartbeat, and any heartbeat of a primary, keeps the last known lag |
| `Checker.HealthChecker.PingAll` | internal/health/checker.go:172-187 | every node is rechecked once, against the counts before the check |
| `Checker.HealthChecker.CheckShard` | internal/health/checker.go:171-225 | entry, counts, remembered refusal and calls of one whole check: it attempts a failover exactly when the refreshed primary is DOWN |
| `Checker.HealthChecker.CheckUnlessBusy` | internal/health/checker.go:134-143 | a busy shard is skipped and nothing changes; any other is checked, with all of that, and its flag freed |
| `Checker.HealthChecker.Sweep` | internal/health/checker.go:132-146 | an undisturbed sweep, in whatever order it visits the shards, does to table, counts, remembered refusals and calls what checking each free shard alone would |
| `Checker.SweepStep` | internal/health/checker.go:132-146 | a shard checked in mid-sweep is checked as if it were the first |
| `CheckShape.SwapDropsThePrimary` | internal/health/failover.go:93-97 | failing over takes out the old primary and nothing else |
| `CheckShape.WriteBackAddrs` | internal/health/checker.go:171-189 | a write-back names its snapshot's nodes in their places |
| `CheckShape.RunsAreShaped` | internal/health/checker.go:171-199 | in every reachable state each entry ever published is drawn from the configured nodes, counting multiplicity |
| `CheckReduction.RunsReduce` | internal/health/checker.go:132-200 | in every reachable state, mid-check included, entry and miss counts are those of whole checks run one after another |
| `CheckCalls.ConcurrentIsSequential` | internal/health/checker.go:132-225 | and so are the calls: every finished check made those of its whole check, refused and failed promotions, swap and drain included, the votes as a multiset before them; the running check those of its stage |
| `CheckCalls.InterleavingDoesNotMatter` | internal/health/checker.go:176-187 | runs that got the same answers in the same checks end alike and made the same calls up to the order of votes |
| `CheckReduction.ChecksStartFromPublished` | internal/health/checker.go:134-143 | every check starts from an entry published before it |
| `CheckSafety.CountsAreMissRuns` | internal/health/checker.go:266-275 | the count is the length of the trailing run of failures, in every reachable state |
| `CheckSafety.WholeCheckSettles` | internal/health/checker.go:255-263 | after a check every status is where its count lies between the two thresholds, a promoted primary being UP below the DOWN threshold |
| `CheckSafety.IdleShardsAreSettled` | internal/health/checker.go:237-263 | the same for every shard whenever it is not being checked |
| `CheckSafety.RoutingNamesOnlyVouchedPrimaries` | internal/health/failover.go:87-97 | each write of the table names the configured primary or a node already promoted, stale starts included |
| `CheckCertificate.QuorumElects` | internal/health/failover.go:134-159 | a passed count means one vote per usable replica and a strict majority of the answers |
| `CheckCertificate.PromotionsAreCertified` | internal/health/failover.go:70-91 | each pg_promote call follows, in its own check, a primary past the threshold, the best candidate, the entry its check wrote, and the majority |
| `CheckCurrency.FailoversAreUndoneExactlyByStaleStarts` | internal/health/checker.go:134-189 | between checks, nothing was undone if and only if every start named the current primary |
| `CheckCurrency.NodesAreConserved` | internal/health/failover.go:93-97 | current starts: primary, replicas and retired primaries are a permutation of the configured nodes |
| `CheckCurrency.RetiredNeverReappear` | internal/health/failover.go:93-97 | current starts: a retired primary stays out, and failovers number the replicas used up |
| `CheckCurrency.EntriesStayDistinct` | internal/health/checker.go:189-189 | with no hypothesis, every entry names distinct configured nodes |
| `CheckLag.LagIsLastMeasurement` | internal/health/checker.go:241-263 | current starts: a replica's lag is its last successful measurement, through any failures |
| `CheckLag.PublishedPrimariesHaveNoLag` | internal/health/failover.go:95-95 | every published primary has lag 0, in every run |
| `Recovery.ReplacedExactlyWhen` | internal/health/checker.go:189-225 | a whole check replaces the primary if and only if its heartbeat failed, the threshold is reached and the attempt can go through |
| `Recovery.ReplacedByTheBest` | internal/health/failover.go:165-186 | and then by the least-lagged usable replica |
| `Recovery.MissesAddUp` | internal/health/checker.go:202-225 | in a sequence of checks, while none replaces the primary, its failed heartbeats add up across vetoed and failed attempts |
| `Recovery.RecoversOnceAllowed` | internal/health/checker.go:202-225 | in a sequence of checks, the first one past the threshold whose answers allow it replaces the primary |
| `Recovery.NoHastyFailover` | internal/health/checker.go:191-194 | a whole check below the threshold, or after an answered heartbeat, does not fail over |
| `Recovery.FreshRunsAreSequences` | internal/health/checker.go:171-200 | current starts: a run's quiet states are those of checks each starting where the last one ended |
| `WorldProjection.WorldRunsProject` | internal/health/checker.go:132-162 | each shard of a run of overlapping sweeps is a run of that shard's own machine |
| `WorldTheorems.OneCheckPerShard` | internal/health/checker.go:134-162 | no shard is ever checked twice at once, and each unfinished check holds its flag |
| `WorldTheorems.QuietShardsAreSequential` | internal/health/checker.go:132-225 | per-shard reduction for any interleaving of sweeps: entry, counts, and every check's calls |
| `WorldTheorems.CallsAreAccounted` | internal/health/checker.go:132-225 | the calls of every check of every shard, in every state, mid-check included |
| `WorldTheorems.MissesAreTrailingFailures` | internal/health/checker.go:266-275 | the shared miss map counts trailing failures in every state of every run |
| `WorldTheorems.CheckedShardsAreSettled` | internal/health/checker.go:255-263 | every checked shard not being checked: each node DOWN, SUSPECT or UP exactly as its trailing run of failures lies between the thresholds |
| `WorldTheorems.EveryPromotionIsCertified` | internal/health/failover.go:70-159 | the promotion certificate for every shard of every run |
| `WorldTheorems.OnlyVouchedPrimaries` | internal/health/failover.go:87-97 | table, earlier tables and held snapshots name only configured or promoted primaries |
| `WorldTheorems.EntriesAreDrawnFromConfig` | internal/health/checker.go:189-189 | every entry names distinct nodes configured for its own shard |
| `WorldTheorems.FailoversStayDone` | internal/health/failover.go:93-97 | current starts: in every state nothing is undone, nodes are conserved, one replica per failover; between checks lags are remembered too |
| `WorldTheorems.CurrentStartsAreASequence` | internal/health/checker.go:132-200 | current starts: a quiet shard is where its chain of checks leads |
| `WorldTheorems.DeadPrimaryIsReplaced` | internal/health/checker.go:202-225 | current starts: bounded recovery for any shard of any run, across all the earlier attempts that failed |
| `WorldTheorems.UndoneExactlyByStaleStarts` | internal/health/checker.go:134-189 | undone if and only if some start was stale, for every shard of every run |
| `WorldTheorems.SeparateSweepsStartCurrent` | internal/health/checker.go:101-146 | sweeps that do not overlap always start current |
| `StaleSnapshot.StaleCheckRestoresRetiredPrimary` | internal/health/checker.go:134-189 | a run of two overlapping sweeps in which a retired primary is the primary again |
| `Ring.InsertionSortSorts` | internal/router/hash.go:47-47 | sorting keeps the elements and orders them strictly |
| `Ring.RemovalAgrees` | internal/router/hash.go:54-62 | the kept slice and the pared-down map still describe one ring |
| `Ring.Ring.constructor` | internal/router/hash.go:22-30 | an empty ring; a vnode count that is not positive becomes 100 |
| `Ring.Ring.AddShard` | internal/router/hash.go:36-48 | the map gains the free vnode positions, the slice stays strictly increasing and equal to the map's keys |
| `RingSpread.LabelsAreDistinct` | internal/router/hash.go:40-40 | two vnode labels are equal only for the same shard and index |
| `RingSpread.VnodesSeparateExactlyWhen` | internal/router/hash.go:40-40 | some hash separates two vnodes if and only if they differ in shard or index |
| `RingSpread.FullShareExactlyWhen` | internal/router/hash.go:36-48 | every listed shard owns its full number of positions if and only if no two vnodes collide |
| `Ring.Ring.RemoveShard` | internal/router/hash.go:51-63 | the same through the filter that reuses the slice it reads |
| `Ring.Ring.ShardFor` | internal/router/hash.go:69-81 | binary search finds the owner of the next clockwise position; it fails exactly on an empty ring |
| `RingLaws.AddedFills` | internal/router/hash.go:39-46 | adding occupies exactly the free vnode positions and clobbers none |
| `RingLaws.AddingTwiceIsAddingOnce` | internal/router/hash.go:32-36 | adding a shard again changes nothing |
| `RingLaws.NextIsLeastAtOrAbove` | internal/router/hash.go:75-80 | the next position is the least at or above the hash, else the least of all |
| `RingLaws.EveryKeyHasOneOwner` | internal/router/hash.go:65-81 | a non-empty ring gives every key exactly one owner |
| `RingLaws.AddMovesKeysOnlyToTheNewShard` | internal/router/hash.go:12-14 | a key moves only to the new shard, and exactly when a new vnode lies before its old successor |
| `RingLaws.RemoveMovesOnlyItsOwnKeys` | internal/router/hash.go:50-63 | other shards' keys stay, and each of its own goes to the next position of another shard |
| `RingLaws.SliceIsDetermined` | internal/router/hash.go:18-19 | the slice is determined by the owner map |
| `RingLaws.AddThenRemoveRestores` | internal/router/hash.go:36-63 | adding an absent shard and removing it restores map and slice |
| `RingLaws.FirstComerOwns` | internal/router/hash.go:39-46 | a position belongs to the first shard added that hashes there |
| `RingLaws.OrderMattersOnlyAtCollisions` | internal/router/hash.go:36-48 | two orders of adding occupy the same positions and differ in owners only where two shards collide |
| `Router.CandidatesQualify` | internal/router/router.go:85-95 | the candidates are exactly the replicas not DOWN and within the ceiling |
| `Router.ChoiceIsSound` | internal/router/router.go:67-101 | per level, by name: the primary, or a replica that is not DOWN and within the ceiling, the primary exactly when none is |
| `Router.EveryCandidateHasItsTurn` | internal/router/router.go:99-100 | keys spread over all candidates, in turns of the hash |
| `Router.Router.AddShard` | internal/router/router.go:44-47 | table and ring both gain the shard, and the ring still names only shards in the table |
| `Router.Router.PickReplica` | internal/router/router.go:85-101 | the candidate at hash modulo their number, or the primary |
| `Router.Router.Resolve` | internal/router/router.go:57-77 | the owner's entry answers; the three errors exactly in their cases |
| `Routing.RingOwnersAreInTheTable` | internal/router/router.go:44-65 | in any interleaving no lookup finds its shard on the ring but not in the table |
| `Routing.OnlyAddingMovesKeys` | internal/router/router.go:25-29 | checks and failovers never change a key's shard |
| `Routing.UnhintedGoesToThePrimary` | internal/proxy/query.go:50-54 | a query without a hint is answered with its entry's primary |
| `Routing.ResolveDuringFailover` | internal/router/router.go:57-101 | a lookup answers from the one entry current at its read: a vouched primary, or a usable replica within a non-negative ceiling |
| `Sql.FindIsFirst` | internal/proxy/query.go:136-142 | the search returns the first occurrence and fails only when there is none |
| `Sql.ScanKeyword` | internal/proxy/query.go:130-155 | the loop terminates on every query with the specified keyword |
| `Sql.CloseIsItsOwnExactlyWhen` | internal/proxy/query.go:141-146 | the comment end found is the comment's own if and only if the body neither begins with a slash nor closes early |
| `Sql.OneTriviumIsTransparent` | internal/proxy/query.go:133-146 | one blank, line comment or such block comment leaves the keyword unchanged |
| `Sql.TriviaIsTransparent` | internal/proxy/query.go:118-155 | so does any sequence of them, and the verdict with it |
| `Sql.KeptExactlyWhenSkipped` | internal/proxy/query.go:118-155 | for any text: every query behind it keeps its keyword, and every one its verdict, if and only if the scan passes over the whole text |
| `Sql.IllFormedYetSkipped` | internal/proxy/query.go:141-146 | a comment that ends too early and is passed over nevertheless |
| `Sql.SlashClosesOnTheOpener` | internal/proxy/query.go:142-146 | after a body that begins with a slash the scan resumes inside the comment |
| `Sql.SlashBodyHidesTheKeyword` | internal/proxy/query.go:142-142 | such a comment hides a transaction keyword |
| `Sql.WordIsTheKeyword` | internal/proxy/query.go:148-152 | the keyword is the whole first word |
| `Sql.HintsAreAlwaysUsable` | internal/proxy/query.go:50-69 | every query yields a known level, and a bounded one a ceiling that is not negative |
| `Sql.BoundedHintRoundTrip` | internal/proxy/query.go:41-65 | a written hint with any number reads back as it, or as the default past 63 bits |
| `HintLaws.UnhintedIsStrong` | internal/proxy/query.go:50-54 | a query whose first non-blank characters are not two dashes is strong |
| `HintLaws.HintMeansItsWord` | internal/proxy/query.go:41-69 | a hint with any blanks and case: eventual, bounded with the default ceiling when no number follows, strong for any other word |
| `HintLaws.NumberedHintIsItsNumber` | internal/proxy/query.go:58-65 | a bounded hint with a number asks for it, or for the default past 63 bits |
| `HintLaws.OnlyHintsAreNotStrong` | internal/proxy/query.go:41-69 | a query read as anything but strong is written as such a hint |
| `Transactions.BlankExactlyWhen` | internal/proxy/query.go:133-133 | the blanks passed over are space, tab, carriage return and newline |
| `Transactions.RefusedExactlyForTheEight` | internal/proxy/query.go:118-124 | with a given first word, transaction control if and only if it is one of the eight words, in any case |
| `Transactions.TransactionControlExactlyWhen` | internal/proxy/query.go:118-155 | on every query: transaction control if and only if its first word, behind what the scan passes over, is one of the eight |
| `Pool.Manager.Get` | internal/pool/pool.go:62-83 | the attached pool, or a new one attached, or an error with nothing attached |
| `Pool.Manager.Publish` | internal/pool/pool.go:75-82 | the first creator wins, and the loser's pool is closed |
| `Pool.Manager.Drain` | internal/pool/pool.go:109-130 | the address is detached and its pool closed |
| `Pool.Manager.Close` | internal/pool/pool.go:87-99 | every attached pool is closed once and none stays attached |
| `Pool.PoolsAreConserved` | internal/pool/pool.go:62-130 | in any interleaving each pool is with its creator, under one address, or closed once |
| `Pool.GetReturnsAnAttachedPool` | internal/pool/pool.go:62-83 | the step that ends a call has the returned pool attached under the call's address |
| `Pool.GotPoolsWereAttached` | internal/pool/pool.go:62-83 | every successful call of every run has such a step |
| `Pool.DrainDetaches` | internal/pool/pool.go:109-130 | a drain leaves nothing under its address, closes what was there and touches no other |
| `Pool.DrainedPoolsStayOut` | internal/pool/pool.go:62-130 | in any interleaving a pool once handed to close is never attached again, and no later call returns it |
| `Wire.ReadsExactlyWhatWasWritten` | internal/proxy/protocol.go:114-143 | a read succeeds if and only if the stream begins with a written message that fits its length field |
| `Wire.StreamRoundTrip` | internal/proxy/protocol.go:114-143 | any list of fitting messages reads back as itself, then a clean end |
| `Wire.SpelledOut` | internal/proxy/protocol.go:134-143 | network byte order, and a length that counts itself |
| `Wire.CleanEndExactlyWhen` | internal/proxy/protocol.go:114-132 | where a stream must stop for the read to report a clean end |
| `Wire.SplitIsUnique` | internal/proxy/protocol.go:92-109 | a run's strings and tail are determined by its bytes |
| `Wire.SplitCStrings` | internal/proxy/protocol.go:92-109 | fails exactly when not zero-terminated, else returns the run's strings |
| `Wire.SplitInvertsJoin` | internal/proxy/protocol.go:89-109 | splitting returns exactly the joined strings, empty ones included |
| `Wire.TailIsDroppedExactlyWhen` | internal/proxy/protocol.go:96-108 | bytes are lost exactly when the run does not end in a NUL |
| `Wire.ParseStartupParams` | internal/proxy/protocol.go:77-87 | the error cases and the map of the run's strings |
| `Wire.LastValueWins` | internal/proxy/protocol.go:82-85 | a key is defined exactly when sent, with its last value |
| `Wire.GreetingRoundTrip` | internal/proxy/protocol.go:27-53 | each encryption request is refused once and the parameter section arrives intact |
| `Wire.StartupSpelledOut` | internal/proxy/protocol.go:17-21 | the three startup codes as bytes, and what each does |
| `WireRows.DataRow` | internal/proxy/protocol.go:237-252 | the loop builds the row's payload |
| `WireRows.RowReadsBackExactlyWhen` | internal/proxy/protocol.go:233-252 | a row reads back, NULL apart from empty text, if and only if it has at most 65535 columns and every text is shorter than 2^31 bytes |
| `WireRows.RowDescription` | internal/proxy/protocol.go:218-231 | the loop builds the description's payload |
| `WireRows.DescriptionReadsBackExactlyWhen` | internal/proxy/protocol.go:214-231 | it reads back as text columns if and only if names are NUL-free and their number fits |
| `WireRows.ErrorReadsBackExactlyWhen` | internal/proxy/protocol.go:195-208 | severity, code and message read back if and only if they are NUL-free |
| `Session.Conn.ReadFull` | internal/proxy/protocol.go:58-72 | the next bytes, or which kind of end was met |
| `Session.Conn.ReadMessage` | internal/proxy/protocol.go:114-132 | the next message of the specification, the stream advanced past it |
| `Session.Conn.StartupParams` | internal/proxy/protocol.go:27-53 | refuses each encryption request, then the parameters or a failed startup |
| `Session.Conn.StreamResult` | internal/proxy/query.go:169-200 | the specified replies, cut at the first failed write; the rows are drained before any acknowledgement |
| `Session.Conn.HandleQuery` | internal/proxy/query.go:77-101 | the branches in order, with every lookup and backend call they make |
| `Session.Conn.WriteHandshake` | internal/proxy/listener.go:79-95 | authentication, the eleven parameters, key data, ready, flush |
| `Session.Conn.Serve` | internal/proxy/listener.go:97-130 | one reply, one ready and one flush per message until Terminate or an error |
| `Session.Conn.HandleConn` | internal/proxy/listener.go:67-131 | the whole connection does exactly the transcript, cut at the first failed write |
| `SessionLaws.TurnIsOneReply` | internal/proxy/listener.go:106-118 | every request gets exactly one of E, C, T D* C, T D* E |
| `SessionLaws.SessionGrammar` | internal/proxy/listener.go:67-131 | a session says R, eleven S, K, Z and then one reply and one Z per request before Terminate |
| `SessionLaws.OneReadyPerRequest` | internal/proxy/listener.go:120-126 | the number of Z after the greeting is the number of requests |
| `SessionLaws.StartupRoundTrip` | internal/proxy/protocol.go:23-87 | a client's parameters arrive as sent, however many encryption requests come first |
| `SessionLaws.LookupsNameTheClient` | internal/proxy/query.go:30-35 | every lookup of a session is for the application name its client sent last, or for its user when that is absent or empty, read off the startup bytes |
| `SessionLaws.CommentedTransactionsAreRefused` | internal/proxy/query.go:77-80 | a transaction keyword behind anything the scan passes over gets one error reply and reaches no router, pool or backend |
| `SessionLaws.EverySessionIsSound` | internal/proxy/query.go:77-200 | with writes failing anywhere: no C without a clean end of the rows just before, no transaction statement on a backend, no unusable lookup |
| `SessionLaws.AcknowledgedExactlyWhen` | internal/proxy/query.go:157-200 | a result is acknowledged if and only if the statement succeeded and every row to be sent could be decoded |
| `SessionReads.ClientReadsTheResult` | internal/proxy/query.go:169-200 | when all rows decode, the client's own readers read the column names, every row as the backend gave it, and then the tag or the error |
| `SessionReads.ClientReadsUpToABadRow` | internal/proxy/query.go:186-189 | the rows before the first that does not decode, and then what was wrong with it |
| `SessionReads.ClientReadsTheEnd` | internal/proxy/query.go:161-168 | without columns, the tag or the error alone |
| `SessionReads.FailureIsRead` | internal/proxy/query.go:202-214 | a backend's code and message reach the client each in its place, and XX000 for any other error |
| `SessionReads.EarlyFailuresAreRead` | internal/proxy/query.go:84-97 | each step that can fail before the rows gives one error with its own code and words |
| `SessionReads.NoBackendSays` | internal/proxy/query.go:91-91 | the words name the node and the reason |
| `SessionReads.OtherMessagesAreUnsupported` | internal/proxy/listener.go:114-117 | a message that is no query gets one 0A000 error and asks nothing |
| `SessionReads.RefusedExactlyWhen` | internal/proxy/query.go:77-85 | a query gets the single 0A000 refusal if and only if its first word is one of the eight; any other is looked up first |
| `SessionReads.UnhintedQueriesAreStrong` | internal/proxy/query.go:82-84 | a query without a hint is looked up as strong |
| `SessionReads.QueriesAreTheClients` | internal/proxy/query.go:84-94 | what reaches a backend is the client's own text, on the node resolved, from a pool that was got, and no transaction statement |
| `SessionReads.TrimmedText` | internal/proxy/listener.go:108-108 | the text is the payload without its trailing NULs and nothing else |
| `SessionReads.RequestsAreTheMessages` | internal/proxy/listener.go:97-113 | the requests served are the messages read, up to the first Terminate |
| `SessionReads.HandshakeIsRead` | internal/proxy/listener.go:79-95 | the client reads authentication, eleven parameters each under its own name, an empty key, ready and idle |
| `SessionReads.ParametersAnnounced` | internal/proxy/protocol.go:168-182 | the parameters drivers depend on, and the client's own user and application name |
| `SessionReads.EverySessionIsPrompt` | internal/proxy/listener.go:120-129 | every ready and every refusal of encryption is flushed at once |
| `SessionLaws.CutShortIsAPrefix` | internal/proxy/listener.go:109-129 | failing writes leave a prefix, the whole exactly when they suffice |
| `SessionLaws.ClientReadsTheSession` | internal/proxy/listener.go:67-131 | after the refusals, the bytes sent read back as exactly the messages said |
| `Simulator.Simulation.Action` | internal/simulator/server.go:224-288 | the edited copy is published, and every error leaves the table as it was |
| `Simulator.Candidate` | internal/simulator/server.go:260-265 | the simulator's scan selects the index the failover controller would |
| `Simulator.ActionsKeepTheNodes` | internal/simulator/server.go:236-282 | an action keeps a shard's addresses, and their places unless it promotes |
| `Simulator.FleetIsKept` | internal/simulator/server.go:224-288 | so does any sequence of actions, resets included |
| `Simulator.PromoteAgreesWithFailover` | internal/simulator/server.go:259-275 | a simulated promotion installs the real one's primary and keeps the old one as DOWN |
| `Simulator.ToggleTwiceExactlyWhen` | internal/simulator/server.go:240-251 | toggling twice restores the shard if and only if the node was UP or DOWN |
| `Simulator.LagIsSet` | internal/simulator/server.go:252-258 | exactly the named replicas get the lag, and nothing else changes |
| `Simulator.ToggleIsOneNode` | internal/simulator/server.go:240-251 | the named node goes from DOWN to UP or from anything else to DOWN, and no other node changes |

## Left out

- TCP accept loop, contexts, tickers, signals and logging: I/O and real time. A timed-out question is an unanswered one.
- pgx, pgxpool and the SQL of `internal/health/backends.go`: the five operations are answers chosen by the environment.
- Data-level split brain: the old primary is not fenced (`internal/health/failover.go:51-53`). The claims are about what the proxy routes and promotes.
- CRC-32: the hash is an arbitrary function into 32-bit values. Go's `sort` is replaced by an insertion sort, and `sort.Search` is written as a loop.
- Aliasing of shard entries: an entry is a value, which is what the replace-never-mutate contract of `internal/shardmap/shardmap.go:55-57` gives its readers.
- Integer widths of miss counts and lags: unbounded here. Lengths on the wire are taken modulo their field's width, as in the code.
- A pool that a late `Get` creates again after a drain is allowed by the code and by the model.
- Removing a shard while lookups run: nothing in the repository calls it on a live ring, so `Routing` only adds.
- `formatPGValue`: column texts are opaque bytes. The quoting of an unsupported message type is a parameter.
- YAML loading and the rest of `internal/config`, the simulator's HTTP, events and UI, the chaos harness, metrics, `cmd` and `internal/app`.
- Session.Conn.Write: a write succeeds or fails as a whole; how the buffered writer splits bytes into packets, and bytes of a write that failed part-way, are not modelled.
- Session.Conn.HandleQuery: routing, pool and backend answer from an arbitrary oracle, one answer per request; `Routing` and `Pool` say what the real ones answer.
- Sql.HintsAreAlwaysUsable: the hint's regular expression is an ASCII scanner; Unicode blanks and case folding are not modelled.
- Pool.Manager.Get: the class method runs undisturbed; its interleaving with other calls is the machine of the same module.
- Checker.HealthChecker.Sweep: runs one shard after another, on one set of answers, with no other sweep active; every overlap is in `World`, where goroutines are interleaved steps.
