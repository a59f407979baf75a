# Verified models of the table builder, the lease protocol and the containers of the network framework

This project models the parts of the repository that are hardest to get right and proves what they are for.

* **Bucket tables (tair).** `TableBuilder` rebuilds the table that says which servers hold the copies of which bucket. It
  starts from any old table, keeps counters and two inverse indexes of them, and relaxes its demands level by level.
  Proved: the counters and indexes are exact at every step; with strategy 1 a build succeeds if and only if there are
  enough servers, every server masters exactly its share and shares differ by at most one; copies of a bucket are on
  different available servers; with strategy 2 every bucket spans two positions; every single entry is what an exact
  reading of the admission test and of the search decides in a state that the result determines, so that with strategy 1
  copies share a position only for want of a server that the stricter levels could see; and masters stay exactly if they
  lie evenly already. The quick repair conserves the surviving copies.
* **Migration (tair).** `GroupInfo` moves from the quick table to the rebuilt one, bucket by bucket. Proved: the set-style
  test that finds the buckets to move is exact for tables built this way, and over every run of reports the bookkeeping
  equals the number of columns that differ, no column is ever torn, the asserts of the code hold, a restart in the middle
  finds the lost bookkeeping again, and the tables meet exactly when every bucket that had to move has been reported by
  its master. The promises of the builder reach the group's own tables.
* **PaxosLease (PL).** Proposers, acceptors and learners as objects that change in place, and a cell of nodes as a step
  relation over nodes, messages and a clock. Proved: no two nodes believe to hold the lease at once, save on the last tick
  of a lease if an acceptor's timer fires on that tick; what a node believes of another's lease ends with that lease
  exactly if the announcement came within the margin; a round is given up exactly when no majority can be reached any
  more; promises and ballots never go back; ballots never collide; and concrete runs show that the exception happens and
  that the delivery premise of the theorem is needed.
* **Lease messages (PL).** The text of each of the eight message types, field by field; printing and scanning are inverse
  to each other; a failed read leaves a stated mixture of old and new fields, with 0 in the field whose number had no
  digits.
* **Argument permutation (GetOpt).** The in-place rotation along gcd cycles swaps two blocks, and a whole scan is a stable
  partition of the arguments, end marker included. The marker ends the options exactly if something was skipped before it
  or no option comes next.
* **Red-black tree and timers (netfram).** Insertion and deletion on links kept in maps keep a red-black tree. A node with
  two real children is replaced by the first node of the whole tree (netfram/RBTree.h:158-164), so its deletion keeps the
  order exactly if all nodes before it have the least key. Timers expire in order, once each, while the order holds; a
  sequence of calls shows an event delayed when it does not.
* **Skip list (netfram).** Every operation refines one on a descending sequence.

## How it is modelled

* A server is an id and a position; the position is a function of the id (`posOf`, for the mask of
  tair/table_builder.cpp:516-519). `available_server` is a sequence without repetitions in iteration order, and must not
  be empty, because the capacities are computed by dividing by its size. A group of candidates is walked in any order,
  which covers the random start of tair/table_builder.cpp:311-321. Counters and table sizes are unbounded integers. The
  levels from `CONSIDER_ALL` to `CONSIDER_FORCE` are 0 to 3 (tair/table_builder.hpp:31-34). `rebuild_table` is modelled as
  it is called, with `no_quick_table` true. The per-room limits and capacities of strategy 2, which the code computes in
  floating point, are arbitrary. Its normal state needs two copies, as tair/table_builder2.cpp:164 asserts.
* The lease protocol has one unit of time, clocks that run at one rate with arbitrary offsets, and no restarts. Messages
  are lost, delayed and reordered, never duplicated. Acceptor timers fire from the stored expiry on, as
  netfram/Timer.cpp:103-105 has it; on that tick the owner still believes in the lease. A propose request is delivered
  only to nodes that have answered the prepare request of its ballot (`strict` runs). The step that drops a prepare
  request for its paxos id may happen or not. In the relation the callbacks of `PaxosLease`, which start and stop
  acquisitions, are steps of their own that may come at any time; the object runs them inside its handlers, and
  `LearnIsSteps` says which steps that makes. Ballots are unbounded; `BallotDiscipline` says when they fit 64 bits. The
  shifts and ors of `NextHighest` are written as arithmetic.
* The links of the red-black tree and of the skip list are maps from node numbers that the methods update in place. Loops
  of the source that hold several cases are split into methods for their rounds.
* Where code and comment disagree, the code is followed: `InitRestartCounter` assigns a local variable, so the restart
  counter of a configuration is whatever it was (PL/ReplicatedConfig.cpp:65-103).

## Model

| member | source | states |
|---|---|---|
| `TableBuilders.TableBuilder.Rebuild` | tair/table_builder.cpp:378-508 | from any source table: with strategy 1 the build succeeds if and only if there are at least copyCount servers; on success all entries are available servers, copies of a bucket are on different servers, strategy 1 masters exactly masterCap buckets per server, strategy 2 spans two positions per bucket; where the master of a bucket was kept, the first slave that differs was nowhere else in the old bucket; there is a table after the first pass such that each master and each slave is as decided in its turn, and with strategy 1 a slave that shares a position with an earlier copy was forced to; strategy 1 keeps the line of masters if and only if they are all available and lie evenly (and, with fewer buckets than servers, on the last servers in line) |
| `TableBuilders.TableBuilder.RunPasses` | tair/table_builder.cpp:436-507 | both passes keep counters and indexes exact, never give up when there is room, rebuild every column by decisions that each have their reason, and leave even shares exactly filled |
| `TableBuilders.TableBuilder.FirstPass` | tair/table_builder.cpp:438-502 | the master line ends with available masters only and no server above its share, slaves unharmed; each master was kept, exchanged for the right slave, or replaced by whom the search finds, with counters and running totals exact at that moment |
| `TableBuilders.TableBuilder.SecondPass` | tair/table_builder.cpp:438-502 | the slave lines end with available servers different from the rest of their column; masters are untouched; each slave was decided with counters and running totals exact at that moment |
| `TableBuilders.TableBuilder.CheckMaster` | tair/table_builder.cpp:447-497 | one bucket of the first pass: kept if it passes, else exchanged for the first of the available slaves with the fewest masterships if that has room, else replaced; the new master has one slot more |
| `TableBuilders.TableBuilder.CheckSlave` | tair/table_builder.cpp:447-497 | one slot of the second pass: kept if and only if its holder passes the strictest test, else replaced by whom the search finds for the emptied slot |
| `TableBuilders.TableBuilder.SettleMasters` | tair/table_builder.cpp:436-507 | after the first pass capacities that sum to the bucket count are met exactly |
| `Passes.ExactBalance` | tair/table_builder.cpp:436-507 | if shares sum to the number of buckets, all masters are available and no server above its share masters anything, every server masters exactly its share |
| `Passes.BothPasses` | tair/table_builder.cpp:436-507 | what both passes together do to each column: available, pairwise different, two positions under the rack rule, and under a kept master the first changed slave is new to the bucket |
| `Setup.ShareOut` | tair/table_builder1.cpp:81-186 | the shares are the floor or one more, and sum exactly to the total, whatever the counts were; the larger ones go to those whom GetsMore names |
| `Setup.HandOut` | tair/table_builder1.cpp:134-183 | the larger shares go to the servers above the old mean, in order, as long as they last, and then to the last of the others |
| `Setup.MeanOfBusy` | tair/table_builder1.cpp:104-129 | the mean of the nonzero counts, rounded down |
| `Setup.SharesKeepIff` | tair/table_builder1.cpp:134-183 | shares handed out anew are as the tokens lie already if and only if those lie evenly and, with fewer tokens than servers, on the last servers in line |
| `TableBuilders.TableBuilder.CalculateCapable` | tair/table_builder1.cpp:77-186 | the master shares of strategy 1 are even and sum to the bucket count; both kinds of shares and the limits of the middle levels are as handed out |
| `TableBuilders.TableBuilder.Prepare` | tair/table_builder.cpp:382-414 | counters equal true occurrence counts and both indexes are their exact inverses before the passes start |
| `Setup.CountTable` | tair/table_builder.cpp:382-403 | the counters are the numbers of occurrences in the table and in its master line |
| `Setup.BuildIndex` | tair/table_builder.cpp:138-145 | the index files each server exactly once, under its count |
| `Setup.InitCandidate` | tair/table_builder.cpp:262-276 | the candidate index files each server exactly once, under its surplus |
| `Tallies.BumpKeepsIndexed` | tair/table_builder.cpp:156-178 | changing a count refiles the server so that both indexes stay the inverse of the counts |
| `Books.LedgerAfterDrop` | tair/table_builder.cpp:180-196 | clearing a slot keeps all counters and indexes exact |
| `Books.LedgerAfterBump` | tair/table_builder.cpp:246-261 | filling a slot keeps all counters and indexes exact |
| `Books.LedgerAfterSwap` | tair/table_builder.cpp:225-244 | exchanging master and slave keeps all counters and indexes exact |
| `Books.SwapCounts` | tair/table_builder.cpp:225-244 | the exchange conserves every available server's copies and moves one mastership |
| `TableBuilders.TableBuilder.Invalidate` | tair/table_builder.cpp:180-196 | new table and tallies after clearing a slot |
| `TableBuilders.TableBuilder.Place` | tair/table_builder.cpp:246-261 | new table and tallies after filling a slot |
| `TableBuilders.TableBuilder.ChooseSlave` | tair/table_builder.cpp:201-213 | the first of the available slaves with the fewest masterships, if any is available |
| `TableBuilders.TableBuilder.ChangeMaster` | tair/table_builder.cpp:197-245 | succeeds if and only if such a slave exists and, unless forced, has room; then master and slave change places |
| `TableBuilders.TableBuilder.Judge` | tair/table_builder.cpp:278-345 | what acceptance gives on each line, and when the base and force levels must accept |
| `Decisions.View.Judge` | tair/table_builder1.cpp:31-75 | both admission tests: accepts if and only if the server is available, has room at the level, and fits with the other copies |
| `Decisions.BalanceClash` | tair/table_builder1.cpp:62-74 | accepts if and only if no other copy is on the server and, below the base level, none is in its position |
| `Decisions.RackClash` | tair/table_builder2.cpp:61-78 | accepts if and only if no other copy is on the server and, on a slave line in the normal state, the column then spans two positions |
| `TableBuilders.TableBuilder.ScanGroup` | tair/table_builder.cpp:307-338 | finds an accepted server of a candidate group if there is one, from any starting point, and the old holder if that one is accepted |
| `TableBuilders.TableBuilder.GetSuitable` | tair/table_builder.cpp:278-345 | the result is accepted at a level, nobody whom a stricter level sees is accepted there, the result has the least surplus of those accepted at its level, and is the old holder if that is as good; no result means that nobody is accepted at the most relaxed levels |
| `TableBuilders.TableBuilder.ScanLevel` | tair/table_builder.cpp:303-338 | groups are taken in ascending surplus, the first only at the strictest level and the first two at the next, empty ones counted |
| `Moments.SharedIsForced` | tair/table_builder1.cpp:67-72 | with strategy 1 a slave in the position of an earlier copy was placed because its old holder failed and nobody seen at the two levels that look at positions was accepted, in the state determined by the result |
| `Moments.MastersKeptIff` | tair/table_builder.cpp:447-470 | the line of masters is kept if and only if all masters are available and every server masters just its share |
| `TableBuilders.TableBuilder.SpareMaster` | tair/table_builder.cpp:475-483 | pigeonhole: with shares that sum to the bucket count and an unfilled master slot, some server is below its share |
| `TableBuilders.TableBuilder.SomeoneFits` | tair/table_builder.cpp:278-345 | for every cleared slot some server is accepted at the deciding level |
| `TableBuilders.TableBuilder.Replace` | tair/table_builder.cpp:475-486 | clearing and filling a slot never fails when there is room, and the new holder clashes with nothing |
| `QuickTables.QuickConserves` | tair/table_builder.cpp:347-375 | in a repaired column with a surviving copy the master is available, every available server holds as many copies as before, and all else is zero |
| `TableBuilders.TableBuilder.BuildQuickTable` | tair/table_builder.cpp:347-375 | without tolerated loss it succeeds if and only if every bucket has an available copy; then every column is repaired and cleaned |
| `TableBuilders.TableBuilder.RepairMasters` | tair/table_builder.cpp:349-364 | the first loop of the quick repair and exactly when it fails |
| `TableBuilders.TableBuilder.CleanSlaves` | tair/table_builder.cpp:365-373 | the second loop zeroes exactly the slaves that are not available |
| `Shortcut.ShortcutExact` | tair/group_info.cpp:73-120 | for a quick and a rebuilt column of the same source column the set-style test flags the bucket if and only if the columns differ |
| `Shortcut.EmptySlotIsFlagged` | tair/group_info.cpp:85-108 | a column with an empty slot can never hide all slaves of a full one |
| `Shortcut.UnflaggedIsSame` | tair/group_info.cpp:85-108 | a rebuilt column whose servers were all there before is unchanged |
| `Shortcut.InstalledIsRight` | tair/group_info.cpp:796-832 | the test stays exact for what rebuild installs, with one copy or tolerated loss too |
| `Migrations.FilledIsExact` | tair/group_info.cpp:73-120 | filling by an exact test makes the bookkeeping exact |
| `Migrations.FinishKeepsInv` | tair/group_info.cpp:1113-1151 | one report that stays inside the tables keeps the bookkeeping exact, and the server that moved a bucket is listed, as line 1141 asserts |
| `Migrations.FinishMoves` | tair/group_info.cpp:1117-1146 | a report by its master of a bucket that differs brings just that column to the destination's and lowers the count and that server's debt by one; any other report changes nothing |
| `Migrations.ReportsComplete` | tair/group_info.cpp:964-998 | once every differing bucket has been reported by its master, in any order and among any other reports, nobody owes anything and the tables are equal |
| `Migrations.CompleteIff` | tair/group_info.cpp:964-998 | the tables meet if and only if every differing bucket has been reported by its master |
| `Migrations.PlayKeepsInv` | tair/group_info.cpp:940-1017 | after any sequence of reports that stay inside the tables the bookkeeping is exact, every column is wholly old or wholly new, and an empty list means arrival |
| `Migrations.DebtsSumUp` | tair/group_info.cpp:109-119 | the servers' debts sum to the number of differing columns and to migrate_block_count |
| `Migrations.EmptyMachineMeansDone` | tair/group_info.cpp:970-998 | with no server listed the tables are equal, as line 996 asserts |
| `Migrations.CellsInRange` | tair/group_info.cpp:1117-1130 | a bucket number has all its cells inside the table if and only if it is below the bucket count; the guard of the code admits one more |
| `Migrations.SafeIsInBounds` | tair/group_info.cpp:1117-1130 | a report reads only cells inside the tables if and only if it is not for bucket number bucketCount, no migration runs, or the first cell of the second line exists and names another server |
| `Migrations.FinishKeepsShortcut` | tair/group_info.cpp:1128-1137 | in a half-migrated table the set-style test is still right about every bucket |
| `Migrations.RestartRestores` | tair/group_info.cpp:62-67 | after any sequence of reports filling anew from the tables gives back exactly the debts and the count that were lost |
| `GroupInfos.GroupInfo.Load` | tair/table_builder.cpp:523-535 | the loaded table has the columns of m |
| `GroupInfos.GroupInfo.Write` | tair/table_builder.cpp:536-548 | the written array has the columns of the table |
| `GroupInfos.GroupInfo.MustMove` | tair/group_info.cpp:80-108 | the loops compute the set-style test |
| `GroupInfos.GroupInfo.FillMigrateMachine` | tair/group_info.cpp:73-120 | counts flagged buckets in all and per master |
| `GroupInfos.GroupInfo.Restart` | tair/group_info.cpp:1077-1079 | a restart that fills anew when buckets are left to move comes back to the same state |
| `GroupInfos.GroupInfo.AdoptLost` | tair/group_info.cpp:800-831 | exactly buckets whose master is gone take the destination's column |
| `GroupInfos.GroupInfo.Install` | tair/group_info.cpp:792-832 | the three tables after a rebuild that migrates |
| `GroupInfos.GroupInfo.Rebuild` | tair/group_info.cpp:678-935 | with strategy 1 fails exactly for want of servers or for a bucket lost beyond tolerance, changing no table; on success every bucket of the destination is on different available servers, each server masters the floor of the mean or one more (strategy 1), each bucket of several copies is in two positions (strategy 2), every bucket with a surviving copy keeps exactly its surviving copies in the table in use, lost ones take the destination's column, and the bookkeeping is exact |
| `GroupInfos.LineIsBalanced` | tair/table_builder1.cpp:81-186 | even masters of the built table are even counts of ids in the first line of the flat one |
| `GroupInfos.CarriedColumn` | tair/group_info.cpp:796-832 | the installed column conserves a surviving bucket's copies, and a lost bucket's is the destination's |
| `GroupInfos.GroupInfo.CopyColumn` | tair/group_info.cpp:1128-1137 | entry by entry the column becomes the destination's; says whether anything differed |
| `GroupInfos.GroupInfo.SetMigrating` | tair/group_info.cpp:1113-1151 | refines one report step, for every report that stays inside the tables, and keeps the bookkeeping and the exactness of the test |
| `GroupInfos.GroupInfo.FinishMigrate` | tair/group_info.cpp:940-963 | reports of another version change nothing; others are one report step |
| `GroupInfos.GroupInfo.CheckMigrateComplete` | tair/group_info.cpp:964-1017 | when done says so; on arrival, and only then, the table in use becomes the destination and both versions grow by one |
| `PLease.Config.NextHighest` | PL/ReplicatedConfig.cpp:112-131 | the new ballot is higher and carries its node's id |
| `PLease.BallotDiscipline` | PL/ReplicatedConfig.cpp:112-131 | ballots strictly increase, never collide between nodes nor between restart counters of one node, and fit 64 bits below the stated bound |
| `PLeaseRounds.GivenUpExactly` | PL/PLeaseProposer.cpp:134-138 | the limit of rejections is reached if and only if the other nodes are no majority |
| `PLeaseRounds.StartIsFresh` | PL/PLeaseProposer.cpp:190-213 | a round starts with nothing counted, for the node itself, and a ballot above all it has seen |
| `PLeaseRounds.PrepareRound` | PL/PLeaseProposer.cpp:116-143 | over any sequence of answers: the proposer asks again, with a higher ballot, if and only if a majority can no longer be reached, and otherwise goes on if and only if a majority has promised, proposing if and only if a highest acceptance reported is its own or there is none |
| `PLeaseRounds.ProposeRound` | PL/PLeaseProposer.cpp:145-188 | over any sequence of answers: the lease is announced if and only if a majority has accepted with more than the margin left; otherwise the proposer asks again if and only if all nodes have answered |
| `PLeaseSystem.PrepareDeliveryIsHandler` | PL/PLeaseProposer.cpp:116-143 | delivering a prepare answer changes a node and the net as the proposer's handler says |
| `PLeaseSystem.ProposeDeliveryIsHandler` | PL/PLeaseProposer.cpp:145-182 | delivering a propose answer changes a node and the net as the proposer's handler says |
| `PLeaseInv.MajoritiesMeet` | PL/ReplicatedConfig.cpp:107-110 | two majorities have a node in common |
| `PLeaseInv.SameOwner` | PL/PLeaseAcceptor.cpp:60-128 | ballots chosen while a lease runs belong to its owner |
| `PLeaseInv.Exclusive` | PL/PLeaseLearner.cpp:98-106 | in a state that satisfies the invariant at most one node holds the lease, unless a lease is in its last tick and a timer has fired on its expiry tick on this very tick |
| `PLeaseKeeps.StartKeeps` | PL/PLeaseProposer.cpp:190-213 | starting a round keeps the invariant |
| `PLeaseKeeps.ProposeKeeps` | PL/PLeaseProposer.cpp:215-233 | starting to propose keeps the invariant |
| `PLeaseKeeps.LearnKeeps` | PL/PLeaseLearner.cpp:41-70 | learning a lease keeps the invariant |
| `PLeaseKeeps.AcceptorTimerKeeps` | PL/PLeaseAcceptor.cpp:130-133 | an acceptor's timeout at any time from the stored expiry on keeps the invariant |
| `PLeaseAnswers.AnswerPrepareKeeps` | PL/PLeaseAcceptor.cpp:60-96 | answering a prepare request keeps the invariant |
| `PLeaseAnswers.AnswerProposeKeeps` | PL/PLeaseAcceptor.cpp:98-128 | answering a propose request keeps the invariant |
| `PLeaseSafety.CountPrepareKeeps` | PL/PLeaseProposer.cpp:116-143 | counting a prepare response keeps the invariant |
| `PLeaseSafety.CountProposeKeeps` | PL/PLeaseProposer.cpp:145-165 | counting a propose response keeps the invariant |
| `PLeaseSafety.AnnounceKeeps` | PL/PLeaseProposer.cpp:166-181 | announcing a majority keeps the invariant |
| `PLeaseSafety.StepKeeps` | PL/PaxosLease.cpp:31-53 | every step of a strict run keeps the invariant |
| `PLeaseSafety.RunInv` | PL/PaxosLease.cpp:31-53 | so does every strict run |
| `PLeaseSafety.LeaseMutualExclusion` | PL/PLeaseLearner.cpp:98-106 | in every strict run, at every point, two different nodes answer true to IsLeaseOwner only if one of their leases is in its last tick and some acceptor's timer has fired, on its expiry tick, at the current clock value |
| `PLeaseSafety.ExclusionOffTheTick` | PL/PLeaseAcceptor.cpp:119-121 | in every strict run, on every tick on which no acceptor's timer has fired on its expiry tick, at most one node answers true |
| `PLeaseSafety.ExclusionBeforeTheLastTick` | PL/PLeaseLearner.cpp:98-106 | in every strict run at most one node answers true whose lease is not in its last tick |
| `PLeaseBelief.BeliefEnds` | PL/PLeaseLearner.cpp:49-53 | in every strict run a node that names another as owner does so no longer than that one's lease lasts if and only if it has learned of it within the margin; if the owner knows its lease, whenever it is named it answers true itself if and only if so |
| `PLeaseBelief.LeaseAgreement` | PL/PLeaseLearner.cpp:98-126 | in every strict run, if GetLeaseOwner at one node answers i and IsLeaseOwner at another answers true, that one is i, unless the first has learned of the lease later than the margin allows, or a lease is in its last tick and a timer has fired on it |
| `PLeaseBelief.Learns` | PL/PLeaseLearner.cpp:49-53 | the stored expiry outlasts the announced lease if and only if the announcement is older than the margin |
| `PLeaseBelief.RunNews` | PL/PLeaseProposer.cpp:166-181 | in every strict run each announcement is of a chosen ballot with more than the margin left, and each belief is of one |
| `PLeaseBelief.AnnouncedWhen` | PL/PLeaseProposer.cpp:166-181 | the recorded time of an announcement is the time of the step that sent it to all nodes |
| `PLeaseLoose.LooseRunsShareTheLease` | PL/PLeaseAcceptor.cpp:111-124 | a reachable state of a run without the delivery premise in which two nodes answer true before the last tick of either lease |
| `PLeaseLoose.LastTickIsShared` | netfram/Timer.cpp:103-105 | a reachable state of a strict run of two nodes, in the last tick of a lease, in which both answer true |
| `PLeaseBallots.BallotsMonotone` | PL/PLeaseAcceptor.cpp:79-92 | over every run promises, highest ballots and own ballots never go back, across timeouts too |
| `PLeaseBallots.NewBallotAboveAllSeen` | PL/PaxosLease.cpp:40-43 | a ballot taken up is above every request ballot received and every ballot used before |
| `PLeaseBallots.BallotsNeverShared` | PL/ReplicatedConfig.cpp:112-131 | no two nodes use the same ballot at any two points of a run |
| `PLeaseRoles.PLeaseProposer.StartPreparing` | PL/PLeaseProposer.cpp:190-213 | the new proposer state and the request sent |
| `PLeaseRoles.PLeaseProposer.StartAcquireLease` | PL/PLeaseProposer.cpp:39-45 | starts a round exactly if none is under way |
| `PLeaseRoles.PLeaseProposer.StartProposing` | PL/PLeaseProposer.cpp:215-233 | proposes only for itself |
| `PLeaseRoles.PLeaseProposer.OnPrepareResponse` | PL/PLeaseProposer.cpp:116-143 | the new proposer state and what is sent; a prepare request, with a ballot above all before, if and only if the nodes that have not refused are no majority |
| `PLeaseRoles.PLeaseProposer.OnProposeResponse` | PL/PLeaseProposer.cpp:145-188 | the new proposer state and what is sent; an announcement if and only if more than half have accepted with more than the margin left |
| `PLeaseRoles.PLeaseAcceptor.OnPrepareRequest` | PL/PLeaseAcceptor.cpp:60-96 | the reply in each case and the promise, which never goes back; a lapsed acceptance is forgotten first |
| `PLeaseRoles.PLeaseAcceptor.OnProposeRequest` | PL/PLeaseAcceptor.cpp:98-128 | accepts exactly ballots not below the promise, with its fields and expiry, and leaves the promise alone |
| `PLeaseRoles.PLeaseAcceptor.OnLeaseTimeout` | PL/PLeaseState.h:49-56 | forgets the acceptance and keeps the promise |
| `PLeaseRoles.PLeaseLearner.OnLearnChosen` | PL/PLeaseLearner.cpp:41-70 | when a lease is taken over and until when: the owner's own expiry, or the margin less than announced, with unsigned wrap-around; otherwise only a lapsed lease is dropped |
| `PLeaseRoles.PLeaseLearner.IsLeaseOwner` | PL/PLeaseLearner.cpp:98-106 | the answer, after dropping a lapsed lease |
| `PLeaseRoles.PLeaseLearner.GetLeaseOwner` | PL/PLeaseLearner.cpp:118-126 | agrees with IsLeaseOwner for every node |
| `PLeaseRoles.PaxosLease.OnRead` | PL/PaxosLease.cpp:31-53 | the whole node after one message, the learner's callbacks included, and what it sends |
| `PLeaseRoles.PaxosLease.OnLearnChosen` | PL/PaxosLease.cpp:105-117 | the learner's handler starts a round after a lapsed lease and stops one when somebody else has the lease |
| `PLeaseRoles.PaxosLease.AcquireLease` | PL/PaxosLease.cpp:55-59 | the whole node wants the lease from then on and starts a round exactly if none is under way |
| `PLeaseRoles.AcquireIsStep` | PL/PaxosLease.cpp:55-59 | that is the step of the relation that starts a round, or no step |
| `PLeaseRoles.LearnIsSteps` | PL/PaxosLease.cpp:105-117 | one call of OnRead with a learner's message is one to three steps of the relation: a round started, the delivery, a round stopped |
| `PLeaseRoles.DeliverIsRead` | PL/PaxosLease.cpp:31-53 | for requests and answers a delivery step of the relation is one OnRead at the destination, and nothing else changes |
| `PLeaseCodec.RoundTrip` | PL/PLeaseMsg.cpp:115-217 | for all eight types and all 32- and 64-bit field values reading what was written gives back the message, and what is written is short enough for its block |
| `PLeaseCodec.EncodeIsText` | PL/PLeaseMsg.cpp:166-217 | what is written is, for each type, its character and the decimals of its named fields in this order, joined by colons |
| `PLeaseCodec.TextIsRead` | PL/PLeaseMsg.cpp:115-164 | reading such a text gives the message with these fields |
| `PLeaseCodec.ScanPrint` | netfram/common.cpp:220-339 | scanning what a format prints gives back the values and consumes everything |
| `PLeaseCodec.PrefixesStayBelow` | netfram/common.cpp:76-81 | reading a printed number the accumulator never exceeds it, so it cannot wrap |
| `PLeaseCodec.EncodeInjective` | PL/PLeaseMsg.cpp:166-217 | different messages are written differently |
| `PLeaseCodec.Strntouint64` | netfram/common.cpp:58-88 | reads the leading digits, modulo 2^64 |
| `PLeaseCodec.Snreadf` | netfram/common.cpp:220-339 | the loop refines the recursive scan, the values stored before a failure included |
| `PLeaseCodec.FailedNumberIsZero` | netfram/common.cpp:261-279 | a number directive that finds no digit after a format that matched stores 0 and ends the scan |
| `PLeaseCodec.PLeaseMsg.Set` | PL/PLeaseMsg.cpp:8-89 | each field of the type is set under its name, the others keep their values |
| `PLeaseCodec.PLeaseMsg.Write` | PL/PLeaseMsg.cpp:166-217 | the text of the fields by name; nothing for no type |
| `PLeaseCodec.PLeaseMsg.Read` | PL/PLeaseMsg.cpp:115-164 | succeeds exactly if the whole text is a message, which the object then holds, each field of its text under its name; after a failure the fields whose directives were read hold what was read, the field whose number failed becomes 0, and the others hold what they held |
| `Cycles.GcdFacts` | netfram/GetOpt.cpp:627-637 | Gcb divides both numbers and is a combination of both |
| `Cycles.CycleIsOrbit` | netfram/GetOpt.cpp:344-365 | a cycle comes back after n / gcd moves and not before |
| `Cycles.PosCovers` | netfram/GetOpt.cpp:344-365 | a cycle visits every place of its class modulo the gcd |
| `GetOpts.CyclesSwapBlocks` | netfram/GetOpt.cpp:327-366 | following all cycles is swapping the two blocks |
| `GetOpts.GetOpt.Gcb` | netfram/GetOpt.cpp:627-637 | the loop computes the greatest common divisor |
| `GetOpts.GetOpt.PermuteArgs` | netfram/GetOpt.cpp:327-366 | the two blocks change places, both in order, nothing else moves, and optInd ends behind the options |
| `GetOpts.GetOpt.Permute` | netfram/GetOpt.cpp:156-200 | the arguments stay a stable partition; stops at an option, past an end marker that has moved before all that was skipped, or at the end with optInd at the boundary |
| `GetOpts.GetOpt.NextChar` | netfram/GetOpt.cpp:368-416 | stops at an option or ends with the whole partition made; after a marker with nothing skipped before it an option is still taken and a second marker consumed |
| `GetOpts.MarkerEndsOptions` | netfram/GetOpt.cpp:176-187 | the end marker makes all that follows skipped if and only if something was skipped before it or no option comes next |
| `GetOpts.GetOpt.Scan` | netfram/GetOpt.cpp:156-200 | a whole scan of any arguments ends with the consumed ones in order, then the skipped ones in order, and optInd between |
| `GetOpts.PickAt` | netfram/GetOpt.cpp:156-200 | each argument comes right after those of its kind that were before it |
| `GetOpts.PickKeepsAll` | netfram/GetOpt.cpp:156-200 | no argument is lost or duplicated |
| `RBShape.RotateRep` | netfram/RBTree.h:522-590 | a rotation's pointer updates hold the rotated tree, parent links and root included, for either side |
| `RBColor.PlugColor` | netfram/RBTree.h:75-127 | a sound focus in a sound path is a sound tree with a black root |
| `RBColor.RecolourKeeps` | netfram/RBTree.h:81-87 | the red-uncle step moves the one possible violation two levels up and keeps the order |
| `RBColor.TurnKeeps` | netfram/RBTree.h:90-94 | the inner rotation keeps heights, order and the one possible violation |
| `RBColor.RotateDownKeeps` | netfram/RBTree.h:96-98 | the outer rotation removes the violation and keeps heights and order |
| `RBTrees.RBTree.LeftRotate` | netfram/RBTree.h:522-555 | the links after the rotation |
| `RBTrees.RBTree.RightRotate` | netfram/RBTree.h:557-590 | the links after the rotation |
| `RBTrees.RBTree.Hang` | netfram/RBTree.h:593-615 | the new red node hangs below a sentinel; in a sorted tree where everything before it is not above it and everything after it is |
| `RBTrees.RBTree.RepairStep` | netfram/RBTree.h:75-125 | one round of the loop keeps tree, colours and order and comes nearer to the root |
| `RBTrees.RBTree.Insert` | netfram/RBTree.h:51-131 | the tree is a red-black tree held by its links; the node is put into the old order, in a sorted one in its place; the root's parent link stays as it was and is null for a first node; nodes in no tree keep null links |
| `RBTrees.InsertKeepsSorted` | netfram/RBTree.h:593-607 | that place keeps the order sorted |
| `RBTrees.InsertAddsOne` | netfram/RBTree.h:51-131 | exactly the new node is added |
| `RBDelete.RedSibling` | netfram/RBTree.h:258-264 | the red-sibling step keeps links, order and the one missing black node |
| `RBDelete.BlackSibling` | netfram/RBTree.h:266-270 | the recolouring moves the missing black node one level up |
| `RBDelete.NearRed` | netfram/RBTree.h:273-279 | the rotation at the sibling keeps links, order and the missing black node |
| `RBDelete.FarRed` | netfram/RBTree.h:281-285 | the last rotation restores all red-black properties |
| `RBTrees.RBTree.Unlink` | netfram/RBTree.h:186-325 | a node other than the root is unlinked and the tree repaired; the root's parent link stays as it was |
| `RBTrees.RBTree.Delete` | netfram/RBTree.h:133-326 | a node with at most one real child just leaves the order; one with two is replaced by the first of all; the result is a red-black tree, sorted as before if and only if the node had at most one real child or only least keys before it; the root's parent link stays as it was unless the node was the root and had a real only child, which then points to it; a node with null links changes nothing |
| `RBTrees.RBTree.Substitute` | netfram/RBTree.h:158-325 | deleting a node with two real children: the first node of the whole tree takes its place and colour, and the tree is repaired where that node was |
| `RBSubst.SubstituteGood` | netfram/RBTree.h:188-246 | the pointer updates of that replacement hold the tree with the node renamed and the first node taken out |
| `RBSubst.SubstituteOrder` | netfram/RBTree.h:158-176 | the order is then the old one without its first element, which stands where the deleted node stood |
| `RBSubst.RenameRep` | netfram/RBTree.h:213-241 | taking over links and colour holds the same tree with one node renamed |
| `RBTrees.FirstIntoSorted` | netfram/RBTree.h:158-164 | that order is sorted if and only if all nodes before the deleted one have the least key |
| `RBTrees.StaleLink` | netfram/RBTree.h:176-184 | after the deletion of a root its only child, the new root, has a parent link to it |
| `RBTrees.RBTree.SeekToFirst` | netfram/RBTree.h:452-459 | the first node in order, which has no left child; the sentinel if and only if the tree is empty |
| `Timers.Timer.Add` | netfram/Timer.cpp:133-157 | the event gets its new time and a place in the order; adding for the same time or none changes nothing; a sorted order stays so if and only if taking the event out keeps it so, and then the place is that of its time |
| `Timers.Timer.Delete` | netfram/Timer.cpp:119-126 | exactly the event leaves the tree and its flag goes off, an event that is off and has null links changes nothing; a sorted order stays so if and only if the event is off, has at most one real child or only least times before it |
| `Timers.Timer.Expire` | netfram/Timer.cpp:85-117 | terminates having posted the due events at the front, once each; in a sorted tree exactly the events that are due, in order of their times |
| `Timers.ForkDelaysFirst` | netfram/Timer.cpp:85-117 | four events of which one with two real children is taken out: the first is then due, is in the tree, and Expire finds nothing due |
| `Timers.ForkOfFive` | netfram/RBTree.h:158-164 | in every red-black tree of five nodes one of the last three has two real children |
| `Timers.DelayFirst` | netfram/Timer.cpp:85-157 | adding five events and deleting one of them leads to such a state: the first event is on and due, and Expire posts nothing |
| `SkipOrder.SpliceLinks` | netfram/TSKipList.h:138-142 | splicing a node in after its predecessors makes every level the right sublist |
| `SkipOrder.BypassLinks` | netfram/TSKipList.h:316-322 | bypassing a node makes every level the right sublist |
| `SkipOrder.CutLinks` | netfram/TSKipList.h:170-173 | cutting after the predecessors makes every level the right sublist |
| `SkipLists.SkipList.Search` | netfram/TSKipList.h:119-126 | the search ends before the first key not above the sought one, with the predecessor on every level |
| `SkipLists.SkipList.StepBack` | netfram/TSKipList.h:399-411 | the start from the tail is before that place and reaches every level |
| `SkipLists.SkipList.Insert` | netfram/TSKipList.h:112-155 | refines insertion into the descending sequence, with all links, tail, level and length right |
| `SkipLists.SkipList.Find` | netfram/TSKipList.h:370-390 | the first node with the key, or null exactly if there is none |
| `SkipLists.SkipList.Delete` | netfram/TSKipList.h:303-345 | removes the first node with the key, or changes nothing exactly if there is none |
| `SkipLists.SkipList.DeleteLE` | netfram/TSKipList.h:157-187 | keeps exactly the nodes with keys above the bound; returns the first of the others, from which they are all still linked in order |
| `SkipLists.SkipList.FixLevel` | netfram/TSKipList.h:12-14 | nothing reaches above the level, which is tight |
| `SkipLists.SkipList.FixLength` | netfram/TSKipList.h:16-23 | counts exactly the chain of nodes taken off |

## Left out

- Sockets, sessions, threads, locking, packets, files, logging, configuration parsing, statistics and the HTTP parts: plumbing.
- Capacities of strategy 2, and upper bounds on the total load of a server: the code computes the former in floating point and its relaxed levels exceed the latter on purpose.
- TableBuilders.TableBuilder.Rebuild: asks for at least one available server and one copy, because the code divides by the number of servers, and for two copies under strategy 2.
- TableBuilders.TableBuilder.Note: the count of full servers (max_count_now) is followed step by step, but not tied to the table, because promotions do not raise it (tair/table_builder.cpp:226-231).
- Wrap-around of 32-bit counters in the table builder: table sizes are assumed to fit.
- Migrations.Migration.Finish: not defined for a report that would read outside the tables (`SafeIsInBounds` says which), as the guard of tair/group_info.cpp:1117 allows.
- GroupInfos.GroupInfo.SetMigrating: does not model such a report.
- GroupInfos.GroupInfo.FinishMigrate: likewise.
- GroupInfos.GroupInfo.Rebuild: the choice of the build strategy (tair/group_info.cpp:1358) is a parameter; the group's status flags are not modelled, and the least number of servers to build with is positive.
- PLeaseSafety.LeaseMutualExclusion: assumes the delivery premise, which the code does not enforce; `LooseRunsShareTheLease` shows a run in which exclusion fails without it. On the last tick of a lease exclusion is false of the code (`LastTickIsShared`).
- Duplicated messages and restarts of lease nodes: proposers count answers, not senders, and acceptors keep no state across restarts.
- PLeaseCodec.Snreadf: directives other than %c, %u, %U and literals, which no lease message uses, are not modelled.
- GetOpts.GetOpt.Permute: a caller must consume something between two calls, as the options of netfram/GetOpt.cpp:97-101 do; otherwise the guard of lines 158-159 runs the swap with an empty second block, which reaches beyond the window.
- GetOpts.GetOpt.NextChar: only the ordering that permutes is modelled, and not the position within an argument.
- Matching of long and short options: a scan takes the number of arguments an option consumes as a parameter.
- RBTrees.RBTree.Delete: a node outside the tree must have null links, as all nodes do that Delete has taken out; the links of a node that was never inserted are not initialised (netfram/RBTree.h:40-49).
- Timers.Timer.Delete: asks for a tree that is not empty, as netfram/Timer.cpp:123 asserts, and takes the links of every event that is off to be null. An event that was never added has uninitialised links (netfram/IoEvent.cpp:5-18), which the code follows when it deletes one, as PL/PLeaseProposer.cpp:41 may do.
- Timers.Timer.Expire: the handlers of posted events are not run inside the loop; events they add are added before or after.
- Iteration through the tree with Next and Prev, and the skip list's DeleteGE, DeleteIn, Delete(Node) and iterators: incomplete in the source.
- Memory blocks, the replicated log message, data entries and the in-memory database: their layouts are not part of this model.
