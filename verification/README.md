# A Dafny model of CovenantSQL's consensus core

CovenantSQL is a SQL database on two layers of blockchains. This project models the four parts
that keep its data consistent and proves what they promise.

* **Kayak** (`Kayak*.dfy`) is the two-phase commit a database's leader runs with its followers over
  a write-ahead log (WAL). `KayakLeader` and `KayakFollower` cut the leader's and the follower's code
  at every point where a crash or another goroutine can come in between; `KayakCluster` puts them on a
  network that loses, repeats and reorders logs. `KayakSafety` speaks about every state of every run, and
  `KayakProgress` and `KayakPending` about what can still be reached from it.
  `KayakRuntime` and `KayakQuorum` are the mutable runtime, WAL and RPC tracker, proved to take these
  steps.
* **The block producers** (`Ledger*.dfy`, `Transactions.dfy`, `BlockTree.dfy`, `PathTies.dfy`,
  `Chain*.dfy`, `MetaState.dfy`, `BranchState.dfy`) keep the ledger of accounts, providers and databases
  in a tree of blocks: pooled transactions, branches with previews, a longest branch as head, an
  irreversible block some confirmations below it, and tables from which a node restarts. `ChainSpec` says
  on values what the node does. `ChainSteps` proves what holds in every run, `ChainRuns` when the ledgers
  are those of their paths and the node cannot exit, `ChainReboot` restart, `ChainAgreement` agreement,
  `ChainReceive` and `ChainCatchUp` which blocks a node must take and where they lead it, `ChainProduce` what a
  producer must pack, `ChainPool` how long a transaction waits. `LedgerEffects` and `LedgerPermissions` say for each
  kind of transaction exactly when it is refused and what it changes.
  The classes `MetaState`, `BranchState` and `ChainNode` are the code's mutable objects, proved to do
  what `Transactions` and `ChainSpec` say, with a storage that may refuse to write.
* **Tokens and billing** (`Token*.dfy`, `Billing*.dfy`, `ArrearsPaths.dfy`, `Supply*.dfy`,
  `Sql*.dfy`): which transactions keep the token supply, mint or burn, and how the bill a database
  draws up is paid on the main chain, in the source's 64-bit arithmetic.
* **Replicas and their helpers**: the SQL state machine of a replica (`Xenomint*.dfy`), the Merkle
  root of a block (`Merkle.dfy`) and the consistent hash ring (`Ring*.dfy`).

Hashes are values that name what they were computed from, so they do not collide; a signature is a
flag that says whether it verifies. Unsigned 64-bit amounts wrap or are refused exactly where the code
lets them. The network, clocks, SQL and LevelDB are parameters or choices of a step.

One choice is hidden in the code. Candidates for a new database are collected from a map and sorted by
node id alone, so those with equal node ids come in any order. The model makes this order a parameter of
every step, an arbitrary function of the transaction and the providers (`Ties`). Blocks that are tried on
a branch and blocks that become irreversible get separate ones, and so does every branch a restart
rebuilds. A creation is *tied* if the order among equal node ids can change the miners it gets.

## Results that differ from what the code is meant to do

* A leader takes the index of a log before it writes the log. If it crashes after a later request has
  committed and before log 0 is written, recovery waits for log 0 forever (`LostLogZero`). Recovery
  succeeds if and only if log 0 is there or nothing was committed (`RecoversIffClosed`). Once log 0
  is lost and other logs are written, no follower ever commits anything, though the leader may; in every other
  reachable state each request can still be executed by all nodes (`ProgressIff`).
* A follower that crashes between writing a commit log and executing it never executes that commit
  (`LostCommit`). What it has executed is a prefix of the leader's commits if and only if nothing
  executed follows such a commit (`ExecutedPrefixIff`).
* Two providers may register one node id, and a creation that can take either leads to different ledgers
  on one node and another, or in the preview and the irreversible ledger of one node. A transaction has
  one outcome if and only if it is rejected or not tied (`ApplyDetermined`). A node that only receives
  blocks can exit for this reason (`TiedRun`).
* While producing a block, a rejected transfer leaves an empty account in the preview of the branch. A
  received block may then be accepted that is invalid on the exact ledger, and the node exits when it
  becomes irreversible (`GhostRun`). A block accepted on a preview is valid if and only if every sender has
  an account on the exact ledger when its turn comes (`PackTxsExact`, `GrowPreviews`).
* Such a node cannot be started again either, from the moment it has accepted the block (`NeverStarts`): one
  branch that cannot be rebuilt stops the whole start. A restart succeeds if and only if the blocks of every
  branch can be applied to the irreversible ledger (`RestartIff`), which without ties means that the paths of
  all branches are valid (`RestartRefines`, `RestartInRun`).
* A payment by a user in arrears mints all that the miners have recorded of that user (`MintedIsOwed`,
  `SettlementMints`), and leaves their records in place, so the next settlement mints it again
  (`MintsAgain`). After a payment the user's arrears and the records agree if and only if nothing was
  recorded (`PaidParts`).
* A permission may be changed by anybody who is not a user of the database: they can make themselves its admin or
  take super permission from its only super user (`StrangerRules`). The guard against losing the last super user
  covers only a sender's own entry; the last one is lost if and only if the sender is no user (`LosesSuperIff`), and
  never along a path on which permissions are changed by users (`PathKeepsSuper`).
* A bill is taken as sent by one of the miners of a database: nothing compares what the miners are to earn with
  what the users are charged. Billing mints if and only if the miners are paid more than is taken from the users
  (`BillingChange`, `BillMints`).
* A miner named twice in a creation has its deposit counted twice (`DuplicateTargetMints`, `CreationMints`);
  before a fix height, registering as a provider again burns the old deposit (`ProvideSupply`). The supply and all
  that was lost is always the supply of genesis and all that was minted (`SupplyEquation`).
* A failed request in a block whose producer has no income from that user yet drops the incomes other
  miners had recorded (`IncomeDropped`). The user is charged exactly what the miners earn if and only if
  nothing is dropped that way (`BillEvenIff`).
* The Merkle root does not bind the number of items (`RootRepeats`). Two lists have one root if and only if
  their trees have one depth and the same item behind every leaf (`SameRoot`).
* A write request that fails after some of its statements succeeded leaves the sequence number ahead of
  the data, or, at any isolation level but read-uncommitted, leaves these statements in the data of the writer
  alone (`NeverSent`). A replica can finish the blocks up to a later write if and only if no request failed so before
  it; otherwise no replica ever can (`FinishIff`, `MissingForGood`, `HalfFailedRun`).
* A node key is the replica's index followed by the node id, without anything between them, so ids of
  different lengths can share a key: index 1 of node `1a` and index 11 of node `a`. Removing one node then
  takes a key from the other (`SharedKey`). Removal takes away one node only if and only if no other sits on
  its positions (`RemovedIff`), which holds in every history of ids of one length (`HistoryFree`,
  `OneLength`). A node left with fewer keys than replicas makes a lookup that starts at the first key go
  round forever (`BackIff`).

## Model

| member | source | states |
|---|---|---|
| `KayakCluster.StepKeeps` | kayak/commit.go:129-228 | every crash, loss, repetition or step of a leader or follower keeps the cluster invariant: WALs are parts of the leader's, indexed by their logs, chained by previous commit and decided once, with pending maps, executed commits and quorums to match |
| `KayakCluster.RunInv` | kayak/runtime.go:282-329 | the invariant holds in every state of every run, and the set of followers never changes |
| `KayakSafety.PrefixSafety` | kayak/commit.go:180-228 | in every reachable state the commits in a follower's WAL are the first commits of the leader, for the same requests in the same order |
| `KayakSafety.ExecutedPrefixIff` | kayak/commit.go:180-228 | what a follower has executed is its committed list without the commits a crash cut off, and is a prefix of the leader's commits if and only if no executed commit follows a lost one |
| `KayakSafety.LostCommit` | kayak/commit.go:194-213 | a concrete run in which a follower restarts and executes the second commit but never the first |
| `KayakSafety.SingleDecision` | kayak/processes.go:167-235 | at all times and on all nodes a prepare is decided by one and the same log, so it is never both committed and rolled back |
| `KayakSafety.NeverPendingAgain` | kayak/runtime.go:386-411 | a prepare that is decided and finished at a follower is never pending there again, whatever is redelivered and however often it restarts |
| `KayakSafety.WalOnlyGrows` | kayak/log.go:30-53 | no log of the leader is ever lost or changed in a run |
| `KayakSafety.QuorumDurability` | kayak/processes.go:30-79 | behind every commit log of the leader at least the required number of followers hold the prepare log |
| `KayakSafety.RecoveryInRuns` | kayak/log.go:65-124 | in every reachable state a follower's recovery rebuilds exactly its undecided prepares, last commit and next index; the leader's does so if and only if log 0 is written or nothing is committed |
| `KayakSafety.LostLogZero` | kayak/log.go:30-53 | a concrete run after which the leader has commits and its recovery waits forever |
| `KayakProgress.CatchUp` | kayak/processes.go:135-235 | while the leader has log 0, every follower in every reachable state gets the whole WAL of the leader by deliveries of its logs alone, executes all commits, and has pending just what is undecided |
| `KayakProgress.Completes` | kayak/runtime.go:282-329 | unless log 0 is lost, any request can be prepared, confirmed, committed and executed by the leader and then by every follower, whatever is in flight |
| `KayakProgress.NeverCommits` | kayak/commit.go:230-257 | once log 0 is lost no follower commits anything in any continuation |
| `KayakProgress.ProgressIff` | kayak/runtime.go:282-329 | from every state of every run a request can be executed by all nodes, with all WALs the leader's, if and only if log 0 is not lost |
| `KayakPending.RunTracked` | kayak/runtime.go:386-411 | in every state of every run the leader has pending every request that still prepares, and a decided one at most while its commit is in progress, whether callers wait or give up |
| `KayakPending.GoneStays` | kayak/commit.go:32-59 | a request whose caller gave up is never decided and never pending again until the leader restarts |
| `KayakPending.RestartTracked` | kayak/log.go:65-124 | after a restart of the leader exactly the undecided prepares are pending, abandoned ones included |
| `KayakPending.Cancels` | kayak/processes.go:102-119 | a prepare that is not queued can be rolled back, after which nothing of it is pending |
| `KayakLog.ReplayRebuilds` | kayak/log.go:65-124 | on a chained and closed WAL the recovery scan never fails and yields the undecided prepares, the last commit and the next free index |
| `KayakLog.RecoversIffClosed` | kayak/log.go:65-124 | recovery of a chained WAL succeeds if and only if log 0 is present or there is no commit, and otherwise waits |
| `KayakFollower.RestartWorks` | kayak/log.go:65-124 | a follower satisfying its invariant recovers and satisfies it again after losing all memory |
| `KayakFollower.WriteCommitKeeps` | kayak/commit.go:180-228 | appending the next commit of the leader's chain keeps a follower's WAL a chained part of the leader's |
| `KayakFollower.DecisionPart` | kayak/processes.go:167-235 | writing a rollback or commit whose prepare is pending keeps the WAL a part of the leader's with every decision after its prepare |
| `KayakLeader.RestartLeaderWorks` | kayak/log.go:65-124 | a leader that recovers satisfies its invariant again, with the requests in flight forgotten |
| `KayakLeader.WriteLogKeeps` | kayak/log.go:30-53 | writing an allocated log, in any order relative to other requests, keeps the leader's invariant |
| `KayakLeader.BeginCommitKeeps` | kayak/commit.go:129-178 | starting a queued commit keeps every prepare decided at most once and the commits in one chain |
| `KayakQuorum.MinFollowersFits` | kayak/runtime.go:205-207 | the follower count is the least that reaches the threshold of num/den together with the leader, never exceeds the followers there are, and is none for the threshold 0 of commits |
| `KayakQuorum.RpcTracker.constructor` | kayak/tracker.go:55-77 | the needed number of replies is clamped between none and all nodes |
| `KayakQuorum.RpcTracker.Send` | kayak/tracker.go:79-92 | sending happens once and is done at once only if no reply is needed |
| `KayakQuorum.RpcTracker.CallSingle` | kayak/tracker.go:94-109 | each call is recorded once under its node, and the tracker is done as soon as enough calls have returned |
| `KayakQuorum.RpcTracker.Get` | kayak/tracker.go:123-169 | the result is met exactly if as many nodes as needed have answered and finished exactly if all have |
| `KayakQuorum.ErrorSummary` | kayak/rpc.go:26-40 | a summary is clean if and only if no node failed |
| `KayakQuorum.PrepareVerdict` | kayak/processes.go:62-78 | the leader goes on to commit exactly when the protocol's condition for queueing the prepare holds |
| `KayakQuorum.ThresholdDurability` | kayak/runtime.go:205-207 | in every run, at least the configured fraction of all servers hold the prepare log of every commit |
| `KayakRuntime.LevelDBWal.Write` | kayak/wal/leveldb_wal.go:64-118 | a log is stored under its index unless the WAL is closed or the index is taken; otherwise nothing changes |
| `KayakRuntime.LevelDBWal.Read` | kayak/wal/leveldb_wal.go:121-157 | successive reads give the stored logs in ascending index order, each once, and end only after the last |
| `KayakRuntime.Runtime.UpdateNextIndex` | kayak/runtime.go:375-384 | the next index ends up above the index seen and never goes back |
| `KayakRuntime.Runtime.FollowerPrepare` | kayak/processes.go:135-165 | a prepare is accepted exactly if the handler's check passes and its index is new; it then is the protocol's two prepare steps, else nothing changes |
| `KayakRuntime.Runtime.GetPrepareLog` | kayak/commit.go:230-257 | the prepare a decision names is found exactly when it and the previous commit are in the WAL |
| `KayakRuntime.Runtime.FollowerRollback` | kayak/processes.go:167-192 | accepted exactly if its prepare is there and pending and its index new; it then is the protocol's rollback steps, else nothing changes |
| `KayakRuntime.Runtime.FollowerCommit` | kayak/processes.go:194-235 | accepted exactly if additionally it continues from the last commit; it then is the protocol's check, write, execute and finish |
| `KayakRuntime.Runtime.NewLog` | kayak/log.go:30-53 | the index is used up whether or not the write succeeds |
| `KayakRuntime.Runtime.LeaderPrepare` | kayak/processes.go:30-79 | a successful prepare is the protocol's allocation followed by the write |
| `KayakRuntime.Runtime.LeaderCommit` | kayak/commit.go:129-178 | a successful commit cycle is the protocol's start, write and execution of one commit |
| `KayakRuntime.Runtime.LeaderRollback` | kayak/processes.go:102-119 | a successful rollback is the protocol's allocation followed by the write |
| `KayakRuntime.Runtime.ReadLogs` | kayak/log.go:65-124 | reading the WAL entry by entry ends with exactly the fields, or the failure, of the recovery scan over index order |
| `LedgerFacts.ApplyNonces` | blockproducer/metastate.go:1175-1214 | an accepted transaction is signed by its sender and carries its next nonce, which moves on by one; no other key's nonce changes and no account vanishes |
| `LedgerFacts.BodyNonces` | blockproducer/metastate.go:1129-1156 | none of the transaction kinds touches the nonce of a key account |
| `LedgerFacts.ApplyGood` | blockproducer/metastate.go:1175-1214 | an applied transaction, accepted or not, keeps database addresses unused by future nonces and provider deposits at the minimum |
| `LedgerFacts.ApplyExt` | blockproducer/metastate.go:1175-1214 | empty extra accounts do not change the outcome of a transaction whose sender is known, and stay empty extra accounts |
| `LedgerFacts.RejectedLeavesGhosts` | blockproducer/metastate.go:1175-1214 | a rejected transaction changes a ledger at most by adding empty accounts |
| `LedgerProfiles.BillingTerms` | blockproducer/metastate.go:910-999 | a bill changes the height of the billed database only, and with a version only to a later height from the last one |
| `LedgerProfiles.CreateTerms` | blockproducer/metastate.go:553-693 | a creation adds at most one database, priced, unbilled and in Particle, and changes no other database |
| `LedgerEffects.TransferIff` | blockproducer/metastate.go:296-373 | a transfer to an account is accepted exactly if its sender signed it and it moves nothing, or the sender has the amount and the receiver's sum fits; the amount leaves the one and reaches the other, and nothing else changes |
| `LedgerEffects.PaymentIff` | blockproducer/metastate.go:1013-1127 | a payment into a database is accepted exactly if signed, in its token, covered and not less than the arrears; it fills the deposit up to its minimum first and the rest is advance payment, clears the arrears and enables queries when there were some or the advance now exceeds the minimum; a sender without an entry pays nothing |
| `LedgerEffects.MinDepositIs` | blockproducer/metastate.go:1252-1255 | the minimum deposit is the price times query rate, billing blocks and miners, in 64 bits |
| `LedgerEffects.ProvideIff` | blockproducer/metastate.go:512-551 | registering is accepted exactly if the deposit can be paid after the old one came back, which it does from the fix height on; the new entry has each field as sent |
| `LedgerEffects.SuitsIff` | blockproducer/metastate.go:757-803 | a provider fits exactly if it serves the user, asks no higher price, is loaded no more than asked for, has the memory and space and takes the token |
| `LedgerEffects.PicksFirst` | blockproducer/metastate.go:587-605 | of the named targets the first suiting ones are taken, in their order |
| `LedgerEffects.FiltersFirst` | blockproducer/metastate.go:695-755 | the further miners suit, are not named, come in the order of node ids, and no suiting one left out has a smaller id |
| `LedgerEffects.MatchIff` | blockproducer/metastate.go:587-640 | miners are found if and only if enough named ones suit, or fewer are named than wanted and others make up for the rest |
| `LedgerEffects.CreateOpens` | blockproducer/metastate.go:553-693 | a creation opens a database whose only user is its owner with all permissions, the advance payment sent and the minimum deposit, takes both from the owner, and moves the chosen providers with deposit and node id from the list to its miners |
| `LedgerEffects.CreateRefused` | blockproducer/metastate.go:553-693 | a creation whose miners are found is accepted if and only if the owner can pay and the address is free; a refused one changes no database and no provider |
| `LedgerEffects.CostLast` | blockproducer/metastate.go:949-957 | the last entry of a user in a bill decides its cost |
| `LedgerEffects.BillIff` | blockproducer/metastate.go:910-999 | a bill is accepted exactly for a known database, a range that continues from the last one if it has a version, and a sender who is a miner, or at price 0; it takes from each user the cost, or all of a shorter advance payment, which then cannot query |
| `LedgerEffects.KeysIff` | blockproducer/metastate.go:872-908 | issuing keys changes nothing, and is refused exactly for an unknown database or a sender whose first entry has no super permission |
| `LedgerPermissions.PermissionIff` | blockproducer/metastate.go:805-870 | an update is refused exactly for an unknown database, a sender with an entry that lacks super permission, and a sender giving up the only super permission; otherwise the target's last entry, or a new one, has the permission sent and nothing else changes |
| `LedgerPermissions.KeepsSuperIff` | blockproducer/metastate.go:828-870 | after an update there is a super user if and only if super permission was sent or some other entry has it |
| `LedgerPermissions.LosesSuperIff` | blockproducer/metastate.go:828-870 | an accepted update takes the last super permission if and only if its sender is no user of the database, sends less, and no other entry is super |
| `LedgerPermissions.StrangerRules` | blockproducer/metastate.go:828-856 | a concrete database whose only super user is demoted by somebody who is no user, who can also make themselves its admin |
| `LedgerPermissions.OthersKeepUsers` | blockproducer/metastate.go:1129-1156 | no other kind of transaction changes a permission or drops a user |
| `LedgerPermissions.PathKeepsSuper` | blockproducer/metastate.go:805-870 | along every path on which users alone change permissions, every database keeps a super user |
| `LedgerLoops.SettleMiners` | blockproducer/metastate.go:1072-1083 | the loops over miners and their arrears give the ledger's settlement: recorded amounts of the payer are added to pending income and the entries stay recorded |
| `LedgerLoops.ScanUsers` | blockproducer/metastate.go:828-844 | one pass refuses exactly the senders with an entry that lacks super permission, and otherwise counts super users and finds the target's last entry; PermissionIff says what follows |
| `LedgerLoops.TakeTargets` | blockproducer/metastate.go:587-605 | target miners are taken in order until enough fit, with the error of the last one tried |
| `LedgerLoops.SortCandidates` | blockproducer/metastate.go:695-732 | every candidate once, by ascending node ids, with equal ones in any given order |
| `LedgerLoops.FilterNMiners` | blockproducer/metastate.go:695-755 | the first n fitting providers that are not targets, in an order by node id that leaves ties open, or none if there are fewer |
| `LedgerLoops.FindMiners` | blockproducer/metastate.go:585-621 | targets and filtered providers together give the ledger's match or its error, for every order of ties |
| `LedgerTies.AnyListing` | blockproducer/metastate.go:52-54 | every listing of the candidates by ascending node ids is one the model allows |
| `LedgerTies.MatchDetermined` | blockproducer/metastate.go:695-732 | the miners of a creation do not depend on the order of ties if and only if no two of the candidates needed, nor the last needed and the next, share a node id |
| `LedgerTies.ApplyDetermined` | blockproducer/metastate.go:1175-1214 | a transaction has one outcome for all orders of ties if and only if it is rejected or not tied |
| `PathTies.PathSame` | blockproducer/metastate.go:1175-1214 | the ledger of a path without tied creations does not depend on the order of ties |
| `BillingLoops.CollectCosts` | blockproducer/metastate.go:949-958 | the maps built from a bill give every user's cost and every user's income per miner, wrapping at 64 bits |
| `BillingLoops.RaiseEntries` | blockproducer/metastate.go:976-992 | every arrears entry of the user is raised or one is added, and the user's total is raised once per raised entry |
| `BillingLoops.PayShares` | blockproducer/metastate.go:965-994 | the loop pays each miner the largest whole amount not above its part of the advance payment, records the rest, and totals the user's new arrears |
| `BillingLoops.ChargeUsers` | blockproducer/metastate.go:959-995 | charging the users one after the other on the changing miners gives the ledger's billing |
| `BillingLoops.ReceiveIncome` | blockproducer/metastate.go:935-939 | pending income becomes received, and the sender is recognised exactly if it is one of the miners |
| `MetaStates.MetaIndex.DeepCopy` | blockproducer/metaindex.go:58-70 | a new index with the same content |
| `MetaStates.MetaState.MakeCopy` | blockproducer/metastate.go:1216-1221 | a state of its own with the committed content and no changes |
| `MetaStates.MetaState.Commit` | blockproducer/metastate.go:219-250 | the changes move into the index and the visible ledger stays as it was, in whatever order the maps are walked |
| `MetaStates.MetaState.Clean` | blockproducer/metastate.go:252-254 | the visible ledger is the committed one again |
| `MetaStates.MetaState.CompileChanges` | blockproducer/metastate.go:1224-1250 | running the added statements on tables of the committed ledger gives tables of the visible one, and earlier statements stay |
| `MetaStates.MetaState.IncreaseToken` | blockproducer/metastate.go:256-270 | refines the ledger's increase, with overflow and missing accounts refused |
| `MetaStates.MetaState.DecreaseToken` | blockproducer/metastate.go:272-286 | refines the ledger's decrease, with overdrafts refused |
| `MetaStates.MetaState.Transfer` | blockproducer/metastate.go:296-373 | refines the transfer between accounts, including the account it leaves when it fails |
| `MetaStates.MetaState.TransferToChain` | blockproducer/metastate.go:1013-1127 | refines the payment into a database with all its refusals |
| `MetaStates.MetaState.NextNonce` | blockproducer/metastate.go:478-494 | the nonce of an existing account |
| `MetaStates.MetaState.BumpNonce` | blockproducer/metastate.go:496-510 | refines the step of a nonce |
| `MetaStates.MetaState.ProvideService` | blockproducer/metastate.go:512-551 | refines the registration of a provider on both sides of the fix height |
| `MetaStates.MetaState.CreateChain` | blockproducer/metastate.go:553-693 | refines the creation of a database, from matching miners in any order of ties to removing them from the providers |
| `MetaStates.MetaState.UpdatePermission` | blockproducer/metastate.go:805-870 | refines the change of a permission, whose refusals and result PermissionIff states; only a sender's own entry is guarded against being the last super one |
| `MetaStates.MetaState.UpdateKeys` | blockproducer/metastate.go:872-908 | refines the check of a key change; the visible ledger does not change |
| `MetaStates.MetaState.UpdateBilling` | blockproducer/metastate.go:910-999 | refines billing: BillIff says when it is refused and what users are charged, BillPays what each miner gets |
| `MetaStates.MetaState.ApplyTransaction` | blockproducer/metastate.go:1129-1156 | every kind of transaction is dispatched to its effect on the ledger |
| `MetaStates.MetaState.Apply` | blockproducer/metastate.go:1175-1214 | refines the application of a transaction: nonce check, effect, nonce step |
| `BlockTree.FetchNodeList` | blockproducer/blocknode.go:72-83 | the nodes from a count on, oldest first, filled in from the end |
| `BlockTree.AncestorByCount` | blockproducer/blocknode.go:101-111 | the ancestor with the given count, or none above the node |
| `BlockTree.LastIrreversible` | blockproducer/blocknode.go:116-124 | the ancestor the required confirmations below, or the oldest one |
| `BlockTree.HasAncestor` | blockproducer/blocknode.go:126-129 | compares by count and hash |
| `BlockTree.DescendsIff` | blockproducer/blocknode.go:126-129 | that comparison is ancestry, in both directions |
| `BlockTree.FindFromExact` | blockproducer/blocknode.go:131-142 | a search by hash above a count finds such an ancestor exactly if there is one |
| `BlockTree.AtHeightExact` | blockproducer/blocknode.go:85-99 | along rising heights the search by height finds every ancestor by its own height |
| `BlockTree.AncestorsOrdered` | blockproducer/blocknode.go:37-54 | the ancestors of a node are linearly ordered by count |
| `BlockTree.HashIdentifies` | blockproducer/blocknode.go:37-54 | nodes with one hash are one node with one path |
| `ChainLedger.ApplyNodesPath` | blockproducer/chain.go:716-731 | applying the blocks after an ancestor to that ancestor's ledger gives the ledger of the whole path |
| `ChainLedger.PackTxsExact` | blockproducer/branch.go:131-164 | a block accepted on a preview is valid on the exact ledger if and only if every sender has an account there when its turn comes; the ledgers then again differ by empty accounts only |
| `ChainLedger.PackTxsSets` | blockproducer/branch.go:131-164 | an accepted block holds distinct transactions, none packed before, each known or verified, and moves exactly them from unpacked to packed |
| `ChainPaths.NonceDiscipline` | blockproducer/metastate.go:1175-1214 | along every valid path each key's transactions carry consecutive nonces and its account counts them |
| `ChainPaths.NoReplay` | blockproducer/metastate.go:1175-1214 | no transaction occurs twice on a valid path |
| `ChainPaths.PackPathSound` | blockproducer/branch.go:42-89 | a branch rebuilt from an ancestor's ledger ends in the exact ledger of its path |
| `ChainPaths.PackPathSets` | blockproducer/branch.go:42-89 | a branch that could be rebuilt has exactly the path's transactions packed |
| `ChainPaths.PackPathReplays` | blockproducer/branch.go:42-89 | a branch that could be rebuilt shows what applying its blocks one after the other to the ledger it was built on gives, whatever that ledger |
| `ChainPaths.PackPathWorks` | blockproducer/branch.go:42-89 | rebuilding never fails on blocks that can be applied, of allowed sizes and distinct transactions that are known or verified |
| `ChainPaths.PackPathIff` | blockproducer/branch.go:42-98 | a branch can be built from the irreversible state if and only if its blocks are of allowed size, hold distinct transactions that are known or verified, and apply |
| `ChainLedger.PackTxsIff` | blockproducer/branch.go:131-164 | the transactions of a block are taken if and only if each is new, known or verified, and they apply in order |
| `ChainPaths.TryValid` | blockproducer/branch.go:183-233 | what a producer packs is valid on the exact ledger, although its preview keeps what rejected transactions left |
| `ChainPaths.TrySets` | blockproducer/branch.go:183-233 | a produced block holds distinct pooled transactions within the size limit, and exactly they change sides |
| `ChainInv.GrowPreviews` | blockproducer/branch.go:131-164 | a grown branch's path is valid if and only if the block's senders have accounts on the exact ledger in turn |
| `ChainInv.IrreversibleMoves` | blockproducer/chain.go:716-717 | the irreversible block of a longer head descends from the old one |
| `ChainInv.SwitchShape` | blockproducer/chain.go:763-814 | after a switch all branches are above the new irreversible block, the head is a longest branch and one block longer |
| `ChainInv.SwitchPools` | blockproducer/chain.go:719-814 | after a switch every branch's packed and unpacked sets again split its path's transactions and the pool |
| `ChainInv.SwitchDone` | blockproducer/chain.go:719-731 | with a valid new head the switch cannot reach the fatal exit, and the irreversible ledger is that of the new irreversible block |
| `ChainInv.FindParentExact` | blockproducer/chain.go:888-892 | the parent of a fork is found exactly if it is on some branch at or above the irreversible block |
| `ChainInv.ForkAccounted` | blockproducer/chain.go:888-903 | a fork's branch descends from the irreversible block, and its sets split its path's transactions and the pool, whatever the ledgers |
| `ChainInv.ForkExact` | blockproducer/chain.go:888-903 | a fork's branch shows the exact ledger of its path |
| `ChainSteps.StepConsistent` | blockproducer/chain.go:679-937 | every submission, received block, produced block and restart that succeeds, valid or not, keeps all branches above the irreversible block, a longest head and the split of every path's transactions and the pool, and never takes back the irreversible block; with rising heights the tables keep describing the node |
| `ChainSteps.RunConsistent` | blockproducer/chain.go:844-937 | so does every state of every run, and its irreversible ledger is that of its path unless a creation on it is tied |
| `ChainSteps.Irreversibility` | blockproducer/blocknode.go:116-124 | in every run, whatever is received, produced and restarted, a block once irreversible lies on every branch of every later state, and the later irreversible ledger is the earlier one with the blocks in between applied, unless one of the creations on the path is tied |
| `ChainSteps.PoolLeaves` | blockproducer/chain.go:719-749 | a pending transaction leaves the pool only by becoming irreversible or by having its nonce used up |
| `ChainSteps.RunConfirmed` | blockproducer/blocknode.go:113-124 | in every state of every run the irreversible block is on the head's path with exactly the required confirmations above it, or genesis while there are not so many |
| `ChainPool.SubmitIff` | blockproducer/chain.go:497-566 | a transaction is admitted exactly if it is new, signed, of a known account and less than 1000 nonces ahead of the irreversible ledger; it then waits on every branch that has not packed it |
| `ChainPool.StepPool` | blockproducer/chain.go:696-825 | in every step the pool gains admitted transactions only, loses exactly those whose nonce is used up, and no nonce goes back |
| `ChainPool.RunWindowed` | blockproducer/chain.go:536-553 | in every state of every run pooled transactions lie within the window above their account's nonce |
| `ChainPool.PooledIff` | blockproducer/chain.go:696-825 | through forks, switches and restarts, an admitted transaction of a key is pooled if and only if its nonce is not used up on the irreversible ledger |
| `ChainReceive.ForkIff` | blockproducer/chain.go:880-903 | a block whose parent ends no branch is taken if and only if it is not known, its parent is on a branch at or above the irreversible block, and its path is of allowed sizes, distinct verified transactions, and applies; it then ends a new branch beside the old ones |
| `ChainReceive.KnownIff` | blockproducer/chain.go:880-886 | with rising heights a block is known if and only if it lies on a branch |
| `ChainReceive.GrowIff` | blockproducer/chain.go:857-878 | a block on a branch head is refused if and only if it does not fit the preview; else it grows the branch, or makes it the head if it is now the longest, and the node exits if and only if the newly irreversible blocks do not apply |
| `ChainCatchUp.StepTruthful` | blockproducer/chain.go:844-907 | every step keeps the previews of branches with valid paths right, whatever invalid or tied blocks the node has taken beside them |
| `ChainCatchUp.CatchUp` | blockproducer/chain.go:844-907 | a node offered in order the blocks of a longer valid path takes them or has them, never exits, and ends with the last one as head |
| `ChainCatchUp.RunCatchUp` | blockproducer/chain.go:844-907 | this holds from every state of every run, with any forks, ghosts and restarts before |
| `ChainProduce.ProducedIff` | blockproducer/branch.go:183-233 | a produced block holds, in their order, exactly the transactions that apply to what the ones tried before have left, until it is full: a rejected one never stops the ones behind it |
| `ChainProduce.DecidedExactly` | blockproducer/branch.go:193-215 | a transaction is packed if and only if the block is not full and it is valid on the exact ledger after the packed ones before it |
| `ChainProduce.StretchPacked` | blockproducer/branch.go:193-215 | transactions that all apply in turn, such as consecutive nonces of an account, are packed whole if they fit |
| `ChainProduce.TriedInTurn` | blockproducer/branch.go:166-181 | the pooled transactions of an account are tried one right after the other, by their nonces |
| `ChainProduce.AccountPacked` | blockproducer/branch.go:166-233 | all pooled transactions of an account are packed if they apply by their nonces when its turn comes, and fit |
| `ChainProduce.NodeMakes` | blockproducer/branch.go:183-233 | on a branch that shows the ledger of its path, this is the exact ledger of the branch |
| `ChainCatchUp.RunMakes` | blockproducer/chain.go:909-937 | so it is in every state of every run whose head has a valid path without ties |
| `ChainSteps.GenesisInv` | blockproducer/chain.go:167-183 | a node started from the genesis block satisfies the invariant, with exact previews and tables that describe it |
| `ChainRuns.StepKeeps` | blockproducer/chain.go:679-937 | a step whose blocks are sourced and not tied keeps the irreversible ledger that of its path and every preview that ledger up to empty accounts, and does not exit; without production the previews stay exact |
| `ChainRuns.RunSafe` | blockproducer/chain.go:844-937 | in every state of a run of such steps the irreversible ledger is that of its path and the previews are theirs up to empty accounts; what needs no such condition is in ChainSteps.RunConsistent |
| `ChainRuns.NeverFatal` | blockproducer/chain.go:719-731 | no step of a run whose blocks are sourced and not tied ends in the fatal exit; ChainGhosts.GhostRun and ChainTied.TiedRun show that both conditions are needed |
| `ChainRuns.ValidatorSafe` | blockproducer/chain.go:844-907 | a node that never produces keeps exact previews in all its runs without tied creations, whatever else it receives, so all its blocks are sourced and it never exits |
| `ChainTied.Creates` | blockproducer/metastate.go:695-732 | one creation that two providers with one node id fit, and the two ledgers it can lead to |
| `ChainTied.Bills` | blockproducer/metastate.go:910-999 | the bill of one of them is accepted on one of these ledgers and refused on the other |
| `ChainTied.TiedRun` | blockproducer/chain.go:719-731 | a concrete run with rising heights of a node that only receives blocks and whose next block makes it exit |
| `ChainReboot.RestartRefines` | blockproducer/chain.go:185-242 | in every stored state without tied creations a restart succeeds if and only if the paths of all branches are valid, and otherwise is refused; it then rebuilds the node with exact previews, however ties fall |
| `ChainReboot.RestartIff` | blockproducer/chain.go:185-242 | in every stored state, whatever was received and however ties fall, a restart succeeds if and only if every branch can be replayed on the irreversible ledger with the ties met, and otherwise is refused; it then rebuilds the node |
| `ChainReboot.RestartKeeps` | blockproducer/chain.go:185-242 | a node whose ledgers are those of its paths always restarts, and keeps them |
| `ChainSteps.RestartInRun` | blockproducer/chain.go:185-242 | both conditions for every state of every run with rising heights |
| `ChainReboot.RestartRebuilds` | blockproducer/chain.go:185-242 | a restart that succeeds, whatever the node had received, rebuilds the same irreversible block, ledger, pool, tables and branches with the same sets, and a head of the same length |
| `ChainReboot.LeafIsLive` | blockproducer/storage.go:473-562 | every stored leaf above the irreversible block is the head of a live branch |
| `ChainReboot.LiveIsLeaf` | blockproducer/storage.go:473-562 | every live head is a leaf of the stored blocks |
| `ChainReboot.RebuildBranch` | blockproducer/chain.go:198-242 | the branch of a live head is rebuilt, with its packed and unpacked sets, if and only if its blocks can be applied to the irreversible ledger, and shows what that gives |
| `ChainRestart.SwitchLive` | blockproducer/chain.go:751-814 | after a switch the stored blocks still are a tree whose leaves above the irreversible block are the branch heads |
| `ChainRestart.ForkLive` | blockproducer/chain.go:880-903 | after a fork likewise, and the forked block was not stored before |
| `ChainRestart.TreePath` | blockproducer/storage.go:175-192 | every stored block has its whole path stored, at rising heights |
| `ChainStore.LoadBlocks` | blockproducer/storage.go:473-562 | loading succeeds exactly on rows that start at genesis, have every parent before its children and hold the irreversible block; it returns that node and every leaf once |
| `ChainAgreement.ValidAccepted` | blockproducer/branch.go:131-164 | a valid, verified block of allowed size is accepted by every node with a branch ending at its parent, whatever that node's pool, irreversible block and empty accounts |
| `ChainAgreement.ProducedAccepted` | blockproducer/branch.go:183-233 | what one node produces every other node accepts on the same head, however ties fall for either; the grown head is the produced block and both previews are the exact ledger of its path up to empty accounts, if no creation on it is tied |
| `ChainAgreement.ValidIsNew` | blockproducer/branch.go:131-164 | a valid block holds no transaction of the path below it |
| `ChainGhosts.FatalIff` | blockproducer/chain.go:719-731 | a switch exits if and only if the path to the new irreversible block is invalid |
| `ChainGhosts.GhostRun` | blockproducer/chain.go:844-937 | a concrete run with rising heights whose next received block makes the node exit |
| `ChainGhosts.NeverStarts` | blockproducer/chain.go:198-242 | the same run before its last block: no restart of that node succeeds, however its heads are loaded and ties fall |
| `BranchStates.SortTxs` | blockproducer/branch.go:166-181 | every unpacked transaction once, by account and then nonce |
| `BranchStates.BranchState.MakeArena` | blockproducer/branch.go:100-120 | a copy with the same content that shares the committed index only |
| `BranchStates.BranchState.AddTx` | blockproducer/branch.go:122-129 | refines adding a transaction that is not packed |
| `BranchStates.BranchState.ApplyBlock` | blockproducer/branch.go:131-164 | a new branch with the block packed exactly if it extends the head and can be packed; the old branch stays usable |
| `BranchStates.BranchState.ProduceBlock` | blockproducer/branch.go:183-233 | refines production over the sorted transactions, which ProducedIff decides one by one; the old branch stays usable |
| `BranchStates.BuildBranch` | blockproducer/branch.go:42-89 | refines the rebuilding of a branch, with an index shared with no other state |
| `ChainNodes.Confirm` | blockproducer/chain.go:719-731 | the loops over newly irreversible blocks give the ledger after them and the pool without their transactions, or fail exactly if a transaction does |
| `ChainNodes.FindExpired` | blockproducer/chain.go:733-749 | the pending transactions whose nonce is used up on the new irreversible ledger |
| `ChainNodes.Prune` | blockproducer/chain.go:769-798 | keeps exactly the branches above the new irreversible block, in order, with the new one in its place |
| `ChainNodes.ChainNode.Submit` | blockproducer/chain.go:497-566 | a transaction is accepted exactly if it verifies, its nonce is in the window and storage works; it then is pooled on every branch, else nothing changes |
| `ChainNodes.ChainNode.StoreTx` | blockproducer/chain.go:679-694 | refines the pooling of a transaction, with nothing changed when storage refuses |
| `ChainNodes.ChainNode.Switch` | blockproducer/chain.go:696-825 | refines the switch on objects that share indexes: same verdict and same state, and the old state when storage refuses |
| `ChainNodes.ChainNode.ApplyBlock` | blockproducer/chain.go:844-907 | refines receiving a block in all its cases: growing a branch, switching, known, forking, no parent; GrowIff and ForkIff say exactly when each happens |
| `ChainNodes.ChainNode.ProduceAndStore` | blockproducer/chain.go:909-937 | refines producing a block on the head branch; RunMakes says what it must hold |
| `ChainLoads.RebuildBranches` | blockproducer/chain.go:198-230 | a branch for every loaded head above the irreversible block, none sharing an index |
| `ChainLoads.SelectHead` | blockproducer/chain.go:236-242 | the first longest branch |
| `ChainLoads.Load` | blockproducer/chain.go:185-242 | a node starts exactly if the rows load and the restart succeeds, in the state that restart describes |
| `TokenSupply.TransferSupply` | blockproducer/metastate.go:296-373 | a transfer keeps the Particle supply, accepted or not, and never overflows a supply that fits 64 bits |
| `TokenSupply.PaymentSupply` | blockproducer/metastate.go:1013-1127 | a payment into a database adds to the supply exactly the arrears it settles |
| `ArrearsPaths.SettledIsOwed` | blockproducer/metastate.go:1072-1083 | the settlement loop, which reads entries by one index and walks them by another, pays exactly what is recorded if there is one entry per user |
| `ArrearsPaths.MintedIsOwed` | blockproducer/metastate.go:1068-1088 | a payment by a user in arrears mints exactly what all miners have recorded of that user |
| `ArrearsPaths.PaidKeepsEntries` | blockproducer/metastate.go:1072-1088 | a payment clears the user's arrears and leaves every entry of every miner as it was |
| `ArrearsPaths.PaidParts` | blockproducer/metastate.go:1072-1088 | after a payment the user's arrears equal what the miners have recorded if and only if nothing was recorded |
| `ArrearsPaths.MintsAgain` | blockproducer/metastate.go:959-1088 | after the next bill that falls short, a settlement pays its shortfall and, once more, all that was settled before |
| `ArrearsPaths.SettlementMints` | blockproducer/metastate.go:1013-1127 | a concrete ledger whose supply a payment raises by 3 |
| `ArrearsPaths.PathTidy` | blockproducer/metastate.go:976-992 | on every ledger of every path from a genesis that has this, every miner has at most one arrears entry per user |
| `TokenFlows.ProvideSupply` | blockproducer/metastate.go:512-551 | registering a provider keeps the supply, except for the old deposit lost before the fix height |
| `TokenFlows.CreateSupply` | blockproducer/metastate.go:553-693 | a creation changes the supply by the deposits counted more than once, less what had been sent to the new address before |
| `TokenFlows.CreateConserves` | blockproducer/metastate.go:553-693 | with distinct targets nothing is counted twice |
| `TokenFlows.DuplicateTargetMints` | blockproducer/metastate.go:587-605 | a miner named twice adds its deposit to the supply |
| `SupplyChanges.CreationMints` | blockproducer/metastate.go:553-693 | a concrete creation that names one miner twice and adds its deposit of 5 to the supply |
| `TokenFlows.MatchedDistinct` | blockproducer/metastate.go:585-755 | distinct targets give distinct miners |
| `BillingSupply.SharesFit` | blockproducer/metastate.go:965-994 | the floored shares of a balanced bill never exceed the advance payment they come from |
| `BillingSupply.SharesLow` | blockproducer/metastate.go:965-994 | each miner loses less than one by rounding |
| `BillingSupply.EvenShares` | blockproducer/metastate.go:965-994 | when the incomes add up to the cost, the miners together get the short advance payment but for less than one each |
| `BillingSupply.EvenLoss` | blockproducer/metastate.go:959-995 | an even bill loses less than one per miner for each user who cannot pay, and nothing for the others |
| `BillingSupply.ShortfallTotal` | blockproducer/metastate.go:959-995 | when the advance falls short, the user's arrears rise by exactly what the miners record, this and what they are paid make up the whole income, a balanced bill pays them at most the advance, and an even one all of it but less than one per miner |
| `BillingPaths.ShortfallOnPath` | blockproducer/metastate.go:959-995 | on every ledger of every path, for every user a bill charges in turn, the income of a short advance splits that way |
| `BillingSupply.AddArrearsOwed` | blockproducer/metastate.go:976-992 | recording an unpaid amount raises what is owed by exactly that amount and keeps one entry per user |
| `BillingSupply.BillingChange` | blockproducer/metastate.go:910-999 | whatever costs and incomes are sent: an accepted bill takes out of the supply exactly what it charges less what it pays, so it adds to the supply if and only if it pays more than it charges |
| `BillingSupply.BillingNeverGrows` | blockproducer/metastate.go:910-999 | so a bill that charges no user less than the miners are to receive never adds to the supply, and nothing overflows |
| `SupplyChanges.BillMints` | blockproducer/metastate.go:910-999 | a concrete bill, signed by the miner of the database, that adds 9 to the supply |
| `SupplyChanges.ApplyChange` | blockproducer/metastate.go:1175-1214 | an accepted transaction of any kind takes its loss out of the supply and adds what it mints: settled arrears, deposits counted twice, or what a bill pays beyond its charges |
| `SupplyChanges.SupplyEquation` | blockproducer/metastate.go:1175-1214 | along every path whose sums fit 64 bits the supply and all that was lost on the way are the supply of genesis and all that was minted |
| `SupplyChanges.FairPathGains` | blockproducer/metastate.go:1175-1214 | a path that pays no arrears, names no miner twice and bills in balance is one of these and mints nothing |
| `SupplyRuns.SupplyBound` | blockproducer/metastate.go:1175-1214 | along every path of transactions that pay no arrears, name no miner twice and bill in balance, the supply is that of genesis less what registrations burn, creations bury at the new address and bills charge and pay nobody, and so never exceeds it |
| `SupplyRuns.NoOverflow` | blockproducer/metaindex.go:27-33 | on such a path no Particle transfer, refund or payment can overflow, and a creation only if the amount it asks for does not fit |
| `BillingPaths.PathDistinct` | blockproducer/metastate.go:585-693 | along such a path no database has a miner twice |
| `BillingPaths.ChainBillFair` | blockproducer/metastate.go:910-999 | on every ledger of such a path a bill drawn up from a database's own chain is balanced, so it continues such a path |
| `SqlBilling.Billing` | sqlchain/chain.go:1089-1179 | the walk down the head chain collects exactly the blocks above the last bill up to the new one, with the costs of BilledRange and the incomes of EarnedBy |
| `SqlBilling.BilledRange` | sqlchain/chain.go:1089-1179 | a user is billed the rows of exactly the blocks in the range, modulo 64 bits |
| `SqlBilling.RangesAdd` | sqlchain/chain.go:1089-1179 | adjacent ranges charge no block twice and leave none out |
| `SqlBilling.BilledIncome` | sqlchain/chain.go:1110-1145 | a user is charged exactly what the miners earn plus what failed requests dropped |
| `SqlBilling.BillEvenIff` | sqlchain/chain.go:1110-1145 | the user is charged exactly what the miners earn if and only if no failed request in the walked blocks came in a block whose producer had no income recorded while others had |
| `SqlBilling.IncomeDropped` | sqlchain/chain.go:1130-1145 | a concrete block for which the user pays for two rows and the miners earn one |
| `SqlBilling.BillBalanced` | sqlchain/chain.go:1089-1179 | a bill drawn up from the chain is balanced, so the main chain's supply does not grow by it |
| `SqlBilling.ListCosts` | sqlchain/chain.go:1150-1175 | the list sent to the main chain reports every user's cost and every miner's income of the collected maps, in whatever order they are walked |
| `SqlIncomes.EarnedBy` | sqlchain/chain.go:1110-1145 | from each user a miner earns the rows of the user's queries it answered and the queries of the user's failed requests in blocks it produced, over exactly the blocks of the range and modulo 64 bits; if something was dropped, the same since the last drop |
| `SqlIncomes.ReportedBy` | sqlchain/chain.go:1150-1175 | the list sent to the main chain reports these incomes |
| `SqlIncomes.BillUsersPay` | blockproducer/metastate.go:945-999 | for the users of a bill in turn, each miner gets its reported income, or its share of a short advance payment |
| `SqlIncomes.BillPays` | blockproducer/metastate.go:910-999 | after an accepted bill each miner has received what was pending and has pending what the bill reports of it |
| `BillingRanges.RangesTile` | blockproducer/metastate.go:917-922 | along every valid path whose bills are versioned, the ranges billed for a database follow one another without gap or overlap up to its last update |
| `BillingRanges.TileCovers` | blockproducer/metastate.go:917-922 | so every height up to the last update is billed by one range and none by two |
| `Merkle.UpperPowOfTwo` | merkle/merkletrie.go:31-41 | the shift-and-or trick gives the least power of two not below n, and 0 exactly for 0 and above 2^63 |
| `Merkle.NewMerkle` | merkle/merkletrie.go:45-77 | the one-array construction ends with the root of the pairwise tree in its last cell |
| `Merkle.CellLinks` | merkle/merkletrie.go:45-72 | the array layout is the tree: each further cell combines the next two cells |
| `Merkle.RootInjective` | merkle/merkletrie.go:45-77 | lists of one length with one root are equal |
| `Merkle.RootRepeats` | merkle/merkletrie.go:45-77 | repeating the last item of an odd list keeps the root |
| `Merkle.SameRoot` | merkle/merkletrie.go:45-77 | two lists of items have one root if and only if their trees have one depth and at every leaf the same item stands, counting repetitions of the last one at every level |
| `Ring.Consistent.AddCache` | consistent/consistent.go:198-208 | all replica positions of the node are on the ring and the key list is sorted again |
| `Ring.Consistent.RemoveCache` | consistent/consistent.go:211-219 | all its positions are off the ring and the key list is sorted again |
| `Ring.Consistent.Search` | consistent/consistent.go:259-269 | the binary search finds the next position clockwise, and the first of the sorted keys exactly if no key lies on both sides |
| `Ring.Consistent.GetNeighbor` | consistent/consistent.go:231-243 | the one node that serves the key, or an error on an empty ring |
| `Ring.Consistent.GetNeighbors` | consistent/consistent.go:304-357 | an error on an empty ring, a panic for a negative number, and else the nearest nodes clockwise, each once; without collisions exactly as many as asked for, or all there are; when the quotient of keys and replicas asks for none, all nodes |
| `Ring.Consistent.GetTwoNeighbors` | consistent/consistent.go:272-301 | the serving node and the next different one clockwise; without collisions the second is empty exactly if there is one node only |
| `Ring.BackIff` | consistent/consistent.go:336-352 | a walk that wants no node comes back to its start, where it stops, if and only if that is not the first of the sorted keys |
| `Ring.AddMinimal` | consistent/consistent.go:198-208 | adding a node moves keys only to that node |
| `Ring.RemoveMinimal` | consistent/consistent.go:211-219 | removing a node that shares no position moves only the keys it served |
| `Ring.RemovedIff` | consistent/consistent.go:211-219 | removal takes away the node and nothing else if and only if no other node sits on one of its positions |
| `Ring.AddedIff` | consistent/consistent.go:198-208 | adding a node to a ring of whole nodes leaves a ring of whole nodes, the old ones and the new one, if and only if no position is shared |
| `Ring.CountIsNodes` | consistent/consistent.go:314-317 | without collisions the keys divided by the replicas count the nodes |
| `Ring.FullRound` | consistent/consistent.go:304-352 | a full round meets at least as many nodes as that quotient, collisions or not |
| `RingKeys.KeyShared` | consistent/consistent.go:138-141 | two nodes share a node key if and only if the longer id is the shorter one behind the digits its index lacks |
| `RingRuns.ScatteredIff` | consistent/consistent.go:138-141 | without hash collisions nodes share no position if and only if they share no node key |
| `RingRuns.OneLength` | proto/nodeinfo.go:40-43 | ids of one length, as node ids are, share no position |
| `RingRuns.HistoryHolds` | consistent/consistent.go:144-228 | after every history of additions, removals and resets of such nodes the ring is the positions of the nodes added and not removed since, each with the node added last |
| `RingRuns.HistoryFree` | consistent/consistent.go:144-228 | so it has no collisions, its keys are the replicas times its nodes, and every further removal takes away one node only |
| `RingRuns.SameMembers` | consistent/consistent.go:144-228 | two histories with the same members leave the same ring, whatever their order |
| `RingRuns.SharedKey` | consistent/consistent.go:138-219 | a concrete history in which removing node 1a leaves node a with one key less than its replicas |
| `Xenomint.Pool.Enqueue` | xenomint/pool.go:70-76 | the query is last and can be found by its offset; offsets that do not descend stay so |
| `Xenomint.Pool.Match` | xenomint/pool.go:101-113 | a request matches exactly if it is the last one pooled at that offset |
| `Xenomint.Pool.Truncate` | xenomint/pool.go:129-148 | drops exactly the queries up to the last one at the offset, keeps all if there is none, and keeps the index right for the rest |
| `Xenomint.State.Write` | xenomint/state.go:358-478 | a request is pooled on the leader if all its statements succeed; if one fails, the statements before it are undone reading uncommitted data and stay at any other level; the sequence number moves by the statements that succeeded |
| `Xenomint.State.ReplayBlock` | xenomint/state.go:519-563 | replaying a block keeps a replica a prefix of the writer; when done it holds all its writes, pools nothing for packing again if the last was new, and a second replay changes nothing; a block without writes only drops what is pooled up to offset 0 |
| `Xenomint.State.CommitEx` | xenomint/state.go:608-650 | the pooled and failed requests leave for a block and the pool is empty |
| `Xenomint.ReplayAgain` | xenomint/state.go:519-563 | writes a replica already holds are skipped |
| `Xenomint.ReplayFollows` | xenomint/state.go:519-563 | a replica behind the writer stays behind it, no statement fails, and what a finished block wrote is there |
| `XenomintRuns.StepKeeps` | xenomint/state.go:358-650 | at every level, writing with or without failures, packing and replaying keep the requests in order, the first of them where the writer's log starts, every replica a prefix of that and the packed and pooled requests all there are |
| `XenomintRuns.PrefixAlways` | xenomint/state.go:519-563 | in every run at every level, with requests that fail anywhere and blocks replayed in any order and any number of times, every replica is a prefix of the writer |
| `XenomintRuns.FinishIff` | xenomint/state.go:358-563 | a replica can finish the first blocks of the writer if and only if no request failed half way before the last write in them; otherwise it misses a parent |
| `XenomintRuns.MissingForGood` | xenomint/state.go:519-563 | blocks one replica cannot finish no replica can finish in any later state |
| `XenomintRuns.NeverSent` | xenomint/state.go:358-478 | once a request has failed half way, no replica ever holds more than the writer did before it, so the statements of it that the writer keeps reach no replica |
| `XenomintRuns.HalfFailedRun` | xenomint/state.go:358-563 | at every level, a concrete run in which a request of two statements fails at the second and the replica never gets the next write |
| `XenomintRuns.CalcNextID` | types/block.go:88-99 | the end of the last write of a block, if it has one |
| `XenomintRuns.RestoredSeq` | sqlchain/chain.go:271-301 | reloading the blocks restores the end of the last packed write, which is the writer's sequence number if and only if nothing is left to pack and no request has failed half way since |
| `XenomintRuns.RestoredInStep` | sqlchain/chain.go:271-301 | while no request has failed half way it is the offset of the first unpacked request, or the length of the log if there is none |

## Left out

- Kayak's timers, retries, fetching of missing logs and leader change: a log that is missing is waited for, and steps come in any order.
- The in-memory WAL of Kayak (`kayak/wal/mem_wal.go`), which behaves like the LevelDB one without restarts.
- Initial accounts: the ledger after the genesis block is a parameter instead of being built from its base-account transactions.
- Keys issued to miners: `updateKeys` changes a loaded copy only, so there is no effect to model beyond its checks.
- Network, RPC, timers, block scheduling, caches and metrics of the block producers, and the comparison of the stored genesis block with the configured one.
- SQL execution, LevelDB and SQLite themselves: statements succeed or fail by a function of what was executed before, and a storage transaction succeeds or fails as a whole.
- Serialisation, hash functions and signatures.
- Wrap-around of 32-bit nonces and heights; 64-bit amounts do wrap.
- Rounding of floating point: the commit threshold and the covered part of a short advance payment are exact fractions.
- The supply of the Wave token, which only transfers between accounts move.
- KayakProgress.ProgressIff: says which continuations exist, not that timers and retries choose them.
- ChainCatchUp.RunCatchUp: the path starts at the irreversible block, has no tied creation, and its blocks are offered in order with nothing between; fetching them is left out.
- ChainPool.PooledIff: speaks of transactions whose sender is a key address; a transfer in the name of a database address is never accepted by the ledger.
- SqlIncomes.EarnedBy: heights rise along the chain of a database, as its schedule makes them.
- ChainSteps.Irreversibility: runs that restart need block heights that rise along every path, as the producers' schedule makes them; applyBlock itself does not check this. Runs without restarts do not need it.
- ChainReboot.RestartRefines: restarts need rising heights for the same reason, and this form speaks of chains without tied creations; RestartIff gives the condition with ties.
- ChainNodes.ChainNode.Submit: the check of the nonce and the pooling are one step. In the source a switch can come in between, so a transaction whose nonce has just been used up can enter the pool and stays there until the next switch; that no pooled transaction is expired does not hold of this interleaving.
- ChainRuns.RunSafe: the exact ledgers are stated for sourced blocks without tied creations; GhostRun and TiedRun are the runs this shuts out.
- ChainRuns.ValidatorSafe: runs without tied creations, see TiedRun.
- SupplyRuns.SupplyBound: speaks of transactions that cannot mint; SupplyChanges.SupplyEquation is the statement for all.
- SupplyChanges.SupplyEquation: steps whose sums do not fit 64 bits are excluded; the ledger wraps there as the source does.
- BillingSupply.BillingChange: excludes bills after which what the miners hold does not fit 64 bits, for the same reason.
- BillingRanges.RangesTile: bills of version 0 carry no range and are excluded.
- Merkle.NewMerkle: more than 2^63 items, for which the width overflows, are excluded.
- Merkle.SameRoot: lists whose first item is itself the hash of two others are excluded, since an inner cell then looks like an item.
- Ring.Consistent.GetNeighbors: excludes exactly the calls for which the walk of the source goes round forever, see BackIff; filtering by role is left out.
- Ring.Consistent.GetTwoNeighbors: excludes exactly such calls: a single node with fewer keys than replicas, asked from the first of the sorted keys.
- XenomintRuns.StepKeeps: the requests of a run are write requests with at least one statement.
- Xenomint.Pool.Truncate: offsets that do not descend, as those of the state's sequence number never do.
- Xenomint.State.Write: what is lost of an open transaction in a crash at the read-uncommitted level is left out.
- The Kayak-driven replay of single requests in xenomint (`replay`), and the rest of sqlchain: fetching, acknowledgements and its own block tree.
- The database client, proxies, two-phase commit package, naming and deployment tools.
