# The DDK node's ledger, rounds, pool and wire format

A model of the parts of the DDK delegated proof-of-stake node that must be undone
exactly: an in-memory ledger that six kinds of transactions change, blocks that apply
and delete them, rounds of slots that pay and unpay fees, a pool of transactions applied
ahead of any block, the windows and counters kept beside them, and the byte format in
which nodes exchange them. The constants are those of the main network.

Two layers describe the same program. The *specification* layer works on values:
`Model`, `Transactions` (what each kind does to one account, to the delegates, to the
names), `Blocks`, `Verify`, `Rounds`, `Node` and `Journal`, with theorems in

* `Inverse`, `Totals`, `Sound`, `Solvent` and `Examples` on one transaction,
* `BlockRuns`, `RoundRuns`, `Runs`, `Made`, `OnChain`, `Restore`, `Tallies` and
  `Explained` on blocks, rounds and whole runs,
* `Effects`, `StakeVotes`, `Referrals`, `Airdrops`, `Checks`, `Dealing`, `Closing` and
  `WireFormat` on what all these functions are in plain numbers: they state results
  without naming the functions that compute them,
* `Commute`, `Pool`, `PoolOrder`, `Caught`, `UnderPool`, `CheckUnderPool`, `PooledNode`
  and `PoolExamples` on what is pooled meanwhile,
* `Words`, `Serializer`, `ReadModels`, `HonestReads`, `WriteModels` and `SharedSchemas`
  on the byte format.

The *program* layer has the repositories and services with their fields, loops and
updates in place (`Store`, `VoteLists`, `RewardService`, `Services`, `VoteService`,
`TransactionService`, `VerifyService`, `BlockService`, `RoundService`, `NodeService`,
`PoolService`, `QueueService`, `BlockStorage`, `ReferredUsers`, `ByteSerializer`); each
of its methods is proved against a function of the specification layer, so the theorems
hold of the state it leaves.

A run of the node is any sequence of received blocks, round ends, restores to a slot and
deletions. `Journal` shows that whatever it does, its state is that of one straight
sequence of appended blocks and closed rounds, and `Runs` that the chain and the number
of rounds determine that sequence, and the chain alone all but balances and block
counters. Path independence, conservation, the vote counts and the closed form of every
balance follow. A run may receive any block that passes the checks; it deletes only
blocks whose transactions are `Regular`, which is the exact condition for undoing them.

The node of `NodeService` carries the pool. Its ledger is the one over the pool, its
state the one below it (`PooledNode.Below`), and each of its operations is proved to do
on that state what a run does. Where the pool can get in the way, the condition is
stated on the operation and its necessity is a theorem of the pool modules.

## Where the program and its promises part

Each item names concrete inputs that the checks accept, or says that all inputs of a
kind fail, and the theorem with the condition under which the promise is kept.

* Undoing an up-vote finds stakes by their milestone, active or not
  (`core/util/reward.ts:201-203`). It is exact if and only if no stake carried that
  milestone before: `Inverse.RipenAllInverse`, `Examples.SecondVotePasses`.
* Applying a vote looks at the sign of its first item only, and removing a key that is
  not listed removes the last entry (`splice(-1, 1)`). Mixed signs break undo, tallies
  or lists: `Examples.MixedDownPasses`, `Examples.MixedUpPasses`, `Verify.DownVoteKeys`,
  `VoteLists.CutAndAppendIff`, `Sound.ConsistentKeptIff`.
* A delegate's name is looked up without blanks and stored with them:
  `Examples.TakenNamePasses`, `Verify.VerifiedUndoableIff`, `Sound.ConsistentKeptIff`.
* `restoreToSlot` has no exit when the slot and the last block both lie before the
  oldest round: `Restore.BackwardEnds`, `Restore.BackwardSpins`.
* `getFirstSlotNumberInRound` counts down for ever from a slot below the first run of
  delegates: `RoundService.CountingDownStopsIff`.
* A block of equal height is processed even when the block it replaces was not deleted,
  and on the synchronising path nothing is deleted at all: `Receive.LinkedIff`,
  `Receive.SyncLinkedIff`.
* Undoing a vote whose delegate is gone throws half-way, and `remove` catches that:
  `PoolExamples.BatchRemoveLeaks`, `Caught.CaughtIff`, `Caught.EarlyIff`,
  `Caught.RemovalBalance`.
* `batchRemove` and popping part of the pool undo in another order than transactions
  were pushed. Two undos may change places exactly under `PoolOrder.SwapIff`; an order
  finds all it looks up exactly under `PoolOrder.AllReadyIff`, and then leads to the
  same ledger exactly under `PoolOrder.OrderIff`: `Pool.PartialPopLeaks`,
  `PoolService.TransactionPool.BatchRemove`, `PoolService.TransactionPool.PopSorted`.
* A block is checked, applied and deleted over what stays pooled. A registration below a
  pooled one or a new delegate that the pool votes for does not commute with the pool
  (`PoolExamples.RegistrationOverPooled`, `PoolExamples.DelegateOverPooledVote`,
  `UnderPool.ApplyUndoIff`); a pooled stake may spend the airdrop that a block counts on
  (`PoolExamples.PooledAirdropRefuses`, `CheckUnderPool.VerifiedUnderPoolIff`); a pooled
  down-vote may take the key that deleting the block looks for
  (`PoolExamples.DeleteUnderPoolLeaks`, `UnderPool.DeleteUnderPoolIff`); a pooled new
  delegate may be dealt a slot (`PoolExamples.PooledDelegateForges`,
  `PooledNode.GenerateBelowIff`).
* The window of blocks is not filled up after deletions, while closing a round reads
  its blocks from the window only: `BlockStorage.LastBlocksIff`.
* A user that names itself as its referral counts itself at every step of the walk:
  `ReferredUsers.ReferredUsersTree.Register`.
* Reading an array, a set or a map replaces the element types of the model that read it,
  and the models of the columns are shared by the whole process
  (`shared/util/byteSerializer/models/array.ts:41-43`). After the 8 bytes
  `0a id 09 00 00 00 00 00` for a schema whose first column is an array of texts, or the
  same behind honest columns, nothing of that schema is written right until an honest
  object of it was read: `SharedSchemas.HostileWrites`, `SharedSchemas.Heals`,
  `SharedSchemas.AfterReads`. An array of objects is not even written again after an
  honest read: `SharedSchemas.ObjectsNotWritten`.

## Model

| member | source | states |
|---|---|---|
| `Inverse.UndoRestoresIff` | core/service/transaction.ts:95-151 | For all six kinds and every ledger: undoing right after applying gives the ledger back if and only if `Undoable` holds before (the sender's account, fresh milestones, keys present, a new delegate and a new name) |
| `Inverse.RipenAllInverse` | core/service/transaction/vote.ts:232-285 | Counting a vote on the stakes and taking it back restores milestones, counts and active flags, released stakes included, if and only if no stake, active or not, carries the new milestone already |
| `Inverse.StakeInverse` | core/service/transaction/stake.ts:116-140 | Dropping the stakes of a source transaction undoes pushing one if and only if no older stake has that source |
| `Inverse.SecondVoteAtOneTime` | core/util/reward.ts:201-206 | A second up-vote of one sender with the time of the first, over any stake due at that time, cannot be undone; `Examples.SecondVotePasses` gives two that are accepted |
| `Examples.SecondVotePasses` | core/util/reward.ts:201-206 | Counterexample on a consistent ledger: two votes of one time both pass the check, the first can be undone, the second cannot |
| `Inverse.VoterInverse` | core/service/transaction/vote.ts:210-286 | The voter's own account comes back exactly: vote list as a multiset, stakes and balance |
| `Inverse.NamesInverse` | core/repository/delegate.ts:18-73 | The set of names comes back exactly when the new name was free |
| `PoolOrder.SwapIff` | core/service/transaction.ts:117-151 | The undos of any two transactions may change places if and only if they are not votes of one sender, or the list holds every key of the up-vote that the down-vote names and no stake carries the one's milestone on top of the other's |
| `Commute.ApplyUndoCommute` | core/service/transaction.ts:95-151 | Applying a block's transaction and undoing a pooled one commute when they are separate; `UnderPool.ApplyUndoIff` gives the exact condition |
| `Commute.ConfirmUndoCommute` | core/service/transaction.ts:117-188 | Confirming one transaction and undoing another never depend on their order |
| `Commute.RegistrationLeaks` | core/service/transaction/register.ts:55-82 | On every ledger a registration below a pooled registration reads referrals that the undo takes away; `PoolExamples.RegistrationOverPooled` gives two that are accepted |
| `StakeVotes.UpVoteCounts` | core/service/transaction/vote.ts:232-245 | In numbers: an up-vote counts on exactly the active stakes of its sender whose milestone has come; the count grows by one, the milestone moves 604800 seconds past the vote, the old one is kept, the 24th vote releases; all other stakes stay |
| `StakeVotes.UpVoteUncounts` | core/service/transaction/vote.ts:277-285 | In numbers: undoing takes one count back from exactly the stakes whose milestone is 604800 seconds past the vote |
| `StakeVotes.StakesOtherwise` | core/service/transaction/stake.ts:116-132 | Nothing but an up-vote changes a stake; a frozen amount comes last, active and due at once |
| `StakeVotes.RewardOfOne` | core/util/reward.ts:55-65 | In numbers: a due stake pays with every fourth vote, and then the least amount that is a tenth of it; with the 24th it unstakes |
| `StakeVotes.RewardAdds` | core/util/reward.ts:54-65 | Rewards and unstakes add up over the stakes |
| `StakeVotes.CountsApart` | core/service/transaction/vote.ts:232-240 | Over any transactions two votes that count on one stake are at least 604800 seconds apart |
| `StakeVotes.ReleaseTakes` | core/service/transaction/vote.ts:232-245 | A stake that starts without votes is released by its 24th, at least 23 weeks after its first milestone |
| `StakeVotes.SixPayments` | core/util/reward.ts:55-60 | Such a stake has paid once for every four votes counted, and exactly six times when released |
| `StakeVotes.RunCountsApart` | core/service/transaction/vote.ts:232-240 | The same on the chain of every run, whose stakes are those so counted |
| `StakeVotes.RunReleases` | core/util/reward.ts:143-153 | A stake that a run has released was frozen at least 23 weeks past its first milestone and paid six times |
| `Referrals.Registered` | core/service/transaction/register.ts:66-73 | In numbers: the referral comes first, and behind it the first 14 of its own sponsors in their order |
| `Referrals.RunAncestors` | core/service/transaction/register.ts:66-73 | After every run the sponsor at place i of an account is its ancestor i + 1 steps up |
| `OnChain.RunIsFlat` | core/service/block.ts:455-499 | After every run stakes and referrals are those the transactions of the chain make one after the other, and no registration met an account in use |
| `Airdrops.StakePays` | core/util/reward.ts:91-103 | In numbers: a stake pays a tenth, rounded up, to the first sponsor and nobody else, or nothing when the airdrop account holds less |
| `Airdrops.VotePays` | core/util/reward.ts:94-113 | In numbers: each sponsor of a vote gets the thousandths of its own level, rounded up, or nobody when the airdrop account holds less than all levels together |
| `Effects.BalanceAfter` | core/service/transaction.ts:95-115 | What a transaction adds to each balance: fee, transfer, frozen amount, reward from the supply, unstake and sponsors paid by the airdrop account |
| `Effects.ListAfter` | core/service/transaction/vote.ts:210-226 | An up-vote lists each delegate it names once more, a down-vote once less; nobody else changes |
| `Effects.DelegateAfter` | core/service/transaction/delegate.ts:82-87 | A delegate has one vote more or less for each item that names it; a new one starts from nothing |
| `Effects.MarksAfter` | core/service/transaction/signature.ts:47-49 | Second keys, delegate marks and names change for the sender of their kind only |
| `Effects.RegisteredAccount` | core/service/transaction/register.ts:69-73 | A registration leaves an account with nothing but its sponsors |
| `Effects.ConfirmedAfter` | core/service/transaction.ts:153-170 | Confirming adds the id and counts the confirmed votes, once |
| `Effects.BalanceUndone` | core/service/transaction.ts:117-151 | Undoing gives back to every balance what applying took |
| `Effects.ThrownAccounts` | core/service/transactionPool.ts:142-148 | When the undo of a vote throws, the fee is back and no account but the sender's has changed |
| `Effects.ThrownList` | core/service/transaction/vote.ts:258-266 | Then the keys of an up-vote up to the missing one are cut, those of a down-vote all back |
| `Effects.ThrownDelegates` | core/service/transaction/vote.ts:258-266 | Then the delegates of the items before have lost or regained one vote each |
| `Effects.SortedOrder` | core/util/transaction.ts:12-32 | Sorted transactions are in order of type, then time, then id |
| `Effects.TypesSort` | shared/model/transaction.ts:16-24 | The type codes by which transactions are sorted |
| `Effects.WaitsIff` | core/service/transactionPool.ts:224-258 | A transaction waits exactly when a pooled one that concerns its sender would sort behind it, or it is a second signature and there is any, or both register |
| `Checks.PlainChecks` | core/service/transaction/register.ts:35-51 | When registrations, transfers and second signatures are accepted, in numbers and both ways |
| `Checks.TrimIs` | core/service/transaction/delegate.ts:58-80 | Trimming takes the blanks off both ends and nothing else |
| `Checks.DelegateCheck` | core/service/transaction/delegate.ts:58-80 | A new delegate is accepted exactly when it is none yet, can pay, and its name without blanks around it is free |
| `Checks.FreezeCheck` | core/service/transaction/stake.ts:87-110 | An amount is frozen exactly when it can be paid, no vote is counted in advance, late amounts are whole coins and the sponsor is right |
| `Checks.VoteCheck` | core/service/transaction/vote.ts:120-198 | When a vote is accepted, in numbers and both ways |
| `Checks.RunPlain` | core/service/block.ts:314-364 | In every block of a run: fees add up, late stakes are whole coins, votes name each delegate once, and a vote that starts with a down-vote pays nothing |
| `Blocks.UndoAllRestores` | core/service/block.ts:443-450 | Rolling back any half-applied list of transactions gives back the ledger it started from |
| `Blocks.DeleteRestores` | core/service/block.ts:585-613 | Deletion, which unconfirms and undoes transaction by transaction, is the exact inverse of applying all and then confirming all |
| `Blocks.UnconfirmRestores` | core/service/transaction.ts:153-188 | Unconfirming takes back the confirmed vote counts and the id |
| `Verify.VerifiedUndoableIff` | core/service/transaction.ts:476-550 | Which verified transactions can be undone: all but a name in use as it is stored, a repeated stake source, a down-vote that holds an up-vote, or an up-vote with a milestone in use |
| `Verify.RegularUndoableIff` | core/service/transaction.ts:476-550 | For a transaction of a new id this is `Regular`: the stored name is free, a down-vote holds down-votes only, an up-vote meets no stake with its time |
| `Verify.DownVoteKeys` | core/service/transaction/vote.ts:154-187 | A verified down-vote finds all its keys in the list if and only if every item is a down-vote |
| `Examples.TakenNamePasses` | core/service/transaction/delegate.ts:58-94 | Counterexample on a consistent ledger: a taken name that is stored with a blank passes the check again; undoing frees the name of the other delegate, and two delegates share it |
| `Examples.MixedDownPasses` | core/service/transaction/vote.ts:154-219 | Counterexample on a consistent ledger: a vote that begins with a down-vote and holds an up-vote passes the check, cannot be undone and leaves wrong tallies |
| `Examples.MixedUpPasses` | core/service/transaction/vote.ts:154-219 | Counterexample on a consistent ledger: a vote that begins with an up-vote and holds a down-vote passes the check and lists its delegate twice |
| `Verify.CeilDiv` | core/service/transaction.ts:190-193 | Rounding up: the least integer whose multiple reaches the amount |
| `Totals.OnlyTheFeeLeaves` | core/service/transaction.ts:95-115 | Balances plus active stakes fall by exactly the fee, for every kind; the unstaked amount equals what the released stakes held |
| `Totals.UnstakeMatches` | core/util/reward.ts:54-65 | The unstake the check computes is exactly the amount that applying makes inactive |
| `Sound.ConsistentKeptIff` | core/service/transaction.ts:476-550 | A verified transaction keeps a consistent ledger consistent (votes of a delegate equal the accounts listing it, lists without duplicates and at most 201 long, names exactly those of the delegates) if and only if its name is free as stored and its votes are of one sign |
| `Sound.SaneKept` | core/service/transaction.ts:476-550 | Every verified transaction, of whatever signs and names, keeps delegates, delegate marks and vote lists naming each other |
| `Sound.MixedDownBreaks` | core/service/transaction/vote.ts:210-226 | A verified down-vote that holds an up-vote always leaves some delegate with other votes than accounts listing it |
| `Sound.NameTwice` | core/repository/delegate.ts:18-73 | A verified new delegate whose stored name is in use always makes two delegates of one name |
| `Sound.MixedUpBreaks` | core/service/transaction/vote.ts:154-219 | A verified up-vote that holds a down-vote always lists a delegate twice |
| `Solvent.AirdropBelowFifth` | core/util/reward.ts:96-135 | The sponsors that a verified up-vote carries get less than 20 percent of its reward plus one unit for each sponsor of the voter, and nothing without a reward |
| `Solvent.ChainsKept` | core/service/transaction/register.ts:55-82 | Applying or undoing anything, checked or not, keeps every chain of sponsors at 15 or less |
| `Solvent.SetSponsorShape` | core/util/reward.ts:99-105 | Setting a sponsor replaces the entry of its address or adds one, and changes no other |
| `Solvent.AirdropPayable` | core/util/reward.ts:107-113 | The sponsors computed never sum to more than the airdrop account holds |
| `Solvent.SameSponsorsSum` | core/util/reward.ts:116-135 | Sponsors that pass the map comparison pay out the same sum as the computed ones |
| `Solvent.BalancesKept` | core/service/transaction.ts:534-539 | A verified transaction of an ordinary sender leaves no balance but the supply's negative |
| `BlockRuns.BlockKeeps` | core/service/block.ts:406-499 | Every verified block keeps the ledger sane, and deleting it restores the ledger before it when its transactions are regular |
| `BlockRuns.VerifiedBlockIff` | core/service/block.ts:164-175 | Every transaction of a verified block can be undone where it is applied if and only if the block is regular |
| `BlockRuns.BlockConsistent` | core/service/block.ts:406-499 | A verified block keeps the ledger consistent while its names are free and its votes of one sign |
| `BlockRuns.BlockTotal` | core/service/block.ts:406-499 | A verified block takes exactly the sum of its fees out of the ledger |
| `BlockRuns.BlockBalances` | core/service/block.ts:406-453 | A verified block of ordinary senders makes no balance negative |
| `Rounds.GenerateTiles` | core/service/round.ts:163-180 | A generated round is a bijection between the active delegates and the next consecutive slots, none marked |
| `Rounds.RankedIs` | core/service/delegate.ts:20-39 | The ranking holds every delegate once, by confirmed votes downwards and then by key |
| `Rounds.SortIs` | core/service/slot.ts:72-87 | Dealing by hash permutes the delegates into hash order |
| `Rounds.TiledIn` | core/util/round.ts:3-8 | In a tiled round exactly the slots from the first to the last are in it |
| `Rounds.UnpayRestores` | core/service/round.ts:112-146 | Taking a round's fees back restores balances, forged and missed counts as long as the chain is the same |
| `RoundRuns.PayTotal` | core/service/round.ts:112-146 | Closing a round puts its rounded share, once per block, into the ledger |
| `RoundRuns.ShareBounds` | core/service/round.ts:119-121 | The shares paid exceed the fees by at least zero and less than one unit per block |
| `RoundRuns.PayConsistent` | core/service/round.ts:123-145 | Paying a round or taking it back keeps the ledger consistent |
| `Closing.ClosingPays` | core/service/round.ts:112-146 | In slots and blocks alone: after every run, closing the round pays each account the share for each of its blocks in it, counts these blocks, and counts a missed one for exactly the delegates with a slot and no block there, as long as the round has a block |
| `Dealing.RoundShape` | core/service/slot.ts:72-87 | In numbers: 11, 61 or 101 slots by height, or fewer delegates; the slots follow each other, unmarked, in the order of the hashes |
| `Dealing.SeatedByRank` | core/service/delegate.ts:20-39 | Whoever forges has more confirmed votes than everyone who does not, or as many and the smaller key |
| `Node.AppendOk` | core/service/block.ts:455-499 | Appending a legal block, regular or not, keeps every state invariant: tiled rounds, linked chain, marks exactly where the chain holds the delegate's block, a sane ledger |
| `Node.ForwardOk` | core/service/round.ts:182-197 | Closing a round keeps every state invariant; the next round begins right after |
| `Node.RemoveUndoesAppend` | core/service/block.ts:598-613 | Deleting the block just appended restores chain, marks and ledger when its transactions are regular |
| `Node.BackwardUndoesForward` | core/service/round.ts:199-207 | Reopening the round just closed takes back exactly what closing paid |
| `Journal.DeleteJournaled` | core/service/block.ts:585-613 | Deletion of a block that can be undone, with the rounds it reopens, leads to a state that a straight run would reach, and removes exactly the last block |
| `Journal.DoJournaled` | core/service/round.ts:182-252 | Every operation (receive, round end, restore, delete) leads from a reachable state to one that a straight journal of appends and closes reaches |
| `Runs.JournalUnique` | core/service/block.ts:455-499 | The chain and the number of rounds determine the journal |
| `Runs.PathIndependent` | core/service/block.ts:585-621 | Any two runs that end with one chain and as many rounds end in one state: ledger, rounds and marks |
| `Runs.RunMade` | core/service/block.ts:455-499 | But for balances and block counters the ledger after every run is that of the chain applied to the start, whatever rounds were closed |
| `Runs.ChainDecides` | core/service/block.ts:585-621 | Stakes, vote lists, tallies, names, keys, referrals and confirmed ids of two runs with one chain are equal, whatever their numbers of rounds |
| `Runs.RunConsistent` | core/service/transaction.ts:476-550 | Over every run the ledger stays consistent while the names on the chain are free and its votes of one sign |
| `Runs.RunAirdrop` | core/util/reward.ts:70-135 | At the end of every run a vote that passes the check pays its sponsors less than a fifth of its reward and one unit for each |
| `Runs.MoneyConserved` | core/service/round.ts:119-127 | Over every run balances, active stakes and unpaid fees stay constant but for what rounding up adds, at most one unit less than the blocks of each closed round |
| `Runs.NeverNegative` | core/util/reward.ts:161-174 | Over every run of ordinary senders no balance but the supply's is negative; the airdrop account never pays more than it holds |
| `Restore.ForwardEnds` | core/service/round.ts:209-224 | Restoring forward ends with the slot in the current round, adding rounds only |
| `Restore.BackwardEnds` | core/service/round.ts:235-248 | Restoring backward keeps a prefix of the rounds and ends at the slot or at the last block, if and only if one of them is not before all rounds |
| `Restore.BackwardSpins` | core/service/round.ts:221-249 | Otherwise the loop of the program repeats one state for ever |
| `Restore.KeepsRoundsWithBlocks` | core/service/round.ts:235-248 | No round that holds a block of the chain is dropped |
| `Tallies.ConfirmedVotesCounted` | core/service/transaction/vote.ts:288-314 | After every run a delegate's confirmed votes are up-votes minus down-votes on the chain |
| `Explained.StateExplained` | core/service/round.ts:112-146 | After every run each balance, forged and missed count is a sum over the current chain and the marks of its closed rounds; `Closing.StateInSlots` states it without the marks |
| `Closing.StateInSlots` | core/service/round.ts:112-146 | After every run each balance is its start, the fixed changes of the chain and the shares of its blocks in closed rounds; a delegate has forged its blocks in closed rounds and missed once for each closed round with a block in which it has a slot and the chain no block of it there |
| `Explained.CutIsRound` | core/service/round.ts:112-126 | In every reachable node the blocks cut off by counting for a round are exactly those whose slots lie in it |
| `Explained.PaidKnown` | core/service/round.ts:117-126 | Whoever a round pays or counts as missing is a delegate |
| `Store.LedgerStore.Put` | core/repository/account.ts:16-20 | Putting an account changes the ledger at that address only |
| `Store.LedgerStore.AddBalance` | core/repository/account.ts:69-71 | One balance shifts by the difference, nothing else |
| `Store.LedgerStore.Ensure` | core/service/block.ts:412-421 | Making a missing account leaves the ledger as it was |
| `VoteLists.CutAndAppendIff` | core/service/transaction/vote.ts:213-251 | Splicing keys out and pushing them back restores the list up to order if and only if every key was there: `splice(-1, 1)` removes the last entry otherwise |
| `VoteLists.CutOutAt` | core/service/transaction/vote.ts:217 | Splicing takes the first place of a key, and the last entry of a list that does not hold it |
| `RewardService.CalculateTotalRewardAndUnstake` | core/util/reward.ts:42-68 | The loop over the stakes computes the totals of the due stakes, and nothing for a down-vote |
| `RewardService.GetAirdropReward` | core/util/reward.ts:70-114 | The loop over the sponsors gives the airdrop that the ledger allows, or none |
| `RewardService.SendAirdropReward` | core/util/reward.ts:161-177 | Each sponsor is paid from the airdrop account, zero rewards skipped |
| `RewardService.UndoAirdropReward` | core/util/reward.ts:179-194 | The exact opposite shift |
| `Services.SendApply` | core/service/transaction/send.ts:59-69 | Serves the transaction: the recipient gets what the sender loses, made when missing |
| `Services.SendUndo` | core/service/transaction/send.ts:71-78 | The transfer is taken back |
| `Services.RegisterApply` | core/service/transaction/register.ts:55-77 | A new account replaces the sender's, with the referral first and at most 14 of its referrals behind |
| `Services.RegisterUndo` | core/service/transaction/register.ts:79-82 | Only the referrals are cleared |
| `Services.SignatureApply` | core/service/transaction/signature.ts:47-49 | Sets the second key |
| `Services.SignatureUndo` | core/service/transaction/signature.ts:51-53 | Clears it |
| `Services.DelegateApply` | core/service/transaction/delegate.ts:82-87 | Adds a delegate with zero counters and takes its name |
| `Services.DelegateUndo` | core/service/transaction/delegate.ts:89-94 | Removes the delegate and frees the name it holds |
| `Services.FreezeApply` | core/service/transaction/stake.ts:116-132 | Pushes the stake and pays the sponsor |
| `Services.DropStakes` | core/service/transaction/stake.ts:136-140 | The backward splicing loop removes exactly the stakes of the source |
| `Services.FreezeUndo` | core/service/transaction/stake.ts:134-146 | Removes the stake and takes the airdrop back |
| `VoteService.CutVotes` | core/service/transaction/vote.ts:214-219 | The splicing loop removes each key in turn, or the last entry where a key is missing |
| `VoteService.CountOnStakes` | core/service/transaction/vote.ts:232-240 | The loop counts the vote on the due stakes and lists them |
| `VoteService.ReleaseStakes` | core/util/reward.ts:147-151 | Of the stakes listed, those at the last vote count become inactive |
| `VoteService.ReviveStakes` | core/util/reward.ts:208-212 | Of the stakes carrying the milestone the inactive become active |
| `VoteService.UncountOnStakes` | core/service/transaction/vote.ts:277-285 | The count and the milestone are taken back from the active stakes that carry it |
| `VoteService.DownApply` | core/service/transaction/vote.ts:210-230 | A down-vote splices its keys out, or the last entry for a key that is missing, and counts all of them down |
| `VoteService.DownUndo` | core/service/transaction/vote.ts:247-270 | The undo appends the keys and counts them up, and throws at the first that is no delegate |
| `VoteService.UpApply` | core/service/transaction/vote.ts:220-245 | An up-vote adds keys, counts on stakes, pays reward, unstake and airdrop, releases stakes |
| `VoteService.UpUndo` | core/service/transaction/vote.ts:258-285 | The undo reverses each of these, finding the stakes by milestone; it throws at a delegate that is gone, before stakes and rewards |
| `TransactionService.Apply` | core/service/transaction.ts:95-115 | On the repositories: the new ledger is `ApplyUnconfirmed` of the old, for every kind, but for the entries a down-vote splices away when a key is missing |
| `TransactionService.Undo` | core/service/transaction.ts:117-151 | On the repositories: the new ledger is `UndoUnconfirmed` of the old, or, when a delegate is gone and it throws, only fee and first keys are taken back |
| `TransactionService.ConfirmTransaction` | core/service/transaction.ts:153-170 | Confirms once, counting confirmed votes |
| `TransactionService.UnconfirmTransaction` | core/service/transaction.ts:172-188 | Takes a confirmation back |
| `VerifyService.VerifyVote` | core/service/transaction/vote.ts:120-198 | The loop over the items accepts exactly the votes of the specification |
| `VerifyService.VerifyFreeze` | core/service/transaction/stake.ts:87-110 | Accepts exactly the stakes of the specification |
| `VerifyService.VerifyUnconfirmed` | core/service/transaction.ts:476-550 | Accepts exactly `Verified`, in the program's order |
| `BlockService.CheckTransactionsAndApply` | core/service/block.ts:406-453 | A block's transactions are all applied if each is verified where it comes; at the first that is not, those before it are undone, which restores the ledger if each of them can be undone |
| `BlockService.RollBack` | core/service/block.ts:164-175 | Undoes last to first |
| `BlockService.SponsorsAreReferrals` | core/util/reward.ts:116-135 | The sponsors a verified transaction names are referrals of its sender |
| `RoundService.GetAllActiveDelegates` | core/service/delegate.ts:20-39 | Selects by rank and cuts to the active count |
| `RoundService.GenerateSlots` | core/service/slot.ts:72-87 | Deals consecutive slots in hash order |
| `RoundService.ProcessReward` | core/service/round.ts:112-146 | On the repositories: pays or unpays what the specification of a round says of the whole chain |
| `RoundService.CountingDownStopsIff` | core/util/slot.ts:14-22 | The countdown to the first slot of a round stops if and only if the slot is not below the first full run of delegates (the remainder of negative numbers is negative) |
| `RoundService.GetFirstSlotNumberInRound` | core/util/slot.ts:14-22 | Finds the nearest slot at or below with the wanted remainder |
| `NodeService.NodeState.ForwardProcess` | core/service/round.ts:182-197 | In memory, over the pool: the round is closed and the next generated; the state of the chain becomes `Forward` of the old if and only if no pooled new delegate ranks among those that forge |
| `NodeService.NodeState.BackwardProcess` | core/service/round.ts:199-207 | In memory, over the pool: the state becomes `Backward` of the old, above and below the pool |
| `NodeService.NodeState.RestoreToSlot` | core/service/round.ts:209-252 | The while loop ends, never logs that it passed the slot, and leaves the state of `Restore`, above and below the pool |
| `NodeService.VerifyPayload` | core/service/block.ts:314-364 | Accepts exactly payloads with few enough distinct transactions and the right fee |
| `NodeService.VerifyBlockSlot` | core/service/block.ts:380-404 | Accepts exactly the slot the round gives the generator |
| `NodeService.AcceptedIff` | core/service/block.ts:314-404 | When a block is accepted, in numbers and both ways |
| `NodeService.NodeState.Process` | core/service/block.ts:130-178 | Over the pool a block is appended if and only if it is accepted on the state of the chain and saved; otherwise, when what passed the checks can be undone, the state is as it was |
| `NodeService.NodeState.DeleteLastBlock` | core/service/block.ts:585-621 | Over the pool: deletes the last block in its round if the database does, refuses the first block; the state of the chain is that without the block if and only if every stake gives back as many milestones |
| `NodeService.NodeState.Prepare` | core/controller/block.ts:57-62 | Replacing the last block and restoring to the slot of the received one leaves the prepared state, above and below the pool, which the block follows in height and id |
| `NodeService.NodeState.OnReceiveBlock` | core/controller/block.ts:31-80 | Replacement, restore, room in the pool and processing of a received block: the block is appended to the prepared state if and only if it is accepted there and saved |
| `NodeService.NodeState.MakePoolRoom` | core/service/transactionPool.ts:55-63 | Removing what depends on a block leaves the state of the chain as it was |
| `NodeService.LastBlockHasRound` | core/service/block.ts:595-596 | The round of the last block is always on the stack, so deletion can restore to it |
| `Receive.LinkedIff` | core/controller/block.ts:57-65 | After a received block was processed the chain is linked if and only if it was the next block, or the equal-height block was really deleted |
| `Receive.ReceivedWhere` | core/controller/block.ts:46-65 | A received block comes behind the last one as its child, or in its place as a later child of the same parent while the node does not agree with its peers; nothing else happens to the chain |
| `Receive.FailedDeleteForks` | core/controller/block.ts:57-60 | Counterexample: a failed delete is not looked at and leaves two blocks of one height |
| `Receive.SyncLinkedIff` | core/service/sync.ts:241-274 | Synchronising keeps the chain linked if and only if no saved block repeats a height: nothing is deleted on this path |
| `Pool.SortTrsIs` | core/util/transaction.ts:12-32 | Sorting by type, time and id permutes into order |
| `Pool.UndoEarly` | core/service/transactionPool.ts:136-170 | A pooled transaction may be removed before later ones it is not tied to, keeping the ledger of the chain below |
| `Pool.DrainIsUndoAll` | core/service/transactionPool.ts:210-222 | Undoing in reverse sort order equals undoing in reverse push order whenever tied transactions were pushed in sort order |
| `Pool.AdmittedLast` | core/service/transactionPool.ts:224-258 | What `isPotentialConflict` admits sorts after everything it is tied to |
| `Pool.DrainRestores` | core/service/transactionPool.ts:210-258 | After any admitted pushes of interleaved senders, draining the pool restores the ledger before the first |
| `Pool.PartialPopLeaks` | core/service/transactionPool.ts:210-222 | Counterexample: popping only the first of the sort order leaves a wrong vote list |
| `Caught.RemovalBalance` | core/service/transactionPool.ts:136-170 | Removing pooled transactions in any order takes their fixed changes out of each balance, but for exactly the rewards, unstakes and airdrops of votes whose undo threw |
| `Caught.CaughtIff` | core/service/transactionPool.ts:142-148 | A removal takes back all its transaction did if and only if every delegate it votes for is there, or the vote is cut without harm |
| `Caught.EarlyIff` | core/service/transactionPool.ts:136-170 | Removing the earlier of two pooled transactions first is exact if and only if their undos may change places and a vote is not cut short by the delegate that went before it |
| `Caught.HarmlessIff` | core/service/transaction/vote.ts:258-285 | With its delegate gone a vote of distinct keys is cut without harm if and only if that delegate is its last item and, for an up-vote, nothing was counted or paid |
| `PoolOrder.OrderIff` | core/service/transactionPool.ts:136-170 | Two orders of undoing the pool in which every undo finds what it looks up lead to one ledger if and only if every stake gives back as many milestones in both |
| `PoolOrder.AllReadyIff` | core/service/transactionPool.ts:136-170 | An order finds all it looks up if and only if no delegate goes before a vote for it and the lists hold the keys of each up-vote |
| `Pool.SumItems` | core/service/transactionPool.ts:87-170 | A sum over the pooled transactions does not depend on their order |
| `UnderPool.ApplyUndoIff` | core/service/block.ts:406-453 | Below a pooled transaction of another sender a block's transaction acts as if it were not pooled, if and only if the two are apart |
| `UnderPool.BlockUnderPool` | core/service/block.ts:406-499 | Applying and confirming a block over a pool apart from it acts on the chain's ledger as if the pool were empty |
| `UnderPool.DeleteUnderPoolIff` | core/service/block.ts:598-613 | Deleting a block under a pool gives the chain's ledger without it if and only if every stake gives back as many milestones whichever is undone first, while each finds what it looks up |
| `UnderPool.PayUnderPool` | core/service/round.ts:112-146 | Paying a round or taking it back never gets in the way of the pool |
| `CheckUnderPool.VerifiedUnderPoolIff` | core/service/transaction.ts:476-550 | When a transaction of a bystander passes the check over the pool and when on the chain's ledger: the airdrop account pays the same, it votes for no pooled new delegate, none has its name |
| `CheckUnderPool.AllVerifiedUnderPool` | core/service/block.ts:406-453 | A block that fits the pool passes the checks over it if and only if it passes them on the chain's ledger |
| `CheckUnderPool.RollReady` | core/service/block.ts:164-175 | Undoing a verified block, regular or not, finds every delegate and every key |
| `CheckUnderPool.SaneUnderPool` | core/service/transaction.ts:476-550 | The ledger over the pool is as sane as the chain's |
| `PooledNode.GenerateBelowIff` | core/service/round.ts:163-180 | The round generated over the pool is that of the chain if and only if no pooled new delegate ranks among those that forge |
| `PooledNode.ForwardBelowIff` | core/service/round.ts:182-197 | The same for closing a round |
| `PooledNode.RestoreBelow` | core/service/round.ts:209-252 | Restoring to a slot acts the same above and below the pool; only towards a later slot does it matter who forges |
| `PooledNode.AppendBelow` | core/service/block.ts:455-499 | Appending a block apart from the pool acts the same above and below it |
| `PooledNode.RemoveBelowIff` | core/service/block.ts:598-613 | Taking off the last block under the pool is taking it off the chain's state if and only if every stake gives back as many milestones in either order |
| `UnderPool.KeptApart` | core/service/transactionPool.ts:55-63 | What is left after `batchRemove` changes no balance of a block sender, and is apart from the block but for exactly: a registration below a pooled one, a new delegate that is voted for or whose name is taken |
| `PoolExamples.DelegateOverPooledVote` | core/service/transaction/delegate.ts:82-94 | Counterexample, all admitted and verified: a block's new delegate over a pooled vote for it ends below zero votes |
| `PoolExamples.BatchRemoveLeaks` | core/service/transactionPool.ts:55-63 | Counterexample: a block with a transaction of a pooled new delegate removes it below a vote that stays; when the vote goes its undo throws and the reward stays |
| `PoolExamples.RegistrationOverPooled` | core/service/transaction/register.ts:55-82 | Counterexample, admitted and verified: a registration below a pooled one |
| `PoolExamples.DeleteUnderPoolLeaks` | core/service/block.ts:598-613 | Counterexample: deleting a block with an up-vote under a pooled down-vote of the same delegate leaves a wrong list |
| `PoolExamples.PooledDelegateForges` | core/service/round.ts:163-180 | Counterexample: with few delegates a pooled one changes the generated round |
| `PoolExamples.PooledAirdropRefuses` | core/util/reward.ts:107-135 | Counterexample: a pooled stake takes the last of the airdrop account, and a stake that is good on the chain's ledger is refused |
| `PoolExamples.StartExists` | core/service/round.ts:163-180 | There is a node to start from and a block that it may append |
| `PoolService.TransactionPool.Push` | core/service/transactionPool.ts:87-134 | Applies and files a transaction; both indexes stay exact, and the ledger below stays the same when the transaction can be undone |
| `PoolService.TransactionPool.Remove` | core/service/transactionPool.ts:136-170 | Undoes it, catching what that throws, and unfiles it; everything else stays in place |
| `PoolService.RemoveOne` | core/service/transactionPool.ts:179-186 | Splices one occurrence out of one list |
| `PoolService.TransactionPool.RemoveListed` | core/service/transactionPool.ts:73-85 | Removes all that an index lists, last first, and keeps all others in order |
| `PoolService.TransactionPool.BatchRemove` | core/service/transactionPool.ts:55-63 | Splits the pool: kept are exactly the transactions neither sent by nor crediting a block sender; the ledger below stays the same if and only if every stake gives back as many milestones, while all is found |
| `PoolService.TransactionPool.PopSorted` | core/service/transactionPool.ts:210-222 | Takes the first of the sort order, undone last first; the ledger below stays the same if and only if every stake gives back as many milestones, while all is found |
| `PoolService.TransactionPool.Drain` | core/service/transaction.ts:560-563 | Empties the pool; it leaves the chain's ledger when tied transactions were pushed in sort order, and more generally exactly when every stake gives back as many milestones |
| `PoolService.TransactionPool.IsPotentialConflict` | core/service/transactionPool.ts:224-258 | The search by sorting answers exactly whether a dependent transaction conflicts |
| `QueueService.CalculateFee` | core/service/transaction/vote.ts:200-208 | The loop gives a vote the least fee that ten thousand of are its sender's active stakes or more, and leaves other transactions alone |
| `QueueService.FeeIs` | core/service/transaction.ts:190-193 | The same of the transaction that is then checked and pushed |
| `Totals.ActiveStakeAdds` | core/service/transaction/vote.ts:201-206 | The active stakes add up, and only they |
| `QueueService.VerifiedPushable` | core/service/transaction.ts:476-550 | What passes the check can be pushed, and be taken back exactly when it is regular |
| `QueueService.TransactionQueue.Push` | core/service/transactionQueue.ts:78-92 | Queues in sort order unless the id is queued |
| `QueueService.TransactionQueue.Unlock` | core/service/transactionQueue.ts:62-68 | All that waited is back in the queue, sorted |
| `QueueService.TransactionQueue.Reshuffle` | core/service/transactionQueue.ts:101-105 | Nothing is lost or doubled |
| `QueueService.TransactionQueue.Process` | core/service/transactionQueue.ts:108-170 | The head goes to exactly one place; the pool stays valid, and the chain's ledger the same when what is pooled is regular |
| `QueueService.TransactionQueue.PushInPool` | core/service/block.ts:115-129 | Pushing again after a block: what passes the check where it stands joins the pool in order, the rest is queued, nothing is lost |
| `Words.SplitIsDivision` | shared/util/byteSerializer/models/uint64.ts:41-48 | Cutting the padded binary text of a number below 2 to the 64 is dividing by 2 to the 32 |
| `Words.JoinIsSum` | shared/util/byteSerializer/models/uint64.ts:24-39 | Reading joins two words into high times 2 to the 32 plus low |
| `Words.JoinSplit` | shared/util/byteSerializer/models/number64.ts:28-55 | Reading inverts writing for every 64-bit number |
| `WireFormat.BigEndianAt` | shared/util/byteSerializer/models/uint32.ts:21-24 | The byte at place i of w holds the digit of 256 to the w - 1 - i: the highest comes first |
| `WireFormat.FromBigEndianIs` | shared/util/byteSerializer/models/uint32.ts:13-19 | Reading adds up the bytes at their places |
| `WireFormat.CodesAre` | shared/util/byteSerializer/types.ts:37-53 | The type byte of every type |
| `WireFormat.UnsignedIs` | shared/util/byteSerializer/models/uint16.ts:21-24 | The bytes of unsigned numbers of one, two and four bytes |
| `WireFormat.SignedIs` | shared/util/byteSerializer/models/int16.ts:21-24 | The bytes of signed numbers, in two's complement |
| `WireFormat.LongsAre` | shared/util/byteSerializer/models/uint64.ts:41-48 | The eight bytes of a 64-bit number |
| `WireFormat.TextIs` | shared/util/byteSerializer/models/utf8.ts:36-49 | A text is its type, its length in two bytes and its bytes |
| `WireFormat.FlagIs` | shared/util/byteSerializer/models/boolean.ts:21-25 | The bytes of a flag |
| `WireFormat.ListIs` | shared/util/byteSerializer/models/array.ts:62-75 | An array is its type, its element type, its size in four bytes and its items; a set stands before it |
| `WireFormat.ItemsFollow` | shared/util/byteSerializer/models/array.ts:70-72 | The items follow in their order |
| `WireFormat.OneItem` | shared/util/byteSerializer/models/array.ts:70-72 | One item is its own encoding |
| `WireFormat.MapIs` | shared/util/byteSerializer/models/map/index.ts:49-59 | A map is its type, those of keys and values, its size in four bytes and its pairs |
| `WireFormat.EntriesFollow` | shared/util/byteSerializer/models/map/simpleArray.ts:48-50 | The pairs follow in their order |
| `WireFormat.OneEntry` | shared/util/byteSerializer/models/map/mapObject.ts:44-50 | In a pair the key comes before the value |
| `WireFormat.ObjectIs` | shared/util/byteSerializer/models/object.ts:57-69 | An object is its type, its schema and its columns |
| `WireFormat.FieldFirst` | shared/util/byteSerializer/models/object.ts:65-67 | The columns follow one by one, each with the property of its name |
| `WireFormat.ColumnsByName` | shared/util/byteSerializer/models/object.ts:65-67 | The columns of an object are written in the order of their names, character by character |
| `WireFormat.NumbersRead` | shared/util/byteSerializer/models/int16.ts:13-19 | How numbers and flags are read from bytes, and that a missing byte fails |
| `WireFormat.LongsRead` | shared/util/byteSerializer/models/utf8.ts:22-30 | How 64-bit numbers and texts are read; a text whose bytes end early is cut |
| `WireFormat.SimpleBack` | shared/util/byteSerializer/models/number64.ts:46-49 | A number, flag or text comes back as it was, a missing one as nothing |
| `WireFormat.ItemsBack` | shared/util/byteSerializer/models/array.ts:50-59 | Every item comes back in its place |
| `WireFormat.EntriesBack` | shared/util/byteSerializer/models/map/index.ts:41-46 | Every pair comes back in its place |
| `WireFormat.FieldsBack` | shared/util/byteSerializer/models/object.ts:37-46 | Every column comes back under its name |
| `WireFormat.SetHolds` | shared/util/byteSerializer/models/set.ts:20-28 | A set holds each item that was read, once |
| `WireFormat.MapHolds` | shared/util/byteSerializer/models/map/index.ts:41-46 | A map holds with each key the value read last |
| `WireFormat.MapKeysOnce` | shared/util/byteSerializer/models/map/index.ts:41-46 | A map holds each key once |
| `Serializer.SortedLength` | shared/util/byteSerializer/models/object.ts:18-25 | The length does not depend on the order of the columns |
| `Serializer.LengthIsWritten` | shared/util/byteSerializer/models/modelType.ts:28-35 | The length pass counts exactly the bytes of the encoding, for every value of every schema |
| `Serializer.TextRoundTrip` | shared/util/byteSerializer/models/utf8.ts:22-50 | A text shorter than 65536 bytes comes back with its end |
| `ReadModels.Read` | shared/util/byteSerializer/models/array.ts:34-60 | Whatever the bytes and whatever was read before, reading a value moves the offset on, so every loop ends, and no model changes but in the element types it learns |
| `HonestReads.RoundTrip` | shared/util/byteSerializer/models/object.ts:28-69 | Whatever element types earlier reads left, reading an encoding anywhere in a buffer returns the schema fields and exactly its end; its model then has the right element types, and no column has types that are not its own unless it had them before |
| `HonestReads.ItemsTrip` | shared/util/byteSerializer/models/array.ts:34-60 | The same for the loop over an array, whose element type is right at every turn even when an item holds the column being read |
| `HonestReads.MapTrip` | shared/util/byteSerializer/models/map/index.ts:26-47 | The same for maps: every pair in its place |
| `HonestReads.EntryTrip` | shared/util/byteSerializer/models/map/mapObject.ts:29-50 | The same for one pair of a map |
| `HonestReads.EntriesTrip` | shared/util/byteSerializer/models/map/simpleArray.ts:25-54 | The same for the pairs of a map |
| `HonestReads.FieldsTrip` | shared/util/byteSerializer/models/object.ts:37-46 | The same for the columns of an object, all of which then have their own element types |
| `WriteModels.WriteIff` | shared/util/byteSerializer/models/array.ts:62-75 | By models that have read anything, a value is written as its encoding if and only if every model of its parts has the declared type; otherwise writing throws or the bytes clash |
| `WriteModels.LengthAgrees` | shared/util/byteSerializer/models/array.ts:16-24 | The length pass by such models asks for exactly the bytes of the encoding |
| `SharedSchemas.AfterReads` | shared/util/byteSerializer/schema.ts:3-23 | After any buffers, honest or not, an object is written as its encoding if and only if the element types its columns have now are those of its schema |
| `SharedSchemas.HonestWrites` | shared/util/byteSerializer/config.ts:26-151 | On flat schemas, as all of the program are, any honest buffers leave every object written as its encoding |
| `SharedSchemas.HostileWrites` | shared/util/byteSerializer/models/array.ts:34-43 | Counterexample for every schema with an array or set column: one buffer with another element type and no items is decoded without complaint, and afterwards no object of that schema is written as its encoding |
| `SharedSchemas.Heals` | shared/util/byteSerializer/models/array.ts:41-43 | An honest object gives all columns of its schema their own element types again, whatever was read before |
| `SharedSchemas.ObjectsNotWritten` | shared/util/byteSerializer/models/object.ts:18-25 | An array of objects cannot be written once its model has read one, be it the same array: the element model then knows no schema |
| `SharedSchemas.DeclareIs` | shared/util/byteSerializer/config.ts:26-151 | Declaring a type makes the models of all its element types |
| `ByteSerializer.WriteWords` | shared/util/byteSerializer/models/uint64.ts:41-48 | Writes the two words at the offset and nothing else |
| `ByteSerializer.ReadWords` | shared/util/byteSerializer/models/number64.ts:28-44 | Reads them back through padded text |
| `ByteSerializer.SchemaStore.Add` | shared/util/byteSerializer/schema.ts:10-16 | Adds a schema once, with models of its columns; columns made before stay as declared |
| `ByteSerializer.SchemaStore.WriteArrayAt` | shared/util/byteSerializer/models/array.ts:62-75 | Writes header, the element type last read, size and items at the offset and nothing else |
| `ByteSerializer.SchemaStore.WriteMapAt` | shared/util/byteSerializer/models/map/index.ts:49-59 | Writes the declared types, and size and pairs by the types last read, and nothing else |
| `ByteSerializer.SchemaStore.WriteObjectAt` | shared/util/byteSerializer/models/object.ts:57-69 | Writes the columns in sorted order and nothing else |
| `ByteSerializer.SchemaStore.WriteValue` | shared/util/byteSerializer/models/dynamicBuffer.ts:28-31 | By models that agree with its type, a value changes exactly the bytes of its encoding |
| `ByteSerializer.SchemaStore.Create` | shared/util/byteSerializer/models/modelType.ts:28-35 | The allocated buffer is filled exactly |
| `ByteSerializer.SchemaStore.CreateBufferObject` | shared/util/byteSerializer/index.ts:17-20 | An object is encoded by a new model and the columns shared by all |
| `ByteSerializer.SchemaStore.ReadElements` | shared/util/byteSerializer/models/array.ts:48-60 | The while loop ends on every buffer, reading each item by the element type the array has then |
| `ByteSerializer.SchemaStore.ReadPairs` | shared/util/byteSerializer/models/map/simpleArray.ts:25-40 | The same for the pairs of a map |
| `ByteSerializer.SchemaStore.ReadColumns` | shared/util/byteSerializer/models/object.ts:28-50 | The same for the columns of an object, those past the end left out |
| `ByteSerializer.SchemaStore.ReadAt` | shared/util/byteSerializer/models/dynamicBuffer.ts:12-26 | The reader with its loops ends on every buffer; value, end and every changed element type are those of the recursive reading |
| `ByteSerializer.SchemaStore.Deserialize` | shared/util/byteSerializer/index.ts:6-15 | Decodes by a new model; whatever the bytes, every column keeps a model of its type |
| `ByteSerializer.SendAndReceive` | shared/util/byteSerializer/index.ts:6-20 | What a node with agreeing models creates, any node deserializes to the plain value, whatever bytes follow and whatever it has read before |
| `BlockStorage.LastBlocksIff` | core/service/round.ts:121-123 | The blocks a closing round pays for are found in memory if and only if the window holds as many |
| `BlockStorage.BlockStorageService.Push` | core/service/blockStorage.ts:24-31 | The window stays the end of the chain, at most 1000 long, with all indexes exact |
| `BlockStorage.BlockStorageService.Cleanup` | core/service/blockStorage.ts:13-22 | Shortens the window to its limit and forgets the transactions that leave it |
| `BlockStorage.BlockStorageService.PopLast` | core/service/blockStorage.ts:41-48 | Takes block and transactions off; the window is not filled up again |
| `BlockStorage.BlockStorageService.GetMany` | core/repository/block/index.ts:53-65 | A non-empty answer is the chain's own slice; it is empty unless the slice begins in the window |
| `BlockStorage.BlockStorageService.Has` | core/service/blockStorage.ts:50-52 | Answers for the whole chain |
| `BlockStorage.BlockStorageService.AddTransactions` | core/service/transactionStorage.ts:9-14 | Adds to the memory transactions and to the confirmed ids |
| `MainQueue.FifoSingleFlight` | core/controller/index.ts:33-99 | In every interleaving at most one task runs, a worker is there exactly while tasks are queued, and tasks finish once each in arrival order |
| `MainQueue.NeverStuck` | core/controller/index.ts:35-62 | A queued task is never stuck, and every step of the worker leaves less to do, whether a handler returns or throws |
| `ReferredUsers.AncestorOnce` | core/repository/referredUsers/tree/FactorTree.ts:11-21 | The walk up meets no node twice |
| `ReferredUsers.HitsOnce` | core/repository/referredUsers/tree/FactorTree.ts:11-21 | In a tree grown from its roots the walk up from a user meets each node above it once |
| `ReferredUsers.BelowMore` | core/repository/referredUsers/tree/ReferredUsersTree.ts:38-44 | A counted user adds one to the users below exactly those above it |
| `ReferredUsers.ReferredUsersTree.AddFactor` | core/repository/referredUsers/tree/FactorNode.ts:30-35 | Adds to the levels from one to the highest minus the distance |
| `ReferredUsers.ReferredUsersTree.UpdateCountFactor` | core/repository/referredUsers/tree/ReferredUsersTree.ts:38-44 | The bounded walk adds at each level as often as it meets the node |
| `ReferredUsers.ReferredUsersTree.Register` | core/repository/referredUsers/tree/ReferredUsersTree.ts:18-44 | Every counter stays a full recount (at level i the users at depth 1 to 15 - i) if and only if the user does not name itself; naming itself it counts itself 15 - i times at level i |
| `ReferredUsers.ReferredUsersTree.Unregister` | core/service/transaction/register.ts:79-82 | Taking a registration back counts it out again |

## Left out

- Hashes, key derivation and signatures; a public key and its address are one name here, and the hash that deals slots is an arbitrary function.
- Sockets, peers, the HTTP interface, PostgreSQL, logging, timers and the clock; the answer of the database and the current slot are parameters.
- Account and delegate objects are values in the maps of the repositories: that a delegate points to its account object, and that a replaced account object lives on elsewhere, is not captured.
- Blacklists, hard-coded exceptions for old blocks, and the checks on signatures, versions and time to live: they only reject more.
- Generating a block of one's own (unverified processing, recalculated vote fees, payload hash) and the genesis block; a run starts with one block and one round.
- Amounts of a block and its transaction count: only ids, fees, slots, heights and links are checked here.
- Other work between the two halves of saving a block: a round that ends while the database saves is not interleaved.
- Undoing for the sender only (`senderOnly`), which the node no longer calls.
- Account history, the percentage of a delegate's approval, airdrop history and the reward and stake counters of the referral tree.
- Adding an address to the referral tree a second time, which replaces its node; additions are fresh.
- A numeric address beyond 64 bits, and amounts beyond the exact range of the program's numbers: integers are unbounded here except in the byte format, and percentages are exact ratios.
- The library's array sort is a stable insertion sort here, and a delegate ranking repeated selection.
- UTF-8: texts are byte sequences; a double is its eight bytes. A number read from bytes at 2 to the 53 or above is kept exactly, where the program rounds.
- `BlockRepo.getById`, which reads a map by property access.
- `returnToQueueConflictedTransactionFromPool` as a whole: the drain and the pushing that it consists of are `Drain` and `PushInPool`. What `OnReceiveBlock` removed is returned to its caller and not pushed again there.
- BlockRuns.AllVerified: takes only down-votes without up-votes in them. Others pass the check too, and applying one removes entries that a list kept as a multiset does not determine; `Examples.MixedDownPasses` and `Sound.MixedDownBreaks` say what they do. `CheckTransactionsAndApply`, `Process`, `OnReceiveBlock`, `TransactionQueue.Process` and `PushInPool` take the same votes. Up-votes with down-votes in them are followed as the program applies them.
- Journal.DoJournaled: a deletion takes off a block whose transactions are regular. For the others undoing is not exact (`BlockRuns.VerifiedBlockIff`) and the run does not come back to a state it was in.
- VerifyService.VerifyUnconfirmed: leaves out blacklist, signatures, id and both time checks, which only reject more.
- NodeService.VerifyPayload: leaves out the amount, the transaction count and the payload hash, which only reject more.
- RoundService.ProcessReward: takes the last blocks from the whole chain, where the program takes them from the window in memory; `BlockStorage.LastBlocksIff` says when these are the same. `ForwardProcess` and `BackwardProcess` do likewise.
- NodeService.NodeState.BackwardProcess: takes a current round that does not hold the last block, which is how `restoreToSlot` calls it.
- NodeService.NodeState.RestoreToSlot: does not cover a slot before all rounds with the last block before them too, where the loop of the program does not end; and towards a later slot it takes a pool without new delegates that would forge, see `PooledNode.ForwardBelowIff`.
- NodeService.NodeState.Process: requires the height and previous id that the controller checks before it (`Receive.LinkedIff` says when that check is enough), and a block that fits the pool; `CheckUnderPool.VerifiedUnderPoolIff` and `UnderPool.ApplyUndoIff` say what happens to others.
- NodeService.NodeState.DeleteLastBlock: requires that undoing the block over the pool finds all it looks up. Where a pooled down-vote has taken a key, `PoolExamples.DeleteUnderPoolLeaks` shows the damage; where a delegate is gone the program throws in the middle of deleting.
- NodeService.NodeState.MakePoolRoom: requires an order of removals that keeps the state of the chain; `PoolOrder.OrderIff` and `Caught.EarlyIff` say which do.
- NodeService.NodeState.OnReceiveBlock: takes an answer of the database that deletes the replaced block (`Receive.LinkedIff` is about the other), and a block and a pool that meet the conditions of the operations it consists of.
- PoolService.TransactionPool.Remove: when the list of the sender lacks a key of the up-vote, which entry goes instead depends on the order of the list; that is `TransactionService.Undo`. `RemoveListed`, `BatchRemove` and `PopSorted` likewise state the ledger for lists that hold the keys.
- PoolService.TransactionPool.BatchRemove: its condition for keeping the chain's ledger is exact among the orders in which every undo finds what it looks up; what one missing delegate does to two transactions is `Caught.EarlyIff`.
- PoolService.TransactionPool.PopSorted: the same.
- RoundService.GetFirstSlotNumberInRound: requires a slot from which the countdown ends, see `RoundService.CountingDownStopsIff`.
- BlockStorage.BlockStorageService.PopLast: requires a block in memory; the program dereferences the missing block otherwise.
- WriteModels.WriteIff: what a writer puts after its type byte for a value of another type is an arbitrary function, or an exception.
- ByteSerializer.SchemaStore.WriteValue: requires models that agree with the type; `WriteModels.WriteIff` says that otherwise the bytes are not the encoding.
- HonestReads.RoundTrip: sets of other than simple elements and maps with other than simple keys are not covered, and no schema has them. The schemas of `shared/util/byteSerializer/config.ts` are not written out: the theorems hold for every list of schemas, or for every flat one where they say so.
