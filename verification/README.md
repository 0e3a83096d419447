# The BitShares chain state engine, modelled and proved in Dafny

This project models the part of the BitShares chain library that decides what the chain's
state is: the undo log under it, the switch between forks, the market, the check of
authorities, vesting balances, price feeds, and the arithmetic of maintenance. Each piece is
written twice: as functions on values, about which the lemmas speak, and, where the C++ updates
objects in place, as a class whose methods are proved to compute those functions, loops included.
`dafny verify dfyconfig.toml` checks everything.

| Piece | Modules | Main results |
|---|---|---|
| Undo log | `UndoLog`, `UndoDatabase`, `Sessions`, `ObjectDatabase` | over every run the log of deltas does what a stack of full snapshots does, except that it cannot revert some states; which ones is stated exactly, for single merges and for whole blocks with nested sessions |
| Forks | `Blocks`, `ForkDatabase`, `BlockApplication`, `ChainSafety`, `ChainProgress`, `ChainDatabase` | branch finding is correct and complete; over every run on the undo log pushing a block is atomic, or fails half-way exactly when a session to be reverted cannot be; blocks that apply are taken one after the other, and a higher branch that applies wins |
| Market | `Sums`, `Assets`, `Ledger`, `Fills`, `Matching`, `Trading`, `TradingSafety`, `TradingOutcomes`, `ShortOrders` | when every operation goes through, and what it leaves; debt changes only with supply, and value too exactly while no one takes collateral out of a position; every account's wealth and debt change by exactly its own payments; match rounding is bounded; running totals of core in orders are right exactly while no settlement overdraws |
| Limit book | `Minimum`, `LimitBook`, `LimitTrades` | price-time priority, trades at the prices of the resting orders and what everyone gets from them, and a book that is never crossed |
| Force settlement | `Settling`, `SettlementTrades`, `SettlementSafety`, `SettlementProgress` | the loops terminate, stay within the percentage allowed, and leave nothing that could be settled; they trade the earliest settlement with the weakest position, at the feed within three units; on balanced books with positions worth their debt at the feed they always find a position, never overdraw one, and go through |
| Market, in place | `MarketDatabase` | every method computes the function that the lemmas are about |
| Authorities | `Authorities`, `AuthorityChecks` | when the check throws; with its memory it lies between the plain recursion and the least fixed point, both inclusions are strict, and within the depth it decides that fixed point |
| Vesting | `Vesting`, `VestingBalances` | the ledgers of the balance and of coin-seconds, and the indifference to extra updates |
| Price feeds | `Counting`, `PriceFeeds`, `FeedUpdates` | what field-by-field medians of valid feeds keep, and what only an odd number of them keeps |
| Budget | `Budget`, `BudgetDatabase` | supply within its cap over every run, greedy pay, a shared witness budget |
| Votes | `Votes`, `VoteTally`, `DelegateWeights` | the scan finds the median exactly when enough stake is counted; weights of 16 bits and a majority threshold |
| Key index | `KeyIndex`, `AccountHistory` | the index agrees with the accounts over every run, aliases included |
| Amount text | `AmountText` | the round trip of amounts, and what the reader makes of every numeral |

## How the code is read

- An operation that throws is undone by the session around it. Functions return `None` (or
  `Threw`) for it, and a method that returns `ok == false` promises nothing about its fields.
- Objects of the database are values under their ids. In the modules about forks a block is an
  arbitrary deterministic script: edits of objects, and sessions nested in its own that are merged
  or undone, up to its end or to where it throws. `Sound` asks of the scripts that they record the
  block as the head and nest sessions no deeper than they say. One set of rules stands for all
  pushes of a run: their skip flags are the same, but for the one that skips the fork database,
  although a switch back applies old blocks under the flags of the push that caused it
  (`libraries/chain/database.cpp:1661-1668`). Block ids are perfect hashes with the height in them.
- An undo that throws ends the process or leaves the objects half restored. `Failed` is such an
  outcome, and that of running out of history in the middle of a switch.
- In the market, one weight per entry of each book makes one sum out of all books. Five choices
  of weights say what is held and what is owed of an asset, net of supply, what core an account
  has in orders, net of its running total, and what each account has and owes of an asset. They
  are spelled out as plain sums of balances, orders, collateral, settlements, fees, debt and
  supply in `TradingSafety`.
- `assert` in the C++ is checked in debug builds only. Where the code can fail one, the model
  goes on as a release build does, and a lemma says exactly when that happens
  (`RunningTotalBreaks`, `CollateralLasts`, `LastCollateralIsLost`); a settlement price that is
  not between the asset and what backs it is taken as an exception.

## Where the code differs from its comments

- The equality operator of prices (`libraries/chain/asset.cpp:35-44`) is true for many unequal
  prices. It is used for `is_null` only, which makes null exactly the prices with core in both legs.
- The loop commented as processing expired settlements (`libraries/chain/database.cpp:2142`)
  looks at no date: every settlement that waits is processed at once, in the order of its date.
- `fill_order` for a position takes what is left of its collateral off the running total of core
  in whatever asset that is (`libraries/chain/database.cpp:1012-1013`); the drift of `CallDrift`
  is that.
- Withdrawals from a vesting balance compare assets by id before amount
  (`libraries/chain/asset.cpp:6-13`), so amounts of a lower asset are always allowed; the
  subtraction then throws.
- There is not always a position to settle with, although holdings are supply and supply is debt:
  one that paid out all its collateral for a part of its debt is not found again
  (`CollateralRunsOut`). Positions worth their debt at the feed suffice (`SettlementsAreSafe`).
- A settlement of zero is admitted by validation (`libraries/chain/operations.cpp:651-655`). Once
  it is due, its price has a zero leg, and every block throws (`ZeroSettlementThrows`).
- The merge of two undo states leaves one that cannot be reverted if the inner session removed
  what the outer one had modified. That happens: a block that completes the approval of a proposal
  modifies it, and `push_proposal` removes it in a merged session
  (`libraries/chain/proposal_evaluator.cpp:95-121`, `libraries/chain/database.cpp:1743-1753`). So
  such a block can never be popped, and a switch away from it stops half-way, outside of any
  handler (`libraries/chain/database.cpp:1630-1631`).
- Taking collateral out of a position while covering a part of its debt lowers the collateral and
  the running total, but credits no balance (`libraries/chain/short_order_evaluator.cpp:236-242`).
- The text of a negative amount with decimals says another amount
  (`libraries/chain/asset_object.cpp:165-168`).
- A witness budget that was not used is counted in the supply and given to no one: the next
  budget replaces it.
- Votes for more witnesses or committee members than the maximum are said to be turned into votes for
  the maximum (`libraries/chain/database.cpp:1462-1469`); they are not counted at all.
- `feed_is_expired` (`libraries/chain/include/bts/chain/asset_object.hpp:224`) is true while a
  feed is not expired; it only decides when medians are taken anew, which is not modelled.

## Model

| member | source | states |
|---|---|---|
| `UndoLog.RevertRestores` | libraries/db/undo_database.cpp:69-99 | a state that describes the way from one database to another can be reverted exactly when no object has both a value to restore and one to reinsert, and then gives the first database back, objects and counters |
| `UndoLog.MergeDescribes` | libraries/db/undo_database.cpp:101-128 | the merged state describes the way across both sessions, whatever they did |
| `UndoLog.MergeSpoils` | libraries/db/undo_database.cpp:104-126 | which objects a merge leaves with two old values, and so beyond reverting: what the outer one had so, what the inner one had so and the outer one had not created, and what the inner one removed and the outer one had modified |
| `UndoLog.MergeIsComposition` | libraries/db/undo_database.cpp:101-128 | of two states that can be reverted, the merged one can exactly when the inner session removed nothing that the outer one had modified, and then it is the same as reverting both |
| `UndoDatabase.StepRefines` | libraries/db/undo_database.cpp:10-170 | each operation of the undo database succeeds exactly when that of a stack of full snapshots does and the state that it reverts, if any, can be reverted; every level stays a description of its snapshot |
| `UndoDatabase.RunRefines` | libraries/db/undo_database.cpp:10-170 | the same over every run of start, create, modify, remove, undo, merge, commit and pop_commit |
| `UndoDatabase.AdmissibleRunIsClean` | libraries/db/undo_database.cpp:101-128 | while no session is merged that removed what the one below had modified, every state on the stack can be reverted, over every run |
| `UndoDatabase.RewindsToSnapshot` | libraries/db/undo_database.cpp:69-99 | undoing, or popping commits, k times succeeds exactly when the top k states can be reverted, and gives the k-th snapshot from the top |
| `UndoDatabase.UndoRefinesSnapshots` | libraries/db/undo_database.cpp:10-170 | from a fresh database, over every run, the log of deltas succeeds exactly when the stack of snapshots does and every state reverted on the way can be; it ends in the same database, from which reverts give the snapshots; a full history drops the oldest level only |
| `UndoDatabase.MergeThenUndo` | libraries/db/undo_database.cpp:101-128 | undo after a merge succeeds exactly when the outer session can be reverted, had created whatever the inner one cannot revert, and had modified nothing that the inner one removed; then it gives what undoing both gives |
| `UndoDatabase.InadmissibleMergeReachable` | libraries/db/undo_database.cpp:34-66 | modify an object, start a nested session and remove it: a run that reaches the case in which a merge cannot be undone |
| `Sessions.ActionsRun` | libraries/db/undo_database.cpp:10-128 | edits and nested sessions have an effect on the objects, and on the state of the session around them, that no older state bears on; on a full stack they push off as many old states as sessions are nested |
| `Sessions.SessionIsClean` | libraries/db/undo_database.cpp:101-128 | a session ends with a state that can be reverted exactly when every session merged into it had removed nothing modified until then and left beyond reverting only what was created |
| `Sessions.CommittedBlock` | libraries/chain/database.cpp:1637-1641 | a block, as a session of edits and nested sessions that is committed, can be popped exactly when all its merges are such; popping it restores the objects and the rest of the stack |
| `Sessions.UndoneBlock` | libraries/chain/database.cpp:1642-1643 | the undo of the session of a block that throws succeeds exactly when the merges until then are such, and restores the objects |
| `Sessions.AdmissibleMergesWell` | libraries/db/undo_database.cpp:101-128 | it suffices that no merged session removed what the one around it had modified; for sessions nested once that is also needed |
| `Sessions.ProposalBlockStays` | libraries/chain/proposal_evaluator.cpp:95-121 | a block that completes the approval of a proposal of an earlier block modifies it, and removes it in a merged session: whatever else it does, it commits and can never be popped |
| `Sessions.CreationHeals` | libraries/db/undo_database.cpp:104-126 | three sessions deep, the session that created an object makes such a merge good |
| `ObjectDatabase.Database.StartUndoSession` | libraries/db/undo_database.cpp:10-20 | a session starts, and a full stack loses its oldest state; the fields after it are those of the step function |
| `ObjectDatabase.Database.Create` | libraries/db/undo_database.cpp:21-33 | an object gets the next id; the hook records the first counter and the new id; the fields after it are those of the step function |
| `ObjectDatabase.Database.Modify` | libraries/db/undo_database.cpp:34-46 | the first old value of an object that is not new is recorded; the fields after it are those of the step function |
| `ObjectDatabase.Database.Remove` | libraries/db/undo_database.cpp:47-67 | a new object is forgotten, any other is kept with the value to restore; the fields after it are those of the step function |
| `ObjectDatabase.Database.Undo` | libraries/db/undo_database.cpp:69-99 | the loops over the four parts of the top state give the undo of the reference step; the fields after it are those of the step function |
| `ObjectDatabase.Database.Merge` | libraries/db/undo_database.cpp:101-128 | the loops that fold the top state into the one below give the merged state; the fields after it are those of the step function |
| `ObjectDatabase.Database.Commit` | libraries/db/undo_database.cpp:129-133 | a session ends and keeps its state; the fields after it are those of the step function |
| `ObjectDatabase.Database.PopCommit` | libraries/db/undo_database.cpp:135-170 | a committed state is reverted by the same loops; the fields after it are those of the step function |
| `ForkDatabase.PushedIsValid` | libraries/chain/fork_database.cpp:19-47 | pushing a block keeps every item linked to the block it names as predecessor; the head moves to the new block only if that is higher |
| `ForkDatabase.PushIndexes` | libraries/chain/fork_database.cpp:19-47 | a push succeeds exactly when there is no head, the block names no predecessor, or that is indexed; then the block is indexed, as a new item linked to the indexed predecessor unless its id was known, all others stay but those 1024 below a head that rises, and the head is the new item exactly when it is higher |
| `ForkDatabase.PushExtendsPath` | libraries/chain/fork_database.cpp:19-47 | a push on an indexed block puts a new start before the path of weak links from it |
| `ForkDatabase.LockLoses` | libraries/chain/fork_database.cpp:89-106 | a weak link is lost when its end is neither indexed nor the head |
| `ForkDatabase.PathIsKept` | libraries/chain/fork_database.cpp:33-47 | a push leaves every path of indexed items that are not dropped |
| `ForkDatabase.PathDescends` | libraries/chain/block.cpp:11-19 | height drops by exactly one at each step of a linked path, because block ids embed the number |
| `ForkDatabase.BranchesAreCorrect` | libraries/chain/fork_database.cpp:76-112 | when branch finding returns, both lists are parent-linked paths from the inputs down to two blocks of equal height with one predecessor, and no higher pair is |
| `ForkDatabase.BranchesAreFound` | libraries/chain/fork_database.cpp:76-112 | whenever the weak links lead down to such a pair, branch finding succeeds and stays within those paths; so it throws only when links are lost |
| `ForkDatabase.Database.PushBlock` | libraries/chain/fork_database.cpp:26-47 | pushes a block in place as the tree function says, and drops items beyond the depth when the head rises |
| `ForkDatabase.Database.FetchBranchFrom` | libraries/chain/fork_database.cpp:76-112 | the three loops find the branches that the recursive search defines, and terminate |
| `ChainSafety.PopsExactly` | libraries/chain/database.cpp:1392-1400 | popping to the fork point over the undo log pops exactly the remembered blocks above it, if all their sessions can be reverted, and fails otherwise |
| `ChainSafety.BranchMoves` | libraries/chain/database.cpp:1637-1650 | applying a branch gives the fold along it, or stops at the first block that throws; what applied is remembered as far as the history goes; it breaks off only if an undo throws |
| `ChainSafety.SwitchBackRestores` | libraries/chain/database.cpp:1651-1674 | reverting a failed switch restores the old objects and head exactly when the sessions of the bad branch can be reverted, and fails half-way otherwise |
| `ChainSafety.SwitchIsAtomic` | libraries/chain/database.cpp:1620-1678 | a switch away from remembered blocks ends at the fold along the new branch, or throws and leaves the objects as they were, or fails half-way, each exactly when stated |
| `ChainSafety.PushIsAtomic` | libraries/chain/database.cpp:1605-1694 | every push with room keeps the objects the fold of block application along the path to the head, and says how many blocks stay remembered; one that throws leaves objects and head; the head never gets lower; a switch takes a longer branch; it fails half-way exactly when the old branch cannot be reverted, or the new one neither applies nor can be |
| `ChainSafety.RunIsFold` | libraries/chain/database.cpp:1605-1694 | the same over every run of pushes of which each has room, by a count that starts from nothing, and none fails half-way |
| `ChainSafety.FreshRunIsFold` | libraries/chain/database.cpp:1605-1694 | from a fresh chain on, with nothing assumed of its history |
| `ChainSafety.AdmissibleBlocksRetract` | libraries/chain/database.cpp:1743-1753 | blocks can be reverted whose merged sessions removed nothing modified before; for sessions nested once only such |
| `ChainSafety.ProposalBlocksStay` | libraries/chain/proposal_evaluator.cpp:95-121 | a branch that starts with a block that executes an older proposal on approval can never be reverted, so a switch away from it fails half-way |
| `ChainProgress.HeadBlockIsKept` | libraries/chain/database.cpp:1605-1694 | a block on the head that applies is kept, becomes the head of the chain and of the fork database, and can be built on |
| `ChainProgress.ChainGrows` | libraries/chain/database.cpp:1605-1694 | blocks that apply one on top of the other are all kept when pushed in turn, and the objects are the fold of them |
| `ChainProgress.FreshChainGrows` | libraries/chain/database.cpp:1605-1694 | the same from a fresh chain on |
| `ChainProgress.DivergingIsSwitching` | libraries/chain/database.cpp:1617-1635 | a block that is not on the head but higher, with paths of weak links that meet below, is a switch along just these paths |
| `ChainProgress.HigherBranchWins` | libraries/chain/database.cpp:1617-1678 | if the chain can be taken back to where they meet, there is room, and the branch applies, that push ends at its end, with its fold as the objects |
| `ChainProgress.UnlinkedIsRefused` | libraries/chain/fork_database.cpp:26-35 | a block without a known predecessor is refused, and nothing changes |
| `ChainProgress.SideBlockWaits` | libraries/chain/database.cpp:1612-1673 | a block that is not higher than the head waits in the fork database, and the objects stay |
| `ChainProgress.PopsReach` | libraries/chain/database.cpp:1630-1631 | popping to a block gets there or fails, stranded only where no state is left |
| `ChainProgress.ThrownBlockLeaves` | libraries/chain/database.cpp:1679-1694 | a block on the head that throws is taken out of the fork database again, and nothing else is |
| `ChainProgress.ForkAfterSwitch` | libraries/chain/database.cpp:1651-1674 | after a switch that threw, exactly the blocks of the new branch that did not apply are taken out of the fork database; its head goes down one link for every block popped |
| `ChainDatabase.Database.PushBlock` | libraries/chain/database.cpp:1605-1694 | the imperative push, with its sessions and branch loops, computes the push function |
| `ChainDatabase.Database.PopBlock` | libraries/chain/database.cpp:1392-1400 | popping a block over the object database is the pop function; it throws without a state, changing nothing, and when the top state cannot be reverted |
| `ChainDatabase.Database.ApplyInSession` | libraries/chain/database.cpp:1637-1643 | a block runs in an undo session of the object database, nested sessions included; committed, undone or broken as the function says |
| `ChainDatabase.Database.SwitchForks` | libraries/chain/database.cpp:1632-1678 | the loops of a switch, and of going back, compute the switch function |
| `Assets.OrderIsRatio` | libraries/chain/asset.cpp:13-34 | the cross-multiplied order of two valid prices of one market is the order of their ratios as reals |
| `Assets.OrderIsTotal` | libraries/chain/asset.cpp:13-34 | the comparisons form one total preorder on all valid prices |
| `Assets.InverseReverses` | libraries/chain/asset.cpp:13-34 | inverting both prices reverses their order |
| `Assets.TimesRoundsDown` | libraries/chain/asset.cpp:59-76 | an amount at a price is the exact value rounded down to a unit |
| `Assets.TimesSucceeds` | libraries/chain/asset.cpp:59-76 | the product is refused exactly when the asset is in neither leg, or the result above the largest supply |
| `Ledger.BalanceAdjusted` | libraries/chain/database.cpp:408-430 | a balance is adjusted exactly when it would not be negative, and no other is changed |
| `Ledger.CallPriceRoundsDown` | libraries/chain/asset.cpp:86-93 | the call price is the debt for the collateral less what the maintenance ratio keeps back, rounded down; refused exactly above the largest supply or within one asset |
| `Fills.MarketFeeBounds` | libraries/chain/database.cpp:795-815 | no fee is taken where none is charged; else it is the percentage rounded down, held between the two bounds, or the lower bound if the percentage is zero; it is at most the amount where the bounds and percentage are |
| `Fills.FillLimitMoves` | libraries/chain/database.cpp:941-977 | filling a limit order moves every measure by exactly what its seller pays and receives, less the fee that the asset keeps: holdings and debt net of supply, core in orders net of the running total, and what each account has and owes |
| `Fills.FillLimitFrame` | libraries/chain/database.cpp:941-977 | nothing but the order, its owner and fees changes; the order shrinks by what it pays, and is gone exactly when what is left is worth less than one unit of what it asks for |
| `Fills.FillLimitSucceeds` | libraries/chain/database.cpp:941-977 | a fill is refused exactly when the asset received is unknown, the fee overdraws the balance, or what is left asks for more than the largest supply |
| `Fills.FillCallMoves` | libraries/chain/database.cpp:978-1029 | the same for a position: the borrower pays collateral, debt and supply go down alike; the running total goes wrong by an amount that is stated exactly |
| `Fills.FillCallSucceeds` | libraries/chain/database.cpp:978-1029 | a fill is refused exactly when the position ends with less collateral than its owner can make up for |
| `Fills.FillShortMoves` | libraries/chain/database.cpp:1031-1131 | the same for a short order: supply and debt up alike, its share of collateral and the proceeds go into the position |
| `Fills.FillShortFrame` | libraries/chain/database.cpp:1031-1131 | the order shrinks by what it pays and by its share of collateral, the rest when it is filled and else what its price asks for, and is gone when what is left asks for nothing; the position of its seller grows by that debt, that share and the proceeds less the fee, at the ratio of the order and the call price of what it has then |
| `Fills.FillShortSucceeds` | libraries/chain/database.cpp:1031-1131 | exactly when that fill goes through |
| `Fills.FillShortValid` | libraries/chain/database.cpp:1031-1131 | the position stays in the asset that backs what it owes |
| `Fills.FillSettlementMoves` | libraries/chain/database.cpp:1133-1154 | the same for a force settlement |
| `Fills.FillSettlementSucceeds` | libraries/chain/database.cpp:1133-1154 | a fill is refused exactly when the fee overdraws the owner |
| `Fills.CancelLimitConserves` | libraries/chain/database.cpp:630-646 | cancelling an order conserves every measure |
| `Matching.MatchRounding` | libraries/chain/database.cpp:449-478 | neither side pays more than it has, one pays all of it; that side receives less than one unit below the exact amount, and the other gets a rate no worse than the match price |
| `Matching.MatchLimitsMoves` | libraries/chain/database.cpp:442-480 | in a match of two limit orders the bidder pays the asker, and the asker the bidder, what the amounts say, less fees; nothing else moves in any measure |
| `Matching.MatchLimitsConserves` | libraries/chain/database.cpp:442-480 | so what is held and owed net of supply, and core in orders net of running totals, is conserved |
| `Matching.MatchShortMoves` | libraries/chain/database.cpp:442-480 | in a match with a short order the payment goes into the position of the short seller, who issues what the bidder receives |
| `Matching.MatchSettlementMoves` | libraries/chain/database.cpp:482-502 | in a match with a settlement the borrower pays the owner, who gives up exactly what is covered of the debt |
| `Trading.PlaceConserves` | libraries/chain/limit_order_evaluator.cpp:36-58 | placing a limit order conserves every measure |
| `Trading.PlaceShortConserves` | libraries/chain/short_order_evaluator.cpp:49-71 | placing a short order conserves every measure |
| `Trading.CancelShortConserves` | libraries/chain/short_order_evaluator.cpp:116-141 | cancelling a short order conserves every measure |
| `Trading.CoverMoves` | libraries/chain/short_order_evaluator.cpp:199-248 | covering a part of a debt costs the borrower as much as it takes off the debt and the supply; adding collateral costs nothing, and collateral taken out is given to no one |
| `Trading.CloseMoves` | libraries/chain/short_order_evaluator.cpp:199-226 | closing a position costs its whole debt, and returns all collateral |
| `Trading.RequestConserves` | libraries/chain/asset_evaluator.cpp:319-328 | a request for settlement conserves every measure |
| `Trading.MarginCallMoves` | libraries/chain/database.cpp:545-623 | in a turn of the margin-call loop the borrower pays the seller of the order, who sells or issues what covers the debt |
| `Trading.MarginCallPays` | libraries/chain/database.cpp:585-612 | a margin call never pays more than the collateral |
| `Trading.StepMoves` | libraries/chain/database.cpp:442-1154 | every operation of the market moves every measure by exactly the payments between the accounts that take part |
| `Trading.StepConserves` | libraries/chain/database.cpp:442-1154 | every operation of the market conserves holdings net of supply, but for collateral taken out of positions, and debt net of supply, and moves running totals with orders up to the exact drift |
| `TradingSafety.StepKeepsValid` | libraries/chain/database.cpp:442-1154 | every operation keeps positions and short orders in the backing asset of what they owe or sell |
| `TradingSafety.ValueIsConserved` | libraries/chain/database.cpp:2226-2285 | over every run of all operations, what is owed of an asset changes by exactly the change of its supply, and what is held of it by that less the collateral that updates of positions took out |
| `TradingSafety.ValueIsLost` | libraries/chain/short_order_evaluator.cpp:236-242 | so value is conserved over a run exactly when no update took collateral out of a position |
| `TradingSafety.CollateralVanishes` | libraries/chain/short_order_evaluator.cpp:184-242 | an update that the evaluator admits, after which three units of core are held by no one |
| `TradingSafety.AccountsChange` | libraries/chain/database.cpp:442-1154 | every operation changes what any account has of any asset, in all books, and what it owes, by exactly the payments that it takes part in |
| `TradingSafety.MatchPaysBoth` | libraries/chain/database.cpp:442-480 | both sellers of a match pay and get what the amounts say, less the fees |
| `TradingSafety.BystandersKeepAll` | libraries/chain/database.cpp:442-1154 | no account that takes no part has or owes more or less afterwards |
| `TradingSafety.RunningTotalsAgree` | libraries/chain/database.cpp:978-1131 | where core backs every market-issued asset, each running total is, over every run, what the account has in limit orders, short orders and positions exactly when no settlement overdrew its position |
| `TradingSafety.RunFallsBehind` | libraries/chain/database.cpp:978-1131 | a running total never gets ahead of the orders by any run, and falls behind exactly at overdrafts |
| `TradingSafety.RunningTotalBreaks` | libraries/chain/database.cpp:978-1029 | one operation breaks a running total that was right exactly when it settles the whole debt of that account for more than its collateral |
| `TradingOutcomes.PlaceOutcome` | libraries/chain/limit_order_evaluator.cpp:27-58 | a limit order is placed exactly when it is new, offers what its price says and its owner has that |
| `TradingOutcomes.PlaceShortOutcome` | libraries/chain/short_order_evaluator.cpp:49-71 | a short order is placed exactly when it is new, in the backing asset of what it sells, and its owner has the collateral |
| `TradingOutcomes.CancelShortOutcome` | libraries/chain/short_order_evaluator.cpp:116-141 | a short order can be cancelled exactly when that overdraws no one, and is gone then |
| `TradingOutcomes.RequestOutcome` | libraries/chain/asset_evaluator.cpp:308-328 | a settlement is requested exactly when it is new and its owner has the amount, which then waits |
| `TradingOutcomes.CoverOutcome` | libraries/chain/short_order_evaluator.cpp:184-248 | an update of a position goes through exactly when it covers less than the debt, the balances suffice and there is a call price afterwards; debt, collateral, ratio and call price are then what was asked for |
| `TradingOutcomes.CloseOutcome` | libraries/chain/short_order_evaluator.cpp:184-226 | a position is closed exactly when the balance covers its debt, and is gone then |
| `TradingOutcomes.MatchLimitsOutcome` | libraries/chain/database.cpp:442-480 | a match goes through exactly when both fills do; both orders are left with what they did not pay, by amounts within one unit of the price |
| `TradingOutcomes.MatchShortOutcome` | libraries/chain/database.cpp:442-480 | the same with a short order, whose position grows by the debt, its share of collateral and the payment less the fee |
| `TradingOutcomes.SettleOutcome` | libraries/chain/database.cpp:482-502 | a settlement takes the least of its balance, the debt and the volume left, for the exact worth rounded down; it goes through exactly unless that is too much, a fee overdraws its owner or the position cannot pay |
| `TradingOutcomes.MarginCallOutcome` | libraries/chain/database.cpp:545-623 | a turn of the margin-call loop goes through exactly when the order is at the call price or beyond, the collateral affords the whole debt at its price, and the fills go through; the position buys the lesser of its debt and the order, at the price of the order |
| `TradingOutcomes.MarginCallOnLimit` | libraries/chain/database.cpp:545-623 | with a limit order, in plain terms of both, and what is left of them |
| `TradingOutcomes.RunKeepsCallPriced` | libraries/chain/database.cpp:1064-1090 | over every run call prices are in the collateral and the debt of their positions, which the last two suppose |
| `ShortOrders.CollateralLasts` | libraries/chain/database.cpp:1093-1104 | the assertion that collateral is left after a partial fill holds for every sequence of fills exactly when the order is covered at the start |
| `ShortOrders.LowRatiosAreCovered` | libraries/chain/operations.cpp:369-375 | an initial ratio of at most two suffices for that |
| `ShortOrders.HighRatiosNeedNotBe` | libraries/chain/operations.cpp:369-375 | a ratio of three, which validation admits, does not |
| `ShortOrders.AllButOneTakesAll` | libraries/chain/database.cpp:1056-1062 | an order that is not covered loses all its collateral to a fill of all but one unit |
| `LimitBook.MatchLimitsFrame` | libraries/chain/database.cpp:442-480 | a match touches its two orders alone, removes at least one as its result says, and leaves the other something to sell |
| `LimitBook.ConsumeIsConsumed` | libraries/chain/limit_order_evaluator.cpp:70-128 | the matching loop terminates, takes orders in the order of the index, and ends with the new order gone or nothing left to match |
| `LimitBook.ConsumeConserves` | libraries/chain/limit_order_evaluator.cpp:70-128 | the loop conserves every measure |
| `LimitBook.CreateConserves` | libraries/chain/limit_order_evaluator.cpp:34-138 | so does creating an order with all its matches |
| `LimitBook.CreateTakesInOrder` | libraries/chain/limit_order_evaluator.cpp:70-128 | price-time priority: no order is touched before every better one is gone, a new order that stays has used up every order in reach, and no other order is touched |
| `LimitBook.CreateUncrosses` | libraries/chain/limit_order_evaluator.cpp:70-128 | an uncrossed book is uncrossed after a new order, exactly unless that stays and crosses an order priced beyond the index bound |
| `LimitBook.BookIsNeverCrossed` | libraries/chain/limit_order_evaluator.cpp:34-169 | over every run of creates, with amounts within the largest supply, and cancels, the book of plain assets is never crossed, and every order has something to sell |
| `LimitTrades.CreateTrades` | libraries/chain/limit_order_evaluator.cpp:70-138 | a new order makes a sequence of trades with orders that it crosses, the best price first and of equal prices the oldest; in each the resting order sells at its own price, rounded by less than a unit, and all of it but in the last; the orders are left with what they did not pay; what every account has of every asset changes by just these payments, less fees |
| `LimitTrades.LimitIsHonoured` | libraries/chain/limit_order_evaluator.cpp:70-128 | no such trade gives the new order less than its own price asks for, but for the rounding of one unit |
| `LimitTrades.FillOrKill` | libraries/chain/limit_order_evaluator.cpp:129-135 | an order to be filled or killed goes through exactly when one that may stay would not stay, and then does the same |
| `LimitTrades.CreateGoesThrough` | libraries/chain/limit_order_evaluator.cpp:27-138 | among orders within the largest supply, with fees that never exceed what is received, an order that may stay goes through exactly when it is new, offers what its price says and its owner has that |
| `Settling.SettleOrderProgresses` | libraries/chain/database.cpp:2187-2198 | each match of the inner loop settles a positive amount, so the loop cannot stick |
| `Settling.SettleOrderKeeps` | libraries/chain/database.cpp:2187-2200 | settled volume goes up to the cap at most, supply down by as much; the order or the cap is used up |
| `Settling.ClearFromClears` | libraries/chain/database.cpp:2145-2202 | the outer loop terminates; when it ends without an exception, what remains is of an asset without a price or with its volume used; supply plus settled volume and the cap do not change, so the remembered cap is the recomputed one |
| `Settling.VolumeIsShare` | libraries/chain/asset_object.cpp:16-19 | the volume that may be settled is the percentage of supply and settled volume together, rounded down |
| `Settling.SettlementIsCleared` | libraries/chain/database.cpp:2145-2202 | when the call ends, a settlement that remains is of an asset without a price, or of whose percentage not one more unit is left; no asset has more settled than its percentage of supply and settled volume, unless it had before; supply, holdings and debt go down by what was settled |
| `Settling.ClearingNeverSticks` | libraries/chain/database.cpp:2145-2202 | the loop never comes to a match that settles nothing |
| `Settling.DiscountRoundsDown` | libraries/chain/database.cpp:2178-2185 | the settlement price is the worth of the whole balance at the feed, less the discount, rounded down, and never above that worth |
| `Settling.PriceSucceeds` | libraries/chain/database.cpp:2178-2185 | there is a price exactly when the feed is one of the asset and its backing, and the balance worth no more than the largest supply |
| `Settling.PositionIsFound` | libraries/chain/database.cpp:2191-2194 | the index lookup finds a position exactly when one that owes the asset has collateral for its debt at the lowest price |
| `Settling.PositionAlwaysExists` | libraries/chain/database.cpp:2193-2194 | at one turn: while holdings are supply and supply is total debt, a waiting settlement means that there is a position to match, if positions have collateral |
| `Settling.LastCollateralIsLost` | libraries/chain/database.cpp:2193-2194 | a settlement that takes all collateral for a part of the debt leaves nothing to be found, with debt still owed |
| `Settling.ZeroSettlementThrows` | libraries/chain/operations.cpp:651-655 | a settlement of zero, which validation admits, is an exception in every block in which it is due |
| `SettlementSafety.MatchKeepsCovered` | libraries/chain/database.cpp:482-502 | a match at a price no better than the feed takes no more collateral than the position has, and leaves the rest of it worth the rest of its debt |
| `SettlementSafety.CoveredHasCollateral` | libraries/chain/database.cpp:2191-2194 | a position that is worth its debt at a feed with a leg within the largest supply is found by the index |
| `SettlementSafety.MatchKeepsSecure` | libraries/chain/database.cpp:2187-2198 | a match keeps holdings equal to supply and to debt, and all positions worth their debt |
| `SettlementSafety.SettlementsAreSafe` | libraries/chain/database.cpp:2145-2202 | if holdings are supply, supply is debt, and every position is worth its debt at the feed, for all assets to be settled, then there is a position at every turn of the loops, and no settlement takes more collateral than its position has |
| `SettlementSafety.CollateralRunsOut` | libraries/chain/database.cpp:2187-2198 | balanced books with one position not worth its debt, on which the loop settles nine units and finds no position for the tenth |
| `SettlementSafety.OverdraftHappens` | libraries/chain/database.cpp:978-1029 | books on which a settlement at the price of the feed goes through, overdraws its position and leaves a running total wrong |
| `SettlementTrades.ClearingTrades` | libraries/chain/database.cpp:2145-2202 | the call is a sequence of trades, each of the earliest settlement of its asset with the position that has the least collateral for its debt; each pays what the feed less the discount says, or less than three units less; these are all that happens to settlements and positions, all that anyone has or owes more or less of afterwards, and all that is recorded as settled |
| `SettlementTrades.PriceIsFeed` | libraries/chain/database.cpp:2178-2198 | whatever part of a balance is traded at the price of the whole is traded at the feed less the discount, within three units of rounding |
| `SettlementProgress.SettlementsGoThrough` | libraries/chain/database.cpp:2145-2202 | on such books the call goes through, if every settlement of an asset with a feed has a price and fees never exceed what is received |
| `MarketDatabase.Market.AdjustBalance` | libraries/chain/database.cpp:408-430 | balances are changed, created or refused as the book function says |
| `MarketDatabase.Market.PayMarketFees` | libraries/chain/database.cpp:817-833 | fees are added to the asset received |
| `MarketDatabase.Market.PayOrder` | libraries/chain/database.cpp:835-843 | the seller is credited, and what was paid leaves the running total |
| `MarketDatabase.Market.CancelOrder` | libraries/chain/database.cpp:630-646 | the order is refunded and removed |
| `MarketDatabase.Market.FillLimitOrder` | libraries/chain/database.cpp:941-977 | the fill in place is the fill function, with the same result |
| `MarketDatabase.Market.FillCallOrder` | libraries/chain/database.cpp:978-1029 | the fill in place is the fill function, with the same result |
| `MarketDatabase.Market.FillShortOrder` | libraries/chain/database.cpp:1031-1131 | the fill in place is the fill function, with the same result |
| `MarketDatabase.Market.FillSettlementOrder` | libraries/chain/database.cpp:1133-1154 | the fill in place is the fill function, with the same result |
| `MarketDatabase.Market.MatchLimitOrders` | libraries/chain/database.cpp:442-480 | both fills, and the bits of the result |
| `MarketDatabase.Market.MatchShortOrder` | libraries/chain/database.cpp:442-480 | both fills, and the bits of the result |
| `MarketDatabase.Market.MatchSettlementOrder` | libraries/chain/database.cpp:482-502 | both fills, and the amount settled |
| `MarketDatabase.Market.MarginCall` | libraries/chain/database.cpp:545-623 | one turn of the margin-call loop |
| `MarketDatabase.Market.CreateLimitOrder` | libraries/chain/limit_order_evaluator.cpp:34-138 | the loop over the price index computes the recursive definition |
| `MarketDatabase.Market.CreateShortOrder` | libraries/chain/short_order_evaluator.cpp:47-71 | the offer leaves the balance and joins the running total |
| `MarketDatabase.Market.CancelShortOrder` | libraries/chain/short_order_evaluator.cpp:116-141 | the collateral is returned |
| `MarketDatabase.Market.RequestSettlement` | libraries/chain/asset_evaluator.cpp:319-328 | the amount leaves the balance and waits |
| `MarketDatabase.Market.CoverPosition` | libraries/chain/short_order_evaluator.cpp:199-248 | debt and supply shrink, collateral changes, the call price is set anew; only added collateral is taken from the balance |
| `MarketDatabase.Market.ClosePosition` | libraries/chain/short_order_evaluator.cpp:199-226 | debt and supply shrink, and the collateral is returned |
| `MarketDatabase.Market.SettleOrder` | libraries/chain/database.cpp:2187-2198 | the inner loop computes the recursive definition |
| `MarketDatabase.Market.ClearSettlements` | libraries/chain/database.cpp:2145-2202 | the outer loop computes the recursive definition |
| `Authorities.CheckIsSound` | libraries/chain/transaction_evaluation_state.cpp:9-68 | whatever is approved, and whatever is remembered, is in the least fixed point of weighted approval from signatures and initial approvals |
| `Authorities.CheckNeverThrows` | libraries/chain/transaction_evaluation_state.cpp:9-68 | the check throws for no account, whatever is remembered, if all ids in authorities exist and are of accounts or keys, and account 0 is neither asked nor named in a transaction that is not proposed |
| `Authorities.CheckThrows` | libraries/chain/transaction_evaluation_state.cpp:14-27 | it throws for account 0 in a transaction that is not proposed, and for a class without authority |
| `Authorities.CheckIsComplete` | libraries/chain/transaction_evaluation_state.cpp:9-68 | an account that the same recursion approves without remembering anything is approved, unless the check throws |
| `Authorities.ChecksAreSandwiched` | libraries/chain/transaction_evaluation_state.cpp:9-68 | both over every sequence of checks with one state, in any order; in well named authorities none throws |
| `Authorities.ShallowChecksAreExact` | libraries/chain/transaction_evaluation_state.cpp:30-48 | an account below which no chain of accounts is longer than the depth is approved exactly when it is in that fixed point, whatever was asked before |
| `Authorities.CheckRemembers` | libraries/chain/transaction_evaluation_state.cpp:31-65 | an account that is approved is remembered |
| `Authorities.ConsiderRemembers` | libraries/chain/transaction_evaluation_state.cpp:31-62 | and so is every authorization that counted |
| `Authorities.CyclesNeverApprove` | libraries/chain/transaction_evaluation_state.cpp:9-68 | a set of accounts that get too little weight from outside of it is never approved |
| `Authorities.KeysDecide` | libraries/chain/transaction_evaluation_state.cpp:29-67 | an account that only keys authorize is approved exactly when those that signed weigh enough |
| `Authorities.NearThenFar` | libraries/chain/transaction_evaluation_state.cpp:30-48 | authorities that the check approves only because of what it remembers |
| `Authorities.FarThenNear` | libraries/chain/transaction_evaluation_state.cpp:30-48 | the same authorities with two ids exchanged are denied, although they are in the least fixed point: the order of visits matters |
| `AuthorityChecks.TransactionEvaluationState.CheckAuthority` | libraries/chain/transaction_evaluation_state.cpp:9-68 | the recursive method with its loop returns the outcome, and leaves the approvals, of the check function |
| `AuthorityChecks.TransactionEvaluationState.ConsiderAuthorization` | libraries/chain/transaction_evaluation_state.cpp:31-62 | the body of that loop, for one authorization |
| `Vesting.AllowedMeansPaid` | libraries/chain/vesting_balance_object.cpp:101-122 | a withdrawal of the own asset is allowed exactly when the assertions of the withdrawal hold |
| `Vesting.LowerAssetIsAllowed` | libraries/chain/vesting_balance_object.cpp:119-122 | amounts of another asset are allowed exactly when its id is lower, whatever was earned |
| `Vesting.UpdateIsUnseen` | libraries/chain/vesting_balance_object.cpp:61-83 | an update at one time does not alter what has been earned at a later one |
| `Vesting.VestsInOnePeriod` | libraries/chain/vesting_balance_object.cpp:85-91 | after one period without changes everything may be withdrawn |
| `Vesting.EarnedIsLeast` | libraries/chain/vesting_balance_object.cpp:61-77 | coin-seconds grow by the balance every second, up to the balance times the period |
| `Vesting.EventMoves` | libraries/chain/vesting_balance_object.cpp:101-181 | a deposit adds its amount exactly when it is of the own asset and leaves no more than the largest supply, a withdrawal takes its amount exactly when it is of the own asset and its coin-seconds are earned, and spends these |
| `Vesting.BalanceIsConserved` | libraries/chain/vesting_balance_object.cpp:101-181 | over every run, what is left and what was paid out add up to what there was and what was brought in |
| `Vesting.EarnedBeforePaid` | libraries/chain/vesting_balance_object.cpp:61-181 | over every run at times that do not decrease, what was withdrawn times the period plus the coin-seconds left is at most what was there at the start plus the integral of the balance |
| `Vesting.CoinSecondsAreEarned` | libraries/chain/vesting_balance_object.cpp:61-181 | the same from the creation of a balance on; coin-seconds stay within the balance times the period |
| `Vesting.UpdatesAreUnseen` | libraries/chain/vesting_balance_object.cpp:79-83 | updates between deposits and withdrawals change no later payment |
| `VestingBalances.VestingBalanceObject.Deposit` | libraries/chain/vesting_balance_object.cpp:168-173 | coin-seconds are updated before the balance grows by the amount |
| `VestingBalances.VestingBalanceObject.Withdraw` | libraries/chain/vesting_balance_object.cpp:175-181 | the assertions hold for an allowed amount; the balance shrinks by it, and coin-seconds by its part |
| `VestingBalances.VestingBalanceObject.UpdateCoinSecondsEarned` | libraries/chain/vesting_balance_object.cpp:78-83 | coin-seconds and their time are set |
| `PriceFeeds.NthIsMedian` | libraries/chain/asset_object.cpp:46-56 | what the selection leaves in the middle has more than half of the values at most it, and half, rounded up, at least it |
| `PriceFeeds.RatiosStayInOrder` | libraries/chain/asset_object.cpp:22-63 | the median maintenance ratio is below the median initial ratio, for any number of valid feeds |
| `PriceFeeds.MedianIsValid` | libraries/chain/asset_object.cpp:22-63 | for an odd number of valid feeds of one market the median call limit is below the inverse of the median short limit, and the median feed passes validation itself |
| `PriceFeeds.EvenFeedsCanCross` | libraries/chain/asset_object.cpp:22-63 | for every even number there are valid feeds whose every median has the limits crossed |
| `PriceFeeds.MajorityRules` | libraries/chain/asset_object.cpp:22-63 | where more than half of the feeds have a field within bounds, so does the median |
| `PriceFeeds.PublicationIsEarliest` | libraries/chain/asset_object.cpp:24-34 | the publication time is that of the earliest live feed |
| `PriceFeeds.LiveFeedsAreFresh` | libraries/chain/asset_object.cpp:24-34 | the live feeds are all those published less than the lifetime ago, in the order of their publishers |
| `PriceFeeds.ValidFeedMeans` | libraries/chain/asset.cpp:104-119 | a feed of a market is valid exactly when amounts and times are positive, the ratios in order, and the call limit below the inverse of the short limit |
| `PriceFeeds.NumbersAreMiddle` | libraries/chain/asset_object.cpp:46-63 | the three numbers of a median feed are each in the middle: more than half of the feeds have at most that, and half, rounded up, at least that |
| `PriceFeeds.PricesAreMiddle` | libraries/chain/asset_object.cpp:46-63 | and so are its three prices, by their ratios |
| `Counting.NthElement` | libraries/chain/asset_object.cpp:47-55 | selection by rank: a permutation with nothing greater before the place and nothing less after it |
| `FeedUpdates.BitassetData.UpdateMedianFeeds` | libraries/chain/asset_object.cpp:22-63 | no live feed gives none, one is taken as it is, more give the median of every field |
| `Budget.BudgetIsWithinReserve` | libraries/chain/database.cpp:1491-1526 | the budget is at most the reserve, positive exactly when the reserve and the elapsed time are, and otherwise the share rounded up |
| `Budget.PaysAreGreedy` | libraries/chain/database.cpp:919-938 | whoever comes after one who is paid short gets nothing; the pays add up to the smaller of budget and requests |
| `Budget.RequestedIsShare` | libraries/chain/database.cpp:919-931 | a worker asks for its part of a day, rounded down |
| `Budget.BudgetIsShared` | libraries/chain/database.cpp:1553-1573 | the witness budget is the pay of every block that begins until the next maintenance, or the whole budget; that of workers their part of a day, or what is left |
| `Budget.BudgetIsProcessed` | libraries/chain/database.cpp:1531-1597 | after maintenance every worker in order got its pay, no one else anything; the witness budget and the time are set and the fees are burned |
| `Budget.SupplyIsWhatIsIssued` | libraries/chain/database.cpp:1575-1597 | supply changes by exactly the witness budget and what workers have more in vesting balances, less the fees |
| `Budget.WorkersGetTheirPay` | libraries/chain/database.cpp:919-938 | the payroll gives every worker its pay, and changes nothing else about the workers |
| `Budget.SupplyFallsByRefunds` | libraries/chain/worker_object.cpp:7-13 | the supply falls during the payroll by exactly what refund workers were paid |
| `Budget.SupplyIsCapped` | libraries/chain/database.cpp:1531-1597 | what is issued is exactly the witness budget and the pays that are not burned, and supply ends within its cap |
| `Budget.SupplyStaysCapped` | libraries/chain/database.cpp:1531-1597 | over every run of budgets, blocks and fees supply stays within the cap |
| `Budget.WitnessesShareTheBudget` | libraries/chain/database.cpp:1979-1997 | the witnesses of any number of blocks get all they are due, or all of the budget |
| `BudgetDatabase.CoreAsset.PayOrder` | libraries/chain/database.cpp:906-917 | the active workers with stake, each once, sorted by stake |
| `BudgetDatabase.CoreAsset.PayWorkers` | libraries/chain/database.cpp:904-939 | the loop over them computes the payroll |
| `BudgetDatabase.CoreAsset.PayWorker` | libraries/chain/worker_object.cpp:7-20 | a worker is paid by its kind |
| `BudgetDatabase.CoreAsset.ProcessBudget` | libraries/chain/database.cpp:1531-1597 | the new books are those of the budget function, within the cap |
| `BudgetDatabase.CoreAsset.UpdateSigningWitness` | libraries/chain/database.cpp:1979-1997 | a witness gets its pay as far as the budget goes |
| `Votes.PrefixIsStake` | libraries/chain/database.cpp:1459-1483 | the entries of a histogram, for witnesses or committee, up to an offset add up to the stake that asks for at most that |
| `Votes.StakeSpeaks` | libraries/chain/database.cpp:1432-1483 | stake counts for what its voting account asks for and approves, and for its own opinion when that is account zero; that of other than prime accounts only if they may vote |
| `Votes.ScanFindsMedian` | libraries/chain/database.cpp:1286-1323 | the scan of either histogram stays within it exactly when more than half of all stake is counted, and then stops at the least entry whose prefix exceeds half |
| `Votes.ScanSucceeds` | libraries/chain/database.cpp:1286-1295 | when no counted account asks for more than the maximum, all stake is in the histogram, and the scan succeeds exactly when there is any |
| `VoteTally.Tally.UpdateVoteTotals` | libraries/chain/database.cpp:1423-1487 | the loop over the accounts leaves both histograms, the total and every vote tally as the sums of stake that define them |
| `VoteTally.Tally.WitnessCount` | libraries/chain/database.cpp:1289-1294 | the loop of the scan computes the scan function, with none where it would read past the end |
| `VoteTally.Tally.CommitteeCount` | libraries/chain/database.cpp:1317-1323 | the same for the committee |
| `DelegateWeights.WeightFits` | libraries/chain/database.cpp:1343-1356 | a weight is between 1 and 65535, grows with the votes, and no more bits are dropped than that takes |
| `DelegateWeights.WeightIsExact` | libraries/chain/database.cpp:1343-1351 | as many low bits are dropped as it takes for the total to fit 16 bits, and no more; a weight is what is left of the votes, or one |
| `DelegateWeights.FirstListingCounts` | libraries/chain/database.cpp:1335-1342 | of an account listed twice the first votes count |
| `DelegateWeights.ThresholdIsMajority` | libraries/chain/database.cpp:1353-1359 | the threshold is the least majority of all weights: all delegates together reach it, and of two disjoint sets of them only one can |
| `DelegateWeights.DelegatesGetWeights` | libraries/chain/database.cpp:1335-1356 | the weights of the listed delegates are such |
| `DelegateWeights.UpdateAuthority` | libraries/chain/database.cpp:1329-1361 | the loops give those weights, and half of their sum and one as the threshold |
| `KeyIndex.CreateKeepsValid` | libraries/plugins/account_history/account_history_plugin.cpp:252-273 | after an account is created, every address is mapped to exactly the accounts that use it |
| `KeyIndex.UpdateKeepsValid` | libraries/plugins/account_history/account_history_plugin.cpp:324-394 | the same after an update, also when only some of the keys that share an address are lost |
| `KeyIndex.KeysAreFound` | libraries/plugins/account_history/account_history_plugin.cpp:374-378 | the address of every key that an account had is in the index |
| `KeyIndex.IndexFindsUsers` | libraries/plugins/account_history/account_history_plugin.cpp:467-511 | the index gives for an address exactly the accounts that use a key with it as memo, owner or active key |
| `KeyIndex.OpIsApplied` | libraries/plugins/account_history/account_history_plugin.cpp:252-394 | which operations go through, and what keys and accounts there are then |
| `KeyIndex.IndexStaysRight` | libraries/plugins/account_history/account_history_plugin.cpp:252-394 | over every run of key and account creations and updates |
| `AccountHistory.AccountHistoryPlugin.IndexAccountKeys` | libraries/plugins/account_history/account_history_plugin.cpp:467-511 | the loop adds the account to each address of its keys |
| `AccountHistory.AccountHistoryPlugin.PostEvaluate` | libraries/plugins/account_history/account_history_plugin.cpp:324-394 | lost keys are taken away, then all keys are indexed again |
| `AccountHistory.AccountHistoryPlugin.UpdateAccount` | libraries/plugins/account_history/account_history_plugin.cpp:280-394 | an update between its two hooks keeps the index right |
| `AccountHistory.AccountHistoryPlugin.CreateAccount` | libraries/plugins/account_history/account_history_plugin.cpp:252-273 | a creation keeps the index right |
| `AmountText.ReadsNumeral` | libraries/chain/asset_object.cpp:101-155 | digits, a point and digits are read as the number they say, refused exactly when there are more decimals than the precision or the amount is too large |
| `AmountText.ScanAccepts` | libraries/chain/asset_object.cpp:103-121 | the first loop lets through digits, one minus and one point at most, wherever they stand |
| `AmountText.OnlyNumeralsAreRead` | libraries/chain/asset_object.cpp:101-155 | any other text throws, and so does one with more decimals than the precision |
| `AmountText.RoundTrip` | libraries/chain/asset_object.cpp:101-170 | an amount is read back from its own text exactly when it is not negative or is a whole number of units; the text of a negative amount with decimals always says another |
| `AmountText.AmountFromString` | libraries/chain/asset_object.cpp:101-155 | the loops of the reader compute the reading function, for every text |
| `AmountText.AmountToString` | libraries/chain/asset_object.cpp:157-170 | the loop of the writer computes the writing function, for negative amounts too |

## Left out

- Networking, storage of blocks, the wallet, plugins other than the key index, signatures and serialisation.
- The fork database's `invalid` flag, which nothing sets, and the block store, whose entries a fork switch files under the wrong id.
- Pending transactions and the timestamp of the pending block; a push works on a clean head state.
- Block numbers, amounts, weights and tallies are unbounded numbers: the wrap-around of 32-bit block numbers and weights, and the overflow checks of 64-bit amounts other than the explicit limits, are not modelled.
- Negative amounts in orders, settlements and deposits, which validation keeps out.
- Prediction markets, global settlement after a black swan, and bonds: a margin call that cannot cover the debt is no step of the model.
- Fills.FillShortMoves: does not model the collateral of a prediction market, which is what is paid less what is received whatever the order has.
- MarketDatabase.Market.FillShortOrder: the same.
- TradingSafety.ValueIsConserved: fee pools of assets and the income of witnesses are not in the sum, as no operation of the market touches them.
- The iterators of `check_call_orders`: its body is the step `MarginCall`, on any position and order that its guards admit.
- MarketDatabase.Market.CreateLimitOrder: without matching the new order with short orders, and margin calls before and after it; it is for markets of assets that are not market issued, where neither happens.
- Guards of the evaluators that only refuse an operation (balances checked twice, white lists, expirations, fees), since refusing changes nothing.
- Expired orders, which are cancelled as by their owners.
- Short orders whose price has a zero leg: prices of orders are valid.
- Positions that are equally collateralized are settled in the order of their accounts, not of their ids.
- `linear_vesting_policy`, and the vesting balances that fees and workers are paid into, beyond their amounts.
- FeedUpdates.BitassetData.UpdateMedianFeeds: for prices that are valid or the default null price; on others the comparison is not an order, and sorting them is undefined in C++.
- The choice of witnesses and delegates by votes, and their shuffling.
- Changes to the genesis account's keys by the election of delegates, which the key index does not see.
- UndoDatabase.MergeThenUndo: for sessions that are active, as the session objects of the code guarantee.
- ChainSafety.RunIsFold: for runs in which every switch is within the blocks that are counted as remembered; beyond them a switch may fail half-way.
- ObjectDatabase.Database.Undo: what a revert that throws leaves of the objects, beyond the log being disabled.
- TradingSafety.RunningTotalsAgree: for assets backed by core; with any other backing the code itself lets the totals drift, by `CallDrift`.
- LimitBook.BookIsNeverCrossed: for amounts within the largest supply, as the price index is searched up to that; `CreateUncrosses` is the exact statement without it.
- Settling.SettlementIsCleared: for books in which no debt is zero, and core is not market issued.
- Settling.PositionAlwaysExists: for positions with collateral; `PositionIsFound` is the exact statement, and `SettlementSafety.SettlementsAreSafe` that for whole loops.
- LimitTrades.CreateGoesThrough: for orders within the largest supply and fees that do not exceed what is received; beyond them `FillLimitSucceeds` says of every fill when it throws.
- TradingOutcomes.MarginCallOutcome: for call prices in the assets of their positions, which `RunKeepsCallPriced` shows of every run from books without positions.
- Authorities.ShallowChecksAreExact: for accounts without longer chains below them than the depth; `FarThenNear` shows that beyond it an account may be denied although it is justified.
- SettlementSafety.SettlementsAreSafe: says what suffices for all settlements of a block; at one turn `PositionIsFound` says what is needed.
- AmountText.RoundTrip: for amounts within the largest supply either way.
