# Wallet and mall services: a verified model

A Dafny model of the state-changing core of a wallet and mall backend: the ledger, the referral tree
settlement, mining rewards, escrowed orders and withdrawals, deposit synchronisation, the mall's
orders, the release of award balances, the leftmost-leaf search, and the tree table of the admin
front end.

`dafny verify dfyconfig.toml` checks the whole project.

## How it is built

Every service that updates rows is a class whose methods follow the source branch by branch. Each
method's `ensures` equates the new state with a function of the old one; that function is then the
subject of the lemmas: what every step keeps, what holds over every run, what two algorithms agree on.
What the function itself means is stated apart from it, in the columns of the tables, the fields of a
request and the wallets before and after: on which side a user counts, who pays whom how much, what a
transaction on a chain is worth, and when a request is refused.

| file | models |
|---|---|
| `Sums.dfy`, `Rounding.dfy`, `Text.dfy` | sums over sequences and sets; HALF_UP rounding to eight places; case folding |
| `Ledger.dfy` | `UserCoinService.changeUserCoin` and the mapper's guarded update |
| `Referral.dfy`, `Settlement.dfy` | the referral forest; `StatService.departMoney` |
| `NodeStats.dfy` | `statNodes`, and registrations between its tasks |
| `Levels.dfy`, `Mining.dfy`, `MiningPays.dfy`, `Community.dfy` | `getUserLevel`, `minering`, `community` |
| `Escrow.dfy`, `EscrowRuns.dfy`, `EscrowWallets.dfy`, `EscrowService.dfy` | `PlatOrderService` and `SendCoinService` running together |
| `Payments.dfy`, `DepositSync.dfy`, `DepositAmounts.dfy`, `SyncRuns.dfy` | deposit sync of `BitcoinService`, `UsdtService`, `EthService` |
| `EosSync.dfy`, `EosRuns.dfy` | `EosService.getActions` and `removeDuplicate` |
| `SyncEvents.dfy` | all of these together on one table of received coins, with other services on the ledger between them |
| `Mall.dfy`, `MallRuns.dfy`, `MallDetails.dfy`, `MallAwards.dfy`, `MallOnce.dfy`, `MallClose.dfy`, `MallService.dfy` | `MallOrderService` |
| `AwardRelease.dfy` | `ReleaseAwardService` and the scheduled job that starts it |
| `LeftSearch.dfy` | `UserService.findLeft` and `findLeft2` |
| `TreeTable.dfy` | `bootstrap-treetable.js`: grouping and render order |

Amounts are integers in units of 1e-8 coin; requested changes, fees and earnings are `real`, and every
rounding the source does is written out. Database tables, redis hashes and persisted settings are maps,
sequences and fields. A transactional request is one atomic step that either happens or is refused and
changes nothing. The chain, the price, the time of day, the answer of a node and the moment of a
failure are parameters.

## What the proofs brought to light

- The comment at `MallOrderService.java:173` speaks of deducting the frozen amount; line 174 takes the
  price from the buyer's award balance, and the only call anywhere that raises an award balance is the
  rebate at line 208, behind that very step. So from a ledger without award balances, over every run of
  the mall and of the other services, an order can be confirmed if and only if it costs nothing
  (`MallAwards.PricedOrdersNeverComplete`), and no seller is ever paid and no rebate given
  (`MallAwards.ConfirmingPaysNobody`). Only where award balances were put into the database otherwise can
  a priced order be completed: exactly when the award covers the price (`MallAwards.ConfirmNeedsAward`).
  Its price is then never unfrozen: `MallAwards.SeededBuyerStaysFrozen` is such a run,
  `MallOnce.CompletedStays` says that it stays so, and `MallAwards.CompletedStaysFrozen` that the
  frozen money matches the live orders exactly if the completed ones cost nothing.
- `sendOrder` sends canceled and completed orders, and `returnOrder` reopens returned ones. These requests
  and no others bring a settled order back to life (`MallOnce.RevivesExactly`); without them every order is
  settled at most once (`MallOnce.SettledAtMostOnce`). Buying, canceling, sending and canceling again
  refunds the buyer twice, out of the money frozen for other orders (`MallOnce.RefundedTwice`), and already
  the sending makes units appear that do not exist (`MallOnce.CanceledThenSent`).
- The three queries of `closeOrderByUserId` do not overlap: the first and the last ask for
  `return_status` zero in the mapper (`MallClose.NoOrderTwice`).
- `EosService.removeDuplicate` drops by transaction, not by action: a deposit that is the second action
  of its transaction is lost with its window (`EosDeposits.SecondActionIsLost`). Over all windows, failing
  anywhere, once the cursor is past it, it has been credited if and only if one of them happened to begin
  between the two actions (`EosRuns.CreditedExactlyBetween`).
- Award release empties a balance if and only if it does not exceed the minimum, or the share of the
  smallest balance above it rounds to at least one unit; otherwise the balance never gets below that
  size (`AwardRelease.DrainsExactlyWhenMoving`); one unit at one percent stays for ever
  (`AwardRelease.OneUnitStays`). A run with rate zero, or with nothing to release, returns with the static
  flag down (`AwardRelease.FlagFallsExactly`), after which no start of the job on any later day releases
  anything, whatever awards come (`AwardRelease.DownForEver`).
- Registration writes the same user as inviter and referrer and leaves the right code null
  (`UserService.java:204-219`). So as soon as one registered user has invited another, `departMoney`
  breaks off on the null, and the second user's task can never leave the queue of `statNodes`
  (`NodeStats.SecondInvitationBreaks`); each attempt at it raises the same counts once more
  (`NodeStats.RunKeepsSound`). `NodeStats.SettlesExactlyWhen` says for which user tables the settlement
  still ends normally.

## Model

| member | source | states |
|---|---|---|
| `Rounding.HalfUpSymmetric` | common/src/main/java/com/cmd/wallet/service/UserCoinService.java:49-51 | rounding half up is symmetric about zero, so a change and its opposite round to opposites |
| `Rounding.HalfUpExactly` | common/src/main/java/com/cmd/wallet/service/UserCoinService.java:49-51 | what rounds to a number is exactly what is nearer to it than to its neighbours, and of two halfway points the one nearer to zero: ties go away from zero |
| `Ledgers.Ledger.UpdateRow` | common/src/main/java/com/cmd/wallet/common/mapper/UserCoinMapper.java:20-26 | the guarded update changes exactly one row, by the three amounts, if and only if the wallet exists and no bucket becomes negative; otherwise it changes nothing |
| `Ledgers.Ledger.ChangeUserCoin` | common/src/main/java/com/cmd/wallet/service/UserCoinService.java:41-82 | the try, create and retry protocol refines one atomic step: add the rounded changes to the wallet, absent wallets reading as zero, and record them as bills, or fail without any effect |
| `Ledgers.PostExactly` | common/src/main/java/com/cmd/wallet/service/UserCoinService.java:49-80 | a change adds its three rounded parts to the wallet, or is refused if a bucket would become negative, and appends a bill for each part that is not zero |
| `Ledgers.PostKeepsBalance` | common/src/main/java/com/cmd/wallet/service/UserCoinService.java:49-80 | a change keeps every balance non-negative and equal to the sum of its bills |
| `Ledgers.EveryRunBalances` | common/src/main/java/com/cmd/wallet/service/UserCoinService.java:41-82 | over every sequence of calls, refused ones included, no balance is negative and each bucket of each wallet equals the sum of its recorded bills |
| `Ledgers.TogetherMoves` | common/src/main/java/com/cmd/wallet/service/UserCoinService.java:49-68 | a transaction of several calls, on overlapping wallets too, moves every bucket by the sum of its calls |
| `Ledgers.TogetherKeepsBalance` | common/src/main/java/com/cmd/wallet/service/UserCoinService.java:41-82 | and a transaction of several calls that goes through keeps every balance non-negative and equal to its bills |
| `Ledgers.ReversalRestores` | common/src/main/java/com/cmd/wallet/service/UserCoinService.java:49-68 | after any change its opposite always succeeds and restores the wallet exactly, whatever was rounded away |
| `Referral.UnderIsBelow` | common/src/main/java/com/cmd/wallet/service/StatService.java:149-181 | whoever lies under a user is registered later; together with the finite table this is why the walk upward ends |
| `Referral.LeavesReachEverybody` | common/src/main/java/com/cmd/wallet/service/StatService.java:130-181 | a set of users that holds every leaf and is closed upward holds everybody |
| `Referral.CountOneMore` | common/src/main/java/com/cmd/wallet/service/StatService.java:149-181 | one more counted user raises exactly the cells of the users above, on the side it hangs on |
| `Referral.ChildSides` | common/src/main/java/com/cmd/wallet/service/StatService.java:157-165 | a child lies on the right of its referrer exactly if the referrer itself invited it with a code equal to the right code letter by letter up to case, on the left exactly if not, and on neither exactly if the columns that decide it are null |
| `Referral.DescendantSides` | common/src/main/java/com/cmd/wallet/service/StatService.java:149-181 | anybody else lies on the side of a user on which its referrer lies |
| `Referral.BelowByTable` | common/src/main/java/com/cmd/wallet/service/StatService.java:149-181 | so where all sides are on file the two sides of a user are those that the columns of the table show |
| `Text.EqualLetterByLetter` | common/src/main/java/com/cmd/wallet/service/StatService.java:157 | equality up to case is equality letter by letter, up to the two cases of an ASCII letter |
| `Text.LowerCase` | common/src/main/java/com/cmd/wallet/service/EthService.java:203 | lower case is the same text up to case, without a capital letter |
| `Referral.RegisteringKeepsPlaces` | common/src/main/java/com/cmd/wallet/service/UserService.java:179-243 | registering a new leaf changes nobody's place in the tree |
| `Referral.AncestorsAreDepth` | common/src/main/java/com/cmd/wallet/service/StatService.java:149-181 | a user lies under as many users as its depth, once each and on one side only |
| `Referral.GrandTotal` | common/src/main/java/com/cmd/wallet/service/StatService.java:149-181 | summed over all users, left and right totals hold each user's mined amount once per ancestor |
| `Settlement.RewardStat.constructor` | common/src/main/java/com/cmd/wallet/service/StatService.java:71-114 | the settlement starts from zeroed rows and a leaf table of exactly the users without a child |
| `Settlement.RewardStat.NextLeafNode` | common/src/main/resources/mapper/UserMapper.xml:138-140 | the next leaf is the one with the least larger id, and there is none exactly when no leaf has a larger id |
| `Settlement.EverybodyCounted` | common/src/main/java/com/cmd/wallet/service/StatService.java:130-181 | once every leaf was walked, every user was counted |
| `Settlement.ClimbOne` | common/src/main/java/com/cmd/wallet/service/StatService.java:149-181 | one round of the inner loop keeps every row short of its total over the users counted so far by exactly what is still carried past it, and counts the row above if no walk has met it |
| `Settlement.RewardStat.BookRow` | common/src/main/java/com/cmd/wallet/service/StatService.java:157-175 | the round as written, both branches of the side and of the mark |
| `Settlement.RewardStat.WalkUp` | common/src/main/java/com/cmd/wallet/service/StatService.java:149-181 | the inner loop climbs to a root, meeting no leaf but its own, and fails only at an edge without a side |
| `Settlement.RewardStat.WalkLeaf` | common/src/main/java/com/cmd/wallet/service/StatService.java:132-182 | one walk turns totals over the users counted so far into totals over those and everybody newly met |
| `Settlement.RewardStat.DepartMoney` | common/src/main/java/com/cmd/wallet/service/StatService.java:127-185 | the settlement ends, normally if and only if every referral edge has a side, and then each user's left and right node and money totals are the sums over all strict descendants on that side, each once |
| `Settlement.CellsByTable` | common/src/main/java/com/cmd/wallet/service/StatService.java:127-185 | after it a user's right and left cells are the number of users who by the columns hang on that side and the sum of what they mined |
| `Settlement.FamilySides` | common/src/main/java/com/cmd/wallet/service/StatService.java:157-165 | in a family of three, who was invited with the right code counts 10 on the right and who was not 4 on the left |
| `NodeStats.RaiseAddsOne` | common/src/main/java/com/cmd/wallet/service/StatService.java:257-272 | a task adds one node to exactly the cells its user reaches through edges that have a side, whether it gets through or breaks off |
| `NodeStats.NodeStat.CountUp` | common/src/main/java/com/cmd/wallet/service/StatService.java:257-272 | the inner loop raises those cells and no others, also when it breaks off, and gets through if and only if every edge above has a side |
| `NodeStats.NodeStat.StatNode` | common/src/main/java/com/cmd/wallet/service/StatService.java:247-273 | one task: done and deleted, or broken off with its increments and itself left behind |
| `NodeStats.NodeStat.StatNodes` | common/src/main/java/com/cmd/wallet/service/StatService.java:245-275 | tasks are worked off in order until none is left, if and only if all edges above the queued users have sides, or until the first that breaks off |
| `NodeStats.NodeStat.Register` | common/src/main/java/com/cmd/wallet/service/UserService.java:231-240 | the rows that the commented-out insertions would write: the user, zeroed counts and a task at the end of the queue; the counts stay sound, for any user row |
| `NodeStats.NodeStat.RegisterInvited` | common/src/main/java/com/cmd/wallet/service/UserService.java:207-228 | a registration is refused for an unknown code, a disabled inviter or an inviter whose own inviter is missing, and otherwise writes inviter, referrer and code, and no right code |
| `NodeStats.StepKeepsSound` | common/src/main/java/com/cmd/wallet/service/StatService.java:245-275 | a registration, or an attempt at any queued task, keeps every count equal to the number of counted users on its side plus one for each broken attempt that reached it, and every user counted or queued exactly once |
| `NodeStats.RunKeepsSound` | common/src/main/java/com/cmd/wallet/service/StatService.java:245-275 | so does every interleaving of registrations with tasks, done in any order and broken off anywhere |
| `NodeStats.EveryInterleavingAgrees` | common/src/main/java/com/cmd/wallet/service/StatService.java:146-178 | after every interleaving that leaves the queue empty the counts are those that the settlement recomputes from the leaves, and the numbers of descendants on each side |
| `NodeStats.QueueAgreesWithSettlement` | common/src/main/java/com/cmd/wallet/service/StatService.java:245-275 | the same for any sound state with an empty queue |
| `NodeStats.CountsByTable` | common/src/main/java/com/cmd/wallet/service/StatService.java:262-268 | with an empty queue the counts are the numbers of users who by the columns hang on each side |
| `NodeStats.BrokenTaskStays` | common/src/main/java/com/cmd/wallet/service/StatService.java:257-273 | a task above which an edge has no side never leaves the queue, whatever else happens |
| `NodeStats.RegisteredBelowRegistered` | common/src/main/java/com/cmd/wallet/service/UserService.java:204-219 | a registered user whose inviter was registered too has no side, so that both statistics break off there |
| `NodeStats.SecondInvitationBreaks` | common/src/main/java/com/cmd/wallet/service/UserService.java:204-219 | after two registrations, the second invited by the first, the settlement breaks off and the second task stays in the queue for ever |
| `NodeStats.SettlesExactlyWhen` | common/src/main/java/com/cmd/wallet/service/UserService.java:204-219 | where every user below another was written by registration, all edges have sides if and only if all inviters are users without an inviter who have a right code |
| `Levels.GetUserLevel` | common/src/main/java/com/cmd/wallet/service/StatService.java:446-455 | the loop over the levels computes the level of an amount |
| `Levels.LevelIsFirstOrLast` | common/src/main/java/com/cmd/wallet/service/StatService.java:446-455 | which is the first whose range holds it, and the last when no range does |
| `Mining.GrantConserves` | common/src/main/java/com/cmd/wallet/service/StatService.java:335-352 | one reward changes given plus frozen by the mined amount, up to half a unit, for any value of the double conversion |
| `Mining.ShareConserves` | common/src/main/java/com/cmd/wallet/service/StatService.java:372-388 | the same for the inviter's share |
| `Mining.FrozenShare` | common/src/main/java/com/cmd/wallet/service/StatService.java:340-348 | with an exact conversion the frozen part is the freeze rate's share up to half a unit, amounts below 0.01 coin are given whole, and nothing negative is kept |
| `Mining.PassConserves` | common/src/main/java/com/cmd/wallet/service/StatService.java:279-394 | over a whole pass, own and referral rewards included and even if it breaks off, total earnings change by what was mined and shared, up to half a unit per update |
| `MiningPays.GrantPays` | common/src/main/java/com/cmd/wallet/service/StatService.java:335-352 | a grant that does not fail raises its user's available platform coin by what the earnings record as given, rounded, and changes no other bucket or wallet, for a conversion that does nothing the second time |
| `MiningPays.PassPaysOut` | common/src/main/java/com/cmd/wallet/service/StatService.java:279-394 | over a pass, even one that breaks off, each wallet of platform coin rises by what its user's earnings record as newly given, up to half a unit per update, less the consumption; any other wallet falls by the consumption; nothing frozen and no award moves |
| `MiningPays.PayTakes` | common/src/main/java/com/cmd/wallet/service/StatService.java:318-333 | a row mines exactly if its level's consumption is positive and the wallet holds it, and then the wallet falls by it |
| `MiningPays.AtPriceIsClose` | common/src/main/java/com/cmd/wallet/service/StatService.java:323-326 | an amount at a price times the price is the money, up to five hundredths of the price |
| `MiningPays.RowRecords` | common/src/main/java/com/cmd/wallet/service/StatService.java:299-388 | what a row adds: the reward for its money at the rate and the price, the mined CNY, and then the inviter's share of both at the referrer rate; and exactly when it adds anything |
| `MiningPays.SharesExactly` | common/src/main/java/com/cmd/wallet/service/StatService.java:358-390 | the inviter gets the share exactly under the guards of the source, the miner test included |
| `MiningPays.HashesAddUp` | common/src/main/java/com/cmd/wallet/service/StatService.java:353-389 | the day's hashes of mined and referred CNY are increased by what is recorded |
| `MiningPays.MarkedAsMiner` | common/src/main/java/com/cmd/wallet/service/StatService.java:354-356 | who was due something for mining counts as a miner for the rest of the pass |
| `Mining.MineService.GrantTo` | common/src/main/java/com/cmd/wallet/service/StatService.java:335-352 | the split as written makes one reward step of the model: what is due and what was frozen are split anew and paid through the ledger |
| `Mining.MineService.ShareWith` | common/src/main/java/com/cmd/wallet/service/StatService.java:358-390 | the inviter gets a share only if known, settled and a miner, else nothing changes |
| `Mining.MineService.HasMined` | common/src/main/java/com/cmd/wallet/service/StatService.java:458-475 | a miner has mined in this pass, or reaches level two and holds the consumption in ENG11 |
| `Mining.MineService.MineUser` | common/src/main/java/com/cmd/wallet/service/StatService.java:299-392 | one row: unpaid consumption mines nothing but still releases what is frozen |
| `Mining.MineService.Minering` | common/src/main/java/com/cmd/wallet/service/StatService.java:279-394 | nothing under rates out of range, otherwise every row in turn, stopping at the first payment that fails |
| `Community.CommunityService.RewardOf` | common/src/main/java/com/cmd/wallet/service/StatService.java:414-435 | the guards of one row and the reward: rate of the level times the smaller total, for settled miners with a positive rate |
| `Community.CommunityService.PayUser` | common/src/main/java/com/cmd/wallet/service/StatService.java:414-441 | one row: nothing, or the reward converted at the price, rounded, paid, added to the earnings and to the day's hash |
| `Community.CommunityService.PayCommunity` | common/src/main/java/com/cmd/wallet/service/StatService.java:397-443 | nothing under a configuration out of range, otherwise every row in turn |
| `Community.EverybodyPaid` | common/src/main/java/com/cmd/wallet/service/StatService.java:408-442 | the pass never breaks off, every listed user gets its reward once in wallet, earnings and hash, and nobody else anything |
| `Community.GrantExactly` | common/src/main/java/com/cmd/wallet/service/StatService.java:414-435 | the reward is the rate times the smaller of the two totals, for settled miners, if positive |
| `Community.CoinsAtPrice` | common/src/main/java/com/cmd/wallet/service/StatService.java:437-438 | the coins paid times the price are the reward, up to half the price |
| `Community.WalletsRise` | common/src/main/java/com/cmd/wallet/service/StatService.java:437-438 | after a pass every listed user's wallet has risen by coins worth its reward |
| `Community.GrantIsBounded` | common/src/main/java/com/cmd/wallet/service/StatService.java:430-435 | one reward is at most half the largest rate times the user's two totals together |
| `Community.CommunityIsBounded` | common/src/main/java/com/cmd/wallet/service/StatService.java:430-440 | after a settlement all rewards of a pass together are, in CNY, at most half the largest rate times each mined amount taken once per ancestor of its miner |
| `Community.CoinsAreBounded` | common/src/main/java/com/cmd/wallet/service/StatService.java:430-440 | and all coins of the pass are worth at most that bound, up to half a unit of coin for each user who was paid; nobody else's wallet rises |
| `Escrow.OrderStepKeeps` | common/src/main/java/com/cmd/wallet/service/PlatOrderService.java:115-189 | a step whose ledger calls equal the change of the order's effect keeps all wallets accounted for |
| `Escrow.SendStepKeeps` | common/src/main/java/com/cmd/wallet/service/SendCoinService.java:160-205 | the same for a withdrawal |
| `Escrow.RefundMoves` | common/src/main/java/com/cmd/wallet/service/PlatOrderService.java:126-137 | canceling undoes exactly what placing the order did |
| `Escrow.SettleMoves` | common/src/main/java/com/cmd/wallet/service/PlatOrderService.java:142-161 | confirming takes a sale's money out of the frozen bucket and credits a purchase |
| `Escrow.PassMoves` | common/src/main/java/com/cmd/wallet/service/SendCoinService.java:177-205 | a passed withdrawal takes amount and fee out of what was frozen for them |
| `Escrow.FailMoves` | common/src/main/java/com/cmd/wallet/service/SendCoinService.java:160-173 | a failed withdrawal gives amount and fee back |
| `EscrowRuns.NextKeepsAccounted` | common/src/main/java/com/cmd/wallet/service/PlatOrderService.java:51-189 | every step of either service, and every call of another service that freezes nothing, keeps the invariant that all frozen and available money is explained by orders, withdrawals and other movements |
| `EscrowRuns.RunKeepsAccounted` | common/src/main/java/com/cmd/wallet/service/PlatOrderService.java:51-189 | so does every run of requests, refused ones included |
| `EscrowRuns.FrozenEqualsObligations` | common/src/main/java/com/cmd/wallet/service/SendCoinService.java:71-205 | in every reachable world each wallet's frozen money equals the rounded amounts of its open sales, its withdrawals applied for and, in the BSTS wallet, their fees; its available money is what came in otherwise plus what each order and withdrawal took or gave by the way it ended |
| `EscrowRuns.FrozenCovers` | common/src/main/java/com/cmd/wallet/service/PlatOrderService.java:82-177 | each obligation alone is covered by the frozen money of its wallet |
| `EscrowRuns.OrderSettlementNeverShort` | common/src/main/java/com/cmd/wallet/service/PlatOrderService.java:126-177 | settling an order succeeds if and only if its status guard passes: frozen money is never short |
| `EscrowRuns.WithdrawalSettlementNeverShort` | common/src/main/java/com/cmd/wallet/service/SendCoinService.java:160-205 | settling a withdrawal, amount and fee together, succeeds if and only if it is applied for (and, to pass, the node gave an answer), even when both are frozen in one wallet |
| `EscrowRuns.StepLowersRank` | common/src/main/java/com/cmd/wallet/service/PlatOrderService.java:113-189 | a step leaves an order untouched or changes only its status, strictly towards the end |
| `EscrowRuns.OrdersTakeAtMostThreeSteps` | common/src/main/java/com/cmd/wallet/service/PlatOrderService.java:113-189 | over any further run an order changes at most three times, and a settled one never |
| `EscrowRuns.EveryOrderCanEnd` | common/src/main/java/com/cmd/wallet/service/PlatOrderService.java:142-177 | the administrator can end every open order, a canceled order leaves no trace in the wallet, a completed sale takes the amount and a completed purchase gives it |
| `EscrowWallets.TransferMoves` | common/src/main/java/com/cmd/wallet/service/SendCoinService.java:71-109 | a transfer between users is accepted exactly if it is enabled, within the limits and the sender can pay amount and fee; then the sender pays both, the recipient gets the amount, also where wallets coincide, and no other wallet or bucket changes |
| `EscrowWallets.TransferOutFreezes` | common/src/main/java/com/cmd/wallet/service/SendCoinService.java:124-156 | a withdrawal is accepted exactly under its guards and with amount and fee available, which it freezes |
| `EscrowWallets.PassTakes` | common/src/main/java/com/cmd/wallet/service/SendCoinService.java:177-205 | passing takes exactly what was frozen and sets the status by the answer; no answer refuses it |
| `EscrowWallets.FailGivesBack` | common/src/main/java/com/cmd/wallet/service/SendCoinService.java:160-173 | failing gives exactly that back |
| `EscrowWallets.WithdrawFreezes` | common/src/main/java/com/cmd/wallet/service/PlatOrderService.java:82-111 | a sale is accepted exactly under its guards and with the amount available, which it freezes, and writes the order |
| `EscrowWallets.DepositOnlyRecords` | common/src/main/java/com/cmd/wallet/service/PlatOrderService.java:51-78 | a purchase is accepted exactly under its guards, is written at the platform's price and moves nothing |
| `EscrowWallets.CancelMoves` | common/src/main/java/com/cmd/wallet/service/PlatOrderService.java:126-177 | canceling unfreezes a sale's amount and moves nothing for a purchase; who may cancel in which state |
| `EscrowWallets.ConfirmMoves` | common/src/main/java/com/cmd/wallet/service/PlatOrderService.java:142-161 | confirming takes a sale's frozen amount or credits a purchase's; in which states, and not for a sale marked paid |
| `EscrowWallets.MarksMoveNothing` | common/src/main/java/com/cmd/wallet/service/PlatOrderService.java:115-189 | marking paid and complaining are the owner's, each in its state, and move nothing |
| `EscrowServices.EscrowService.PlaceDeposit` | common/src/main/java/com/cmd/wallet/service/PlatOrderService.java:51-78 | a purchase is accepted exactly under its guards, moves no money and gets the next id |
| `EscrowServices.EscrowService.PlaceWithdraw` | common/src/main/java/com/cmd/wallet/service/PlatOrderService.java:82-111 | a sale is accepted exactly under its guards and with the money available, which it freezes |
| `EscrowServices.EscrowService.ConfirmPaid` | common/src/main/java/com/cmd/wallet/service/PlatOrderService.java:115-122 | only the owner marks an accepted order paid |
| `EscrowServices.EscrowService.CancelOrder` | common/src/main/java/com/cmd/wallet/service/PlatOrderService.java:126-137 | only the owner cancels an accepted order, and a sale's money is unfrozen |
| `EscrowServices.EscrowService.ComplainAbout` | common/src/main/java/com/cmd/wallet/service/PlatOrderService.java:181-189 | only the owner complains about a paid order |
| `EscrowServices.EscrowService.AdminConfirmOrder` | common/src/main/java/com/cmd/wallet/service/PlatOrderService.java:142-161 | an open purchase is credited, an open sale not marked paid is spent from the frozen money |
| `EscrowServices.EscrowService.AdminCancelOrder` | common/src/main/java/com/cmd/wallet/service/PlatOrderService.java:165-177 | every open order is canceled with its refund, no other |
| `EscrowServices.EscrowService.ApplyTransferOut` | common/src/main/java/com/cmd/wallet/service/SendCoinService.java:124-156 | a withdrawal freezes its fee in BSTS and its amount in the coin, both or neither |
| `EscrowServices.EscrowService.PassTransfer` | common/src/main/java/com/cmd/wallet/service/SendCoinService.java:177-205 | only a withdrawal applied for passes; both legs are spent; a time-out leaves the status OTHER and no txid refuses it |
| `EscrowServices.EscrowService.FailTransfer` | common/src/main/java/com/cmd/wallet/service/SendCoinService.java:160-173 | only a withdrawal applied for fails, and both legs are unfrozen |
| `EscrowServices.EscrowService.TransferToUser` | common/src/main/java/com/cmd/wallet/service/SendCoinService.java:71-120 | a transfer between users moves amount and fee in one transaction, whoever the two users are |
| `Payments.FirstMatchIsFirst` | common/src/main/java/com/cmd/wallet/service/BitcoinService.java:180-224 | the detail that counts is the first matching one of the transaction, and there is none exactly if none matches |
| `Payments.CreditNotNegative` | common/src/main/java/com/cmd/wallet/service/UsdtService.java:195-199 | whatever the fee setting, a deposit less its rounded fee never rounds to a charge |
| `Payments.DepositsCredit` | common/src/main/java/com/cmd/wallet/service/EthService.java:188-194 | the same for every transaction any of the services accepts |
| `DepositAmounts.ToEightNearest` | common/src/main/java/com/cmd/wallet/service/EthService.java:188-194 | the credited number of units is the nearest to the chain's value, for any number of decimals |
| `DepositAmounts.PowersOfTen` | common/src/main/java/com/cmd/wallet/service/EthService.java:188-194 | the scale is ten to the number of decimals |
| `DepositAmounts.EtherIsACoin` | common/src/main/java/com/cmd/wallet/service/EthService.java:188-194 | 10^18 wei are 10^8 units, and any multiple likewise |
| `DepositAmounts.EtherRecorded` | common/src/main/java/com/cmd/wallet/service/EthService.java:163-197 | ether is recorded exactly if it goes to a platform address from another, and raises the owner's wallet by the nearest number of units less the fee, which is the nearest to its share |
| `DepositAmounts.TokenRecorded` | common/src/main/java/com/cmd/wallet/service/EthService.java:199-259 | the first transfer event of a successful transfer call decides, and is recorded exactly if it goes to a platform address, likewise |
| `DepositAmounts.TokenNotRecorded` | common/src/main/java/com/cmd/wallet/service/EthService.java:199-259 | no other token call is recorded |
| `DepositAmounts.OmniRecorded` | common/src/main/java/com/cmd/wallet/service/UsdtService.java:127-201 | a complete, valid simple send of property 31 to a platform address from another, and nothing else, raises the owner's wallet by its amount less the fee |
| `DepositAmounts.BtcRecorded` | common/src/main/java/com/cmd/wallet/service/BitcoinService.java:143-226 | the first receiving detail of a complete transaction of the wallet, and no other, raises the owner's wallet by its amount less the fee |
| `DepositAmounts.BtcNotRecorded` | common/src/main/java/com/cmd/wallet/service/BitcoinService.java:180-224 | a transaction without one is not recorded |
| `DepositAmounts.ActionRecorded` | common/src/main/java/com/cmd/wallet/service/EosService.java:104-149 | an action is recorded exactly if it is a token transfer of a positive amount to the base account with a user's memo, and raises that user's wallet by the amount less the fee |
| `Deposits.DepositSync.IsTransactionExist` | common/src/main/java/com/cmd/wallet/service/ReceivedCoinService.java:47-49 | the dedupe test is true if and only if the coin and txid are on record |
| `Deposits.DepositSync.AddTransaction` | common/src/main/java/com/cmd/wallet/service/ReceivedCoinService.java:33-41 | one record and the credit of amount less fee, always both |
| `Deposits.AddedIsKnown` | common/src/main/java/com/cmd/wallet/service/ReceivedCoinService.java:33-49 | after an attempt to add a deposit it is on record and a second attempt does nothing |
| `Deposits.DepositSync.SyncBtcTransaction` | common/src/main/java/com/cmd/wallet/service/BitcoinService.java:143-226 | trying every matching detail amounts to recording the first one |
| `Deposits.DepositSync.SyncOmniTransaction` | common/src/main/java/com/cmd/wallet/service/UsdtService.java:127-201 | a valid simple send of property 31 to a platform address from a foreign one is recorded, nothing else |
| `Deposits.DepositSync.SyncEthTransaction` | common/src/main/java/com/cmd/wallet/service/EthService.java:163-259 | ether to a platform address from a foreign one, or the first transfer event of a successful token call, is recorded |
| `Deposits.DepositSync.SyncBlock` | common/src/main/java/com/cmd/wallet/service/UsdtService.java:120-125 | a block is processed in order up to the failure, if there is one |
| `Deposits.DepositSync.SyncBlocks` | common/src/main/java/com/cmd/wallet/service/UsdtService.java:93-107 | at most 1000 whole blocks and a prefix of the next are processed, and the loop stops early only on failure or at 1000 |
| `Deposits.DepositSync.SyncNewTransactions` | common/src/main/java/com/cmd/wallet/service/UsdtService.java:61-112 | a run with an exception or a crash at any step has one of the modelled shapes: it records the transactions it reached, and the saved cursor counts whole blocks only |
| `SyncRuns.RecordSound` | common/src/main/java/com/cmd/wallet/service/ReceivedCoinService.java:33-49 | processing a transaction adds at most one record, its deposit, with one credit, keeps records unique, and leaves the deposit on record |
| `SyncRuns.OneRun` | common/src/main/java/com/cmd/wallet/service/UsdtService.java:79-112 | one run, failing anywhere, does this for what it reached and extends the covered blocks by those it finished |
| `SyncEvents.ExactlyOnce` | common/src/main/java/com/cmd/wallet/service/UsdtService.java:79-112 | over any sequence of runs of any number of chains and accounts on one table, failing anywhere, with any calls of other services between them, each (coin, txid) is recorded at most once, the books are those of one credit per record and of the other calls in the order in which they came, and on every chain each deposit in the blocks from where synchronisation began up to its saved cursor has been recorded |
| `SyncEvents.NothingElseMoves` | common/src/main/java/com/cmd/wallet/service/ReceivedCoinService.java:33-41 | apart from the credits of records, exactly the accepted calls of the other services move money |
| `SyncEvents.StartsExact` | common/src/main/java/com/cmd/wallet/service/UsdtService.java:79-83 | every balanced ledger without records is such a start, wherever the saved cursors are |
| `SyncRuns.CursorNeverFalls` | common/src/main/java/com/cmd/wallet/service/EthService.java:121-144 | the cursor never decreases and is saved exactly as far as the returned count, at most 1000 |
| `SyncRuns.OnlyConfirmed` | common/src/main/java/com/cmd/wallet/service/EthService.java:121-144 | a run credits only blocks it may read; for ETH more than twelve below the head of that run |
| `SyncRuns.FirstRunBegins` | common/src/main/java/com/cmd/wallet/service/UsdtService.java:79-83 | without a saved cursor only the 2000 blocks before the head are read |
| `SyncRuns.FirstCursor` | common/src/main/java/com/cmd/wallet/service/UsdtService.java:79-109 | and the cursor is saved that far behind the head, plus the blocks finished |
| `SyncRuns.CatchesUp` | common/src/main/java/com/cmd/wallet/service/EthService.java:121-144 | k clean runs at a fixed head bring the cursor forward by 1000 blocks each until the cut-off, and no further |
| `EosDeposits.DropRepetition` | common/src/main/java/com/cmd/wallet/service/EosService.java:161-171 | deleting a later repetition does not change which occurrences are first |
| `EosDeposits.RemoveDuplicate` | common/src/main/java/com/cmd/wallet/service/EosService.java:161-171 | deleting in place with a backward inner loop leaves the first occurrence of each trxId, in order |
| `EosDeposits.EosSync.SyncAction` | common/src/main/java/com/cmd/wallet/service/EosService.java:104-149 | an action is recorded if and only if it transfers the coin to the base account with the memo of a user |
| `EosDeposits.EosSync.GetActions` | common/src/main/java/com/cmd/wallet/service/EosService.java:86-158 | one window: deduplicated, processed up to a failure, and the cursor moved by the size before deduplication only after all of it |
| `EosDeposits.WindowsTile` | common/src/main/java/com/cmd/wallet/service/EosService.java:86-158 | whichever windows fail, the completed ones tile the history from the first cursor to the last without gap or overlap |
| `EosDeposits.RecordsFirstActions` | common/src/main/java/com/cmd/wallet/service/EosService.java:103-149 | a window puts a transaction on record if and only if it was on record or its first action in the window is a deposit |
| `EosDeposits.SecondActionIsLost` | common/src/main/java/com/cmd/wallet/service/EosService.java:103-104 | a deposit behind another action of its transaction is lost, before it, it is not |
| `EosRuns.SurvivesExactly` | common/src/main/java/com/cmd/wallet/service/EosService.java:161-171 | an action survives deduplication if and only if its transaction did not occur before it |
| `EosRuns.KeepsOrder` | common/src/main/java/com/cmd/wallet/service/EosService.java:161-171 | the survivors are the first occurrences in the order of the list |
| `EosRuns.WindowSound` | common/src/main/java/com/cmd/wallet/service/EosService.java:86-158 | a window, failing anywhere, records and credits each transaction at most once, as the deposit of one of its actions; `SyncEvents.ExactlyOnce` carries it over all events |
| `EosRuns.RecordsExactly` | common/src/main/java/com/cmd/wallet/service/EosService.java:86-158 | a transaction is on record afterwards if and only if it was before or some window processed a deposit of it |
| `EosRuns.CreditedExactlyBetween` | common/src/main/java/com/cmd/wallet/service/EosService.java:102-104 | whatever windows are returned and whichever fail, once the cursor is past a deposit that is the second action of its transaction, it has been credited if and only if a window began between the two actions |
| `LeftSearch.FindLeft2` | common/src/main/java/com/cmd/wallet/service/UserService.java:135-150 | on every table, cyclic or broken, the loop ends and answers as the recursion does, errors included |
| `LeftSearch.SearchFollowsPath` | common/src/main/java/com/cmd/wallet/service/UserService.java:119-132 | the answer is decided by the end of an increasing path of left links: a user without left child, or the broken link it failed at |
| `LeftSearch.OneAnswer` | common/src/main/java/com/cmd/wallet/service/UserService.java:119-132 | there is only one such path, so the answer is unique |
| `Mall.CartGoesThrough` | common/src/main/java/com/cmd/wallet/service/MallOrderService.java:124-159 | line by line a cart, repeated goods included, goes through if and only if its summed demands are in stock; then it lowers each stock by the summed demand and creates one order per line |
| `Mall.PurchaseMovesItsPrice` | common/src/main/java/com/cmd/wallet/service/MallOrderService.java:80-108 | a purchase succeeds if and only if the stock serves it and the buyer can pay; it moves exactly the sum of its orders' totals from available to frozen and touches no other wallet |
| `MallDetails.OrdersArePriced` | common/src/main/java/com/cmd/wallet/service/MallOrderService.java:124-159 | a purchase writes for each line an unsent order of count times price, and freezes the sum of these totals |
| `MallDetails.OrdersChange` | common/src/main/java/com/cmd/wallet/service/MallOrderService.java:161-411 | any other request gives its order the new status and changes no other order |
| `MallDetails.GoodsChange` | common/src/main/java/com/cmd/wallet/service/MallOrderService.java:178-420 | completing adds to the sales, canceling and taking back add to the stock, the order's count; nothing else changes a good |
| `MallDetails.SendAndReturn` | common/src/main/java/com/cmd/wallet/service/MallOrderService.java:234-265 | sending and returning are refused exactly under their guards |
| `MallServices.MallService.PayOnceOrder` | common/src/main/java/com/cmd/wallet/service/MallOrderService.java:124-159 | one line: order row and stock, or refused and unchanged |
| `MallServices.MallService.PayOrder` | common/src/main/java/com/cmd/wallet/service/MallOrderService.java:65-109 | the accumulating loop is the cart step of the model, and a failing line or payment leaves everything unchanged |
| `MallServices.MallService.SendOrder` | common/src/main/java/com/cmd/wallet/service/MallOrderService.java:234-240 | sending is refused only for an order already sent |
| `MallServices.MallService.ReturnOrder` | common/src/main/java/com/cmd/wallet/service/MallOrderService.java:252-265 | a return is refused only if already asked for, or without proof for an order that left |
| `MallServices.MallService.ConfirmReturnOrder` | common/src/main/java/com/cmd/wallet/service/MallOrderService.java:277-290 | a live order's price is unfrozen, its units restocked and the return closed |
| `MallServices.MallService.CancelUnsendOrder` | common/src/main/java/com/cmd/wallet/service/MallOrderService.java:396-420 | the same for a cancelation |
| `MallServices.MallService.ConfirmOrder` | common/src/main/java/com/cmd/wallet/service/MallOrderService.java:161-232 | a live order without return whose seller has a shop is completed: award taken, seller paid, rebates given, all or nothing |
| `MallServices.MallService.CloseOrderByUserId` | common/src/main/java/com/cmd/wallet/service/MallOrderService.java:367-395 | the three loops, each going on after failures, are the closing of the model |
| `MallRuns.UnitsKeptExactly` | common/src/main/java/com/cmd/wallet/service/MallOrderService.java:234-265 | a request keeps stock plus units held by orders, for every good, if and only if it does not send a canceled order or ask a return of a returned one |
| `MallRuns.MoneyOnlyFromRebates` | common/src/main/java/com/cmd/wallet/service/MallOrderService.java:173-223 | a request changes a coin's total over all users and buckets only by the rounded rebates of confirming, whoever buyer, seller and referrers are |
| `MallRuns.RunMoney` | common/src/main/java/com/cmd/wallet/service/MallOrderService.java:173-223 | so over every run, without any discipline |
| `MallRuns.NextKeepsSane` | common/src/main/java/com/cmd/wallet/service/MallOrderService.java:277-290 | a disciplined request keeps each buyer's frozen money equal to the price of the orders neither canceled nor returned |
| `MallRuns.RunKeepsSane` | common/src/main/java/com/cmd/wallet/service/MallOrderService.java:65-420 | every disciplined run keeps that and loses or invents no piece of any good |
| `MallRuns.RefundNeverShort` | common/src/main/java/com/cmd/wallet/service/MallOrderService.java:277-290 | a live order can always be refunded, by return or cancelation, and no other can |
| `MallAwards.ConfirmNeedsAward` | common/src/main/java/com/cmd/wallet/service/MallOrderService.java:161-185 | confirming succeeds if and only if the order is live and without return, the good's seller has a shop, and the buyer's award balance covers the price |
| `MallAwards.ConfirmSharesOut` | common/src/main/java/com/cmd/wallet/service/MallOrderService.java:173-223 | every wallet changes by exactly its parts of price, award rebate and level shares, whoever buyer, seller and referrers are and whichever rates are set |
| `MallDetails.RebatesByTable` | common/src/main/java/com/cmd/wallet/service/MallOrderService.java:195-223 | by the table of users: a buyer with an inviter who has an inviter gets its percentage of the price as award and the two get theirs as money, each rounded to the nearest unit, and every other wallet only the price |
| `MallDetails.NoInviterNoRebates` | common/src/main/java/com/cmd/wallet/service/MallOrderService.java:195-204 | otherwise nobody gets a rebate |
| `MallAwards.EventKeepsNoAward` | common/src/main/java/com/cmd/wallet/service/MallOrderService.java:173-208 | no request, disciplined or not, and no call of another service that leaves award balances alone creates one where there was none |
| `MallAwards.PricedOrdersNeverComplete` | common/src/main/java/com/cmd/wallet/service/MallOrderService.java:173-208 | so from a ledger without award balances, over every run, confirming succeeds if and only if the order is live, without return, of a seller with a shop, and costs nothing; no priced order is ever completed |
| `MallAwards.ConfirmingPaysNobody` | common/src/main/java/com/cmd/wallet/service/MallOrderService.java:173-223 | and no confirmation of such a run changes any wallet |
| `MallAwards.CompletedButFrozen` | common/src/main/java/com/cmd/wallet/service/MallOrderService.java:97-178 | for every buyer with an award that covers the price, paying and confirming leaves a completed order, the price in the buyer's frozen money, and buyer and seller with exactly their parts of price, rebate and level shares |
| `MallAwards.SeededBuyerStaysFrozen` | common/src/main/java/com/cmd/wallet/service/MallOrderService.java:97-178 | the same as a concrete run of a buyer and a seller whom nobody invited |
| `MallAwards.CompletedStaysFrozen` | common/src/main/java/com/cmd/wallet/service/MallOrderService.java:173-178 | frozen money equals what live orders need if and only if the completed orders cost nothing |
| `MallOnce.RevivesExactly` | common/src/main/java/com/cmd/wallet/service/MallOrderService.java:234-265 | a request brings a settled order back to life if and only if it sends a completed or canceled order or asks a return of a returned one |
| `MallOnce.SettledAtMostOnce` | common/src/main/java/com/cmd/wallet/service/MallOrderService.java:161-420 | over every run without such requests an order is settled at most once, and a settled one never again |
| `MallOnce.CompletedStays` | common/src/main/java/com/cmd/wallet/service/MallOrderService.java:161-420 | in such a run a completed order stays completed and its price stays frozen |
| `MallOnce.CanceledThenSent` | common/src/main/java/com/cmd/wallet/service/MallOrderService.java:234-240 | buying, canceling and sending leaves a sent order that holds no money, and the units of the good raised by its count |
| `MallOnce.RefundedTwice` | common/src/main/java/com/cmd/wallet/service/MallOrderService.java:234-240 | canceling it again refunds the buyer a second time, out of the money frozen for other orders |
| `MallClose.QuerySelects` | common/src/main/resources/mapper/MallOrderMapper.xml:62-74 | each query yields exactly the matching orders, once each |
| `MallClose.LoopsByColumns` | common/src/main/resources/mapper/MallOrderMapper.xml:62-74 | which orders the three queries are about, column by column |
| `MallClose.RunLoopOutcome` | common/src/main/java/com/cmd/wallet/service/MallOrderService.java:369-394 | a loop settles the orders it selected in its own way and leaves all others alone |
| `MallClose.CloseSettlesOnce` | common/src/main/java/com/cmd/wallet/service/MallOrderService.java:367-395 | closing cancels the seller's unsent orders, accepts the requested returns of live ones and completes sent ones or leaves them, each order in at most one of these ways; orders of goods without a picture, settled orders and those of others are untouched |
| `MallClose.SentCompletesExactly` | common/src/main/java/com/cmd/wallet/service/MallOrderService.java:386-394 | a sent order is completed if and only if, when its turn comes, the good's seller has a shop and the buyer's award balance covers the price; otherwise it is left as it was |
| `MallClose.PricedSentOrdersStay` | common/src/main/java/com/cmd/wallet/service/MallOrderService.java:386-394 | without award balances closing leaves every sent order that costs anything neither refunded nor paid out |
| `MallClose.NoOrderTwice` | common/src/main/java/com/cmd/wallet/service/MallOrderService.java:367-395 | no order is taken up by two of the three loops |
| `AwardRelease.ReleaseService.ReleaseAwardBalance` | common/src/main/java/com/cmd/wallet/service/ReleaseAwardService.java:36-76 | every wallet with an award releases its share once, none without a rate; the flag is up afterwards exactly if the settings failed or something was released |
| `AwardRelease.ReleaseService.ReleaseOne` | common/src/main/java/com/cmd/wallet/service/ReleaseAwardService.java:56-67 | one wallet releases its share and one award bill is written, nothing else |
| `AwardRelease.ReleaseService.StartRelease` | api/src/main/java/com/cmd/wallet/api/task/ReleaseTask.java:35-50 | a start does nothing on a day that was done or with the flag down, and otherwise one release, whose new flag, day and wallets it states |
| `AwardRelease.FlagFallsExactly` | common/src/main/java/com/cmd/wallet/service/ReleaseAwardService.java:40-55 | a start leaves the flag down if and only if it was down, or it is a new day with the rate zero or without any award |
| `AwardRelease.OncePerDay` | api/src/main/java/com/cmd/wallet/api/task/ReleaseTask.java:35-50 | after a release nothing more is released on the same day |
| `AwardRelease.DownForEver` | api/src/main/java/com/cmd/wallet/api/task/ReleaseTask.java:35-50 | with the flag down, over any days, settings and changes of the wallets, the flag stays down and the job changes no wallet |
| `AwardRelease.ReleaseConserves` | common/src/main/java/com/cmd/wallet/service/ReleaseAwardService.java:56-67 | with a rate in (0,1] a release keeps available plus award, never makes award negative and never raises it |
| `AwardRelease.RateIsHundredth` | common/src/main/java/com/cmd/wallet/service/ReleaseAwardService.java:45 | the rate is the hundredth of the percentage to eight places, exactly so for up to six decimals |
| `AwardRelease.ShareReleased` | common/src/main/java/com/cmd/wallet/service/ReleaseAwardService.java:57-62 | an award above the minimum loses its share, rounded; any other is released whole |
| `AwardRelease.RunsConserve` | common/src/main/java/com/cmd/wallet/service/ReleaseAwardService.java:56-67 | so over any number of runs |
| `AwardRelease.MovingDrains` | common/src/main/java/com/cmd/wallet/service/ReleaseAwardService.java:45-67 | if the share of the smallest balance above the minimum rounds to a unit, n runs release at least n units or all |
| `AwardRelease.StuckForever` | common/src/main/java/com/cmd/wallet/service/ReleaseAwardService.java:45-67 | if it does not, a balance above the minimum never falls below that size |
| `AwardRelease.OneUnitStays` | common/src/main/java/com/cmd/wallet/service/ReleaseAwardService.java:45-67 | an award of one unit at one percent and without a minimum is never released |
| `AwardRelease.DrainsExactlyWhenMoving` | common/src/main/java/com/cmd/wallet/service/ReleaseAwardService.java:45-67 | repeated runs empty a balance if and only if it is within the minimum or the shares move, and then as many runs as it has units suffice |
| `AwardRelease.AwardDecays` | common/src/main/java/com/cmd/wallet/service/ReleaseAwardService.java:56-67 | after n runs an award balance is at most (1 - rate)^n of what it was, plus half a unit per rate |
| `AwardRelease.DrainsFast` | common/src/main/java/com/cmd/wallet/service/ReleaseAwardService.java:56-67 | when the shares move, a balance is empty after any number of runs that bring (1 - rate)^n of it to a unit, and at least half as many more as the rate goes into one, and one |
| `AwardRelease.DrainsInLogarithmicTime` | common/src/main/java/com/cmd/wallet/service/ReleaseAwardService.java:56-67 | so it is empty after as many runs as the balance has binary digits, and one, times a number that depends on the rate alone, and one |
| `TreeTables.TreeTable.FormatData` | guns/src/main/webapp/static/js/plugins/bootstrap-treetable/bootstrap-treetable.js:69-92 | the buckets hold every row exactly once, in data order, under its root or parent key, and no row is shown |
| `TreeTables.Data.RootsByDefault` | guns/src/main/webapp/static/js/plugins/bootstrap-treetable/bootstrap-treetable.js:70-81 | without a root code the roots are the rows whose parent is missing, zero or a text of zeros only |
| `TreeTables.Data.RootsByCode` | guns/src/main/webapp/static/js/plugins/bootstrap-treetable/bootstrap-treetable.js:70-81 | with one they are the rows whose parent is missing, zero or empty, or loosely equal to it |
| `TreeTables.Data.ChildrenByCode` | guns/src/main/webapp/static/js/plugins/bootstrap-treetable/bootstrap-treetable.js:86-99 | a row lies below another if it is no root and its parent reads as the other's code |
| `TreeTables.TreeTable.HandleNode` | guns/src/main/webapp/static/js/plugins/bootstrap-treetable/bootstrap-treetable.js:98-107 | drawing a row appends it and then its subtree, nothing else: every newly drawn row hangs below one that was hidden, one level deeper than its parent, no drawn row is left with a hidden child, and this ends on every parent relation |
| `TreeTables.TreeTable.RenderRow` | guns/src/main/webapp/static/js/plugins/bootstrap-treetable/bootstrap-treetable.js:109-111 | one row is appended and marked shown |
| `TreeTables.TreeTable.DrawRoots` | guns/src/main/webapp/static/js/plugins/bootstrap-treetable/bootstrap-treetable.js:210-215 | the roots are drawn in turn, each with its whole subtree |
| `TreeTables.TreeTable.Sweep` | guns/src/main/webapp/static/js/plugins/bootstrap-treetable/bootstrap-treetable.js:217-222 | the rows still hidden follow, flat and in data order |
| `TreeTables.TreeTable.Load` | guns/src/main/webapp/static/js/plugins/bootstrap-treetable/bootstrap-treetable.js:208-222 | with codes that identify rows and any parent pointers, cyclic ones included, loading ends with a permutation of the rows: rows below a root first, depth first at their depth and after their parent, siblings in data order; all others after them at level 1 |
| `TreeTables.Data.OneDepth` | guns/src/main/webapp/static/js/plugins/bootstrap-treetable/bootstrap-treetable.js:98-107 | with unique codes a row has one depth below the roots |
| `TreeTables.UndrawnChildren` | guns/src/main/webapp/static/js/plugins/bootstrap-treetable/bootstrap-treetable.js:98-107 | no row below a row about to be drawn was drawn before, which is why the recursion ends on cyclic data |
| `TreeTables.SweepRenders` | guns/src/main/webapp/static/js/plugins/bootstrap-treetable/bootstrap-treetable.js:208-222 | roots and sweep together render every row once |

## Left out

- Spring transactions, row locks, MyBatis and redis: a transactional method is one atomic step. `closeOrderByUserId` calls its settlement methods on the same object; each such call is atomic in the model too.
- JSON-RPC, Omni, web3j and EOS clients, price feeds, SMS, images, passwords, captchas, bank and coin configuration: parameters of the requests, or nothing where they only notify.
- Reasons, comments and notification texts of bills and orders; reputation counters; clearing the cart. The mapper joins a good with its seller's shop, so a good of a seller without a shop is not found at all; the check for the shop when confirming is modelled besides.
- Double precision: exact, except in `minering`, where the conversion is an arbitrary function of which nothing is assumed.
- Scales of database columns beyond the roundings that the code does itself.
- `equalsIgnoreCase` and `toLowerCase` on codes and addresses: ASCII letters only.
- Concurrency inside a settlement: `departMoney` reads one snapshot of the users, and a task of `statNodes` is one step, between which registrations may come. User ids are positive and a referrer is registered before the referred user, as auto-increment ids give.
- `redisToDB`, the totals of `todayMoney` and the statistics pages.
- `NodeStats.NodeStat.Register`: creates the statistics row and the task; the source's creation of both at registration is commented out, together with the live child counters that replaced it, which are not part of this model. `findInvite` is not either. The results about runs hold for more registrations than the code admits.
- The rows that `community` and `minering` read one after the other are an argument.
- Order states MATCHING, FREEZE and CONFIRM of the platform orders: no modelled request reaches them. Listing queries and confirmation by a node.
- `PlatOrderService` and `SendCoinService` share one class and one world, because their obligations meet in one wallet; any call of another service that freezes nothing is one step of that world.
- Mall orders freeze money too; they are not part of the platform's frozen-money equality, which is stated for platform orders and withdrawals.
- Deposit sync: the address book and the blocks up to the head stay as they are; a transaction unknown to the BTC wallet stays unknown. Received records of negative status (`syncOldTransaction`): records are inserted with status one only, so its query finds none.
- The three chain services share one class, which one setup tells apart.
- EOS: parsing a quantity is reduced to its amount in the coin; block times are not modelled.
- Rebates: the source swallows exceptions of the rebate code; since rebates only add money to wallets none is refused there, and the model's transaction has no such case.
- Bills of award release are not reconciled with balances: the source writes one positive award bill for a move between two buckets.
- The order of wallets within one release is arbitrary.
- `TreeTables.TreeTable.Load`: codes identify rows; with a code shared by two rows the source draws the rows below them twice, or, when one of them lies below itself that way, recurses for ever.
- Tree table: styling, clicking, ajax and the row shown for empty data; of loose equality, numbers, digit strings and missing values.
- Administration pages, CRUD services and configuration classes.
