# The economic core of eosio.system, modelled and proved in Dafny

`dafny verify dfyconfig.toml` checks the whole project.

The model covers the actions of the system contract that move votes, resources and tokens. Tables are maps from
64-bit keys, records are datatypes, and each group of actions is a class whose methods update the tables in place.
An action whose check fails leaves everything as it was. `double` is `real`, and a cast of a `double` to an integer
drops the fraction. Times, the power of two that turns stake into votes, the exponential decay factor and the answers
of the chain (is a proposed schedule accepted, does the worker-proposal bookkeeping accept a change of stake) are
parameters; block time does not run backwards. Authorization is a precondition that is not written down.

| file | what it holds |
|---|---|
| `Arith`, `Names` | products, the cast from `double`, 64-bit keys, sums over every key |
| `Token` | the core token's ledger |
| `RamMarket` | the constant-product curve, and the RAM market that trades on it |
| `Rewards` | the five percent cap, and the reward buckets |
| `VoteTables`, `VotePay`, `VoterShares` | the vote tables, their folds, the proxy forest, and the two lazy accumulators |
| `VoteSpec`, `Revote` | propagation of a vote weight, and a whole vote, as functions of the tables, and what they keep |
| `Election` | the top 21 producers and their schedule |
| `VotingState`, `ProducerState`, `Voting` | what holds between voting actions, and the class that performs them |
| `FeeCurve`, `PowerupMarket` | the powerup fee, and one market's schedule, decay and configuration |
| `ResourceLedger`, `Resources`, `Bandwidth` | the sums behind `userres`, the queue of orders, and the class for staking and powerups |
| `Genesis`, `BlockInfo` | the genesis entitlement, and the window of recent blocks |
| `Machine`, `Runs` | all of it as one state machine: what an action does to the tables, and runs of any actions |
| `Witnesses` | tables in which everything is in order, but a comment or a promise of the code does not hold |

Some facts about a run are kept in ghost fields. `exact` says that the rule against passing on small changes
(`voting.cpp:442`) has suppressed no change but zero; the folds of vote weights hold in such runs, and
`VotingState.SuppressionDrifts` says exactly when one suppressed change breaks them. `nonneg` says that no change was to
take a tally below zero, whatever was suppressed; the vote-pay accumulator holds while that is so, and every exact run is
such a run. `onTime` says that no producer older than the vote-pay table was given its row after its pay had lapsed;
runs start from producers that may be that old, and `ProducerState.RegisteredPay` says exactly when it matters. `Runs.Run`
ties each of the three to the events of the run. `credits` holds, for each voter, the weight it voted with and what it
was lent when its rate was last set; the overall rate is the sum of these differences. `drawn` and `removed` count what
eosio.stake took for itself and what `removerefund` took away; `Runs.Run` states conservation of stakes without them.

Where the code and its comments disagree, the model follows the code:

- The header promises that a market's adjusted utilization is at least its utilization, and the comment on
  `calc_powerup_fee` asks for that. Two powerups within one second break it (`PowerupMarket.TwoInOneSecond`), and
  `PowerupMarket.SaleIsBuyable` says exactly when it holds at a sale. The fee is none the worse for it: the code then
  prices from the utilization (`FeeCurve.LowerAdjustedIgnored`).
- `buyrambytes` is said to buy an exact amount. It prices the request before the supply grows, and can deliver more
  (`RamMarketContract.GrowthCanOverdeliver`); `Bancor.DeliveredWithin` says exactly when it does not.
- A comment in `register_producer` says that a new vote-pay row is accounted for in the total. If the producer's pay
  has lapsed, its votes enter the rate although its own share does not grow (`Witnesses.LateRegistration`).
- An account that is no longer a proxy, but still used as one, earns on less than its own stake, perhaps on less than
  nothing (`VoterShares.EarnsOnOwnStake`, `Witnesses.FormerProxyOwes`).
- The checks marked as never failing never fail: on the RAM stake, on negative refunds, on insufficient totals, on a proxy
  that uses a proxy. They are assertions in the model.

## Model

| member | source | states |
|---|---|---|
| `TokenLedger.Token.Issue` | contracts/eosio.token/src/eosio.token.cpp:26-50 | goes through exactly for a positive amount within the maximum supply; supply and the issuer's balance grow by it |
| `TokenLedger.Token.Retire` | contracts/eosio.token/src/eosio.token.cpp:52-74 | goes through exactly if the issuer holds the amount; supply and balance fall by it |
| `TokenLedger.Token.Transfer` | contracts/eosio.token/src/eosio.token.cpp:76-100 | goes through exactly for a positive amount the sender holds, to someone else; supply stays, balances still add up to it |
| `TokenLedger.MoveKeepsBacking` | contracts/eosio.token/src/eosio.token.cpp:102-126 | a transfer keeps every balance nonnegative and their sum equal to the supply |
| `TokenLedger.BalanceAtMostSupply` | contracts/eosio.token/src/eosio.token.cpp:102-126 | no balance exceeds the supply, so no sum formed while crediting one can overflow |
| `Bancor.OutputIsMaximal` | contracts/eosio.system/src/exchange_state.cpp:81-94 | the output is the one whole number that leaves the product of the reserves no smaller and cannot be raised by one |
| `Bancor.CostIsRoundedDown` | contracts/eosio.system/src/exchange_state.cpp:96-108 | the quoted cost is the exact one rounded down, and zero when more than the reserve is asked for |
| `Bancor.OutputKeepsProduct` | contracts/eosio.system/src/exchange_state.cpp:59-94 | a conversion yields at most the reserve and never lowers the product of the reserves |
| `Bancor.ApplySolvent` | contracts/eosio.system/src/exchange_state.cpp:59-79 | every trade and every growth of the supply keeps base times quote at least the initial quote times the RAM supply |
| `Bancor.RunSolvent` | contracts/eosio.system/src/delegate_bandwidth.cpp:71-79 | over every run of buys, sells and growth that product bound holds, and the quote never falls below its initial value |
| `Bancor.NoFreeValue` | contracts/eosio.system/src/exchange_state.cpp:59-79 | no sequence of trades that hands back all the bytes it took leaves fewer tokens in the market |
| `Bancor.BuyThenSell` | contracts/eosio.system/src/exchange_state.cpp:59-94 | selling straight back what was bought returns at most what was paid |
| `Bancor.SplitBuy` | contracts/eosio.system/src/exchange_state.cpp:81-94 | splitting a purchase never yields more bytes |
| `Bancor.CostAfterFee` | contracts/eosio.system/src/delegate_bandwidth.cpp:29-57 | what buyrambytes spends after the fee is the quoted cost or one less |
| `Bancor.QuotedBytesAreAnUpperBound` | contracts/eosio.system/src/delegate_bandwidth.cpp:25-32 | paying no more than the quoted cost never buys more bytes than were quoted for |
| `RamMarketContract.RamMarket.constructor` | contracts/eosio.system/src/eosio.system.cpp:462-481 | init starts with all free RAM and a thousandth of the supply as virtual quote, and the solvency invariant holds |
| `RamMarketContract.RamMarket.UpdateRamSupply` | contracts/eosio.system/src/eosio.system.cpp:74-90 | the reserve and the RAM size grow by the slots passed times the bytes per block, modulo 2^32, and by nothing in a slot already settled; solvency stays |
| `RamMarketContract.RamMarket.SetRamRate` | contracts/eosio.system/src/eosio.system.cpp:92-97 | growth is settled at the old rate before the new one applies |
| `RamMarketContract.RamMarket.SetRam` | contracts/eosio.system/src/eosio.system.cpp:54-72 | goes through exactly for a larger size below the limit; the check against the reserved bytes is implied |
| `RamMarketContract.RamMarket.BuyRam` | contracts/eosio.system/src/delegate_bandwidth.cpp:43-102 | exact conditions for success; reserves, stake, reserved bytes and the receiver's bytes move as the curve says; the payer pays the quantity, of which eosio.ramfee gets half a percent, rounded up, and eosio.ram the rest |
| `Bancor.DeliveredWithin` | contracts/eosio.system/src/delegate_bandwidth.cpp:25-32 | a purchase before which the supply grows delivers no more than was asked for if and only if paid * (base + growth) < (asked + 1) * (quote + paid), all known before it |
| `RamMarketContract.RamMarket.BuyRamBytes` | contracts/eosio.system/src/delegate_bandwidth.cpp:25-32 | exact conditions for success, including the trap when the whole reserve is asked for; c or c-1 tokens enter the market, all reserves and balances move as a purchase moves them, and it delivers no more than was asked for exactly under that condition |
| `RamMarketContract.RamMarket.SellRam` | contracts/eosio.system/src/delegate_bandwidth.cpp:110-157 | exact conditions for success, among which neither the check on the stake nor the balance of eosio.ram appears: the stake never goes negative; eosio.ram pays the whole output, of which the seller gives up half a percent, rounded up, to eosio.ramfee |
| `RamMarketContract.EveryByteCanBeSold` | contracts/eosio.system/src/delegate_bandwidth.cpp:130-134 | all bytes in circulation could be sold at once and the stake would pay for them |
| `RamMarketContract.GrowthCanOverdeliver` | contracts/eosio.system/src/delegate_bandwidth.cpp:25-32 | a market in which asking for 500 bytes costs 1005 tokens with the fee, spends 999 of them, and delivers 4997 bytes, because growth is applied after pricing |
| `Inflation.DistributionBound` | contracts/eosio.system/src/producer_pay.cpp:83 | what one fill distributes is nonnegative and at most the rate's fraction of the supply |
| `Inflation.DistributionIsAccrued` | contracts/eosio.system/src/producer_pay.cpp:83 | what one fill distributes is 4.879% of the supply for the part of a year of 52 weeks that has passed, rounded down: bounded on both sides |
| `Inflation.BoundStep` | contracts/eosio.system/include/eosio.system/eosio.system.hpp:72 | one step of compounding at the rate stays under the polynomial bound |
| `Inflation.RunFromStart` | contracts/eosio.system/src/producer_pay.cpp:76-121 | any run of fills and retirements stays under any cap that compounds from one |
| `Inflation.FivePercentCap` | tokenomics/README.md:61 | however finely a year is split into fills, and whatever is burned, the supply ends at most at 1.05 times its start |
| `Inflation.StaysUnderCap` | contracts/eosio.system/src/producer_pay.cpp:76-121 | whatever a fill issues or burns, the supply stays under a cap that compounds at the rate |
| `Inflation.CapFrom` | contracts/eosio.system/include/eosio.system/eosio.system.hpp:72 | from any supply a year starts with, there is such a cap that ends five percent higher |
| `RewardPools.RewardPool.FillBuckets` | contracts/eosio.system/src/producer_pay.cpp:76-122 | exact conditions for success, in the amounts themselves; of what is distributed producers get a fifth, rounded down, voters twice that, in the buckets and in their accounts, and savings the rest, at least two fifths and less than three units more; the fees are gone, and the supply moves by what is distributed less the fees held |
| `RewardPools.BlockPayBound` | contracts/eosio.system/src/producer_pay.cpp:162-166 | block pay is the bucket times the producer's share of unpaid blocks, rounded down, and never more than the bucket |
| `RewardPools.RewardIsShare` | contracts/eosio.system/src/voting.cpp:389-394 | a voter's reward is the whole bucket if its share is no less than the total, and otherwise the bucket times share over total, rounded down: bounded on both sides; it is nothing exactly when that is less than a unit |
| `RewardPools.RewardPool.PayProducer` | contracts/eosio.system/src/producer_pay.cpp:174-187 | the bucket and eosio.bpay fall together, and the bucket stays covered |
| `RewardPools.RewardPool.PayVoter` | contracts/eosio.system/src/voting.cpp:389-405 | exact conditions for success; the reward is the voter's share of the bucket, on both sides; the bucket and eosio.voters fall together, and the bucket stays covered |
| `RewardPools.ClaimIsFair` | contracts/eosio.system/src/voting.cpp:389-397 | a voter's claim never lowers the bucket per unpaid share: B' * T >= B * T' |
| `VoteTables.ReplaceVoter` | contracts/eosio.system/src/voting.cpp:329-333 | what rewriting a voter's row does to the sum of weights lent to any proxy |
| `VoteTables.ReplaceBacker` | contracts/eosio.system/src/voting.cpp:329-333 | what rewriting a voter's row does to any producer's tally |
| `ProxyForest.RankFalls` | contracts/eosio.system/src/voting.cpp:443-449 | along every proxy edge a measure falls, because the edge to a proxy that itself uses one is older |
| `ProxyForest.ForestIsAcyclic` | contracts/eosio.system/src/voting.cpp:434-449 | no account is its own proxy, however long the chain |
| `ProxyForest.NewestEdge` | contracts/eosio.system/src/voting.cpp:262-265 | choosing a proxy that uses none keeps the forest, the new edge being the youngest |
| `VotePay.ExtrapolatedTotal` | contracts/eosio.system/src/voting.cpp:155-181 | the lazy accumulator, extrapolated to any time, is the sum of the extrapolated shares of accruing producers |
| `VotePay.ShareGrowsBySecond` | contracts/eosio.system/src/voting.cpp:183-204 | a share starts from what its row records and grows by the producer's votes every second, or not at all once the row was written three days or more after the last claim |
| `VotePay.SumsNonneg` | contracts/eosio.system/src/voting.cpp:166-176 | that sum and its rate are never negative |
| `VotePay.TouchOne` | contracts/eosio.system/src/voting.cpp:300-319 | touching a producer's votes leaves its extrapolated share as it was, less what it forfeits, and moves the rate by what the loop collects |
| `VotePay.SettleTotal` | contracts/eosio.system/src/voting.cpp:155-181 | applying what a loop collected makes the accumulator the sum again; neither clamp acts |
| `VoterShares.ExtrapolatedUnpaid` | contracts/eosio.system/src/voting.cpp:383-402 | at every time the total extrapolated is the sum over all voters of their unpaid shares extrapolated |
| `VoterShares.UnpaidGrowsBySecond` | contracts/eosio.system/src/voting.cpp:387 | what a voter is owed starts from what its row records and grows by its rate every second |
| `VoterShares.RateIsCreditSum` | contracts/eosio.system/src/voting.cpp:413-426 | the overall rate is the sum, over all voters credited with at least sixteen producers or a proxy, of the weight they voted with then less what they were lent then |
| `VoterShares.CreditKeepsAccumulator` | contracts/eosio.system/src/voting.cpp:407-432 | bringing one voter up to date and giving it a new rate keeps that |
| `VoterShares.PayoutKeepsAccumulator` | contracts/eosio.system/src/voting.cpp:383-402 | so does paying one voter out |
| `VoteSpec.SweepVotes` | contracts/eosio.system/src/voting.cpp:285-325 | a loop over producers adds to each tally its change, once, and to the overall weight their sum |
| `VoteSpec.SweepCutsOff` | contracts/eosio.system/src/voting.cpp:289-299 | whatever the tallies were, a sweep moves each by its change, once, and one that cuts off stops at zero |
| `VoteSpec.SweepRows` | contracts/eosio.system/src/voting.cpp:300-319 | it brings exactly the touched vote-pay rows up to date, each on the votes it had before |
| `VoteSpec.SweptPay` | contracts/eosio.system/src/voting.cpp:300-327 | and after it the vote-pay accumulator stands for the sum of the shares again |
| `VoteSpec.PropagateFrame` | contracts/eosio.system/src/voting.cpp:434-491 | propagation brings the account's own weight up to date and reaches nothing ranked as high |
| `VoteSpec.ChangePassedOn` | contracts/eosio.system/src/voting.cpp:436-457 | a change of weight by more than one goes to the proxy's total, or to the tally of every producer voted for and of no other; a smaller one goes nowhere |
| `VoteSpec.PropagateSucceeds` | contracts/eosio.system/src/voting.cpp:435-456 | its check on the proxy never fails, and none of its checks does while every listed producer is registered |
| `VoteSpec.PropagateProducers` | contracts/eosio.system/src/voting.cpp:451-484 | it changes nothing of the producers but votes, in step with the overall weight |
| `VoteSpec.PropagateWeights` | contracts/eosio.system/src/voting.cpp:434-491 | when nothing but zero is suppressed, every proxy's total stays as far from its fold as it was and every tally equals its fold |
| `VoteSpec.PropagateNonneg` | contracts/eosio.system/src/voting.cpp:434-491 | when every total equals its fold, propagation never is to take a tally below zero |
| `VoteSpec.PropagatePay` | contracts/eosio.system/src/voting.cpp:462-484 | while no tally is to go below zero, whatever is suppressed, propagation keeps the vote-pay accumulator equal to the sum of the shares, and the tallies nonnegative |
| `Revoting.DeltaIsDifference` | contracts/eosio.system/src/voting.cpp:244-280 | the map of producer deltas is exactly how the voter's contribution to each tally changes |
| `Revoting.DeltasStayNonneg` | contracts/eosio.system/src/voting.cpp:292-296 | no tally goes below zero, so the cut-off at zero is idle |
| `Revoting.RevoteSucceeds` | contracts/eosio.system/src/voting.cpp:211-335 | a valid ballot is refused exactly when its proxy or a newly chosen producer is not available |
| `Revoting.RepeatSucceeds` | contracts/eosio.system/src/delegate_bandwidth.cpp:372-374 | a change of stake, which repeats the ballot on record, is never refused |
| `Revoting.RevoteRows` | contracts/eosio.system/src/voting.cpp:329-333 | the voter's row holds the ballot, every other row keeps all but its weights, and the proxies stay a forest |
| `Revoting.RevoteCutsOff` | contracts/eosio.system/src/voting.cpp:292-296 | whatever was suppressed before, a vote leaves no tally it touches below zero |
| `Revoting.RevoteKeeps` | contracts/eosio.system/src/voting.cpp:211-335 | with nothing suppressed, tallies, proxied weights and the overall weight equal their folds again, and no tally was to go below zero |
| `Revoting.RevotePay` | contracts/eosio.system/src/voting.cpp:300-327 | while no tally is to go below zero, whatever was suppressed, a vote leaves the vote-pay accumulator equal to the sum of the shares |
| `VotingState.SoundIsAcyclic` | contracts/eosio.system/src/voting.cpp:213-225 | in every state between actions the proxies form no cycle and no proxy uses a proxy |
| `VotingState.TotalsAreFolds` | contracts/eosio.system/src/voting.cpp:239-298 | with nothing suppressed: each tally, each proxied weight and the overall weight equal the sums they stand for, and none is negative |
| `VotingState.AccumulatorsAreFolds` | contracts/eosio.system/src/voting.cpp:155-181 | the voter accumulator, extrapolated to any time, equals the sum of all extrapolated shares in every run; that of the producers does while no tally was to go below zero and every registration was in time |
| `VotingState.SuppressionDrifts` | contracts/eosio.system/src/voting.cpp:441-442 | a suppressed change leaves the folds as they were exactly if it is zero or has nobody to be passed on to |
| `VotingState.PropagateSound` | contracts/eosio.system/src/voting.cpp:434-491 | propagation from any account keeps all that holds between actions |
| `VotingState.RevoteSound` | contracts/eosio.system/src/voting.cpp:211-335 | so does a vote |
| `ProducerState.RegisteredPay` | contracts/eosio.system/src/voting.cpp:51-59 | registration keeps the vote-pay accumulator equal to the sum of shares if and only if a producer without a row has no votes, or its pay has not lapsed |
| `ProducerState.ClaimedPay` | contracts/eosio.system/src/producer_pay.cpp:140-182 | a claim takes exactly the producer's extrapolated share out of the accumulator, and the producer accrues again from then on |
| `ProducerState.TotalShareIsSum` | contracts/eosio.system/src/voting.cpp:383 | the total a voter's claim is measured against is the sum of what all voters are owed at that moment |
| `ProducerState.RewardMeasured` | contracts/eosio.system/src/voting.cpp:383-394 | the reward of a claim is the voter's share of the bucket, measured by what it is owed against what all voters are owed at that moment |
| `ProducerState.VoteClaimed` | contracts/eosio.system/src/voting.cpp:383-402 | the rows and totals a voter's claim leaves keep all that holds between actions |
| `ProducerState.CanVoteExactly` | contracts/eosio.system/src/voting.cpp:211-335 | with nothing suppressed, a vote goes through exactly if the voter has a row and the ballot no fault: a proxy other than the voter, with a row and registered, for a voter that is none itself, and no producers; or at most thirty producers in strict order, each registered and active, which is not looked at for a negative weight |
| `ProducerState.VoteStepRecorded` | contracts/eosio.system/src/voting.cpp:227-334 | what a vote leaves on record: the ballot, the stake times the factor plus, for a proxy, what it was lent, a rate of nothing for a voter with fewer than sixteen producers and no proxy and otherwise the weight less what the voter is lent, and, for a first vote before activation, the stake counted and the time at which 150 million are reached |
| `ProducerState.BallotRefusedExactly` | contracts/eosio.system/src/voting.cpp:211-335 | a vote leads nowhere, and not to some other state, exactly when a check of it fails |
| `ProducerState.CanAlwaysRepeat` | contracts/eosio.system/src/delegate_bandwidth.cpp:372-374 | and the vote that follows a change of stake never is |
| `ProducerState.CanRegProxyExactly` | contracts/eosio.system/src/voting.cpp:337-354 | with nothing suppressed, regproxy is refused exactly to an account with a row whose status would not change, or that uses a proxy and would become one |
| `ProducerState.ProxyStepRecorded` | contracts/eosio.system/src/voting.cpp:337-354 | regproxy leaves the new status, and the stake times the factor plus, for a proxy only, what it was lent as the weight; nobody's rate changes |
| `ProducerState.CanRestakeExactly` | contracts/eosio.system/src/delegate_bandwidth.cpp:352-374 | and the votes follow a change of stake exactly if it leaves the stake nonnegative |
| `ProducerState.StakeStepRecorded` | contracts/eosio.system/src/delegate_bandwidth.cpp:352-374 | a change of stake moves the stake on record by the change, or starts a row with it; a ballot on record is then recorded again as a vote records it, and without one nothing else changes |
| `ProducerState.StakeStepStakes` | contracts/eosio.system/src/delegate_bandwidth.cpp:352-374 | a change of stake moves one account's stake and nobody else's |
| `ProducerState.SoundElects` | contracts/eosio.system/src/voting.cpp:106-123 | the scan of the index elects the right producers in every state in which no tally was to go below zero |
| `ProducerState.StartSound` | contracts/eosio.system/src/voting.cpp:27-77 | producers older than votes and vote-pay rows are a start from which everything above holds |
| `Witnesses.LateRegistration` | contracts/eosio.system/src/voting.cpp:51-59 | a vote for such a producer, and its registration after three days: the vote-pay accumulator is then no longer the sum of the shares |
| `Witnesses.FormerProxyOwes` | contracts/eosio.system/src/voting.cpp:413-416 | tables in which everything is in order, and a former proxy earns at a rate of minus ten |
| `Voting.VotingEngine.UpdateTotalVotepayShare` | contracts/eosio.system/src/voting.cpp:155-181 | the accumulator after it, clamps included; `VotePay.ClampsAtZero` says that they cut off at zero |
| `Voting.VotingEngine.UpdateProducerVotepayShare` | contracts/eosio.system/src/voting.cpp:183-204 | the row and the share returned |
| `Voting.VotingEngine.AdjustVotes` | contracts/eosio.system/src/voting.cpp:291-319 | one producer's tally, row and contributions, in either loop, as the sweep says |
| `Voting.VotingEngine.PassChangeToProducers` | contracts/eosio.system/src/voting.cpp:451-484 | the loop is the sweep over the listed producers, and fails exactly on an unregistered one |
| `Voting.VotingEngine.PropagateWeightChange` | contracts/eosio.system/src/voting.cpp:434-491 | terminates, and computes the propagation the lemmas are about |
| `Voting.VotingEngine.CollectDeltas` | contracts/eosio.system/src/voting.cpp:244-280 | the two loops build the map of deltas, with the producers on the new ballot marked |
| `Voting.VotingEngine.ApplyDeltas` | contracts/eosio.system/src/voting.cpp:285-327 | the loop over the deltas is the sweep, and fails exactly on an unavailable new producer |
| `Voting.VotingEngine.UpdateVoterVotepayShare` | contracts/eosio.system/src/voting.cpp:407-432 | the voter's row and the totals it leaves; the accumulator stays the sum by `VoterShares.CreditKeepsAccumulator`, and `VoteProducer` states the rate in the row's own fields |
| `Voting.VotingEngine.IsSorted` | contracts/eosio.system/src/voting.cpp:217-220 | comparing neighbours decides whether the ballot is unique and sorted |
| `Voting.VotingEngine.CastBallot` | contracts/eosio.system/src/voting.cpp:232-334 | everything after the checks of the ballot is the vote the lemmas are about |
| `Voting.VotingEngine.UpdateVotes` | contracts/eosio.system/src/voting.cpp:211-335 | goes through exactly when every check passes; the whole new state, and the new ages of proxy edges |
| `Voting.VotingEngine.VoteProducer` | contracts/eosio.system/src/voting.cpp:206-335 | the one state the vote steps to, or a refusal that changes nothing; with nothing suppressed it goes through exactly for a ballot without fault; what is on record then, field by field, in particular a rate of zero for fewer than sixteen producers without a proxy and otherwise weight less lent weight; the overall rate stays the sum of what voters were credited on |
| `Voting.VotingEngine.RegProxy` | contracts/eosio.system/src/voting.cpp:337-354 | the one state it steps to, or a refusal that changes nothing; with nothing suppressed it is refused only when nothing would change or to a proxy's user; the new status and weight, field by field; the invariant is kept |
| `Voting.VotingEngine.UpdateVotingPower` | contracts/eosio.system/src/delegate_bandwidth.cpp:352-374 | the one state it steps to, or a refusal that changes nothing; with nothing suppressed it goes through exactly if the stake stays nonnegative; the new stake and, if there is a ballot on record, the vote recorded again with its rate, field by field; the invariant is kept |
| `Voting.VotingEngine.RegisterProducer` | contracts/eosio.system/src/voting.cpp:27-77 | the producer is active at its location, keeps its votes, blocks and last claim, or starts with none as of now; its vote-pay row is kept, or new and empty; the accumulator it leaves; the invariant is kept |
| `Voting.VotingEngine.UnregisterProducer` | contracts/eosio.system/src/voting.cpp:97-104 | goes through exactly for a registered producer, whose votes stay |
| `Voting.VotingEngine.ProduceBlock` | contracts/eosio.system/src/producer_pay.cpp:32-50 | once activated, fills start, and a registered producer's block is counted in both places: the total stays the sum |
| `Voting.VotingEngine.ClaimRewards` | contracts/eosio.system/src/producer_pay.cpp:125-188 | goes through exactly if the producer is active, the chain activated, the last claim more than a day ago and the fill accepted; the payment and every account it reaches; the producer's rows, field by field; unpaid blocks still add up and the bucket is covered |
| `Voting.VotingEngine.ClaimVote` | contracts/eosio.system/src/voting.cpp:356-405 | goes through exactly if the chain is activated, the voter credited, its last claim more than a day ago, something owed, the fill accepted and the reward a unit or more; the reward is the whole filled bucket if the voter is owed all that is owed, and otherwise its part, rounded down, on both sides; the row, field by field, every account it reaches, and that the bucket per share owed does not fall |
| `Election.ScanIndex` | contracts/eosio.system/src/voting.cpp:113-123 | the scan takes the longest prefix of the index, up to 21, whose producers are active and have votes |
| `Election.ScanRanks` | contracts/eosio.system/include/eosio.system/eosio.system.hpp:217 | what it takes is in the order of votes, then names, and outranks every other eligible producer |
| `Election.ScanElects` | contracts/eosio.system/src/voting.cpp:113-123 | it takes the top min(21, eligible) if and only if enough eligible producers precede each inactive one with a negative tally |
| `Election.NonnegTalliesElect` | contracts/eosio.system/src/voting.cpp:113-123 | so it always does while no tally is negative |
| `Election.SortByLocation` | contracts/eosio.system/src/voting.cpp:130-136 | a permutation in the order of location, then name |
| `Election.Schedule.UpdateElected` | contracts/eosio.system/src/voting.cpp:106-147 | the proposal is a permutation of the elected, sorted by location, then name, made exactly when they are not fewer than last time; the size never falls |
| `FeeCurve.PowChord` | contracts/eosio.system/src/powerup.cpp:268-275 | the chord of a power lies between its tangents |
| `FeeCurve.IntegralBetweenPrices` | contracts/eosio.system/src/powerup.cpp:268-301 | over any stretch the integral lies between the prices at its two ends: it is the integral of the price function |
| `FeeCurve.FeeWithinPrices` | contracts/eosio.system/src/powerup.cpp:265-318 | before rounding, the fee lies between the lowest and the highest price of what is bought |
| `FeeCurve.FeeBetween` | contracts/eosio.system/src/powerup.cpp:303-315 | before rounding, the fee lies between the amount at the price where the market stands, the higher of its two utilizations, and the amount at the price as much further up |
| `FeeCurve.FeeFromEmpty` | contracts/eosio.system/src/powerup.cpp:268-284 | from an empty market it is the integral min*u + ((max - min)/exponent)*u^exponent up to what is bought |
| `FeeCurve.ExactFeeSplits` | contracts/eosio.system/src/powerup.cpp:303-315 | before rounding, two purchases cost exactly what one of their sum costs |
| `FeeCurve.FeeSplits` | contracts/eosio.system/src/powerup.cpp:317 | so splitting never saves anything, and costs at most one unit more |
| `FeeCurve.FeeRises` | contracts/eosio.system/src/powerup.cpp:307-311 | raising the adjusted utilization never lowers the fee |
| `FeeCurve.LowerAdjustedIgnored` | contracts/eosio.system/src/powerup.cpp:303-315 | an adjusted utilization below the utilization gives the fee of one equal to it |
| `PowerupMarket.RatioFalls` | contracts/eosio.system/src/powerup.cpp:94-102 | between configurations the ratio never rises and never falls below its target |
| `PowerupMarket.RatioOnLine` | contracts/eosio.system/src/powerup.cpp:94-102 | the ratio comes down on a straight line: what it has lost is the drop times the time over the span, rounded down, and at the target time it is the target |
| `PowerupMarket.WeightFits` | contracts/eosio.system/src/powerup.cpp:103-105 | so the weight never shrinks and, with the assumed stake, always fits 64 bits by the one check at configuration |
| `PowerupMarket.RatioRecovered` | contracts/eosio.system/include/eosio.system/eosio.system.hpp:625-627 | assumed / (assumed + weight) recovers the ratio from above, within ratio / (assumed + weight) |
| `PowerupMarket.DecayedCovers` | contracts/eosio.system/src/powerup.cpp:14-19 | the adjusted utilization is at least the utilization exactly if time has passed or it was so before |
| `PowerupMarket.DecayedBetween` | contracts/eosio.system/src/powerup.cpp:14-19 | decay never raises a higher adjusted utilization, and catches up with a lower one |
| `PowerupMarket.DecayedGap` | contracts/eosio.system/src/powerup.cpp:114-117 | the clamp is idle: the gap shrinks by the truncated factor |
| `PowerupMarket.AdvancedOk` | contracts/eosio.system/src/powerup.cpp:73-92 | passing time and freeing orders keeps both utilizations within the weight and the prices as they are, and what is available does not shrink |
| `PowerupMarket.DecaysBeforeFreeing` | contracts/eosio.system/src/powerup.cpp:73-92 | a processed queue has the adjusted utilization decay towards the utilization there was before the orders ended |
| `PowerupMarket.SoldOk` | contracts/eosio.system/src/powerup.cpp:358-368 | so does a sale, which is never of nothing |
| `PowerupMarket.SaleIsFair` | contracts/eosio.system/src/powerup.cpp:358-368 | what is sold is the part of the weight asked for, rounded down, and its fee is in the market's own prices: rounded up, it lies between the amount at the price where the market stands and at the price as much further up, and from an empty market it is the integral of the price |
| `PowerupMarket.SaleIsBuyable` | contracts/eosio.system/src/powerup.cpp:258-264 | at a sale all that the fee asks of its caller holds, except that the utilization is at most the adjusted one; that holds exactly if time has passed since the last update, or the adjusted one covers what is not freed now; otherwise the fee is that of an adjusted utilization equal to the utilization |
| `PowerupMarket.TwoInOneSecond` | contracts/eosio.system/src/powerup.cpp:14-19 | a market in which the second sale of one second finds the adjusted utilization at 0 and the utilization at 49 |
| `PowerupMarket.ReconfiguredOk` | contracts/eosio.system/src/powerup.cpp:247-252 | a configuration leaves the market in order if and only if what was sold still fits |
| `PowerupMarket.ConfiguredTakes` | contracts/eosio.system/src/powerup.cpp:147-231 | each setting is the argument given for it, or the one there was; the schedule starts now, from the present ratio, and the weight and the adjusted utilization follow |
| `PowerupMarket.DropRestarted` | contracts/eosio.system/src/powerup.cpp:98-101 | restarting a rounded linear drop in the middle loses less than one unit and never drops faster |
| `PowerupMarket.RebasedSchedule` | contracts/eosio.system/src/powerup.cpp:147-173 | a configuration of nothing but defaults passes every check, that of what was sold included, and every later ratio is the old one or one more |
| `ResourceLedger.BalancedIsNonneg` | contracts/eosio.system/src/powerup.cpp:41-42 | where the tables agree, no row of userres is negative, so the checks on it cannot fail |
| `ResourceLedger.StakingBalanced` | contracts/eosio.system/src/delegate_bandwidth.cpp:181-251 | staking keeps each account's row equal to delegations, open orders and, for the reserve, what is not sold |
| `ResourceLedger.OrderingBalanced` | contracts/eosio.system/src/powerup.cpp:381-391 | so does a powerup |
| `ResourceLedger.EndingBalanced` | contracts/eosio.system/src/powerup.cpp:83-87 | and the end of an order |
| `ResourceLedger.ReserveBalanced` | contracts/eosio.system/src/powerup.cpp:333 | and what is handed to the reserve account |
| `Resources.DrainTakesExpired` | contracts/eosio.system/src/powerup.cpp:78-87 | the queue loses expired orders only, in the order of expiry and id |
| `Resources.DrainTakesAtMost` | contracts/eosio.system/src/powerup.cpp:79 | and no more than the limit |
| `Resources.DrainLeavesNone` | contracts/eosio.system/src/powerup.cpp:79-82 | fewer only if no expired order is left: every one can be reclaimed |
| `Resources.ProcessedOk` | contracts/eosio.system/src/powerup.cpp:73-92 | a processed queue leaves both markets in order, with utilization equal to the open orders |
| `Resources.SaleOk` | contracts/eosio.system/src/powerup.cpp:357-387 | so does a powerup, whose order is positive |
| `Resources.PowerupIsFair` | contracts/eosio.system/src/powerup.cpp:355-379 | the fee of a powerup is the sum of what its two parts cost at the two markets' prices |
| `Resources.NextKey` | contracts/eosio.system/src/powerup.cpp:381-382 | the next order's key is one more than the last, or zero |
| `Resources.RefundConserves` | contracts/eosio.system/src/delegate_bandwidth.cpp:253-314 | what is staked is what is paid and what the pending refund gives up; no refund goes negative |
| `Resources.RefundsRecorded` | contracts/eosio.system/src/delegate_bandwidth.cpp:253-314 | unstaking adds to the pending refund, all of which then waits from now on; staking for oneself uses it up, part by part, and leaves its time; everything else, and everyone else's refund, stays |
| `Resources.StakesFollow` | contracts/eosio.system/src/delegate_bandwidth.cpp:325 | the stake for voting follows the delegations |
| `Resources.StakeStaysBacked` | contracts/eosio.system/src/delegate_bandwidth.cpp:253-325 | the tokens held move by exactly the change of stakes and refunds |
| `Resources.RefundCovered` | contracts/eosio.system/src/delegate_bandwidth.cpp:533-544 | unless eosio.stake drew on it for itself, every pending refund is covered by what it holds |
| `Resources.SameStakesKeepLedger` | contracts/eosio.system/src/delegate_bandwidth.cpp:323 | voting actions leave the staking ledger in order |
| `Bandwidth.SystemResources.AdjustResources` | contracts/eosio.system/src/powerup.cpp:22-71 | exact conditions for success and the new row; an empty change succeeds even for a managed account |
| `Bandwidth.SystemResources.TakeExpired` | contracts/eosio.system/src/powerup.cpp:78-87 | the loop never fails, and leaves the queue and the freed weight the lemmas are about |
| `Bandwidth.SystemResources.ProcessQueue` | contracts/eosio.system/src/powerup.cpp:73-92 | both markets and what becomes available |
| `Bandwidth.SystemResources.PowerupExec` | contracts/eosio.system/src/powerup.cpp:320-335 | only a managed reserve account can stop it; the invariant is kept |
| `Bandwidth.SystemResources.Sell` | contracts/eosio.system/src/powerup.cpp:358-368 | exact conditions for a sale; the amount is the part asked for, rounded down, and the fee lies between the amount at the market's price where it stands and at the price as much further up, or is exactly the integral of the price from an empty market, rounded up |
| `Bandwidth.SystemResources.Powerup` | contracts/eosio.system/src/powerup.cpp:337-403 | when it goes through, and then the order under the table's next key, both markets, the balances, and a fee that is the sum of two parts each in its market's own prices; otherwise nothing changes |
| `Bandwidth.SystemResources.CfgPowerup` | contracts/eosio.system/src/powerup.cpp:122-256 | when it goes through, and then every setting of both markets: the argument given, or what there was; utilization never exceeds the weight afterwards |
| `Bandwidth.SystemResources.MoveDelegation` | contracts/eosio.system/src/delegate_bandwidth.cpp:181-251 | goes through exactly if no delegation goes negative; the check on the receiver's totals cannot fail |
| `Bandwidth.SystemResources.UpdateRefund` | contracts/eosio.system/src/delegate_bandwidth.cpp:269-313 | the pending refund and what is still to be paid, as `Resources.RefundsRecorded` and `RefundConserves` have them; the checks that should never happen do not |
| `Bandwidth.SystemResources.FundStake` | contracts/eosio.system/src/delegate_bandwidth.cpp:253-321 | the payment, and exactly when it goes through |
| `Bandwidth.VotesAlwaysFollow` | contracts/eosio.system/src/delegate_bandwidth.cpp:352-374 | with nothing suppressed, the votes follow every change of stake the ledger accepts |
| `Bandwidth.SystemResources.ChangeBandwidth` | contracts/eosio.system/src/delegate_bandwidth.cpp:167-326 | refused exactly for what is wrong with the change itself or for a vote that cannot follow, never by the ledger; all tables, tokens and votes move together, to the one state they can; each row moves part by part; unstaking makes the whole refund wait from now on, and staking changes no refund's time |
| `Bandwidth.SystemResources.DelegateBandwidth` | contracts/eosio.system/src/delegate_bandwidth.cpp:503-514 | only staking may pass the stake on, and not to oneself |
| `Bandwidth.SystemResources.UndelegateBandwidth` | contracts/eosio.system/src/delegate_bandwidth.cpp:516-526 | nothing is unstaked before activation; the change of stake, up to the genesis balance; the refund's time is now, so no claim of it goes through for three days |
| `Runs.Unstake` | contracts/eosio.system/src/delegate_bandwidth.cpp:516-530 | undelegatebw as a whole: the genesis balance of the receiver is cut to what it still delegates to itself, and what that burns must be payable |
| `Bandwidth.SystemResources.ClaimRefund` | contracts/eosio.system/src/delegate_bandwidth.cpp:533-544 | pays a refund exactly if its request is three days old and the tokens are there, which they are unless eosio.stake drew on them |
| `Bandwidth.SystemResources.RemoveRefund` | contracts/eosio.system/src/delegate_bandwidth.cpp:328-350 | goes through exactly if the refund covers the amount, which stays with eosio.stake; the net part goes first, and the time stays |
| `Genesis.UpdateKeepsEntitlement` | contracts/eosio.system/src/delegate_bandwidth.cpp:382-398 | bringing a row up to date never gains entitlement and loses less than one unit |
| `Genesis.PaysOutEvenly` | contracts/eosio.system/src/delegate_bandwidth.cpp:382-398 | from the first of July 2019 on a balance earns its part of 1096 days for the time since the row was updated, rounded down, and nothing before or after |
| `Genesis.ClaimKeepsEntitlement` | contracts/eosio.system/src/delegate_bandwidth.cpp:410-424 | a claim pays what the entitlement falls by, up to one rounding |
| `Genesis.UnstakeKeepsEntitlement` | contracts/eosio.system/src/delegate_bandwidth.cpp:459-491 | unstaking burns what the entitlement falls by, up to two roundings |
| `Genesis.EntitlementAtMostBalance` | contracts/eosio.system/src/delegate_bandwidth.cpp:382-398 | rows that start with the program are entitled to at most their balance besides what is unclaimed |
| `Genesis.GenesisProgram.ClaimGenesis` | contracts/eosio.system/src/delegate_bandwidth.cpp:400-431 | exact conditions for success and the payment; the row keeps its balance, starts anew, and goes if it has none; what the account has got grows by exactly the payment, and with what it is still due stays within the opening entitlement |
| `Genesis.GenesisProgram.ChangeGenesis` | contracts/eosio.system/src/delegate_bandwidth.cpp:440-501 | exact conditions for success; the balance is cut to what is self-delegated, what was earned before is kept, and a row worth nothing goes; every balance and the supply; what the account has got grows by exactly what is burned |
| `Genesis.Run` | contracts/eosio.system/src/delegate_bandwidth.cpp:382-501 | over any interleaving of claims and unstakings: each pays or burns exactly what it should, the sum for each account plus what it is still due never exceeds its opening entitlement, nor falls short by more than two units an action, and all of it comes from genesis.wax |
| `BlockInfo.AtMostTenRows` | contracts/eosio.system/src/block_info.cpp:17-45 | the window never holds more than ten rows, whatever gaps there were |
| `BlockInfo.LatestIsKept` | contracts/eosio.system/src/block_info.cpp:33-44 | the table stays sorted and the block just recorded is never erased |
| `BlockInfo.StaleFalls` | contracts/eosio.system/src/block_info.cpp:33-44 | after a gap the rows out of the window get fewer with every consecutive block, until there are none |
| `BlockInfo.RunGrows` | contracts/eosio.system/src/block_info.cpp:17-45 | a run of consecutive recorded blocks grows with each further one, up to the size of the window |
| `BlockInfo.ConsecutiveStale` | contracts/eosio.system/src/block_info.cpp:33-44 | after n consecutive blocks, at least n rows fewer are out of the window, or none is |
| `BlockInfo.TenBlocksAfterAnyGap` | contracts/eosio.system/include/eosio.system/block_info.hpp:84-173 | after any gap, ten consecutive blocks leave no row out of the window and a table that answers every query for at most ten, with the latest block's height and time |
| `BlockInfo.TenBlocksAnswerAll` | contracts/eosio.system/include/eosio.system/block_info.hpp:84-173 | once the last ten blocks are recorded, every query for at most ten succeeds and returns the one start congruent to the offset, with its time, and the latest block with its own |
| `BlockInfo.BatchStartIsUnique` | contracts/eosio.system/include/eosio.system/block_info.hpp:66-70 | a height belongs to exactly one batch |
| `BlockInfo.BatchExactly` | contracts/eosio.system/include/eosio.system/block_info.hpp:84-173 | on any table, a query succeeds exactly if the start of the latest block's batch is recorded, in a version known, and it then reports that row and the latest |
| `BlockInfo.BlockInfoTable.Add` | contracts/eosio.system/src/block_info.cpp:17-45 | the row of the block is entered, and up to two of the oldest go, just those ten or more blocks behind; at most ten sorted rows are left |
| `Machine.FlagsLead` | contracts/eosio.system/src/voting.cpp:441-442 | the flags of a history say what they mean: an action's part in them is whether the vote it casts suppresses a change, or is to take a tally below zero |
| `Machine.FlagsOfRun` | contracts/eosio.system/src/voting.cpp:441-442 | so a run is exact if and only if no event of it suppresses a change, and likewise for the other two |
| `Machine.StakesAreDelegations` | contracts/eosio.system/src/delegate_bandwidth.cpp:325 | all that is staked for voting is all that is delegated |
| `Runs.Launch` | contracts/eosio.system/src/eosio.system.cpp:462-481 | a whole system as it starts, with older producers and genesis rows, is in order |
| `Runs.System.Act` | contracts/eosio.system/src/delegate_bandwidth.cpp:503-544 | any action of any kind keeps the whole system in order, and moves the votes, delegations, refunds and genesis rows as that action says |
| `Runs.Run` | contracts/eosio.system/src/delegate_bandwidth.cpp:503-544 | after any run of all actions: no proxy cycle, accumulators and unpaid blocks add up, the overall rate of voters is the sum of what they were credited on, buckets and RAM are covered, userres balances, no market is oversold, stakes are delegations, genesis stays within its entitlements; the flags are tied to the events; what eosio.stake holds beyond delegations and refunds grows by exactly what was removed; the supply grows by at most five percent a year |

## Left out

- IEEE rounding: arithmetic on `double` is exact in the model, and only casts to integers truncate.
- 64-bit overflow of token amounts and stakes: amounts are unbounded integers; that the supply bounds every balance is proved, that the products of the original stay in range is not. The 32-bit wrap of the RAM growth is modelled.
- The powerup exponent is a whole number of at least one, where the original also takes fractional ones.
- The block height of the rolling window does not wrap at 2^32, and blocks are recorded in the order of their heights.
- The exchange functions `convert`, `convert_to_exchange` and `convert_from_exchange`: not used by any action.
- `VoteSpec.PropagateWeights`: the folds hold in runs in which no nonzero change is suppressed; how far tallies drift otherwise has no bound per suppression, only the exact condition of `VotingState.SuppressionDrifts`.
- `Voting.VotingEngine.UpdateVotingPower`: the vesting schedule of b1 is not modelled, and the worker-proposal bookkeeping is a parameter of the change of stake that precedes it.
- `Bandwidth.SystemResources.ChangeBandwidth`: resource limits set at the chain are not modelled, and neither is `setwpsstate`, which overwrites the total stake.
- `Bandwidth.SystemResources.UndelegateBandwidth`: the genesis balance follows in `Runs.Unstake`; there the model looks first whether that can be paid, where the original rolls back afterwards.
- `Runs.Run`: the accounts that back something (eosio.stake, eosio.bpay, eosio.voters, eosio.ram) take no actions of their own, and token transfers by others are not actions of a run, so no new fees arrive during one but those of powerups; `Inflation.FivePercentCap` lets each fill burn any amount of fees, and others retire tokens. How claims, powerups and RAM trades move balances is stated by their own contracts, not repeated in the trace of a run.
- `Election.Schedule.UpdateElected`: the index is a parameter, sorted as its key says; signing authorities are not carried along.
- `RamMarketContract.RamMarket.BuyRam`: bytes are kept beside the net and cpu weights of userres, in a table of their own, and the gift bytes and managed limits of the chain are not modelled.
- Name auctions and the closing of one in `onblock`: simple conservation.
- Worker proposals: the model takes their answer to a change of stake as a parameter.
- `limitauthchg`, `powerup.results`, the multisig, wrap, bios and boot contracts, and all of the host's plumbing: authorization, serialization, RAM payers, memos.
