# The consensus core of sidestr, modelled and proved

sidestr is a family of Bitcoin sidechains: coins pegged in from a parent chain,
burns that leave it, a block signature carried in the coinbase, assets riding on
outputs, constant-product pools and two-sided prediction markets held in
`OP_TRUE` coins, and payment-channel outputs spent through a handful of
tapscript leaves. This project models the deterministic rules of `sidestr-core`
in Dafny and proves what they keep. `dafny verify dfyconfig.toml` checks all of it.

The project has four layers.

**The ledger.** `Transactions`, `Markers`, `Ledger`, `SpendingProofs`, `SpendingExact`,
`Chain`, `BlockRules`, `Runs`, `Freshness`, `CoinHistory`, `Burns`.
A block's spending is resolved by a walk that reads the coin set and the block's
own outputs; applying a block changes the set. The two are proved to speak of the
same coins (`SpendingProofs`), what the walk reports is characterised input by
input (`SpendingExact`), and a block extends a chain exactly when it meets every rule,
each said as what it asks (`BlockRules`). Over every accepted run the coin set is
exactly what the chain created and has not spent (`CoinHistory`), the recorded burns
are exactly its burn outputs (`Burns`), and the coins and the recorded
burns are worth at most the pegs plus one payout per claimed parent output,
although fees are saturating sums recycled through coinbases.

**The overlay rules.** `Assets`, `AssetsExact`, `AssetViews`, `CollateralCoins`, `PoolArithmetic`,
`Pools`, `Markets`, `Overlays`, `Solvency`, `OverlayRuns`, `Redemption`, `Admission`,
`Sequencing`, `Placement`, `OverlayRules`, `ContestedResolver`, `HeldViews`, `SharedHash`. Three views (what
outputs carry, pools, markets) evolve together; a mint policy exempts some assets from
conservation and the pool or market rule must account for them. The invariants
hold in every state of every run. Markets stay solvent through open, resolved and
refunding, with the opening deposit always to spare, so that whoever holds units can
always redeem them; pools never lose value per share; every view agrees with the
others and with the coin set. The other way round, every honest split, pool step and
pool opening passes (`Admission`), so the rules are neither too lax nor too strict. A
producer's one-transaction-at-a-time ordering is
compared with the validator's rule-at-a-time judgement, and puts every transaction it
reaches in exactly one of its two lists (`Placement`). The candidate views a node
keeps between blocks, by a header hash that several bodies can share, are proved
invisible: whatever a node is asked to judge or apply, its applied views are those of
judging each applied block from scratch.

**Channels and federations as scripts.** `Channel`, `Tapscript`, `ScriptPath`,
`ChannelSpending`, `Timelocks`, `MultiALeaf`, `Federation`. The source verifies
seven channel leaves and one federation leaf by template and runs no script. Here a
small tapscript interpreter, written from BIP 342, BIP 65 and BIP 112, gives the
bytes a meaning of their own, and both verifiers are proved to accept exactly what
it runs to success. With the block rules of BIP 68 this gives the timelocks end to
end.

**Sealing.** `WitnessCodec`, `Sealing`, `Heights`, `FederatedSealing`, `Formats`, `TapTree`.
The strict witness codec is a bijection; sealing keeps the block data and the
template identity; `k` valid partial signatures over the unsealed block always seal
it, only `k` distinct signers can, and what they sign names this block and no other.
`Formats` says the fixed formats byte by byte. `Disagreements` holds one input each for the
places where two halves of the code come apart.

## How the model is cut

- A transaction id is an ideal hash: `Hash(n)`, or `No(m)` for the NO asset of
  market `m`. Along a run ids commit to inputs (`Freshness.Committing`), from which
  it is proved that no id repeats. A block's hash in `HeldViews` is a number that
  nothing ties to its body.
- A transaction's records are a field, `Classified`, as the record grammar yields
  them; the grammar guarantees the overlay rules lean on are the subset type
  `Tally`.
- Curve points, Schnorr, SHA-256, taproot tweaks, signature messages, the merkle
  root, the proof of work and the wire encoding are function-valued parameters. The
  laws a theorem needs of them are named predicates (`TweakCommits`,
  `WitnessBlind`, `OnlyCommits`). Where a theorem needs a hash not to collide, it says so
  of the very pair at hand (`TxidCollision`, `HashCollision`, `RootCollision`,
  `MessageCollision`): no function on all inputs is injective into 32 bytes.
- `u32`, `u64`, `u128` and byte widths are explicit, and so are saturating sums. Where
  the code panics the model halts: a third answer beside passing and refusing.
  Code that loops over state is a method proved against a function; hash maps are
  `map` fields a method reassigns.
- Rules outside the model only refuse more blocks, so what is proved of every
  accepted run holds of the runs the whole rule set accepts.

## What the code does that its prose does not say

- Every rule runs on every candidate, whatever the structure rules found of it, and
  what it leaves is kept by the hash of the header alone. A body under a checked
  block's hash, checked before that block is applied, takes its place
  (`SharedHash.HashesMustDiffer`); before the block's own check it never matters
  (`HeldViews.AppliedIsVerdict`). An entry the market rule keeps outlives blocks below
  its first height (`SharedHash.EntryOutlivesBlock`).
- A coinbase-shaped transaction after the first makes the assets walk panic
  (`SharedHash.SecondCoinbaseHalts`), exactly when all before it pass
  (`HeldViews.AssetsHaltExactly`).
- A pool coin recreated with an amount over the money limit reaches the swap check,
  whose product need not fit 128 bits (`PoolArithmetic.SwapThatStops`,
  `SharedHash.SwapCheckHalts`); the exact condition is `PoolArithmetic.StopsExactly`,
  and with every amount in range nothing panics (`SharedHash.InRangeBlockAnswers`,
  `Sequencing.InRangeSequences`).
- A solution push may use a longer form than its size needs, although the document
  comment of `solution_of` speaks of the form "as the size needs"
  (`Sealing.SolutionReinserted`, `Disagreements.LongPushNotPutBack`).
- `with_solution` writes witnesses `solution_of` refuses: those of more than 256
  items (`Sealing.SolutionReadBack`, `Disagreements.ManyItemsUnread`).
- A producer's ordering is not a refinement of validation for a mempool in which
  two transactions spend one resolver coin (`ContestedResolver.KeptTogetherRefused`);
  the exact condition is `Sequencing.ResolversFree`, and a mempool without
  conflicts, which submission enforces, always meets it.
- `earliest_height` is not a threshold for a relative lock that ends beyond the last
  32-bit height (`Timelocks.ThresholdIsExact`, `Disagreements.LockNeverEnds`).
- A marker longer than 255 bytes is written as a script no marker parser matches
  (`Markers.OpReturnRoundTrip`, `Disagreements.LongMarkerUnread`).
- A coinbase script that opens with `OP_0` is height 0 to the node and no height to
  the height rule (`Heights.HeightReadersAgree`, `Disagreements.ZeroHeightUnread`).

## Model

| member | source | states |
|---|---|---|
| Markers.OpReturnRoundTrip | sidestr-core/src/marker.rs:55-69 | a marker's data reads back exactly when it is at most 255 bytes |
| Markers.OpReturnDataExact | sidestr-core/src/marker.rs:55-69 | a script carries marker data if and only if it is `OP_RETURN` and one push of it in the only forms read |
| Markers.PegoutRoundTrip | sidestr-core/src/marker.rs:344-378 | a burn marker reads back, in lower case, exactly for the hex of 2 to 40 bytes in either case; otherwise it still looks like a burn when short enough |
| Markers.PegoutExact | sidestr-core/src/marker.rs:373-378 | a script reads as a burn of this hex if and only if its text, a byte-order mark aside, is `pegout:` and the hex of 2 to 40 bytes, lowered |
| Markers.ClaimRoundTrip | sidestr-core/src/marker.rs:238-240 | a claim marker reads back exactly for 64 lower hex digits and an output index of at most five digits, and otherwise reads as no claim |
| Markers.ClaimTextExact | sidestr-core/src/marker.rs:307-317 | a text claims an output if and only if it is `claim:`, its 64 lower hex digits, a colon and one to five digits of its index |
| Markers.ParseClaims | sidestr-core/src/marker.rs:273-304 | the coinbase's claims, each with the payout before its marker, and every claim-shaped output that is not one |
| Markers.ClaimsExact | sidestr-core/src/marker.rs:273-304 | the claims, exactly: a claim is listed if and only if its marker stands right behind a spendable output worth something, which is its payout |
| Markers.StraysExact | sidestr-core/src/marker.rs:273-304 | the errors, exactly: an output is one if and only if its marker claims an output and no such payout stands before it |
| Markers.ClaimsOwnDistinctPayouts | sidestr-core/src/marker.rs:273-304 | each claim owns a spendable output of its own; no two share a payout |
| Markers.NoMarkerOverlooked | sidestr-core/src/marker.rs:273-304 | every claim marker is a claim or an error |
| Markers.PayoutsWithinCoins | sidestr-core/src/marker.rs:273-304 | what a coinbase's claims pay is within the coins it creates |
| Transactions.ParseAssigns | sidestr-core/src/records.rs:276-290 | a tally's assignments: amounts 1 to 2^53 - 1, no output twice, refused otherwise and only otherwise |
| Ledger.CoinSet.SpendInputs | sidestr-core/src/rules.rs:873-880 | removes each input's coin in order and counts the coins really removed |
| Ledger.CoinSet.CreateCoins | sidestr-core/src/rules.rs:881-897 | inserts one coin per output that is not an `OP_RETURN` |
| Ledger.CoinCountIs | sidestr-core/src/rules.rs:881-897 | the coins reported created are as many as the outputs that do not open with `OP_RETURN` |
| Ledger.CoinSet.ApplyBlock | sidestr-core/src/rules.rs:870-900 | the coin set after a block, with the created and spent counts |
| Ledger.CoinsAre | sidestr-core/src/rules.rs:881-897 | a transaction's coins are exactly its outputs that are not `OP_RETURN`s |
| CoinHistory.CoinsExact | sidestr-core/src/rules.rs:870-900 | in every state of every accepted run a coin is in the set if and only if the chain has created it, as this output at this height and kind, and never spent it |
| Ledger.ResolveOne | sidestr-core/src/rules.rs:443-515 | one transaction's inputs, fee and outputs in the read-only walk |
| Ledger.ResolveSpending | sidestr-core/src/rules.rs:432-517 | the loop over a block computes its resolution, reading the set only |
| SpendingProofs.ResolutionAgreesWithApplication | sidestr-core/src/rules.rs:432-517 | when nothing is missing, the coins resolved are one for one those applying the block removes at that moment, and every input after the coinbase removes one |
| SpendingProofs.TxsAgree | sidestr-core/src/rules.rs:432-517 | at every prefix of a block, off the outpoints spent in it, the walk's view of the coins is the live set |
| SpendingProofs.BlockConserves | sidestr-core/src/rules.rs:496-503 | coins after a block, its fees and what it destroys are within the coins before plus the coinbase's, saturation included |
| SpendingProofs.EachInputUnlocked | sidestr-core/src/rules.rs:454-487 | in a block with nothing missing, premature or violated, each input removes a coin its sequence and maturity allow |
| SpendingExact.InputsExact | sidestr-core/src/rules.rs:443-495 | for one transaction: nothing is missing exactly when each input finds its coin still live, and then nothing is premature or locked exactly when no coin is |
| SpendingExact.SpendingIsExact | sidestr-core/src/rules.rs:432-517 | with new ids, the four lists are empty if and only if every input finds its coin at its moment, is mature and unlocked, and every transaction pays its outputs; the fee is what is left over |
| Chain.JudgeFinality | sidestr-core/src/rules.rs:673-703 | fails exactly when some transaction's `nLockTime` is not reached; unknown only for time locks without a median time |
| Chain.JudgeBurns | sidestr-core/src/rules.rs:799-834 | one transaction's burns, or a refusal of a malformed, small or already recorded one |
| Chain.JudgePegouts | sidestr-core/src/rules.rs:791-837 | the block's burns, none in the coinbase |
| Chain.CollectClaims | sidestr-core/src/rules.rs:838-859 | refuses exactly a parent output claimed twice in the block or recorded at another height |
| Chain.JudgeClaims | sidestr-core/src/rules.rs:838-865 | the claims rule on a coinbase, and the claims it would record |
| Chain.Node.Judge | sidestr-core/src/rules.rs:649-866 | every modelled rule without applying anything, and the records the block would leave |
| BlockRules.AcceptsExact | sidestr-core/src/rules.rs:649-866 | a block with new ids extends a chain if and only if it meets every rule, each said as what it asks: shape, height, locks, live, mature and unlocked coins, paid outputs, the coinbase within fees and claims, burns and claims |
| BlockRules.CoinbaseAmountExact | sidestr-core/src/rules.rs:729-758 | a coinbase passes if and only if every claim marker follows its payout and its outputs are within the subsidy, the fees and the claims' payouts, no sum capped |
| BlockRules.TimelyIs | sidestr-core/src/rules.rs:673-703 | `nLockTime`: a height below the block's, or from 500 million on a time below the median when one is known; unjudged exactly for a time in force without a median |
| BlockRules.BurnIs | sidestr-core/src/rules.rs:799-834 | an output whose marker starts `pegout:` is a well-formed burn of at least the least amount, not recorded at another height |
| Chain.Node.Apply | sidestr-core/src/state.rs:489-548 | a block is applied exactly when every rule passes; records are committed only then |
| Runs.BlockSupply | sidestr-core/src/rules.rs:729-758 | one accepted block adds at most its claims' payouts to coins and burns together |
| Runs.SupplyConservation | sidestr-core/src/rules.rs:649-900 | over every accepted run, coins plus recorded burns are at most the pegs plus one payout per claimed parent output |
| Runs.NoParentOutputPaidTwice | sidestr-core/src/rules.rs:838-859 | claims at two places of an accepted run name different parent outputs |
| Runs.ClaimsPaidFromTheirCoinbase | sidestr-core/src/rules.rs:729-758 | an accepted coinbase's claims own distinct payouts and pay within its coins |
| Runs.ClaimStays | sidestr-core/src/rules.rs:838-859 | a claim stays recorded at the height that made it, for the rest of the run |
| Runs.ClaimsRecorded | sidestr-core/src/state.rs:523-524 | in every state of every accepted run a parent output is recorded as claimed at a height if and only if the coinbase of the block at that height claims it |
| Runs.ClaimsStayBelowTip | sidestr-core/src/state.rs:489-548 | no recorded claim is above the tip |
| Burns.BurnsRecorded | sidestr-core/src/state.rs:524-525 | in every state of every accepted run an outpoint is recorded as a burn if and only if it is an output of a transaction, not a coinbase, of an earlier block that reads as that burn; with exactly that script, that value and that block's height |
| Freshness.TxidsNeverRepeat | sidestr-core/src/rules.rs:354-409 | no transaction id repeats along an accepted run: what an input spent is gone, and coinbases push their heights |
| Assets.CheckedAssigns | sidestr-core/src/assets.rs:183-260 | a passed transaction assigns of each asset at most what its inputs carry, unless it issues it or the policy exempts it, and only to spendable outputs |
| AssetsExact.CheckExact | sidestr-core/src/assets.rs:183-260 | the rule without its loops: a transaction passes if and only if its records are well formed, its tallies name different assets on outputs that stand, and each sum is covered by the inputs, issued here, the share of a pool there is or is opened, or either side of a market that a split names; then each output carries exactly what a tally gives it |
| AssetsExact.ExemptedIs | sidestr-core/src/overlays.rs:35-62 | what the mint policy exempts, exactly: the shares of a pool there is or that is opened here, and both sides of a market there is that a split names |
| AssetsExact.AppliedExact | sidestr-core/src/assets.rs:288-331 | what an outpoint carries after a transaction, exactly: what a kept transaction gives it, and otherwise what it carried unless spent, by a kept transaction or a broken one |
| AssetsExact.IssueExact | sidestr-core/src/assets.rs:303-326 | an issue registers its ticker, its decimals, the height, and as supply exactly what its outputs then carry of it; nothing else is registered |
| Assets.TotalAfter | sidestr-core/src/assets.rs:281-334 | how one transaction, rule-breaking or not, moves the total carried of an asset |
| Assets.CarriedInIs | sidestr-core/src/assets.rs:186-194 | with unique inputs the saturating sum over inputs is the true sum saturated once |
| Assets.AssetsConserved | sidestr-core/src/assets.rs:281-334 | without a mint policy no total exceeds its recorded supply, none grows after issuance, no recorded supply changes |
| Assets.ChainBacked | sidestr-core/src/assets.rs:266-334 | over a whole chain each total is within its recorded supply, and zero while none is recorded |
| Assets.NeverGrows | sidestr-core/src/assets.rs:281-334 | once its issue is past, an asset's total never grows |
| AssetViews.AssetView.CheckInner | sidestr-core/src/assets.rs:183-260 | the check as it accumulates, loop by loop, is the rule; and what the inputs carry is summed unless the transaction is refused unread |
| AssetViews.OutcomeExact | sidestr-core/src/assets.rs:183-260 | what an outcome says came in of an asset: nothing for a transaction refused unread, otherwise the inputs' total, up to 64 bits |
| AssetViews.AssetView.ApplyOne | sidestr-core/src/assets.rs:288-331 | spends the inputs either way and places the assignments only of a transaction that kept the rule |
| AssetViews.AssetView.ApplyTransactions | sidestr-core/src/assets.rs:281-334 | the view after a list of transactions, and each one's outcome with what its inputs carried |
| AssetViews.SumInto | sidestr-core/src/assets.rs:127-132 | adds one carry into running saturating totals |
| CollateralCoins.SumCarries | sidestr-core/src/pool.rs:207-211 | saturating addition in any order is the true total saturated once |
| CollateralCoins.SpentExact | sidestr-core/src/pool.rs:83-92 | the coins of a book that a transaction spends: none, one and only one, or more, exactly as its inputs say |
| PoolArithmetic.Isqrt | sidestr-core/src/pool.rs:248-259 | Newton's loop returns the exact root of every 128-bit value, without overflow |
| PoolArithmetic.CheckTransition | sidestr-core/src/pool.rs:213-246 | in 128-bit arithmetic, for every 64-bit pool and step, the verdict is the rule's, and it stops where a product does not fit or a side is empty |
| PoolArithmetic.StopsExactly | sidestr-core/src/pool.rs:213-246 | for a pool that holds both sides, no step overflows or divides by zero except a swap, exactly when one of its two products needs more than 128 bits |
| PoolArithmetic.StopsOnlyOutOfRange | sidestr-core/src/pool.rs:213-246 | from an in-range pool a step stops if and only if it is a swap whose new product does not fit; to an in-range pool none does |
| PoolArithmetic.SwapThatStops | sidestr-core/src/pool.rs:220-226 | a swap of the smallest pool to the largest 64-bit value beside twenty million million units |
| PoolArithmetic.TransitionExact | sidestr-core/src/pool.rs:213-246 | the rule without its divisions: exactly the swaps that keep the product after the fee, the adds that mint at most their share, the removes that take at most theirs |
| PoolArithmetic.FeeIs | sidestr-core/src/pool.rs:216-226 | what comes in counts 997 parts in 1000, what was there in full, in 128 bits |
| PoolArithmetic.ValuePerShareNeverFalls | sidestr-core/src/pool.rs:213-246 | an admitted swap, add or remove never lowers sats times assets per squared share |
| PoolArithmetic.SharesWithinValue | sidestr-core/src/pool.rs:213-246 | squared shares stay within sats times assets |
| PoolArithmetic.ZeroStaysZero | sidestr-core/src/pool.rs:213-246 | a pool whose shares reach zero stays at zero |
| PoolArithmetic.OpeningSharesFit | sidestr-core/src/pool.rs:127-134 | the opening share supply of any two 64-bit amounts fits |
| Pools.PoolView.Apply | sidestr-core/src/pool.rs:67-72 | inserts a pool's new state and forgets its old coin |
| Pools.PoolView.Check | sidestr-core/src/pool.rs:74-189 | the rule's branches, as run, compute the rule |
| Pools.CheckedPool | sidestr-core/src/pool.rs:74-189 | a passed transaction touches no pool, opens one, or recreates the one whose coin it spends, on a coin carrying exactly its asset |
| Pools.RuleExact | sidestr-core/src/pool.rs:74-189 | the rule, exactly: a transaction passes if and only if it has no record and spends no pool coin, or opens one pool spending none, or spends one pool's coin alone and recreates it with its one record; a coinbase only without a record |
| Pools.OpeningExact | sidestr-core/src/pool.rs:114-148 | a pool opens if and only if its coin carries one other asset and the shares tallied are the whole root of the product |
| Pools.ContinuingExact | sidestr-core/src/pool.rs:149-188 | a spent pool continues if and only if its coin is recreated with its asset, the shares move by the units in and out, each counted up to 64 bits, and the step is admitted |
| Pools.InRangeNeverHalts | sidestr-core/src/pool.rs:74-189 | with every amount in range and every pool sound no check panics, and what passes leaves every pool sound |
| Pools.OpeningSound | sidestr-core/src/pool.rs:114-148 | an opening pool has squared shares within its value and sits on its own transaction |
| Pools.ContinuingSound | sidestr-core/src/pool.rs:149-188 | a recreated pool stays sound and keeps its value per share |
| Markets.MarketView.Apply | sidestr-core/src/markets.rs:93-98 | inserts a market's new state and forgets its old coin |
| Markets.MarketView.Check | sidestr-core/src/markets.rs:100-326 | the rule's branches, as run, compute the rule |
| Markets.CheckedMarket | sidestr-core/src/markets.rs:100-326 | a passed transaction touches no market, opens one on a coin that carries nothing, or moves the one whose coin it spends as its record says |
| Markets.RuleExact | sidestr-core/src/markets.rs:100-326 | the rule, exactly: a transaction passes if and only if it has no record, no question and spends no market coin, or opens a market spending none, or spends one market's coin alone and moves it with its one record; a coinbase only without either |
| Markets.SettleMoves | sidestr-core/src/markets.rs:240-325 | what split, merge and redeem conclude from saturated sums holds of the true totals |
| Markets.OpeningExact | sidestr-core/src/markets.rs:138-181 | a market opens if and only if its coin carries nothing, it has one question, a future expiry and some grace, and the transaction issues nothing and opens no pool |
| Markets.SettleExact | sidestr-core/src/markets.rs:240-325 | a split, merge or redemption passes if and only if it moves the collateral and the two sides, each counted up to 64 bits, as its kind must and, to refund, comes above the expiry plus the grace |
| Markets.RedemptionPasses | sidestr-core/src/markets.rs:288-325 | from a solvent market with something to spare, taking in units outstanding and leaving a coin smaller by their worth passes |
| Markets.ResolveMoves | sidestr-core/src/markets.rs:202-239 | resolving keeps the coin's value, takes an input locked to the resolver, and names the winner |
| Markets.ResolveExact | sidestr-core/src/markets.rs:202-239 | resolving passes if and only if the market is open, the height is at most the expiry plus the grace, some input is locked to the resolver, and one `OP_TRUE` output of the same value carries nothing |
| Markets.OneWindow | sidestr-core/src/markets.rs:202-317 | at no height can a market both be answered and start refunding |
| Markets.SolventStep | sidestr-core/src/markets.rs:138-326 | every passed action keeps a solvent market solvent, with as much to spare as before |
| Overlays.ValidatedIsStepped | sidestr-core/src/overlays.rs:123-210 | judging a block rule by rule and transaction by transaction are the same judgement with the same views |
| Admission.StepExact | sidestr-core/src/overlays.rs:123-210 | a transaction passes the three rules if and only if it keeps the assets rule with the mints there are, and the pool rule and the running market rule each admit what it touches |
| Admission.BlockExact | sidestr-core/src/overlays.rs:123-210 | a block passes if and only if its coinbase has no record of a rule that runs and each later transaction passes on what the ones before leave, under the mints the block started from |
| Solvency.OnlySplitsMint | sidestr-core/src/overlays.rs:35-62 | neither side of a known market is exempt from conservation unless a split names the market |
| Solvency.KnownMarketSolvent | sidestr-core/src/markets.rs:138-326 | a known market stays solvent through any transaction that passes the three rules, mints included |
| Solvency.GoodAfter | sidestr-core/src/overlays.rs:123-210 | a transaction that passes the three rules keeps every cross-view invariant |
| OverlayRuns.MarketsAlwaysSolvent | sidestr-core/src/markets.rs:138-326 | in every state of every run, with the positive opening deposit left over: open, each side within the collateral; resolved, the winner's total within it; refunding, both within twice it; never resolved and refunding |
| Admission.SplitPasses | sidestr-core/src/overlays.rs:51-58 | in every state of every run, a transaction that takes a market's coin, recreates it larger by any n from 1 and tallies of each side what it takes in plus n, on outputs that stand, passes the three rules |
| Admission.PoolStepPasses | sidestr-core/src/overlays.rs:39-50 | in every state of every run, an honest swap, add or remove of a pool passes, shares minted included, and leaves the pool so |
| Admission.PoolOpeningPasses | sidestr-core/src/overlays.rs:39-50 | in every state of every run, an honest opening of a pool passes, its shares minted |
| Redemption.HoldersArePaid | sidestr-core/src/markets.rs:288-325 | in every state of every run, any redemption of a resolved market, or above the expiry plus the grace, passes the three rules, whatever units it takes in, and leaves the rest of the collateral on the new coin |
| Redemption.EveryCoinRedeems | sidestr-core/src/markets.rs:288-325 | for every coin outside the pools whose units are worth something, the two-input transaction that spends it with the market's coin is such a redemption; what it is worth and the deposit are within the collateral |
| OverlayRuns.ViewsAgreeWithCoins | sidestr-core/src/pool.rs:67-189 | each index is the exact inverse of its book; pool and market coins are unspent, worth what is recorded, and carry exactly their asset or nothing; no coin is both kinds |
| OverlayRuns.PoolsAlwaysSound | sidestr-core/src/pool.rs:114-148 | in every reachable pool squared shares are within sats times assets, inside the arithmetic's bounds |
| OverlayRuns.PoolValueNeverFalls | sidestr-core/src/pool.rs:213-246 | between any two states of a run a pool loses no value per share |
| OverlayRuns.MarketsSettleForGood | sidestr-core/src/markets.rs:202-325 | a resolved market keeps its winner and a refunding one keeps refunding, for ever |
| Sequencing.SequencingRefines | sidestr-core/src/overlays.rs:123-210 | the block of the kept transactions validates and leaves exactly the views sequencing ended with if and only if each kept resolution's resolver input is unspent where it stands and nothing kept is coinbase-shaped |
| Sequencing.SequencingRefinesValidation | sidestr-core/src/overlays.rs:123-210 | from a mempool without conflicts the kept block always validates with exactly those views |
| Sequencing.DroppedWouldBeRefused | sidestr-core/src/overlays.rs:160-205 | each dropped transaction, put at its position, makes a block the rules refuse; so does one the pass panics on |
| Placement.EveryTransactionPlaced | sidestr-core/src/overlays.rs:123-210 | each transaction the pass reaches is in exactly one of the kept and the dropped, both in mempool order, and dropped under a rule if and only if that is the first to refuse it on the views the ones before it leave; the pass stops exactly where a check panics |
| Sequencing.InRangeSequences | sidestr-core/src/overlays.rs:123-210 | from sound pools, a mempool with every amount in range never makes the pass panic |
| ContestedResolver.KeptTogetherRefused | sidestr-core/src/overlays.rs:123-210 | a concrete mempool whose two kept transactions spend one resolver coin, and whose block is refused |
| OverlayRules.Candidate.Judge | sidestr-core/src/overlays.rs:150-196 | the three rules on any one transaction, in order, changing nothing: the first refusal, a panic of the pool check, or what each finds |
| OverlayRules.Applied.Sequence | sidestr-core/src/overlays.rs:123-210 | the producer's loop over any mempool computes the sequencing function, stops where a check panics, and leaves the applied views alone |
| HeldViews.AssetsCandidate | sidestr-core/src/assets.rs:447-492 | the candidate view and traces of a block, a refusal, or a panic, for any list of transactions |
| HeldViews.AssetsHaltExactly | sidestr-core/src/assets.rs:470-482 | the walk panics if and only if some coinbase-shaped transaction after the first has only passing ones before it; and passes no list that has one |
| HeldViews.PoolsCandidate | sidestr-core/src/pool.rs:299-315 | the pool rule over a block's traces, whoever's they are: the pools left, a refusal, or a panic |
| HeldViews.MarketsCandidate | sidestr-core/src/markets.rs:394-434 | the market rule over a block's traces and resolved scripts |
| HeldViews.FoundOffered | sidestr-core/src/assets.rs:534-537 | after an offer its hash finds the new entry, whatever was held under it, and every other hash finds what it did |
| HeldViews.OverlayNode.CheckBlock | sidestr-core/src/assets.rs:525-541 | checking any body moves the held entries as the three rules do one after another, moves no applied view, and passes exactly when the verdict from scratch does |
| HeldViews.CheckedMoves | sidestr-core/src/state.rs:554-597 | what a check leaves held, rule by rule: the pools and the markets judged over the traces held once the assets rule has run, whether or not that passed, until a rule panics |
| HeldViews.OverlayNode.ApplyBlock | sidestr-core/src/assets.rs:543-560 | what is held under the hash becomes the applied views of the rules that run at the height; those rules forget the rest, an idle market rule keeps it; unheld assets are read as any block's |
| HeldViews.OverlayNode.Answering | sidestr-core/src/state.rs:489-548 | judging moves no applied view; applying a block that passes leaves exactly its verdict on the views the node had |
| HeldViews.AppliedIsVerdict | sidestr-core/src/markets.rs:394-457 | whatever is held and whatever bodies were checked before, under the same hash or not, a passing block applied leaves exactly its own verdict, as long as what is checked in between has other hashes |
| HeldViews.HoldingIsInvisible | sidestr-core/src/state.rs:489-597 | after any calls to judge and apply, from anything held, the applied views are those of judging each applied block from scratch, and each call passes exactly when that does |
| SharedHash.HashesMustDiffer | sidestr-core/src/assets.rs:525-560 | two bodies under one hash, the second checked after the first passed: applying the first leaves the second's views |
| SharedHash.EntryOutlivesBlock | sidestr-core/src/markets.rs:439-443 | a block below the markets' first height is applied and a market entry stays held |
| SharedHash.UnheldIsRead | sidestr-core/src/assets.rs:543-560 | a block held under no entry still registers its issue when applied |
| SharedHash.AppliedForgets | sidestr-core/src/markets.rs:439-457 | applying a block forgets every entry of the rules that run at its height, and none of the others |
| SharedHash.SecondCoinbaseHalts | sidestr-core/src/assets.rs:478-482 | two coinbase-shaped transactions: the check panics and nothing is held |
| SharedHash.SwapCheckHalts | sidestr-core/src/pool.rs:213-246 | a sound pool recreated with the largest 64-bit value: the check panics |
| SharedHash.InRangeBlockAnswers | sidestr-core/src/state.rs:554-597 | from sound pools, a body with every amount in range and no later coinbase-shaped transaction panics no rule, whatever other bodies left held |
| Channel.AppendNum | sidestr-core/src/channel.rs:170-190 | the byte loop writes the minimal push |
| Channel.Write | sidestr-core/src/channel.rs:266-302 | writes a leaf's script, which parses to that leaf |
| Formats.LeafBytes | sidestr-core/src/channel.rs:266-302 | the seven leaves in bytes |
| Formats.LeafValues | sidestr-core/src/channel.rs:309-374 | what a leaf may carry, in numbers: delays of 16 bits, expiries below 500 million, 32-byte hashes and keys on the curve |
| Channel.Reader.Num | sidestr-core/src/channel.rs:224-257 | reads a number exactly when it is in the printed form |
| Channel.RunLocks | sidestr-core/src/channel.rs:325-348 | the expiry and delay before the key, as the cursor meets them |
| Channel.Run | sidestr-core/src/channel.rs:309-374 | returns a leaf exactly when the script is some leaf's, and then that leaf |
| Channel.CodecExact | sidestr-core/src/channel.rs:266-374 | a script parses to a leaf if and only if the leaf is well formed and its script is that script, byte for byte |
| Channel.ScriptsDistinct | sidestr-core/src/channel.rs:266-374 | no script is two leaves' |
| Tapscript.LeafMeans | sidestr-core/src/channel.rs:610-663 | running a leaf's bytes under BIP 342, 65 and 112 succeeds if and only if the items are those the template consumes and meet its conditions |
| ChannelSpending.LocksAreTheOpcodes | sidestr-core/src/channel.rs:587-608 | for operands a template can carry, the two lock checks are the two opcodes |
| ChannelSpending.RunLeaf | sidestr-core/src/channel.rs:714-770 | the leaf's branch succeeds exactly when its script runs to success, and the budget never runs out |
| ChannelSpending.VerifyChannelInput | sidestr-core/src/channel.rs:664-777 | accepts exactly the script-path spends of channel leaves the interpreter accepts, reveals the preimage, and never refuses for budget |
| Formats.ScriptPathIs | sidestr-core/src/channel.rs:664-777 | a script-path spend, in numbers: the output, the annex, the leaf version, the item sizes, and the budget |
| Formats.SignatureIs | sidestr-core/src/channel.rs:528-585 | a signature is 64 bytes over the default message, or 65 with a hash type that is not zero |
| Formats.WitnessSizeIs | sidestr-core/src/channel.rs:514-526 | the size the budget counts is the serialised witness's |
| Timelocks.CoinsStayBelowTip | sidestr-core/src/rules.rs:870-900 | in every reachable state no coin is younger than the tip |
| Timelocks.TimelocksEnforced | sidestr-core/src/channel.rs:587-608 | along every accepted run an input verified on a channel leaf is at least the delay above its coin and above the expiry |
| Timelocks.AdmittedFromThreshold | sidestr-core/src/channel.rs:804-824 | with no overflowing lock, finality and sequence locks pass at a height exactly when it is at least every input's earliest |
| Timelocks.EarliestExact | sidestr-core/src/channel.rs:804-824 | an input has an earliest height exactly when no lock in force counts time |
| Timelocks.ThresholdIsExact | sidestr-core/src/channel.rs:804-824 | that holds at every height if and only if no lock in force ends beyond the last height |
| Timelocks.LowCoinsNeverOverflow | sidestr-core/src/channel.rs:804-824 | coins at least 65535 below the last height never overflow |
| Timelocks.LocksMatured | sidestr-core/src/state.rs:719-728 | the mempool's loop admits exactly the transactions whose earliest heights have come |
| WitnessCodec.EncodeWitness | sidestr-core/src/block.rs:487-494 | the count, then each item behind its length |
| WitnessCodec.DecodeWitness | sidestr-core/src/block.rs:501-514 | returns items exactly when the bytes are the encoding of some witness within the limits |
| WitnessCodec.WitnessCodecExact | sidestr-core/src/block.rs:449-514 | bytes decode to items if and only if they are the items' encoding, with at most 256 items each below 2^32 bytes |
| Formats.WitnessBytes | sidestr-core/src/block.rs:487-514 | the limits in numbers: at most 256 items, each below 2^32 bytes |
| WitnessCodec.EncodingsDistinct | sidestr-core/src/block.rs:487-514 | no two witnesses within the limits share their bytes |
| Formats.CompactBytes | sidestr-core/src/block.rs:449-464 | a length in one byte to 252, or 0xfd and two bytes, or 0xfe and four, least first |
| Sealing.CommitmentIndex | sidestr-core/src/block.rs:523-533 | the commitment output is the last one of its shape |
| Formats.SolutionBytes | sidestr-core/src/block.rs:548-573 | what the push behind a block's commitment holds: the header and the encoded witness |
| Formats.PushBytes | sidestr-core/src/block.rs:575-593 | one push: its length to 75, one length byte to 255, two to 65535, and none longer |
| Formats.StrippedBytes | sidestr-core/src/block.rs:597-605 | the coinbase's last commitment is cut to 38 bytes and nothing else changes |
| Formats.SignedPrefixBytes | sidestr-core/src/block.rs:262-264 | the signed prefix is version, previous hash, merkle root and time, in 72 bytes |
| Formats.VirtualTransactions | sidestr-core/src/block.rs:649-692 | the two virtual transactions, field by field |
| Sealing.SolutionReadBack | sidestr-core/src/block.rs:548-593 | the witness put in a block reads back if and only if it has at most 256 items |
| Sealing.SolutionReinserted | sidestr-core/src/block.rs:548-593 | a block's own solution put back gives the same block if and only if its push has the smallest form |
| Sealing.SealingKeepsTheSigned | sidestr-core/src/block.rs:613-632 | any sealing keeps the block data and the template id, and its root is its own transactions' |
| Sealing.ResealedAlike | sidestr-core/src/block.rs:930-959 | any two sealings of a block, or a re-sealing of a sealed one, share block data and template id |
| Sealing.PreimageNames | sidestr-core/src/block.rs:943-958 | two equal template preimages agree on the chain, the genesis, the height, the previous hash and the body |
| Formats.TemplateIdIs | sidestr-core/src/block.rs:930-959 | a template id, part by part: the chain, the genesis or zeros, the height, the previous hash, and the stripped block with its own root and nonce 0 |
| Sealing.SealBlock | sidestr-core/src/block.rs:966-982 | the nonce loop finds the least nonce that meets the target, or there is none |
| Heights.PushHeight | sidestr-core/src/block.rs:693-709 | the byte loop writes the height's push |
| Heights.HeightReadsBack | sidestr-core/src/block.rs:693-753 | every pushed height, before any marker, is read back by the node and, from height 1, by the height rule |
| Heights.HeightReadersAgree | sidestr-core/src/rules.rs:579-593 | the lenient reader agrees with the strict one exactly where the script does not open with `OP_0` |
| MultiALeaf.LeafScript | sidestr-core/src/federation.rs:107-125 | writes the leaf, refusing exactly the bad numbers |
| Formats.FederationLeafBytes | sidestr-core/src/federation.rs:107-125 | the leaf in bytes, place by place |
| Formats.FederationNumbers | sidestr-core/src/federation.rs:107-125 | 1 to 16 signers, a threshold between 1 and their number, 32-byte keys on the curve |
| MultiALeaf.ParseMultiA | sidestr-core/src/federation.rs:129-150 | the exact inverse of the writer, and nothing for any other script |
| MultiALeaf.LeavesDistinct | sidestr-core/src/federation.rs:107-150 | no script is two federations' leaf |
| MultiALeaf.MultiAMeans | sidestr-core/src/federation.rs:509-565 | running the leaf's bytes succeeds if and only if there is one slot per signer, each empty or validly signed, and exactly `k` filled |
| Federation.NewFederation | sidestr-core/src/federation.rs:180-203 | derives a federation, refusing exactly bad numbers, a signer listed twice and a failed key |
| Formats.FederationOutput | sidestr-core/src/federation.rs:180-203 | the challenge is the taproot output of the tweaked key, the control block the version with its parity, then the internal key |
| Federation.AssembleWitness | sidestr-core/src/federation.rs:331-363 | the slots reversed, then the leaf and the control block |
| Federation.SlotsAre | sidestr-core/src/federation.rs:331-363 | each slot holds its signer's signature exactly when the signer is among the first `k` present in leaf order |
| Federation.EnoughAssemble | sidestr-core/src/federation.rs:331-345 | a witness is assembled exactly when at least `k` signers' signatures are held |
| Federation.FilledIsRank | sidestr-core/src/federation.rs:331-363 | exactly `k` slots are filled |
| Federation.CheckSlots | sidestr-core/src/federation.rs:513-559 | passes exactly when every slot is empty or verifies, counts the filled ones, and never runs out of budget |
| Federation.VerifyMultiAInput | sidestr-core/src/federation.rs:466-572 | accepts exactly the script-path spends of `multi_a` leaves the interpreter accepts, and says who signed |
| FederatedSealing.VerifyBlockSolution | sidestr-core/src/block.rs:1042-1062 | reads the solution, builds the virtual transaction, and picks the path by the number of items |
| Formats.KeyPathIs | sidestr-core/src/block.rs:1042-1062 | the key path is for a witness of one item or none, its annex aside |
| FederatedSealing.FederationSeals | sidestr-core/src/federation.rs:331-373 | when every signature held for a signer is valid over the unsealed block, the block sealed with the assembled witness satisfies the challenge, with exactly the first `k` present signers' slots filled |
| FederatedSealing.OnlyTheFederationSeals | sidestr-core/src/block.rs:1042-1062 | a block that satisfies the challenge carries exactly `k` valid signatures by distinct signers over its block data, and what they spend is spent for no other block or challenge unless hashes collide on the two |
| FederatedSealing.SpentNames | sidestr-core/src/block.rs:649-675 | two signings that spend one outpoint have one block data and one challenge, unless the two ids collide |
| FederatedSealing.DataNames | sidestr-core/src/block.rs:597-632 | equal block data is equal version, previous hash, time and stripped transactions, unless hashes collide on the two blocks |
| FederatedSealing.SignedForOneBlock | sidestr-core/src/federation.rs:274-329 | one message signed over two blocks is over the same block and challenge, unless something collides |
| TapTree.BranchForgetsOrder | sidestr-core/src/pegtweak.rs:260-268 | a branch is the same whichever child comes first |
| TapTree.BranchSorts | sidestr-core/src/pegtweak.rs:260-268 | the child with the smaller first differing byte is hashed first, wherever it stands |
| TapTree.ThreeLeaves | sidestr-core/src/pegtweak.rs:249-272 | of three leaves the first two are paired, and their branch with the third |
| TapTree.RaiseLevel | sidestr-core/src/pegtweak.rs:249-272 | one round pairs neighbours, carries an odd one up, and keeps every leaf folding to its node |
| TapTree.Build | sidestr-core/src/pegtweak.rs:232-282 | for every non-empty list every leaf hashed through its path gives the tree's root |
| Disagreements.LongMarkerUnread | sidestr-core/src/marker.rs:138-154 | a marker of 256 bytes is written and not read |
| Disagreements.ZeroHeightUnread | sidestr-core/src/rules.rs:579-593 | a coinbase script of one zero byte is height 0 to one reader and none to the other |
| Disagreements.LongPushNotPutBack | sidestr-core/src/block.rs:548-593 | an empty witness behind a push one byte too long is read, and putting it back gives another block |
| Disagreements.ManyItemsUnread | sidestr-core/src/block.rs:548-593 | 257 empty items are written into a block that then reads as unsolved |
| Disagreements.LockNeverEnds | sidestr-core/src/channel.rs:804-824 | a lock of five blocks on a coin at the last height: its earliest height is the last, where the block rules refuse it |

## Left out

- The pool's recorded shares against the share units carried: the mint policy admits assignments of an existing pool's share id in any transaction, so neither bounds the other; the pool theorems are about the record.
- The asset entries a new market registers for its two sides: they record a ticker and a height and no rule reads them.
- An allowance rule that lets a coinbase pay more than fees and claims: the supply theorem is about chains that name none.
- Rules that only refuse more blocks: proof of work, header rules, merkle root, weight, signature operations, the witness commitment, input signatures on ordinary coins.
- Transactions.ParseAssigns: the text of a tally comes already cut into pieces and its numbers read; the text grammar is not modelled.
- Chain.Node.Judge: scripts and input signatures, the witness commitment, header rules, the merkle root, weight and the block signature are not part of it; they only refuse more blocks.
- Chain.Node.Apply: that the block links to the tip, the header chain, the promised hash and the mempool's upkeep are not part of it.
- PoolArithmetic.CheckTransition: stops as a build with overflow checks does; one without them would compare the product's low bits. Either way the block is already failed by the money limit.
- A block without transactions, on which the context rules panic before any overlay rule runs.
- The text grammar of records, JSON documents, error texts and bech32.
- Elliptic-curve arithmetic, Schnorr, SHA-256 and the layout of signature messages, which are parameters.
- Leaf versions, annex contents and key lengths beyond what the two verifiers decide; the interpreter has only the opcodes the leaves use.
- The genesis block's own records, which the node discards, and its asset records, which come with a coinbase that has none.
- Locks shared between threads: each held view is a field changed by one method at a time, and a panic leaves it as it was.
- The EVM and Liquid crates, the agents, wallets, file stores and RPC clients.
