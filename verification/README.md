# AutoMint: a verified model

Five Soroban contracts and an event indexer, modelled in Dafny. Each contract is modelled twice: as a plain
specification on values (`MarketSpec`, `TokenSpec`, `NftSpec`, `AccrualRuns`, `IndexerSpec`, `Registry`) about which the
properties over runs are proved, and as a class that rewrites its storage step by step, with the source's loops
and maintained indexes (`MarketContract`, `AmtToken`, `BotNft`, `AccrualContract`, `IndexerDb`, `Registry`),
whose methods are proved to do what the specification says, error for error. What each call needs and does is stated
once more on the stored entries alone, without the specification's own helpers, for the marketplace in `MarketSuccess`
and `MarketEffects`, for the token in `TokenCalls` and for bot_nft in `NftCalls`.

How the system is represented:

- A call that fails leaves no trace, as the host rolls it back: an entry point is `Ok(new state)` or `Err`, and a
  class method that fails ends in the state it began in.
- `Context` carries who signed a call, the ledger sequence and the time. A missing signature is `AuthFailed`.
- Fixed-width integers are subset types, with saturating and checked operators written out.
- bot_nft's callback to the marketplace is best effort: every transfer out of escrow takes a flag saying whether it
  ran, and everything is proved for both values.
- The marketplace contract signs nothing except its own legs. When it is pointed at another bot_nft contract, that
  contract has sound state and no operator for the marketplace.
- Every currency is a token with the behaviour of this repository's own token contract.
- The indexer's RPC node is a chain of events, asked for a range of ledgers; a poll may die before the insert or
  between insert and checkpoint.

`{:induction false}` marks the lemmas that carry their own induction and those to which Dafny would otherwise apply
automatic induction.

Where the code does not do what one would expect, the exact condition is proved, with a concrete run or record:

- Accepting an offer for a listed bot logs only `offer_acc`. If the callback does not run, the listing stays active in
  the indexer's tables for ever; otherwise the tables are exact (`Projection.ViewExactIff`,
  `StaleView.SoldListingStaysInView`).
- The documentation promises that every accepted price earns a fee. The fee is taken at the rate in force when a sale
  settles: it is earned if and only if the price is at least the default minimum of that rate
  (`MarketFees.SaleEarnsFeeIff`, `MarketFees.OfferEarnsFeeIff`). An explicit minimum below that default breaks the promise,
  and so does a fee lowered after a price was accepted (`MarketFees.LowMinimumEarnsNothing`,
  `MarketFees.LoweredFeeEarnsNothing`); minimums at least that default keep it over every run
  (`MarketFees.EverySettlementEarns`).
- Without a configured start ledger, indexing starts at the oldest ledger the node retains. Over every run the log is
  complete if and only if no poll that inserts before a checkpoint exists starts beyond an event that was due
  (`IndexerRuns.CompleteExactlyWithoutHole`, `IndexerRuns.ColdRestartLosesAnEvent`).
- `start_accrual` on an existing record re-prices the open interval, so a paused stretch is paid
  (`AccrualRuns.RestartConservesIff`, `AccrualRuns.PauseIsPaid`). The registry never hears of points that `sync_rate`
  banks: it is credited with everything if and only if every sync meets a record with no whole point pending
  (`AccrualRuns.RegistryComplete`, `AccrualRuns.SyncHidesAPoint`).
- `pending_points` is exact except where the claim saturates (`AccrualSpec.PreviewExactIff`,
  `AccrualSpec.PreviewPromisesTooMuch`). `seconds_to_next_amt` ignores the carried remainder and what is open at the
  query, and may be cut to 64 bits (`AccrualSpec.AnnouncedTimeSuffices`, `AccrualSpec.AnnouncedTimeLeastIff`,
  `AccrualSpec.AnnouncedTimeTooShort`, `AccrualSpec.AnnouncedTimeTooLong`).
- The place of a user who leaves a board is not refilled: over every run of registrations and departures the board is
  exact throughout if and only if nobody on it leaves a registry of more than 100 (`Registry.AlwaysExactIff`,
  `Registry.LeaderLeavesAGap`).
- A batch transfer can be refused although the single transfers would succeed: exactly when there are too many entries
  or the sum, self-payments included, exceeds the balance (`TokenRuns.BatchStricterIff`,
  `TokenRuns.SinglesCanSucceedAlone`).
- A transfer keeps the sum of exact accrual rates; the sum of the rates as reported may change when one of them is cut
  at 64 bits (`NftSpec.TransferKeepsReportedIff`, `NftSpec.TransferHidesRate`).

## Model

| member | source | states |
|---|---|---|
| `MarketTheorems.EscrowIsBacked` | contracts/marketplace/src/lib.rs:560-640 | Main result. In every reachable state of marketplace, bot_nft and tokens, each active listing's bot is owned by the marketplace, unapproved and listed once; in every currency the balance covers accrued fees plus all open offers |
| `MarketInv.RunKeeps` | contracts/marketplace/src/lib.rs:491-2032 | Any run of any calls of any party (outside bot_nft and token calls included, callback delivered or not) keeps custody, solvency, sound ledgers and exact pages, and no currency's surplus ever shrinks |
| `MarketInv.StepKeeps` | contracts/marketplace/src/lib.rs:491-2032 | One step of any entry point keeps the joint invariant of the three contracts |
| `MarketInv.GenesisInv` | contracts/marketplace/src/lib.rs:393-430 | A freshly initialised marketplace beside sound contracts satisfies the invariant |
| `MarketInv.BuyKeeps` | contracts/marketplace/src/lib.rs:696-893 | A purchase keeps the invariant: the legs leave behind exactly the fee they book |
| `MarketInv.AcceptKeeps` | contracts/marketplace/src/lib.rs:1713-1828 | Accepting an offer keeps the invariant, whether the bot came from escrow or from the seller, with or without the callback |
| `MarketInv.MakeOfferKeeps` | contracts/marketplace/src/lib.rs:1615-1696 | An offer enters with exactly its amount in escrow |
| `MarketInv.CancelOfferKeeps` | contracts/marketplace/src/lib.rs:1841-1861 | A withdrawn offer leaves with exactly its amount |
| `MarketInv.WithdrawKeeps` | contracts/marketplace/src/lib.rs:1949-1984 | Withdrawing fees keeps the invariant |
| `MarketInv.CompactKeeps` | contracts/marketplace/src/lib.rs:1177-1203 | Compacting a page keeps every active id and the order of the index |
| `MarketInv.EscrowUntouchable` | contracts/bot_nft/src/lib.rs:813-860 | No call on bot_nft from outside can move an escrowed bot, approve it or burn it, so listing and bot stay together |
| `MarketInv.OutsideCallbackIsInert` | contracts/marketplace/src/lib.rs:1085-1103 | A callback caused by an outside transfer never retires a listing |
| `MarketInv.TokenCallKeeps` | contracts/token/src/lib.rs:259-539 | No outside token call can reduce what the marketplace holds |
| `MarketTheorems.BuyNeverStale` | contracts/marketplace/src/lib.rs:743-769 | In every reachable state a purchase never ends in ListingStale or BotTransferFailed: those branches are dead |
| `MarketTheorems.CancelAlwaysOpen` | contracts/marketplace/src/lib.rs:897-960 | In every reachable state, paused or not, the seller's cancel succeeds, returns the bot and closes the listing |
| `MarketTheorems.CancelOfferAlwaysOpen` | contracts/marketplace/src/lib.rs:1841-1861 | In every reachable state the buyer's withdrawal refunds the whole amount; it fails exactly when the currency itself is paused |
| `MarketSuccess.BuySucceedsIff` | contracts/marketplace/src/lib.rs:696-893 | In every reachable state a purchase succeeds if and only if it is signed, the marketplace and the currency run, the listing is active, unexpired, another's and in an allowed currency, the buyer holds the price, and the sales record has room |
| `MarketSuccess.CancelOfferSucceedsIff` | contracts/marketplace/src/lib.rs:1834-1861 | In every reachable state an open offer can be withdrawn by its buyer at any time and by anybody after expiry, unless its currency is paused; and in no other case |
| `MarketSuccess.DismissSucceedsIff` | contracts/marketplace/src/lib.rs:1869-1907 | In every reachable state an open offer can be dismissed by the admin and by whoever can dispose of the bot, unless its currency is paused; and in no other case |
| `MarketSuccess.AcceptSucceedsIff` | contracts/marketplace/src/lib.rs:1706-1823 | In every reachable state an acceptance succeeds if and only if it is signed, the marketplace runs, the offer is open, unexpired, somebody else's and in an allowed currency, the signer holds the bot or is the seller of its active listing, the currency runs (or the fee is 100 % and nothing is to be paid), and the sales record has room |
| `MarketSuccess.CancelSucceedsIff` | contracts/marketplace/src/lib.rs:897-960 | In every reachable state, for every caller: a cancel succeeds if and only if the caller signed and is the seller of the active listing |
| `MarketSuccess.RepriceSucceedsIff` | contracts/marketplace/src/lib.rs:1029-1081 | A reprice succeeds if and only if the seller of the active listing signed, the marketplace runs, and the price is at least the explicit minimum, or without one earns a fee if any price does |
| `MarketSuccess.ListSucceedsIff` | contracts/marketplace/src/lib.rs:491-671 | The same for a listing: signed by the owner of the bot, below the listing cap, duration and price in bounds, currency allowed, room for the id |
| `MarketSuccess.MakeOfferSucceedsIff` | contracts/marketplace/src/lib.rs:1601-1696 | The same for an offer: not on a bot the buyer holds or has listed, below the offers per bot, deadline in bounds, escrow covered |
| `MarketSuccess.WithdrawSucceedsIff` | contracts/marketplace/src/lib.rs:1949-1984 | A withdrawal succeeds if and only if the admin signed, the amount is positive and within the booked fees, and the currency runs |
| `MarketSuccess.SetBotNftSucceedsIff` | contracts/marketplace/src/lib.rs:1375-1400 | A rotation succeeds if and only if the admin signed, no listing is active and the contract answers |
| `MarketEffects.ListingLifecycle` | contracts/marketplace/src/lib.rs:491-1828 | Main result. In every reachable state, whatever anybody does, an active listing stays on its terms, or is repriced by its seller, or its bot goes home at the seller's wish or after expiry, or it goes to a buyer whose money seller, minter and platform got by their rates |
| `MarketEffects.NothingWithoutAdmin` | contracts/marketplace/src/lib.rs:443-487 | Over every run that the admin signs nothing of, no setting changes and no booked fee leaves |
| `MarketEffects.CancelReturns` | contracts/marketplace/src/lib.rs:897-960 | A cancel gives the bot back to the seller of the listing, retires it, logs that, and writes nothing else |
| `MarketEffects.ReclaimReturns` | contracts/marketplace/src/lib.rs:965-1020 | The same for a reclaim |
| `MarketEffects.ListEscrows` | contracts/marketplace/src/lib.rs:560-671 | A listing takes the bot in, unapproved, under the next id at the end of the index, with the asked price and an expiry after the asked duration, and writes nothing else |
| `MarketEffects.OfferEscrows` | contracts/marketplace/src/lib.rs:1649-1696 | An offer moves exactly its amount from the buyer into escrow and writes nothing else beside the offer |
| `MarketEffects.CancelOfferRefunds` | contracts/marketplace/src/lib.rs:1841-1861 | A withdrawn offer moves exactly its amount back to its buyer, whoever called, and is closed |
| `MarketEffects.DismissRefunds` | contracts/marketplace/src/lib.rs:1869-1907 | The same for a dismissed offer |
| `MarketEffects.WithdrawPays` | contracts/marketplace/src/lib.rs:1949-1984 | A withdrawal moves exactly the amount to the named account and off the fee ledger |
| `MarketEffects.BuyHands` | contracts/marketplace/src/lib.rs:696-893 | A purchase: bot, money, listing and sales record as stated, and nothing else in any contract is different |
| `MarketEffects.AcceptHands` | contracts/marketplace/src/lib.rs:1713-1828 | An acceptance: the same, with the offer closed |
| `MarketTheorems.ReclaimExactlyAfterExpiry` | contracts/marketplace/src/lib.rs:965-1020 | Anyone can send an escrowed bot home if and only if its listing has expired |
| `MarketTheorems.FeesNeverTouchEscrow` | contracts/marketplace/src/lib.rs:1949-1984 | A withdrawal succeeds exactly within the accrued fees of an unpaused currency and leaves every offer and its escrow alone |
| `MarketTheorems.BuyPaysExactly` | contracts/marketplace/src/lib.rs:771-863 | A purchase takes the price from the buyer: the platform books the floor of its rate, the minter gets the floor of the royalty rate unless they sell themselves, the seller gets the rest, and no other account changes; one more sale at this price is on record |
| `MarketTheorems.AcceptPaysExactly` | contracts/marketplace/src/lib.rs:1759-1823 | An accepted offer pays out in the same parts, and the buyer gets the bot, out of the account or the active listing of the seller who signed |
| `MarketTheorems.OfferLifecycle` | contracts/marketplace/src/lib.rs:1601-1907 | One step leaves an offer alone, refunds it in full, or pays it out; nothing else can happen to it |
| `MarketTheorems.ClosedForGood` | contracts/marketplace/src/lib.rs:1601-1907 | Over every run a closed offer never changes again: its escrow leaves exactly once |
| `MarketTheorems.ActiveBounded` | contracts/marketplace/src/lib.rs:2162-2199 | Custody and the tier cap bound the active listings by 250, so the saturating counters never saturate |
| `MarketLegs.ExitRetires` | contracts/marketplace/src/lib.rs:2179-2199 | An escrow exit always succeeds and ends in the same books whether or not the callback retired the listing first |
| `MarketSpec.SplitDivides` | contracts/marketplace/src/lib.rs:771-799 | Fee, royalty and payout are non-negative and add up to the price |
| `MarketTheorems.SplitIsFloors` | contracts/marketplace/src/lib.rs:771-799 | Fee and royalty are the floors of price times rate, the royalty is waived for a minter who sells, and the rest is the payout |
| `Fees.BpsOfIsFloor` | contracts/marketplace/src/lib.rs:2009-2019 | For every non-negative i128 amount and rate up to 10000, bps_of does not overflow and is the floor of the exact product (tests that expect Overflow at the maximum predate this code) |
| `Fees.SplitIsExact` | contracts/marketplace/src/lib.rs:771-799 | With rates that sum to at most 10000 the seller's part is non-negative and all parts add up to the price |
| `Fees.DefaultMinPriceIsLeast` | contracts/marketplace/src/lib.rs:2447-2461 | The default minimum price is the least price whose fee is at least 1 |
| `Fees.AcceptedPricesEarnFee` | contracts/marketplace/src/lib.rs:447-461 | Prices held to a minimum when accepted all earn a fee at the rate they settle at if and only if that minimum is at least the default of that rate |
| `MarketFees.SaleEarnsFeeIff` | contracts/marketplace/src/lib.rs:771-840 | A purchase books a fee if and only if the listed price is at least the default minimum of the rate in force at the purchase |
| `MarketFees.OfferEarnsFeeIff` | contracts/marketplace/src/lib.rs:1759-1815 | The same for an accepted offer and its amount |
| `MarketFees.EverySettlementEarns` | contracts/marketplace/src/lib.rs:443-456 | Over any run: while every minimum a listing, reprice or offer was held to is at least the default of the rate in force now, every settlement books a fee; whether a single one does is settled by the two conditions above |
| `MarketFees.RunPriced` | contracts/marketplace/src/lib.rs:491-1696 | Over any run no price that can still settle is below the least minimum that was in force when prices were accepted |
| `MarketFees.RaisedFeeCovered` | contracts/marketplace/src/lib.rs:2447-2461 | A default minimum stays sufficient when the rate is raised |
| `MarketFees.LoweredFeeEarnsNothing` | contracts/marketplace/src/lib.rs:1349-1370 | A concrete run without any explicit minimum: listed at the default at 250, sold at 100, no fee |
| `MarketFees.LowMinimumEarnsNothing` | contracts/marketplace/src/lib.rs:458-487 | A concrete run at one rate: an explicit minimum of 1, sold at 1, no fee |
| `Marketplace.ScanFloor` | contracts/marketplace/src/lib.rs:2244-2259 | One pass over the indexed ids finds the floor of a tier: 0 exactly when it has no active listing, else the least active price and a listing at it |
| `Marketplace.FloorsAfterRetire` | contracts/marketplace/src/lib.rs:2201-2210 | When a listing leaves, only the floor of its own tier can move, and only if it held it |
| `Marketplace.FloorsAfterList` | contracts/marketplace/src/lib.rs:2162-2174 | A new listing can only take the floor of its own tier, by one comparison |
| `Marketplace.FloorsAfterReprice` | contracts/marketplace/src/lib.rs:2213-2225 | A reprice keeps every floor exact although only a holder that went up triggers a rescan |
| `Marketplace.RetireReindexes` | contracts/marketplace/src/lib.rs:2179-2199 | Retiring a listing keeps bot index, both counters, floors and offer lists exact together |
| `Marketplace.ListReindexes` | contracts/marketplace/src/lib.rs:600-640 | Listing a bot keeps all maintained indexes exact together |
| `Marketplace.IdsAfterCursor` | contracts/marketplace/src/lib.rs:2298-2327 | The page walk returns exactly the first max indexed ids above the cursor, though it skips whole pages by their last id |
| `Marketplace.LookupsAgree` | contracts/marketplace/src/lib.rs:2044-2067 | A lookup through the bot index answers what the listings answer |
| `MarketInv.CompactFlattens` | contracts/marketplace/src/lib.rs:1177-1203 | Dropping tombstones from any page keeps all live ids and the ascending order of the concatenated pages |
| `MarketInv.AppendFlattens` | contracts/marketplace/src/lib.rs:2263-2296 | Appending adds the id at the very end of the concatenation, wherever the page boundary falls |
| `MarketIndex.RetireCounts` | contracts/marketplace/src/lib.rs:2562-2586 | Retiring one listing lowers the total and the seller's count by one and no other |
| `MarketIndex.CloseOfferLists` | contracts/marketplace/src/lib.rs:2103-2112 | Removing a closed offer leaves each bot's list with exactly its open offers in order |
| `MarketContract.Contract.Initialize` | contracts/marketplace/src/lib.rs:393-430 | Succeeds exactly once, signed by the admin, with a bot_nft that answers and rates within 100 %; beside sound contracts the invariant holds |
| `MarketContract.Contract.ListBot` | contracts/marketplace/src/lib.rs:491-671 | Step by step does what the specification says, error for error; every index stays exact; no trace on failure; refused while another call is under way |
| `MarketContract.Contract.OnBotMoved` | contracts/marketplace/src/lib.rs:1085-1103 | The callback, from bot_nft only, retires the listing of the moved bot, if it has one, and all its index entries |
| `MarketContract.Contract.SetMinPrice` | contracts/marketplace/src/lib.rs:458-487 | Same, for explicit minimum prices |
| `MarketContract.Contract.SetBotNft` | contracts/marketplace/src/lib.rs:1375-1400 | Rotation to any contract that answers is accepted by the counter exactly when nothing is escrowed; the invariant survives if that contract is sound and has no operator for the marketplace |
| `MarketContract.Contract.BuyBot` | contracts/marketplace/src/lib.rs:696-893 | Same, for purchases: custody check, split, transfer with or without callback, four legs, statistics |
| `MarketContract.Contract.CancelListing` | contracts/marketplace/src/lib.rs:897-960 | Same, for cancellations |
| `MarketContract.Contract.ReclaimExpired` | contracts/marketplace/src/lib.rs:965-1020 | Same, for reclaims |
| `MarketContract.Contract.UpdatePrice` | contracts/marketplace/src/lib.rs:1029-1081 | Same, for reprices |
| `MarketContract.Contract.MakeOffer` | contracts/marketplace/src/lib.rs:1601-1696 | Same, for offers, with the per-bot limit read from the maintained list |
| `MarketContract.Contract.AcceptOffer` | contracts/marketplace/src/lib.rs:1706-1828 | Same, for acceptances |
| `MarketContract.Contract.CancelOffer` | contracts/marketplace/src/lib.rs:1834-1861 | Same, for withdrawals of offers |
| `MarketContract.Contract.DismissOffer` | contracts/marketplace/src/lib.rs:1869-1907 | Same, for dismissals by the admin or by whoever can dispose of the bot |
| `MarketContract.Contract.WithdrawFees` | contracts/marketplace/src/lib.rs:1949-1984 | Same, for fee withdrawals |
| `MarketContract.Contract.SetFeeBps` | contracts/marketplace/src/lib.rs:1349-1370 | Same; fee plus royalty never exceed 100 % |
| `MarketContract.Contract.CompactPage` | contracts/marketplace/src/lib.rs:1177-1203 | Drops exactly the tombstones of one page and returns how many |
| `MarketContract.Contract.DeactivateListing` | contracts/marketplace/src/lib.rs:2179-2199 | Retires a listing once; a second call does nothing |
| `Walk.GetActiveListings` | contracts/marketplace/src/lib.rs:1138-1172 | Returns exactly the active listings between the two cursors, ascending, within limit and scan window; the cursor stands still if and only if nothing is indexed above it |
| `Walk.WalkAll` | contracts/marketplace/src/lib.rs:1125-1172 | The documented client loop ends on a quiet market with all active listings, once each, ascending |
| `Walk.NeverTwice` | contracts/marketplace/src/lib.rs:1125-1172 | However the market changes between calls, a walk never returns a listing twice |
| `Walk.CompleteWalk` | contracts/marketplace/src/lib.rs:1125-1203 | A walk interleaved with any steps, run until nothing is left, returned every listing active at its end, once each, even those listed under way |
| `Walk.SurvivorReturned` | contracts/marketplace/src/lib.rs:1125-1172 | Every listing at or below the last cursor that is active at the end was returned |
| `Walk.RunLater` | contracts/marketplace/src/lib.rs:491-1105 | Over every run ids only grow and a retired listing never becomes active again |
| `TokenRuns.RunSound` | contracts/token/src/lib.rs:259-539 | Over every run balances are non-negative and sum to the supply, the cap holds, and supply changes by exactly what was minted and burned |
| `TokenRuns.ApplySound` | contracts/token/src/lib.rs:259-539 | One call of any entry point keeps the ledger sound and accounts for the supply |
| `TokenRuns.OverflowUnreachable` | contracts/token/src/lib.rs:927-960 | In every reachable state the recipient overflow of a transfer and the supply underflow of a burn are dead branches |
| `TokenSpec.SinglesSettle` | contracts/token/src/lib.rs:284-399 | Running the single transfers of a batch in order gives exactly the batch's settlement, repeats and self-payments included, or fails exactly when a final balance overflows |
| `TokenRuns.BatchAccepted` | contracts/token/src/lib.rs:284-399 | A batch succeeds if and only if its entries are well formed, signed, unpaused and covered in total |
| `TokenRuns.SinglesSucceedIff` | contracts/token/src/lib.rs:259-282 | In a sound ledger the single transfers of a batch all succeed if and only if no amount is negative and each positive one is at most the balance less what earlier entries paid to others |
| `TokenRuns.BatchStricterIff` | contracts/token/src/lib.rs:284-399 | The single transfers succeed and the batch is refused if and only if every entry is affordable in its turn but there are too many of them or the sum exceeds the balance |
| `TokenRuns.SinglesCanSucceedAlone` | contracts/token/src/lib.rs:284-399 | A concrete such batch, with a payment to oneself between two others |
| `TokenRuns.MintRateBound` | contracts/token/src/lib.rs:877-920 | With a fixed limit of M per W ledgers, any k*W consecutive ledgers of any run mint at most (k+1)*M |
| `TokenRuns.MintRateReached` | contracts/token/src/lib.rs:877-920 | The bound is tight: 2M can be minted within W ledgers |
| `TokenRuns.MoveConserves` | contracts/token/src/lib.rs:927-960 | In a sound ledger a transfer succeeds if and only if the sender holds the amount, and conserves the sum |
| `TokenCalls.TakenWithinApproval` | contracts/token/src/lib.rs:401-499 | Over every run that does not approve the pair anew, what a spender takes and what is left of the allowance add up to what was approved |
| `TokenCalls.NothingAfterExpiry` | contracts/token/src/lib.rs:967-1003 | Over every such run nothing is taken once the allowance has expired |
| `TokenCalls.UnsignedLosesNothing` | contracts/token/src/lib.rs:259-539 | Over every run in which an account signs nothing and had approved nobody, its balance never falls |
| `TokenCalls.NothingWithoutAdmin` | contracts/token/src/lib.rs:501-576 | Over every run that the admin signs nothing of, the supply never grows and pause, cap, mint limit and window stay as they are |
| `TokenCalls.TransferFromDoes` | contracts/token/src/lib.rs:401-438 | In a sound ledger a transfer by allowance succeeds if and only if the spender, who is not the owner, signed, the token runs, and an unexpired allowance and the balance cover it; it lowers that one allowance by exactly what it moves, and nothing else changes |
| `TokenCalls.BurnFromDoes` | contracts/token/src/lib.rs:470-499 | The same for a burn by allowance |
| `TokenCalls.TransferDoes` | contracts/token/src/lib.rs:259-282 | In a sound ledger a transfer succeeds if and only if its owner signed, the token runs and the balance covers it, and moves exactly that |
| `TokenCalls.MintDoes` | contracts/token/src/lib.rs:501-539 | In a sound ledger a mint succeeds if and only if the admin signed, the token runs, and what the running window has minted, the cap and i128 leave room for it |
| `TokenCalls.SetMintLimitDoes` | contracts/token/src/lib.rs:543-576 | A new limit takes effect on the window that is running |
| `AmtToken.Contract.TransferBatch` | contracts/token/src/lib.rs:284-399 | The nested credit loops write the same balances as the single transfers in order, or nothing at all |
| `AmtToken.Contract.CollectCredits` | contracts/token/src/lib.rs:298-326 | The collecting loop gathers one credit per distinct recipient and the checked total, or the first error |
| `AmtToken.Contract.WriteCredits` | contracts/token/src/lib.rs:351-382 | Writing each credit once gives the settlement |
| `AmtToken.Contract.Transfer` | contracts/token/src/lib.rs:259-282 | Does what the specification says, error for error, and leaves no trace on failure |
| `AmtToken.Contract.TransferFrom` | contracts/token/src/lib.rs:401-438 | Same; the allowance goes down by exactly what was moved, and a failed transfer restores it |
| `AmtToken.Contract.Burn` | contracts/token/src/lib.rs:440-468 | Same, for burns |
| `AmtToken.Contract.BurnFrom` | contracts/token/src/lib.rs:470-499 | Same, for burns by allowance |
| `AmtToken.Contract.Mint` | contracts/token/src/lib.rs:501-539 | Same, for mints, with cap and window |
| `AmtToken.Contract.SetMaxSupply` | contracts/token/src/lib.rs:692-718 | A cap below the supply is refused |
| `NftSpec.ApplySound` | contracts/bot_nft/src/lib.rs:578-960 | Every entry point keeps ids below the counter and every tier within 50 and its configured cap |
| `NftSpec.MoveMovesRate` | contracts/bot_nft/src/lib.rs:862-920 | A move takes a bot's rate from one owner to the other and no further |
| `NftSpec.TransferKeepsRates` | contracts/bot_nft/src/lib.rs:862-920 | A transfer leaves the sum of all users' exact rates unchanged |
| `NftSpec.TransferKeepsReportedIff` | contracts/bot_nft/src/lib.rs:1268-1277 | The sum of the rates as reported, cut at u64, stays unchanged if and only if both parties have the same room for the bot's rate below the cut |
| `NftSpec.RatesClimb` | contracts/bot_nft/src/lib.rs:338-368 | One call at most doubles a tier's rate, but repeated calls raise it to any u64 |
| `NftSpec.TransferHidesRate` | contracts/bot_nft/src/lib.rs:1268-1277 | A concrete transfer after such a climb: two owners together report half of what they did |
| `NftCalls.UnsignedKeepsBot` | contracts/bot_nft/src/lib.rs:673-960 | Over every run in which an owner signs nothing, a bot that nobody is approved or operator for stays theirs, as it is |
| `NftCalls.NothingWithoutAdmin` | contracts/bot_nft/src/lib.rs:338-408 | Over every run that the admin signs nothing of, caps and rates stay, and no bot above the basic tier appears |
| `NftCalls.TransferFromDoes` | contracts/bot_nft/src/lib.rs:813-860 | A transfer for somebody else succeeds if and only if the signer is an operator of the owner or the unexpired approved account; it leaves nobody approved |
| `NftCalls.MintDoes` | contracts/bot_nft/src/lib.rs:578-646 | A mint succeeds if and only if fewer than 50, and fewer than a configured cap, of the tier are alive and ids are left |
| `NftCalls.MintsNeed` | contracts/bot_nft/src/lib.rs:447-479 | Everybody may mint one basic bot while they own none; the admin may mint any |
| `NftCalls.SetTierRateDoes` | contracts/bot_nft/src/lib.rs:338-368 | The admin may set a rate between half of the present one, rounded down, and twice it, but not zero |
| `NftCalls.SetTierCapDoes` | contracts/bot_nft/src/lib.rs:384-408 | The admin may lift a cap or set one that is at least what is alive |
| `NftCalls.RateIsRaisedIff` | contracts/bot_nft/src/lib.rs:1066-1069 | A bot earns its tier's rate raised by its bonus, rounded down, if and only if bonus and rate fit 64 bits |
| `NftCalls.DefaultsKeepTiersApart` | contracts/bot_nft/src/lib.rs:1066-1069 | At the default rates every bot earns at least three times what any bot of the tier below earns |
| `BotNft.MoveReindexes` | contracts/bot_nft/src/lib.rs:862-920 | A move keeps owner lists and tier index exact |
| `BotNft.MintReindexes` | contracts/bot_nft/src/lib.rs:578-646 | A mint keeps owner lists, ascending tier index and supply counter exact |
| `BotNft.BurnReindexes` | contracts/bot_nft/src/lib.rs:925-960 | A burn keeps them exact too |
| `BotNft.Contract.DoMint` | contracts/bot_nft/src/lib.rs:578-646 | Does what the specification says and keeps every index exact |
| `BotNft.Contract.MintBasic` | contracts/bot_nft/src/lib.rs:447-479 | One basic bot an account, counted over the owner's list |
| `BotNft.Contract.Transfer` | contracts/bot_nft/src/lib.rs:673-696 | Same, for transfers, with the callback decision |
| `BotNft.Contract.TransferFrom` | contracts/bot_nft/src/lib.rs:813-860 | Same, for transfers by approval or operator |
| `BotNft.Contract.Approve` | contracts/bot_nft/src/lib.rs:698-741 | Same, for approvals |
| `BotNft.Contract.SetApprovalForAll` | contracts/bot_nft/src/lib.rs:756-790 | Same, for operators; nothing to do or to sign for oneself |
| `BotNft.Contract.Burn` | contracts/bot_nft/src/lib.rs:925-960 | Same, for burns |
| `BotNft.Contract.SetTierCap` | contracts/bot_nft/src/lib.rs:384-408 | A cap below the live supply is refused |
| `BotNft.Contract.SetTierRate` | contracts/bot_nft/src/lib.rs:338-368 | A rate of zero and a change by more than a factor of two are refused, in saturating arithmetic |
| `BotNft.Contract.GetUserTotalRate` | contracts/bot_nft/src/lib.rs:1268-1277 | The saturating loop returns the true sum of the owner's rates, cut at u64 |
| `BotNft.Contract.RemoveBotFromUser` | contracts/bot_nft/src/lib.rs:1397-1422 | The owner's list loses exactly that id |
| `Projection.ViewIsActivePlusSilent` | indexer/src/db.ts:195-258 | Folding the events of any run shows the active listings and, beside them, exactly the listings retired by an acceptance without callback |
| `Projection.ViewExactIff` | indexer/src/db.ts:195-258 | The view is exact if and only if no accepted offer retired a listing silently |
| `StaleView.SoldListingStaysInView` | indexer/src/db.ts:195-258 | A concrete run: list, offer, accept without the callback; nothing is for sale and the view still offers the listing |
| `Projection.VolumeIsTraded` | indexer/src/db.ts:246-258 | Per-currency volume is the sum of purchase prices; accepted offers are not part of it |
| `ListingFates.RowsTellFates` | indexer/src/db.ts:181-243 | Over every run the indexer has a row for every listing there ever was, and its status says how the listing ended: sold, cancelled, reclaimed, or taken out by an acceptance whose callback arrived |
| `Pipeline.TablesFollowMarket` | indexer/src/db.ts:195-281 | Main result. Through any polls, crashes and restarts that jump over nothing, an indexer that covered everything a market emitted shows its active listings with seller, bot, price and currency, plus exactly those that accepted offers retired silently, and the traded volumes |
| `Pipeline.TablesTellFates` | indexer/src/db.ts:181-281 | The same through any polls, crashes and restarts that jump over nothing |
| `Pipeline.MintedFollowsToken` | indexer/src/db.ts:260-281 | Through any such polls, the indexed total minted by a token is the supply gained plus everything burned |
| `IndexerRuns.ExactlyOnce` | indexer/src/poller.ts:85-155 | From an empty database, any interleaving of polls, stale answers and crashes that jumps over no due event leaves the successful events of one gap-free range, each once and in order, one fold as views, and a checkpoint that never runs ahead |
| `IndexerRuns.PollsCover` | indexer/src/poller.ts:98-155 | The same from any covered state; the start only matters while no checkpoint is saved |
| `IndexerRuns.ContiguousIsSeamless` | indexer/src/poller.ts:85-92 | A start inside or right after what is covered, while no checkpoint is saved, jumps over nothing |
| `IndexerRuns.ConfiguredStart` | indexer/src/poller.ts:85-92 | A configured start ledger is such a start in every run |
| `IndexerRuns.CompleteExactlyWithoutHole` | indexer/src/poller.ts:85-155 | With a start that follows the node's oldest ledger, over every run: the log is complete from the first ledger fetched to the last one covered if and only if, at every poll that got past its insert without a checkpoint, no event had been due in the ledgers dropped meanwhile |
| `IndexerRuns.LostForGood` | indexer/src/poller.ts:85-155 | An event jumped over once is never logged later |
| `IndexerRuns.NeverTwice` | indexer/src/db.ts:402-427 | Whatever is lost, over every run nothing is logged twice and the views are one fold over the log |
| `IndexerRuns.ColdRestartGap` | indexer/src/poller.ts:85-92 | A start beyond what is covered leaves a hole exactly when an event was due in between |
| `IndexerRuns.ColdRestartLosesAnEvent` | indexer/src/poller.ts:85-155 | A concrete run that loses an event: a crash before the first checkpoint, then an outage |
| `IndexerRuns.InsertExtends` | indexer/src/db.ts:402-427 | Inserting any overlapping answer extends the log by exactly what is new |
| `IndexerRuns.GoodIsDue` | indexer/src/poller.ts:98-138 | What is taken from a range of ledgers has an entry for every successful, decodable event in it, by ledger, and no other |
| `IndexerRuns.ReplayIsFold` | indexer/src/db.ts:284-354 | Rebuilding views and totals from the log gives what incremental maintenance gave |
| `IndexerDb.Database.constructor` | indexer/src/db.ts:139-149 | After opening a database of any version, integer ids included, its tables agree with its log if and only if what opening keeps does: an existing total, volumes stamped with this version, and listings beside them with text ids |
| `IndexerDb.Database.MigrateListingIdentifiers` | indexer/src/db.ts:356-394 | Listings with integer ids are replaced by a replay of the log |
| `IndexerDb.Database.InsertEvents` | indexer/src/db.ts:402-427 | The insert loop leaves log and tables as one fold, and counts what was new |
| `IndexerDb.Database.ApplyListingState` | indexer/src/db.ts:195-243 | One event changes the rows as specified |
| `IndexerDb.Database.ApplyDerivedState` | indexer/src/db.ts:260-267 | Tables that agree with a fold agree with the fold of one more event |
| `IndexerDb.Database.MigrateMarketplaceSchema` | indexer/src/db.ts:316-354 | The replay restores agreement from any older tables |
| `IndexerDb.Database.InitializeAggregates` | indexer/src/db.ts:284-308 | The first total is the sum of logged mints; an existing one is kept |
| `IndexerDb.Database.CloseListing` | indexer/src/db.ts:181-188 | A listing never seen gets a row, and every row its final status |
| `IndexerDb.Database.FloorPriceByCurrency` | indexer/src/db.ts:485-506 | Every currency with an active priced row, and only those, with its least price |
| `IndexerDb.Poller.PollOnce` | indexer/src/poller.ts:98-155 | One cycle equals the specified poll, with its order of insert and checkpoint and its counts |
| `IndexerDb.Poller.DecodeAll` | indexer/src/poller.ts:120-138 | Failed and undecodable events are skipped and counted, the rest kept in order |
| `IndexerDb.Poller.ResolveStartLedger` | indexer/src/poller.ts:85-92 | After the checkpoint, else the configured ledger, else the oldest |
| `AccrualRuns.RunConserves` | contracts/accrual/src/lib.rs:353-857 | Main result. Over any run of settle, claim, sync and stop, 3600 * lifetime + leftover plus the open interval is rate times time over all segments, plus what restarts re-priced; carry plus redeemed is lifetime; leftover < 3600 |
| `AccrualRuns.ScheduleIndependence` | contracts/accrual/src/lib.rs:531-702 | With the same rate history, any two schedules ending in a claim give the same lifetime, leftover, carry and tokens |
| `AccrualRuns.ScheduleOutcome` | contracts/accrual/src/lib.rs:531-702 | The outcome in closed form: quotient and remainder of the point-seconds by 3600 and by points_per_amt |
| `AccrualRuns.RestartConservesIff` | contracts/accrual/src/lib.rs:407-423 | A start on an existing record keeps what is owed if and only if the rate is unchanged or nothing is open |
| `AccrualRuns.PauseIsPaid` | contracts/accrual/src/lib.rs:407-423 | A concrete run: stopped time is paid after a restart |
| `AccrualRuns.RateFromThen` | contracts/accrual/src/lib.rs:353-868 | After a step, point-seconds are earned at the rate it set: the reported one after a sync or restart, none after a stop |
| `AccrualRuns.StoppedEarnsNothing` | contracts/accrual/src/lib.rs:833-868 | After a stop, no run without a sync or restart earns anything |
| `AccrualRuns.RegistryComplete` | contracts/accrual/src/lib.rs:369-388 | The registry is credited with everything earned if and only if no sync_rate of the run meets a record with a whole point pending |
| `AccrualRuns.SyncHidesAPoint` | contracts/accrual/src/lib.rs:369-388 | A concrete run in which a synced point is minted but never credited |
| `AccrualRuns.SmallRunsFit` | contracts/accrual/src/lib.rs:362-373 | If all point-seconds of a run fit in 64 bits, no step saturates |
| `AccrualRuns.EarnedIsRateSum` | contracts/accrual/src/lib.rs:362-373 | Segment by segment is second by second |
| `AccrualSpec.BankConserves` | contracts/accrual/src/lib.rs:362-373 | Banking conserves point-seconds if and only if nothing saturates |
| `AccrualSpec.PreviewExactIff` | contracts/accrual/src/lib.rs:463-474 | pending_points previews what a claim banks if and only if the exact amount is below a given 64-bit bound |
| `AccrualSpec.PreviewPromisesTooMuch` | contracts/accrual/src/lib.rs:463-474 | A concrete record: at the largest rate an hour previews 3600 times what a claim banks |
| `AccrualSpec.WaitIsLeast` | contracts/accrual/src/lib.rs:479-505 | The least wait from the last banking to the next token, in closed form |
| `AccrualSpec.AnnouncedTimeSuffices` | contracts/accrual/src/lib.rs:479-505 | Waiting the announced seconds from the query earns the next token if and only if the announcement was not cut to 64 bits or the open interval makes up for what is missing; when nothing is open, if and only if it was not cut |
| `AccrualSpec.AnnouncedTimeLeastIff` | contracts/accrual/src/lib.rs:479-505 | It is the least such time from the query if and only if nothing is open and the carried remainder does not complete the last second: both are ignored |
| `AccrualSpec.AnnouncedTimeTooShort` | contracts/accrual/src/lib.rs:479-505 | A concrete record whose wait does not fit 64 bits, and whose token is not earned after the announced time |
| `AccrualSpec.AnnouncedTimeTooLong` | contracts/accrual/src/lib.rs:479-505 | A concrete record with a remainder: 3600 seconds are announced, 3599 suffice, and one fewer a second later |
| `AccrualSpec.MintIsScaledIff` | contracts/accrual/src/lib.rs:719-722 | The minted amount is scaled if and only if the product fits i128; up to 18 decimals it always does |
| `AccrualContract.Contract.SyncRate` | contracts/accrual/src/lib.rs:353-389 | The user takes exactly the specified step, nobody else any |
| `AccrualContract.Contract.StartAccrual` | contracts/accrual/src/lib.rs:397-456 | Same; a first start needs registration and a bot |
| `AccrualContract.Contract.Settle` | contracts/accrual/src/lib.rs:556-625 | Each listed user is settled at most once, in whatever order and however often listed; the count is that of users with points due |
| `AccrualContract.Contract.Claim` | contracts/accrual/src/lib.rs:644-762 | Takes the specified step; the token mints exactly the redeemed tokens times the scale to that user and nothing to anybody else (unscaled only if the product does not fit); in every reachable state each user has the base units of their tokens, without exception up to 18 decimals; any refusal undoes everything; a call from within a claim does nothing |
| `AccrualContract.Contract.StopAccrual` | contracts/accrual/src/lib.rs:833-868 | Same, for stops |
| `AccrualContract.Contract.SetPointsPerAmt` | contracts/accrual/src/lib.rs:773-812 | Accepted exactly within a factor of two, in saturating arithmetic |
| `AccrualContract.SettledIsIdle` | contracts/accrual/src/lib.rs:580-604 | Settling twice in one second settles once |
| `Leaderboard.StreamingTopN` | contracts/registry/src/lib.rs:858-879 | For any order of arrival, folding place_in_top gives the first 100 of the arrivals sorted |
| `Leaderboard.RankOrder` | contracts/registry/src/lib.rs:231-251 | ranks_above is irreflexive, transitive and total on keys of different addresses |
| `Leaderboard.CompareLaws` | contracts/registry/src/lib.rs:242-251 | cmp_bytes is Equal exactly on equal bytes and antisymmetric |
| `Leaderboard.LessIff` | contracts/registry/src/lib.rs:242-251 | An address comes first if and only if, after a common beginning, it ends first or has the smaller byte |
| `Leaderboard.CutPlace` | contracts/registry/src/lib.rs:858-879 | Cutting to 100 before an insertion loses nothing |
| `Leaderboard.RankedUnique` | contracts/registry/src/lib.rs:217-240 | There is one ranked arrangement of given entries |
| `Leaderboard.RemovalExactIff` | contracts/registry/src/lib.rs:964-978 | Removing a user leaves the board exact if and only if the user was not on it or at most 100 are registered: the freed place is not refilled |
| `Leaderboard.CmpBytes` | contracts/registry/src/lib.rs:242-251 | The byte loop computes the lexicographic order |
| `Registry.AlwaysExactIff` | contracts/registry/src/lib.rs:858-978 | Over every run of registrations, departures and bot counts, in which newcomers have no points and points stay what they are, the board is exact throughout if and only if nobody on it leaves a registry of more than 100 |
| `Registry.LeaderLeavesAGap` | contracts/registry/src/lib.rs:964-978 | A concrete run: 101 users register, the first one leaves, and the board is no longer exact |
| `Registry.RunSound` | contracts/registry/src/lib.rs:348-404 | Over every run of registrations, departures and bot counts, with points that stay what they are, the board is ranked, shows each user at most once, only registered ones, and at most 100; users and lower-cased names correspond one to one, and the counter counts the users |
| `Registry.RegisterExact` | contracts/registry/src/lib.rs:398-404 | A registration keeps an exact board exact |
| `Registry.RegisterSucceedsIff` | contracts/registry/src/lib.rs:348-404 | In every reachable state a registration succeeds if and only if it is signed, new, the name has 1 to 32 bytes and differs from every user's by more than the case of ASCII letters, and the counter has room |
| `Registry.AsciiLower` | contracts/registry/src/lib.rs:458-474 | The byte loop lowers ASCII capitals and nothing else |
| `Registry.UnregisterExactIff` | contracts/registry/src/lib.rs:964-978 | A departure keeps it exact if and only if the user was not on it or at most 100 are registered |
| `Registry.PlaceIsCount` | contracts/registry/src/lib.rs:1077-1093 | On an exact board a place is one more than the number of users ranked above |
| `Registry.BoardIsSorted` | contracts/registry/src/lib.rs:858-879 | In every reachable state whoever stands before somebody on the board has more points, or as many and an earlier registration, or both and the address that comes first |
| `Registry.BoardIsBest` | contracts/registry/src/lib.rs:858-879 | On an exact board everybody beats, in this sense, everybody who is not on it |
| `Registry.SameNameIff` | contracts/registry/src/lib.rs:458-474 | Two names count as the same if and only if they differ at most in the case of ASCII letters |
| `Registry.UnregisterDoes` | contracts/registry/src/lib.rs:1212-1258 | A departure succeeds exactly for a signed user without bots; it removes their profile, board entry and name and nobody else's |
| `Registry.BotCountsDo` | contracts/registry/src/lib.rs:739-785 | A bot count moves by one for the writer and the user respectively, stays between 0 and the top of u32, and nothing else changes |
| `Registry.Board.PlaceInTop` | contracts/registry/src/lib.rs:858-879 | The bounded insertion equals inserting into the full list and cutting; false exactly when the entry would not be on the board |
| `Registry.Board.RemoveFromTop` | contracts/registry/src/lib.rs:964-978 | Exactly the user's entries leave |
| `Registry.Board.Register` | contracts/registry/src/lib.rs:348-404 | Does what the specification says from every reachable state, each refusal included, with names and counter; an exact board stays exact |
| `Registry.Board.Unregister` | contracts/registry/src/lib.rs:1212-1258 | Same, signed by the user and refused while bots are held; the name is free again; the board stays exact under exactly the stated condition |
| `Registry.Board.GetRank` | contracts/registry/src/lib.rs:1077-1093 | The place on the board in every reachable state; the true rank while the board is exact |

## Left out

- Storage lifetimes: entries never expire or get archived, temporary allowances included.
- Admin rotation, upgrades, metadata, pause calls, freezing, currency allowlist bookkeeping: single assignments; the flags are part of the state.
- The pause, listing cap and allowlist settings of the marketplace exist as steps of the specification only, not as class methods.
- Currencies that behave unlike this repository's token: transfer fees, rebasing, callbacks into the marketplace.
- Runs after a rotation to a bot_nft contract that is unsound or has operators for the marketplace, and calls on a bot_nft contract after the marketplace left it.
- Histories of listings and purchases per user, filtered listings, tier and market statistics queries: append-only records and plain reads.
- `mint_tier` with its payment, the batch admin mint, renaming, token URIs and trait derivation: variant and bonus of a bot are arbitrary values below the documented bound.
- `total_supply` of bot_nft, which minting never increments.
- The coherence of an accrual rate with bot_nft: the sync is best effort, and `burn` and `set_tier_rate` do not trigger it. The reported rate is an argument.
- What registry and token answer to accrual is an argument of the call; that they bound their own totals is not modelled there.
- The registry's point updates (`update_top`, `apply_to_top`), season boards and the paged user lists: their bodies are an unfinished merge, so boards change by registration and removal only, and points stay what they are along a run.
- Tombstones of the registry, and `verify_user_count`, which repairs the counter after entries were archived.
- The 32-bit length limit of a host vector in `scan_floor`, which more than four billion ids would need.
- The wall-clock `daily` report, the HTTP interface, retries, SQL and XDR encoding, malformed amounts in stored events.
- Poller health timestamps, which influence no data.
- The RPC node is taken to return all events of the range it was asked for, in order.
