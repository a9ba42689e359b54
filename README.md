# Nolus money market: lending arithmetic and oracle bookkeeping in Dafny

This project models the core of the Nolus money market. In that protocol a
user opens a leveraged position (a lease) with a downpayment, and a liquidity
pool lends the rest. The model covers:

- **Percent arithmetic and the liability policy.** `Percentable` holds the
  permille `of`/`are` operations. They use a double-width intermediate, so
  only narrowing back to 128 bits can overflow. `Liability` holds the
  validated policy: initial, healthy and maximum percents plus a
  recalculation cadence. It also holds the invariant check and the solver
  for the initial borrow amount.
- **The pool's interest-rate model** (`Borrow`). The rate is a base rate
  plus an add-on proportional to utilization.
- **The repayment receipt** (`Repay.Receipt`). This class has five
  write-once buckets, the sum of which is the total, and a `close` flag.
- **The lease state shell** (`LeaseState`, `LeaseError`). There are five
  stages. The controller's default operations fail with
  `UnsupportedOperation`.
- **The leaser's configuration validators** (`LeaserConfig`).
- **Oracle bookkeeping.** `PriceFeed` is one pair's observation list, with
  a sliding validity window and a quorum of distinct feeders.
  `MarketPrice.PriceFeeds` is the store of feeds: it resolves multi-hop
  prices and updates the feeds. `Feeders.Feeders` is the owner-only feeder
  registry.
- **Support for the oracle.** `Coin` is the currency-checked conversion
  between `Coin<C>` and `CoinDTO`. `Payment` is the payment currency-group
  lookup.

Modelling decisions:

- Percents are naturals in permille, so a hundred percent is 1000. The
  liability tests use whole percents. They are written
  `FromPercent(p) = 10 * p`, and their 8-bit percent range becomes the
  `maxUnits` bound of `Liability.New`.
- Panics (`assert!`, an overflowing narrowing, a division by zero) become
  `Failure` values of a `Panic` or `NewPanic` datatype.
- Three pieces of code are outside this model and become parameters of the
  members that use them:
  - the per-stage transitions, as the `implements` and `run` parameters of
    `LeaseState.Dispatch`;
  - price multiplication, as the `multiply` parameter of
    `MarketPrice.CalculatePrice`;
  - the currencies' symbol constants, as the `symbolOf` parameter of
    `Payment.Resolve`.
- Utilization is `Percent::from_ratio(total_liability, balance)`. Its body
  is not part of this model. It is taken as liability / (liability +
  balance), truncated to permille, and 0 for an empty pool. This reproduces
  the first two rows of the worked table at
  contracts/lpp/src/borrow.rs:228-229.
- Observation validity (`observation::valid_at`) is not part of this model.
  `PriceFeed.ValidAt` fixes it as "younger than the validity period": an
  observation made at `t` is valid at `at` when `at < t + validity`. This
  is the only reading consistent with the feed tests, which treat an
  observation exactly one period old as invalid and one a nanosecond
  younger as valid.
- Sampling (`sample::from_observations`) is not part of this model. The one
  sample `get_price` takes covers the whole period. Its price is taken to be
  the price of the last valid observation, as the feed tests expect.
- `market_price.rs` builds and updates a feed through `PriceFeed::new(obs)`
  and `update(obs, period)`. `feed/mod.rs` exposes `new()` and
  `add_observation` instead. The model gives both names the
  `add_observation` meaning.
- The code is followed where it differs from its own comments and tests:
  - An overpaid principal is recorded in full and closes the receipt, as
    `pay_principal` does today.
  - An interest rate with a zero optimal utilization is accepted by
    construction, yet `calculate` divides by it. The test at
    contracts/lpp/src/borrow.rs:205-220 disagrees with itself: its doc
    comment (line 206) promises the base rate, while its expected value
    (line 215) is `Percent::from_ratio(0, 1000)`, which is 0 for every base
    rate. Neither matches the division by zero that `calculate` performs.
    `Borrow.ZeroOptimalPanics` states what the code does.

## Model

| member | source | states |
|---|---|---|
| Percentable.Of | packages/finance/src/percentable/u128.rs:5-7 | `of` succeeds exactly when the truncated product a*p/1000 fits 128 bits, and its result brackets a*p between r*1000 and (r+1)*1000; otherwise it overflows |
| Percentable.Are | packages/finance/src/percentable/u128.rs:5-7 | `are` panics with division by zero exactly when p is 0; otherwise it succeeds exactly when a*1000/p fits 128 bits, and its result brackets a*1000 between r*p and (r+1)*p |
| Percentable.OfAtMostHundred | packages/finance/src/percentable/u128.rs:17-19 | a share of at most 100% never overflows and is never more than the whole |
| Percentable.AreUndoesExactOf | packages/finance/src/percentable/u128.rs:16-20 | when `of` loses nothing to truncation, `are` with the same percent gives the original amount back |
| Percentable.AreAfterOfAtMost | packages/finance/src/percentable/u128.rs:16-20 | `are` after `of` never gives back more than the original amount |
| Percentable.OfAreExamples | packages/finance/src/percentable/u128.rs:15-20 | 1200‰ of 50 is 60 and back; 12‰ of 500 is 6 and back; 1000‰ of MAX is MAX and back |
| Percentable.PanicExamples | packages/finance/src/percentable/u128.rs:22-37 | 1001‰ of MAX overflows, 999‰ "are" MAX overflows, 0‰ "are" anything divides by zero |
| Liability.New | packages/finance/src/liability.rs:30-59 | succeeds exactly when init > 0, Δmax > 0, init+Δhealthy+Δmax fits the percent range and hours > 0; then healthy = init+Δhealthy, max = healthy+Δmax, secs = hours*3600, and the invariant holds; init = 0 is reported first |
| Liability.InvariantHeld | packages/finance/src/liability.rs:61-72 | Ok exactly when init > 0, healthy ≥ init, max > healthy and recalc ≥ 3600 s; otherwise the broken-invariant error naming the Liability type |
| Liability.InitBorrowAmount | packages/finance/src/liability.rs:74-81 | (100% − init).are(init.of(d)) as written: the denomination is kept and the only failure is overflow |
| Liability.InitBorrowWithinInit | packages/finance/src/liability.rs:78-80 | the borrow never exceeds init% of downpayment + borrow: the opening loan-to-value is at most the initial percent |
| Liability.InitBorrowAtMostExact | packages/finance/src/liability.rs:78-80 | the as-written borrow is never more than the exact solution d*init/(100%−init) |
| Liability.InitBorrowAmountExact | packages/finance/src/liability.rs:78-80 | the exact, single-division borrow; the denomination is kept and the only failure is overflow |
| Liability.InitBorrowExactRoundTrip | packages/finance/src/liability.rs:184-190 | for every downpayment and init < 100%, init.of(downpayment + exact borrow) == exact borrow |
| Liability.NewExamples | packages/finance/src/liability.rs:92-158 | (10,0,5,20h) gives {10,10,15,72000 s}; (1,0,1,1h) gives {1,1,2,3600 s}; zero init, zero Δmax, zero hours and both percent overflows fail with their own panic |
| Liability.DeserializedInvalidReported | packages/finance/src/liability.rs:160-170 | the stored value {40,30,20,36000} breaks the invariant and is reported |
| Liability.InitBorrowExamples | packages/finance/src/liability.rs:172-198 | 1000 at 10% borrows 111, 1 at 10% borrows 0, 1000 at 99% borrows 99000, each with init.of(d + borrow) == borrow |
| Liability.InitBorrowRoundTripCounterexample | packages/finance/src/liability.rs:184-190 | a downpayment of 19 at 10% borrows 1 as written, but 10% of 20 is 2; the exact solution borrows 2 and 10% of 21 is 2 |
| Borrow.Validate | contracts/lpp/src/borrow.rs:86-90 | a rate is valid exactly when base, optimal and add-on are each at most 100%; a valid rate's base plus add-on is then at most 200% |
| Borrow.PrivateNew | contracts/lpp/src/borrow.rs:22-46 | a rate exists exactly when base, optimal and add-on are each at most 100%, and it holds those three values |
| Borrow.TryFrom | contracts/lpp/src/borrow.rs:93-103 | deserialization fails with "Rates should not be greater than a hundred percent!" exactly when a part exceeds 100%; otherwise it keeps the three values |
| Borrow.Utilization | contracts/lpp/src/borrow.rs:74 | utilization is at most 100%, is 0 with no liability, and is the floor of liability*1000/(liability+balance) |
| Borrow.Calculate | contracts/lpp/src/borrow.rs:60-84 | the rate fails (division by zero) exactly when the optimal utilization is 0; otherwise it is at least the base rate |
| Borrow.NoAddonIsBase | contracts/lpp/src/borrow.rs:167-186 | with a zero add-on rate the result is the base rate for every liability and balance |
| Borrow.NoLiabilityIsBase | contracts/lpp/src/borrow.rs:188-203 | with zero liability the result is the base rate for every balance |
| Borrow.AtOptimalIsBasePlusAddon | contracts/lpp/src/borrow.rs:64-83 | at optimal utilization the rate is exactly base + add-on |
| Borrow.CalculateAtMost | contracts/lpp/src/borrow.rs:60-90 | the rate never exceeds base + 100% * add-on / optimal |
| Borrow.UtilizationMonotone | contracts/lpp/src/borrow.rs:74 | more liability against the same balance never lowers utilization |
| Borrow.CalculateMonotoneInLiability | contracts/lpp/src/borrow.rs:60-84 | more liability against the same balance never lowers the rate |
| Borrow.WorkedValues | contracts/lpp/src/borrow.rs:222-229 | rate (100‰, 500‰, 250‰) gives 554‰ at liability 10 and balance 1, and 516‰ at balance 2 |
| Borrow.ZeroOptimalPanics | contracts/lpp/src/borrow.rs:205-220 | an optimal utilization of 0 passes validation, but `calculate` then divides by zero |
| Coin.TryFromDto | packages/finance/src/coin/coinc.rs:21-34 | the conversion succeeds exactly when the DTO's symbol is the currency's, and keeps the amount; a mismatch is UnexpectedCurrency(found, expected) |
| Coin.ToDto | packages/finance/src/coin/coinc.rs:36-46 | the DTO of a coin converts back to that same coin |
| Coin.Funds | packages/finance/src/coin/coinc.rs:48-54 | `funds::<C>(n)` carries n and C's symbol, and converts back to a coin of n |
| Coin.DtoRoundTrip | packages/finance/src/coin/coinc.rs:21-46 | a DTO accepted as a coin is exactly that coin's DTO |
| Coin.ForeignDtoRefused | packages/finance/src/coin/coinc.rs:28-31 | a coin's DTO is refused as any other currency, with UnexpectedCurrency(its symbol, the other) |
| Payment.Members | packages/currency/src/payment.rs:14-43 | the currencies `resolve` accepts: the four declared members Usdc, Osmo, Atom and Nls without the testing feature; with it, those and the four test currencies, 8 in all |
| Payment.Resolve | packages/currency/src/payment.rs:26-46 | either the visitor's answer for a member whose symbol matches, or, when no member matches, NotInCurrencyGroup(symbol, "payment") converted to the visitor's error |
| Payment.ResolveMember | packages/currency/src/payment.rs:31-43 | with distinct symbols, a member's symbol resolves to exactly that member's visit |
| Payment.TestCurrencyNeedsFeature | packages/currency/src/payment.rs:36-44 | without the testing feature, a test currency's symbol gives NotInCurrencyGroup |
| LeaseError.UnsupportedOperationError | contracts/lease/src/error.rs:68-73 | the error is UnsupportedOperation carrying the operation's name unchanged |
| LeaseError.BrokenInvariantIf | contracts/lease/src/error.rs:75-81 | fails exactly when the check holds, with BrokenInvariant(type name, message) |
| LeaseError.GuardErrorsDistinct | contracts/lease/src/error.rs:45-55 | the no-payment, insufficient-payment, loan-not-paid and loan-closed errors are four distinct errors |
| LeaseState.Err | contracts/lease/src/contract/state/mod.rs:83-85 | `err(op)` always fails, with UnsupportedOperation(op) |
| LeaseState.NextState | contracts/lease/src/contract/state/mod.rs:39-55 | a result carries a next state exactly when it is Ok, and that state is the response's |
| LeaseState.Dispatch | contracts/lease/src/contract/state/mod.rs:57-81 | a stage that implements the operation answers with its own handler; otherwise the answer is UnsupportedOperation naming the operation |
| LeaseState.DefaultHasNoNextState | contracts/lease/src/contract/state/mod.rs:62-85 | a defaulted operation produces no next state, and its error names that operation and no other |
| LeaseState.SuccessfulStepHasOneNextState | contracts/lease/src/contract/state/mod.rs:39-55 | a successful step comes from an implemented operation and yields exactly the next state its handler chose |
| LeaseState.DefaultAnswers | contracts/lease/src/contract/state/mod.rs:62-80 | the defaults of reply, execute and sudo fail with "reply", "execute" and "sudo" |
| Repay.Receipt.constructor | contracts/lease/src/loan/repay.rs:3-14 | the default receipt has nothing paid, is not closed, and totals 0 |
| Repay.Receipt.Total | contracts/lease/src/loan/repay.rs:44-50 | the total is the sum of the five buckets; it covers the principal paid, and it is 0 exactly when every bucket is empty |
| Repay.Receipt.PayPreviousMargin | contracts/lease/src/loan/repay.rs:52-56 | an empty previous-margin bucket gets the payment; no other field changes; the total grows by the payment |
| Repay.Receipt.PayPreviousInterest | contracts/lease/src/loan/repay.rs:58-62 | an empty previous-interest bucket gets the payment; no other field changes; the total grows by the payment |
| Repay.Receipt.PayCurrentMargin | contracts/lease/src/loan/repay.rs:64-68 | an empty current-margin bucket gets the payment; no other field changes; the total grows by the payment |
| Repay.Receipt.PayCurrentInterest | contracts/lease/src/loan/repay.rs:70-74 | an empty current-interest bucket gets the payment; no other field changes; the total grows by the payment |
| Repay.Receipt.PayPrincipal | contracts/lease/src/loan/repay.rs:76-86 | the principal bucket gets the full payment, overpayment included; close is set exactly when principal ≤ payment; only those two fields change |
| Repay.PayPrincipalOnDefault | contracts/lease/src/loan/repay.rs:119-158 | on a default receipt, paying the principal records the payment and closes exactly when it covers the principal; all other buckets stay 0 and the total is the payment |
| Repay.PayAllBuckets | contracts/lease/src/loan/repay.rs:44-86 | filling all five buckets once makes the total the sum of the five payments, and close depends only on principal ≤ payment |
| LeaserConfig.DecimalPercent | contracts/leaser/src/config.rs:27-28 | `Decimal::percent(x)` is x hundredths of one: atomics * 100 == x * 10^18 |
| LeaserConfig.ValidateHealthy | contracts/leaser/src/config.rs:43-54 | accepted exactly when healthy < max, as the decimal of healthy; otherwise the exact validation message |
| LeaserConfig.ValidateInitial | contracts/leaser/src/config.rs:56-68 | accepted exactly when initial ≤ healthy (equality included), as the decimal of initial; otherwise the exact validation message |
| LeaserConfig.New | contracts/leaser/src/config.rs:22-41 | succeeds exactly when healthy < max and initial ≤ healthy; the healthy error wins when both fail; on success the owner is the sender, the percents are decimals, and every other field is copied |
| LeaserConfig.DecimalPercentOrder | contracts/leaser/src/config.rs:27-36 | `Decimal::percent` preserves and reflects both < and ≤ |
| LeaserConfig.AcceptedConfigOrdered | contracts/leaser/src/config.rs:22-68 | every accepted configuration stores initial ≤ healthy < max as decimals |
| PriceFeed.Retain | packages/marketprice/src/feed/mod.rs:40-41 | the retained observations are exactly the valid ones, and there are no more of them than before |
| PriceFeed.AddObservation | packages/marketprice/src/feed/mod.rs:33-45 | the in-place retain loop keeps exactly the observations valid at `at`, in order, and appends the new observation last |
| PriceFeed.ValidObservations | packages/marketprice/src/feed/mod.rs:79-84 | an observation is listed exactly when it is in the feed and valid at the block time within the period |
| PriceFeed.FeedersOf | packages/marketprice/src/feed/mod.rs:72-77 | the set holds exactly the addresses that sent one of the observations |
| PriceFeed.CountUniqueFeeders | packages/marketprice/src/feed/mod.rs:72-77 | the count is the size of the set of distinct feeders of the valid observations; it is at most the number of valid observations, and 0 exactly when there is none |
| PriceFeed.HasEnoughFeeders | packages/marketprice/src/feed/mod.rs:68-70 | the quorum holds exactly when the distinct valid feeders reach the required count; it then implies at least that many valid observations, and a required count of 0 always holds |
| PriceFeed.GetPrice | packages/marketprice/src/feed/mod.rs:50-70 | a price exactly when there is a valid observation and the distinct valid feeders meet the required count; every failure is NoPrice |
| PriceFeed.FeedersAtMostObservations | packages/marketprice/src/feed/mod.rs:72-77 | the number of distinct feeders never exceeds the number of observations |
| PriceFeed.LatestValidPriceWins | packages/marketprice/src/feed/mod.rs:47-59 | a returned price is the price of a valid observation after which no observation of the feed is valid |
| PriceFeed.QuorumDecides | packages/marketprice/src/feed/mod.rs:61-77 | with a valid observation, the price is given exactly when the distinct feeders meet the count, and 1 ≤ distinct feeders ≤ valid observations |
| PriceFeed.ValidityBoundary | packages/marketprice/src/feed/mod.rs:101-121 | an observation exactly one period old is invalid; one a nanosecond younger is valid |
| PriceFeed.OldObservations | packages/marketprice/src/feed/mod.rs:101-121 | a minute-old observation gives NoPrice; the later one, added with zero validity, replaces it and is the price |
| PriceFeed.LessFeeders | packages/marketprice/src/feed/mod.rs:123-143 | one feeder's fresh observation misses a quorum of two and meets a quorum of one |
| PriceFeed.TwoFeedersFeed | packages/marketprice/src/feed/mod.rs:145-160 | adding feeder1 at 90 s and feeder2 a nanosecond later keeps both, in that order |
| PriceFeed.TwoFeedersBothValid | packages/marketprice/src/feed/mod.rs:162-163 | while both are valid the quorum of two is met and the later price is returned |
| PriceFeed.TwoFeedersOlderAgedOut | packages/marketprice/src/feed/mod.rs:165-169 | at 150 s the older observation has aged out and the quorum of two is missed |
| MarketPrice.FoldMultiply | packages/marketprice/src/market_price.rs:86-89 | once the accumulator is an error, the fold returns that error |
| MarketPrice.CalculatePrice | packages/marketprice/src/market_price.rs:84-94 | an empty resolution path gives NoPrice; any other failure is a converted finance error |
| MarketPrice.FoldMultiplySnoc | packages/marketprice/src/market_price.rs:86-89 | folding over one more price is one more multiplication of the fold so far |
| MarketPrice.CalculatePriceLeftFold | packages/marketprice/src/market_price.rs:84-94 | a one-price path is that price; a longer one multiplies its prefix's price by its last price, in order; an error from the prefix is the result |
| MarketPrice.Load | packages/marketprice/src/market_price.rs:71-82 | a price exactly when the pair is stored and its feed gives a price; an absent pair, like every failure, is NoPrice |
| MarketPrice.ResolvePrefix | packages/marketprice/src/market_price.rs:57-67 | succeeds exactly when each of the first n pairs loads, with their prices in path order; on failure, the error is that of the first pair that fails to load |
| MarketPrice.ResolvePath | packages/marketprice/src/market_price.rs:57-67 | a path of fewer than two symbols resolves to nothing; otherwise one price per consecutive pair |
| MarketPrice.PrefixFailureSticks | packages/marketprice/src/market_price.rs:61-64 | the first failing load aborts: every longer prefix fails with the same error |
| MarketPrice.PriceFeeds.constructor | packages/marketprice/src/market_price.rs:47-49 | the handle on a fresh, unused storage namespace, modelled as a store that holds no feed |
| MarketPrice.PriceFeeds.Price | packages/marketprice/src/market_price.rs:51-69 | the loop's result is the resolution path's first load error, or else `calculate_price` of the loaded prices; a path of fewer than two symbols gives NoPrice |
| MarketPrice.PriceFeeds.Feed | packages/marketprice/src/market_price.rs:96-128 | the loop leaves the store equal to feeding the prices one by one in order |
| MarketPrice.FeedOneEffect | packages/marketprice/src/market_price.rs:104-124 | feeding a price creates or extends its pair's feed with the new observation last, and leaves every other pair unchanged |
| MarketPrice.FeedAllFrame | packages/marketprice/src/market_price.rs:96-128 | after a batch, the stored pairs are the old ones plus the batch's, and every pair outside the batch keeps its feed |
| Feeders.Feeders.IsFeeder | contracts/oracle/src/contract/oracle/feeder.rs:26-28 | an address is a feeder exactly when it is in the registered set, and then the registry is not empty |
| Feeders.Feeders.TotalRegistered | contracts/oracle/src/contract/oracle/feeder.rs:61-63 | the total is the cardinality of the registered set, and 0 exactly when no address is registered |
| Feeders.Feeders.TryRegister | contracts/oracle/src/contract/oracle/feeder.rs:30-42 | a sender who is not the owner is Unauthorized; a registered address is refused; otherwise the address is added and the total grows by one; on failure the set is unchanged |
| Feeders.Feeders.TryRemove | contracts/oracle/src/contract/oracle/feeder.rs:44-59 | a sender who is not the owner is Unauthorized; an unknown address is UnknownFeeder; otherwise only that address is removed and the total drops by one; on failure the set is unchanged |
| Feeders.RegisterScenario | contracts/oracle/src/contract/oracle/feeder.rs:98-122 | two new addresses bring one feeder to three, and a repeated registration is refused |
| Feeders.RemoveScenario | contracts/oracle/src/contract/oracle/feeder.rs:124-147 | removing two of five feeders leaves exactly the other three |
| Feeders.UnauthorizedScenario | contracts/oracle/src/contract/oracle/feeder.rs:88-96 | a registration by a user who is not the owner is Unauthorized and changes nothing |

## Left out

- Message entry points, storage (de)serialization and its errors, `cw2` versioning, events and responses: these are host-framework calls.
- Address validation (`deps.api.addr_validate`) in the feeder registry: a foreign call. Addresses are taken as already valid.
- `SingleUserAccess::check_owner_access` and the `PriceFeeders` set are not part of this model. The registry is a set plus an owner. A repeated registration is refused as the feeder tests expect, with the variant name `FeederAlreadyRegistered` chosen here.
- The per-stage transitions of the lease (request loan, open ICA account, transfer out, buy asset, active) are not part of this model. `LeaseState.Dispatch` takes them as parameters, so the payload of a stage is abstract.
- `query` has no default in the controller, so it never reaches the default error. It is left to the stages and is not modelled.
- `PriceDTO::multiply` and its currency-group dispatch are not part of this model. They are the `multiply` parameter.
- `sample::from_observations` and `observation::valid_at` are not part of this model. Their assumed behaviour is described above.
- The loan ledger's allocation cascade that calls the `pay_*` methods, and with it the conservation of a payment across the buckets, is not part of this model.
- Repay.Receipt.Total: it sums the buckets as unbounded naturals. The source's `Coin` addition would panic on 128-bit overflow, and that panic is not modelled.
- The `Display` texts of the error enums are not modelled. The errors carry their data only.
- `Liability.New` takes the percent type's upper bound as `maxUnits`, because that bound belongs to the percent type, which is not shown.
- Utilization (`Percent::from_ratio`) is assumed as described above. The worked table at contracts/lpp/src/borrow.rs:230-242 is not proved: several of its rows do not follow liability / (liability + balance).
- The liquidation classification is left out. contracts/lease/src/lease/liquidation.rs only declares its status type.
- Payment.Members: the four test currencies are not declared `Member<PaymentGroup>` implementations; the model groups them with the members only because `resolve` matches them under the `testing` feature; the trait-level membership check is not modelled.
- PriceFeed.GetPrice: the start of the sample window, `block_time - period` (packages/marketprice/src/feed/mod.rs:54), is not computed, because sampling is not part of this model; what that subtraction does when the block time is earlier than one period is not modelled.
- The `Parameters` accessors of the market price are the fields of the `PriceFeed.Parameters` datatype.

## Findings

| source | as written | input that shows it | evidently intended | confidence | as-written member | corrected member |
|---|---|---|---|---|---|---|
| packages/finance/src/liability.rs:78-80 | borrow = (100% − init).are(init.of(downpayment)), which truncates twice | downpayment 19 at init 10%: init.of(19) = 1 and 90%.are(1) = 1, but 10% of 19 + 1 = 20 is 2, so init.of(downpayment + borrow) == borrow fails | the solution of the comment's equation, downpayment * init / (100% − init) with one truncation, for which the round trip holds for every downpayment | not executed | Liability.InitBorrowRoundTripCounterexample | Liability.InitBorrowExactRoundTrip |
