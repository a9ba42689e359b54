/**
 * The oracle's store of price feeds, one per (base, quote) symbol pair. A
 * price along a path of symbols is the product of the pair prices along it;
 * feeding a batch of prices appends one observation to each pair's feed.
 *
 * Storage is the map `feeds`; its read and write errors are not modelled. The
 * product of two prices is computed outside this model and is the parameter
 * `multiply`.
 */
module MarketPrice {
  import opened Wrappers
  import FinanceError
  import opened Coin
  import opened PriceFeed

  /** A price as carried in messages: `amount` of the base is worth `amountQuote` of the quote. */
  datatype PriceDTO = PriceDTO(amount: CoinDTO, amountQuote: CoinDTO)

  /** A storage key: the base and the quote symbol of a price. */
  datatype Pair = Pair(base: Symbol, quote: Symbol)

  /** The storage key of a price: its base and quote symbols. */
  function PairOf(p: PriceDTO): Pair {
    Pair(p.amount.symbol, p.amountQuote.symbol)
  }

  type Multiply = (PriceDTO, PriceDTO) -> Result<PriceDTO, FinanceError.Error>

  /** One step of the fold in `calculate_price`: an earlier error passes through. */
  function AndThenMultiply(acc: Result<PriceDTO, FinanceError.Error>, next: PriceDTO, multiply: Multiply)
    : Result<PriceDTO, FinanceError.Error>
  {
    if acc.Success? then multiply(acc.value, next) else acc
  }

  /** The left fold of `multiply` over `rest`, starting from `acc`. */
  function FoldMultiply(acc: Result<PriceDTO, FinanceError.Error>, rest: seq<PriceDTO>, multiply: Multiply)
    : (r: Result<PriceDTO, FinanceError.Error>)
    ensures acc.Failure? ==> r == acc
    decreases |rest|
  {
    if rest == [] then acc
    else FoldMultiply(AndThenMultiply(acc, rest[0], multiply), rest[1..], multiply)
  }

  /**
   * `calculate_price`: NoPrice for an empty path, otherwise the first price
   * multiplied by each following one in order, a finance error converted.
   */
  function CalculatePrice(path: seq<PriceDTO>, multiply: Multiply): (r: Result<PriceDTO, PriceFeedsError>)
    ensures |path| == 0 ==> r == Failure(NoPrice)
    ensures |path| > 0 && r.Failure? ==> r.error.FromFinance?
  {
    if |path| == 0 then Failure(NoPrice)
    else
      var folded := FoldMultiply(Success(path[0]), path[1..], multiply);
      if folded.Success? then Success(folded.value) else Failure(FromFinance(folded.error))
  }

  /** Folding over one more price is one more multiplication of the fold so far. */
  lemma {:induction false} FoldMultiplySnoc(acc: Result<PriceDTO, FinanceError.Error>, rest: seq<PriceDTO>,
                                            next: PriceDTO, multiply: Multiply)
    ensures FoldMultiply(acc, rest + [next], multiply) == AndThenMultiply(FoldMultiply(acc, rest, multiply), next, multiply)
    decreases |rest|
  {
    if rest != [] {
      assert (rest + [next])[1..] == rest[1..] + [next];
      FoldMultiplySnoc(AndThenMultiply(acc, rest[0], multiply), rest[1..], next, multiply);
    }
  }

  /**
   * `calculate_price` is a left fold: a single price is itself, and a longer
   * path multiplies the price of its prefix by its last element; an error
   * anywhere along the way is the result.
   */
  lemma CalculatePriceLeftFold(path: seq<PriceDTO>, next: PriceDTO, multiply: Multiply)
    ensures CalculatePrice([next], multiply) == Success(next)
    ensures |path| > 0 ==> (CalculatePrice(path + [next], multiply) ==
      match CalculatePrice(path, multiply)
      case Success(p) =>
        (var m := multiply(p, next); if m.Success? then Success(m.value) else Failure(FromFinance(m.error)))
      case Failure(e) => Failure(e))
  {
    if |path| > 0 {
      assert (path + [next])[1..] == path[1..] + [next];
      FoldMultiplySnoc(Success(path[0]), path[1..], next, multiply);
    }
  }

  /** The storage of the feeds: one feed per pair that was ever fed. */
  type Store = map<Pair, PriceFeed<PriceDTO>>

  /** `load`: the price of a stored pair's feed; NoPrice for a pair never fed. */
  function Load(feeds: Store, base: Symbol, quote: Symbol, params: Parameters): (r: Result<PriceDTO, PriceFeedsError>)
    ensures r.Failure? ==> r.error == NoPrice
    ensures r.Success? <==> Pair(base, quote) in feeds && GetPrice(feeds[Pair(base, quote)], params).Success?
  {
    if Pair(base, quote) in feeds then GetPrice(feeds[Pair(base, quote)], params) else Failure(NoPrice)
  }

  /** The price of the `i`-th pair of `path`, (path[i], path[i+1]). */
  function LoadAt(feeds: Store, path: seq<Symbol>, params: Parameters, i: nat): Result<PriceDTO, PriceFeedsError>
    requires i + 1 < |path|
  {
    Load(feeds, path[i], path[i + 1], params)
  }

  /** Each of the first `n` pairs of `path` loads. */
  predicate LoadsUpTo(feeds: Store, path: seq<Symbol>, params: Parameters, n: nat)
    requires n < |path|
  {
    forall i :: 0 <= i < n ==> LoadAt(feeds, path, params, i).Success?
  }

  /**
   * The prices of the first `n` pairs of `path`, loaded in order; the first
   * pair that fails to load decides the error.
   */
  function ResolvePrefix(feeds: Store, path: seq<Symbol>, params: Parameters, n: nat)
    : (r: Result<seq<PriceDTO>, PriceFeedsError>)
    requires n < |path|
    ensures r.Success? <==> LoadsUpTo(feeds, path, params, n)
    ensures r.Success? ==> (|r.value| == n
      && forall i :: 0 <= i < n ==> LoadAt(feeds, path, params, i).Success? && r.value[i] == LoadAt(feeds, path, params, i).value)
    ensures r.Failure? ==> exists k :: (0 <= k < n && LoadAt(feeds, path, params, k) == Failure(r.error)
      && LoadsUpTo(feeds, path, params, k))
  {
    if n == 0 then Success([])
    else
      var prefix :- ResolvePrefix(feeds, path, params, n - 1);
      var price :- LoadAt(feeds, path, params, n - 1);
      Success(prefix + [price])
  }

  /** The resolution path of `price`: every consecutive pair of symbols, loaded. */
  function ResolvePath(feeds: Store, path: seq<Symbol>, params: Parameters): (r: Result<seq<PriceDTO>, PriceFeedsError>)
    ensures |path| < 2 ==> r == Success([])
    ensures r.Success? ==> |r.value| == if |path| == 0 then 0 else |path| - 1
  {
    if |path| == 0 then Success([]) else ResolvePrefix(feeds, path, params, |path| - 1)
  }

  /** Once a prefix fails to load, every longer prefix fails the same way. */
  lemma {:induction false} PrefixFailureSticks(feeds: Store, path: seq<Symbol>, params: Parameters, n: nat, m: nat)
    requires n <= m < |path|
    requires ResolvePrefix(feeds, path, params, n).Failure?
    ensures ResolvePrefix(feeds, path, params, m) == ResolvePrefix(feeds, path, params, n)
    decreases m - n
  {
    if n < m {
      PrefixFailureSticks(feeds, path, params, n, m - 1);
    }
  }

  /** The store of feeds, `PriceFeeds`. */
  class PriceFeeds {
    var feeds: Store

    /** `PriceFeeds::new`: an empty store. */
    constructor ()
      ensures feeds == map[]
    {
      feeds := map[];
    }

    /**
     * `price`: loads the pairs (path[i], path[i+1]) in path order, stopping at
     * the first that fails, and multiplies the loaded prices in order.
     */
    method Price(params: Parameters, path: seq<Symbol>, multiply: Multiply) returns (r: Result<PriceDTO, PriceFeedsError>)
      ensures |path| < 2 ==> r == Failure(NoPrice)
      ensures ResolvePath(feeds, path, params).Failure? ==> r == Failure(ResolvePath(feeds, path, params).error)
      ensures ResolvePath(feeds, path, params).Success? ==> r == CalculatePrice(ResolvePath(feeds, path, params).value, multiply)
    {
      var resolutionPath: seq<PriceDTO> := [];
      if |path| > 0 {
        var base := path[0];
        var i := 1;
        while i < |path|
          invariant 1 <= i <= |path|
          invariant base == path[i - 1]
          invariant ResolvePrefix(feeds, path, params, i - 1) == Success(resolutionPath)
        {
          var quote := path[i];
          var priceDto := Load(feeds, base, quote, params);
          if priceDto.Failure? {
            assert ResolvePrefix(feeds, path, params, i).Failure?;
            PrefixFailureSticks(feeds, path, params, i, |path| - 1);
            return Failure(priceDto.error);
          }
          base := quote;
          resolutionPath := resolutionPath + [priceDto.value];
          i := i + 1;
        }
      }
      r := CalculatePrice(resolutionPath, multiply);
    }

    /**
     * `feed`: for each price in turn, the observation of the sender at the
     * current block time goes into the feed of the price's pair, which is
     * created when the pair has none yet.
     */
    method Feed(currentBlockTime: Timestamp, sender: Addr, prices: seq<PriceDTO>, priceFeedPeriod: Duration)
      modifies this
      ensures feeds == FeedAll(old(feeds), currentBlockTime, sender, prices, priceFeedPeriod)
    {
      var i := 0;
      while i < |prices|
        invariant 0 <= i <= |prices|
        invariant feeds == FeedAll(old(feeds), currentBlockTime, sender, prices[..i], priceFeedPeriod)
      {
        assert prices[..i + 1][..i] == prices[..i];
        var priceDto := prices[i];
        var key := PairOf(priceDto);
        if key in feeds {
          var updated := AddObservation(feeds[key], sender, currentBlockTime, priceDto, priceFeedPeriod);
          feeds := feeds[key := updated];
        } else {
          feeds := feeds[key := PriceFeed([Observation(sender, currentBlockTime, priceDto)])];
        }
        i := i + 1;
      }
      assert prices[..i] == prices;
    }
  }

  /** The store after feeding one price. */
  function FeedOne(feeds: Store, now: Timestamp, sender: Addr, price: PriceDTO,
                   period: Duration): Store
  {
    var key := PairOf(price);
    if key in feeds then feeds[key := Added(feeds[key], sender, now, price, period)]
    else feeds[key := PriceFeed([Observation(sender, now, price)])]
  }

  /** The store after feeding `prices` in order. */
  function FeedAll(feeds: Store, now: Timestamp, sender: Addr, prices: seq<PriceDTO>,
                   period: Duration): Store
  {
    if prices == [] then feeds
    else FeedOne(FeedAll(feeds, now, sender, prices[..|prices| - 1], period), now, sender, prices[|prices| - 1], period)
  }

  /**
   * Feeding one price appends its observation last to its pair's feed,
   * whether that feed existed or not, and leaves every other pair alone.
   */
  lemma FeedOneEffect(feeds: Store, now: Timestamp, sender: Addr, price: PriceDTO,
                      period: Duration)
    ensures FeedOne(feeds, now, sender, price, period).Keys == feeds.Keys + {PairOf(price)}
    ensures var f := FeedOne(feeds, now, sender, price, period)[PairOf(price)];
      |f.observations| > 0 && f.observations[|f.observations| - 1] == Observation(sender, now, price)
    ensures PairOf(price) !in feeds ==>
      FeedOne(feeds, now, sender, price, period)[PairOf(price)] == Added(PriceFeed([]), sender, now, price, period)
    ensures forall key :: key in feeds && key != PairOf(price) ==> FeedOne(feeds, now, sender, price, period)[key] == feeds[key]
  {
    assert Retain<PriceDTO>([], now, period) == [];
  }

  /**
   * Feeding a batch touches exactly the pairs of its prices: they all have a
   * feed afterwards, and every other stored pair keeps its feed.
   */
  lemma {:induction false} FeedAllFrame(feeds: Store, now: Timestamp, sender: Addr,
                                        prices: seq<PriceDTO>, period: Duration)
    ensures FeedAll(feeds, now, sender, prices, period).Keys == feeds.Keys + set p | p in prices :: PairOf(p)
    ensures forall key :: key in feeds && (forall p :: p in prices ==> PairOf(p) != key) ==>
      FeedAll(feeds, now, sender, prices, period)[key] == feeds[key]
  {
    if prices != [] {
      var init := prices[..|prices| - 1];
      var last := prices[|prices| - 1];
      FeedAllFrame(feeds, now, sender, init, period);
      FeedOneEffect(FeedAll(feeds, now, sender, init, period), now, sender, last, period);
      assert prices == init + [last];
      assert (set p | p in prices :: PairOf(p)) == (set p | p in init :: PairOf(p)) + {PairOf(last)};
    }
  }
}
