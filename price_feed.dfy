/**
 * The price feed of one currency pair: the observations the feeders sent,
 * oldest first. Only observations inside a sliding validity window count, and
 * a price is given only when enough distinct feeders stand behind it.
 *
 * Times are nanoseconds. The validity test of an observation, the sampling of
 * the valid observations and the price type live outside this model: validity
 * is fixed as `ValidAt` below, the one sample's price is the price of the last
 * valid observation, and the price is the type parameter P.
 */
module PriceFeed {
  import opened Wrappers
  import FinanceError

  type Addr = string
  /** A point in time, in nanoseconds. */
  type Timestamp = nat
  /** A span of time, in nanoseconds. */
  type Duration = nat

  const NANOS_PER_SEC: nat := 1_000_000_000

  datatype Observation<P> = Observation(feeder: Addr, time: Timestamp, price: P)

  datatype PriceFeed<P> = PriceFeed(observations: seq<Observation<P>>)

  /** `Parameters`: the validity period, the feeder quorum and the current block time. */
  datatype Parameters = Parameters(priceFeedPeriod: Duration, requiredFeedersCnt: nat, blockTime: Timestamp)

  datatype PriceFeedsError = NoPrice | FromFinance(cause: FinanceError.Error)

  /**
   * An observation is valid at `at` within `validity` when it is younger than
   * `validity`: one exactly `validity` old no longer counts.
   */
  predicate ValidAt<P(==,!new)>(o: Observation<P>, at: Timestamp, validity: Duration) {
    at < o.time + validity
  }

  /** The observations of `s` valid at `at` within `validity`, in their order. */
  function Retain<P(==,!new)>(s: seq<Observation<P>>, at: Timestamp, validity: Duration): (r: seq<Observation<P>>)
    ensures |r| <= |s|
    ensures forall o :: o in r <==> o in s && ValidAt(o, at, validity)
  {
    if s == [] then []
    else
      var last := s[|s| - 1];
      Retain(s[..|s| - 1], at, validity) + (if ValidAt(last, at, validity) then [last] else [])
  }

  /** The feed `add_observation` produces. */
  function Added<P(==,!new)>(feed: PriceFeed<P>, from: Addr, at: Timestamp, price: P, validity: Duration): PriceFeed<P> {
    PriceFeed(Retain(feed.observations, at, validity) + [Observation(from, at, price)])
  }

  /**
   * `add_observation`: drops, in place, the observations no longer valid at
   * `at`, then appends the new one last.
   */
  method AddObservation<P(==,!new)>(feed: PriceFeed<P>, from: Addr, at: Timestamp, price: P, validity: Duration)
    returns (r: PriceFeed<P>)
    ensures r == Added(feed, from, at, price, validity)
    ensures r.observations[|r.observations| - 1] == Observation(from, at, price)
    ensures forall o :: o in r.observations[..|r.observations| - 1] <==>
      o in feed.observations && ValidAt(o, at, validity)
  {
    var kept: seq<Observation<P>> := [];
    var i := 0;
    while i < |feed.observations|
      invariant 0 <= i <= |feed.observations|
      invariant kept == Retain(feed.observations[..i], at, validity)
    {
      assert feed.observations[..i + 1][..i] == feed.observations[..i];
      if ValidAt(feed.observations[i], at, validity) {
        kept := kept + [feed.observations[i]];
      }
      i := i + 1;
    }
    assert feed.observations[..i] == feed.observations;
    r := PriceFeed(kept + [Observation(from, at, price)]);
    assert r.observations[..|r.observations| - 1] == kept;
  }

  /** `valid_observations`: those valid at the block time within the period. */
  function ValidObservations<P(==,!new)>(feed: PriceFeed<P>, params: Parameters): (r: seq<Observation<P>>)
    ensures forall o :: o in r <==> o in feed.observations && ValidAt(o, params.blockTime, params.priceFeedPeriod)
  {
    Retain(feed.observations, params.blockTime, params.priceFeedPeriod)
  }

  /** The feeders behind the observations of `s`. */
  function FeedersOf<P(==,!new)>(s: seq<Observation<P>>): (r: set<Addr>)
    ensures forall a :: a in r <==> exists o :: o in s && o.feeder == a
  {
    set o | o in s :: o.feeder
  }

  /** `count_unique_feeders`: the number of distinct feeders with a valid observation. */
  function CountUniqueFeeders<P(==,!new)>(feed: PriceFeed<P>, params: Parameters): (n: nat)
    ensures n == |FeedersOf(ValidObservations(feed, params))|
    ensures n <= |ValidObservations(feed, params)|
    ensures n == 0 <==> |ValidObservations(feed, params)| == 0
  {
    var valid := ValidObservations(feed, params);
    FeedersAtMostObservations(valid);
    assert |valid| > 0 ==> valid[0].feeder in FeedersOf(valid);
    |FeedersOf(valid)|
  }

  /** `has_enough_feeders`: at least the required number of distinct feeders. */
  predicate HasEnoughFeeders<P(==,!new)>(feed: PriceFeed<P>, params: Parameters): (b: bool)
    ensures b <==> |FeedersOf(ValidObservations(feed, params))| >= params.requiredFeedersCnt
    ensures b ==> |ValidObservations(feed, params)| >= params.requiredFeedersCnt
    ensures params.requiredFeedersCnt == 0 ==> b
  {
    CountUniqueFeeders(feed, params) >= params.requiredFeedersCnt
  }

  /**
   * `get_price`: NoPrice without a valid observation or without the quorum of
   * feeders; otherwise the price of the last valid observation.
   */
  function GetPrice<P(==,!new)>(feed: PriceFeed<P>, params: Parameters): (r: Result<P, PriceFeedsError>)
    ensures r.Failure? ==> r.error == NoPrice
    ensures r.Success? <==> |ValidObservations(feed, params)| > 0 && HasEnoughFeeders(feed, params)
  {
    var valid := ValidObservations(feed, params);
    if |valid| == 0 then Failure(NoPrice)
    else
      var price := valid[|valid| - 1].price;
      if HasEnoughFeeders(feed, params) then Success(price) else Failure(NoPrice)
  }

  /** The distinct feeders never outnumber the observations they sent. */
  lemma {:induction false} FeedersAtMostObservations<P(!new)>(s: seq<Observation<P>>)
    ensures |FeedersOf(s)| <= |s|
  {
    if s != [] {
      FeedersAtMostObservations(s[1..]);
      assert FeedersOf(s) == FeedersOf(s[1..]) + {s[0].feeder} by {
        forall a | a in FeedersOf(s) ensures a in FeedersOf(s[1..]) + {s[0].feeder} {
          var o :| o in s && o.feeder == a;
          if o != s[0] {
            var k :| 0 <= k < |s| && s[k] == o;
            assert s[1..][k - 1] == o;
          }
        }
      }
    }
  }

  /** Retaining after one more observation keeps the earlier result and decides on the new one. */
  lemma RetainSnoc<P(!new)>(s: seq<Observation<P>>, o: Observation<P>, at: Timestamp, validity: Duration)
    ensures Retain(s + [o], at, validity) == Retain(s, at, validity) + (if ValidAt(o, at, validity) then [o] else [])
  {
    assert (s + [o])[..|s|] == s;
  }

  /**
   * The last retained observation sits at an index of `s` after which no
   * observation is valid.
   */
  lemma {:induction false} RetainLast<P(!new)>(s: seq<Observation<P>>, at: Timestamp, validity: Duration)
    requires |Retain(s, at, validity)| > 0
    ensures exists i :: (0 <= i < |s| && s[i] == Retain(s, at, validity)[|Retain(s, at, validity)| - 1]
      && forall k :: i < k < |s| ==> !ValidAt(s[k], at, validity))
  {
    var init := s[..|s| - 1];
    if !ValidAt(s[|s| - 1], at, validity) {
      RetainLast(init, at, validity);
      var i :| 0 <= i < |init| && init[i] == Retain(init, at, validity)[|Retain(init, at, validity)| - 1]
        && forall k :: i < k < |init| ==> !ValidAt(init[k], at, validity);
      assert s[i] == init[i];
      forall k | i < k < |s| ensures !ValidAt(s[k], at, validity) {
        if k < |init| {
          assert s[k] == init[k];
        }
      }
    }
  }

  /**
   * When `get_price` succeeds its price is that of the latest valid
   * observation: no later observation of the feed is valid.
   */
  lemma LatestValidPriceWins<P(!new)>(feed: PriceFeed<P>, params: Parameters)
    requires GetPrice(feed, params).Success?
    ensures exists i :: (0 <= i < |feed.observations|
      && ValidAt(feed.observations[i], params.blockTime, params.priceFeedPeriod)
      && feed.observations[i].price == GetPrice(feed, params).value
      && forall k :: i < k < |feed.observations| ==> !ValidAt(feed.observations[k], params.blockTime, params.priceFeedPeriod))
  {
    var valid := ValidObservations(feed, params);
    RetainLast(feed.observations, params.blockTime, params.priceFeedPeriod);
    var i :| 0 <= i < |feed.observations| && feed.observations[i] == valid[|valid| - 1]
      && forall k :: i < k < |feed.observations| ==> !ValidAt(feed.observations[k], params.blockTime, params.priceFeedPeriod);
    assert valid[|valid| - 1] in valid;
  }

  /** With a valid observation, the quorum alone decides between a price and NoPrice. */
  lemma QuorumDecides<P(!new)>(feed: PriceFeed<P>, params: Parameters)
    requires |ValidObservations(feed, params)| > 0
    ensures GetPrice(feed, params).Success? <==> CountUniqueFeeders(feed, params) >= params.requiredFeedersCnt
    ensures 1 <= CountUniqueFeeders(feed, params) <= |ValidObservations(feed, params)|
  {
    var valid := ValidObservations(feed, params);
    assert valid[0].feeder in FeedersOf(valid);
    FeedersAtMostObservations(valid);
  }

  /**
   * An observation exactly one period old is dropped; one a nanosecond
   * younger still counts.
   */
  lemma ValidityBoundary<P(!new)>(feeder: Addr, price: P, at: Timestamp, validity: Duration)
    requires validity <= at
    ensures !ValidAt(Observation(feeder, at - validity, price), at, validity)
    ensures ValidAt(Observation(feeder, at - validity + 1, price), at, validity)
  {
  }

  /**
   * One feeder's observation exactly a minute old gives no price; its second
   * observation a nanosecond later, added with zero validity, replaces it and
   * is the price.
   */
  lemma OldObservations()
    ensures var minute := 60 * NANOS_PER_SEC;
      var params := Parameters(minute, 1, 100 * NANOS_PER_SEC);
      var t1 := 40 * NANOS_PER_SEC;
      var feed := Added(PriceFeed([]), "feeder1", t1, 20, minute);
      GetPrice(feed, params) == Failure(NoPrice)
      && Added(feed, "feeder1", t1 + 1, 19, 0) == PriceFeed([Observation("feeder1", t1 + 1, 19)])
      && GetPrice(Added(feed, "feeder1", t1 + 1, 19, 0), params) == Success(19)
  {
    var minute := 60 * NANOS_PER_SEC;
    var params := Parameters(minute, 1, 100 * NANOS_PER_SEC);
    var t1 := 40 * NANOS_PER_SEC;
    var o1 := Observation("feeder1", t1, 20);
    var o2 := Observation("feeder1", t1 + 1, 19);
    RetainSnoc([], o1, params.blockTime, minute);
    assert ValidObservations(PriceFeed([o1]), params) == [];
    RetainSnoc([], o1, t1 + 1, 0);
    RetainSnoc([], o2, params.blockTime, minute);
    assert ValidObservations(PriceFeed([o2]), params) == [o2];
    SingleFeeder(o2);
  }

  /** One observation stands for one feeder. */
  lemma SingleFeeder<P(!new)>(o: Observation<P>)
    ensures FeedersOf([o]) == {o.feeder}
  {
    assert o in [o];
  }

  /** One fresh observation meets a quorum of one and misses a quorum of two. */
  lemma LessFeeders()
    ensures var minute := 60 * NANOS_PER_SEC;
      var now := 100 * NANOS_PER_SEC;
      var feed := Added(PriceFeed([]), "feeder1", now, 20, minute);
      GetPrice(feed, Parameters(minute, 2, now)) == Failure(NoPrice)
      && GetPrice(feed, Parameters(minute, 1, now)) == Success(20)
  {
    var minute := 60 * NANOS_PER_SEC;
    var now := 100 * NANOS_PER_SEC;
    var o := Observation("feeder1", now, 20);
    RetainSnoc([], o, now, minute);
    SingleFeeder(o);
  }

  /** The feed of the two-feeder scenario: feeder1 at 90 s, then feeder2 a nanosecond later. */
  lemma TwoFeedersFeed()
    ensures var minute := 60 * NANOS_PER_SEC;
      var t1 := 90 * NANOS_PER_SEC;
      Added(Added(PriceFeed([]), "feeder1", t1, 20, minute), "feeder2", t1 + 1, 19, minute)
        == PriceFeed([Observation("feeder1", t1, 20), Observation("feeder2", t1 + 1, 19)])
  {
    var minute := 60 * NANOS_PER_SEC;
    var t1 := 90 * NANOS_PER_SEC;
    var o1 := Observation("feeder1", t1, 20);
    RetainSnoc([], o1, t1 + 1, minute);
    assert Added(PriceFeed([]), "feeder1", t1, 20, minute).observations == [o1];
  }

  /** Two feeders a nanosecond apart meet a quorum of two while both are valid. */
  lemma TwoFeedersBothValid()
    ensures var t1 := 90 * NANOS_PER_SEC;
      var feed := PriceFeed([Observation("feeder1", t1, 20), Observation("feeder2", t1 + 1, 19)]);
      GetPrice(feed, Parameters(60 * NANOS_PER_SEC, 2, t1 + 1)) == Success(19)
  {
    var minute := 60 * NANOS_PER_SEC;
    var t1 := 90 * NANOS_PER_SEC;
    var o1 := Observation("feeder1", t1, 20);
    var o2 := Observation("feeder2", t1 + 1, 19);
    assert [o1] + [o2] == [o1, o2];
    RetainSnoc([], o1, t1 + 1, minute);
    RetainSnoc([o1], o2, t1 + 1, minute);
    var feeders := FeedersOf([o1, o2]);
    assert "feeder1" in feeders && "feeder2" in feeders;
    assert feeders == {"feeder1", "feeder2"};
  }

  /** Once the older of the two observations has aged out, the quorum of two is missed. */
  lemma TwoFeedersOlderAgedOut()
    ensures var t1 := 90 * NANOS_PER_SEC;
      var feed := PriceFeed([Observation("feeder1", t1, 20), Observation("feeder2", t1 + 1, 19)]);
      GetPrice(feed, Parameters(60 * NANOS_PER_SEC, 2, 150 * NANOS_PER_SEC)) == Failure(NoPrice)
  {
    var minute := 60 * NANOS_PER_SEC;
    var t1 := 90 * NANOS_PER_SEC;
    var o1 := Observation("feeder1", t1, 20);
    var o2 := Observation("feeder2", t1 + 1, 19);
    assert [o1] + [o2] == [o1, o2];
    RetainSnoc([], o1, 150 * NANOS_PER_SEC, minute);
    RetainSnoc([o1], o2, 150 * NANOS_PER_SEC, minute);
    var params := Parameters(minute, 2, 150 * NANOS_PER_SEC);
    assert ValidObservations(PriceFeed([o1, o2]), params) == [o2];
    SingleFeeder(o2);
    assert CountUniqueFeeders(PriceFeed([o1, o2]), params) == 1;
  }
}
