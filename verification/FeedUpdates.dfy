/** The feeds that an asset keeps, and the update of its current feed. */
module FeedUpdates {
  import opened Counting
  import opened PriceFeeds

  class BitassetData {
    const feedLifetime: nat
    var feeds: seq<(nat, Feed)> // publication time and feed, in the order of the publishers
    var currentFeed: Feed
    var publicationTime: nat

    constructor (feedLifetime: nat)
      ensures this.feedLifetime == feedLifetime && feeds == [] && currentFeed == NO_FEED && publicationTime == 0
    {
      this.feedLifetime, feeds, currentFeed, publicationTime := feedLifetime, [], NO_FEED, 0;
    }

    /** No live feed leaves none, one is taken as it is, and more leave the median of every field. */
    method UpdateMedianFeeds(now: nat)
      requires forall f <- feeds :: Sortable(f.1)
      modifies `currentFeed, `publicationTime
      ensures publicationTime == PublicationTime(feeds, now, feedLifetime)
      ensures var live := LiveFeeds(feeds, now, feedLifetime);
              if |live| == 0 then currentFeed == NO_FEED
              else if |live| == 1 then currentFeed == live[0]
              else IsMedianFeed(live, currentFeed)
    {
      hide LessBy, Sortable, IsMedian, SameField, LiveFeeds, PublicationTime;
      var live;
      live, publicationTime := CollectLive(now);
      if |live| == 0 {
        currentFeed := NO_FEED;
      } else if |live| == 1 {
        currentFeed := live[0];
      } else {
        var f0, r0 := Median(CallLimit, live, live);
        var f1, r1 := Median(ShortLimit, live, r0);
        var f2, r2 := Median(SettlementPrice, live, r1);
        var f3, r3 := Median(MarginPeriod, live, r2);
        var f4, r4 := Median(Initial, live, r3);
        var f5, _ := Median(Maintenance, live, r4);
        currentFeed := Feed(f0.callLimit, f1.shortLimit, f2.settlementPrice, f3.maxMarginPeriod, f4.requiredInitial,
                            f5.requiredMaintenance);
        FieldsAreSame(f0, f1, f2, f3, f4, f5);
        FieldsAreMedians(live, f0, f1, f2, f3, f4, f5, currentFeed);
      }
    }

    method CollectLive(now: nat) returns (live: seq<Feed>, earliest: nat)
      requires forall f <- feeds :: Sortable(f.1)
      ensures live == LiveFeeds(feeds, now, feedLifetime) && earliest == PublicationTime(feeds, now, feedLifetime)
      ensures forall f <- live :: Sortable(f)
    {
      hide Sortable;
      live, earliest := [], now;
      assert feeds[0..] == feeds;
      for i := 0 to |feeds|
        invariant live + LiveFeeds(feeds[i..], now, feedLifetime) == LiveFeeds(feeds, now, feedLifetime)
        invariant earliest <= now
        invariant PublicationTime(feeds, now, feedLifetime) == Min(earliest, PublicationTime(feeds[i..], now, feedLifetime))
        invariant forall f <- live :: Sortable(f)
      {
        assert feeds[i..][1..] == feeds[i + 1..] && feeds[i] in feeds;
        if IsLive(feeds[i].0, now, feedLifetime) {
          live := live + [feeds[i].1];
          earliest := Min(earliest, feeds[i].0);
        }
      }
    }
  }

  function Min(a: nat, b: nat): nat {
    if a <= b then a else b
  }

  lemma FieldsAreSame(f0: Feed, f1: Feed, f2: Feed, f3: Feed, f4: Feed, f5: Feed)
    ensures var m := Feed(f0.callLimit, f1.shortLimit, f2.settlementPrice, f3.maxMarginPeriod, f4.requiredInitial,
                          f5.requiredMaintenance);
            && SameField(CallLimit, f0, m) && SameField(ShortLimit, f1, m) && SameField(SettlementPrice, f2, m)
            && SameField(MarginPeriod, f3, m) && SameField(Initial, f4, m) && SameField(Maintenance, f5, m)
  {
  }

  lemma FieldsAreMedians(live: seq<Feed>, f0: Feed, f1: Feed, f2: Feed, f3: Feed, f4: Feed, f5: Feed, m: Feed)
    requires IsMedian(CallLimit, live, f0) && SameField(CallLimit, f0, m)
    requires IsMedian(ShortLimit, live, f1) && SameField(ShortLimit, f1, m)
    requires IsMedian(SettlementPrice, live, f2) && SameField(SettlementPrice, f2, m)
    requires IsMedian(MarginPeriod, live, f3) && SameField(MarginPeriod, f3, m)
    requires IsMedian(Initial, live, f4) && SameField(Initial, f4, m)
    requires IsMedian(Maintenance, live, f5) && SameField(Maintenance, f5, m)
    ensures IsMedianFeed(live, m)
  {
    hide IsMedian, SameField;
    FieldIsMedian(CallLimit, live, f0, m);
    FieldIsMedian(ShortLimit, live, f1, m);
    FieldIsMedian(SettlementPrice, live, f2, m);
    FieldIsMedian(MarginPeriod, live, f3, m);
    FieldIsMedian(Initial, live, f4, m);
    FieldIsMedian(Maintenance, live, f5, m);
    forall field
      ensures IsMedian(field, live, m)
    {
      match field
      case CallLimit =>
      case ShortLimit =>
      case SettlementPrice =>
      case MarginPeriod =>
      case Initial =>
      case Maintenance =>
    }
  }

  /** Selects the middle element by a field, from an order that earlier selections left. */
  method Median(field: Field, live: seq<Feed>, s: seq<Feed>) returns (m: Feed, r: seq<Feed>)
    requires |live| > 0 && |s| == |live| && multiset(s) == multiset(live) && forall f <- live :: Sortable(f)
    ensures IsMedian(field, live, m)
    ensures |r| == |live| && multiset(r) == multiset(live)
  {
    hide LessBy, Sortable, IsMedian;
    assert forall f <- s :: Sortable(f) by {
      forall f <- s
        ensures Sortable(f)
      {
        assert f in multiset(live);
      }
    }
    FieldIsWeakOrder(field, s);
    r := NthElement(s, |s| / 2, LessFn(field));
    m := r[|r| / 2];
    assert m in multiset(s);
    assert !LessFn(field)(m, m);
    NthIsMedian(field, live, r);
  }
}
