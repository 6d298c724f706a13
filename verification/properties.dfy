/** Properties of the whole `findCheaperNearby` computation that relate
    several queries or several requests. */
module ControllerProperties {
  import opened Wrappers
  import opened House
  import opened Store
  import opened HouseController
  import Seqs

  /** The benchmark and the in-area count depend only on the area and the
      proximity, never on the user's filters. */
  lemma {:induction false} BenchmarkIgnoresFilters(dist: Metric, houses: seq<Listing>, b1: Body, b2: Body)
    requires b1.defaultArea == b2.defaultArea && b1.searchProximity == b2.searchProximity
    ensures var r1 := FindCheaperNearby(dist, houses, b1).response;
      var r2 := FindCheaperNearby(dist, houses, b2).response;
      && r1.Success() == r2.Success()
      && (r1.Success() ==> r1.Benchmark() == r2.Benchmark() && r1.InAreaCount() == r2.InAreaCount())
  {
    var v := Validate(b1.defaultArea, b1.searchProximity);
    if v.Success? {
      var inArea := Find(dist, houses, InnerQuery(v.value));
      if |inArea| > 0 {
        var r1 := FindCheaperNearby(dist, houses, b1).response;
        var r2 := FindCheaperNearby(dist, houses, b2).response;
        assert r1.Found? && r2.Found?;
      }
    }
  }

  /** An empty default area is a successful reply with a `null`
      benchmark, a zero count and no listings. */
  lemma {:induction false} EmptyAreaReply(dist: Metric, houses: seq<Listing>, body: Body)
    requires Validate(body.defaultArea, body.searchProximity).Success?
    requires |Find(dist, houses, InnerQuery(Validate(body.defaultArea, body.searchProximity).value))| == 0
    ensures var r := FindCheaperNearby(dist, houses, body).response;
      && r.Status() == 200
      && r.Success()
      && r.Message() == Some(NoBenchmarkMessage)
      && r.Benchmark() == None
      && r.InAreaCount() == 0
      && r.Houses() == []
  {
  }

  /** A reported benchmark lies between the cheapest and the dearest
      listing of the default area. */
  lemma {:induction false} BenchmarkWithinAreaPrices(dist: Metric, houses: seq<Listing>, body: Body)
    ensures var r := FindCheaperNearby(dist, houses, body).response;
      r.Found? ==>
        && var v := Validate(body.defaultArea, body.searchProximity);
        && v.Success?
        && var prices := Prices(Find(dist, houses, InnerQuery(v.value)));
        && |prices| > 0
        && Min(prices) <= r.benchmarkPrice <= Max(prices)
  {
    var v := Validate(body.defaultArea, body.searchProximity);
    if FindCheaperNearby(dist, houses, body).response.Found? {
      MedianBounds(Prices(Find(dist, houses, InnerQuery(v.value))));
    }
  }

  /** No listing is returned by both the default-area query and the ring
      query of the same request. */
  lemma {:induction false} InnerRingDisjoint(dist: Metric, houses: seq<Listing>, c: Circle, f: Filters)
    requires c.radius > 0.0 && c.proximity > 0.0
    ensures var inArea := Find(dist, houses, InnerQuery(c));
      var ring := Find(dist, houses, AnnulusQuery(c, f));
      forall i, j :: 0 <= i < |inArea| && 0 <= j < |ring| ==> inArea[i] != ring[j]
  {
    var inArea := Find(dist, houses, InnerQuery(c));
    var ring := Find(dist, houses, AnnulusQuery(c, f));
    forall i, j | 0 <= i < |inArea| && 0 <= j < |ring|
      ensures inArea[i] != ring[j]
    {
      assert Matches(dist, InnerQuery(c), inArea[i]);
      assert Matches(dist, AnnulusQuery(c, f), ring[j]);
    }
  }

  /** When every document has a unique identifier, no identifier occurs
      in both result sets. */
  lemma {:induction false} InnerRingDisjointIds(dist: Metric, houses: seq<Listing>, c: Circle, f: Filters)
    requires c.radius > 0.0 && c.proximity > 0.0
    requires UniqueIds(houses)
    ensures var inArea := Find(dist, houses, InnerQuery(c));
      var ring := Find(dist, houses, AnnulusQuery(c, f));
      forall i, j :: 0 <= i < |inArea| && 0 <= j < |ring| ==> inArea[i].id != ring[j].id
  {
    var inArea := Find(dist, houses, InnerQuery(c));
    var ring := Find(dist, houses, AnnulusQuery(c, f));
    InnerRingDisjoint(dist, houses, c, f);
    forall i, j | 0 <= i < |inArea| && 0 <= j < |ring|
      ensures inArea[i].id != ring[j].id
    {
      var a :| 0 <= a < |houses| && houses[a] == inArea[i];
      var b :| 0 <= b < |houses| && houses[b] == ring[j];
      assert houses[a] != houses[b];
    }
  }

  /** Without attribute filters, the default area and the ring together
      cover the outer disk: every stored listing within the outer radius
      is returned by exactly one of the two queries. */
  lemma {:induction false} InnerRingCoverOuterDisk(dist: Metric, houses: seq<Listing>, c: Circle, h: Listing)
    requires c.radius > 0.0 && c.proximity > 0.0
    requires h in houses && dist(c.center, h.location) <= SearchRadius(c)
    ensures (h in Find(dist, houses, InnerQuery(c))) != (h in Find(dist, houses, AnnulusQuery(c, NoFilters)))
  {
    var i :| 0 <= i < |houses| && houses[i] == h;
    var inArea := Find(dist, houses, InnerQuery(c));
    var ring := Find(dist, houses, AnnulusQuery(c, NoFilters));
    if dist(c.center, h.location) <= c.radius {
      assert h in inArea;
      InnerRingDisjoint(dist, houses, c, NoFilters);
    } else {
      assert Matches(dist, AnnulusQuery(c, NoFilters), h);
      assert h in ring;
      InnerRingDisjoint(dist, houses, c, NoFilters);
    }
  }

  /** Whether a stored listing belongs in the reply: it is in the ring,
      meets the pushed-down attribute filters, is strictly cheaper than
      the benchmark and respects a truthy `maxPrice`. */
  ghost function Qualifies(dist: Metric, c: Circle, f: Filters, benchmark: real): Listing -> bool
    requires c.radius > 0.0 && c.proximity > 0.0
  {
    h =>
      && Matches(dist, AnnulusQuery(c, f), h)
      && h.price < benchmark
      && (TruthyNum(f.maxPrice) ==> h.price <= f.maxPrice.value)
  }

  /** The test the two filter passes apply together: strictly below the
      benchmark and, for a truthy cap, at most `maxPrice`. */
  function Keeps(b: real, maxPrice: Option<real>): Listing -> bool
  {
    (h: Listing) => h.price < b && (TruthyNum(maxPrice) ==> h.price <= maxPrice.value)
  }

  /** The two filter passes after a store query make one pass with the
      combined test. */
  lemma {:induction false} FilterCheaperOnePass(p: Listing -> bool, houses: seq<Listing>, b: real, maxPrice: Option<real>)
    ensures FilterCheaper(Seqs.Filter(p, houses), b, maxPrice) == Seqs.Filter(Seqs.And(p, Keeps(b, maxPrice)), houses)
  {
    var s := Seqs.Filter(p, houses);
    var both := Seqs.And(p, CheaperThan(b));
    Seqs.FilterFilter(p, CheaperThan(b), houses);
    if TruthyNum(maxPrice) {
      var m := maxPrice.value;
      assert FilterCheaper(s, b, maxPrice) == Seqs.Filter(AtMost(m), Seqs.Filter(both, houses));
      Seqs.FilterFilter(both, AtMost(m), houses);
      Seqs.FilterExtensional(Seqs.And(both, AtMost(m)), Seqs.And(p, Keeps(b, maxPrice)), houses);
    } else {
      assert FilterCheaper(s, b, maxPrice) == Seqs.Filter(both, houses);
      Seqs.FilterExtensional(both, Seqs.And(p, Keeps(b, maxPrice)), houses);
    }
  }

  /** The reply's list is one pass over the store with the combined test:
      the query followed by two filter passes neither reorders nor drops
      anything else. */
  lemma {:induction false} ReplyIsOnePass(dist: Metric, houses: seq<Listing>, c: Circle, f: Filters)
    requires c.radius > 0.0 && c.proximity > 0.0
    ensures var o := Search(dist, houses, c, f);
      o.response.Found? ==>
        o.response.cheaperNearbyHouses
          == Seqs.Filter(Qualifies(dist, c, f, o.response.benchmarkPrice), houses)
  {
    var o := Search(dist, houses, c, f);
    if o.response.Found? {
      var b := o.response.benchmarkPrice;
      var sel := Selects(dist, AnnulusQuery(c, f));
      assert Find(dist, houses, AnnulusQuery(c, f)) == Seqs.Filter(sel, houses);
      assert o.response.cheaperNearbyHouses == FilterCheaper(Seqs.Filter(sel, houses), b, f.maxPrice);
      FilterCheaperOnePass(sel, houses, b, f.maxPrice);
      Seqs.FilterExtensional(Seqs.And(sel, Keeps(b, f.maxPrice)), Qualifies(dist, c, f, b), houses);
    }
  }
}
