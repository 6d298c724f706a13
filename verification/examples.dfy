/** Concrete requests worked through the model: the medians of
    [100, 300], [100, 200, 300] and [300, 100, 200], and end-to-end
    searches along a straight line. */
module Examples {
  import opened Wrappers
  import opened Json
  import opened House
  import opened Store
  import opened HouseController
  import Seqs

  lemma MedianOfEmpty()
    ensures CalculateMedianPrice(None) == 0.0
    ensures CalculateMedianPrice(Some([])) == 0.0
  {
  }

  lemma MedianOfTwo()
    ensures CalculateMedianPrice(Some([100.0, 300.0])) == 200.0
  {
    House.AscendingEven([100.0, 300.0], 0);
  }

  lemma MedianOfThree()
    ensures CalculateMedianPrice(Some([100.0, 200.0, 300.0])) == 200.0
  {
    House.AscendingOdd([100.0, 200.0, 300.0], 1);
  }

  lemma SameThreePrices()
    ensures multiset([300.0, 100.0, 200.0]) == multiset([100.0, 200.0, 300.0])
  {
    assert [300.0, 100.0, 200.0] == [300.0] + [100.0, 200.0];
    assert [100.0, 200.0, 300.0] == [100.0, 200.0] + [300.0];
  }

  /** The benchmark does not depend on the order of the prices. */
  lemma MedianOfThreeUnordered()
    ensures CalculateMedianPrice(Some([300.0, 100.0, 200.0])) == 200.0
  {
    MedianOfThree();
    SameThreePrices();
    House.MedianPermutation([300.0, 100.0, 200.0], [100.0, 200.0, 300.0]);
  }

  /** Distance measured along the longitude axis only. */
  function LineDistance(a: Point, b: Point): real
  {
    if a.lng >= b.lng then a.lng - b.lng else b.lng - a.lng
  }

  function At(id: nat, lng: real, price: real): Listing
  {
    Listing(id, "", price, Point(lng, 0.0), None, None, None, None, None)
  }

  /** A circle of radius 1000 around the origin. */
  function Area(): Value
  {
    Obj(map[
      "type" := Str("Circle"),
      "center" := Obj(map["lat" := Num(0.0), "lng" := Num(0.0)]),
      "radius" := Num(1000.0)])
  }

  function Circle1000(): Circle
  {
    Circle(Point(0.0, 0.0), 1000.0, 2000.0)
  }

  lemma AreaIsValid()
    ensures Validate(Area(), Num(2000.0)) == Success(Circle1000())
  {
  }

  function InArea(): seq<Listing>
  {
    [At(1, 100.0, 100000.0), At(2, 200.0, 200000.0), At(3, 300.0, 300000.0)]
  }

  function RingListings(): seq<Listing>
  {
    [At(4, 1500.0, 150000.0), At(5, 1600.0, 200000.0), At(6, 1700.0, 250000.0)]
  }

  function Beyond(): seq<Listing>
  {
    [At(7, 5000.0, 10.0)]
  }

  /** Three listings inside the default area, three in the ring and one
      beyond the outer radius. */
  function Street(): seq<Listing>
  {
    InArea() + (RingListings() + Beyond())
  }

  lemma InAreaSelected()
    ensures Seqs.Filter(Selects(LineDistance, InnerQuery(Circle1000())), InArea()) == InArea()
  {
    Seqs.FilterKeepsAll(Selects(LineDistance, InnerQuery(Circle1000())), InArea());
  }

  lemma OutsideNotSelected()
    ensures Seqs.Filter(Selects(LineDistance, InnerQuery(Circle1000())), RingListings() + Beyond()) == []
  {
    Seqs.FilterDropsAll(Selects(LineDistance, InnerQuery(Circle1000())), RingListings() + Beyond());
  }

  lemma StreetInArea()
    ensures Find(LineDistance, Street(), InnerQuery(Circle1000())) == InArea()
  {
    InAreaSelected();
    OutsideNotSelected();
    Seqs.FilterAppend(Selects(LineDistance, InnerQuery(Circle1000())), InArea(), RingListings() + Beyond());
  }

  lemma InAreaNotInRing()
    ensures Seqs.Filter(Selects(LineDistance, AnnulusQuery(Circle1000(), NoFilters)), InArea()) == []
  {
    Seqs.FilterDropsAll(Selects(LineDistance, AnnulusQuery(Circle1000(), NoFilters)), InArea());
  }

  lemma RingSelected()
    ensures Seqs.Filter(Selects(LineDistance, AnnulusQuery(Circle1000(), NoFilters)), RingListings()) == RingListings()
  {
    Seqs.FilterKeepsAll(Selects(LineDistance, AnnulusQuery(Circle1000(), NoFilters)), RingListings());
  }

  lemma BeyondNotInRing()
    ensures Seqs.Filter(Selects(LineDistance, AnnulusQuery(Circle1000(), NoFilters)), Beyond()) == []
  {
    Seqs.FilterDropsAll(Selects(LineDistance, AnnulusQuery(Circle1000(), NoFilters)), Beyond());
  }

  lemma StreetRing()
    ensures Find(LineDistance, Street(), AnnulusQuery(Circle1000(), NoFilters)) == RingListings()
  {
    var p := Selects(LineDistance, AnnulusQuery(Circle1000(), NoFilters));
    InAreaNotInRing();
    RingSelected();
    BeyondNotInRing();
    Seqs.FilterAppend(p, RingListings(), Beyond());
    Seqs.FilterAppend(p, InArea(), RingListings() + Beyond());
  }

  lemma StreetBenchmark()
    ensures CalculateMedianPrice(Some(Prices(InArea()))) == 200000.0
  {
    assert Prices(InArea()) == [100000.0, 200000.0, 300000.0];
    House.AscendingOdd([100000.0, 200000.0, 300000.0], 1);
  }

  lemma StreetCheaper()
    ensures FilterCheaper(RingListings(), 200000.0, None) == [At(4, 1500.0, 150000.0)]
  {
  }

  /** Inner prices 100000, 200000 and 300000 give the benchmark 200000;
      of the ring listings only the one at 150000 is cheaper, the one at
      exactly 200000 is not. The listing beyond the outer radius is never
      considered. */
  lemma CheaperRingExample()
    ensures FindCheaperNearby(LineDistance, Street(), Body(Area(), Num(2000.0), NoFilters)).response
      == Found(200000.0, 3, [At(4, 1500.0, 150000.0)])
  {
    AreaIsValid();
    StreetInArea();
    StreetRing();
    StreetBenchmark();
    StreetCheaper();
  }

  /** With nothing inside the default area the reply carries no benchmark,
      a zero count and an empty list, and the ring is never queried. */
  lemma EmptyAreaExample()
    ensures var o := FindCheaperNearby(LineDistance, [At(1, 1500.0, 1.0)], Body(Area(), Num(2000.0), NoFilters));
      && o.response.Success()
      && o.response.Benchmark() == None
      && o.response.InAreaCount() == 0
      && o.response.Houses() == []
      && |o.queries| == 1
  {
    AreaIsValid();
    Seqs.FilterDropsAll(Selects(LineDistance, InnerQuery(Circle1000())), [At(1, 1500.0, 1.0)]);
  }

  /** A negative proximity is a client error naming the proximity, and no
      query reaches the store. */
  lemma NegativeProximityExample(houses: seq<Listing>)
    ensures var o := FindCheaperNearby(LineDistance, houses, Body(Area(), Num(-5.0), NoFilters));
      && o.response.Status() == 400
      && !o.response.Success()
      && o.response.Message() == Some("Radius and proximity must be positive numbers")
      && o.queries == []
  {
    assert Validate(Area(), Num(-5.0)) == Failure(NonPositiveSize);
  }

  function Mansion(): seq<Listing>
  {
    [At(1, 100.0, 500000.0)]
  }

  function Affordable(): seq<Listing>
  {
    [At(2, 1500.0, 110000.0), At(3, 1600.0, 120000.0)]
  }

  function Pricey(): seq<Listing>
  {
    [At(4, 1700.0, 130000.0)]
  }

  function Cottages(): seq<Listing>
  {
    Affordable() + Pricey()
  }

  function CapFilters(): Filters
  {
    Filters(None, Some(120000.0), None, None, None)
  }

  lemma MansionInArea()
    ensures Find(LineDistance, Mansion() + Cottages(), InnerQuery(Circle1000())) == Mansion()
  {
    var p := Selects(LineDistance, InnerQuery(Circle1000()));
    Seqs.FilterKeepsAll(p, Mansion());
    Seqs.FilterDropsAll(p, Cottages());
    Seqs.FilterAppend(p, Mansion(), Cottages());
  }

  lemma CottagesInRing()
    ensures Find(LineDistance, Mansion() + Cottages(), AnnulusQuery(Circle1000(), CapFilters())) == Cottages()
  {
    var p := Selects(LineDistance, AnnulusQuery(Circle1000(), CapFilters()));
    Seqs.FilterDropsAll(p, Mansion());
    Seqs.FilterKeepsAll(p, Cottages());
    Seqs.FilterAppend(p, Mansion(), Cottages());
  }

  lemma CottagesBelowBenchmark()
    ensures Cheaper(Cottages(), 500000.0) == Cottages()
  {
    Seqs.FilterKeepsAll(CheaperThan(500000.0), Cottages());
  }

  lemma CottagesCapped()
    ensures CapAtMaxPrice(Cottages(), Some(120000.0)) == Affordable()
  {
    Seqs.FilterKeepsAll(AtMost(120000.0), Affordable());
    Seqs.FilterDropsAll(AtMost(120000.0), Pricey());
    Seqs.FilterAppend(AtMost(120000.0), Affordable(), Pricey());
  }

  lemma MansionBenchmark()
    ensures CalculateMedianPrice(Some(Prices(Mansion()))) == 500000.0
  {
    assert Prices(Mansion()) == [500000.0];
  }

  /** A `maxPrice` below some benchmark-passing ring listings keeps only
      those at or below it; the one priced exactly at the cap stays. */
  lemma MaxPriceExample()
    ensures FindCheaperNearby(LineDistance, Mansion() + Cottages(), Body(Area(), Num(2000.0), CapFilters())).response
      == Found(500000.0, 1, [At(2, 1500.0, 110000.0), At(3, 1600.0, 120000.0)])
  {
    AreaIsValid();
    MansionInArea();
    CottagesInRing();
    MansionBenchmark();
    CottagesBelowBenchmark();
    CottagesCapped();
  }
}
