/** The `findCheaperNearby` request handler, split into its pure steps:
    request validation, query planning, the benchmark and `maxPrice`
    filters, and response assembly. The store is passed in as a
    collection plus a metric, so the handler is a pure function that also
    reports the queries it issued. */
module HouseController {
  import opened Wrappers
  import opened Json
  import opened House
  import opened Store
  import Seqs

  // ---------------------------------------------------------------------
  // Request and response
  // ---------------------------------------------------------------------

  /** The optional search filters; a field that was not sent is `None`.
      A body without `filters` is handled as `NoFilters`. */
  datatype Filters = Filters(
    minPrice: Option<real>,
    maxPrice: Option<real>,
    minBeds: Option<real>,
    minBaths: Option<real>,
    propertyType: Option<string>)

  const NoFilters := Filters(None, None, None, None, None)

  /** The parsed request body. `defaultArea` and `searchProximity` are
      raw JSON values, since checking their presence and types is part of
      the handler's job. */
  datatype Body = Body(defaultArea: Value, searchProximity: Value, filters: Filters)

  /** JavaScript truthiness of an optional numeric filter: absent and 0
      are falsy. */
  predicate TruthyNum(v: Option<real>)
  {
    v.Some? && v.value != 0.0
  }

  /** JavaScript truthiness of an optional string filter: absent and the
      empty string are falsy. */
  predicate TruthyStr(v: Option<string>)
  {
    v.Some? && v.value != ""
  }

  /** The three client errors, in the order they are checked. */
  datatype ValidationError = MissingOrInvalid | UnsupportedAreaType | NonPositiveSize
  {
    function Message(): string
    {
      match this
      case MissingOrInvalid =>
        "Missing or invalid required parameters: defaultArea (center {lat, lng}, radius), searchProximity"
      case UnsupportedAreaType => "Only Circle defaultArea type supported in this example"
      case NonPositiveSize => "Radius and proximity must be positive numbers"
    }
  }

  const NoBenchmarkMessage := "No houses found in the selected default area to calculate benchmark."

  /** The handler's JSON reply. */
  datatype Response =
    | BadRequest(error: ValidationError)
    | NoBenchmark
    | Found(benchmarkPrice: real, housesInAreaCount: nat, cheaperNearbyHouses: seq<Listing>)
  {
    function Status(): nat
    {
      if BadRequest? then 400 else 200
    }

    predicate Success()
    {
      !BadRequest?
    }

    function Message(): Option<string>
    {
      match this
      case BadRequest(e) => Some(e.Message())
      case NoBenchmark => Some(NoBenchmarkMessage)
      case Found(_, _, _) => None
    }

    /** The `benchmarkPrice` field: `null` when no benchmark exists. */
    function Benchmark(): Option<real>
      requires !BadRequest?
    {
      if Found? then Some(benchmarkPrice) else None
    }

    /** The `housesInAreaCount` field. */
    function InAreaCount(): nat
      requires !BadRequest?
    {
      if Found? then housesInAreaCount else 0
    }

    /** The `cheaperNearbyHouses` field. */
    function Houses(): seq<Listing>
      requires !BadRequest?
    {
      if Found? then cheaperNearbyHouses else []
    }
  }

  /** What one call of the handler produced: the reply, and the store
      queries it issued, in order. */
  datatype Outcome = Outcome(response: Response, queries: seq<Query>)

  // ---------------------------------------------------------------------
  // Validation
  // ---------------------------------------------------------------------

  /** A validated circular default area. */
  datatype Circle = Circle(center: Point, radius: real, proximity: real)

  /** The required fields are present and have the right JavaScript
      types: `defaultArea` and its `center` are truthy, and `lat`, `lng`,
      `radius` and `searchProximity` are numbers. */
  predicate WellFormed(area: Value, proximity: Value)
  {
    && Truthy(area)
    && Truthy(Get(area, "center"))
    && IsNumber(Get(Get(area, "center"), "lat"))
    && IsNumber(Get(Get(area, "center"), "lng"))
    && IsNumber(Get(area, "radius"))
    && IsNumber(proximity)
  }

  /** The body's checks, in the handler's order: structure and types
      first, then the area type, then the sizes. */
  function Validate(area: Value, proximity: Value): (r: Result<Circle, ValidationError>)
    ensures r == Failure(MissingOrInvalid) <==> !WellFormed(area, proximity)
    ensures r == Failure(UnsupportedAreaType) <==>
      WellFormed(area, proximity) && Get(area, "type") != Str("Circle")
    ensures r == Failure(NonPositiveSize) <==>
      && WellFormed(area, proximity)
      && Get(area, "type") == Str("Circle")
      && (Get(area, "radius").n <= 0.0 || proximity.n <= 0.0)
    ensures r.Success? ==>
      && WellFormed(area, proximity)
      && Get(area, "type") == Str("Circle")
      && r.value.center == Point(Get(Get(area, "center"), "lng").n, Get(Get(area, "center"), "lat").n)
      && r.value.radius == Get(area, "radius").n > 0.0
      && r.value.proximity == proximity.n > 0.0
  {
    if !WellFormed(area, proximity) then
      Failure(MissingOrInvalid)
    else if Get(area, "type") != Str("Circle") then
      Failure(UnsupportedAreaType)
    else
      var center := Get(area, "center");
      var radius := Get(area, "radius").n;
      if radius <= 0.0 || proximity.n <= 0.0 then
        Failure(NonPositiveSize)
      else
        Success(Circle(Point(Get(center, "lng").n, Get(center, "lat").n), radius, proximity.n))
  }

  // ---------------------------------------------------------------------
  // Query planning
  // ---------------------------------------------------------------------

  /** The outer radius: the default radius widened by the proximity. */
  function SearchRadius(c: Circle): (r: real)
    requires c.radius > 0.0 && c.proximity > 0.0
    ensures r > c.radius && r > c.proximity
    ensures r - c.proximity == c.radius
  {
    c.radius + c.proximity
  }

  /** Whether listing `h` lies in the ring around the default area:
      within the outer radius but not within the default radius. */
  predicate InRing(dist: Metric, c: Circle, h: Listing)
    requires c.radius > 0.0 && c.proximity > 0.0
  {
    dist(c.center, h.location) <= SearchRadius(c) && !(dist(c.center, h.location) <= c.radius)
  }

  /** The default-area query: every listing within the default radius,
      with no attribute predicate, so the benchmark sees the whole area. */
  function InnerQuery(c: Circle): (q: Query)
    ensures q.center == c.center
    ensures forall dist: Metric, h: Listing :: Matches(dist, q, h) <==> dist(c.center, h.location) <= c.radius
  {
    Query(c.center, c.radius, None, None, None, None, None)
  }

  /** The ring query. Each attribute filter becomes a predicate only when
      its value is truthy; `maxPrice` is never pushed into the store. */
  function AnnulusQuery(c: Circle, f: Filters): (q: Query)
    requires c.radius > 0.0 && c.proximity > 0.0
    ensures q.center == c.center
    ensures forall dist: Metric, h: Listing :: Matches(dist, q, h) <==>
      && InRing(dist, c, h)
      && (TruthyNum(f.minPrice) ==> h.price >= f.minPrice.value)
      && (TruthyNum(f.minBeds) ==> h.bedrooms.Some? && h.bedrooms.value >= f.minBeds.value)
      && (TruthyNum(f.minBaths) ==> h.bathrooms.Some? && h.bathrooms.value >= f.minBaths.value)
      && (TruthyStr(f.propertyType) ==> h.propertyType == f.propertyType)
  {
    Query(
      c.center,
      SearchRadius(c),
      Some(c.radius),
      if TruthyNum(f.minPrice) then f.minPrice else None,
      if TruthyNum(f.minBeds) then f.minBeds else None,
      if TruthyNum(f.minBaths) then f.minBaths else None,
      if TruthyStr(f.propertyType) then f.propertyType else None)
  }

  // ---------------------------------------------------------------------
  // Benchmark and filters
  // ---------------------------------------------------------------------

  /** The prices of some listings, in the same order. */
  function Prices(hs: seq<Listing>): (r: seq<real>)
    ensures |r| == |hs|
    ensures forall i :: 0 <= i < |hs| ==> r[i] == hs[i].price
  {
    seq(|hs|, i requires 0 <= i < |hs| => hs[i].price)
  }

  function CheaperThan(benchmark: real): Listing -> bool
  {
    (h: Listing) => h.price < benchmark
  }

  function AtMost(maxPrice: real): Listing -> bool
  {
    (h: Listing) => h.price <= maxPrice
  }

  /** The listings strictly cheaper than the benchmark; one priced exactly
      at the benchmark is dropped. */
  function Cheaper(houses: seq<Listing>, benchmark: real): (r: seq<Listing>)
    ensures forall i :: 0 <= i < |r| ==> r[i] in houses && r[i].price < benchmark
    ensures forall i :: 0 <= i < |houses| && houses[i].price < benchmark ==> houses[i] in r
    ensures Seqs.IsSubsequence(r, houses)
    ensures forall x :: multiset(r)[x] == if x.price < benchmark then multiset(houses)[x] else 0
  {
    Seqs.FilterIsSubsequence(CheaperThan(benchmark), houses);
    Seqs.FilterMultisets(CheaperThan(benchmark), houses);
    Seqs.Filter(CheaperThan(benchmark), houses)
  }

  /** The optional inclusive `maxPrice` cap; an absent or zero cap leaves
      the list as it is. */
  function CapAtMaxPrice(houses: seq<Listing>, maxPrice: Option<real>): (r: seq<Listing>)
    ensures TruthyNum(maxPrice) ==>
      && (forall i :: 0 <= i < |r| ==> r[i] in houses && r[i].price <= maxPrice.value)
      && (forall i :: 0 <= i < |houses| && houses[i].price <= maxPrice.value ==> houses[i] in r)
    ensures TruthyNum(maxPrice) ==> forall x ::
      multiset(r)[x] == if x.price <= maxPrice.value then multiset(houses)[x] else 0
    ensures !TruthyNum(maxPrice) ==> r == houses
    ensures Seqs.IsSubsequence(r, houses)
  {
    if TruthyNum(maxPrice) then
      Seqs.FilterIsSubsequence(AtMost(maxPrice.value), houses);
      Seqs.FilterMultisets(AtMost(maxPrice.value), houses);
      Seqs.Filter(AtMost(maxPrice.value), houses)
    else
      Seqs.FilterKeepsAll(_ => true, houses);
      Seqs.FilterIsSubsequence(_ => true, houses);
      houses
  }

  /** The filter step after the ring query: the strict benchmark cut,
      then the optional `maxPrice` cap as a second pass. */
  function FilterCheaper(nearby: seq<Listing>, benchmark: real, maxPrice: Option<real>): (r: seq<Listing>)
    ensures forall i :: 0 <= i < |r| ==>
      && r[i] in nearby
      && r[i].price < benchmark
      && (TruthyNum(maxPrice) ==> r[i].price <= maxPrice.value)
    ensures forall i ::
      (0 <= i < |nearby| && nearby[i].price < benchmark
       && (TruthyNum(maxPrice) ==> nearby[i].price <= maxPrice.value))
      ==> nearby[i] in r
    ensures Seqs.IsSubsequence(r, nearby)
    ensures !TruthyNum(maxPrice) ==> r == Cheaper(nearby, benchmark)
  {
    var cheaper := Cheaper(nearby, benchmark);
    var r := CapAtMaxPrice(cheaper, maxPrice);
    Seqs.SubsequenceTrans(r, cheaper, nearby);
    r
  }

  // ---------------------------------------------------------------------
  // The handler
  // ---------------------------------------------------------------------

  /** The handler once the body has been validated to the circle `c`. */
  function Search(dist: Metric, houses: seq<Listing>, c: Circle, f: Filters): (o: Outcome)
    requires c.radius > 0.0 && c.proximity > 0.0
    ensures !o.response.BadRequest?
    ensures |o.queries| >= 1 && o.queries[0] == InnerQuery(c)
    ensures o.response.NoBenchmark? <==> |Find(dist, houses, InnerQuery(c))| == 0
    ensures o.response.NoBenchmark? ==> o.queries == [InnerQuery(c)]
    ensures o.response.Found? ==>
      && var inArea := Find(dist, houses, InnerQuery(c));
      && o.response.housesInAreaCount == |inArea| > 0
      && o.response.benchmarkPrice == CalculateMedianPrice(Some(Prices(inArea)))
      && o.queries == [InnerQuery(c), AnnulusQuery(c, f)]
      && o.response.cheaperNearbyHouses ==
           FilterCheaper(Find(dist, houses, AnnulusQuery(c, f)), o.response.benchmarkPrice, f.maxPrice)
  {
    var inner := InnerQuery(c);
    var inArea := Find(dist, houses, inner);
    if |inArea| == 0 then
      Outcome(NoBenchmark, [inner])
    else
      var benchmark := CalculateMedianPrice(Some(Prices(inArea)));
      var annulus := AnnulusQuery(c, f);
      var nearby := Find(dist, houses, annulus);
      Outcome(Found(benchmark, |inArea|, FilterCheaper(nearby, benchmark, f.maxPrice)), [inner, annulus])
  }

  /** The listings of a `Found` reply, read against the store: each is a
      stored ring listing below the benchmark and within a truthy cap, and
      none of the ring listings that qualify is missing. */
  lemma {:induction false} SearchListings(dist: Metric, houses: seq<Listing>, c: Circle, f: Filters)
    requires c.radius > 0.0 && c.proximity > 0.0
    ensures Search(dist, houses, c, f).response.Found? ==>
      && var nearby := Find(dist, houses, AnnulusQuery(c, f));
      && var out := Search(dist, houses, c, f).response.cheaperNearbyHouses;
      && Seqs.IsSubsequence(out, nearby)
      && (forall i :: 0 <= i < |out| ==>
            && out[i] in houses
            && Matches(dist, AnnulusQuery(c, f), out[i])
            && out[i].price < Search(dist, houses, c, f).response.benchmarkPrice
            && (TruthyNum(f.maxPrice) ==> out[i].price <= f.maxPrice.value))
      && (forall i ::
            (0 <= i < |nearby| && nearby[i].price < Search(dist, houses, c, f).response.benchmarkPrice
             && (TruthyNum(f.maxPrice) ==> nearby[i].price <= f.maxPrice.value))
            ==> nearby[i] in out)
      && (!TruthyNum(f.maxPrice) ==> out == Cheaper(nearby, Search(dist, houses, c, f).response.benchmarkPrice))
  {
    var o := Search(dist, houses, c, f);
    if o.response.Found? {
      CheaperRingListings(dist, houses, AnnulusQuery(c, f), o.response.benchmarkPrice, f.maxPrice);
    }
  }

  /** The filter step applied to a store query: every kept listing is a
      stored listing that matches the query and passes both filters, and
      none of the query's results that pass them is missing. */
  lemma CheaperRingListings(dist: Metric, houses: seq<Listing>, q: Query, b: real, maxPrice: Option<real>)
    ensures var nearby := Find(dist, houses, q);
      var out := FilterCheaper(nearby, b, maxPrice);
      && Seqs.IsSubsequence(out, nearby)
      && (forall i :: 0 <= i < |out| ==>
            && out[i] in houses
            && Matches(dist, q, out[i])
            && out[i].price < b
            && (TruthyNum(maxPrice) ==> out[i].price <= maxPrice.value))
      && (forall i ::
            (0 <= i < |nearby| && nearby[i].price < b
             && (TruthyNum(maxPrice) ==> nearby[i].price <= maxPrice.value))
            ==> nearby[i] in out)
      && (!TruthyNum(maxPrice) ==> out == Cheaper(nearby, b))
  {
  }

  /** One call of the handler against the store `houses` with metric
      `dist`. */
  function FindCheaperNearby(dist: Metric, houses: seq<Listing>, body: Body): (o: Outcome)
    // Validation errors answer 400 and touch no store.
    ensures var v := Validate(body.defaultArea, body.searchProximity);
      && (o.response.BadRequest? <==> v.Failure?)
      && (v.Failure? ==> o.response == BadRequest(v.error) && o.queries == [])
    // An empty default area answers with no benchmark and skips the ring query.
    ensures var v := Validate(body.defaultArea, body.searchProximity);
      v.Success? ==>
        && |o.queries| >= 1
        && o.queries[0] == InnerQuery(v.value)
        && (o.response.NoBenchmark? <==> |Find(dist, houses, InnerQuery(v.value))| == 0)
        && (o.response.NoBenchmark? ==> o.queries == [InnerQuery(v.value)])
    // Otherwise the benchmark is the median of the whole default area.
    ensures var v := Validate(body.defaultArea, body.searchProximity);
      o.response.Found? ==>
        && v.Success?
        && var inArea := Find(dist, houses, InnerQuery(v.value));
        && o.response.housesInAreaCount == |inArea| > 0
        && o.response.benchmarkPrice == CalculateMedianPrice(Some(Prices(inArea)))
        && o.queries == [InnerQuery(v.value), AnnulusQuery(v.value, body.filters)]
  {
    match Validate(body.defaultArea, body.searchProximity)
    case Failure(e) => Outcome(BadRequest(e), [])
    case Success(c) => Search(dist, houses, c, body.filters)
  }

  /** The listings of a reply to a request body: every returned listing is
      a stored ring listing, strictly cheaper than the benchmark and within
      a truthy `maxPrice`, and the list keeps the store's order and misses
      none of the ring listings that qualify. */
  lemma {:induction false} FindCheaperNearbyListings(dist: Metric, houses: seq<Listing>, body: Body)
    ensures var v := Validate(body.defaultArea, body.searchProximity);
      var r := FindCheaperNearby(dist, houses, body).response;
      r.Found? ==>
        && v.Success?
        && var nearby := Find(dist, houses, AnnulusQuery(v.value, body.filters));
        && var out := r.cheaperNearbyHouses;
        && Seqs.IsSubsequence(out, nearby)
        && (forall i :: 0 <= i < |out| ==>
              && out[i] in houses
              && Matches(dist, AnnulusQuery(v.value, body.filters), out[i])
              && out[i].price < r.benchmarkPrice
              && (TruthyNum(body.filters.maxPrice) ==> out[i].price <= body.filters.maxPrice.value))
        && (forall i ::
              (0 <= i < |nearby| && nearby[i].price < r.benchmarkPrice
               && (TruthyNum(body.filters.maxPrice) ==> nearby[i].price <= body.filters.maxPrice.value))
              ==> nearby[i] in out)
        && (!TruthyNum(body.filters.maxPrice) ==> out == Cheaper(nearby, r.benchmarkPrice))
  {
    var v := Validate(body.defaultArea, body.searchProximity);
    if v.Success? {
      SearchListings(dist, houses, v.value, body.filters);
    }
  }
}
