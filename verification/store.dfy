/** The listing store as the controller sees it: a collection of listings
    in the store's own order, answering distance-bounded queries with
    optional attribute predicates. The geometry is abstract: `Metric`
    stands for the store's distance in metres between two points. */
module Store {
  import opened Wrappers
  import opened House
  import Seqs

  /** The distance in metres between two points, as the store's geospatial
      index computes it. */
  type Metric = (Point, Point) -> real

  /** One `find` against the collection: listings within `maxDistance` of
      `center`, not within `excludeWithin` of it when that is present, and
      meeting every attribute predicate that is present. */
  datatype Query = Query(
    center: Point,
    maxDistance: real,
    excludeWithin: Option<real>,
    minPrice: Option<real>,
    minBeds: Option<real>,
    minBaths: Option<real>,
    propertyType: Option<string>)

  /** A lower bound on an optional attribute: a listing that lacks the
      attribute does not satisfy it. */
  predicate AtLeast(attr: Option<real>, bound: Option<real>)
  {
    bound.Some? ==> attr.Some? && attr.value >= bound.value
  }

  /** Whether listing `h` is selected by query `q`. */
  predicate Matches(dist: Metric, q: Query, h: Listing)
  {
    && dist(q.center, h.location) <= q.maxDistance
    && (q.excludeWithin.Some? ==> !(dist(q.center, h.location) <= q.excludeWithin.value))
    && (q.minPrice.Some? ==> h.price >= q.minPrice.value)
    && AtLeast(h.bedrooms, q.minBeds)
    && AtLeast(h.bathrooms, q.minBaths)
    && (q.propertyType.Some? ==> h.propertyType == q.propertyType)
  }

  /** Query `q` as a test on one listing. */
  function Selects(dist: Metric, q: Query): Listing -> bool
  {
    h => Matches(dist, q, h)
  }

  /** The listings of `houses` selected by `q`, in the store's order. */
  function Find(dist: Metric, houses: seq<Listing>, q: Query): (r: seq<Listing>)
    ensures forall i :: 0 <= i < |r| ==> r[i] in houses && Matches(dist, q, r[i])
    ensures forall i :: 0 <= i < |houses| && Matches(dist, q, houses[i]) ==> houses[i] in r
    ensures Seqs.IsSubsequence(r, houses)
  {
    Seqs.FilterIsSubsequence(Selects(dist, q), houses);
    Seqs.Filter(Selects(dist, q), houses)
  }

  /** A query returns every copy of a matching listing and no copy of
      any other. */
  lemma FindMultiset(dist: Metric, houses: seq<Listing>, q: Query)
    ensures forall h :: multiset(Find(dist, houses, q))[h] == if Matches(dist, q, h) then multiset(houses)[h] else 0
  {
    Seqs.FilterMultisets(Selects(dist, q), houses);
  }

  /** Documents with the same identifier are the same document. */
  ghost predicate UniqueIds(houses: seq<Listing>)
  {
    forall i, j :: 0 <= i < |houses| && 0 <= j < |houses| && houses[i].id == houses[j].id ==> houses[i] == houses[j]
  }
}
