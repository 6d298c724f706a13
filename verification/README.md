# Cheaper houses nearby — a Dafny model of the search core

The server answers one request: given a circular default area (a centre,
a radius in metres) and a search proximity, it looks up every listing
inside the circle, takes the median of their prices as a benchmark, then
looks up the listings in the ring between the circle and the circle
widened by the proximity, and returns those of them that are strictly
cheaper than the benchmark, optionally capped by a `maxPrice`.

This project models that computation as pure Dafny functions and proves
what it guarantees.

- `wrappers.dfy` — `Option` and `Result`.
- `seqs.dfy` — order-preserving `Filter` (JavaScript's `Array.prototype.filter`),
  the subsequence relation, and the facts about filtering the rest uses:
  composition of two passes, counts under permutation, and concatenation.
- `sorting.dfy` — the ascending numeric sort of a copy of the price list.
  It includes uniqueness of sorted arrangements, so any correct sort gives
  the same list.
- `house.dfy` — the listing record and `calculateMedianPrice`. It also
  gives an order-statistic reference for the median: the k-th smallest
  value, defined by counting smaller and larger entries. The median
  function is proved against that reference.
- `json.dfy` — the JSON values of a request body, with JavaScript
  truthiness and property access.
- `store.dfy` — the listing store: a collection in its own order and an
  abstract distance `Metric`. A `Query` has a centre, a maximum distance,
  an optional exclusion radius and optional attribute predicates.
- `controller.dfy` — the `findCheaperNearby` handler in its steps:
  1. validation with its three client errors, in order;
  2. the search radius and the two queries;
  3. the strict benchmark cut and the inclusive `maxPrice` cap;
  4. the reply.

  The handler returns the reply together with the store queries it
  issued, so "no query on a validation error" and "no ring query when the
  area is empty" are statements about its result.
- `properties.dfy` — facts relating several queries or several requests.
  The benchmark ignores the filters. The area and the ring are disjoint
  and together cover the outer disk. The reply equals a single pass over
  the store with the combined test.
- `examples.dfy` — the medians of [100, 300], [100, 200, 300] and
  [300, 100, 200], and concrete requests along a line: a ring search where a listing priced exactly at the benchmark
  is dropped, an empty area, a negative proximity and a `maxPrice` cap.

The caller's price list is never modified. Dafny sequences are values,
and the sort works on its own copy, as the source does with `[...prices]`.

## Model

| member | source | states |
|---|---|---|
| House.CalculateMedianPrice | server/models/House.js:40-52 | a missing or empty price list gives 0, not an absent value; a single price is its own median |
| House.MedianOdd | server/models/House.js:43-50 | for an odd count the result is the k-th smallest price with k = n/2: it occurs in the list, at most n/2 prices are below it and at most n/2 above |
| House.MedianEven | server/models/House.js:43-47 | for an even, non-zero count the result is the mean of the (n/2-1)-th and the (n/2)-th smallest prices |
| House.KthSmallestUnique | server/models/House.js:43-50 | the order statistic the median is defined by is unique, so the median is well defined whatever ties the list has |
| House.KthSmallestExists | server/models/House.js:43-50 | every position of a non-empty list has a k-th smallest value, so the order-statistic characterisation is never vacuous |
| House.MedianBounds | server/models/House.js:43-50 | for a non-empty list the result lies between the smallest and the largest price, inclusive |
| House.MedianPermutation | server/models/House.js:43 | the result depends only on the multiset of prices: any rearrangement gives the same median |
| Sorting.Sort | server/models/House.js:43 | the copy is ascending and holds exactly the same prices, with multiplicity |
| Sorting.SortedUnique | server/models/House.js:43 | two ascending lists with the same multiset are equal, so the result does not depend on the sorting algorithm |
| Store.Find | server/controllers/houseController.js:39-42 | a store query returns exactly the stored listings that match it, as a subsequence of the collection in the collection's order |
| Store.FindMultiset | server/controllers/houseController.js:39-42 | a query returns each matching listing as many times as the collection holds it, and no copy of any other |
| HouseController.Validate | server/controllers/houseController.js:11-19 | missing or wrongly typed fields fail first, then a non-Circle area type, then a non-positive radius or proximity; success yields positive radius and proximity taken from the body |
| HouseController.SearchRadius | server/controllers/houseController.js:21-23 | the outer radius exceeds the default radius and exceeds the proximity by exactly the default radius |
| HouseController.InnerQuery | server/controllers/houseController.js:26-42 | the default-area query selects exactly the listings within the default radius of the centre, with no attribute predicate |
| HouseController.AnnulusQuery | server/controllers/houseController.js:59-88 | the ring query selects listings within the outer radius and not within the default radius; minPrice, minBeds, minBaths and propertyType constrain it only when truthy, and maxPrice never does |
| HouseController.Cheaper | server/controllers/houseController.js:92 | keeps exactly the listings priced strictly below the benchmark, every copy of each, in order; one priced at the benchmark is dropped |
| HouseController.CapAtMaxPrice | server/controllers/houseController.js:95-97 | with a truthy maxPrice keeps exactly the listings priced at most maxPrice, every copy of each, in order; an absent or zero maxPrice changes nothing |
| HouseController.FilterCheaper | server/controllers/houseController.js:91-97 | the returned listings are the ring listings below the benchmark and within a truthy cap, as a subsequence of the ring result |
| HouseController.Search | server/controllers/houseController.js:35-106 | after validation: an empty area gives the no-benchmark reply after one query; otherwise the count is the area size, the benchmark is the median of the area prices, and two queries are issued |
| HouseController.SearchListings | server/controllers/houseController.js:78-106 | after validation, every listing of a reply is a stored ring listing strictly below the benchmark and within a truthy maxPrice; the list keeps the ring result's order and misses none that qualify |
| HouseController.FindCheaperNearby | server/controllers/houseController.js:6-106 | validation errors answer 400 and issue no query; after validation, an empty area answers with no benchmark after the area query alone, and otherwise the count is the area size, the benchmark is the median of the area prices, and the area and ring queries are issued in that order |
| HouseController.FindCheaperNearbyListings | server/controllers/houseController.js:6-106 | for any request body, every returned listing is a stored ring listing strictly below the benchmark and within a truthy maxPrice; the list keeps the ring result's order and misses none that qualify |
| ControllerProperties.EmptyAreaReply | server/controllers/houseController.js:44-52 | an empty default area answers 200, success, the explanatory message, a null benchmark, a zero count and an empty list |
| ControllerProperties.BenchmarkWithinAreaPrices | server/controllers/houseController.js:54-56 | a reported benchmark lies between the cheapest and the dearest listing of the default area |
| ControllerProperties.BenchmarkIgnoresFilters | server/controllers/houseController.js:35-56 | two requests that differ only in their filters get the same success flag, benchmark and in-area count |
| ControllerProperties.InnerRingDisjoint | server/controllers/houseController.js:78-88 | no listing returned by the default-area query is returned by the ring query of the same request |
| ControllerProperties.InnerRingDisjointIds | server/controllers/houseController.js:78-88 | when document identifiers are unique, no identifier occurs in both result sets |
| ControllerProperties.InnerRingCoverOuterDisk | server/controllers/houseController.js:59-88 | without attribute filters, every stored listing within the outer radius is returned by exactly one of the two queries |
| ControllerProperties.FilterCheaperOnePass | server/controllers/houseController.js:91-97 | the benchmark pass followed by the maxPrice pass equals one pass with the conjoined test |
| ControllerProperties.ReplyIsOnePass | server/controllers/houseController.js:78-97 | the reply's list is exactly the stored listings that are in the ring, meet the pushed-down filters, are below the benchmark and within a truthy cap, in store order |
| Examples.MedianOfTwo | server/models/House.js:45-47 | the median of 100 and 300 is 200 |
| Examples.MedianOfThreeUnordered | server/models/House.js:43-50 | the median of 300, 100, 200 is 200 |
| Examples.CheaperRingExample | server/controllers/houseController.js:54-106 | area prices 100000, 200000 and 300000 give benchmark 200000; of ring prices 150000, 200000 and 250000 only 150000 is returned |
| Examples.EmptyAreaExample | server/controllers/houseController.js:44-52 | with no listing inside the circle the reply has no benchmark, count 0, no listings, and only one query was issued |
| Examples.NegativeProximityExample | server/controllers/houseController.js:17-18 | a proximity of -5 answers 400 with the message about radius and proximity, and no query is issued |
| Examples.MaxPriceExample | server/controllers/houseController.js:95-97 | with maxPrice 120000, ring listings at 110000 and 120000 stay and the one at 130000 is dropped |

## Left out

- MongoDB geometry is not modelled. This covers `$nearSphere`, `$geoWithin` with `$centerSphere`, and the metres-to-radians conversion `/ 6378100`. Distance is an abstract `Metric`, and the inner and the excluded radius are compared against the same metric. Spherical geometry and floating-point rounding at the boundary are left out.
- `$nearSphere` returns its matches nearest first. The model returns them in the collection's order, so it states order preservation relative to whatever order the store returns, and no distance ordering.
- JavaScript number edge cases are not modelled: NaN and the infinities passing `typeof === 'number'`, and IEEE rounding of the average. Prices and sizes are exact reals.
- The 500 path and `console.error` (server/controllers/houseController.js:108-111) are left out. They handle exceptions thrown by the store, which is I/O.
- A `filters` value of `null` is not modelled. JavaScript only defaults it to `{}` when it is undefined, so reading `filters.minPrice` would throw and end in the 500 path. Filters are modelled as typed optional fields.
- Filter values of an unexpected JSON type are not modelled, for example a string `minPrice`. The store and JavaScript would compare these with their own coercion rules.
- The `lastUpdated` field, which defaults to the current time, is left out: it is a clock and the core never reads it. The listing datatype carries the other schema fields and the store's document identifier.
- Mongoose schema enforcement, `trim` on addresses and the 2dsphere index creation (server/models/House.js:36-37, 55) are not modelled. They belong to the store.
- HTTP plumbing is left out: Express, CORS, logging, the database connection and routing (server/server.js, server/config/db.js, server/routes/houseRoutes.js). The reply is modelled as a datatype with its status code and JSON fields, not as serialized JSON.
- The React client (client/src) is left out, including its duplicate positivity check and its input clamping. It is UI state and rendering.
- The two store reads (server/controllers/houseController.js:39-42 and 78-88) are evaluated against one unchanged collection. No write from another request is modelled between them. In the source a listing moved between the two reads could appear in both results, so ControllerProperties.InnerRingDisjoint and ControllerProperties.InnerRingDisjointIds hold only for a collection that does not change during the request.
