/**
 * The rider's map: the bikes it lists after the battery threshold and the
 * location search, and the filter record it starts with.
 */
module MapScreen {
  import opened Util
  import opened Text
  import opened Seqs

  /** The columns of a `bikes` row the filter reads. */
  datatype MapBike = MapBike(id: string, batteryLevel: int, currentLocationName: Option<string>)

  /** The filter record shared with the filter sheet. */
  datatype Filters = Filters(batteryLevel: int, maxDistance: int, bikeType: string)

  /** `{ batteryLevel: 0, maxDistance: 5, bikeType: 'all' }`. */
  function InitialFilters(): (f: Filters)
    ensures f.batteryLevel == 0 && f.maxDistance == 5 && f.bikeType == "all"
  {
    Filters(0, 5, "all")
  }

  /** The battery test: a positive threshold drops bikes below it. */
  predicate MeetsBattery(filters: Filters, bike: MapBike)
  {
    !(filters.batteryLevel > 0 && bike.batteryLevel < filters.batteryLevel)
  }

  /**
   * The search test: a non-empty query drops bikes whose location name,
   * lower-cased, does not contain the lower-cased query; a missing name
   * counts as not containing it.
   */
  predicate MatchesSearch(query: string, bike: MapBike)
  {
    !(query != "" && !(bike.currentLocationName.Some? && Contains(Lower(bike.currentLocationName.value), Lower(query))))
  }

  predicate Keeps(filters: Filters, query: string, bike: MapBike)
  {
    MeetsBattery(filters, bike) && MatchesSearch(query, bike)
  }

  /** `filteredBikes`. */
  function FilteredBikes(bikes: seq<MapBike>, filters: Filters, query: string): (r: seq<MapBike>)
    ensures |r| <= |bikes|
    ensures forall i :: 0 <= i < |r| ==> Keeps(filters, query, r[i])
  {
    Filter(bikes, b => Keeps(filters, query, b))
  }

  /** The number on the map's count badge. */
  function BikeCount(bikes: seq<MapBike>, filters: Filters, query: string): (n: nat)
    ensures n <= |bikes|
    ensures filters.batteryLevel <= 0 && query == "" ==> n == |bikes|
  {
    var listed := FilteredBikes(bikes, filters, query);
    if filters.batteryLevel <= 0 && query == "" then
      FilterAll(bikes, b => Keeps(filters, query, b));
      |listed|
    else
      |listed|
  }

  // ---------------------------------------------------------------
  // Properties

  /** The listed bikes are the loaded ones in their loaded order, with some left out. */
  lemma FilteredKeepsOrder(bikes: seq<MapBike>, filters: Filters, query: string)
    ensures IsSubsequence(FilteredBikes(bikes, filters, query), bikes)
  {
    FilterIsSubsequence(bikes, b => Keeps(filters, query, b));
  }

  /**
   * A bike is listed exactly when it was loaded, meets a positive threshold
   * (any level when the threshold is 0 or less), and, for a non-empty query,
   * has a location name containing it.
   */
  lemma FilteredMembership(bikes: seq<MapBike>, filters: Filters, query: string, b: MapBike)
    ensures b in FilteredBikes(bikes, filters, query) <==>
      b in bikes
      && (filters.batteryLevel <= 0 || b.batteryLevel >= filters.batteryLevel)
      && (query == "" || (b.currentLocationName.Some? && Contains(Lower(b.currentLocationName.value), Lower(query))))
  {
    FilterMembership(bikes, b => Keeps(filters, query, b), b);
  }

  /** Raising the battery threshold lists a subsequence of what the lower one listed. */
  lemma RaisingThresholdNarrows(bikes: seq<MapBike>, f1: Filters, f2: Filters, query: string)
    requires f1.batteryLevel <= f2.batteryLevel
    ensures IsSubsequence(FilteredBikes(bikes, f2, query), FilteredBikes(bikes, f1, query))
  {
    FilterStronger(bikes, b => Keeps(f2, query, b), b => Keeps(f1, query, b));
  }

  /** The distance and bike-type settings are never consulted. */
  lemma DistanceAndTypeIgnored(bikes: seq<MapBike>, f1: Filters, f2: Filters, query: string)
    requires f1.batteryLevel == f2.batteryLevel
    ensures FilteredBikes(bikes, f1, query) == FilteredBikes(bikes, f2, query)
  {
    FilterSame(bikes, b => Keeps(f1, query, b), b => Keeps(f2, query, b));
  }

  /** With the initial filters and an empty search, every loaded bike is listed. */
  lemma InitialListsAll(bikes: seq<MapBike>)
    ensures FilteredBikes(bikes, InitialFilters(), "") == bikes
  {
    FilterAll(bikes, b => Keeps(InitialFilters(), "", b));
  }

  /** A 50% threshold over bikes at 85%, 40% and 20% lists only the first. */
  lemma ThresholdExample()
    ensures var bikes := [MapBike("a", 85, None), MapBike("b", 40, None), MapBike("c", 20, None)];
      FilteredBikes(bikes, Filters(50, 5, "all"), "") == [bikes[0]]
  {
    var bikes := [MapBike("a", 85, None), MapBike("b", 40, None), MapBike("c", 20, None)];
    var p := (b: MapBike) => Keeps(Filters(50, 5, "all"), "", b);
    assert bikes[1..] == [bikes[1]] + bikes[2..];
    assert Filter(bikes[2..], p) == [] by {
      assert bikes[2..][1..] == [];
    }
    assert Filter(bikes[1..], p) == [];
  }
}
