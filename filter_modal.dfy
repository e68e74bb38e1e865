/**
 * The map's filter sheet: one handler per field, a reset, the two sliders'
 * value domains, the bike-type options and the battery description.
 */
module FilterModal {
  import opened Text
  import opened MapScreen

  function HandleBatteryChange(filters: Filters, value: int): (r: Filters)
    ensures r.batteryLevel == value
    ensures r.maxDistance == filters.maxDistance && r.bikeType == filters.bikeType
  {
    filters.(batteryLevel := value)
  }

  function HandleDistanceChange(filters: Filters, value: int): (r: Filters)
    ensures r.maxDistance == value
    ensures r.batteryLevel == filters.batteryLevel && r.bikeType == filters.bikeType
  {
    filters.(maxDistance := value)
  }

  function HandleBikeTypeChange(filters: Filters, bikeType: string): (r: Filters)
    ensures r.bikeType == bikeType
    ensures r.batteryLevel == filters.batteryLevel && r.maxDistance == filters.maxDistance
  {
    filters.(bikeType := bikeType)
  }

  function HandleReset(filters: Filters): (r: Filters)
    ensures r.batteryLevel == 0 && r.maxDistance == 5 && r.bikeType == "all"
  {
    Filters(0, 5, "all")
  }

  /** The battery slider: 0 to 100 in steps of 10; `k` is the thumb's stop. */
  function BatterySliderValue(k: nat): (v: int)
    requires k <= 10
    ensures 0 <= v <= 100 && v % 10 == 0
  {
    10 * k
  }

  /** The distance slider: 1 to 10 km in steps of 1. */
  function DistanceSliderValue(k: nat): (v: int)
    requires k <= 9
    ensures 1 <= v <= 10
  {
    1 + k
  }

  function BikeTypes(): (types: seq<string>)
    ensures |types| == 4 && types[0] == "all"
  {
    ["all", "Urban Classic", "City Cruiser", "Electric Pro"]
  }

  /** The text under the battery slider. */
  function BatteryDescription(level: int): string
  {
    if level == 0 then "Any battery level" else "Min " + IntToString(level) + "% battery"
  }

  /** What the user can do on the sheet; `Apply` only closes it. */
  datatype Action = Battery(stop: nat) | Distance(stop: nat) | BikeType(index: nat) | Reset | Apply

  predicate ValidAction(a: Action)
  {
    match a
    case Battery(k) => k <= 10
    case Distance(k) => k <= 9
    case BikeType(i) => i < 4
    case _ => true
  }

  function Step(filters: Filters, a: Action): Filters
    requires ValidAction(a)
  {
    match a
    case Battery(k) => HandleBatteryChange(filters, BatterySliderValue(k))
    case Distance(k) => HandleDistanceChange(filters, DistanceSliderValue(k))
    case BikeType(i) => HandleBikeTypeChange(filters, BikeTypes()[i])
    case Reset => HandleReset(filters)
    case Apply => filters
  }

  function Run(filters: Filters, actions: seq<Action>): Filters
    requires forall i :: 0 <= i < |actions| ==> ValidAction(actions[i])
    decreases |actions|
  {
    if actions == [] then filters else Run(Step(filters, actions[0]), actions[1..])
  }

  /** The filter values the sheet can produce. */
  predicate WellFormed(f: Filters)
  {
    0 <= f.batteryLevel <= 100 && f.batteryLevel % 10 == 0
    && 1 <= f.maxDistance <= 10
    && f.bikeType in BikeTypes()
  }

  // ---------------------------------------------------------------
  // Properties

  /** Reset forgets the prior filters and is idempotent. */
  lemma ResetIdempotent(f: Filters, g: Filters)
    ensures HandleReset(f) == HandleReset(g) == InitialFilters()
    ensures HandleReset(HandleReset(f)) == HandleReset(f)
  {
  }

  /** A battery value is one the slider emits exactly when it is a multiple of 10 in 0..100. */
  lemma BatterySliderDomain(v: int)
    ensures (exists k: nat :: k <= 10 && BatterySliderValue(k) == v) <==> 0 <= v <= 100 && v % 10 == 0
  {
    if 0 <= v <= 100 && v % 10 == 0 {
      var k: nat := v / 10;
      assert BatterySliderValue(k) == v;
    }
  }

  /** A distance value is one the slider emits exactly when it is a whole number in 1..10. */
  lemma DistanceSliderDomain(v: int)
    ensures (exists k: nat :: k <= 9 && DistanceSliderValue(k) == v) <==> 1 <= v <= 10
  {
    if 1 <= v <= 10 {
      assert DistanceSliderValue(v - 1) == v;
    }
  }

  /** 'Any battery level' shows exactly for level 0; every other level names its minimum. */
  lemma DescriptionIff(level: int)
    ensures BatteryDescription(level) == "Any battery level" <==> level == 0
    ensures level != 0 ==> BatteryDescription(level)[..4] == "Min "
  {
    if level != 0 {
      var d := BatteryDescription(level);
      assert d[0] == 'M';
    }
  }

  /** Applying changes nothing. */
  lemma ApplyKeeps(f: Filters)
    ensures Step(f, Apply) == f
  {
  }

  /** Every sequence of actions from a well-formed state (the initial one, say) stays well-formed. */
  lemma {:induction false} RunStaysWellFormed(f: Filters, actions: seq<Action>)
    requires WellFormed(f)
    requires forall i :: 0 <= i < |actions| ==> ValidAction(actions[i])
    ensures WellFormed(Run(f, actions))
    decreases |actions|
  {
    if actions != [] {
      var g := Step(f, actions[0]);
      assert WellFormed(g) by {
        match actions[0]
        case BikeType(i) => assert g.bikeType == BikeTypes()[i];
        case _ =>
      }
      RunStaysWellFormed(g, actions[1..]);
    }
  }

  lemma InitialWellFormed()
    ensures WellFormed(InitialFilters())
  {
  }
}
