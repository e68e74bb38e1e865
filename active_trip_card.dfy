/**
 * The home-screen card of a trip in progress: its own once-a-second clock
 * and the labels it falls back to when the trip's bike is not joined in.
 */
module ActiveTripCard {
  import opened Util
  import opened RideScreen

  /** The bike columns the card reads from the joined `bikes` row. */
  datatype BikeInfo = BikeInfo(bikeCode: string, model: string)

  datatype CardTrip = CardTrip(startTime: int, bikes: Option<BikeInfo>, startLocationName: string)

  /** `trip.bikes?.bike_code || 'BK-0000'`. */
  function BikeCodeLabel(trip: CardTrip): (text: string)
    ensures trip.bikes.Some? && trip.bikes.value.bikeCode != "" ==> text == trip.bikes.value.bikeCode
    ensures trip.bikes.None? || trip.bikes.value.bikeCode == "" ==> text == "BK-0000"
  {
    if trip.bikes.Some? && trip.bikes.value.bikeCode != "" then trip.bikes.value.bikeCode else "BK-0000"
  }

  /** `trip.bikes?.model || 'Urban Classic'`. */
  function BikeModelLabel(trip: CardTrip): (text: string)
    ensures trip.bikes.Some? && trip.bikes.value.model != "" ==> text == trip.bikes.value.model
    ensures trip.bikes.None? || trip.bikes.value.model == "" ==> text == "Urban Classic"
  {
    if trip.bikes.Some? && trip.bikes.value.model != "" then trip.bikes.value.model else "Urban Classic"
  }

  /** `trip.start_location_name || t('trip.unknownLocation')`; the translated text is a parameter. */
  function LocationLabel(trip: CardTrip, unknownLocation: string): (text: string)
    ensures trip.startLocationName != "" ==> text == trip.startLocationName
    ensures trip.startLocationName == "" ==> text == unknownLocation
  {
    if trip.startLocationName != "" then trip.startLocationName else unknownLocation
  }

  /** The labels are never empty, whatever the joined row holds. */
  lemma LabelsNonEmpty(trip: CardTrip)
    ensures BikeCodeLabel(trip) != "" && BikeModelLabel(trip) != ""
  {
  }

  class TripCard {
    const trip: CardTrip
    var elapsedTime: string
    /** The time difference of the last tick, if one has run. */
    ghost var lastDiff: Option<int>

    ghost predicate Valid()
      reads this
    {
      elapsedTime == Shown(lastDiff).elapsed
    }

    constructor (t: CardTrip)
      ensures Valid() && trip == t && lastDiff.None? && elapsedTime == "00:00"
    {
      trip := t;
      elapsedTime := "00:00";
      lastDiff := None;
    }

    /** One interval callback at time `now` (milliseconds). */
    method Tick(now: int)
      modifies this`elapsedTime, this`lastDiff
      ensures Valid()
      ensures lastDiff == Some(now - trip.startTime)
      ensures elapsedTime == ElapsedText(now - trip.startTime)
    {
      var diff := now - trip.startTime;
      var minutes := Minutes(diff);
      var seconds := Seconds(diff);
      elapsedTime := Pad2(minutes) + ":" + Pad2(seconds);
      lastDiff := Some(diff);
    }
  }
}
