/**
 * The mobile ride screen: the once-a-second accrual tick (elapsed time,
 * modelled distance, cost) and the end-of-ride sequence of record updates.
 * Distances are whole metres and amounts whole cents, so the tariff is exact.
 */
module RideScreen {
  import opened Util
  import opened Text

  /** The 5 ETB base fee, in cents. */
  const BaseFeeCents := 500

  // The values written when a ride ends.
  const Available := "available"
  const CompletedStatus := "completed"
  const CurrentLocation := "Current Location"
  const Wallet := "wallet"
  const RidePayment := "ride"
  const Pending := "pending"

  /** JavaScript's `a % b` for a positive divisor: the remainder takes the sign of `a`. */
  function JsRem(a: int, b: int): (r: int)
    requires b > 0
    ensures a >= 0 ==> 0 <= r < b && r == a % b
    ensures a < 0 ==> -b < r <= 0
  {
    if a >= 0 then a % b else -((-a) % b)
  }

  /** `Math.floor(diff / 60000)`. Dafny's `/` with a positive divisor is floor division. */
  function Minutes(diff: int): int
  {
    diff / 60000
  }

  /** `Math.floor((diff % 60000) / 1000)`. */
  function Seconds(diff: int): int
  {
    JsRem(diff, 60000) / 1000
  }

  function Pad2(n: int): string
  {
    PadStart(IntToString(n), 2, '0')
  }

  /** The `MM:SS` text of an elapsed time. */
  function ElapsedText(diff: int): string
  {
    Pad2(Minutes(diff)) + ":" + Pad2(Seconds(diff))
  }

  /** 0.2 km of modelled travel per minute. */
  function DistanceMetres(minutes: int): int
  {
    200 * minutes
  }

  /** `5 + distance * 2` ETB (a 5 ETB base fee and 2 ETB per km), in cents. */
  function CostCents(distanceMetres: int): int
  {
    500 + distanceMetres / 5
  }

  /** What one tick writes into the screen state. */
  datatype Accrual = Accrual(elapsed: string, distanceMetres: int, costCents: int)

  function Accrue(diff: int): Accrual
  {
    var d := DistanceMetres(Minutes(diff));
    Accrual(ElapsedText(diff), d, CostCents(d))
  }

  // ---------------------------------------------------------------
  // Properties of the tick

  /** For a non-negative difference, seconds lie in 0..59 and minutes and seconds never overshoot it. */
  lemma DecomposeBounds(diff: int)
    requires diff >= 0
    ensures 0 <= Seconds(diff) <= 59 && Minutes(diff) >= 0
    ensures Minutes(diff) * 60000 + Seconds(diff) * 1000 <= diff
    ensures diff < Minutes(diff) * 60000 + Seconds(diff) * 1000 + 1000
  {
  }

  /** The text is two padded fields joined by ':'; seconds always take exactly two digits. */
  lemma ElapsedShape(diff: int)
    requires diff >= 0
    ensures var t := ElapsedText(diff);
      |t| >= 5 && t[|t| - 3] == ':' && AllDigits(t[..|t| - 3]) && AllDigits(t[|t| - 2..])
    ensures Minutes(diff) >= 100 ==> |ElapsedText(diff)| >= 6
  {
    DecomposeBounds(diff);
    var m, s := Pad2(Minutes(diff)), Pad2(Seconds(diff));
    assert |s| == 2;
    var t := ElapsedText(diff);
    assert t == m + ":" + s;
    assert t[..|t| - 3] == m && t[|t| - 2..] == s;
  }

  /** The cost is the base fee plus 40 cents per started minute. */
  lemma CostPerMinute(diff: int)
    ensures Accrue(diff).costCents == BaseFeeCents + 40 * Minutes(diff)
    ensures Accrue(diff).distanceMetres == 200 * Minutes(diff)
  {
  }

  /** The cost never decreases as time passes. */
  lemma CostMonotone(d1: int, d2: int)
    requires d1 <= d2
    ensures Accrue(d1).costCents <= Accrue(d2).costCents
  {
    CostPerMinute(d1);
    CostPerMinute(d2);
    MinutesMonotone(d1, d2);
  }

  lemma MinutesMonotone(d1: int, d2: int)
    requires d1 <= d2
    ensures Minutes(d1) <= Minutes(d2)
  {
  }

  /** Throughout the first minute the distance is 0 and the cost is the 5 ETB base fee. */
  lemma FirstMinute(diff: int)
    requires 0 <= diff < 60000
    ensures Accrue(diff).distanceMetres == 0 && Accrue(diff).costCents == BaseFeeCents
  {
  }

  /** A number below ten is padded with one '0'. */
  lemma PadOneDigit(n: int)
    requires 0 <= n < 10
    ensures Pad2(n) == ['0', DigitChar(n)]
  {
    assert IntToString(n) == [DigitChar(n)];
    assert PadStart([DigitChar(n)], 2, '0') == PadStart(['0', DigitChar(n)], 2, '0');
  }

  /** A two-digit number is shown as it is. */
  lemma PadTwoDigits(n: int)
    requires 10 <= n < 100
    ensures Pad2(n) == [DigitChar(n / 10), DigitChar(n % 10)]
  {
    assert NatToString(n) == NatToString(n / 10) + [DigitChar(n % 10)];
    assert NatToString(n / 10) == [DigitChar(n / 10)];
  }

  lemma PadZero()
    ensures Pad2(0) == "00"
  {
    PadOneDigit(0);
  }

  lemma PadTen()
    ensures Pad2(10) == "10"
  {
    PadTwoDigits(10);
  }

  /** The text of a difference whose minutes and seconds are known. */
  lemma FieldsAt(diff: int, m: int, sec: int)
    requires Minutes(diff) == m && Seconds(diff) == sec
    ensures ElapsedText(diff) == Pad2(m) + ":" + Pad2(sec)
  {
  }

  /** At the start instant the tick shows "00:00", no distance and the base fee. */
  lemma ZeroPoint()
    ensures Accrue(0) == Accrual("00:00", 0, 500)
  {
    ZeroText();
  }

  lemma ZeroText()
    ensures ElapsedText(0) == "00:00"
  {
    PadZero();
    FieldsAt(0, 0, 0);
  }

  /** Ten minutes give "10:00", 2 km and 9 ETB. */
  lemma TenMinutes()
    ensures Accrue(600000) == Accrual("10:00", 2000, 900)
  {
    TenMinutesText();
  }

  lemma TenMinutesText()
    ensures ElapsedText(600000) == "10:00"
  {
    PadTen();
    PadZero();
    FieldsAt(600000, 10, 0);
  }

  /** The minutes field of the text parses back to the minutes of that tick. */
  lemma MinutesFieldRoundTrip(diff: int)
    ensures ParseInt(Split(ElapsedText(diff), ':')[0]) == Some(Minutes(diff))
  {
    var m := Pad2(Minutes(diff));
    NoColonInNumber(Minutes(diff));
    assert ElapsedText(diff) == m + [':'] + Pad2(Seconds(diff));
    SplitFirstPart(m, ':', Pad2(Seconds(diff)));
    PaddedRoundTrip(Minutes(diff));
  }

  lemma NoColonInNumber(n: int)
    ensures ':' !in Pad2(n)
  {
  }

  // ---------------------------------------------------------------
  // Screen state and the end-of-ride sequence

  datatype Location = Location(latitude: real, longitude: real)

  datatype Trip = Trip(id: string, bikeId: string, startTime: int)

  /** The columns of a trips row that ending a ride writes. */
  datatype TripRecord = TripRecord(
    status: string,
    endTime: Option<int>,
    endLocation: Option<Location>,
    endLocationName: Option<string>,
    distanceMetres: Option<int>,
    durationMinutes: Option<int>,
    costCents: Option<int>)

  datatype Payment = Payment(
    userId: Option<string>, tripId: string, amountCents: int,
    paymentMethod: string, paymentType: string, status: string)

  /** What the screen shows: the initial state before any tick, else the last tick's accrual. */
  function Shown(lastDiff: Option<int>): (a: Accrual)
    ensures lastDiff.None? ==> a.distanceMetres == 0 && a.costCents == 0
  {
    match lastDiff
    case None => Accrual("00:00", 0, 0)
    case Some(diff) => Accrue(diff)
  }

  class RideSession {
    var activeTrip: Option<Trip>
    var elapsedTime: string
    var distance: int
    var cost: int
    var loading: bool
    /** The remote tables this screen writes: bike statuses, trip rows, payments. */
    var bikeStatus: map<string, string>
    var trips: map<string, TripRecord>
    var payments: seq<Payment>
    /** The time difference of the last tick, if one has run. */
    ghost var lastDiff: Option<int>

    /** The displayed state is the initial one or what the last tick computed. */
    ghost predicate Valid()
      reads this
    {
      Accrual(elapsedTime, distance, cost) == Shown(lastDiff)
    }

    /** Mounting with the trip that `loadActiveTrip` found. */
    constructor (loaded: Option<Trip>, bikes: map<string, string>, tripRows: map<string, TripRecord>, paid: seq<Payment>)
      ensures Valid() && lastDiff.None?
      ensures activeTrip == loaded && !loading
      ensures bikeStatus == bikes && trips == tripRows && payments == paid
    {
      activeTrip := loaded;
      elapsedTime, distance, cost := "00:00", 0, 0;
      loading := false;
      bikeStatus, trips, payments := bikes, tripRows, paid;
      lastDiff := None;
    }

    /** One interval callback at time `now` (milliseconds); it runs only while a trip is loaded. */
    method Tick(now: int)
      requires activeTrip.Some?
      modifies this`elapsedTime, this`distance, this`cost, this`lastDiff
      ensures Valid()
      ensures lastDiff == Some(now - activeTrip.value.startTime)
    {
      var diff := now - activeTrip.value.startTime;
      var minutes := Minutes(diff);
      var seconds := Seconds(diff);
      elapsedTime := Pad2(minutes) + ":" + Pad2(seconds);
      var newDistance := DistanceMetres(minutes);
      distance := newDistance;
      cost := CostCents(newDistance);
      lastDiff := Some(diff);
    }

    /** `handleEndRide`: the confirmation is offered only with an active trip and a known location. */
    method HandleEndRide(location: Option<Location>) returns (asksToConfirm: bool)
      ensures asksToConfirm <==> activeTrip.Some? && location.Some?
    {
      asksToConfirm := activeTrip.Some? && location.Some?;
    }

    /**
     * `confirmEndRide`: free the bike, complete the trip with the last tick's
     * figures, and record a pending wallet payment of the cost. `now` is the
     * end time; an update naming a missing row changes nothing.
     */
    method ConfirmEndRide(location: Option<Location>, userId: Option<string>, now: int)
      requires Valid()
      modifies this`loading, this`bikeStatus, this`trips, this`payments
      ensures Valid()
      ensures old(activeTrip).None? || location.None? ==>
        bikeStatus == old(bikeStatus) && trips == old(trips) && payments == old(payments) && loading == old(loading)
      ensures old(activeTrip).Some? && location.Some? ==>
        var trip := old(activeTrip).value;
        && !loading
        && bikeStatus == (if trip.bikeId in old(bikeStatus) then old(bikeStatus)[trip.bikeId := Available] else old(bikeStatus))
        && trips == (if trip.id in old(trips) then old(trips)[trip.id := Completed(now, location.value, old(distance), old(cost), old(elapsedTime))] else old(trips))
        && payments == old(payments) + [Payment(userId, trip.id, old(cost), Wallet, RidePayment, Pending)]
    {
      if activeTrip.None? || location.None? {
        return;
      }
      var trip := activeTrip.value;
      loading := true;
      var bikes := if trip.bikeId in bikeStatus then bikeStatus[trip.bikeId := Available] else bikeStatus;
      var rows := if trip.id in trips then trips[trip.id := Completed(now, location.value, distance, cost, elapsedTime)] else trips;
      bikeStatus, trips, payments := bikes, rows, payments + [Payment(userId, trip.id, cost, Wallet, RidePayment, Pending)];
      loading := false;
    }
  }

  /** The trip row written when a ride ends. */
  function Completed(now: int, location: Location, distance: int, cost: int, elapsedTime: string): TripRecord
  {
    TripRecord(CompletedStatus, Some(now), Some(location), Some(CurrentLocation), Some(distance),
      ParseInt(Split(elapsedTime, ':')[0]), Some(cost))
  }

  /**
   * After a tick, the saved duration is that tick's minutes and the saved
   * distance and cost are that tick's.
   */
  lemma CompletedAfterTick(now: int, location: Location, diff: int, elapsedTime: string, distance: int, cost: int)
    requires Accrual(elapsedTime, distance, cost) == Accrue(diff)
    ensures var rec := Completed(now, location, distance, cost, elapsedTime);
      && rec.status == CompletedStatus
      && rec.durationMinutes == Some(Minutes(diff))
      && rec.distanceMetres == Some(200 * Minutes(diff))
      && rec.costCents == Some(BaseFeeCents + 40 * Minutes(diff))
  {
    MinutesFieldRoundTrip(diff);
    CostPerMinute(diff);
  }

  /** Before any tick the saved figures are 0 minutes, 0 m and 0 cents, the base fee not included. */
  lemma CompletedBeforeTick(now: int, location: Location, elapsedTime: string, distance: int, cost: int)
    requires elapsedTime == "00:00" && distance == 0 && cost == 0
    ensures var rec := Completed(now, location, distance, cost, elapsedTime);
      rec.status == CompletedStatus && rec.durationMinutes == Some(0) && rec.distanceMetres == Some(0) && rec.costCents == Some(0)
  {
    ZeroText();
    MinutesFieldRoundTrip(0);
  }
}
