/**
 * The admin bike-management page: the fleet list's filter, the summary
 * counts, the battery colour, the add-bike form with its Amharic auto-fill,
 * and the local status update.
 */
module BikeManagement {
  import opened Util
  import opened Text
  import opened Seqs

  // The page's alerts.
  const MissingFields := "Please fill in all required fields (Bike Code and Location)"
  const CreateFailed := "Failed to create bike. Please check if bike code already exists."
  const CreateDone := "Bike created successfully!"
  const StatusFailed := "Failed to update bike status"

  /** A `bikes` row as the page selects it. */
  datatype BikeRow = BikeRow(
    id: string, bikeCode: string, qrCode: string, model: string,
    currentLocationName: Option<string>, currentLocationAmharic: Option<string>,
    batteryLevel: int, status: string, totalRides: int, createdAt: string)

  // ---------------------------------------------------------------
  // The list filter

  /**
   * `filteredBikes`: code, model or (when there is one) location name
   * contains the lower-cased term, and the status filter is 'all' or equal.
   */
  predicate Listed(b: BikeRow, searchTerm: string, statusFilter: string)
  {
    var term := Lower(searchTerm);
    (Contains(Lower(b.bikeCode), term) || Contains(Lower(b.model), term)
     || (b.currentLocationName.Some? && b.currentLocationName.value != ""
         && Contains(Lower(b.currentLocationName.value), term)))
    && (statusFilter == "all" || b.status == statusFilter)
  }

  function FilteredBikes(bikes: seq<BikeRow>, searchTerm: string, statusFilter: string): (r: seq<BikeRow>)
    ensures |r| <= |bikes|
    ensures forall k :: 0 <= k < |r| ==> Listed(r[k], searchTerm, statusFilter)
  {
    Filter(bikes, (b: BikeRow) => Listed(b, searchTerm, statusFilter))
  }

  /** A bike is listed exactly when loaded and matching both conditions; the loaded order is kept. */
  lemma FilteredBikesExactly(bikes: seq<BikeRow>, searchTerm: string, statusFilter: string, b: BikeRow)
    ensures b in FilteredBikes(bikes, searchTerm, statusFilter) <==> b in bikes && Listed(b, searchTerm, statusFilter)
    ensures IsSubsequence(FilteredBikes(bikes, searchTerm, statusFilter), bikes)
  {
    var p := (b: BikeRow) => Listed(b, searchTerm, statusFilter);
    FilterMembership(bikes, p, b);
    FilterIsSubsequence(bikes, p);
  }

  /** A bike with no location still matches a term its code contains. */
  lemma NoLocationStillMatches(b: BikeRow, searchTerm: string)
    requires b.currentLocationName.None? && Contains(Lower(b.bikeCode), Lower(searchTerm))
    ensures Listed(b, searchTerm, "all")
  {
  }

  /** An empty search with the 'all' filter lists every loaded bike. */
  lemma NoFilterListsAll(bikes: seq<BikeRow>)
    ensures FilteredBikes(bikes, "", "all") == bikes
  {
    forall k | 0 <= k < |bikes| ensures Listed(bikes[k], "", "all") {
      ContainsEmpty(Lower(bikes[k].bikeCode));
    }
    FilterAll(bikes, (b: BikeRow) => Listed(b, "", "all"));
  }

  // ---------------------------------------------------------------
  // Summary counts and the battery colour

  datatype BikeStats = BikeStats(available: nat, inUse: nat, maintenance: nat, lowBattery: nat)

  function StatusCount(bikes: seq<BikeRow>, status: string): nat
  {
    |Filter(bikes, (b: BikeRow) => b.status == status)|
  }

  /** The battery level under which a bike counts as low. */
  const LowBatteryBelow := 30

  function LowBatteryCount(bikes: seq<BikeRow>): nat
  {
    |Filter(bikes, (b: BikeRow) => b.batteryLevel < 30)|
  }

  /** `bikeStats`. */
  function StatsOf(bikes: seq<BikeRow>): (s: BikeStats)
    ensures s.available + s.inUse + s.maintenance <= |bikes|
    ensures s.lowBattery <= |bikes|
  {
    var avail := (b: BikeRow) => b.status == "available";
    var use := (b: BikeRow) => b.status == "in_use";
    var maint := (b: BikeRow) => b.status == "maintenance";
    var availOrUse := (b: BikeRow) => b.status == "available" || b.status == "in_use";
    var any := (b: BikeRow) => b.status == "available" || b.status == "in_use" || b.status == "maintenance";
    FilterDisjointCounts(bikes, avail, use, availOrUse);
    FilterDisjointCounts(bikes, availOrUse, maint, any);
    BikeStats(StatusCount(bikes, "available"), StatusCount(bikes, "in_use"), StatusCount(bikes, "maintenance"), LowBatteryCount(bikes))
  }

  /** The counts of two lists put together are the sums of their counts. */
  lemma StatsAppend(a: seq<BikeRow>, b: seq<BikeRow>)
    ensures StatsOf(a + b) == BikeStats(
      StatsOf(a).available + StatsOf(b).available, StatsOf(a).inUse + StatsOf(b).inUse,
      StatsOf(a).maintenance + StatsOf(b).maintenance, StatsOf(a).lowBattery + StatsOf(b).lowBattery)
  {
    FilterAppend(a, b, (b: BikeRow) => b.status == "available");
    FilterAppend(a, b, (b: BikeRow) => b.status == "in_use");
    FilterAppend(a, b, (b: BikeRow) => b.status == "maintenance");
    FilterAppend(a, b, (b: BikeRow) => b.batteryLevel < 30);
  }

  /** `getBatteryColor`. */
  function BatteryColor(battery: int): string
  {
    if battery > 60 then "text-green-600"
    else if battery > 30 then "text-yellow-600"
    else "text-red-600"
  }

  /**
   * The colours split the levels into three ranges; every low-battery bike
   * is red, but a bike at exactly 30 is red without counting as low.
   */
  lemma BatteryColorRanges(battery: int)
    ensures BatteryColor(battery) == "text-green-600" <==> battery > 60
    ensures BatteryColor(battery) == "text-yellow-600" <==> 30 < battery <= 60
    ensures BatteryColor(battery) == "text-red-600" <==> battery <= 30
    ensures battery < LowBatteryBelow ==> BatteryColor(battery) == "text-red-600"
    ensures BatteryColor(30) == "text-red-600" && !(30 < LowBatteryBelow)
  {
  }

  // ---------------------------------------------------------------
  // The add-bike form

  /** The form; `batteryLevel` is `parseInt` of the number input, `None` for `NaN`. */
  datatype BikeForm = BikeForm(
    bikeCode: string, model: string, currentLocationName: string, currentLocationAmharic: string,
    batteryLevel: Option<int>, status: string)

  function InitialBikeForm(): (f: BikeForm)
    ensures f.bikeCode == "" && f.model == "Urban Classic" && f.currentLocationName == ""
    ensures f.batteryLevel == Some(100) && f.status == "available"
  {
    BikeForm("", "Urban Classic", "", "", Some(100), "available")
  }

  /** The locations of the select, in its order. */
  function KnownLocations(): (names: seq<string>)
    ensures |names| == 10
  {
    ["Meskel Square", "Bole Airport", "Piazza", "Mexico Square", "Mercato",
     "Unity Park", "Arat Kilo", "Kazanchis", "Stadium", "Legehar"]
  }

  /** The Amharic name the select fills in: one per listed location, '' for anything else. */
  function AmharicName(location: string): string
  {
    match location
    case "Meskel Square" => "መስቀል አደባባይ"
    case "Bole Airport" => "ቦሌ አየር ማረፊያ"
    case "Piazza" => "ፒያሳ"
    case "Mexico Square" => "ሜክሲኮ አደባባይ"
    case "Mercato" => "መርካቶ"
    case "Unity Park" => "አንድነት ፓርክ"
    case "Arat Kilo" => "አራት ኪሎ"
    case "Kazanchis" => "ካዛንቺስ"
    case "Stadium" => "ስታዲየም"
    case "Legehar" => "ለገሃር"
    case _ => ""
  }

  /** The select fills in a name exactly for the ten listed locations. */
  lemma AmharicFilledIff(location: string)
    ensures AmharicName(location) != "" <==> location in KnownLocations()
  {
  }

  /** No two listed locations share an Amharic name, so the auto-filled name tells the location. */
  lemma AmharicDistinct(i: nat, j: nat)
    requires i < 10 && j < 10 && i != j
    ensures AmharicName(KnownLocations()[i]) != AmharicName(KnownLocations()[j])
  {
  }

  /** The location select's `onChange`. */
  function SelectLocation(form: BikeForm, location: string): (r: BikeForm)
    ensures r.currentLocationName == location && r.currentLocationAmharic == AmharicName(location)
    ensures r.(currentLocationName := form.currentLocationName, currentLocationAmharic := form.currentLocationAmharic) == form
  {
    form.(currentLocationName := location, currentLocationAmharic := AmharicName(location))
  }

  /** `QR-<code>-<timestamp>`; the timestamp is a parameter. */
  function QrCode(bikeCode: string, timestampMs: int): string
  {
    "QR-" + bikeCode + "-" + IntToString(timestampMs)
  }

  /** For a code without '-' and a time after the epoch, the QR code splits back into its three parts. */
  lemma QrCodeReadsBack(bikeCode: string, timestampMs: nat)
    requires '-' !in bikeCode
    ensures Split(QrCode(bikeCode, timestampMs), '-') == ["QR", bikeCode, IntToString(timestampMs)]
    ensures ParseInt(Split(QrCode(bikeCode, timestampMs), '-')[2]) == Some(timestampMs as int)
  {
    var digits := IntToString(timestampMs);
    QrCodeIsJoin(bikeCode, digits);
    NoDashInNumber(timestampMs);
    SplitJoin(["QR", bikeCode, digits], '-');
    IntRoundTrip(timestampMs);
  }

  /** The QR code is its three parts joined by '-'. */
  lemma QrCodeIsJoin(bikeCode: string, digits: string)
    ensures Join(["QR", bikeCode, digits], '-') == "QR-" + bikeCode + "-" + digits
  {
    var parts := ["QR", bikeCode, digits];
    assert Join(parts[2..], '-') == digits;
    assert Join(parts[1..], '-') == bikeCode + ['-'] + digits;
  }

  lemma NoDashInNumber(n: nat)
    ensures '-' !in IntToString(n)
  {
  }

  /** The record `createBike` inserts; the id and creation time come from the database. */
  datatype NewBikeRow = NewBikeRow(
    bikeCode: string, qrCode: string, model: string, currentLocationName: string,
    currentLocationAmharic: Option<string>, batteryLevel: Option<int>, status: string,
    totalRides: int, totalDistanceKm: int)

  /** `createBike`'s check: the alert, or `None` when the bike may be inserted. */
  function CheckNewBike(form: BikeForm): (alert: Option<string>)
    ensures alert.None? <==> form.bikeCode != "" && form.currentLocationName != ""
    ensures alert.Some? ==> alert.value == MissingFields
  {
    if form.bikeCode == "" || form.currentLocationName == "" then
      Some(MissingFields)
    else None
  }

  function NewBike(form: BikeForm, timestampMs: int): (row: NewBikeRow)
    ensures row.qrCode == QrCode(form.bikeCode, timestampMs)
    ensures row.totalRides == 0 && row.totalDistanceKm == 0
    ensures row.currentLocationAmharic.None? <==> form.currentLocationAmharic == ""
    ensures row.bikeCode == form.bikeCode && row.currentLocationName == form.currentLocationName
    ensures row.batteryLevel == form.batteryLevel && row.status == form.status && row.model == form.model
  {
    NewBikeRow(form.bikeCode, QrCode(form.bikeCode, timestampMs), form.model, form.currentLocationName,
      if form.currentLocationAmharic == "" then None else Some(form.currentLocationAmharic),
      form.batteryLevel, form.status, 0, 0)
  }

  /** Picking a listed location stores its Amharic name with the new bike; any other location stores none. */
  lemma LocationAutoFillStored(form: BikeForm, location: string, timestampMs: int)
    ensures var row := NewBike(SelectLocation(form, location), timestampMs);
      (location in KnownLocations() ==> row.currentLocationAmharic == Some(AmharicName(location)))
      && (location !in KnownLocations() ==> row.currentLocationAmharic.None?)
  {
    AmharicFilledIff(location);
  }

  /** The list after `updateBikeStatus` succeeds. */
  function SetStatus(bikes: seq<BikeRow>, bikeId: string, status: string): (r: seq<BikeRow>)
    ensures |r| == |bikes|
    ensures forall k :: 0 <= k < |r| ==> r[k].(status := bikes[k].status) == bikes[k]
    ensures forall k :: 0 <= k < |r| ==> r[k].status == if bikes[k].id == bikeId then status else bikes[k].status
  {
    MapWhere(bikes, (b: BikeRow) => b.id == bikeId, (b: BikeRow) => b.(status := status))
  }

  /** Setting a bike's status back to what it showed restores the list. */
  lemma SetStatusRestores(bikes: seq<BikeRow>, bikeId: string, current: string, next: string)
    requires forall k :: 0 <= k < |bikes| && bikes[k].id == bikeId ==> bikes[k].status == current
    ensures SetStatus(SetStatus(bikes, bikeId, next), bikeId, current) == bikes
  {
    var r := SetStatus(SetStatus(bikes, bikeId, next), bikeId, current);
    assert forall k :: 0 <= k < |r| ==> r[k] == bikes[k];
  }

  // ---------------------------------------------------------------
  // The page

  class BikeManagementPage {
    var bikes: seq<BikeRow>
    var form: BikeForm
    var showAddModal: bool
    /** The records inserted into the remote `bikes` table, oldest first. */
    var inserted: seq<NewBikeRow>
    /** The remote `bikes` table's rows, by id, as far as status updates reach them. */
    var table: map<string, BikeRow>
    var alertMessage: Option<string>

    constructor (remote: map<string, BikeRow>)
      ensures bikes == [] && form == InitialBikeForm() && !showAddModal && inserted == []
      ensures table == remote && alertMessage.None?
    {
      bikes := [];
      form := InitialBikeForm();
      showAddModal := false;
      inserted := [];
      table := remote;
      alertMessage := None;
    }

    /** `fetchBikes`; `fetched` is the query's result, `None` when it fails. */
    method FetchBikes(fetched: Option<seq<BikeRow>>)
      modifies this`bikes
      ensures bikes == if fetched.Some? then fetched.value else old(bikes)
    {
      if fetched.Some? {
        bikes := fetched.value;
      }
    }

    method HandleLocationSelect(location: string)
      modifies this`form
      ensures form == SelectLocation(old(form), location)
    {
      form := form.(currentLocationName := location, currentLocationAmharic := AmharicName(location));
    }

    /** The battery input's `onChange`: `parseInt` of its text. */
    method HandleBatteryInput(text: string)
      modifies this`form
      ensures form == old(form).(batteryLevel := ParseInt(text))
    {
      form := form.(batteryLevel := ParseInt(text));
    }

    /** `createBike`; `timestampMs` is `Date.now()`. */
    method CreateBike(timestampMs: int, insertFails: bool, fetched: Option<seq<BikeRow>>)
      modifies this`bikes, this`form, this`showAddModal, this`inserted, this`alertMessage
      ensures CheckNewBike(old(form)).Some? ==>
        alertMessage == CheckNewBike(old(form)) && inserted == old(inserted)
        && form == old(form) && bikes == old(bikes) && showAddModal == old(showAddModal)
      ensures CheckNewBike(old(form)).None? && insertFails ==>
        alertMessage == Some(CreateFailed)
        && inserted == old(inserted) && form == old(form) && bikes == old(bikes) && showAddModal == old(showAddModal)
      ensures CheckNewBike(old(form)).None? && !insertFails ==>
        inserted == old(inserted) + [NewBike(old(form), timestampMs)]
        && bikes == (if fetched.Some? then fetched.value else old(bikes))
        && form == InitialBikeForm() && !showAddModal && alertMessage == Some(CreateDone)
    {
      var check := CheckNewBike(form);
      if check.Some? {
        alertMessage := check;
        return;
      }
      if insertFails {
        alertMessage := Some(CreateFailed);
        return;
      }
      inserted := inserted + [NewBike(form, timestampMs)];
      FetchBikes(fetched);
      form := InitialBikeForm();
      showAddModal := false;
      alertMessage := Some(CreateDone);
    }

    /** `updateBikeStatus`: after a successful write only the loaded row with that id changes. */
    method UpdateBikeStatus(bikeId: string, newStatus: string, updateFails: bool)
      modifies this`bikes, this`table, this`alertMessage
      ensures updateFails ==> bikes == old(bikes) && table == old(table) && alertMessage == Some(StatusFailed)
      ensures !updateFails ==> bikes == SetStatus(old(bikes), bikeId, newStatus)
      ensures !updateFails ==>
        table == (if bikeId in old(table) then old(table)[bikeId := old(table)[bikeId].(status := newStatus)] else old(table))
      ensures !updateFails ==> alertMessage == Some("Bike status updated to " + newStatus)
    {
      if updateFails {
        alertMessage := Some(StatusFailed);
        return;
      }
      if bikeId in table {
        table := table[bikeId := table[bikeId].(status := newStatus)];
      }
      bikes := SetStatus(bikes, bikeId, newStatus);
      alertMessage := Some("Bike status updated to " + newStatus);
    }
  }
}
