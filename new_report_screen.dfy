/** The logic of the new-report form: the vehicle and media lists it keeps
    while the officer fills it in, the address text it builds from a
    geocoding result, the guard on short address searches, and the report
    record it hands to the report store on submit. */
module NewReportScreen {
  import opened Common
  import opened Text
  import opened ReportTypes
  import ReportStore
  import DashboardScreen

  /** `'photo' | 'video'`. */
  datatype MediaType = Photo | Video

  /** A picked or captured media item: its uri and its kind. */
  datatype MediaItem = MediaItem(uri: string, mediaType: MediaType)

  /** A vehicle as the form collects it; make, model and colour are optional
      keys. */
  datatype VehicleDetail = VehicleDetail(
    id: string, make: Option<string>, model: Option<string>, color: Option<string>,
    registrationNo: string)

  /** The empty draft the vehicle dialog starts from and is reset to. */
  const BlankVehicle := VehicleDetail("", Some(""), Some(""), Some(""), "")

  /** A map position. */
  datatype Coordinates = Coordinates(latitude: real, longitude: real)

  /** The form fields; the accident date is a timestamp in milliseconds. */
  datatype FormData = FormData(
    accidentDate: nat, location: string, description: string,
    coordinates: Option<Coordinates>, address: string)

  /** The form as it is first shown and after a submit, dated `now`. */
  function BlankForm(now: nat): FormData
  {
    FormData(now, "", "", None, "")
  }

  /** JavaScript truthiness of an optional string: present and non-empty. */
  predicate Truthy(s: Option<string>)
  {
    s.Some? && s.value != ""
  }

  /** `s || fallback`. */
  function OrElse(s: Option<string>, fallback: string): (r: string)
    ensures Truthy(s) ==> r == s.value
    ensures !Truthy(s) ==> r == fallback
  {
    if Truthy(s) then s.value else fallback
  }

  // ---------------------------------------------------------------- vehicles

  /** `prev.filter(vehicle => vehicle.id !== id)`. */
  function WithoutVehicle(vehicles: seq<VehicleDetail>, id: string): (r: seq<VehicleDetail>)
    ensures forall k :: 0 <= k < |r| ==> r[k].id != id
    ensures forall k :: 0 <= k < |vehicles| && vehicles[k].id != id ==> vehicles[k] in r
    ensures multiset(r) <= multiset(vehicles)
  {
    Filter(vehicles, (v: VehicleDetail) => v.id != id)
  }

  /** Removing an id that no vehicle has leaves the list as it was. */
  lemma RemoveAbsentVehicle(vehicles: seq<VehicleDetail>, id: string)
    requires forall k :: 0 <= k < |vehicles| ==> vehicles[k].id != id
    ensures WithoutVehicle(vehicles, id) == vehicles
  {
    FilterKeepsAll(vehicles, (v: VehicleDetail) => v.id != id);
  }

  /** Removing a vehicle just added by its fresh id gives back the list
      from before. */
  lemma RemoveUndoesAdd(vehicles: seq<VehicleDetail>, v: VehicleDetail)
    requires forall k :: 0 <= k < |vehicles| ==> vehicles[k].id != v.id
    ensures WithoutVehicle(vehicles + [v], v.id) == vehicles
  {
    var keep := (x: VehicleDetail) => x.id != v.id;
    FilterConcat(vehicles, [v], keep);
    FilterKeepsAll(vehicles, keep);
    assert Filter([v], keep) == [];
  }

  // ---------------------------------------------------------------- media

  /** `prev.filter((_, i) => i !== index)`: every item but the one at
      `index`; an index past the end removes nothing. */
  function WithoutIndex<T>(s: seq<T>, index: nat): (r: seq<T>)
    ensures index < |s| ==> |r| == |s| - 1
    ensures index >= |s| ==> r == s
    ensures forall k :: 0 <= k < |r| ==> r[k] == s[if k < index then k else k + 1]
  {
    if index < |s| then s[..index] + s[index + 1..] else s
  }

  // ---------------------------------------------------------------- the submitted record

  /** The vehicle entry of the report: a missing or empty make or model
      reads 'Unknown', and damage is always 'To be assessed'. */
  function ReportVehicle(v: VehicleDetail): Vehicle
  {
    Vehicle(v.registrationNo, OrElse(v.make, "Unknown"), OrElse(v.model, "Unknown"), "To be assessed")
  }

  /** `vehicleDetails.map(...)`. */
  function ReportVehicles(vehicles: seq<VehicleDetail>): (r: seq<Vehicle>)
    ensures |r| == |vehicles|
    ensures forall k :: 0 <= k < |r| ==>
              r[k].registrationNumber == vehicles[k].registrationNo &&
              r[k].damage == "To be assessed" &&
              r[k].make != "" && r[k].model != "" &&
              (Truthy(vehicles[k].make) ==> r[k].make == vehicles[k].make.value) &&
              (Truthy(vehicles[k].model) ==> r[k].model == vehicles[k].model.value) &&
              (!Truthy(vehicles[k].make) ==> r[k].make == "Unknown") &&
              (!Truthy(vehicles[k].model) ==> r[k].model == "Unknown")
  {
    seq(|vehicles|, k requires 0 <= k < |vehicles| => ReportVehicle(vehicles[k]))
  }

  /** The evidence entry of the report: a photo is an image, a video a
      document, each with its own description. */
  function ReportEvidence(m: MediaItem): Evidence
  {
    if m.mediaType == Photo then Evidence(Image, m.uri, "Photo evidence")
    else Evidence(Document, m.uri, "Video evidence")
  }

  /** `mediaItems.map(...)`. */
  function ReportEvidenceList(media: seq<MediaItem>): (r: seq<Evidence>)
    ensures |r| == |media|
    ensures forall k :: 0 <= k < |r| ==> r[k].uri == media[k].uri
    ensures forall k :: 0 <= k < |r| ==>
              (r[k].kind == Image <==> media[k].mediaType == Photo) &&
              (r[k].description == "Photo evidence" <==> media[k].mediaType == Photo) &&
              (r[k].description == "Video evidence" <==> media[k].mediaType == Video)
  {
    seq(|media|, k requires 0 <= k < |media| => ReportEvidence(media[k]))
  }

  /** `'RPT-' + stamp`. */
  function ReportNumber(stamp: nat): (n: string)
    ensures |n| > 4 && n[..4] == "RPT-"
    ensures DecimalValue(n[4..]) == stamp
  {
    var n := "RPT-" + NatToString(stamp);
    assert n[4..] == NatToString(stamp);
    DecimalRoundTrip(stamp);
    n
  }

  /** The record `handleSubmit` builds. `idStamp` and `numberStamp` are the
      two readings of the clock, `dateText` and `timeText` the accident
      date as the device's locale writes it. */
  function SubmittedReport(form: FormData, vehicles: seq<VehicleDetail>, media: seq<MediaItem>,
                           idStamp: nat, numberStamp: nat,
                           dateText: string, timeText: string): ReportStore.Report
  {
    ReportStore.Report(
      NatToString(idStamp), ReportNumber(numberStamp), "Vehicle Collision",
      form.location, dateText, timeText, Pending, form.description,
      ReportVehicles(vehicles), ReportEvidenceList(media), None, None)
  }

  /** A submitted report is pending, its id reads back as the clock value
      it was made from, its number is 'RPT-' and the other clock value, and
      it carries one vehicle per form vehicle and one piece of evidence per
      media item, in order. */
  lemma SubmittedReportShape(form: FormData, vehicles: seq<VehicleDetail>, media: seq<MediaItem>,
                             idStamp: nat, numberStamp: nat, dateText: string, timeText: string)
    ensures var r := SubmittedReport(form, vehicles, media, idStamp, numberStamp, dateText, timeText);
            r.status == Pending &&
            DecimalValue(r.id) == idStamp &&
            r.reportNumber[..4] == "RPT-" && DecimalValue(r.reportNumber[4..]) == numberStamp &&
            r.location == form.location && r.description == form.description &&
            |r.vehicles| == |vehicles| && |r.evidence| == |media| &&
            r.policeAbstractUri.None? && r.policeAbstractDate.None?
  {
    DecimalRoundTrip(idStamp);
  }

  /** Submitting raises the dashboard's Total and Pending counts by one and
      leaves Completed as it was. */
  lemma SubmitRaisesPending(reports: seq<ReportStore.Report>, form: FormData, vehicles: seq<VehicleDetail>,
                            media: seq<MediaItem>, idStamp: nat, numberStamp: nat,
                            dateText: string, timeText: string)
    ensures var after := ReportStore.Appended(reports,
              SubmittedReport(form, vehicles, media, idStamp, numberStamp, dateText, timeText));
            DashboardScreen.ReportStats(after).total == DashboardScreen.ReportStats(reports).total + 1 &&
            DashboardScreen.ReportStats(after).pending == DashboardScreen.ReportStats(reports).pending + 1 &&
            DashboardScreen.ReportStats(after).completed == DashboardScreen.ReportStats(reports).completed
  {
    DashboardScreen.StatsAfterAdd(reports,
      SubmittedReport(form, vehicles, media, idStamp, numberStamp, dateText, timeText));
  }

  // ---------------------------------------------------------------- addresses

  /** What reverse geocoding gives for a position; every part may be
      missing. */
  datatype GeocodedAddress = GeocodedAddress(
    street: Option<string>, city: Option<string>, region: Option<string>,
    postalCode: Option<string>, country: Option<string>)

  /** `[...].filter(Boolean)`: the present, non-empty values, in order. */
  function Present(fields: seq<Option<string>>): (r: seq<string>)
    ensures |r| <= |fields|
    ensures forall k :: 0 <= k < |r| ==> r[k] != "" && Some(r[k]) in fields
    ensures forall k :: 0 <= k < |fields| && Truthy(fields[k]) ==> fields[k].value in r
  {
    if fields == [] then []
    else
      var rest := Present(fields[1..]);
      assert forall k :: 0 <= k < |rest| ==> Some(rest[k]) in fields by {
        assert forall x :: x in fields[1..] ==> x in fields;
      }
      if Truthy(fields[0]) then [fields[0].value] + rest else rest
  }

  /** One value as `filter(Boolean)` keeps it: itself when it is present
      and non-empty, otherwise nothing. */
  function Part(field: Option<string>): seq<string>
  {
    if Truthy(field) then [field.value] else []
  }

  /** A one-element list keeps its value exactly when the value is truthy. */
  lemma PresentSingleton(field: Option<string>)
    ensures Present([field]) == Part(field)
  {
    assert [field][1..] == [];
  }

  /** Filtering a concatenation filters each part in turn, so the kept
      values keep their order and their number. */
  lemma {:induction false} PresentConcat(a: seq<Option<string>>, b: seq<Option<string>>)
    ensures Present(a + b) == Present(a) + Present(b)
  {
    if a == [] {
      assert a + b == b;
    } else {
      assert (a + b)[1..] == a[1..] + b;
      PresentConcat(a[1..], b);
    }
  }

  /** The address parts in the order street, city, region, postal code,
      country, without the missing or empty ones. */
  function AddressParts(a: GeocodedAddress): (parts: seq<string>)
    ensures parts == Part(a.street) + Part(a.city) + Part(a.region) + Part(a.postalCode) + Part(a.country)
  {
    var fields := [a.street, a.city, a.region, a.postalCode, a.country];
    assert fields == [a.street] + [a.city] + [a.region] + [a.postalCode] + [a.country];
    PresentConcat([a.street] + [a.city] + [a.region] + [a.postalCode], [a.country]);
    PresentConcat([a.street] + [a.city] + [a.region], [a.postalCode]);
    PresentConcat([a.street] + [a.city], [a.region]);
    PresentConcat([a.street], [a.city]);
    PresentSingleton(a.street);
    PresentSingleton(a.city);
    PresentSingleton(a.region);
    PresentSingleton(a.postalCode);
    PresentSingleton(a.country);
    Present(fields)
  }

  /** `getAddressFromCoordinates`: the parts joined by ', ', or nothing
      when the geocoder found no address. */
  function AddressText(a: Option<GeocodedAddress>): (text: Option<string>)
    ensures text.None? <==> a.None?
    ensures text.Some? && AddressParts(a.value) == [] ==> text.value == ""
    ensures text.Some? && |AddressParts(a.value)| == 1 ==> text.value == AddressParts(a.value)[0]
  {
    if a.Some? then Some(Join(AddressParts(a.value), ", ")) else None
  }

  /** A street-and-city address reads "street, city". */
  lemma StreetAndCity(street: string, city: string)
    requires street != "" && city != ""
    ensures AddressText(Some(GeocodedAddress(Some(street), Some(city), None, Some(""), None))) ==
              Some(street + ", " + city)
  {
    var tail: seq<Option<string>> := [None, Some(""), None];
    assert Present(tail) == [] by {
      assert tail[1..] == [Some(""), None];
      assert tail[1..][1..] == [None];
      assert Present([None]) == [];
    }
    var fields := [Some(street), Some(city)] + tail;
    assert fields[1..] == [Some(city)] + tail;
    assert fields[1..][1..] == tail;
    assert Present(fields[1..]) == [city];
    assert Present(fields) == [street, city];
    assert fields == [Some(street), Some(city), None, Some(""), None];
    var a := GeocodedAddress(Some(street), Some(city), None, Some(""), None);
    assert AddressParts(a) == [street, city];
    assert [street, city][1..] == [city];
    assert Join([street, city], ", ") == street + ", " + city;
    assert AddressText(Some(a)) == Some(Join([street, city], ", "));
  }

  /** `address?.split(',')[0] || 'Unknown Location'`. */
  function MainText(address: Option<string>): (r: string)
    ensures r != "" && ',' !in r
    ensures r != "Unknown Location" ==> address.Some? && |r| <= |address.value| && address.value[..|r|] == r
  {
    if address.None? then "Unknown Location"
    else
      var first := Split(address.value, ',')[0];
      SplitFirstIsPrefix(address.value, ',');
      if first == "" then "Unknown Location" else first
  }

  /** `address?.split(',').slice(1).join(',').trim() || ''`. */
  function SecondaryText(address: Option<string>): (r: string)
    ensures address.None? ==> r == ""
    ensures address.Some? && ',' !in address.value ==> r == ""
    ensures r != [] ==> !IsJsWhitespace(r[0]) && !IsJsWhitespace(r[|r| - 1])
  {
    if address.None? then ""
    else
      var parts := Split(address.value, ',');
      assert ',' !in address.value ==> Trim(Join(parts[1..], ",")) == "" by {
        if ',' !in address.value {
          SplitWithoutSeparator(address.value, ',');
          assert parts[1..] == [];
          var t := Trim("");
          var i :| SliceAt("", t, i);
        }
      }
      Trim(Join(parts[1..], ","))
  }

  /** The main text of an address is its first part and the secondary text
      the trimmed rest after the first comma. */
  lemma {:induction false} TextsAtFirstComma(first: string, rest: string)
    requires ',' !in first && first != ""
    ensures MainText(Some(first + "," + rest)) == first
    ensures SecondaryText(Some(first + "," + rest)) == Trim(rest)
  {
    SplitAtFirstSeparator(first, ',', rest);
    assert first + "," + rest == first + [','] + rest;
    assert Split(first + "," + rest, ',')[1..] == Split(rest, ',');
    JoinSplit(rest, ',');
  }

  /** An address without a comma is its own main text and has no secondary
      text. */
  lemma {:induction false} TextsWithoutComma(address: string)
    requires ',' !in address && address != ""
    ensures MainText(Some(address)) == address
    ensures SecondaryText(Some(address)) == ""
  {
    SplitWithoutSeparator(address, ',');
    var t := Trim("");
    var i :| SliceAt("", t, i);
  }

  /** A search result as the list of suggestions shows it. */
  datatype SearchResult = SearchResult(formattedAddress: string, mainText: string, secondaryText: string)

  /** The formatting `searchLocation` applies to one geocoding match:
      `coordinateText` stands for the match's coordinates written with six
      decimals. */
  function FormatSearchResult(address: Option<string>, coordinateText: string): (r: SearchResult)
    ensures Truthy(address) ==> r.formattedAddress == address.value
    ensures !Truthy(address) ==> r.formattedAddress == coordinateText
    ensures r.mainText != "" && ',' !in r.mainText
    ensures address.None? ==> r.mainText == "Unknown Location" && r.secondaryText == ""
  {
    SearchResult(OrElse(address, coordinateText), MainText(address), SecondaryText(address))
  }

  /** A match with a geocoded address whose first part has no comma shows
      the joined address, with that first part as main text; a match with
      no address parts shows its coordinates under 'Unknown Location'. */
  lemma {:induction false} SearchResultOfAddress(a: GeocodedAddress, coordinateText: string)
    requires forall k :: 0 <= k < |AddressParts(a)| ==> ',' !in AddressParts(a)[k]
    ensures var r := FormatSearchResult(AddressText(Some(a)), coordinateText);
            (AddressParts(a) != [] ==>
               r.formattedAddress == AddressText(Some(a)).value && r.mainText == AddressParts(a)[0]) &&
            (AddressParts(a) == [] ==>
               r.formattedAddress == coordinateText && r.mainText == "Unknown Location")
  {
    var parts := AddressParts(a);
    var text := Join(parts, ", ");
    if |parts| == 1 {
      TextsWithoutComma(parts[0]);
    } else if |parts| > 1 {
      assert text == parts[0] + "," + (" " + Join(parts[1..], ", "));
      TextsAtFirstComma(parts[0], " " + Join(parts[1..], ", "));
    } else {
      assert Split("", ',') == [""];
    }
  }

  /** How many characters a query needs before a search starts. */
  const MinQueryLength := 3

  // ---------------------------------------------------------------- the form

  /** The state of the new-report screen. */
  class NewReportForm {
    var formData: FormData
    var mediaItems: seq<MediaItem>
    var vehicleDetails: seq<VehicleDetail>
    var newVehicle: VehicleDetail
    var showVehicleDialog: bool
    var searchQuery: string
    var searchResults: seq<SearchResult>
    var showSearchResults: bool

    /** The screen as it first opens at time `now`. */
    constructor (now: nat)
      ensures formData == BlankForm(now) && mediaItems == [] && vehicleDetails == []
      ensures newVehicle == BlankVehicle && !showVehicleDialog
      ensures searchQuery == "" && searchResults == [] && !showSearchResults
    {
      formData := BlankForm(now);
      mediaItems := [];
      vehicleDetails := [];
      newVehicle := BlankVehicle;
      showVehicleDialog := false;
      searchQuery := "";
      searchResults := [];
      showSearchResults := false;
    }

    /** `handleAddVehicle` at time `now`: without a registration number
        nothing happens; otherwise the draft is appended with the clock
        value as its id, the draft is blanked and the dialog closes. */
    method AddVehicle(now: nat)
      modifies this
      ensures old(newVehicle.registrationNo) == "" ==>
                vehicleDetails == old(vehicleDetails) && newVehicle == old(newVehicle) &&
                showVehicleDialog == old(showVehicleDialog)
      ensures old(newVehicle.registrationNo) != "" ==>
                vehicleDetails == old(vehicleDetails) + [old(newVehicle).(id := NatToString(now))] &&
                newVehicle == BlankVehicle && !showVehicleDialog
      ensures formData == old(formData) && mediaItems == old(mediaItems)
      ensures searchQuery == old(searchQuery) && searchResults == old(searchResults)
      ensures showSearchResults == old(showSearchResults)
    {
      if newVehicle.registrationNo != "" {
        vehicleDetails := vehicleDetails + [newVehicle.(id := NatToString(now))];
        newVehicle := BlankVehicle;
        showVehicleDialog := false;
      }
    }

    /** `handleRemoveVehicle(id)`. */
    method RemoveVehicle(id: string)
      modifies this
      ensures vehicleDetails == WithoutVehicle(old(vehicleDetails), id)
      ensures formData == old(formData) && mediaItems == old(mediaItems) && newVehicle == old(newVehicle)
      ensures showVehicleDialog == old(showVehicleDialog)
      ensures searchQuery == old(searchQuery) && searchResults == old(searchResults)
      ensures showSearchResults == old(showSearchResults)
    {
      vehicleDetails := WithoutVehicle(vehicleDetails, id);
    }

    /** The remove button of the media item at `index`. */
    method RemoveMedia(index: nat)
      modifies this
      ensures mediaItems == WithoutIndex(old(mediaItems), index)
      ensures formData == old(formData) && vehicleDetails == old(vehicleDetails) && newVehicle == old(newVehicle)
      ensures showVehicleDialog == old(showVehicleDialog)
      ensures searchQuery == old(searchQuery) && searchResults == old(searchResults)
      ensures showSearchResults == old(showSearchResults)
    {
      mediaItems := WithoutIndex(mediaItems, index);
    }

    /** `handleSearchAddress(query)`: records the query; a query shorter
        than three characters clears the results and starts no search.
        `started` says whether a (debounced) search was scheduled. */
    method SearchAddress(query: string) returns (started: bool)
      modifies this
      ensures started <==> |query| >= MinQueryLength
      ensures searchQuery == query
      ensures !started ==> searchResults == []
      ensures started ==> searchResults == old(searchResults)
      ensures formData == old(formData) && mediaItems == old(mediaItems)
      ensures vehicleDetails == old(vehicleDetails) && newVehicle == old(newVehicle)
      ensures showVehicleDialog == old(showVehicleDialog) && showSearchResults == old(showSearchResults)
    {
      searchQuery := query;
      if |query| < MinQueryLength {
        searchResults := [];
        started := false;
      } else {
        started := true;
      }
    }

    /** `handleDismissSearch`: hides the suggestions and clears the query
        and the results. */
    method DismissSearch()
      modifies this
      ensures !showSearchResults && searchQuery == "" && searchResults == []
      ensures formData == old(formData) && mediaItems == old(mediaItems)
      ensures vehicleDetails == old(vehicleDetails) && newVehicle == old(newVehicle)
      ensures showVehicleDialog == old(showVehicleDialog)
    {
      showSearchResults := false;
      searchQuery := "";
      searchResults := [];
    }

    /** `handleSelectSearchResult(result)`, for a suggestion at `position`:
        the search is dismissed, and the suggestion's position and its
        formatted address become the form's coordinates, location and
        address. */
    method SelectSearchResult(result: SearchResult, position: Coordinates)
      modifies this
      ensures !showSearchResults && searchQuery == "" && searchResults == []
      ensures formData == old(formData).(coordinates := Some(position),
                                         location := result.formattedAddress,
                                         address := result.formattedAddress)
      ensures formData.accidentDate == old(formData).accidentDate
      ensures formData.description == old(formData).description
      ensures mediaItems == old(mediaItems) && vehicleDetails == old(vehicleDetails)
      ensures newVehicle == old(newVehicle) && showVehicleDialog == old(showVehicleDialog)
    {
      DismissSearch();
      formData := formData.(coordinates := Some(position),
                            location := result.formattedAddress,
                            address := result.formattedAddress);
    }

    /** `handleMapPress`, `handleMarkerDragEnd` and `handleGetCurrentLocation`
        once the position is known: `address` is what reverse geocoding gave
        for it and `coordinateText` the position written with six decimals.
        The location is the address, or the coordinates when there is none;
        the address field is the address or empty. */
    method SetPosition(position: Coordinates, address: Option<string>, coordinateText: string)
      modifies this
      ensures formData == old(formData).(coordinates := Some(position),
                                         location := OrElse(address, coordinateText),
                                         address := OrElse(address, ""))
      ensures Truthy(address) ==> formData.location == formData.address == address.value
      ensures !Truthy(address) ==> formData.location == coordinateText && formData.address == ""
      ensures mediaItems == old(mediaItems) && vehicleDetails == old(vehicleDetails)
      ensures newVehicle == old(newVehicle) && showVehicleDialog == old(showVehicleDialog)
      ensures searchQuery == old(searchQuery) && searchResults == old(searchResults)
      ensures showSearchResults == old(showSearchResults)
    {
      formData := formData.(coordinates := Some(position),
                            location := OrElse(address, coordinateText),
                            address := OrElse(address, ""));
    }

    /** `handleSubmit`: hands the record built from the form to the report
        store, then resets the form (dated `now`) and empties the media and
        vehicle lists. */
    method Submit(store: ReportStore.Store, idStamp: nat, numberStamp: nat,
                  dateText: string, timeText: string, now: nat)
      modifies this, store
      ensures store.reports == ReportStore.Appended(old(store.reports),
                SubmittedReport(old(formData), old(vehicleDetails), old(mediaItems),
                                idStamp, numberStamp, dateText, timeText))
      ensures formData == BlankForm(now) && mediaItems == [] && vehicleDetails == []
      ensures newVehicle == old(newVehicle) && showVehicleDialog == old(showVehicleDialog)
      ensures searchQuery == old(searchQuery) && searchResults == old(searchResults)
      ensures showSearchResults == old(showSearchResults)
    {
      var report := SubmittedReport(formData, vehicleDetails, mediaItems, idStamp, numberStamp, dateText, timeText);
      store.AddReport(report);
      formData := BlankForm(now);
      mediaItems := [];
      vehicleDetails := [];
    }
  }
}
