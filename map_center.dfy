/** `mapCenter`: where the map of the filtered records is centred. */
module MapCenter {
  import opened Wrappers
  import opened Records
  import RecordFilter

  /** A map position, latitude first, as Leaflet takes it. */
  datatype LatLng = LatLng(lat: real, lng: real)

  /** Where the map is centred when no shown record has coordinates. */
  const DefaultCenter: LatLng := LatLng(53.2205, 63.6283)

  /** Both coordinates of the record are numbers. */
  predicate IsGeolocated(item: Complaint) {
    item.latitude.Some? && item.longitude.Some?
  }

  /** The records that get a marker: those with both coordinates, in their original order. */
  function Geolocated(items: seq<Complaint>): (r: seq<Complaint>)
    ensures |r| <= |items|
    ensures forall i :: 0 <= i < |r| ==> IsGeolocated(r[i])
  {
    if items == [] then []
    else (if IsGeolocated(items[0]) then [items[0]] else []) + Geolocated(items[1..])
  }

  /** The marker position of a geolocated record. */
  function Position(item: Complaint): LatLng
    requires IsGeolocated(item)
  {
    LatLng(item.latitude.value, item.longitude.value)
  }

  /** `items.reduce((sum, i) => sum + i.latitude, 0)`, summing from the left. */
  function SumLatitude(items: seq<Complaint>): real
    requires forall i :: 0 <= i < |items| ==> IsGeolocated(items[i])
  {
    if items == [] then 0.0
    else SumLatitude(items[..|items| - 1]) + Position(items[|items| - 1]).lat
  }

  /** `items.reduce((sum, i) => sum + i.longitude, 0)`, summing from the left. */
  function SumLongitude(items: seq<Complaint>): real
    requires forall i :: 0 <= i < |items| ==> IsGeolocated(items[i])
  {
    if items == [] then 0.0
    else SumLongitude(items[..|items| - 1]) + Position(items[|items| - 1]).lng
  }

  /** The centre for the filtered records: the default position when none of them has
      coordinates, and otherwise the mean latitude and the mean longitude of those that do. */
  function Center(filtered: seq<Complaint>): LatLng {
    var items := Geolocated(filtered);
    if |items| == 0 then DefaultCenter
    else LatLng(SumLatitude(items) / |items| as real, SumLongitude(items) / |items| as real)
  }

  /** The records kept are exactly the geolocated ones. */
  lemma {:induction false} GeolocatedMembership(items: seq<Complaint>, x: Complaint)
    ensures x in Geolocated(items) <==> x in items && IsGeolocated(x)
  {
    if items != [] {
      GeolocatedMembership(items[1..], x);
      assert items == [items[0]] + items[1..];
    }
  }

  /** Records that all have coordinates are kept as they are. */
  lemma {:induction false} GeolocatedOfGeolocated(items: seq<Complaint>)
    requires forall i :: 0 <= i < |items| ==> IsGeolocated(items[i])
    ensures Geolocated(items) == items
  {
    if items != [] {
      GeolocatedOfGeolocated(items[1..]);
    }
  }

  /** With no record that has both coordinates (in particular with no record at all), the map
      is centred on the default position. */
  lemma CenterFallback(filtered: seq<Complaint>)
    requires forall i :: 0 <= i < |filtered| ==> !IsGeolocated(filtered[i])
    ensures Center(filtered) == DefaultCenter
  {
    var items := Geolocated(filtered);
    if items != [] {
      GeolocatedMembership(filtered, items[0]);
      assert false;
    }
  }

  /** A single geolocated record puts the centre exactly on that record. */
  lemma CenterSingle(filtered: seq<Complaint>, item: Complaint)
    requires Geolocated(filtered) == [item]
    ensures IsGeolocated(item) && Center(filtered) == Position(item)
  {
    var items := Geolocated(filtered);
    assert items[0] == item && items[..0] == [];
    assert SumLatitude(items) == Position(item).lat;
    assert SumLongitude(items) == Position(item).lng;
  }

  /** Records without coordinates do not move the centre. */
  lemma CenterIgnoresUnlocated(filtered: seq<Complaint>)
    ensures Center(filtered) == Center(Geolocated(filtered))
  {
    GeolocatedOfGeolocated(Geolocated(filtered));
  }

  lemma {:induction false} SumLatitudeBounds(items: seq<Complaint>, south: real, north: real)
    requires forall i :: 0 <= i < |items| ==> IsGeolocated(items[i])
    requires forall i :: 0 <= i < |items| ==> south <= Position(items[i]).lat <= north
    ensures |items| as real * south <= SumLatitude(items) <= |items| as real * north
  {
    if items != [] {
      var init := items[..|items| - 1];
      assert forall i :: 0 <= i < |init| ==> init[i] == items[i];
      SumLatitudeBounds(init, south, north);
      var last := Position(items[|items| - 1]).lat;
      assert SumLatitude(items) == SumLatitude(init) + last;
      StepBounds(|init| as real, |items| as real, SumLatitude(init), last, south, north);
    }
  }

  lemma {:induction false} SumLongitudeBounds(items: seq<Complaint>, west: real, east: real)
    requires forall i :: 0 <= i < |items| ==> IsGeolocated(items[i])
    requires forall i :: 0 <= i < |items| ==> west <= Position(items[i]).lng <= east
    ensures |items| as real * west <= SumLongitude(items) <= |items| as real * east
  {
    if items != [] {
      var init := items[..|items| - 1];
      assert forall i :: 0 <= i < |init| ==> init[i] == items[i];
      SumLongitudeBounds(init, west, east);
      var last := Position(items[|items| - 1]).lng;
      assert SumLongitude(items) == SumLongitude(init) + last;
      StepBounds(|init| as real, |items| as real, SumLongitude(init), last, west, east);
    }
  }

  lemma StepBounds(m: real, n: real, sum: real, x: real, lo: real, hi: real)
    requires n == m + 1.0
    requires m * lo <= sum <= m * hi
    requires lo <= x <= hi
    ensures n * lo <= sum + x <= n * hi
  {
    assert n * lo == m * lo + lo;
    assert n * hi == m * hi + hi;
  }

  /** Every geolocated record lies in the box when every geolocated record of `filtered` does. */
  lemma GeolocatedWithin(filtered: seq<Complaint>, south: real, north: real, west: real, east: real)
    requires forall i :: 0 <= i < |filtered| && IsGeolocated(filtered[i]) ==>
      south <= Position(filtered[i]).lat <= north && west <= Position(filtered[i]).lng <= east
    ensures forall i :: 0 <= i < |Geolocated(filtered)| ==>
      south <= Position(Geolocated(filtered)[i]).lat <= north
      && west <= Position(Geolocated(filtered)[i]).lng <= east
  {
    var items := Geolocated(filtered);
    forall i | 0 <= i < |items|
      ensures south <= Position(items[i]).lat <= north && west <= Position(items[i]).lng <= east
    {
      GeolocatedMembership(filtered, items[i]);
    }
  }

  /** The centre lies inside every box that holds all the geolocated records. */
  lemma CenterWithinBounds(filtered: seq<Complaint>, south: real, north: real, west: real, east: real)
    requires exists i :: 0 <= i < |filtered| && IsGeolocated(filtered[i])
    requires forall i :: 0 <= i < |filtered| && IsGeolocated(filtered[i]) ==>
      south <= Position(filtered[i]).lat <= north && west <= Position(filtered[i]).lng <= east
    ensures south <= Center(filtered).lat <= north
    ensures west <= Center(filtered).lng <= east
  {
    var items := Geolocated(filtered);
    var k :| 0 <= k < |filtered| && IsGeolocated(filtered[k]);
    GeolocatedMembership(filtered, filtered[k]);
    GeolocatedWithin(filtered, south, north, west, east);
    MeanLatitudeWithin(items, south, north);
    MeanLongitudeWithin(items, west, east);
  }

  /** The mean latitude of non-empty geolocated records lies between any bounds of their latitudes. */
  lemma MeanLatitudeWithin(items: seq<Complaint>, south: real, north: real)
    requires items != []
    requires forall i :: 0 <= i < |items| ==> IsGeolocated(items[i])
    requires forall i :: 0 <= i < |items| ==> south <= Position(items[i]).lat <= north
    ensures south <= SumLatitude(items) / |items| as real <= north
  {
    SumLatitudeBounds(items, south, north);
    DivideBounds(SumLatitude(items), |items| as real, south, north);
  }

  /** The mean longitude of non-empty geolocated records lies between any bounds of their longitudes. */
  lemma MeanLongitudeWithin(items: seq<Complaint>, west: real, east: real)
    requires items != []
    requires forall i :: 0 <= i < |items| ==> IsGeolocated(items[i])
    requires forall i :: 0 <= i < |items| ==> west <= Position(items[i]).lng <= east
    ensures west <= SumLongitude(items) / |items| as real <= east
  {
    SumLongitudeBounds(items, west, east);
    DivideBounds(SumLongitude(items), |items| as real, west, east);
  }

  lemma DivideBounds(sum: real, n: real, lo: real, hi: real)
    requires n > 0.0
    requires n * lo <= sum <= n * hi
    ensures lo <= sum / n <= hi
  {
  }

  /** The map follows the filter: when no record the filter lets through has coordinates, the
      map is centred on the default position. */
  lemma CenterOfFilteredFallback(data: seq<Complaint>, query: string, status: Option<string>)
    requires forall i :: 0 <= i < |data| && RecordFilter.Passes(query, status, data[i]) ==> !IsGeolocated(data[i])
    ensures Center(RecordFilter.FilteredData(data, query, status)) == DefaultCenter
  {
    var shown := RecordFilter.FilteredData(data, query, status);
    forall i | 0 <= i < |shown|
      ensures !IsGeolocated(shown[i])
    {
      RecordFilter.FilteredMembership(data, query, status, shown[i]);
    }
    CenterFallback(shown);
  }
}
