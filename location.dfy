/** The location service (client/src/services/location.ts): the "City, ST" string
    made from a reverse-geocoding response, and the messages a failed lookup
    rejects with. The browser position, its coordinates and the network request
    are abstracted into their outcomes. */
module Location {
  import opened Wrappers

  /** The members of the geocoding response the client reads; each may be missing. */
  datatype GeocodingResponse = GeocodingResponse(
    city: Option<string>,
    locality: Option<string>,
    principalSubdivision: Option<string>,
    principalSubdivisionCode: Option<string>,
    countryCode: Option<string>)

  /** `a || b` for optional strings: the first present, non-empty one. */
  function Or(a: Option<string>, b: string): (r: string)
    ensures a.Some? && a.value != "" ==> r == a.value
    ensures (a.None? || a.value == "") ==> r == b
  {
    if a.Some? && a.value != "" then a.value else b
  }

  /** `pattern` occurs in `s` at index `i`. */
  predicate MatchesAt(s: string, pattern: string, i: nat)
    requires i + |pattern| <= |s|
  {
    s[i..i + |pattern|] == pattern
  }

  /** The index of the first occurrence of `pattern` in `s` at or after `from`. */
  function FirstMatch(s: string, pattern: string, from: nat): (r: Option<nat>)
    requires from <= |s| + 1
    ensures r.Some? ==> from <= r.value && r.value + |pattern| <= |s| && MatchesAt(s, pattern, r.value)
    ensures r.Some? ==> forall i :: from <= i < r.value ==> !MatchesAt(s, pattern, i)
    ensures r.None? ==> forall i :: from <= i && i + |pattern| <= |s| ==> !MatchesAt(s, pattern, i)
    decreases |s| + 1 - from
  {
    if from + |pattern| > |s| then None
    else if MatchesAt(s, pattern, from) then Some(from)
    else FirstMatch(s, pattern, from + 1)
  }

  /** `String.prototype.replace` with a string pattern: only the first occurrence
      is replaced, and a string without one is returned unchanged. */
  function ReplaceFirst(s: string, pattern: string, replacement: string): (r: string)
    ensures (forall i :: 0 <= i && i + |pattern| <= |s| ==> !MatchesAt(s, pattern, i)) ==> r == s
    ensures forall i :: (0 <= i && i + |pattern| <= |s| && MatchesAt(s, pattern, i) &&
                         (forall j :: 0 <= j < i ==> !MatchesAt(s, pattern, j))) ==>
                        r == s[..i] + replacement + s[i + |pattern|..]
  {
    match FirstMatch(s, pattern, 0)
    case None => s
    case Some(i) => s[..i] + replacement + s[i + |pattern|..]
  }

  /** `data.city || data.locality || 'Unknown City'` (line 24): never empty. */
  function City(d: GeocodingResponse): (r: string)
    ensures r != ""
    ensures d.city.Some? && d.city.value != "" ==> r == d.city.value
    ensures (d.city.None? || d.city.value == "") && d.locality.Some? && d.locality.value != "" ==> r == d.locality.value
    ensures (d.city.None? || d.city.value == "") && (d.locality.None? || d.locality.value == "") ==> r == "Unknown City"
  {
    Or(d.city, Or(d.locality, "Unknown City"))
  }

  /** `data.principalSubdivisionCode?.replace('US-', '') || data.principalSubdivision || ''`
      (line 25). */
  function State(d: GeocodingResponse): (r: string)
    ensures d.principalSubdivisionCode.Some? && ReplaceFirst(d.principalSubdivisionCode.value, "US-", "") != "" ==>
      r == ReplaceFirst(d.principalSubdivisionCode.value, "US-", "")
    ensures (d.principalSubdivisionCode.None? || ReplaceFirst(d.principalSubdivisionCode.value, "US-", "") == "") ==>
      r == Or(d.principalSubdivision, "")
  {
    var code := match d.principalSubdivisionCode
      case Some(c) => Some(ReplaceFirst(c, "US-", ""))
      case None => None;
    Or(code, Or(d.principalSubdivision, ""))
  }

  /** The place string (lines 27-30): "city, state", or the city alone when the
      state is empty. */
  function FormatPlace(d: GeocodingResponse): (r: string)
    ensures r != ""
    ensures State(d) != "" ==> r == City(d) + ", " + State(d)
    ensures State(d) == "" ==> r == City(d)
  {
    var city, state := City(d), State(d);
    if state != "" then city + ", " + state else city
  }

  /** A US subdivision code such as "US-CA" yields "City, CA". */
  lemma UsStateCode(d: GeocodingResponse, st: string)
    requires d.principalSubdivisionCode == Some("US-" + st) && st != ""
    ensures FormatPlace(d) == City(d) + ", " + st
  {
    var code := "US-" + st;
    assert code[..3] == "US-" && code[3..] == st;
  }

  /** A subdivision code of another country ("CA-ON") is shown unchanged. */
  lemma ForeignCodeKept(d: GeocodingResponse)
    requires d.principalSubdivisionCode.Some? && d.principalSubdivisionCode.value != ""
    requires var c := d.principalSubdivisionCode.value;
      forall i :: 0 <= i && i + 3 <= |c| ==> !MatchesAt(c, "US-", i)
    ensures FormatPlace(d) == City(d) + ", " + d.principalSubdivisionCode.value
  {
  }

  /** Without a subdivision the place is the city alone. */
  lemma CityOnly(d: GeocodingResponse)
    requires d.principalSubdivisionCode.None? && (d.principalSubdivision.None? || d.principalSubdivision.value == "")
    ensures FormatPlace(d) == City(d)
  {
  }

  /** The response to the geocoding request. */
  datatype GeocodeOutcome =
    | Responded(ok: bool, data: GeocodingResponse)
    | RequestThrew(message: string)

  /** reverseGeocode (lines 9-35): a non-OK response rejects. */
  function ReverseGeocode(g: GeocodeOutcome): (r: Result<string, string>)
    ensures g.Responded? && !g.ok ==> r == Failure("Geocoding request failed")
    ensures g.Responded? && g.ok ==> r == Success(FormatPlace(g.data))
    ensures g.RequestThrew? ==> r == Failure(g.message)
  {
    match g
    case RequestThrew(m) => Failure(m)
    case Responded(ok, data) => if ok then Success(FormatPlace(data)) else Failure("Geocoding request failed")
  }

  /** The codes of GeolocationPositionError in the W3C Geolocation API. */
  const PermissionDenied: int := 1
  const PositionUnavailable: int := 2
  const Timeout: int := 3

  /** The error callback's switch (lines 55-67). */
  function PositionErrorMessage(code: int): (r: string)
    ensures code == PermissionDenied ==> r == "Location permission denied"
    ensures code == PositionUnavailable ==> r == "Location information unavailable"
    ensures code == Timeout ==> r == "Location request timed out"
    ensures code !in {PermissionDenied, PositionUnavailable, Timeout} ==> r == "Failed to get location"
  {
    if code == PermissionDenied then "Location permission denied"
    else if code == PositionUnavailable then "Location information unavailable"
    else if code == Timeout then "Location request timed out"
    else "Failed to get location"
  }

  /** What the browser's position request produced. */
  datatype PositionOutcome = Position(geocode: GeocodeOutcome) | PositionFailed(code: int)

  /** getCurrentLocation (lines 37-76): the promise's settled value, with a
      missing geolocation API rejecting first. */
  function GetCurrentLocation(supported: bool, position: PositionOutcome): (r: Result<string, string>)
    ensures !supported ==> r == Failure("Geolocation is not supported by this browser")
    ensures supported && position.PositionFailed? ==> r == Failure(PositionErrorMessage(position.code))
    ensures supported && position.Position? ==> r == ReverseGeocode(position.geocode)
    ensures r.Success? ==> r.value != ""
  {
    if !supported then Failure("Geolocation is not supported by this browser")
    else match position
      case PositionFailed(code) => Failure(PositionErrorMessage(code))
      case Position(g) => ReverseGeocode(g)
  }
}
