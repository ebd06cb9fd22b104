/**
 * The geocoding client: one GET to the address-match endpoint, then the first
 * match's coordinates. The HTTP exchange and the JSON parsing are replaced by
 * an abstract `get` that returns the parsed body (or a transport failure).
 */
module CensusGovService {
  import opened Wrappers
  import opened Addresses

  const Benchmark: int := 4
  const Format: string := "json"
  const NoMatchMessage: string := "Error: No Matching Addresses"

  /** The query string of the GET to `/address`. */
  datatype Query = Query(street: Option<string>, city: Option<string>, state: Option<string>, zip: Option<string>,
                         benchmark: int, format: string)

  /** The parts of the parsed response body the client reads; any of them may be missing (`nil`). */
  datatype Coordinates = Coordinates(x: Option<real>, y: Option<real>)
  datatype AddressMatch = AddressMatch(coordinates: Option<Coordinates>)
  /** `addressMatches` is a JSON array whose elements may be `null`. */
  datatype ResultObject = ResultObject(addressMatches: Option<seq<Option<AddressMatch>>>)
  datatype ResponseBody = ResponseBody(result: Option<ResultObject>)

  datatype HttpReply = Received(body: ResponseBody) | Unreachable(message: string)

  /** The hash `{ latitude: ..., longitude: ... }` that `get_coordinates` returns. */
  datatype CoordinateHash = CoordinateHash(latitude: Option<real>, longitude: Option<real>)

  function QueryAddress(q: Query): Address {
    Address(q.street, q.city, q.state, q.zip)
  }

  /** The request carries the four fields unchanged, plus the fixed benchmark and format. */
  function BuildQuery(a: Address): (q: Query)
    ensures QueryAddress(q) == a
    ensures q.benchmark == Benchmark && q.format == Format
  {
    Query(a.street, a.city, a.state, a.zip, Benchmark, Format)
  }

  /** `Array#any?` without a block: some element is truthy, that is, not `nil`. */
  predicate AnyPresent(ms: seq<Option<AddressMatch>>) {
    exists i :: 0 <= i < |ms| && ms[i].Some?
  }

  /**
   * `get_location_data`: the first element of `addressMatches` when the list has
   * a non-`nil` element, otherwise the "no matching addresses" error. Reading a
   * missing `result` or `addressMatches` calls a method on `nil`.
   */
  function GetLocationData(a: Address, get: Query -> HttpReply): (r: Result<Option<AddressMatch>, Error>)
    ensures get(BuildQuery(a)).Unreachable? ==> r == Failure(TransportError(get(BuildQuery(a)).message))
    ensures get(BuildQuery(a)).Received? ==>
      var body := get(BuildQuery(a)).body;
      if body.result.None? || body.result.value.addressMatches.None? then r == Failure(NoMethodError)
      else
        var ms := body.result.value.addressMatches.value;
        && (r.Success? <==> AnyPresent(ms))
        && (r.Success? ==> r.value == ms[0])
        && (!AnyPresent(ms) ==> r == Failure(RuntimeError(NoMatchMessage)))
  {
    match get(BuildQuery(a))
    case Unreachable(m) => Failure(TransportError(m))
    case Received(body) =>
      if body.result.None? || body.result.value.addressMatches.None? then Failure(NoMethodError)
      else
        var ms := body.result.value.addressMatches.value;
        if AnyPresent(ms) then Success(ms[0]) else Failure(RuntimeError(NoMatchMessage))
  }

  /**
   * `get_coordinates`: `latitude` is the match's `x` and `longitude` its `y`,
   * exactly as read, with no exchange of the two; any failure of
   * `get_location_data` reaches the caller unchanged.
   */
  function GetCoordinates(a: Address, get: Query -> HttpReply): (r: Result<CoordinateHash, Error>)
    ensures GetLocationData(a, get).Failure? ==> r == Failure(GetLocationData(a, get).error)
    ensures r.Success? <==>
      GetLocationData(a, get).Success? && GetLocationData(a, get).value.Some?
      && GetLocationData(a, get).value.value.coordinates.Some?
    ensures r.Success? ==>
      var c := GetLocationData(a, get).value.value.coordinates.value;
      r.value.latitude == c.x && r.value.longitude == c.y
    ensures GetLocationData(a, get).Success? && !r.Success? ==> r == Failure(NoMethodError)
  {
    match GetLocationData(a, get)
    case Failure(e) => Failure(e)
    case Success(m) =>
      if m.None? || m.value.coordinates.None? then Failure(NoMethodError)
      else Success(CoordinateHash(m.value.coordinates.value.x, m.value.coordinates.value.y))
  }

  /** A reply whose `addressMatches` list is exactly `ms`. */
  function MatchesReply(ms: seq<Option<AddressMatch>>): Query -> HttpReply {
    q => Received(ResponseBody(Some(ResultObject(Some(ms)))))
  }

  /** A match at x = -73.9925, y = 40.7265 yields latitude -73.9925 and longitude 40.7265. */
  lemma GetCoordinatesKeepsAxes(a: Address)
    ensures var m := AddressMatch(Some(Coordinates(Some(-73.9925), Some(40.7265))));
            GetCoordinates(a, MatchesReply([Some(m)]))
            == Success(CoordinateHash(Some(-73.9925), Some(40.7265)))
  {
    var m := AddressMatch(Some(Coordinates(Some(-73.9925), Some(40.7265))));
    assert AnyPresent([Some(m)]) by { assert [Some(m)][0].Some?; }
  }

  /** An empty match list fails with the "no matching addresses" error, and so does the coordinate lookup. */
  lemma NoMatchesFails(a: Address)
    ensures GetLocationData(a, MatchesReply([])) == Failure(RuntimeError(NoMatchMessage))
    ensures GetCoordinates(a, MatchesReply([])) == Failure(RuntimeError(NoMatchMessage))
  {
  }
}
