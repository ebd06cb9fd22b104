/**
 * The `create` and `show` actions. What they render, redirect to or raise is a
 * `Response` value; the table, the geocoder, each `save`'s storage answer, the
 * forecast cache and the forecast service are parameters.
 */
module LocationsController {
  import opened Wrappers
  import opened Addresses
  import opened LocationModel

  const UnprocessableEntity: nat := 422
  const CoordinatesAlert: string := "Could not find coordinates for this address."
  const NotFoundAlert: string := "Location not found."
  const CacheKeyPrefix: string := "weather_forecast_"

  /** The forecast document as the weather service returns it; its content is not interpreted here. */
  datatype Forecast = Forecast(document: string)

  /** The value of the forecast-service call: a forecast, or the exception it raised. */
  datatype ForecastReply = Fetched(forecast: Forecast) | FetchRaised(error: Error)

  datatype Path = LocationPath(id: nat) | NewPath

  /** `flash.now[:alert]`: a fixed message, or the record's validation errors as a sentence. */
  datatype Alert = Message(text: string) | ErrorMessages(errors: seq<Violation>)

  datatype Response =
    | RenderNew(status: nat, alert: Alert)                           // render :new
    | RenderShow(location: Record, forecast: Forecast, cachedResult: bool) // render :show
    | Redirect(path: Path, flashAlert: Option<string>)               // redirect_to, with flash[:alert]
    | ServerError(error: Error)                                      // an exception escapes the action

  /** The record `create` works on: the one `find_by_address` returns, or a new one built from the raw parameters. */
  function Chosen(rows: seq<Record>, params: Address): (a: Attributes)
    requires IdsAscending(rows)
    ensures FindByAddress(rows, params).Some? ==> a == FindByAddress(rows, params).value.attrs
    ensures FindByAddress(rows, params).None? ==> a == FromParams(params)
  {
    match FindByAddress(rows, params)
    case Some(r) => r.attrs
    case None => FromParams(params)
  }

  /** The id of that record: the found row's, or `nil` for a new one. */
  function ChosenId(rows: seq<Record>, params: Address): (id: Option<nat>)
    requires IdsAscending(rows)
    ensures id.Some? <==> FindByAddress(rows, params).Some?
    ensures id.Some? ==> exists i :: 0 <= i < |rows| && rows[i].id == id.value && rows[i].attrs == Chosen(rows, params)
  {
    match FindByAddress(rows, params)
    case Some(r) =>
      ghost var k :| 0 <= k < |rows| && rows[k] == r;
      Some(r.id)
    case None => None
  }

  /** `unless @location.latitude && @location.longitude`. */
  predicate LacksCoordinates(a: Attributes) {
    a.latitude.None? || a.longitude.None?
  }

  /** `Location.find_by_address(location_params) || Location.new(location_params)`. */
  method FindOrBuild(table: Table, params: Address) returns (location: Location)
    requires table.Valid()
    ensures fresh(location)
    ensures location.Attrs() == Chosen(table.rows, params) && location.errors == []
    ensures location.id == ChosenId(table.rows, params)
  {
    var found := FindByAddress(table.rows, params);
    if found.Some? {
      location := new Location.Load(found.value);
      ghost var k :| 0 <= k < |table.rows| && table.rows[k] == found.value;
    } else {
      location := new Location.New(params);
    }
  }

  /** The attributes after the coordinate step: `set_coordinates` fills them in only when one is missing and the geocoder answers. */
  function Geocoded(chosen: Attributes, geocoder: Address -> GeocoderReply): (a: Attributes)
    ensures AddressOf(a) == AddressOf(chosen)
    ensures !LacksCoordinates(chosen) || !geocoder(AddressOf(chosen)).Coords? ==> a == chosen
    ensures LacksCoordinates(chosen) && geocoder(AddressOf(chosen)).Coords? ==>
      a.latitude == geocoder(AddressOf(chosen)).coords.latitude && a.longitude == geocoder(AddressOf(chosen)).coords.longitude
  {
    var reply := geocoder(AddressOf(chosen));
    if LacksCoordinates(chosen) && reply.Coords? then
      chosen.(latitude := reply.coords.latitude, longitude := reply.coords.longitude)
    else chosen
  }

  /**
   * The coordinate step of `create`: a record with both coordinates is left
   * alone; otherwise `save_with_coordinates` runs and its answer decides
   * whether `create` goes on.
   */
  method CoordinateStep(location: Location, table: Table, geocoder: Address -> GeocoderReply,
                        firstSave: StorageReply, now: int) returns (proceed: bool)
    requires table.Valid()
    requires location.id.Some? ==> exists i :: 0 <= i < |table.rows| && table.rows[i].id == location.id.value
    modifies location, table
    ensures table.Valid()
    ensures location.Attrs() == Geocoded(old(location.Attrs()), geocoder)
    ensures var a := location.Attrs();
            var geocoded := LacksCoordinates(old(location.Attrs())) && geocoder(old(location.AddressFields())).Coords?;
      && (proceed <==> !LacksCoordinates(old(location.Attrs())) || (geocoded && Valid(a) && !firstSave.Fail?))
      && Snapshot(table.rows, table.nextId, location.id)
         == SaveIf(old(table.rows), old(table.nextId), old(location.id), a, geocoded && Valid(a) && firstSave.Accept?, now)
    // when `create` stops here nothing was written
    ensures !proceed ==> table.rows == old(table.rows) && table.nextId == old(table.nextId)
  {
    if location.latitude.None? || location.longitude.None? {
      proceed := location.SaveWithCoordinates(table, geocoder, firstSave, now);
    } else {
      proceed := true;
    }
  }

  /** What `create` renders, and the table and record id it leaves behind. */
  datatype Outcome = Outcome(response: Response, after: Snapshot)

  /**
   * `create` as a function of the table it starts from, the record chosen by
   * `find_by_address || new` with its id, the geocoder and the database's
   * answers to the two saves: the record is geocoded if a coordinate is
   * missing and saved by `save_with_coordinates`; if that fails the
   * coordinates alert is rendered; otherwise `save` runs and decides between
   * the redirect, the re-render with the errors and an exception.
   */
  function CreateOutcome(rows: seq<Record>, nextId: nat, chosen: Attributes, id: Option<nat>,
                         geocoder: Address -> GeocoderReply, firstSave: StorageReply, secondSave: StorageReply,
                         now: int): (o: Outcome)
    requires TableInvariant(rows, nextId)
    requires id.Some? ==> exists i :: 0 <= i < |rows| && rows[i].id == id.value
    ensures TableInvariant(o.after.rows, o.after.nextId)
  {
    var a := Geocoded(chosen, geocoder);
    var geocoded := LacksCoordinates(chosen) && geocoder(AddressOf(chosen)).Coords?;
    var first := SaveIf(rows, nextId, id, a, geocoded && Valid(a) && firstSave.Accept?, now);
    if LacksCoordinates(chosen) && !(geocoded && Valid(a) && !firstSave.Fail?) then
      Outcome(RenderNew(UnprocessableEntity, Message(CoordinatesAlert)), first)
    else
      var second := SaveIf(first.rows, first.nextId, first.id, a, Valid(a) && secondSave.Accept?, now);
      if Valid(a) && secondSave.Accept? then Outcome(Redirect(LocationPath(second.id.value), None), second)
      else if Valid(a) && secondSave.Fail? then Outcome(ServerError(StorageError(secondSave.message)), second)
      else Outcome(RenderNew(UnprocessableEntity, ErrorMessages(Errors(a))), second)
  }

  /** `CreateOutcome` branch by branch, in terms of the table after each of the two saves. */
  lemma CreateOutcomeCases(rows: seq<Record>, nextId: nat, chosen: Attributes, id: Option<nat>,
                           geocoder: Address -> GeocoderReply, firstSave: StorageReply, secondSave: StorageReply,
                           now: int, a: Attributes, first: Snapshot, second: Snapshot)
    requires TableInvariant(rows, nextId)
    requires id.Some? ==> exists i :: 0 <= i < |rows| && rows[i].id == id.value
    requires a == Geocoded(chosen, geocoder)
    requires first == SaveIf(rows, nextId, id, a, LacksCoordinates(chosen) && geocoder(AddressOf(chosen)).Coords?
                                                  && Valid(a) && firstSave.Accept?, now)
    requires second == SaveIf(first.rows, first.nextId, first.id, a, Valid(a) && secondSave.Accept?, now)
    ensures var o := CreateOutcome(rows, nextId, chosen, id, geocoder, firstSave, secondSave, now);
      if LacksCoordinates(chosen) && !(geocoder(AddressOf(chosen)).Coords? && Valid(a) && !firstSave.Fail?) then
        o == Outcome(RenderNew(UnprocessableEntity, Message(CoordinatesAlert)), first)
      else
        && o.after == second
        && (Valid(a) && secondSave.Accept? ==> second.id.Some? && o.response == Redirect(LocationPath(second.id.value), None))
        && (Valid(a) && secondSave.Fail? ==> o.response == ServerError(StorageError(secondSave.message)))
        && (!Valid(a) || secondSave.Reject? ==> o.response == RenderNew(UnprocessableEntity, ErrorMessages(Errors(a))))
  {
  }

  /** The last part of `create`: `save`, then the redirect, the re-render with the errors, or the exception. */
  method FinalSave(location: Location, table: Table, secondSave: StorageReply, now: int) returns (response: Response)
    requires table.Valid()
    requires location.id.Some? ==> exists i :: 0 <= i < |table.rows| && table.rows[i].id == location.id.value
    modifies location`id, location`errors, table
    ensures table.Valid() && location.Attrs() == old(location.Attrs())
    ensures var a := location.Attrs();
      && Snapshot(table.rows, table.nextId, location.id)
         == SaveIf(old(table.rows), old(table.nextId), old(location.id), a, Valid(a) && secondSave.Accept?, now)
      && (Valid(a) && secondSave.Accept? ==> location.id.Some? && response == Redirect(LocationPath(location.id.value), None))
      && (Valid(a) && secondSave.Fail? ==> response == ServerError(StorageError(secondSave.message)))
      && (!Valid(a) || secondSave.Reject? ==> response == RenderNew(UnprocessableEntity, ErrorMessages(Errors(a))))
  {
    var saved := location.Save(table, secondSave, now);
    match saved
    case Saved =>
      response := Redirect(LocationPath(location.id.value), None);
    case NotSaved =>
      response := RenderNew(UnprocessableEntity, ErrorMessages(location.errors));
    case SaveRaised(e) =>
      response := ServerError(e);
  }

  /**
   * `create`: reuse the record `find_by_address` returns, or build one from the
   * raw parameters; call `save_with_coordinates` only when a coordinate is
   * missing, and re-render with the coordinates alert when it fails; then
   * `save`, redirecting to the record on success and re-rendering with its
   * errors otherwise.
   */
  method Create(table: Table, params: Address, geocoder: Address -> GeocoderReply,
                firstSave: StorageReply, secondSave: StorageReply, now: int)
    returns (response: Response, location: Location)
    requires table.Valid()
    modifies table
    ensures table.Valid()
    ensures fresh(location)
    ensures location.Attrs() == Geocoded(Chosen(old(table.rows), params), geocoder)
    ensures var o := CreateOutcome(old(table.rows), old(table.nextId), Chosen(old(table.rows), params),
                                   ChosenId(old(table.rows), params), geocoder, firstSave, secondSave, now);
      response == o.response && Snapshot(table.rows, table.nextId, location.id) == o.after
  {
    ghost var rows0, nextId0 := table.rows, table.nextId;
    location := FindOrBuild(table, params);
    ghost var chosen, id0 := location.Attrs(), location.id;
    assert location.AddressFields() == AddressOf(chosen);
    var proceed := CoordinateStep(location, table, geocoder, firstSave, now);
    ghost var a := location.Attrs();
    ghost var first := Snapshot(table.rows, table.nextId, location.id);
    assert first == SaveIf(rows0, nextId0, id0, a, LacksCoordinates(chosen) && geocoder(AddressOf(chosen)).Coords?
                                                   && Valid(a) && firstSave.Accept?, now);
    ghost var failed := LacksCoordinates(chosen) && !(geocoder(AddressOf(chosen)).Coords? && Valid(a) && !firstSave.Fail?);
    assert proceed == !failed;
    if !proceed {
      response := RenderNew(UnprocessableEntity, Message(CoordinatesAlert));
      CreateOutcomeCases(rows0, nextId0, chosen, id0, geocoder, firstSave, secondSave, now, a, first,
                         SaveIf(first.rows, first.nextId, first.id, a, Valid(a) && secondSave.Accept?, now));
      return;
    }
    response := FinalSave(location, table, secondSave, now);
    CreateOutcomeCases(rows0, nextId0, chosen, id0, geocoder, firstSave, secondSave, now, a, first,
                       Snapshot(table.rows, table.nextId, location.id));
  }

  /** A record that has both coordinates is not geocoded: `create` keeps the coordinates it has. */
  lemma CreateKeepsKnownCoordinates(chosen: Attributes, geocoder: Address -> GeocoderReply)
    requires !LacksCoordinates(chosen)
    ensures Geocoded(chosen, geocoder) == chosen
  {
  }

  /**
   * `create` renders the coordinates alert with status 422 exactly when a
   * coordinate is missing and `save_with_coordinates` fails (no coordinates,
   * an invalid record or a raising save), and then it has written nothing.
   */
  lemma CreateAlertWritesNothing(rows: seq<Record>, nextId: nat, chosen: Attributes, id: Option<nat>,
                                 geocoder: Address -> GeocoderReply, firstSave: StorageReply,
                                 secondSave: StorageReply, now: int)
    requires TableInvariant(rows, nextId)
    requires id.Some? ==> exists i :: 0 <= i < |rows| && rows[i].id == id.value
    ensures var a := Geocoded(chosen, geocoder);
            var o := CreateOutcome(rows, nextId, chosen, id, geocoder, firstSave, secondSave, now);
      && (o.response == RenderNew(UnprocessableEntity, Message(CoordinatesAlert))
          <==> LacksCoordinates(chosen) && !(geocoder(AddressOf(chosen)).Coords? && Valid(a) && !firstSave.Fail?))
      && (o.response == RenderNew(UnprocessableEntity, Message(CoordinatesAlert)) ==>
            o.after == Snapshot(rows, nextId, id))
  {
  }

  /**
   * Past the coordinate step, the final `save` decides: a redirect to the
   * record iff it is valid and written, its errors re-rendered when it is
   * invalid or declined, the database's exception when it raises.
   */
  lemma CreateFinalSave(rows: seq<Record>, nextId: nat, chosen: Attributes, id: Option<nat>,
                        geocoder: Address -> GeocoderReply, firstSave: StorageReply,
                        secondSave: StorageReply, now: int)
    requires TableInvariant(rows, nextId)
    requires id.Some? ==> exists i :: 0 <= i < |rows| && rows[i].id == id.value
    requires !LacksCoordinates(chosen)
             || (geocoder(AddressOf(chosen)).Coords? && Valid(Geocoded(chosen, geocoder)) && !firstSave.Fail?)
    ensures var a := Geocoded(chosen, geocoder);
            var o := CreateOutcome(rows, nextId, chosen, id, geocoder, firstSave, secondSave, now);
      && (o.response.Redirect? <==> Valid(a) && secondSave.Accept?)
      && (!Valid(a) || secondSave.Reject? ==> o.response == RenderNew(UnprocessableEntity, ErrorMessages(Errors(a))))
      && (Valid(a) && secondSave.Fail? ==> o.response == ServerError(StorageError(secondSave.message)))
  {
  }

  /** A redirect goes to the record's own page, and the record is then valid and stored with its attributes. */
  lemma CreateRedirectsToStoredRecord(rows: seq<Record>, nextId: nat, chosen: Attributes, id: Option<nat>,
                                      geocoder: Address -> GeocoderReply, firstSave: StorageReply,
                                      secondSave: StorageReply, now: int)
    requires TableInvariant(rows, nextId)
    requires id.Some? ==> exists i :: 0 <= i < |rows| && rows[i].id == id.value
    ensures var a := Geocoded(chosen, geocoder);
            var o := CreateOutcome(rows, nextId, chosen, id, geocoder, firstSave, secondSave, now);
      o.response.Redirect? ==>
        && o.after.id.Some? && o.response == Redirect(LocationPath(o.after.id.value), None)
        && Valid(a)
        && exists i :: 0 <= i < |o.after.rows| && o.after.rows[i].id == o.after.id.value && o.after.rows[i].attrs == a
  {
  }

  /** A record `find_by_address` found keeps its id and is updated in place: no row is added and no id changes. */
  lemma {:induction false} CreateReusesFoundRecord(rows: seq<Record>, nextId: nat, chosen: Attributes, id: Option<nat>,
                                                   geocoder: Address -> GeocoderReply, firstSave: StorageReply,
                                                   secondSave: StorageReply, now: int)
    requires TableInvariant(rows, nextId)
    requires id.Some? && exists i :: 0 <= i < |rows| && rows[i].id == id.value
    ensures var o := CreateOutcome(rows, nextId, chosen, id, geocoder, firstSave, secondSave, now);
      && o.after.id == id
      && |o.after.rows| == |rows| && o.after.nextId == nextId
      && forall i :: 0 <= i < |rows| ==> o.after.rows[i].id == rows[i].id
  {
    var a := Geocoded(chosen, geocoder);
    var geocoded := LacksCoordinates(chosen) && geocoder(AddressOf(chosen)).Coords?;
    var first := SaveIf(rows, nextId, id, a, geocoded && Valid(a) && firstSave.Accept?, now);
    var second := SaveIf(first.rows, first.nextId, first.id, a, Valid(a) && secondSave.Accept?, now);
    SaveIfUpdatesInPlace(rows, nextId, id, a, geocoded && Valid(a) && firstSave.Accept?, now);
    SaveIfUpdatesInPlace(first.rows, first.nextId, first.id, a, Valid(a) && secondSave.Accept?, now);
    CreateOutcomeCases(rows, nextId, chosen, id, geocoder, firstSave, secondSave, now, a, first, second);
  }

  /** A new record is inserted at most once, under the next id, and the existing rows keep their ids. */
  lemma {:induction false} CreateInsertsNewRecordOnce(rows: seq<Record>, nextId: nat, chosen: Attributes,
                                                      geocoder: Address -> GeocoderReply, firstSave: StorageReply,
                                                      secondSave: StorageReply, now: int)
    requires TableInvariant(rows, nextId)
    ensures var o := CreateOutcome(rows, nextId, chosen, None, geocoder, firstSave, secondSave, now);
      && |o.after.rows| - |rows| == o.after.nextId - nextId <= 1
      && forall i :: 0 <= i < |rows| ==> o.after.rows[i].id == rows[i].id
  {
    var a := Geocoded(chosen, geocoder);
    var geocoded := LacksCoordinates(chosen) && geocoder(AddressOf(chosen)).Coords?;
    var first := SaveIf(rows, nextId, None, a, geocoded && Valid(a) && firstSave.Accept?, now);
    var second := SaveIf(first.rows, first.nextId, first.id, a, Valid(a) && secondSave.Accept?, now);
    SavedTwiceInsertsOnce(rows, nextId, a, geocoded && Valid(a) && firstSave.Accept?, a, Valid(a) && secondSave.Accept?, now);
    CreateOutcomeCases(rows, nextId, chosen, None, geocoder, firstSave, secondSave, now, a, first, second);
  }

  /** The cache key of a location's forecast: `"weather_forecast_#{zip}"`, where `nil` interpolates as "". */
  function CacheKey(zip: Option<string>): (key: string)
    ensures |key| == |CacheKeyPrefix| + |zip.GetOr("")|
    ensures key[..|CacheKeyPrefix|] == CacheKeyPrefix
    ensures key[|CacheKeyPrefix|..] == zip.GetOr("")
  {
    CacheKeyPrefix + zip.GetOr("")
  }

  /** Distinct zips never share a cache entry. */
  lemma CacheKeyInjective(a: string, b: string)
    requires CacheKey(Some(a)) == CacheKey(Some(b))
    ensures a == b
  {
    calc {
      a;
      CacheKey(Some(a))[|CacheKeyPrefix|..];
      CacheKey(Some(b))[|CacheKeyPrefix|..];
      b;
    }
  }

  /**
   * `show`: an unknown id redirects to `new` with "Location not found.". Otherwise
   * a cached forecast for the location's zip is shown with `cached_result`
   * true; on a miss the forecast service is called with the location's
   * latitude, longitude and zip and its answer is shown with `cached_result`
   * false. The cache is only read.
   */
  method Show(rows: seq<Record>, cache: map<string, Forecast>, id: nat,
              getForecast: (Option<real>, Option<real>, Option<string>) -> ForecastReply)
    returns (response: Response)
    ensures FindById(rows, id).None? ==> response == Redirect(NewPath, Some(NotFoundAlert))
    ensures FindById(rows, id).Some? ==>
      var loc := FindById(rows, id).value;
      var key := CacheKey(loc.attrs.zip);
      && (key in cache ==> response == RenderShow(loc, cache[key], true))
      && (key !in cache ==>
            match getForecast(loc.attrs.latitude, loc.attrs.longitude, loc.attrs.zip)
            case Fetched(f) => response == RenderShow(loc, f, false)
            case FetchRaised(e) => response == ServerError(e))
    ensures response.RenderShow? ==> response.location.id == id
  {
    var location := FindById(rows, id);
    if location.None? {
      response := Redirect(NewPath, Some(NotFoundAlert));
      return;
    }
    var loc := location.value;
    var forecast: Option<Forecast>;
    var key := CacheKey(loc.attrs.zip);
    forecast := if key in cache then Some(cache[key]) else None;
    var cachedResult: bool;
    if forecast.Some? {
      cachedResult := true;
    } else {
      var reply := getForecast(loc.attrs.latitude, loc.attrs.longitude, loc.attrs.zip);
      if reply.FetchRaised? {
        response := ServerError(reply.error);
        return;
      }
      forecast := Some(reply.forecast);
      cachedResult := false;
    }
    response := RenderShow(loc, forecast.value, cachedResult);
  }
}
