# Weather-by-address locations, modelled in Dafny

The application lets a user type a street address and see its weather
forecast. This project models the core of that flow:

- The `Location` record (`LocationModel`). It covers the validations on
  street, city, state, zip, latitude and longitude, with the error list
  `valid?` records, and the two class-level queries `find_by_address`
  (upcase the parameters, then the lowest-id row whose four fields equal
  them) and `recent` (the five most recently updated rows).
- The `locations` table, as a class `Table` whose rows are kept in id order
  and whose `nextId` grows with each insert. ActiveRecord's `save` is the
  function `Persist`: a new record is inserted under the next id, and a
  stored one is rewritten, with a new `updated_at`, only when its attributes
  changed. `SaveIf` is a save that may or may not reach the database, and
  `Snapshot` is the table together with the record's id. The contracts of
  the state-changing methods give the new table in these terms.
- The in-memory record, as a class `Location` whose fields the methods
  update in place: `set_coordinates`, `valid?`, `save` and
  `save_with_coordinates`, including every rescue path.
- The geocoding client (`CensusGovService`): the query it sends,
  `get_location_data` picking the first address match, and
  `get_coordinates` reading `x` and `y` from it. The HTTP exchange is an
  abstract function from the query to the parsed body, and any part of
  that body may be missing.
- The controller actions `create` and `show` (`LocationsController`). Each
  returns a `Response`: a render of `new` with an alert and status 422, a
  render of `show`, a redirect with an optional flash alert, or an exception
  escaping the action. `create` is specified by the function
  `CreateOutcome`, which gives its response and the table it leaves, and
  its properties are lemmas about that function.
- The view helper `formatted_address` (`LocationHelper`) and the `titleize`
  it relies on.

Ruby's `nil` is `Option.None`. A raised exception is `Result.Failure` with an
`Error` naming its kind. The geocoder that `set_coordinates` calls is a
parameter: a function from the address to `Coords`, `NoCoords` (`nil`) or
`Raised`. `CensusGeocoder` shows that the census client is such a function,
and one that never answers `nil`. What the database does with each `save` is
a parameter too: it writes the row (`Accept`), declines without raising
(`Reject`) or raises (`Fail`). The clock is the `now` argument of `save`.

Some behaviours of the code are easy to misread, and the model keeps them
as written:

- `get_coordinates` sets latitude to the match's `x` and longitude to its `y`.
  The census API's `x` is the longitude, so every stored record has its
  latitude and longitude exchanged, and the forecast is requested for the
  exchanged point. `GetCoordinatesKeepsAxes` states this for the example
  match x = -73.9925, y = 40.7265.
- `find_by_address` upcases the parameters and compares them exactly with
  the stored columns. No title-casing is applied, and nothing is normalised
  before a new record is saved: `create` builds a new record from the raw
  parameters. A row stored in mixed case is therefore not found by its own
  address (`FindByAddressIsCaseSensitive`).
- The state is only checked for presence and length 2. "n1" passes
  (`StateIsOnlyLengthChecked`).
- The zip check is `only_integer`, so a sign is accepted: "+1234" passes
  (`SignedZipPasses`).
- `save_with_coordinates` answers true whenever `save` returns, even if it
  returns false. Only an exception makes it answer false after validation.
- Geocoding failures are exceptions rescued inside `set_coordinates`, not
  typed results.

## Model

| member | source | states |
|---|---|---|
| Text.Upcase | app/models/location.rb:44 | `upcase` keeps the length, leaves no lower-case letter, changes each character only in case, and keeps every word character a word character |
| Text.UpcaseIdempotent | app/models/location.rb:44 | upcasing an upcased value changes nothing |
| Text.IsBlank | app/models/location.rb:2-7 | `blank?`: the string is empty or made only of white space |
| Text.IsIntegerString | app/models/location.rb:2 | the `only_integer` pattern `\A[+-]?\d+\z`: an optional sign followed by one or more digits, and nothing else |
| Text.Titleize | app/helpers/location_helper.rb:5 | `titleize` keeps the length; what it does to each character is stated by `TitleizeCases` |
| Text.TitleizeCases | app/helpers/location_helper.rb:5 | each character stays the same letter up to case and a word character stays one; a word starts with no lower-case letter, and no capital is left inside a word |
| Text.TitleizeIdempotent | app/helpers/location_helper.rb:5 | title-casing a title-cased string changes nothing |
| Text.TitleizeOfUpcase | app/helpers/location_helper.rb:5 | title-casing ignores the case of the input: `titleize(upcase(s)) == titleize(s)` |
| Text.TitleizeExamples | app/helpers/location_helper.rb:3 | "123 Main St" and "Springfield" are unchanged; "315 BOWERY" becomes "315 Bowery" and "NEW YORK" becomes "New York" |
| CensusGovService.BuildQuery | app/services/census_gov_service.rb:41-48 | the request carries the address's street, city, state and zip unchanged, with benchmark 4 and format "json" |
| CensusGovService.AnyPresent | app/services/census_gov_service.rb:49 | `any?` without a block: some element of the match list is not nil |
| CensusGovService.GetLocationData | app/services/census_gov_service.rb:40-54 | a transport failure propagates; a body without `result` or `addressMatches` raises NoMethodError; otherwise it succeeds exactly when some match is non-nil, and then answers the first element; if no match is non-nil it raises "Error: No Matching Addresses" |
| CensusGovService.GetCoordinates | app/services/census_gov_service.rb:8-11 | failures of the lookup propagate unchanged; it succeeds exactly when the first match and its coordinates exist, and then latitude is `x` and longitude is `y`; a nil match or missing coordinates raise NoMethodError |
| CensusGovService.GetCoordinatesKeepsAxes | app/services/census_gov_service.rb:10 | the match x = -73.9925, y = 40.7265 gives latitude -73.9925 and longitude 40.7265 |
| CensusGovService.NoMatchesFails | app/services/census_gov_service.rb:49-53 | an empty match list raises "Error: No Matching Addresses" from both calls |
| LocationModel.FromParams | app/controllers/locations_controller.rb:7 | `Location.new(location_params)` holds the four given fields unchanged and no coordinates |
| LocationModel.Present | app/models/location.rb:2-7 | `presence: true` passes iff the value is not nil and not blank |
| LocationModel.HasLength | app/models/location.rb:2-6 | `length: { is: n }` passes iff the value has exactly n characters, nil counting as 0 |
| LocationModel.IntegerValued | app/models/location.rb:2 | `numericality: { only_integer: true }` passes iff the value is present and matches the integer pattern |
| LocationModel.Valid | app/models/location.rb:2-7 | a record is valid iff the zip is present, 5 long and an integer, both coordinates are present, city and street are present, and the state is present and 2 long |
| LocationModel.PresenceErrors | app/models/location.rb:2-7 | a `presence` check adds exactly one "blank" error, and does so iff the value is nil or whitespace only |
| LocationModel.LengthErrors | app/models/location.rb:2-6 | a `length: {is: n}` check adds exactly one "wrong length" error, and does so iff the length (0 for nil) is not n |
| LocationModel.ZipErrors | app/models/location.rb:2 | the zip has no error iff it is present, five characters long and matches the signed-integer pattern; all its errors are about the zip; it has a "not a number" error iff the pattern fails |
| LocationModel.CoordinateErrors | app/models/location.rb:3-4 | a missing coordinate gets both the "blank" and the "not a number" error, and a present one gets none |
| LocationModel.Errors | app/models/location.rb:2-7 | `valid?` records no error exactly when every declared validation passes |
| LocationModel.StateIsOnlyLengthChecked | app/models/location.rb:6 | a record with state "n1" is valid |
| LocationModel.SignedZipPasses | app/models/location.rb:2 | the zip "+1234" passes presence, length and integer numericality |
| LocationModel.UpcaseValues | app/models/location.rb:44 | `transform_values(&:upcase)` upcases each given value and leaves absent keys absent |
| LocationModel.HasAddress | app/models/location.rb:46-50 | the `where` condition: a row matches iff its street, city, state and zip all equal the query's, nil matching only nil |
| LocationModel.FirstWithAddress | app/models/location.rb:46-51 | it answers nil iff no row has the address; otherwise it answers a row with the address, and no earlier row has it |
| LocationModel.FirstWithAddressHasLowestId | app/models/location.rb:51 | with rows in id order, `.first` of the match is the matching row with the lowest id |
| LocationModel.FindByAddress | app/models/location.rb:43-52 | it answers nil iff no stored row's four fields equal the upcased parameters; otherwise it answers a stored row that matches and has the lowest id among the matches |
| LocationModel.FindByAddressIsCaseSensitive | app/models/location.rb:44-51 | a row stored as "315 Bowery", "New York" is not found by that address |
| LocationModel.FindByAddressOfNoFields | app/models/location.rb:43-51 | parameters with none of the four fields set find no row when every stored row is valid |
| LocationModel.IndexOfId | app/controllers/locations_controller.rb:26 | the position it answers holds a row with that id, and it answers none only when no row has that id |
| LocationModel.FindById | app/controllers/locations_controller.rb:26 | `find` answers a stored row with that id, and answers none iff no row has it |
| LocationModel.InsertNewestFirst | app/models/location.rb:55 | inserting into a newest-first list keeps it newest first and adds exactly the one row |
| LocationModel.SortNewestFirst | app/models/location.rb:55 | `order(updated_at: :desc)` answers the same rows, as a multiset, newest first |
| LocationModel.PrefixIsNewest | app/models/location.rb:55 | cutting the newest-first rows at k splits them into a newest-first prefix of length k and a rest, where no row in the rest is newer than a kept row |
| LocationModel.Recent | app/models/location.rb:54-56 | `recent` answers min(5, row count) rows, newest first; together with some rest they make up exactly the table, and no row in that rest was updated later than a returned row |
| LocationModel.Persist | app/models/location.rb:31 | saving a new record appends it under the next id, stamped `now`, and advances the id; saving a stored one keeps every id and every other row and gives the row the new attributes, with `updated_at` set to `now` when they changed and the row untouched when they did not |
| LocationModel.PersistKeepsInvariant | app/models/location.rb:31 | a save keeps ids ascending and below the next id, and afterwards the saved id is stored with the saved attributes |
| LocationModel.SaveIf | app/models/location.rb:31 | a save that may or may not be written keeps the table's invariant and a stored id stored; when it is written, the record's id is stored with the saved attributes |
| LocationModel.SaveIfUpdatesInPlace | app/models/location.rb:31 | saving a record that is already stored, written or not, keeps its id, the row count, the next id and every row's id |
| LocationModel.SavedTwiceInsertsOnce | app/models/location.rb:31 | saving a new record twice in a row adds at most one row, advancing the next id by the rows added, keeps every earlier row's id, and leaves the record with an id iff one of the saves was written |
| LocationModel.CensusGeocoder | app/models/location.rb:10 | the geocoder `set_coordinates` calls is `get_coordinates`: its hash on success, the exception it raises on failure |
| LocationModel.CensusGeocoderNeverNil | app/models/location.rb:10-12 | as the geocoder of `set_coordinates`, the census client never answers nil; it gives coordinates iff `get_coordinates` succeeds |
| LocationModel.Location.New | app/controllers/locations_controller.rb:7 | a new record holds the raw parameters, with no id, no coordinates and no errors |
| LocationModel.Location.Load | app/controllers/locations_controller.rb:7 | a found record holds the stored row's id and attributes |
| LocationModel.Location.CheckValid | app/models/location.rb:30 | `valid?` replaces `errors` with the validation errors, and answers true iff the record is valid |
| LocationModel.Location.SetCoordinates | app/models/location.rb:9-25 | the answer is true iff the geocoder returns a hash, and then latitude and longitude are the hash's values; when the geocoder returns nil or raises, the coordinates are unchanged |
| LocationModel.Location.Save | app/models/location.rb:31 | `save` validates first; an invalid record is not written and answers false; for a valid one the answer follows the database: written (with the table as `Persist` says), declined, or raised; the new table and id are `SaveIf` of the old ones, written iff the answer is true; after a successful save the record is stored, valid, under its id |
| LocationModel.Location.WriteRow | app/models/location.rb:31 | an accepted write applies `Persist` to the table, keeps an existing id, and leaves the record stored with its attributes |
| LocationModel.Location.SaveWithCoordinates | app/models/location.rb:27-41 | if geocoding fails, it answers false and nothing changes, neither the table, the coordinates nor the errors; otherwise the coordinates are set and errors recorded, and the answer is true iff the record is valid and `save` does not raise; the new table and id are `SaveIf` of the old ones, written iff geocoding succeeded, the record is valid and the database accepts |
| LocationsController.Chosen | app/controllers/locations_controller.rb:7 | the record `create` works on is the one `find_by_address` finds, or else one built from the parameters |
| LocationsController.ChosenId | app/controllers/locations_controller.rb:7 | the chosen record has an id iff `find_by_address` finds a row, and that id is stored with the chosen attributes |
| LocationsController.LacksCoordinates | app/controllers/locations_controller.rb:9 | `unless @location.latitude && @location.longitude`: the coordinate step runs iff a coordinate is nil |
| LocationsController.FindOrBuild | app/controllers/locations_controller.rb:7 | the new object holds the chosen attributes and no errors; its id is the found row's, or none for a new record |
| LocationsController.Geocoded | app/controllers/locations_controller.rb:9-10 | the address is never changed; a record with both coordinates, or whose geocoder gives none, keeps its attributes; otherwise latitude and longitude are the geocoder's |
| LocationsController.CoordinateStep | app/controllers/locations_controller.rb:9-15 | the record's attributes become `Geocoded` of the old ones; a record with both coordinates is left alone and `create` goes on; otherwise `create` goes on iff geocoding succeeded, the record is valid and the first save did not raise; the new table and id are `SaveIf` of the old ones, written iff geocoding succeeded, the record is valid and the database accepted; when `create` stops, the table is unchanged |
| LocationsController.FinalSave | app/controllers/locations_controller.rb:17-22 | the second `save` redirects to the record's path iff the record is valid and the database accepts, re-renders `new` with 422 and the errors when it is invalid or declined, and lets the exception escape when the database raises; the new table and id are `SaveIf` of the old ones, written iff it redirects |
| LocationsController.CreateOutcome | app/controllers/locations_controller.rb:6-23 | the reference definition of `create`: geocode the chosen record if a coordinate is missing and save it; if that fails, render the coordinates alert with the table as left by that step; otherwise save again and redirect, re-render with the errors, or let the exception escape, with the table as left by both saves; the table's invariant is kept |
| LocationsController.Create | app/controllers/locations_controller.rb:6-23 | the response and the final table and record id are `CreateOutcome` of the starting table, the record `find_by_address || new` chooses and its id; the object's attributes are the chosen ones after `Geocoded` |
| LocationsController.CreateKeepsKnownCoordinates | app/controllers/locations_controller.rb:9 | a chosen record that already has both coordinates is not geocoded again |
| LocationsController.CreateAlertWritesNothing | app/controllers/locations_controller.rb:9-14 | `create` renders the coordinates alert iff a coordinate is missing and geocoding fails, the record is invalid or the first save raises; and then the table and the record's id are exactly as before |
| LocationsController.CreateFinalSave | app/controllers/locations_controller.rb:17-22 | past the coordinate step, `create` redirects iff the record is valid and the database accepts, re-renders `new` with 422 and the errors when it is invalid or declined, and lets the database exception escape |
| LocationsController.CreateRedirectsToStoredRecord | app/controllers/locations_controller.rb:17-18 | a redirect goes to the path of the record's id, the record is valid, and the table stores that id with the record's attributes |
| LocationsController.CreateReusesFoundRecord | app/controllers/locations_controller.rb:7-17 | when `find_by_address` finds a row, `create` never inserts: the row count, the next id and every row's id are kept, and the record keeps its id |
| LocationsController.CreateInsertsNewRecordOnce | app/controllers/locations_controller.rb:7-17 | a new record is inserted at most once although it may be saved twice; the row count grows by what the next id advances, and every earlier row keeps its id |
| LocationsController.CacheKey | app/controllers/locations_controller.rb:28 | the key is "weather_forecast_" followed by the zip (empty for nil) |
| LocationsController.CacheKeyInjective | app/controllers/locations_controller.rb:28 | two zips share a cache key only if they are equal |
| LocationsController.Show | app/controllers/locations_controller.rb:25-43 | an unknown id redirects to `new` with "Location not found."; a cached forecast is shown with `cached_result` true; on a miss the forecast service is called with latitude, longitude and zip, and its forecast is shown with `cached_result` false or its exception escapes; the shown location is the requested one |
| LocationHelper.FormattedAddress | app/helpers/location_helper.rb:4-6 | a nil street or city raises NoMethodError; otherwise the string is the title-cased street, ", ", the title-cased city, ", ", the state verbatim, a space and the zip verbatim, with nil state and zip printing as "" |
| LocationHelper.FormattedAddressExample | app/helpers/location_helper.rb:3 | the documented example renders as "123 Main St, Springfield, IL 62704" |
| LocationHelper.FormattedAddressOfUpcasedRecord | app/helpers/location_helper.rb:5 | a record stored as "315 BOWERY", "NEW YORK", "NY", "10003" displays as "315 Bowery, New York, NY 10003" |
| LocationHelper.FormattedAddressIgnoresCase | app/helpers/location_helper.rb:5 | upcasing the street and city does not change the displayed address |

## Left out

- HTTP, JSON parsing and HTTParty: the census request is an abstract function from the query to the parsed body or a transport failure. HTTP status codes are not inspected, because the code does not inspect them either.
- `app/services/national_weather_service.rb` is not part of this model. The forecast service is an abstract function of the three arguments the call site passes. The service's own `get_forecast` takes two parameters, so the three-argument call would raise `ArgumentError`; the model can express that as `FetchRaised` for every input.
- Logging (`Rails.logger`) has no observable effect on the results and is omitted.
- LocationModel.Errors: errors are validation kinds per field, not the English `full_messages`. The "must be an integer" message of `only_integer` is merged into "not a number".
- LocationsController.Create: the alert after a failed save carries the error list, not `to_sentence` of its messages.
- Character handling is ASCII only. `upcase` and `titleize` change only ASCII letters, and `blank?` treats only ASCII white space as blank.
- Text.Titleize: this is Rails' word capitalisation only. The `underscore` step that Rails runs first, which splits words at changes of case (as in "McDonald") and turns "-" into "_", is not modelled, nor are `humanize`, a trailing `_id` and apostrophes.
- Text.TitleizeOfUpcase, LocationHelper.FormattedAddressIgnoresCase: these hold for the modelled word capitalisation only. Rails' `underscore` step makes the real `titleize` depend on the input's case: "5TH AVE" becomes "5 Th Ave" while "5th Ave" stays "5th Ave", "McDonald St" becomes "Mc Donald St", and a hyphen becomes a space.
- LocationModel.FindByAddressIsCaseSensitive: the database comparison is taken to be case-sensitive, as `=` is in PostgreSQL and SQLite. Under a case-insensitive collation, such as MySQL's default, the row would be found. The test at spec/models/location_spec.rb:56-58 differs from the model for a second reason as well: it passes a hash with string keys (line 54), so `normalized_params[:street]` and the other three lookups by symbol read nil. The query is then `Address(None, None, None, None)`, which finds no valid row under any collation (`FindByAddressOfNoFields`).
- Latitude and longitude are float columns, modelled as `Option<real>`. A value that is present is therefore numeric, and floating-point rounding is not modelled.
- LocationModel.UpcaseValues: a permitted parameter whose value is JSON `null` would make `upcase` raise. The model's parameters are absent or strings.
- `location_params`' rescue of a missing `location` key (its flash alert and redirect) is not modelled. `create` is modelled with the permitted parameters in hand.
- The `new` action only builds an empty record and is left out.
- LocationsController.Show: `find` raising `RecordNotFound` and the `if @location` test are modelled together as "not found". Its else-branch cannot be reached, and both paths give the same redirect. A cached value of `nil` or `false` counts as a miss, which the model does not distinguish from an absent key. Nothing is written to the cache, because the action calls `fetch` without a block.
- LocationModel.Recent: ties in `updated_at` may come back in any order, and the model fixes one order.
- LocationModel.Persist: dirty tracking compares the record with the stored row, not with the attribute values as loaded. Callbacks, timestamps other than `updated_at`, and database constraints are not modelled.
- Concurrent requests and races between the lookup and the insert are not modelled. Each action runs alone against the table.
