/**
 * The `Location` record: its validations, the two class-level queries
 * (`find_by_address`, `recent`), the table it is stored in, and the in-memory
 * object whose `set_coordinates` and `save_with_coordinates` update it.
 */
module LocationModel {
  import opened Wrappers
  import opened Text
  import opened Addresses
  import CensusGovService

  // ---------------------------------------------------------------------------
  // Attributes and validations
  // ---------------------------------------------------------------------------

  /**
   * The columns of a `locations` row other than the id and the timestamps.
   * Latitude and longitude are float columns, so they hold a number or `nil`.
   */
  datatype Attributes = Attributes(street: Option<string>, city: Option<string>, state: Option<string>,
                                   zip: Option<string>, latitude: Option<real>, longitude: Option<real>)

  function AddressOf(a: Attributes): Address {
    Address(a.street, a.city, a.state, a.zip)
  }

  /** `Location.new(params)`: the permitted fields as given, no coordinates. */
  function FromParams(p: Address): (a: Attributes)
    ensures AddressOf(a) == p
    ensures a.latitude.None? && a.longitude.None?
  {
    Attributes(p.street, p.city, p.state, p.zip, None, None)
  }

  /** `presence: true`: not `nil` and not blank. */
  predicate Present(v: Option<string>) {
    v.Some? && !IsBlank(v.value)
  }

  /** `length: { is: n }`: `nil` counts as length 0. */
  predicate HasLength(v: Option<string>, n: nat) {
    |v.GetOr("")| == n
  }

  /** `numericality: { only_integer: true }` on a string column. */
  predicate IntegerValued(v: Option<string>) {
    v.Some? && IsIntegerString(v.value)
  }

  /** Every validation declared on `Location` passes. */
  predicate Valid(a: Attributes) {
    && Present(a.zip) && HasLength(a.zip, 5) && IntegerValued(a.zip)
    && a.latitude.Some?
    && a.longitude.Some?
    && Present(a.city)
    && Present(a.state) && HasLength(a.state, 2)
    && Present(a.street)
  }

  datatype Field = Zip | Latitude | Longitude | City | State | Street

  /** One entry of `errors`: the field and the validation it failed. */
  datatype Violation = Blank(field: Field) | WrongLength(field: Field, expected: nat) | NotANumber(field: Field)

  /** The errors of a `presence: true` validation on `f`. */
  function PresenceErrors(f: Field, v: Option<string>): (e: seq<Violation>)
    ensures e == [] <==> Present(v)
    ensures forall x :: x in e <==> x == Blank(f) && !Present(v)
  {
    if Present(v) then [] else [Blank(f)]
  }

  /** The errors of a `length: { is: n }` validation on `f`. */
  function LengthErrors(f: Field, v: Option<string>, n: nat): (e: seq<Violation>)
    ensures e == [] <==> HasLength(v, n)
    ensures forall x :: x in e <==> x == WrongLength(f, n) && !HasLength(v, n)
  {
    if HasLength(v, n) then [] else [WrongLength(f, n)]
  }

  /** The errors of `zip`: presence, length 5, integer numericality. */
  function ZipErrors(v: Option<string>): (e: seq<Violation>)
    ensures e == [] <==> Present(v) && HasLength(v, 5) && IntegerValued(v)
    ensures forall x :: x in e ==> x.field == Zip
    ensures NotANumber(Zip) in e <==> !IntegerValued(v)
  {
    PresenceErrors(Zip, v) + LengthErrors(Zip, v, 5) + (if IntegerValued(v) then [] else [NotANumber(Zip)])
  }

  /** The errors of a coordinate: a missing one fails both presence and numericality. */
  function CoordinateErrors(f: Field, v: Option<real>): (e: seq<Violation>)
    ensures e == [] <==> v.Some?
    ensures forall x :: x in e <==> v.None? && (x == Blank(f) || x == NotANumber(f))
  {
    if v.Some? then [] else [Blank(f), NotANumber(f)]
  }

  /**
   * The errors `valid?` records, in the order the validations are declared:
   * none exactly when every validation passes.
   */
  function Errors(a: Attributes): (errs: seq<Violation>)
    ensures errs == [] <==> Valid(a)
  {
    ZipErrors(a.zip)
    + CoordinateErrors(Latitude, a.latitude)
    + CoordinateErrors(Longitude, a.longitude)
    + PresenceErrors(City, a.city)
    + PresenceErrors(State, a.state) + LengthErrors(State, a.state, 2)
    + PresenceErrors(Street, a.street)
  }

  /** The state is only length-checked: a lower-case, non-alphabetic code such as "n1" passes. */
  lemma StateIsOnlyLengthChecked()
    ensures Valid(Attributes(Some("315 Bowery"), Some("New York"), Some("n1"), Some("10003"), Some(40.7265), Some(-73.9925)))
  {
    assert AllDigits("10003") by { assert forall i :: 0 <= i < 5 ==> "10003"[i] in "0123456789"; }
    assert !IsBlank("n1") by { assert !IsSpace("n1"[0]); }
    assert !IsBlank("10003") by { assert !IsSpace("10003"[0]); }
    assert !IsBlank("New York") by { assert !IsSpace("New York"[0]); }
    assert !IsBlank("315 Bowery") by { assert !IsSpace("315 Bowery"[0]); }
  }

  /** The zip check is the `only_integer` pattern, so a signed four-digit zip such as "+1234" passes. */
  lemma SignedZipPasses()
    ensures Present(Some("+1234")) && HasLength(Some("+1234"), 5) && IntegerValued(Some("+1234"))
  {
    assert "+1234"[1..] == "1234";
    assert AllDigits("1234") by { assert forall i :: 0 <= i < 4 ==> "1234"[i] in "0123456789"; }
    assert !IsBlank("+1234") by { assert !IsSpace("+1234"[0]); }
  }

  // ---------------------------------------------------------------------------
  // Stored rows and the class-level queries
  // ---------------------------------------------------------------------------

  /** A row of the `locations` table. */
  datatype Record = Record(id: nat, attrs: Attributes, updatedAt: int)

  /** Rows are kept in primary-key order, which is the order `.first` uses. */
  predicate IdsAscending(rows: seq<Record>) {
    forall i, j :: 0 <= i < j < |rows| ==> rows[i].id < rows[j].id
  }

  /** `params.transform_values(&:upcase)`: every given value upcased, absent keys stay absent. */
  function UpcaseValues(p: Address): (q: Address)
    ensures q.street.Some? == p.street.Some? && q.city.Some? == p.city.Some?
    ensures q.state.Some? == p.state.Some? && q.zip.Some? == p.zip.Some?
    ensures p.street.Some? ==> q.street.value == Upcase(p.street.value)
    ensures p.city.Some? ==> q.city.value == Upcase(p.city.value)
    ensures p.state.Some? ==> q.state.value == Upcase(p.state.value)
    ensures p.zip.Some? ==> q.zip.value == Upcase(p.zip.value)
  {
    Address(UpcaseOpt(p.street), UpcaseOpt(p.city), UpcaseOpt(p.state), UpcaseOpt(p.zip))
  }

  function UpcaseOpt(v: Option<string>): Option<string> {
    if v.Some? then Some(Upcase(v.value)) else None
  }

  /** The `where(street:, city:, state:, zip:)` condition: exact equality on the four columns, `nil` matching `NULL`. */
  predicate HasAddress(r: Record, q: Address) {
    AddressOf(r.attrs) == q
  }

  /** The first row of `rows` whose address is exactly `q`. */
  function FirstWithAddress(rows: seq<Record>, q: Address): (r: Option<Record>)
    ensures r.None? <==> forall i :: 0 <= i < |rows| ==> !HasAddress(rows[i], q)
    ensures r.Some? ==> exists k :: 0 <= k < |rows| && rows[k] == r.value && HasAddress(rows[k], q)
                          && forall i :: 0 <= i < k ==> !HasAddress(rows[i], q)
    decreases |rows|
  {
    if rows == [] then None
    else if HasAddress(rows[0], q) then Some(rows[0])
    else
      var r := FirstWithAddress(rows[1..], q);
      assert r.Some? ==> exists k :: 1 <= k < |rows| && rows[k] == r.value && HasAddress(rows[k], q)
                           && forall i :: 0 <= i < k ==> !HasAddress(rows[i], q) by {
        if r.Some? {
          var k :| 0 <= k < |rows[1..]| && rows[1..][k] == r.value && HasAddress(rows[1..][k], q)
                   && forall i :: 0 <= i < k ==> !HasAddress(rows[1..][i], q);
          assert forall i :: 1 <= i < k + 1 ==> rows[i] == rows[1..][i - 1];
        }
      }
      r
  }

  /**
   * `Location.find_by_address(params)`: the stored row with the lowest id whose
   * street, city, state and zip equal the upcased parameters exactly, or `nil`.
   * The comparison is case-sensitive: rows are not upcased.
   */
  function FindByAddress(rows: seq<Record>, p: Address): (r: Option<Record>)
    requires IdsAscending(rows)
    ensures r.None? <==> forall i :: 0 <= i < |rows| ==> !HasAddress(rows[i], UpcaseValues(p))
    ensures r.Some? ==> r.value in rows && HasAddress(r.value, UpcaseValues(p))
    ensures r.Some? ==> forall i :: 0 <= i < |rows| && HasAddress(rows[i], UpcaseValues(p)) ==> r.value.id <= rows[i].id
  {
    FirstWithAddressHasLowestId(rows, UpcaseValues(p));
    FirstWithAddress(rows, UpcaseValues(p))
  }

  /** In id order, the first match is the one with the lowest id. */
  lemma FirstWithAddressHasLowestId(rows: seq<Record>, q: Address)
    requires IdsAscending(rows)
    ensures var r := FirstWithAddress(rows, q);
            r.Some? ==> forall i :: 0 <= i < |rows| && HasAddress(rows[i], q) ==> r.value.id <= rows[i].id
  {
    var r := FirstWithAddress(rows, q);
    if r.Some? {
      var k :| 0 <= k < |rows| && rows[k] == r.value && HasAddress(rows[k], q)
               && forall i :: 0 <= i < k ==> !HasAddress(rows[i], q);
      assert forall i :: 0 <= i < |rows| && HasAddress(rows[i], q) ==> k <= i;
    }
  }

  /** Parameters that name none of the four fields find no row that has a street, as every valid row has. */
  lemma FindByAddressOfNoFields(rows: seq<Record>)
    requires IdsAscending(rows)
    requires forall i :: 0 <= i < |rows| ==> Valid(rows[i].attrs)
    ensures FindByAddress(rows, Address(None, None, None, None)).None?
  {
    forall i | 0 <= i < |rows| ensures !HasAddress(rows[i], UpcaseValues(Address(None, None, None, None))) {
      assert rows[i].attrs.street.Some?;
    }
  }

  /** A row stored in title case is not found by its upcased spelling. */
  lemma FindByAddressIsCaseSensitive()
    ensures var row := Record(1, Attributes(Some("315 Bowery"), Some("New York"), Some("NY"), Some("10003"), Some(40.0), Some(-100.0)), 0);
            FindByAddress([row], Address(Some("315 BOWERY"), Some("NEW YORK"), Some("NY"), Some("10003"))).None?
  {
    var row := Record(1, Attributes(Some("315 Bowery"), Some("New York"), Some("NY"), Some("10003"), Some(40.0), Some(-100.0)), 0);
    var q := UpcaseValues(Address(Some("315 BOWERY"), Some("NEW YORK"), Some("NY"), Some("10003")));
    assert q.street.value[5] == 'O';
    assert row.attrs.street.value[5] == 'o';
    assert !HasAddress([row][0], q);
  }

  /** The position of the first row with that id. */
  function IndexOfId(rows: seq<Record>, id: nat): (r: Option<nat>)
    ensures r.Some? ==> r.value < |rows| && rows[r.value].id == id
    ensures r.None? ==> forall i :: 0 <= i < |rows| ==> rows[i].id != id
    decreases |rows|
  {
    if rows == [] then None
    else if rows[0].id == id then Some(0)
    else
      var r := IndexOfId(rows[1..], id);
      if r.Some? then Some(r.value + 1) else None
  }

  /** `Location.find(id)`: the row with that id, or `nil` where Rails raises `RecordNotFound`. */
  function FindById(rows: seq<Record>, id: nat): (r: Option<Record>)
    ensures r.None? <==> forall i :: 0 <= i < |rows| ==> rows[i].id != id
    ensures r.Some? ==> r.value in rows && r.value.id == id
  {
    var k := IndexOfId(rows, id);
    if k.Some? then Some(rows[k.value]) else None
  }

  const RecentLimit: nat := 5

  /** Ordered by `updated_at`, newest first. */
  predicate NewestFirst(s: seq<Record>) {
    forall i, j :: 0 <= i < j < |s| ==> s[i].updatedAt >= s[j].updatedAt
  }

  /** Putting a row no older than the head in front keeps the order. */
  lemma ConsNewestFirst(x: Record, t: seq<Record>)
    requires NewestFirst(t) && (|t| > 0 ==> x.updatedAt >= t[0].updatedAt)
    ensures NewestFirst([x] + t)
  {
    var u := [x] + t;
    forall i, j | 0 <= i < j < |u| ensures u[i].updatedAt >= u[j].updatedAt {
      if i == 0 && j > 1 {
        assert t[0].updatedAt >= t[j - 1].updatedAt;
      }
    }
  }

  function InsertNewestFirst(r: Record, s: seq<Record>): (t: seq<Record>)
    requires NewestFirst(s)
    ensures NewestFirst(t)
    ensures multiset(t) == multiset(s) + multiset{r}
    ensures |t| == |s| + 1
    ensures t[0] == r || (|s| > 0 && t[0] == s[0])
    decreases |s|
  {
    if s == [] || s[0].updatedAt <= r.updatedAt then
      ConsNewestFirst(r, s);
      [r] + s
    else
      assert NewestFirst(s[1..]) by {
        forall i, j | 0 <= i < j < |s| - 1 ensures s[1..][i].updatedAt >= s[1..][j].updatedAt {
          assert s[1..][i] == s[i + 1] && s[1..][j] == s[j + 1];
        }
      }
      var tail := InsertNewestFirst(r, s[1..]);
      assert s == [s[0]] + s[1..];
      ConsNewestFirst(s[0], tail);
      assert multiset([s[0]] + tail) == multiset{s[0]} + multiset(tail);
      [s[0]] + tail
  }

  /** `order(updated_at: :desc)`: the rows rearranged newest first. */
  function SortNewestFirst(s: seq<Record>): (t: seq<Record>)
    ensures NewestFirst(t)
    ensures multiset(t) == multiset(s)
    ensures |t| == |s|
    decreases |s|
  {
    if s == [] then []
    else
      assert s == [s[0]] + s[1..];
      InsertNewestFirst(s[0], SortNewestFirst(s[1..]))
  }

  /** A prefix of a newest-first arrangement is newest first. */
  lemma PrefixNewestFirst(s: seq<Record>, k: nat)
    requires NewestFirst(s) && k <= |s|
    ensures NewestFirst(s[..k])
  {
    var p := s[..k];
    forall i, j | 0 <= i < j < |p| ensures p[i].updatedAt >= p[j].updatedAt {
      assert p[i] == s[i] && p[j] == s[j];
    }
  }

  /** In a newest-first arrangement nothing after position `k` is newer than anything before it. */
  lemma SuffixNotNewer(s: seq<Record>, k: nat)
    requires NewestFirst(s) && k <= |s|
    ensures forall x, y :: x in s[k..] && y in s[..k] ==> x.updatedAt <= y.updatedAt
  {
    forall x, y | x in s[k..] && y in s[..k] ensures x.updatedAt <= y.updatedAt {
      var i :| 0 <= i < |s| - k && s[k..][i] == x;
      var j :| 0 <= j < k && s[..k][j] == y;
      assert s[k + i] == x && s[j] == y;
    }
  }

  /**
   * Cutting a newest-first arrangement of `rows` at `k` splits `rows` into the
   * kept prefix and a left-out suffix with nothing newer than the kept part.
   */
  lemma {:induction false} PrefixIsNewest(rows: seq<Record>, s: seq<Record>, k: nat)
    requires NewestFirst(s) && multiset(s) == multiset(rows) && k <= |s|
    ensures |s[..k]| == k && NewestFirst(s[..k])
    ensures multiset(s[..k]) + multiset(s[k..]) == multiset(rows)
    ensures forall x, y :: x in s[k..] && y in s[..k] ==> x.updatedAt <= y.updatedAt
  {
    PrefixNewestFirst(s, k);
    SuffixNotNewer(s, k);
    assert s == s[..k] + s[k..];
  }

  /**
   * `Location.recent`: at most five rows, newest first, taken from `rows`; the
   * rows left out are none of them more recently updated than one returned.
   */
  function Recent(rows: seq<Record>): (r: seq<Record>)
    ensures |r| == if |rows| < RecentLimit then |rows| else RecentLimit
    ensures NewestFirst(r)
    ensures exists rest: seq<Record> :: multiset(r) + multiset(rest) == multiset(rows)
                           && forall x, y :: x in rest && y in r ==> x.updatedAt <= y.updatedAt
  {
    var sorted := SortNewestFirst(rows);
    var k := if |rows| < RecentLimit then |rows| else RecentLimit;
    PrefixIsNewest(rows, sorted, k);
    var rest := sorted[k..];
    assert multiset(sorted[..k]) + multiset(rest) == multiset(rows);
    sorted[..k]
  }

  // ---------------------------------------------------------------------------
  // Persistence
  // ---------------------------------------------------------------------------

  /** What one `save` does to the table: its rows, the next id and the saved record's id. */
  datatype Stored = Stored(rows: seq<Record>, nextId: nat, id: nat)

  /**
   * The write of a successful `save` at time `now`: a new record is inserted
   * under the next id; a persisted one is rewritten, with a new `updated_at`,
   * only if its attributes changed.
   */
  function Persist(rows: seq<Record>, nextId: nat, id: Option<nat>, a: Attributes, now: int): (s: Stored)
    requires IdsAscending(rows)
    ensures id.None? ==> s == Stored(rows + [Record(nextId, a, now)], nextId + 1, nextId)
    ensures id.Some? ==> s.nextId == nextId && s.id == id.value && |s.rows| == |rows|
    ensures id.Some? ==> forall i :: 0 <= i < |rows| ==> s.rows[i].id == rows[i].id
    ensures id.Some? ==> forall i :: 0 <= i < |rows| && rows[i].id != id.value ==> s.rows[i] == rows[i]
    ensures id.Some? ==> forall i :: 0 <= i < |rows| && rows[i].id == id.value ==> s.rows[i].attrs == a
    ensures id.Some? ==> forall i :: 0 <= i < |rows| && rows[i].attrs == a ==> s.rows[i] == rows[i]
    ensures id.Some? ==> forall i :: 0 <= i < |rows| && rows[i].id == id.value && rows[i].attrs != a ==> s.rows[i].updatedAt == now
  {
    if id.None? then Stored(rows + [Record(nextId, a, now)], nextId + 1, nextId)
    else
      var k := IndexOfId(rows, id.value);
      if k.None? || rows[k.value].attrs == a then Stored(rows, nextId, id.value)
      else Stored(rows[k.value := Record(id.value, a, now)], nextId, id.value)
  }

  /** The table's invariant: ids ascending and all below the next id to hand out. */
  predicate TableInvariant(rows: seq<Record>, nextId: nat) {
    IdsAscending(rows) && forall i :: 0 <= i < |rows| ==> rows[i].id < nextId
  }

  /** A save keeps the table's invariant, and afterwards the saved record is stored with its attributes. */
  lemma {:induction false} PersistKeepsInvariant(rows: seq<Record>, nextId: nat, id: Option<nat>, a: Attributes, now: int)
    requires TableInvariant(rows, nextId)
    requires id.Some? ==> exists i :: 0 <= i < |rows| && rows[i].id == id.value
    ensures var s := Persist(rows, nextId, id, a, now);
            TableInvariant(s.rows, s.nextId)
            && exists i :: 0 <= i < |s.rows| && s.rows[i].id == s.id && s.rows[i].attrs == a
  {
    var s := Persist(rows, nextId, id, a, now);
    if id.None? {
      assert s.rows[|rows|] == Record(nextId, a, now);
    } else {
      var i :| 0 <= i < |rows| && rows[i].id == id.value;
      assert s.rows[i].id == s.id && s.rows[i].attrs == a;
    }
  }

  /** The table, and the id of the record just saved or `nil`, after a `save`. */
  datatype Snapshot = Snapshot(rows: seq<Record>, nextId: nat, id: Option<nat>)

  /** A `save` of `a` that reaches the database exactly when `write` holds: `Persist` then, nothing otherwise. */
  function SaveIf(rows: seq<Record>, nextId: nat, id: Option<nat>, a: Attributes, write: bool, now: int): (s: Snapshot)
    requires TableInvariant(rows, nextId)
    requires id.Some? ==> exists i :: 0 <= i < |rows| && rows[i].id == id.value
    ensures TableInvariant(s.rows, s.nextId)
    ensures s.id.Some? ==> exists i :: 0 <= i < |s.rows| && s.rows[i].id == s.id.value
    ensures write ==> s.id.Some? && exists i :: 0 <= i < |s.rows| && s.rows[i].id == s.id.value && s.rows[i].attrs == a
  {
    if write then
      PersistKeepsInvariant(rows, nextId, id, a, now);
      var p := Persist(rows, nextId, id, a, now);
      Snapshot(p.rows, p.nextId, Some(p.id))
    else Snapshot(rows, nextId, id)
  }

  /** Saving a record that is already stored never inserts: its id, every row's id and the next id stay. */
  lemma SaveIfUpdatesInPlace(rows: seq<Record>, nextId: nat, id: Option<nat>, a: Attributes, write: bool, now: int)
    requires TableInvariant(rows, nextId)
    requires id.Some? && exists i :: 0 <= i < |rows| && rows[i].id == id.value
    ensures var s := SaveIf(rows, nextId, id, a, write, now);
            && s.id == id && |s.rows| == |rows| && s.nextId == nextId
            && forall i :: 0 <= i < |rows| ==> s.rows[i].id == rows[i].id
  {
  }

  /**
   * Two saves of a new record, such as `save_with_coordinates` followed by
   * `save`, insert it at most once: the row count and the next id grow
   * together by at most one, the existing rows keep their ids, and the record
   * has an id exactly when one of the saves was written.
   */
  lemma {:induction false} SavedTwiceInsertsOnce(rows: seq<Record>, nextId: nat, a1: Attributes, w1: bool,
                                                 a2: Attributes, w2: bool, now: int)
    requires TableInvariant(rows, nextId)
    ensures var s1 := SaveIf(rows, nextId, None, a1, w1, now);
            var s2 := SaveIf(s1.rows, s1.nextId, s1.id, a2, w2, now);
            && |s2.rows| - |rows| == s2.nextId - nextId <= 1
            && (forall i :: 0 <= i < |rows| ==> s2.rows[i].id == rows[i].id)
            && (s2.id.Some? <==> w1 || w2)
  {
    var s1 := SaveIf(rows, nextId, None, a1, w1, now);
    if w1 {
      SaveIfUpdatesInPlace(s1.rows, s1.nextId, s1.id, a2, w2, now);
    }
  }

  /** The table: rows in id order and the id the next insert receives. */
  class Table {
    var rows: seq<Record>
    var nextId: nat

    ghost predicate Valid()
      reads this
    {
      TableInvariant(rows, nextId)
    }
  }

  // ---------------------------------------------------------------------------
  // The in-memory record
  // ---------------------------------------------------------------------------

  /** What the geocoder call inside `set_coordinates` produces: a coordinate hash, `nil`, or an exception. */
  datatype GeocoderReply = Coords(coords: CensusGovService.CoordinateHash) | NoCoords | Raised(error: Error)

  /** The census client seen as that geocoder. */
  function CensusGeocoder(get: CensusGovService.Query -> CensusGovService.HttpReply): Address -> GeocoderReply {
    a => match CensusGovService.GetCoordinates(a, get)
         case Success(h) => Coords(h)
         case Failure(e) => Raised(e)
  }

  /** The census client never returns `nil`: it yields coordinates exactly when `get_coordinates` succeeds. */
  lemma CensusGeocoderNeverNil(get: CensusGovService.Query -> CensusGovService.HttpReply, a: Address)
    ensures CensusGeocoder(get)(a) != NoCoords
    ensures CensusGeocoder(get)(a).Coords? <==> CensusGovService.GetCoordinates(a, get).Success?
  {
  }

  /** How the database answers one `save` of a valid record. */
  datatype StorageReply =
    | Accept        // the row is written
    | Reject        // a callback aborts: `save` returns false without raising
    | Fail(message: string) // the database raises

  datatype SaveResult = Saved | NotSaved | SaveRaised(error: Error)

  class Location {
    var id: Option<nat>
    var street: Option<string>
    var city: Option<string>
    var state: Option<string>
    var zip: Option<string>
    var latitude: Option<real>
    var longitude: Option<real>
    var errors: seq<Violation>

    /** `Location.new(params)`: an unsaved record holding the raw parameters. */
    constructor New(p: Address)
      ensures Attrs() == FromParams(p) && id.None? && errors == []
    {
      id := None;
      street, city, state, zip := p.street, p.city, p.state, p.zip;
      latitude, longitude := None, None;
      errors := [];
    }

    /** A record loaded from a stored row. */
    constructor Load(r: Record)
      ensures Attrs() == r.attrs && id == Some(r.id) && errors == []
    {
      id := Some(r.id);
      street, city, state, zip := r.attrs.street, r.attrs.city, r.attrs.state, r.attrs.zip;
      latitude, longitude := r.attrs.latitude, r.attrs.longitude;
      errors := [];
    }

    function Attrs(): Attributes
      reads this
    {
      Attributes(street, city, state, zip, latitude, longitude)
    }

    function AddressFields(): Address
      reads this
    {
      AddressOf(Attrs())
    }

    /** `valid?`: runs the validations and records their errors. */
    method CheckValid() returns (ok: bool)
      modifies this`errors
      ensures errors == Errors(Attrs())
      ensures ok == Valid(Attrs())
    {
      errors := Errors(Attrs());
      ok := errors == [];
    }

    /**
     * `set_coordinates`: when the geocoder returns a hash, latitude and
     * longitude become its two values and the answer is true; when it returns
     * `nil` or raises, the coordinates stay as they were and the answer is false.
     */
    method SetCoordinates(geocoder: Address -> GeocoderReply) returns (ok: bool)
      modifies this`latitude, this`longitude
      ensures ok <==> geocoder(AddressFields()).Coords?
      ensures ok ==> latitude == geocoder(AddressFields()).coords.latitude
                     && longitude == geocoder(AddressFields()).coords.longitude
      ensures !ok ==> latitude == old(latitude) && longitude == old(longitude)
    {
      var reply := geocoder(AddressFields());
      if reply.Coords? {
        latitude := reply.coords.latitude;
        longitude := reply.coords.longitude;
        ok := true;
      } else {
        ok := false;
      }
    }

    /**
     * `save`: validates; an invalid record is not written. A valid one is
     * written as `Persist` says unless the database rejects or raises.
     */
    method Save(table: Table, storage: StorageReply, now: int) returns (r: SaveResult)
      requires table.Valid()
      requires id.Some? ==> exists i :: 0 <= i < |table.rows| && table.rows[i].id == id.value
      modifies this`id, this`errors, table
      ensures table.Valid()
      ensures Attrs() == old(Attrs()) && (old(id).Some? ==> id == old(id))
      ensures errors == Errors(Attrs())
      ensures r == if !Valid(Attrs()) then NotSaved
                   else match storage
                        case Accept => Saved
                        case Reject => NotSaved
                        case Fail(m) => SaveRaised(StorageError(m))
      ensures r.Saved? ==>
        var s := Persist(old(table.rows), old(table.nextId), old(id), Attrs(), now);
        table.rows == s.rows && table.nextId == s.nextId && id == Some(s.id)
      ensures !r.Saved? ==> table.rows == old(table.rows) && table.nextId == old(table.nextId) && id == old(id)
      ensures Snapshot(table.rows, table.nextId, id) == SaveIf(old(table.rows), old(table.nextId), old(id), Attrs(), r.Saved?, now)
      ensures id.Some? ==> exists i :: 0 <= i < |table.rows| && table.rows[i].id == id.value
      ensures r.Saved? ==> exists i :: 0 <= i < |table.rows| && table.rows[i].id == id.value
                                       && table.rows[i].attrs == Attrs() && Valid(table.rows[i].attrs)
    {
      var ok := CheckValid();
      if !ok {
        return NotSaved;
      }
      match storage
      case Reject =>
        r := NotSaved;
      case Fail(m) =>
        r := SaveRaised(StorageError(m));
      case Accept =>
        WriteRow(table, now);
        r := Saved;
    }

    /** The database write of an accepted `save`: `Persist` applied to the table. */
    method WriteRow(table: Table, now: int)
      requires table.Valid()
      requires id.Some? ==> exists i :: 0 <= i < |table.rows| && table.rows[i].id == id.value
      modifies this`id, table
      ensures table.Valid()
      ensures var s := Persist(old(table.rows), old(table.nextId), old(id), Attrs(), now);
        table.rows == s.rows && table.nextId == s.nextId && id == Some(s.id)
      ensures old(id).Some? ==> id == old(id)
      ensures exists i :: 0 <= i < |table.rows| && table.rows[i].id == id.value && table.rows[i].attrs == Attrs()
    {
      PersistKeepsInvariant(table.rows, table.nextId, id, Attrs(), now);
      var s := Persist(table.rows, table.nextId, id, Attrs(), now);
      table.rows, table.nextId := s.rows, s.nextId;
      id := Some(s.id);
    }

    /**
     * `save_with_coordinates`: false without saving when the coordinates cannot
     * be set; false without saving when the record is then invalid; otherwise
     * true whatever `save` answers, unless `save` raises, which is rescued as false.
     */
    method SaveWithCoordinates(table: Table, geocoder: Address -> GeocoderReply, storage: StorageReply, now: int)
      returns (ok: bool)
      requires table.Valid()
      requires id.Some? ==> exists i :: 0 <= i < |table.rows| && table.rows[i].id == id.value
      modifies this, table
      ensures table.Valid()
      ensures AddressFields() == old(AddressFields()) && (old(id).Some? ==> id == old(id))
      ensures id.Some? ==> exists i :: 0 <= i < |table.rows| && table.rows[i].id == id.value
      ensures var reply := geocoder(old(AddressFields()));
        && (!reply.Coords? ==> !ok && Attrs() == old(Attrs()) && id == old(id) && errors == old(errors)
                               && table.rows == old(table.rows) && table.nextId == old(table.nextId))
        && (reply.Coords? ==> latitude == reply.coords.latitude && longitude == reply.coords.longitude
                              && errors == Errors(Attrs()))
        && (reply.Coords? ==> (ok <==> Valid(Attrs()) && !storage.Fail?))
      ensures var written := geocoder(old(AddressFields())).Coords? && Valid(Attrs()) && storage.Accept?;
        && (written ==>
              var s := Persist(old(table.rows), old(table.nextId), old(id), Attrs(), now);
              table.rows == s.rows && table.nextId == s.nextId && id == Some(s.id))
        && (!written ==> table.rows == old(table.rows) && table.nextId == old(table.nextId) && id == old(id))
        && Snapshot(table.rows, table.nextId, id) == SaveIf(old(table.rows), old(table.nextId), old(id), Attrs(), written, now)
    {
      var coordinatesSet := SetCoordinates(geocoder);
      if !coordinatesSet {
        return false;
      }
      var valid := CheckValid();
      if valid {
        var saved := Save(table, storage, now);
        ok := !saved.SaveRaised?;
      } else {
        ok := false;
      }
    }
  }
}
