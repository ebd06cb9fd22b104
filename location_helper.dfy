/** `LocationHelper#formatted_address`: the one-line address shown for a location. */
module LocationHelper {
  import opened Wrappers
  import opened Text
  import opened LocationModel

  /**
   * `"#{street.titleize}, #{city.titleize}, #{state} #{zip}"`. Calling
   * `titleize` on a `nil` street or city raises; a `nil` state or zip
   * interpolates as "".
   */
  function FormattedAddress(loc: Attributes): (r: Result<string, Error>)
    ensures r.Failure? <==> loc.street.None? || loc.city.None?
    ensures r.Failure? ==> r.error == NoMethodError
    ensures r.Success? ==>
      var street, city := loc.street.value, loc.city.value;
      var state, zip := loc.state.GetOr(""), loc.zip.GetOr("");
      var n := |street| + 2 + |city| + 2;
      && |r.value| == n + |state| + 1 + |zip|
      && r.value[..|street|] == Titleize(street)
      && r.value[|street|..|street| + 2] == ", "
      && r.value[|street| + 2..n - 2] == Titleize(city)
      && r.value[n - 2..n] == ", "
      && r.value[n..n + |state|] == state
      && r.value[n + |state|] == ' '
      && r.value[n + |state| + 1..] == zip
  {
    if loc.street.None? || loc.city.None? then Failure(NoMethodError)
    else
      var street, city := loc.street.value, loc.city.value;
      var state, zip := loc.state.GetOr(""), loc.zip.GetOr("");
      var out := AddressLine(Titleize(street), Titleize(city), state, zip);
      var n := |street| + 2 + |city| + 2;
      assert out[..|street|] == Titleize(street);
      assert out[|street| + 2..n - 2] == Titleize(city);
      assert out[n..n + |state|] == state;
      assert out[n + |state| + 1..] == zip;
      Success(out)
  }

  /** The interpolation template itself. */
  function AddressLine(street: string, city: string, state: string, zip: string): string {
    street + ", " + city + ", " + state + " " + zip
  }

  /** The output is exactly the template over the title-cased street and city and the verbatim state and zip. */
  lemma FormattedAddressIsTemplate(loc: Attributes)
    requires loc.street.Some? && loc.city.Some?
    ensures FormattedAddress(loc)
            == Success(AddressLine(Titleize(loc.street.value), Titleize(loc.city.value), loc.state.GetOr(""), loc.zip.GetOr("")))
  {
  }

  /** The address given as the example renders as "123 Main St, Springfield, IL 62704". */
  lemma FormattedAddressExample()
    ensures FormattedAddress(Attributes(Some("123 Main St"), Some("Springfield"), Some("IL"), Some("62704"), None, None))
            == Success("123 Main St, Springfield, IL 62704")
  {
    FormattedAddressIsTemplate(Attributes(Some("123 Main St"), Some("Springfield"), Some("IL"), Some("62704"), None, None));
    TitleizeExamples();
    assert AddressLine("123 Main St", "Springfield", "IL", "62704") == "123 Main St, Springfield, IL 62704";
  }

  /** An upcased stored street and city display title-cased: "315 BOWERY", "NEW YORK" show as "315 Bowery, New York". */
  lemma FormattedAddressOfUpcasedRecord()
    ensures FormattedAddress(Attributes(Some("315 BOWERY"), Some("NEW YORK"), Some("NY"), Some("10003"), None, None))
            == Success("315 Bowery, New York, NY 10003")
  {
    FormattedAddressIsTemplate(Attributes(Some("315 BOWERY"), Some("NEW YORK"), Some("NY"), Some("10003"), None, None));
    TitleizeExamples();
    assert AddressLine("315 Bowery", "New York", "NY", "10003") == "315 Bowery, New York, NY 10003";
  }

  /** Whatever the case of the stored street and city, the displayed address is the same. */
  lemma FormattedAddressIgnoresCase(loc: Attributes)
    requires loc.street.Some? && loc.city.Some?
    ensures FormattedAddress(loc.(street := Some(Upcase(loc.street.value)), city := Some(Upcase(loc.city.value))))
            == FormattedAddress(loc)
  {
    TitleizeOfUpcase(loc.street.value);
    TitleizeOfUpcase(loc.city.value);
    var a := FormattedAddress(loc.(street := Some(Upcase(loc.street.value)), city := Some(Upcase(loc.city.value))));
    var b := FormattedAddress(loc);
    assert a.value == b.value;
  }
}
