/** The four address fields that travel between the form, the lookup and the geocoder. */
module Addresses {
  import opened Wrappers

  /**
   * `street`, `city`, `state` and `zip` as a hash: permitted form parameters, or
   * a location read with `address[:street]`. A missing key reads as `nil`.
   */
  datatype Address = Address(street: Option<string>, city: Option<string>, state: Option<string>, zip: Option<string>)
}
