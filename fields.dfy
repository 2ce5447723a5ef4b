/** The keys of a pre-registration payload, shared by the form and the endpoint. */
module Fields {

  datatype Field =
    | FacilityName
    | FacilityType
    | Address
    | City
    | ContactName
    | Role
    | Email
    | Phone
    | FacilitySize
    | Notes
    | Website          // the honeypot
    | FormStartedAt

  /** The key a field is sent under. */
  function Key(f: Field): string {
    match f
    case FacilityName => "facilityName"
    case FacilityType => "facilityType"
    case Address => "address"
    case City => "city"
    case ContactName => "contactName"
    case Role => "role"
    case Email => "email"
    case Phone => "phone"
    case FacilitySize => "facilitySize"
    case Notes => "notes"
    case Website => "website"
    case FormStartedAt => "formStartedAt"
  }

  /**
   * Different fields are sent under different keys, so a JSON object's
   * schema keys can be indexed by `Field`.
   */
  lemma KeysDistinct(f: Field, g: Field)
    requires Key(f) == Key(g)
    ensures f == g
  {
    assert Key(f)[0] == Key(g)[0] && Key(f)[|Key(f)| - 1] == Key(g)[|Key(g)| - 1];
    assert |Key(f)| == |Key(g)|;
  }
}
