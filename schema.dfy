/** Row shapes of the hosted database tables and the few client-side records
    that travel between pages and server actions. */
module Schema {

  import opened Wrappers

  /** `profiles.role`. */
  datatype Role = Client | Pharmacien

  /** A row of `weeks`: one on-duty week of the published schedule. */
  datatype WeekRow = WeekRow(id: int, semaine: string)

  /** A row of `pharmacies`: an on-duty pharmacy, owned by one week. */
  datatype PharmacyRow = PharmacyRow(
    id: int, weekId: int, nom: string, localisation: string, contact1: string, contact2: string)

  /** A row of `profiles`, keyed by the identity provider's subject id. */
  datatype Profile = Profile(
    id: string, username: string, role: Role, pharmacyName: Option<string>, phone: Option<string>)

  /** A row of `searches`: one product request. `createdAt` is the insertion
      time stamp, compared as a number. */
  datatype SearchRow = SearchRow(
    id: int, clientId: Option<string>, clientPhone: string,
    originalProductName: Option<string>, productName: string,
    photoUrls: Option<seq<string>>, createdAt: int)

  /** A row of `responses`: a pharmacist's reply to one search. */
  datatype ResponseRow = ResponseRow(
    id: int, searchId: int, pharmacistId: string, pharmacyName: string,
    price: Option<string>, createdAt: int)

  /** A search together with the responses that reference it, the shape of
      `select('*, responses(*)')`. */
  datatype SearchWithResponses = SearchWithResponses(search: SearchRow, responses: seq<ResponseRow>)

  /** An on-duty pharmacy as it appears in the admin upload file. */
  datatype Pharmacy = Pharmacy(nom: string, localisation: string, contact1: string, contact2: string)

  /** One element of the admin upload file; `pharmacies` may be missing. */
  datatype WeekSchedule = WeekSchedule(semaine: string, pharmacies: Option<seq<Pharmacy>>)

  /** A directory entry of the admin page. */
  datatype PharmacyWithProfile = PharmacyWithProfile(nom: string, hasProfile: bool)

  /** The authenticated user the identity provider reports. */
  datatype AuthUser = AuthUser(id: string, email: Option<string>)

  /** A JavaScript value is truthy as a string when it is present and non-empty. */
  predicate Truthy(s: Option<string>) {
    s.Some? && s.value != ""
  }
}
