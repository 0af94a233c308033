/** The profile-completion page: its form schema, the name it submits, and
    where it sends the visitor on load and after saving. */
module ProfilePage {

  import opened Wrappers
  import opened Schema
  import opened Text
  import PharmacistAuth
  import ProfileActions
  import DashboardPage

  const Other := "other"
  const DashboardPath := "/pharmacist-dashboard"
  const AuthPath := "/pharmacist-auth"

  /** `ProfileSchema`: a selected pharmacy, and a name of at least two
      characters besides surrounding white space when 'other' is selected. */
  predicate ProfileSchema(pharmacyName: Option<string>, newPharmacyName: Option<string>) {
    && pharmacyName.Some? && |pharmacyName.value| >= 1
    && (pharmacyName.value == Other ==> Truthy(newPharmacyName) && |Trim(newPharmacyName.value)| >= 2)
  }

  /** A new name made only of white space is refused, however long. */
  lemma OtherRefusesBlankName(blank: string)
    requires AllSpace(blank)
    ensures !ProfileSchema(Some(Other), Some(blank))
  {
  }

  /** A new name whose trimmed form is long enough is accepted untrimmed. */
  lemma OtherAcceptsPaddedName()
    ensures ProfileSchema(Some(Other), Some(" ab "))
  {
    var padded := " ab ";
    assert IsJsSpace(padded[0]) && IsJsSpace(padded[3]) && !IsJsSpace(padded[1]) && !IsJsSpace(padded[2]);
    assert SpaceRunEnd(padded, 0) == 1;
    assert SpaceRunStart(padded, 1, 4) == 3;
  }

  /** The name `onSubmit` sends: the new name, untrimmed, for 'other', else
      the selection. */
  function FinalName(pharmacyName: string, newPharmacyName: Option<string>): (r: string)
    requires ProfileSchema(Some(pharmacyName), newPharmacyName)
    ensures pharmacyName == Other ==> Some(r) == newPharmacyName && |Trim(r)| >= 2
    ensures pharmacyName != Other ==> r == pharmacyName
    ensures r != ""
  {
    if pharmacyName == Other then newPharmacyName.value else pharmacyName
  }

  /** What `fetchData` does after the profile call. */
  datatype Load = ToAuth | ToDashboard | ShowForm

  function Decide(pr: PharmacistAuth.ProfileReply): (d: Load)
    ensures d == ToAuth <==> pr.user.None? || pr.profile.None?
    ensures d == ToDashboard <==> pr.user.Some? && pr.profile.Some? && Truthy(pr.profile.value.pharmacyName)
  {
    if pr.user.None? || pr.profile.None? then ToAuth
    else if Truthy(pr.profile.value.pharmacyName) then ToDashboard
    else ShowForm
  }

  /** The names the form offers: the directory on success, otherwise the
      initial empty list. */
  function OfferedNames(reply: ProfileActions.NamesReply): (r: seq<string>)
    ensures reply.success && reply.data.Some? ==> r == reply.data.value
    ensures !(reply.success && reply.data.Some?) ==> r == []
  {
    if reply.success && reply.data.Some? then reply.data.value else []
  }

  /** The two pages never bounce a visitor between them: whenever the
      dashboard sends a visitor here, this page shows the form. */
  lemma NoRedirectLoop(pr: PharmacistAuth.ProfileReply)
    ensures DashboardPage.Decide(pr) == DashboardPage.ToProfile ==> Decide(pr) == ShowForm
    ensures Decide(pr) == ToDashboard && pr.profile.value.role == Pharmacien ==> DashboardPage.Decide(pr) == DashboardPage.Load
  {
  }

  /** The outcome of a submission. */
  datatype Submitted = Redirect(path: string) | ErrorToast(description: string)

  function AfterSubmit(result: ProfileActions.Reply): (r: Submitted)
    ensures result.success ==> r == Redirect(DashboardPath)
    ensures !result.success ==> r == ErrorToast(if Truthy(result.error) then result.error.value else ProfileActions.UpdateFailed)
  {
    if result.success then Redirect(DashboardPath)
    else ErrorToast(if Truthy(result.error) then result.error.value else ProfileActions.UpdateFailed)
  }
}
