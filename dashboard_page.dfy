/** The pharmacist dashboard page's `checkUser`: send the visitor away
    unless they are a pharmacist with a pharmacy name, then load every
    request. */
module DashboardPage {

  import opened Wrappers
  import opened Schema
  import PharmacistAuth
  import Db
  import SearchActions

  const AuthPage := "/pharmacist-auth"
  const ProfilePage := "/pharmacist-profile"
  const LoadFailed := "Impossible de charger les demandes."

  /** What `checkUser` does after the profile call. */
  datatype Decision = ToAuth | ToProfile | Load

  /** The redirect chain of `checkUser`. */
  function Decide(pr: PharmacistAuth.ProfileReply): (d: Decision)
    ensures d == ToAuth <==> pr.user.None? || pr.profile.None? || pr.profile.value.role != Pharmacien
    ensures d == ToProfile <==> pr.user.Some? && pr.profile.Some? && pr.profile.value.role == Pharmacien
                                && !Truthy(pr.profile.value.pharmacyName)
  {
    if pr.user.None? || pr.profile.None? || pr.profile.value.role != Pharmacien then ToAuth
    else if !Truthy(pr.profile.value.pharmacyName) then ToProfile
    else Load
  }

  /** A pharmacist signing in for the first time is sent to fill in the
      pharmacy name; one whose row already has a name sees the listing. */
  lemma FirstSignInGoesToProfile(ps: seq<Profile>, u: AuthUser, selectFails: bool, updateFails: bool)
    requires Db.ProfileById(ps, u.id).None?
    ensures var r := PharmacistAuth.ProfileStep(ps, Some(u), selectFails, false, updateFails).0;
            Decide(r) == ToProfile
  {
  }

  lemma NamedPharmacistLoads(ps: seq<Profile>, u: AuthUser, selectFails: bool, insertFails: bool, updateFails: bool)
    requires Db.ProfileById(ps, u.id).Some? && Truthy(Db.ProfileById(ps, u.id).value.pharmacyName)
    requires PharmacistAuth.ProfileStep(ps, Some(u), selectFails, insertFails, updateFails).0.error.None?
    ensures Decide(PharmacistAuth.ProfileStep(ps, Some(u), selectFails, insertFails, updateFails).0) == Load
  {
  }

  /** A pharmacist on file whose profile read fails is sent to the sign-in
      page. */
  lemma FailedReadSendsPharmacistToSignIn(ps: seq<Profile>, u: AuthUser, insertFails: bool, updateFails: bool)
    requires Db.ProfileById(ps, u.id).Some?
    ensures Decide(PharmacistAuth.ProfileStep(ps, Some(u), true, insertFails, updateFails).0) == ToAuth
  {
    PharmacistAuth.FailedReadRefusesExistingPharmacist(ps, u, insertFails, updateFails);
  }

  class Page {
    var user: Option<AuthUser>
    var profile: Option<Profile>
    var searches: seq<SearchWithResponses>
    var loading: bool
    var error: Option<string>
    /** The last `router.push` target, if any. */
    var pushed: Option<string>

    constructor ()
      ensures user.None? && profile.None? && searches == [] && loading && error.None? && pushed.None?
    {
      user, profile, searches, loading, error, pushed := None, None, [], true, None, None;
    }

    /** `checkUser`, given the profile call's reply and the reply the listing
        call would give; `fetched` says whether the listing was requested. */
    method CheckUser(pr: PharmacistAuth.ProfileReply, listing: SearchActions.ListReply) returns (fetched: bool)
      modifies this
      ensures fetched <==> Decide(pr) == Load
      ensures Decide(pr) == ToAuth ==> pushed == Some(AuthPage)
      ensures Decide(pr) == ToProfile ==> pushed == Some(ProfilePage)
      ensures Decide(pr) != Load ==>
                && loading && user == old(user) && profile == old(profile)
                && searches == old(searches) && error == old(error)
      ensures Decide(pr) == Load ==>
                && !loading && pushed == old(pushed) && user == pr.user && profile == pr.profile
                && (listing.success && listing.data.Some? ==> searches == listing.data.value && error == old(error))
                && (!(listing.success && listing.data.Some?) ==>
                      searches == old(searches) && error == Some(if Truthy(listing.error) then listing.error.value else LoadFailed))
    {
      loading := true;
      if pr.user.None? || pr.profile.None? || pr.profile.value.role != Pharmacien {
        pushed := Some(AuthPage);
        return false;
      }
      if !Truthy(pr.profile.value.pharmacyName) {
        pushed := Some(ProfilePage);
        return false;
      }
      user := pr.user;
      profile := pr.profile;
      fetched := true;
      if listing.success && listing.data.Some? {
        searches := listing.data.value;
      } else {
        error := Some(if Truthy(listing.error) then listing.error.value else LoadFailed);
      }
      loading := false;
    }
  }
}
