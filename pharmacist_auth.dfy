/** Pharmacist sign-in by magic link, and the get-or-create of the
    pharmacist's profile that forces its role to `Pharmacien`. */
module PharmacistAuth {

  import opened Wrappers
  import opened Schema
  import opened Db
  import AuthCallback

  const DashboardPath := "/pharmacist-dashboard"
  const CallbackPath := "/auth/callback?next="

  const InvalidEmail := "Adresse e-mail invalide."
  const MissingAppUrl := "La configuration de l'application est incomplète. L'URL de l'application n'est pas définie."
  const SendFailed := "Impossible d'envoyer le lien de connexion. Assurez-vous que l'e-mail est correct."
  const UserNotFound := "Utilisateur non trouvé."
  const CreateFailed := "Erreur lors de la création du profil."
  const RoleUpdateFailed := "Erreur de mise à jour du rôle."
  const DefaultUsername := "Nouveau Pharmacien"

  datatype Reply = Reply(success: bool, error: Option<string>)

  /** The `signInWithOtp` request: the address and the link's target. */
  datatype OtpRequest = OtpRequest(email: string, redirectTo: string)

  /** The magic link's target: the callback, told to go on to the dashboard. */
  function EmailRedirect(origin: string): string {
    origin + CallbackPath + DashboardPath
  }

  /** `signInWithEmailAction`: the reply and the OTP request made, if any.
      `isEmail` is zod's address check, `appUrl` the configured origin,
      `otpError` whether the identity provider refuses to send. */
  function SignInWithEmail(email: string, isEmail: string -> bool, appUrl: Option<string>,
                           otpError: bool): (r: (Reply, Option<OtpRequest>))
    ensures r.0.success <==> isEmail(email) && Truthy(appUrl) && !otpError
    ensures r.1.Some? <==> isEmail(email) && Truthy(appUrl)
    ensures r.1.Some? ==> r.1.value == OtpRequest(email, EmailRedirect(appUrl.value))
    ensures !isEmail(email) ==> r.0.error == Some(InvalidEmail)
    ensures isEmail(email) && !Truthy(appUrl) ==> r.0.error == Some(MissingAppUrl)
    ensures r.1.Some? && otpError ==> r.0.error == Some(SendFailed)
    ensures r.0.success ==> r.0.error.None?
  {
    if !isEmail(email) then (Reply(false, Some(InvalidEmail)), None)
    else if !Truthy(appUrl) then (Reply(false, Some(MissingAppUrl)), None)
    else
      var request := OtpRequest(email, EmailRedirect(appUrl.value));
      if otpError then (Reply(false, Some(SendFailed)), Some(request))
      else (Reply(true, None), Some(request))
  }

  /** The `next` query value of a link to the callback on `origin`, read
      off the link (the dashboard path needs no decoding). */
  function LinkNext(origin: string, link: string): (r: Option<string>)
    ensures r.Some? <==> |origin + CallbackPath| <= |link| && link[..|origin + CallbackPath|] == origin + CallbackPath
    ensures r.Some? ==> link == origin + CallbackPath + r.value
  {
    var prefix := origin + CallbackPath;
    if |prefix| <= |link| && link[..|prefix|] == prefix then Some(link[|prefix|..]) else None
  }

  /** A magic link the action sends leads, once its code is exchanged, to the
      dashboard on the configured origin: the callback receives the `next`
      read off that link. */
  lemma MagicLinkLandsOnDashboard(email: string, isEmail: string -> bool, appUrl: Option<string>,
                                  code: string, exchange: string -> Option<string>)
    requires SignInWithEmail(email, isEmail, appUrl, false).0.success
    requires code != "" && exchange(code).None?
    ensures var link := SignInWithEmail(email, isEmail, appUrl, false).1.value.redirectTo;
            && LinkNext(appUrl.value, link) == Some(DashboardPath)
            && AuthCallback.Callback(appUrl.value, Some(code), LinkNext(appUrl.value, link), exchange).target
               == AuthCallback.Href(appUrl.value + DashboardPath)
  {
    var link := SignInWithEmail(email, isEmail, appUrl, false).1.value.redirectTo;
    var prefix := appUrl.value + CallbackPath;
    assert link == prefix + DashboardPath;
    assert link[..|prefix|] == prefix;
    assert link[|prefix|..] == DashboardPath;
  }

  /** What `getPharmacistProfile` returns. */
  datatype ProfileReply = ProfileReply(user: Option<AuthUser>, profile: Option<Profile>, error: Option<string>)

  function WithPharmacienRole(p: Profile): Profile {
    p.(role := Pharmacien)
  }

  /** The profile created on a pharmacist's first sign-in. */
  function NewPharmacist(u: AuthUser): Profile {
    Profile(u.id, if Truthy(u.email) then u.email.value else DefaultUsername, Pharmacien, None, None)
  }

  /** The whole decision of `getPharmacistProfile` over the profile table:
      the reply and the table afterwards. `selectFails` says whether the
      profile read fails; the action keeps only its `data`, so a failed read
      is taken for a missing profile. `insertFails`/`updateFails` say whether
      the store refuses the insert or the role update; an insert under an id
      already taken is refused as well. */
  function ProfileStep(ps: seq<Profile>, user: Option<AuthUser>, selectFails: bool, insertFails: bool, updateFails: bool)
    : (r: (ProfileReply, seq<Profile>))
    ensures user.None? ==> r == (ProfileReply(None, None, Some(UserNotFound)), ps)
    ensures r.0.error.None? ==> user.Some? && r.0.profile.Some? && r.0.profile.value.role == Pharmacien
                                && r.0.profile.value.id == user.value.id
    ensures r.0.error.Some? ==> r.1 == ps
    ensures user.Some? && (selectFails || ProfileById(ps, user.value.id).None?)
            && (insertFails || ProfileById(ps, user.value.id).Some?) ==>
              r == (ProfileReply(user, None, Some(CreateFailed)), ps)
    ensures user.Some? && !selectFails && ProfileById(ps, user.value.id).Some?
            && ProfileById(ps, user.value.id).value.role != Pharmacien && updateFails ==>
              r == (ProfileReply(user, ProfileById(ps, user.value.id), Some(RoleUpdateFailed)), ps)
    ensures user.Some? && ProfileById(ps, user.value.id).None? && !insertFails ==>
              r == (ProfileReply(user, Some(NewPharmacist(user.value)), None), ps + [NewPharmacist(user.value)])
    ensures user.Some? && !selectFails && ProfileById(ps, user.value.id).Some?
            && ProfileById(ps, user.value.id).value.role != Pharmacien && !updateFails ==>
              r == (ProfileReply(user, Some(WithPharmacienRole(ProfileById(ps, user.value.id).value)), None),
                    UpdateWhereId(ps, user.value.id, WithPharmacienRole))
    ensures user.Some? && !selectFails && ProfileById(ps, user.value.id).Some?
            && ProfileById(ps, user.value.id).value.role == Pharmacien ==>
              r == (ProfileReply(user, ProfileById(ps, user.value.id), None), ps)
    ensures user.Some? ==>
              var u := user.value;
              || r.1 == ps
              || (ProfileById(ps, u.id).None? && !insertFails && r.1 == ps + [NewPharmacist(u)])
              || (&& !selectFails && !updateFails
                  && ProfileById(ps, u.id).Some? && ProfileById(ps, u.id).value.role != Pharmacien
                  && |r.1| == |ps|
                  && forall i :: 0 <= i < |ps| ==>
                       r.1[i] == if ps[i].id == u.id then ps[i].(role := Pharmacien) else ps[i])
  {
    if user.None? then (ProfileReply(None, None, Some(UserNotFound)), ps)
    else
      var u := user.value;
      var found := if selectFails then None else ProfileById(ps, u.id);
      match found
      case None =>
        if insertFails || ProfileById(ps, u.id).Some? then (ProfileReply(user, None, Some(CreateFailed)), ps)
        else (ProfileReply(user, Some(NewPharmacist(u)), None), ps + [NewPharmacist(u)])
      case Some(p) =>
        if p.role != Pharmacien then
          if updateFails then (ProfileReply(user, Some(p), Some(RoleUpdateFailed)), ps)
          else (ProfileReply(user, Some(WithPharmacienRole(p)), None), UpdateWhereId(ps, u.id, WithPharmacienRole))
        else (ProfileReply(user, Some(p), None), ps)
  }

  /** `getPharmacistProfile`, run against the store. */
  method GetPharmacistProfile(db: Store, user: Option<AuthUser>, selectFails: bool, insertFails: bool, updateFails: bool)
    returns (reply: ProfileReply)
    requires db.Valid()
    modifies db`profiles
    ensures db.Valid()
    ensures (reply, db.profiles) == ProfileStep(old(db.profiles), user, selectFails, insertFails, updateFails)
  {
    if user.None? {
      return ProfileReply(None, None, Some(UserNotFound));
    }
    var u := user.value;
    var profile := if selectFails then None else ProfileById(db.profiles, u.id);
    if profile.None? {
      if insertFails {
        return ProfileReply(user, None, Some(CreateFailed));
      }
      var ok := db.InsertProfile(NewPharmacist(u));
      if !ok {
        return ProfileReply(user, None, Some(CreateFailed));
      }
      return ProfileReply(user, Some(NewPharmacist(u)), None);
    }
    var p := profile.value;
    if p.role != Pharmacien {
      if updateFails {
        return ProfileReply(user, Some(p), Some(RoleUpdateFailed));
      }
      db.UpdateProfile(u.id, WithPharmacienRole);
      return ProfileReply(user, Some(WithPharmacienRole(p)), None);
    }
    reply := ProfileReply(user, Some(p), None);
  }

  /** After a call without error, the table holds exactly the returned
      profile under the user's id, and its ids are still a key. */
  lemma {:induction false} ProfileStepStores(ps: seq<Profile>, u: AuthUser, selectFails: bool,
                                             insertFails: bool, updateFails: bool)
    requires UniqueProfileIds(ps)
    ensures UniqueProfileIds(ProfileStep(ps, Some(u), selectFails, insertFails, updateFails).1)
    ensures var r := ProfileStep(ps, Some(u), selectFails, insertFails, updateFails);
            r.0.error.None? ==> ProfileById(r.1, u.id) == r.0.profile
  {
    match ProfileById(ps, u.id)
    case None =>
      if !insertFails {
        InsertedProfileFound(ps, u);
      }
    case Some(p) =>
      var k :| 0 <= k < |ps| && ps[k] == p;
      if p.role != Pharmacien && !updateFails && !selectFails {
        PromotedProfileFound(ps, u, k);
      } else {
        ProfileByIdUnique(ps, u.id, k);
      }
  }

  /** The profile a first sign-in inserts is the one found afterwards. */
  lemma InsertedProfileFound(ps: seq<Profile>, u: AuthUser)
    requires UniqueProfileIds(ps) && ProfileById(ps, u.id).None?
    ensures UniqueProfileIds(ps + [NewPharmacist(u)])
    ensures ProfileById(ps + [NewPharmacist(u)], u.id) == Some(NewPharmacist(u))
  {
    var after := ps + [NewPharmacist(u)];
    assert after[|ps|] == NewPharmacist(u);
    ProfileByIdUnique(after, u.id, |ps|);
  }

  /** The promoted profile is the one found afterwards. */
  lemma PromotedProfileFound(ps: seq<Profile>, u: AuthUser, k: nat)
    requires UniqueProfileIds(ps) && k < |ps| && ps[k].id == u.id
    ensures UniqueProfileIds(UpdateWhereId(ps, u.id, WithPharmacienRole))
    ensures ProfileById(UpdateWhereId(ps, u.id, WithPharmacienRole), u.id) == Some(WithPharmacienRole(ps[k]))
  {
    var after := UpdateWhereId(ps, u.id, WithPharmacienRole);
    assert UniqueProfileIds(after);
    ProfileByIdUnique(after, u.id, k);
  }

  /** A second call right after a successful one, whose profile read
      succeeds, changes nothing and returns the same profile. */
  lemma ProfileStepIdempotent(ps: seq<Profile>, u: AuthUser, selectFails: bool, insertFails: bool, updateFails: bool,
                              insertFails2: bool, updateFails2: bool)
    requires UniqueProfileIds(ps)
    requires ProfileStep(ps, Some(u), selectFails, insertFails, updateFails).0.error.None?
    ensures var (first, after) := ProfileStep(ps, Some(u), selectFails, insertFails, updateFails);
            ProfileStep(after, Some(u), false, insertFails2, updateFails2) == (first, after)
  {
    ProfileStepStores(ps, u, selectFails, insertFails, updateFails);
  }

  /** A failed profile read is taken for a first sign-in: the insert that
      follows collides with the pharmacist's existing row, so a pharmacist
      already on file gets no profile and the creation error, with the table
      unchanged. */
  lemma FailedReadRefusesExistingPharmacist(ps: seq<Profile>, u: AuthUser, insertFails: bool, updateFails: bool)
    requires ProfileById(ps, u.id).Some?
    ensures ProfileStep(ps, Some(u), true, insertFails, updateFails) == (ProfileReply(Some(u), None, Some(CreateFailed)), ps)
  {
  }
}
