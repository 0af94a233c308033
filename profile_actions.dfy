/** Server actions of the profile-completion page: the directory of known
    pharmacy names, and saving the pharmacist's chosen pharmacy. */
module ProfileActions {

  import opened Wrappers
  import opened Schema
  import opened Seqs
  import opened Text
  import opened Db
  import SearchActions

  const ConfigMissing := "Configuration serveur manquante."
  const GenericError := "Une erreur est survenue."
  const NotAuthenticated := "Utilisateur non authentifié."
  const UpdateFailed := "Impossible de mettre à jour le profil."

  datatype NamesReply = NamesReply(success: bool, data: Option<seq<string>>, error: Option<string>)

  datatype Reply = Reply(success: bool, error: Option<string>)

  /** The `catch` of this file: an `Error`'s message, else the generic text. */
  function Caught(t: SearchActions.Thrown): string {
    if t.isError then t.message else GenericError
  }

  /** `[...new Set(noms)].sort()`. */
  function UniqueSorted(noms: seq<string>): (r: seq<string>)
    ensures StrictlyAscending(r)
    ensures forall n :: n in r <==> n in noms
  {
    var d := Distinct(noms);
    SortKeepsNoDuplicates(d);
    var r := SortStrings(d);
    assert forall n :: n in r <==> n in multiset(d);
    r
  }

  /** `getAllPharmacyNamesAction` over the `nom` column; `queryError` is what
      the query throws, if anything. */
  function GetAllPharmacyNames(adminConfigured: bool, noms: seq<string>,
                               queryError: Option<SearchActions.Thrown>): (r: NamesReply)
    ensures r.success <==> r.data.Some?
    ensures r.success <==> adminConfigured && queryError.None?
    ensures !adminConfigured ==> r == NamesReply(false, None, Some(ConfigMissing))
    ensures adminConfigured && queryError.Some? ==> r == NamesReply(false, None, Some(Caught(queryError.value)))
    ensures r.data.Some? ==> r.data.value == UniqueSorted(noms)
  {
    if !adminConfigured then NamesReply(false, None, Some(ConfigMissing))
    else if queryError.Some? then NamesReply(false, None, Some(Caught(queryError.value)))
    else NamesReply(true, Some(UniqueSorted(noms)), None)
  }

  /** The directory lists each pharmacy name of the table exactly once, in
      ascending order. */
  lemma NamesListEachOnce(noms: seq<string>)
    ensures var r := GetAllPharmacyNames(true, noms, None).data.value;
            && Ascending(r) && NoDuplicates(r)
            && forall n :: n in r <==> n in noms
  {
  }

  /** Sorted lists with the same members are equal: the directory does not
      depend on the order or the repetitions of the rows. */
  lemma {:induction false} StrictlyAscendingUnique(a: seq<string>, b: seq<string>)
    requires StrictlyAscending(a) && StrictlyAscending(b)
    requires forall n :: n in a <==> n in b
    ensures a == b
    decreases |a|
  {
    if a != [] {
      assert a[0] in b;
      assert b != [];
      // the smallest member of each is their common first entry
      assert a[0] == b[0] by {
        var i :| 0 <= i < |b| && b[i] == a[0];
        assert b[0] in a;
        var j :| 0 <= j < |a| && a[j] == b[0];
        if i != 0 && j != 0 {
          assert Below(b[0], b[i]) && Below(a[0], a[j]);
          BelowAntisymmetric(a[0], b[0]);
        }
      }
      forall n ensures n in a[1..] <==> n in b[1..] {
        if n in a[1..] {
          var k :| 1 <= k < |a| && a[k] == n;
          assert n in b && n != b[0];
        }
        if n in b[1..] {
          var k :| 1 <= k < |b| && b[k] == n;
          assert n in a && n != a[0];
        }
      }
      StrictlyAscendingUnique(a[1..], b[1..]);
      assert a == [a[0]] + a[1..] && b == [b[0]] + b[1..];
    } else {
      // b has no members either
      NonEmptyHasFirst(b);
    }
  }

  lemma UniqueSortedIgnoresOrder(noms: seq<string>, others: seq<string>)
    requires forall n :: n in noms <==> n in others
    ensures UniqueSorted(noms) == UniqueSorted(others)
  {
    StrictlyAscendingUnique(UniqueSorted(noms), UniqueSorted(others));
  }

  /** The table after `.update({ pharmacy_name }).eq('id', id)`. */
  function SetPharmacyName(ps: seq<Profile>, id: string, name: string): (r: seq<Profile>)
    ensures |r| == |ps|
    ensures forall i :: 0 <= i < |ps| ==>
              r[i] == if ps[i].id == id then ps[i].(pharmacyName := Some(name)) else ps[i]
  {
    UpdateWhereId(ps, id, (p: Profile) => p.(pharmacyName := Some(name)))
  }

  /** `updatePharmacistProfileAction`; `updateFails` says whether the store
      refuses the update. */
  method UpdatePharmacistProfile(db: Store, user: Option<AuthUser>, pharmacyName: string, updateFails: bool)
    returns (reply: Reply)
    requires db.Valid()
    modifies db`profiles
    ensures db.Valid()
    ensures reply.success <==> user.Some? && !updateFails
    ensures user.None? ==> reply == Reply(false, Some(NotAuthenticated)) && db.profiles == old(db.profiles)
    ensures user.Some? && updateFails ==> reply == Reply(false, Some(UpdateFailed)) && db.profiles == old(db.profiles)
    ensures reply.success ==> reply.error.None? && db.profiles == SetPharmacyName(old(db.profiles), user.value.id, pharmacyName)
  {
    if user.None? {
      return Reply(false, Some(NotAuthenticated));
    }
    if updateFails {
      return Reply(false, Some(UpdateFailed));
    }
    db.UpdateProfile(user.value.id, (p: Profile) => p.(pharmacyName := Some(pharmacyName)));
    reply := Reply(true, None);
  }

  /** Saving the name keeps the ids a key, and the user's row then carries
      exactly that name with its other fields as before. */
  lemma {:induction false} SetPharmacyNameOnRow(ps: seq<Profile>, id: string, name: string)
    requires UniqueProfileIds(ps)
    ensures UniqueProfileIds(SetPharmacyName(ps, id, name))
    ensures ProfileById(ps, id).None? ==> ProfileById(SetPharmacyName(ps, id, name), id).None?
    ensures ProfileById(ps, id).Some? ==>
              ProfileById(SetPharmacyName(ps, id, name), id) == Some(ProfileById(ps, id).value.(pharmacyName := Some(name)))
  {
    var after := SetPharmacyName(ps, id, name);
    if ProfileById(ps, id).Some? {
      var k :| 0 <= k < |ps| && ps[k] == ProfileById(ps, id).value;
      ProfileByIdUnique(after, id, k);
    }
  }
}
