/** The admin page's server-side loader `getPharmaciesWithProfiles`: every
    distinct pharmacy name of the on-duty schedule, in name order, each
    flagged with whether some profile claims it. */
module AdminPage {

  import opened Wrappers
  import opened Schema
  import opened Seqs
  import opened Text

  /** The `nom` column of the `pharmacies` rows. */
  function Noms(rows: seq<PharmacyRow>): (r: seq<string>)
    ensures |r| == |rows| && forall i :: 0 <= i < |rows| ==> r[i] == rows[i].nom
  {
    if rows == [] then [] else [rows[0].nom] + Noms(rows[1..])
  }

  /** `.select('nom').order('nom')`; the database collation is modelled by
      code-point order. */
  function OrderedNoms(rows: seq<PharmacyRow>): (r: seq<string>)
    ensures Ascending(r) && multiset(r) == multiset(Noms(rows))
  {
    SortStrings(Noms(rows))
  }

  /** `profileNames.has(name)`: some profile's `pharmacy_name` is exactly
      `name` (a null `pharmacy_name` matches no name). */
  predicate Claimed(profiles: seq<Profile>, name: string) {
    exists i :: 0 <= i < |profiles| && profiles[i].pharmacyName == Some(name)
  }

  /** The names of a directory, in order. */
  function NamesOf(d: seq<PharmacyWithProfile>): (r: seq<string>)
    ensures |r| == |d| && forall i :: 0 <= i < |d| ==> r[i] == d[i].nom
  {
    seq(|d|, i requires 0 <= i < |d| => d[i].nom)
  }

  /** `names.map(name => ({ nom: name, has_profile: ... }))`. */
  function Flag(names: seq<string>, profiles: seq<Profile>, profilesError: bool): (r: seq<PharmacyWithProfile>)
    ensures NamesOf(r) == names
    ensures forall i :: 0 <= i < |r| ==> (r[i].hasProfile <==> !profilesError && Claimed(profiles, names[i]))
  {
    if names == [] then []
    else [PharmacyWithProfile(names[0], !profilesError && Claimed(profiles, names[0]))]
         + Flag(names[1..], profiles, profilesError)
  }

  /** `getPharmaciesWithProfiles`. `configured` says whether the admin client
      exists; the two flags say whether each select fails. */
  function GetPharmaciesWithProfiles(configured: bool, pharmacies: seq<PharmacyRow>, pharmaciesError: bool,
                                     profiles: seq<Profile>, profilesError: bool): (r: seq<PharmacyWithProfile>)
    ensures !configured || pharmaciesError ==> r == []
    ensures configured && !pharmaciesError ==> NamesOf(r) == Distinct(OrderedNoms(pharmacies))
    ensures forall i :: 0 <= i < |r| ==> (r[i].hasProfile <==> !profilesError && Claimed(profiles, r[i].nom))
  {
    if !configured || pharmaciesError then []
    else Flag(Distinct(OrderedNoms(pharmacies)), profiles, profilesError)
  }

  /** The directory lists every pharmacy name of the schedule once and no
      other name, in strictly ascending order. */
  lemma DirectoryListsEachNameOnce(pharmacies: seq<PharmacyRow>, profiles: seq<Profile>, profilesError: bool)
    ensures var d := NamesOf(GetPharmaciesWithProfiles(true, pharmacies, false, profiles, profilesError));
            && StrictlyAscending(d)
            && forall x :: x in d <==> exists k :: 0 <= k < |pharmacies| && pharmacies[k].nom == x
  {
    var sorted := OrderedNoms(pharmacies);
    DistinctOfAscending(sorted);
    forall x ensures x in sorted <==> x in Noms(pharmacies) {
      assert x in sorted <==> x in multiset(sorted);
    }
  }

  /** When the profile select fails, every entry is flagged as unclaimed,
      even a name some profile claims. */
  lemma ProfilesErrorFlagsNone(pharmacies: seq<PharmacyRow>, profiles: seq<Profile>)
    ensures forall e :: e in GetPharmaciesWithProfiles(true, pharmacies, false, profiles, true) ==> !e.hasProfile
  {
    var r := GetPharmaciesWithProfiles(true, pharmacies, false, profiles, true);
    forall e | e in r ensures !e.hasProfile {
      var i :| 0 <= i < |r| && r[i] == e;
    }
  }
}
