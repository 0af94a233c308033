/** The pharmacists' listing of every product request. */
module DashboardActions {

  import opened Wrappers
  import opened Schema
  import opened Queries
  import opened Db
  import SearchActions

  const Unauthorised := "Accès non autorisé."
  const PharmaciensOnly := "Accès réservé aux pharmaciens."

  /** `getAllSearchesAction`. `selectFails` says whether the role read
      fails; the action keeps only its `data`, so a failed read counts as no
      profile. `queryError` is the message of a failed query; it is rethrown
      as an `Error`, so its message is what the reply carries. */
  function GetAllSearches(user: Option<AuthUser>, profiles: seq<Profile>, selectFails: bool, searches: seq<SearchRow>,
                          responses: seq<ResponseRow>, queryError: Option<string>): (r: SearchActions.ListReply)
    ensures r.success <==> r.data.Some?
    ensures user.None? ==> r == SearchActions.ListReply(false, Some(Unauthorised), None)
    ensures user.Some? && (selectFails || !IsPharmacien(profiles, user.value.id)) ==>
              r == SearchActions.ListReply(false, Some(PharmaciensOnly), None)
    ensures user.Some? && !selectFails && IsPharmacien(profiles, user.value.id) && queryError.Some? ==>
              r == SearchActions.ListReply(false, queryError, None)
    ensures r.success <==> user.Some? && !selectFails && IsPharmacien(profiles, user.value.id) && queryError.None?
    ensures r.data.Some? ==>
              && NewestFirst(SearchesOf(r.data.value))
              && multiset(SearchesOf(r.data.value)) == multiset(searches)
              && (forall i :: 0 <= i < |r.data.value| ==>
                    r.data.value[i].responses == ResponsesOf(r.data.value[i].search.id, responses))
  {
    if user.None? then SearchActions.ListReply(false, Some(Unauthorised), None)
    else if selectFails || !IsPharmacien(profiles, user.value.id) then SearchActions.ListReply(false, Some(PharmaciensOnly), None)
    else if queryError.Some? then SearchActions.ListReply(false, queryError, None)
    else
      var listing := SelectNewestFirst(searches, (_: SearchRow) => true, responses);
      assert multiset(SearchesOf(listing)) == multiset(searches);
      SearchActions.ListReply(true, None, Some(listing))
  }

  /** `profile?.role === 'Pharmacien'` for the user's row. */
  predicate IsPharmacien(profiles: seq<Profile>, id: string) {
    ProfileById(profiles, id).Some? && ProfileById(profiles, id).value.role == Pharmacien
  }

  /** Whatever a client's own listing shows, the pharmacists' listing shows
      too, each request as often. */
  lemma ClientListingWithinDashboard(user: AuthUser, profiles: seq<Profile>, userId: string,
                                     searches: seq<SearchRow>, responses: seq<ResponseRow>)
    requires IsPharmacien(profiles, user.id)
    ensures var all := GetAllSearches(Some(user), profiles, false, searches, responses, None);
            var mine := SearchActions.GetSearchesByClient(true, userId, searches, responses, None);
            mine.data.Some? ==> multiset(SearchesOf(mine.data.value)) <= multiset(SearchesOf(all.data.value))
  {
    var all := GetAllSearches(Some(user), profiles, false, searches, responses, None);
    var mine := SearchActions.GetSearchesByClient(true, userId, searches, responses, None);
    if mine.data.Some? {
      var a := SearchesOf(all.data.value);
      var m := SearchesOf(mine.data.value);
      forall s: SearchRow ensures multiset(m)[s] <= multiset(a)[s] {
        assert multiset(m)[s] == if s.clientId == Some(userId) then multiset(searches)[s] else 0;
      }
    }
  }

  /** A request the search action has just stored shows up in the
      pharmacists' listing. */
  lemma CreatedSearchOnDashboard(user: AuthUser, profiles: seq<Profile>, searches: seq<SearchRow>,
                                 responses: seq<ResponseRow>, row: SearchRow)
    requires IsPharmacien(profiles, user.id)
    ensures var all := GetAllSearches(Some(user), profiles, false, searches + [row], responses, None);
            row in SearchesOf(all.data.value)
  {
    var all := GetAllSearches(Some(user), profiles, false, searches + [row], responses, None);
    assert row in multiset(searches + [row]);
    assert row in multiset(SearchesOf(all.data.value));
  }
}
