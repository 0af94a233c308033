/** What the database answers to the two search listings: the rows ordered
    by `created_at` descending, each with the responses that reference it. */
module Queries {

  import opened Wrappers
  import opened Schema
  import opened Seqs

  /** `.order('created_at', { ascending: false })` holds of `s`. */
  predicate NewestFirst(s: seq<SearchRow>) {
    forall i, j :: 0 <= i < j < |s| ==> s[i].createdAt >= s[j].createdAt
  }

  /** No row of `s` was created after `t`. */
  predicate NoneAfter(s: seq<SearchRow>, t: int) {
    forall i :: 0 <= i < |s| ==> s[i].createdAt <= t
  }

  /** `NoneAfter` depends only on which rows there are. */
  lemma NoneAfterPermutation(s: seq<SearchRow>, u: seq<SearchRow>, t: int)
    requires multiset(s) == multiset(u) && NoneAfter(s, t)
    ensures NoneAfter(u, t)
  {
    forall k | 0 <= k < |u| ensures u[k].createdAt <= t {
      assert u[k] in multiset(s);
      var j :| 0 <= j < |s| && s[j] == u[k];
    }
  }

  function InsertNewestFirst(x: SearchRow, s: seq<SearchRow>): (r: seq<SearchRow>)
    requires NewestFirst(s)
    ensures NewestFirst(r)
    ensures multiset(r) == multiset(s) + multiset{x}
  {
    if s == [] || x.createdAt >= s[0].createdAt then [x] + s
    else
      var t := InsertNewestFirst(x, s[1..]);
      NoneAfterPermutation(s[1..] + [x], t, s[0].createdAt);
      assert s == [s[0]] + s[1..];
      [s[0]] + t
  }

  /** The rows of `rows`, newest first. */
  function SortNewestFirst(rows: seq<SearchRow>): (r: seq<SearchRow>)
    ensures NewestFirst(r)
    ensures multiset(r) == multiset(rows)
  {
    if rows == [] then []
    else
      assert rows == rows[..|rows| - 1] + [rows[|rows| - 1]];
      InsertNewestFirst(rows[|rows| - 1], SortNewestFirst(rows[..|rows| - 1]))
  }

  /** The `responses(*)` embedded under search `id`. */
  function ResponsesOf(id: int, responses: seq<ResponseRow>): (r: seq<ResponseRow>)
    ensures forall x :: multiset(r)[x] == if x.searchId == id then multiset(responses)[x] else 0
  {
    Filter(responses, (x: ResponseRow) => x.searchId == id)
  }

  /** Each search paired with its responses, in the order given. */
  function Embed(searches: seq<SearchRow>, responses: seq<ResponseRow>): (r: seq<SearchWithResponses>)
    ensures |r| == |searches|
    ensures forall i :: 0 <= i < |r| ==>
              r[i].search == searches[i] && r[i].responses == ResponsesOf(searches[i].id, responses)
  {
    if searches == [] then []
    else [SearchWithResponses(searches[0], ResponsesOf(searches[0].id, responses))]
         + Embed(searches[1..], responses)
  }

  /** The searches of a listing, in listing order. */
  function SearchesOf(listing: seq<SearchWithResponses>): (r: seq<SearchRow>)
    ensures |r| == |listing| && forall i :: 0 <= i < |r| ==> r[i] == listing[i].search
  {
    if listing == [] then [] else [listing[0].search] + SearchesOf(listing[1..])
  }

  /** `select('*, responses(*)')` over the rows `p` admits, newest first. */
  function SelectNewestFirst(searches: seq<SearchRow>, p: SearchRow -> bool,
                             responses: seq<ResponseRow>): (r: seq<SearchWithResponses>)
    ensures NewestFirst(SearchesOf(r))
    ensures forall s :: multiset(SearchesOf(r))[s] == if p(s) then multiset(searches)[s] else 0
    ensures forall i :: 0 <= i < |r| ==> r[i].responses == ResponsesOf(r[i].search.id, responses)
  {
    var sorted := SortNewestFirst(Filter(searches, p));
    var r := Embed(sorted, responses);
    assert SearchesOf(r) == sorted;
    r
  }
}
