/** The hosted relational store, as in-memory tables. Each table is a
    sequence of rows; the bigserial id columns come from per-table counters.
    Every method is one SQL statement that succeeds; the callers decide from
    their fault parameters whether the statement is issued at all. */
module Db {

  import opened Wrappers
  import opened Schema
  import opened Seqs

  predicate UniqueProfileIds(ps: seq<Profile>) {
    forall i, j :: 0 <= i < j < |ps| ==> ps[i].id != ps[j].id
  }

  /** `.from('profiles').select('*').eq('id', id).single()`: the row with
      that id, or none. */
  function ProfileById(ps: seq<Profile>, id: string): (r: Option<Profile>)
    ensures r.Some? ==> r.value in ps && r.value.id == id
    ensures r.None? <==> forall i :: 0 <= i < |ps| ==> ps[i].id != id
  {
    if ps == [] then None
    else if ps[0].id == id then Some(ps[0])
    else
      assert forall i :: 1 <= i < |ps| ==> ps[i] == ps[1..][i - 1];
      ProfileById(ps[1..], id)
  }

  /** With unique ids, the row `ProfileById` finds is the only one with that id. */
  lemma ProfileByIdUnique(ps: seq<Profile>, id: string, k: nat)
    requires UniqueProfileIds(ps) && k < |ps| && ps[k].id == id
    ensures ProfileById(ps, id) == Some(ps[k])
  {
    if ps[0].id != id {
      assert UniqueProfileIds(ps[1..]);
      ProfileByIdUnique(ps[1..], id, k - 1);
    }
  }

  /** `.update(f).eq('id', id)` on `profiles`: every row with that id gets
      `f`, every other row is kept; order is kept. */
  function UpdateWhereId(ps: seq<Profile>, id: string, f: Profile -> Profile): (r: seq<Profile>)
    ensures |r| == |ps|
    ensures forall i :: 0 <= i < |ps| ==> r[i] == if ps[i].id == id then f(ps[i]) else ps[i]
  {
    if ps == [] then [] else [if ps[0].id == id then f(ps[0]) else ps[0]] + UpdateWhereId(ps[1..], id, f)
  }

  /** New `pharmacies` rows, ids counting up from `firstId`, all in one week. */
  function PharmacyRows(firstId: int, weekId: int, ps: seq<Pharmacy>): (r: seq<PharmacyRow>)
    decreases ps
    ensures |r| == |ps|
    ensures forall i :: 0 <= i < |ps| ==>
              r[i] == PharmacyRow(firstId + i, weekId, ps[i].nom, ps[i].localisation,
                                  ps[i].contact1, ps[i].contact2)
  {
    if ps == [] then []
    else [PharmacyRow(firstId, weekId, ps[0].nom, ps[0].localisation, ps[0].contact1, ps[0].contact2)]
         + PharmacyRows(firstId + 1, weekId, ps[1..])
  }

  /** `.delete().gt('id', bound)` keeps exactly the rows with id at most `bound`. */
  function DeleteAbove<T(!new)>(rows: seq<T>, id: T -> int, bound: int): (r: seq<T>)
    ensures forall x :: x in r <==> x in rows && id(x) <= bound
  {
    Filter(rows, (x: T) => id(x) <= bound)
  }

  /** On a table whose ids are all positive, deleting above a bound below
      1 empties it. */
  lemma DeleteAboveEmpties<T(!new)>(rows: seq<T>, id: T -> int, bound: int)
    requires bound < 1 && forall x :: x in rows ==> id(x) >= 1
    ensures DeleteAbove(rows, id, bound) == []
  {
  }

  class Store {
    var weeks: seq<WeekRow>
    var pharmacies: seq<PharmacyRow>
    var profiles: seq<Profile>
    var searches: seq<SearchRow>
    var responses: seq<ResponseRow>
    // the id the next inserted row of each bigserial table receives
    var nextWeekId: int
    var nextPharmacyId: int
    var nextSearchId: int

    /** Ids are positive and below their counter; profile ids are a key. */
    ghost predicate Valid()
      reads this
    {
      && 1 <= nextWeekId && 1 <= nextPharmacyId && 1 <= nextSearchId
      && (forall w :: w in weeks ==> 1 <= w.id < nextWeekId)
      && (forall p :: p in pharmacies ==> 1 <= p.id < nextPharmacyId)
      && (forall s :: s in searches ==> 1 <= s.id < nextSearchId)
      && UniqueProfileIds(profiles)
    }

    constructor ()
      ensures Valid()
      ensures weeks == [] && pharmacies == [] && profiles == [] && searches == [] && responses == []
      ensures nextWeekId == 1 && nextPharmacyId == 1 && nextSearchId == 1
    {
      weeks, pharmacies, profiles, searches, responses := [], [], [], [], [];
      nextWeekId, nextPharmacyId, nextSearchId := 1, 1, 1;
    }

    method DeletePharmaciesAbove(bound: int)
      requires Valid()
      modifies this`pharmacies
      ensures Valid()
      ensures pharmacies == DeleteAbove(old(pharmacies), (p: PharmacyRow) => p.id, bound)
      ensures bound < 1 ==> pharmacies == []
    {
      if bound < 1 { DeleteAboveEmpties(pharmacies, (p: PharmacyRow) => p.id, bound); }
      pharmacies := DeleteAbove(pharmacies, (p: PharmacyRow) => p.id, bound);
    }

    method DeleteWeeksAbove(bound: int)
      requires Valid()
      modifies this`weeks
      ensures Valid()
      ensures weeks == DeleteAbove(old(weeks), (w: WeekRow) => w.id, bound)
      ensures bound < 1 ==> weeks == []
    {
      if bound < 1 { DeleteAboveEmpties(weeks, (w: WeekRow) => w.id, bound); }
      weeks := DeleteAbove(weeks, (w: WeekRow) => w.id, bound);
    }

    /** `.from('weeks').insert({ semaine }).select('id').single()`. */
    method InsertWeek(semaine: string) returns (id: int)
      requires Valid()
      modifies this`weeks, this`nextWeekId
      ensures Valid()
      ensures id == old(nextWeekId) && nextWeekId == id + 1
      ensures weeks == old(weeks) + [WeekRow(id, semaine)]
    {
      id := nextWeekId;
      weeks := weeks + [WeekRow(id, semaine)];
      nextWeekId := nextWeekId + 1;
    }

    /** `.from('pharmacies').insert(rows)`, all rows in one statement. */
    method InsertPharmacies(weekId: int, ps: seq<Pharmacy>)
      requires Valid()
      modifies this`pharmacies, this`nextPharmacyId
      ensures Valid()
      ensures pharmacies == old(pharmacies) + PharmacyRows(old(nextPharmacyId), weekId, ps)
      ensures nextPharmacyId == old(nextPharmacyId) + |ps|
    {
      var rows := PharmacyRows(nextPharmacyId, weekId, ps);
      assert forall p :: p in rows ==> nextPharmacyId <= p.id < nextPharmacyId + |ps|;
      pharmacies := pharmacies + rows;
      nextPharmacyId := nextPharmacyId + |ps|;
    }

    /** `.from('searches').insert(...)`; the id and `created_at` are
        filled in by the database. */
    method InsertSearch(clientId: Option<string>, clientPhone: string, original: Option<string>,
                        productName: string, photoUrls: Option<seq<string>>, now: int)
      returns (row: SearchRow)
      requires Valid()
      modifies this`searches, this`nextSearchId
      ensures Valid()
      ensures row == SearchRow(old(nextSearchId), clientId, clientPhone, original, productName, photoUrls, now)
      ensures searches == old(searches) + [row] && nextSearchId == old(nextSearchId) + 1
    {
      row := SearchRow(nextSearchId, clientId, clientPhone, original, productName, photoUrls, now);
      searches := searches + [row];
      nextSearchId := nextSearchId + 1;
    }

    /** `.from('profiles').insert(p)`, refused when the id is taken. */
    method InsertProfile(p: Profile) returns (ok: bool)
      requires Valid()
      modifies this`profiles
      ensures Valid()
      ensures ok <==> ProfileById(old(profiles), p.id).None?
      ensures profiles == if ok then old(profiles) + [p] else old(profiles)
    {
      ok := ProfileById(profiles, p.id).None?;
      if ok {
        profiles := profiles + [p];
      }
    }

    /** `.from('profiles').update(f).eq('id', id)` for an update that keeps the id. */
    method UpdateProfile(id: string, f: Profile -> Profile)
      requires Valid()
      requires forall p :: f(p).id == p.id
      modifies this`profiles
      ensures Valid()
      ensures profiles == UpdateWhereId(old(profiles), id, f)
    {
      profiles := UpdateWhereId(profiles, id, f);
    }
  }
}
