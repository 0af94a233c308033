/** The admin's bulk replace of the on-duty schedule: a password gate, two
    deletes that empty the tables, then one week and its pharmacies per
    uploaded schedule, stopping at the first error without rollback. */
module AdminActions {

  import opened Wrappers
  import opened Schema
  import opened Text
  import opened Db

  const AdminPassword := "kenneth18"

  const ConfigMissing := "Échec de la connexion : La configuration côté serveur est manquante. Assurez-vous que les variables d'environnement NEXT_PUBLIC_SUPABASE_URL et SUPABASE_SERVICE_ROLE_KEY sont correctement configurées."
  const WrongPassword := "Mot de passe incorrect."
  const Updated := "Les données des pharmacies ont été mises à jour avec succès."
  const FailurePrefix := "Échec de la mise à jour : "
  const MissingTable := "does not exist"

  datatype Reply = Reply(success: bool, message: string)

  function DeletePharmaciesError(m: string): string {
    "Erreur lors de la suppression des pharmacies: " + m
  }

  function DeleteWeeksError(m: string): string {
    "Erreur lors de la suppression des semaines: " + m
  }

  function WeekInsertError(semaine: string, m: string): string {
    "Erreur lors de l'insertion de la semaine '" + semaine + "': " + m
  }

  function PharmacyInsertError(semaine: string, m: string): string {
    "Erreur lors de l'insertion des pharmacies pour la semaine '" + semaine + "': " + m
  }

  /** The `catch` block's rewrite: a message about a missing table is
      replaced by advice that quotes it. */
  function Rewrite(m: string): (r: string)
    ensures Contains(m, MissingTable) ==> Contains(r, m) && r != m
    ensures !Contains(m, MissingTable) ==> r == m
  {
    if Contains(m, MissingTable) then
      var p := "La table requise n'existe pas. Veuillez exécuter le script SQL de création. [Message original: ";
      var r := p + m + "]";
      assert OccursAt(r, m, |p|) by { assert r[|p|..|p| + |m|] == m; }
      r
    else m
  }

  /** The pharmacies of a schedule; a missing list counts as empty. */
  function PharmaciesOf(s: WeekSchedule): seq<Pharmacy> {
    if s.pharmacies.Some? then s.pharmacies.value else []
  }

  /** The uploaded fields a `pharmacies` row carries. */
  function Fields(row: PharmacyRow): Pharmacy {
    Pharmacy(row.nom, row.localisation, row.contact1, row.contact2)
  }

  /** What the insert loop has added after some schedules: the new rows, the
      counters and the first error. `weekError(i)` / `pharmacyError(i)` is
      the store's error for the `i`-th schedule's week / pharmacies insert. */
  datatype Run = Run(weeks: seq<WeekRow>, pharmacies: seq<PharmacyRow>,
                     nextWeekId: int, nextPharmacyId: int, error: Option<string>)

  /** One iteration of the loop for schedule `s`, the `n`-th, after `prev`. */
  function Step(prev: Run, n: nat, s: WeekSchedule,
                weekError: nat -> Option<string>, pharmacyError: nat -> Option<string>): (r: Run)
    ensures prev.weeks <= r.weeks && |r.weeks| <= |prev.weeks| + 1
    ensures prev.pharmacies <= r.pharmacies
    ensures prev.error.Some? ==> r.error == prev.error
  {
    if prev.error.Some? then prev
    else if weekError(n).Some? then prev.(error := Some(WeekInsertError(s.semaine, weekError(n).value)))
    else
      var wid := prev.nextWeekId;
      var weeks := prev.weeks + [WeekRow(wid, s.semaine)];
      if |PharmaciesOf(s)| == 0 then Run(weeks, prev.pharmacies, wid + 1, prev.nextPharmacyId, None)
      else if pharmacyError(n).Some? then
        Run(weeks, prev.pharmacies, wid + 1, prev.nextPharmacyId,
            Some(PharmacyInsertError(s.semaine, pharmacyError(n).value)))
      else
        var rows := PharmacyRows(prev.nextPharmacyId, wid, PharmaciesOf(s));
        Run(weeks, prev.pharmacies + rows, wid + 1, prev.nextPharmacyId + |rows|, None)
  }

  /** The loop over all of `ss`, from counters `w0` and `p0`. */
  function Loop(ss: seq<WeekSchedule>, w0: int, p0: int,
                weekError: nat -> Option<string>, pharmacyError: nat -> Option<string>): (r: Run)
    ensures |r.weeks| <= |ss|
  {
    if ss == [] then Run([], [], w0, p0, None)
    else Step(Loop(ss[..|ss| - 1], w0, p0, weekError, pharmacyError), |ss| - 1, ss[|ss| - 1], weekError, pharmacyError)
  }

  /** A successful step adds the schedule's week under the next id, and
      one row per pharmacy of the schedule under that week. */
  lemma StepSucceeds(prev: Run, n: nat, s: WeekSchedule,
                     weekError: nat -> Option<string>, pharmacyError: nat -> Option<string>)
    requires Step(prev, n, s, weekError, pharmacyError).error.None?
    ensures var r := Step(prev, n, s, weekError, pharmacyError);
            && prev.error.None?
            && r.weeks == prev.weeks + [WeekRow(prev.nextWeekId, s.semaine)]
            && r.nextWeekId == prev.nextWeekId + 1
            && r.pharmacies == prev.pharmacies + PharmacyRows(prev.nextPharmacyId, prev.nextWeekId, PharmaciesOf(s))
  {
  }

  /** When every insert succeeds there is one week per schedule, in order,
      with consecutive ids. */
  lemma {:induction false} LoopWeeks(ss: seq<WeekSchedule>, w0: int, p0: int,
                                     weekError: nat -> Option<string>, pharmacyError: nat -> Option<string>)
    requires Loop(ss, w0, p0, weekError, pharmacyError).error.None?
    ensures var r := Loop(ss, w0, p0, weekError, pharmacyError);
            && |r.weeks| == |ss| && r.nextWeekId == w0 + |ss|
            && forall i :: 0 <= i < |ss| ==> r.weeks[i] == WeekRow(w0 + i, ss[i].semaine)
    decreases |ss|
  {
    if ss != [] {
      var n := |ss| - 1;
      var init := ss[..n];
      StepSucceeds(Loop(init, w0, p0, weekError, pharmacyError), n, ss[n], weekError, pharmacyError);
      LoopWeeks(init, w0, p0, weekError, pharmacyError);
      assert forall i :: 0 <= i < n ==> ss[i] == init[i];
    }
  }

  /** Every row of `rows` belongs to a week numbered from `w0` and carries a
      pharmacy of that week's schedule in `ss`. */
  predicate FromSchedules(rows: seq<PharmacyRow>, w0: int, ss: seq<WeekSchedule>) {
    forall row :: row in rows ==> exists i :: 0 <= i < |ss| && row.weekId == w0 + i && Fields(row) in PharmaciesOf(ss[i])
  }

  /** A successful step for the last schedule of `ss` adds only rows of
      that schedule. */
  lemma FromStep(ss: seq<WeekSchedule>, init: seq<WeekSchedule>, w0: int, prev: Run, r: Run,
                 weekError: nat -> Option<string>, pharmacyError: nat -> Option<string>)
    requires |ss| > 0 && init == ss[..|ss| - 1] && prev.nextWeekId == w0 + |init|
    requires r == Step(prev, |ss| - 1, ss[|ss| - 1], weekError, pharmacyError) && r.error.None?
    requires FromSchedules(prev.pharmacies, w0, init)
    ensures FromSchedules(r.pharmacies, w0, ss)
  {
    var n := |ss| - 1;
    StepSucceeds(prev, n, ss[n], weekError, pharmacyError);
    var rows := PharmacyRows(prev.nextPharmacyId, prev.nextWeekId, PharmaciesOf(ss[n]));
    assert r.pharmacies == prev.pharmacies + rows;
    forall row | row in r.pharmacies
      ensures exists i :: 0 <= i < |ss| && row.weekId == w0 + i && Fields(row) in PharmaciesOf(ss[i])
    {
      if row in prev.pharmacies {
        var i :| 0 <= i < |init| && row.weekId == w0 + i && Fields(row) in PharmaciesOf(init[i]);
        assert ss[i] == init[i];
      } else {
        var k :| 0 <= k < |rows| && rows[k] == row;
        assert Fields(row) == PharmaciesOf(ss[n])[k];
      }
    }
  }

  /** Every pharmacy row the loop adds comes from its week's schedule. */
  lemma {:induction false} LoopRowsFromSchedules(ss: seq<WeekSchedule>, w0: int, p0: int,
                                                 weekError: nat -> Option<string>, pharmacyError: nat -> Option<string>)
    requires Loop(ss, w0, p0, weekError, pharmacyError).error.None?
    ensures FromSchedules(Loop(ss, w0, p0, weekError, pharmacyError).pharmacies, w0, ss)
    decreases |ss|
  {
    if ss != [] {
      var n := |ss| - 1;
      var init := ss[..n];
      var prev := Loop(init, w0, p0, weekError, pharmacyError);
      StepSucceeds(prev, n, ss[n], weekError, pharmacyError);
      LoopRowsFromSchedules(init, w0, p0, weekError, pharmacyError);
      LoopNextWeekId(init, w0, p0, weekError, pharmacyError);
      FromStep(ss, init, w0, prev, Loop(ss, w0, p0, weekError, pharmacyError), weekError, pharmacyError);
    }
  }

  /** `rows` holds a row for pharmacy `p` under week `weekId`. */
  predicate Covered(rows: seq<PharmacyRow>, weekId: int, p: Pharmacy) {
    exists row :: row in rows && row.weekId == weekId && Fields(row) == p
  }

  /** `rows` holds a row for every pharmacy of every schedule of `ss`, under
      that schedule's week, the weeks numbered from `w0`. */
  predicate Covers(rows: seq<PharmacyRow>, w0: int, ss: seq<WeekSchedule>) {
    forall i, j :: 0 <= i < |ss| && 0 <= j < |PharmaciesOf(ss[i])| ==> Covered(rows, w0 + i, PharmaciesOf(ss[i])[j])
  }

  /** A successful step for the last schedule of `ss` extends the coverage
      of the earlier schedules to all of `ss`. */
  lemma CoverStep(ss: seq<WeekSchedule>, init: seq<WeekSchedule>, w0: int, prev: Run, r: Run,
                  weekError: nat -> Option<string>, pharmacyError: nat -> Option<string>)
    requires |ss| > 0 && init == ss[..|ss| - 1] && prev.nextWeekId == w0 + |init|
    requires r == Step(prev, |ss| - 1, ss[|ss| - 1], weekError, pharmacyError) && r.error.None?
    requires Covers(prev.pharmacies, w0, init)
    ensures Covers(r.pharmacies, w0, ss)
  {
    var n := |ss| - 1;
    StepSucceeds(prev, n, ss[n], weekError, pharmacyError);
    var rows := PharmacyRows(prev.nextPharmacyId, prev.nextWeekId, PharmaciesOf(ss[n]));
    assert r.pharmacies == prev.pharmacies + rows;
    forall i, j | 0 <= i < |ss| && 0 <= j < |PharmaciesOf(ss[i])|
      ensures Covered(r.pharmacies, w0 + i, PharmaciesOf(ss[i])[j])
    {
      if i < n {
        assert ss[i] == init[i];
        assert Covered(prev.pharmacies, w0 + i, PharmaciesOf(init[i])[j]);
        var row :| row in prev.pharmacies && row.weekId == w0 + i && Fields(row) == PharmaciesOf(init[i])[j];
        assert row in r.pharmacies;
      } else {
        assert r.pharmacies[|prev.pharmacies| + j] == rows[j];
      }
    }
  }

  /** Without an error every schedule has used one week id. */
  lemma {:induction false} LoopNextWeekId(ss: seq<WeekSchedule>, w0: int, p0: int,
                                          weekError: nat -> Option<string>, pharmacyError: nat -> Option<string>)
    requires Loop(ss, w0, p0, weekError, pharmacyError).error.None?
    ensures Loop(ss, w0, p0, weekError, pharmacyError).nextWeekId == w0 + |ss|
    decreases |ss|
  {
    if ss != [] {
      var n := |ss| - 1;
      StepSucceeds(Loop(ss[..n], w0, p0, weekError, pharmacyError), n, ss[n], weekError, pharmacyError);
      LoopNextWeekId(ss[..n], w0, p0, weekError, pharmacyError);
    }
  }

  /** Every pharmacy of every schedule gets a row under that schedule's week,
      so a schedule without pharmacies is a week with no rows. */
  lemma {:induction false} LoopRowsCoverSchedules(ss: seq<WeekSchedule>, w0: int, p0: int,
                                                  weekError: nat -> Option<string>, pharmacyError: nat -> Option<string>)
    requires Loop(ss, w0, p0, weekError, pharmacyError).error.None?
    ensures Covers(Loop(ss, w0, p0, weekError, pharmacyError).pharmacies, w0, ss)
    decreases |ss|
  {
    if ss != [] {
      var n := |ss| - 1;
      var init := ss[..n];
      var prev := Loop(init, w0, p0, weekError, pharmacyError);
      StepSucceeds(prev, n, ss[n], weekError, pharmacyError);
      LoopRowsCoverSchedules(init, w0, p0, weekError, pharmacyError);
      LoopNextWeekId(init, w0, p0, weekError, pharmacyError);
      CoverStep(ss, init, w0, prev, Loop(ss, w0, p0, weekError, pharmacyError), weekError, pharmacyError);
    }
  }

  /** Once a prefix of the loop has failed, the whole run is that prefix's run. */
  lemma {:induction false} FailureSticks(ss: seq<WeekSchedule>, k: nat, w0: int, p0: int,
                                         weekError: nat -> Option<string>, pharmacyError: nat -> Option<string>)
    requires k <= |ss| && Loop(ss[..k], w0, p0, weekError, pharmacyError).error.Some?
    ensures Loop(ss, w0, p0, weekError, pharmacyError) == Loop(ss[..k], w0, p0, weekError, pharmacyError)
    decreases |ss| - k
  {
    if k < |ss| {
      assert ss[..k + 1][..k] == ss[..k];
      FailureSticks(ss, k + 1, w0, p0, weekError, pharmacyError);
    } else {
      assert ss[..k] == ss;
    }
  }

  /** No rollback: when schedule `k` is the first to fail, the weeks and
      pharmacies of schedules before it stay in place, and so does the week
      of `k` when only its pharmacies failed. */
  lemma NoRollback(ss: seq<WeekSchedule>, k: nat, w0: int, p0: int,
                   weekError: nat -> Option<string>, pharmacyError: nat -> Option<string>)
    requires k < |ss|
    requires Loop(ss[..k], w0, p0, weekError, pharmacyError).error.None?
    requires Loop(ss[..k + 1], w0, p0, weekError, pharmacyError).error.Some?
    ensures var r := Loop(ss, w0, p0, weekError, pharmacyError);
            var done := Loop(ss[..k], w0, p0, weekError, pharmacyError);
            && r.error.Some?
            && r.pharmacies == done.pharmacies
            && r.weeks == done.weeks + (if weekError(k).None? then [WeekRow(w0 + k, ss[k].semaine)] else [])
            && |r.weeks| >= k
            && (forall i :: 0 <= i < k ==> r.weeks[i] == WeekRow(w0 + i, ss[i].semaine))
  {
    var pre := ss[..k];
    var done := Loop(pre, w0, p0, weekError, pharmacyError);
    assert ss[..k + 1][..k] == pre;
    assert ss[..k + 1][k] == ss[k];
    assert Loop(ss[..k + 1], w0, p0, weekError, pharmacyError) == Step(done, k, ss[k], weekError, pharmacyError);
    FailureSticks(ss, k + 1, w0, p0, weekError, pharmacyError);
    FailingStep(done, k, ss[k], weekError, pharmacyError);
    LoopWeeks(pre, w0, p0, weekError, pharmacyError);
    var r := Loop(ss, w0, p0, weekError, pharmacyError);
    forall i | 0 <= i < k ensures r.weeks[i] == WeekRow(w0 + i, ss[i].semaine) {
      assert pre[i] == ss[i];
    }
  }

  /** A failing step adds the week alone when only the pharmacies failed,
      and nothing when the week failed. */
  lemma FailingStep(prev: Run, n: nat, s: WeekSchedule,
                    weekError: nat -> Option<string>, pharmacyError: nat -> Option<string>)
    requires prev.error.None? && Step(prev, n, s, weekError, pharmacyError).error.Some?
    ensures var r := Step(prev, n, s, weekError, pharmacyError);
            && r.pharmacies == prev.pharmacies
            && r.weeks == prev.weeks + (if weekError(n).None? then [WeekRow(prev.nextWeekId, s.semaine)] else [])
  {
  }

  /** The step that inserts both the week and its pharmacies (none when the
      schedule has none). */
  lemma StepInserts(prev: Run, n: nat, s: WeekSchedule,
                    weekError: nat -> Option<string>, pharmacyError: nat -> Option<string>)
    requires prev.error.None? && weekError(n).None?
    requires |PharmaciesOf(s)| == 0 || pharmacyError(n).None?
    ensures Step(prev, n, s, weekError, pharmacyError)
            == Run(prev.weeks + [WeekRow(prev.nextWeekId, s.semaine)],
                   prev.pharmacies + PharmacyRows(prev.nextPharmacyId, prev.nextWeekId, PharmaciesOf(s)),
                   prev.nextWeekId + 1, prev.nextPharmacyId + |PharmaciesOf(s)|, None)
  {
    if |PharmaciesOf(s)| == 0 {
      assert PharmacyRows(prev.nextPharmacyId, prev.nextWeekId, PharmaciesOf(s)) == [];
    }
  }

  /** The two checks before any statement: the admin client must exist and
      the password must be the fixed one. */
  function Gate(adminConfigured: bool, password: string): (r: Option<Reply>)
    ensures r.None? <==> adminConfigured && password == AdminPassword
    ensures !adminConfigured ==> r == Some(Reply(false, ConfigMissing))
    ensures adminConfigured && password != AdminPassword ==> r == Some(Reply(false, WrongPassword))
  {
    if !adminConfigured then Some(Reply(false, ConfigMissing))
    else if password != AdminPassword then Some(Reply(false, WrongPassword))
    else None
  }

  /** The reply for a caught error message. */
  function Failed(m: string): Reply {
    Reply(false, FailurePrefix + Rewrite(m))
  }

  /** `updatePharmaciesAction`. `adminConfigured` says whether the admin
      client exists; the remaining parameters are the store's errors. */
  method UpdatePharmacies(db: Store, adminConfigured: bool, password: string, schedules: seq<WeekSchedule>,
                          deletePharmaciesError: Option<string>, deleteWeeksError: Option<string>,
                          weekError: nat -> Option<string>, pharmacyError: nat -> Option<string>)
    returns (reply: Reply)
    requires db.Valid()
    modifies db`weeks, db`pharmacies, db`nextWeekId, db`nextPharmacyId
    ensures db.Valid()
    ensures Gate(adminConfigured, password).Some? ==> reply == Gate(adminConfigured, password).value
    ensures Gate(adminConfigured, password).Some? || deletePharmaciesError.Some? ==>
              db.weeks == old(db.weeks) && db.pharmacies == old(db.pharmacies)
    ensures Gate(adminConfigured, password).Some? || deletePharmaciesError.Some? || deleteWeeksError.Some? ==>
              db.nextWeekId == old(db.nextWeekId) && db.nextPharmacyId == old(db.nextPharmacyId)
    ensures adminConfigured && password == AdminPassword && deletePharmaciesError.Some? ==>
              reply == Failed(DeletePharmaciesError(deletePharmaciesError.value))
    ensures adminConfigured && password == AdminPassword && deletePharmaciesError.None? && deleteWeeksError.Some? ==>
              && reply == Failed(DeleteWeeksError(deleteWeeksError.value))
              && db.pharmacies == [] && db.weeks == old(db.weeks)
    ensures adminConfigured && password == AdminPassword && deletePharmaciesError.None? && deleteWeeksError.None? ==>
              var r := Loop(schedules, old(db.nextWeekId), old(db.nextPharmacyId), weekError, pharmacyError);
              && db.weeks == r.weeks && db.pharmacies == r.pharmacies
              && db.nextWeekId == r.nextWeekId && db.nextPharmacyId == r.nextPharmacyId
              && reply == (if r.error.None? then Reply(true, Updated) else Failed(r.error.value))
    ensures reply.success <==>
              && adminConfigured && password == AdminPassword
              && deletePharmaciesError.None? && deleteWeeksError.None?
              && Loop(schedules, old(db.nextWeekId), old(db.nextPharmacyId), weekError, pharmacyError).error.None?
  {
    var refused := Gate(adminConfigured, password);
    if refused.Some? {
      return refused.value;
    }
    reply := ReplaceSchedules(db, schedules, deletePharmaciesError, deleteWeeksError, weekError, pharmacyError);
  }

  /** The body of the `try` block once the gate is passed: the two deletes,
      then the insert loop. */
  method ReplaceSchedules(db: Store, schedules: seq<WeekSchedule>,
                          deletePharmaciesError: Option<string>, deleteWeeksError: Option<string>,
                          weekError: nat -> Option<string>, pharmacyError: nat -> Option<string>)
    returns (reply: Reply)
    requires db.Valid()
    modifies db`weeks, db`pharmacies, db`nextWeekId, db`nextPharmacyId
    ensures db.Valid()
    ensures deletePharmaciesError.Some? ==>
              && reply == Failed(DeletePharmaciesError(deletePharmaciesError.value))
              && db.weeks == old(db.weeks) && db.pharmacies == old(db.pharmacies)
    ensures deletePharmaciesError.Some? || deleteWeeksError.Some? ==>
              db.nextWeekId == old(db.nextWeekId) && db.nextPharmacyId == old(db.nextPharmacyId)
    ensures deletePharmaciesError.None? && deleteWeeksError.Some? ==>
              && reply == Failed(DeleteWeeksError(deleteWeeksError.value))
              && db.pharmacies == [] && db.weeks == old(db.weeks)
    ensures deletePharmaciesError.None? && deleteWeeksError.None? ==>
              var r := Loop(schedules, old(db.nextWeekId), old(db.nextPharmacyId), weekError, pharmacyError);
              && db.weeks == r.weeks && db.pharmacies == r.pharmacies
              && db.nextWeekId == r.nextWeekId && db.nextPharmacyId == r.nextPharmacyId
              && reply == (if r.error.None? then Reply(true, Updated) else Failed(r.error.value))
  {
    if deletePharmaciesError.Some? {
      return Failed(DeletePharmaciesError(deletePharmaciesError.value));
    }
    db.DeletePharmaciesAbove(-1);
    if deleteWeeksError.Some? {
      return Failed(DeleteWeeksError(deleteWeeksError.value));
    }
    db.DeleteWeeksAbove(-1);
    var error := InsertSchedules(db, schedules, weekError, pharmacyError);
    reply := if error.None? then Reply(true, Updated) else Failed(error.value);
  }

  /** The `for` loop: per schedule, insert its week, then its pharmacies
      under the new week's id when it has any; stop at the first error. */
  method InsertSchedules(db: Store, schedules: seq<WeekSchedule>,
                         weekError: nat -> Option<string>, pharmacyError: nat -> Option<string>)
    returns (error: Option<string>)
    requires db.Valid() && db.weeks == [] && db.pharmacies == []
    modifies db`weeks, db`pharmacies, db`nextWeekId, db`nextPharmacyId
    ensures db.Valid()
    ensures var r := Loop(schedules, old(db.nextWeekId), old(db.nextPharmacyId), weekError, pharmacyError);
            && db.weeks == r.weeks && db.pharmacies == r.pharmacies
            && db.nextWeekId == r.nextWeekId && db.nextPharmacyId == r.nextPharmacyId
            && error == r.error
  {
    var w0, p0 := db.nextWeekId, db.nextPharmacyId;
    ghost var run := Run([], [], w0, p0, None);
    var i := 0;
    while i < |schedules|
      invariant 0 <= i <= |schedules|
      invariant db.Valid()
      invariant run == Loop(schedules[..i], w0, p0, weekError, pharmacyError)
      invariant run.error.None?
      invariant db.weeks == run.weeks && db.pharmacies == run.pharmacies
      invariant db.nextWeekId == run.nextWeekId && db.nextPharmacyId == run.nextPharmacyId
    {
      assert schedules[..i + 1][..i] == schedules[..i];
      ghost var next := Step(run, i, schedules[i], weekError, pharmacyError);
      assert Loop(schedules[..i + 1], w0, p0, weekError, pharmacyError) == next;
      var failed := InsertSchedule(db, i, schedules[i], weekError, pharmacyError, run);
      if failed.Some? {
        FailureSticks(schedules, i + 1, w0, p0, weekError, pharmacyError);
        return failed;
      }
      run := next;
      i := i + 1;
    }
    assert schedules[..i] == schedules;
    error := None;
  }

  /** One pass of the loop body, for the `n`-th schedule `s`, from the state
      `run` describes: the store ends as `Step` says. */
  method InsertSchedule(db: Store, n: nat, s: WeekSchedule,
                        weekError: nat -> Option<string>, pharmacyError: nat -> Option<string>,
                        ghost run: Run)
    returns (error: Option<string>)
    requires db.Valid() && run.error.None?
    requires db.weeks == run.weeks && db.pharmacies == run.pharmacies
    requires db.nextWeekId == run.nextWeekId && db.nextPharmacyId == run.nextPharmacyId
    modifies db`weeks, db`pharmacies, db`nextWeekId, db`nextPharmacyId
    ensures db.Valid()
    ensures var next := Step(run, n, s, weekError, pharmacyError);
            && error == next.error
            && db.weeks == next.weeks && db.pharmacies == next.pharmacies
            && db.nextWeekId == next.nextWeekId && db.nextPharmacyId == next.nextPharmacyId
  {
    if weekError(n).Some? {
      return Some(WeekInsertError(s.semaine, weekError(n).value));
    }
    error := InsertWeekAndPharmacies(db, s, pharmacyError(n));
    if error.None? {
      StepInserts(run, n, s, weekError, pharmacyError);
    }
  }

  /** The body after a successful week insert: the week, then its
      pharmacies unless `failure` stops that statement. */
  method InsertWeekAndPharmacies(db: Store, s: WeekSchedule, failure: Option<string>)
    returns (error: Option<string>)
    requires db.Valid()
    modifies db`weeks, db`pharmacies, db`nextWeekId, db`nextPharmacyId
    ensures db.Valid()
    ensures db.weeks == old(db.weeks) + [WeekRow(old(db.nextWeekId), s.semaine)]
    ensures db.nextWeekId == old(db.nextWeekId) + 1
    ensures |PharmaciesOf(s)| > 0 && failure.Some? ==>
              && error == Some(PharmacyInsertError(s.semaine, failure.value))
              && db.pharmacies == old(db.pharmacies) && db.nextPharmacyId == old(db.nextPharmacyId)
    ensures |PharmaciesOf(s)| == 0 || failure.None? ==>
              && error == None
              && db.pharmacies == old(db.pharmacies) + PharmacyRows(old(db.nextPharmacyId), old(db.nextWeekId), PharmaciesOf(s))
              && db.nextPharmacyId == old(db.nextPharmacyId) + |PharmaciesOf(s)|
  {
    var weekId := db.InsertWeek(s.semaine);
    var ps := PharmaciesOf(s);
    if |ps| > 0 && failure.Some? {
      return Some(PharmacyInsertError(s.semaine, failure.value));
    }
    db.InsertPharmacies(weekId, ps);
    error := None;
  }
}
