/** How results reach waiting parents, over any sequence of reports. */
module RollUp {
  import opened Wrappers
  import opened JobTable
  import opened Reports

  predicate WaitingIn(rows: Rows, g: Option<JobId>) {
    g.Some? && g.value in rows && rows[g.value].status == Waiting
  }

  lemma Incomplete(rows: Rows, p: JobId)
    requires p in rows && !Completes(rows, p)
    ensures UpdateParent(rows, p) ==
      if rows[p].status == Waiting then rows[p := rows[p].(progress := UpdateParent(rows, p)[p].progress)] else rows
  {
  }

  /** What a completing parent does to the table: its own row, and the progress of its own
      waiting parent, whose check runs while the completing row is still stored as waiting. */
  lemma Complete(rows: Rows, p: JobId)
    requires Completes(rows, p)
    ensures var r, g := UpdateParent(rows, p), rows[p].parent;
      && r[p] == rows[p].(status := if SomeChildFailed(rows, p) then Failed else Success, progress := r[p].progress)
      && g != Some(p)
      && if WaitingIn(rows, g) then r == rows[g.value := rows[g.value].(progress := r[g.value].progress)][p := r[p]]
         else r == rows[p := r[p]]
  {
    CountingMeansAllFinal(rows, p);
    ParentOnly(rows, p);
    var g := rows[p].parent;
    if g.Some? && g.value in rows {
      CompletionStopsAtParent(rows, p);
      Incomplete(rows, g.value);
      assert JobChanged(rows, Completed(rows, p)) == UpdateParent(rows, g.value);
    }
  }

  /** What the report does to the parent itself, exactly. */
  lemma ParentStatus(rows: Rows, p: JobId)
    requires p in rows && rows[p].status == Waiting
    ensures UpdateParent(rows, p)[p].status ==
      if AllChildrenFinal(rows, p) then (if SomeChildFailed(rows, p) then Failed else Success) else Waiting
  {
    CountingMeansAllFinal(rows, p);
    if Completes(rows, p) {
      Complete(rows, p);
    } else {
      Incomplete(rows, p);
    }
  }

  /** One report changes the status of at most the direct parent: beyond it, the grandparent's
      row gets new progress at most, and no other row is touched. */
  lemma OnlyTheParent(rows: Rows, job: Job, id: JobId)
    requires id in rows && job.parent != Some(id)
    ensures var r := JobChanged(rows, job)[id]; r == rows[id].(progress := r.progress)
    ensures JobChanged(rows, job)[id] != rows[id] ==>
      job.parent.Some? && job.parent.value in rows && rows[job.parent.value].parent == Some(id)
  {
    if job.parent.Some? && job.parent.value in rows {
      var p := job.parent.value;
      if Completes(rows, p) {
        Complete(rows, p);
      } else {
        Incomplete(rows, p);
      }
    }
  }

  /** The progress text counts the children: successes, failures and all of them. */
  lemma ProgressCounts(rows: Rows, p: JobId)
    requires p in rows && rows[p].status == Waiting
    ensures UpdateParent(rows, p)[p].progress == Counts(
      |set c | c in rows && rows[c].parent == Some(p) && rows[c].status == Success|,
      |set c | c in rows && rows[c].parent == Some(p) && rows[c].status == Failed|,
      |set c | c in rows && rows[c].parent == Some(p)|)
  {
    assert ChildrenIn(rows, p, Success) == set c | c in rows && rows[c].parent == Some(p) && rows[c].status == Success;
    assert ChildrenIn(rows, p, Failed) == set c | c in rows && rows[c].parent == Some(p) && rows[c].status == Failed;
    assert Children(rows, p) == set c | c in rows && rows[c].parent == Some(p);
  }

  /** The row of a reported job takes the report's progress, status and exception, and nothing else
      of it changes; only a job that yields and is its own grandparent is counted anew. */
  lemma ReportedRow(t: Table, r: Report)
    requires KeysIssued(t) && r.id in t.rows
    ensures var row, u := t.rows[r.id].(progress := Text(r.progress)), Absorb(t, r).rows;
      r.id in u &&
      match r.outcome
      case Succeeded => u[r.id] == row.(status := Success)
      case Raised(e) => u[r.id] == row.(status := Failed, exception := Some(e))
      case Yielded(_) =>
        && u[r.id] == row.(status := Waiting, progress := u[r.id].progress)
        && (row.parent != Some(r.id)
            && (row.parent.Some? && row.parent.value in t.rows ==> t.rows[row.parent.value].parent != Some(r.id))
            && (row.parent.Some? ==> row.parent.value < t.nextId)
            ==> u[r.id] == row.(status := Waiting))
  {
    var spawned := Spawn(t, r.id, t.rows[r.id], ReportChildren(r));
    SpawnEffect(t, r.id, t.rows[r.id], ReportChildren(r));
    var job := Reported(t.rows[r.id], r);
    var rows := spawned.rows[r.id := job];
    assert Evolves(job, JobChanged(rows, job)[r.id]);
    if r.outcome.Yielded? {
      if job.parent == Some(r.id) {
        assert r.id in Children(rows, r.id);
        ParentStatus(rows, r.id);
      } else {
        OnlyTheParent(rows, job, r.id);
      }
    }
  }

  /** A parent that completes never completes its own waiting parent, whatever the table. */
  lemma GrandparentLeftWaiting(rows: Rows, p: JobId, g: JobId)
    requires Completes(rows, p) && rows[p].parent == Some(g)
    requires g in rows && rows[g].status == Waiting
    ensures Final(UpdateParent(rows, p)[p].status)
    ensures UpdateParent(rows, p)[g].status == Waiting
  {
    Complete(rows, p);
  }

  // ---- A family of jobs ----

  /** p waits for kids, its children, none of which has an end yet or is itself waiting. */
  ghost predicate Family(t: Table, p: JobId, kids: set<JobId>) {
    && KeysIssued(t) && p in t.rows && t.rows[p].status == Waiting
    && kids == Children(t.rows, p) && kids != {}
    && forall k :: k in kids ==> !Final(t.rows[k].status) && t.rows[k].status != Waiting
  }

  /** Reports in any order, mixed with reports of other jobs: each kid at most once and never
      yielding, and none of p. */
  ghost predicate FamilyReports(t: Table, p: JobId, kids: set<JobId>, reports: seq<Report>) {
    && (forall i :: 0 <= i < |reports| ==> reports[i].id < t.nextId && reports[i].id != p)
    && (forall i :: 0 <= i < |reports| && reports[i].id in kids ==> !reports[i].outcome.Yielded?)
    && (forall i, j :: 0 <= i < j < |reports| && reports[i].id in kids ==> reports[i].id != reports[j].id)
  }

  predicate RaisedIn(reports: seq<Report>, kids: set<JobId>) {
    exists i :: 0 <= i < |reports| && reports[i].id in kids && reports[i].outcome.Raised?
  }

  predicate FailedReport(reports: seq<Report>, k: JobId) {
    exists i :: 0 <= i < |reports| && reports[i].id == k && reports[i].outcome.Raised?
  }

  /** The table after some of the reports. */
  ghost predicate Progressed(t: Table, u: Table, p: JobId, kids: set<JobId>, reports: seq<Report>) {
    && KeysIssued(u) && t.nextId <= u.nextId && p in u.rows && Children(u.rows, p) == kids
    && (forall k :: k in kids ==> KidStatus(t, u.rows, reports, k))
    && u.rows[p].status == ParentOutcome(kids, reports)
  }

  predicate KidStatus(t: Table, rows: Rows, reports: seq<Report>, k: JobId) {
    && k in t.rows && k in rows
    && rows[k].status ==
         if k in ReportIds(reports) then (if FailedReport(reports, k) then Failed else Success) else t.rows[k].status
  }

  function ParentOutcome(kids: set<JobId>, reports: seq<Report>): Status {
    if kids <= ReportIds(reports) then (if RaisedIn(reports, kids) then Failed else Success) else Waiting
  }

  /** The last step of a kid's report: its row is saved, then the parent is rolled up. */
  lemma KidRollUp(t: Table, rows: Rows, p: JobId, kids: set<JobId>, all: seq<Report>)
    requires Family(t, p, kids) && p in rows && rows[p].status == Waiting && Children(rows, p) == kids
    requires forall k :: k in kids ==> KidStatus(t, rows, all, k)
    ensures var r := UpdateParent(rows, p);
      && r[p].status == ParentOutcome(kids, all) && Children(r, p) == kids
      && forall k :: k in kids ==> KidStatus(t, r, all, k)
  {
    var r := UpdateParent(rows, p);
    ParentStatus(rows, p);
    SameChildren(rows, r, p);
    assert AllChildrenFinal(rows, p) <==> kids <= ReportIds(all);
    if kids <= ReportIds(all) {
      FailedMeansRaised(rows, kids, all);
    }
    forall k | k in kids ensures KidStatus(t, r, all, k) {
      assert KidStatus(t, rows, all, k) && Evolves(rows[k], r[k]);
    }
  }

  lemma KidReport(t: Table, u: Table, p: JobId, kids: set<JobId>, most: seq<Report>, r: Report)
    requires Family(t, p, kids) && FamilyReports(t, p, kids, most + [r])
    requires Progressed(t, u, p, kids, most) && r.id in kids
    ensures Progressed(t, Absorb(u, r), p, kids, most + [r])
  {
    var all := most + [r];
    assert all[|most|] == r && forall i :: 0 <= i < |most| ==> all[i] == most[i];
    assert r.id !in ReportIds(most);
    ReportsGrow(most, r);
    assert KidStatus(t, u.rows, most, r.id);
    var rows := u.rows[r.id := Reported(u.rows[r.id], r)];
    assert Absorb(u, r) == Table(UpdateParent(rows, p), u.nextId);
    SameChildren(u.rows, rows, p);
    forall k | k in kids ensures KidStatus(t, rows, all, k) {
      assert KidStatus(t, u.rows, most, k);
    }
    KidRollUp(t, rows, p, kids, all);
  }

  lemma FailedMeansRaised(rows: Rows, kids: set<JobId>, all: seq<Report>)
    requires forall k :: k in kids ==> k in rows && rows[k].status == if FailedReport(all, k) then Failed else Success
    ensures (exists k :: k in kids && rows[k].status == Failed) <==> RaisedIn(all, kids)
  {
    if RaisedIn(all, kids) {
      var i :| 0 <= i < |all| && all[i].id in kids && all[i].outcome.Raised?;
      assert FailedReport(all, all[i].id);
    }
  }

  lemma ReportsGrow(most: seq<Report>, r: Report)
    ensures ReportIds(most + [r]) == ReportIds(most) + {r.id}
    ensures forall k :: k != r.id ==> (FailedReport(most + [r], k) <==> FailedReport(most, k))
    ensures r.id !in ReportIds(most) ==> (FailedReport(most + [r], r.id) <==> r.outcome.Raised?)
    ensures forall kids: set<JobId> :: r.id !in kids ==> (RaisedIn(most + [r], kids) <==> RaisedIn(most, kids))
  {
    var all := most + [r];
    assert all[|most|] == r && forall i :: 0 <= i < |most| ==> all[i] == most[i];
    forall k | FailedReport(most, k) ensures FailedReport(all, k) {
      var i :| 0 <= i < |most| && most[i].id == k && most[i].outcome.Raised?;
      assert all[i].id == k;
    }
    forall kids: set<JobId> | RaisedIn(most, kids) ensures RaisedIn(all, kids) {
      var i :| 0 <= i < |most| && most[i].id in kids && most[i].outcome.Raised?;
      assert all[i].id in kids;
    }
  }

  lemma SameChildren(a: Rows, b: Rows, p: JobId)
    requires a.Keys == b.Keys && forall id :: id in a ==> a[id].parent == b[id].parent
    ensures Children(a, p) == Children(b, p)
  {
  }

  /** A report of some other job leaves the family's statuses as they are. */
  lemma OtherReportKeeps(u: Table, p: JobId, kids: set<JobId>, r: Report)
    requires KeysIssued(u) && p in u.rows && Children(u.rows, p) == kids
    requires r.id !in kids && r.id != p && r.id in u.rows
    requires forall k :: k in kids ==> u.rows[k].status != Waiting
    ensures var v := Absorb(u, r).rows;
      && Children(v, p) == kids && p in v && v[p].status == u.rows[p].status
      && forall k :: k in kids ==> v[k].status == u.rows[k].status
  {
    var spawned := Spawn(u, r.id, u.rows[r.id], ReportChildren(r));
    SpawnEffect(u, r.id, u.rows[r.id], ReportChildren(r));
    var job := Reported(u.rows[r.id], r);
    var rows := spawned.rows[r.id := job];
    assert Children(rows, p) == kids;
    SameChildren(rows, JobChanged(rows, job), p);
    assert job.parent != Some(p) by { assert r.id !in Children(u.rows, p); }
    OnlyTheParent(rows, job, p);
    forall k | k in kids ensures JobChanged(rows, job)[k].status == u.rows[k].status {
      assert Evolves(rows[k], JobChanged(rows, job)[k]);
    }
  }

  lemma OtherReport(t: Table, u: Table, p: JobId, kids: set<JobId>, most: seq<Report>, r: Report)
    requires Family(t, p, kids) && FamilyReports(t, p, kids, most + [r])
    requires Progressed(t, u, p, kids, most) && r.id !in kids
    ensures Progressed(t, Absorb(u, r), p, kids, most + [r])
  {
    assert (most + [r])[|most|] == r;
    ReportsGrow(most, r);
    assert kids <= ReportIds(most + [r]) <==> kids <= ReportIds(most);
    AbsorbEffect(u, r);
    forall k | k in kids ensures u.rows[k].status != Waiting && KidStatus(t, u.rows, most + [r], k) {
      assert KidStatus(t, u.rows, most, k);
    }
    if r.id in u.rows {
      OtherReportKeeps(u, p, kids, r);
      forall k | k in kids ensures KidStatus(t, Absorb(u, r).rows, most + [r], k) {
        assert KidStatus(t, u.rows, most + [r], k);
      }
    }
  }

  lemma {:induction false} FamilyProgress(t: Table, p: JobId, kids: set<JobId>, reports: seq<Report>)
    requires Family(t, p, kids) && FamilyReports(t, p, kids, reports)
    ensures Progressed(t, AbsorbAll(t, reports), p, kids, reports)
  {
    if reports != [] {
      var most, r := reports[..|reports| - 1], reports[|reports| - 1];
      assert reports == most + [r];
      FamilyProgress(t, p, kids, most);
      if r.id in kids {
        KidReport(t, AbsorbAll(t, most), p, kids, most, r);
      } else {
        OtherReport(t, AbsorbAll(t, most), p, kids, most, r);
      }
    }
  }

  /** A waiting parent stays waiting until the last of its children has reported, in whatever
      order they report and whatever else is reported in between; then it has failed if and
      only if some child failed. */
  lemma ParentFollowsChildren(t: Table, p: JobId, kids: set<JobId>, reports: seq<Report>)
    requires Family(t, p, kids) && FamilyReports(t, p, kids, reports)
    ensures var u := AbsorbAll(t, reports);
      p in u.rows && u.rows[p].status ==
        (if kids <= ReportIds(reports) then (if RaisedIn(reports, kids) then Failed else Success) else Waiting)
  {
    FamilyProgress(t, p, kids, reports);
  }

  // ---- The order of lost jobs ----

  /** Four rows: 1 is the parent of 2 and 3, and 2 of 4. */
  predicate Shape(rows: Rows) {
    && rows.Keys == {1, 2, 3, 4}
    && rows[1].parent == None && rows[2].parent == Some(1) && rows[3].parent == Some(1) && rows[4].parent == Some(2)
  }

  lemma FailInOrder(rows: Rows, a: JobId, b: JobId)
    ensures FailAll(rows, [a, b]) == FailOne(FailOne(rows, a), b)
  {
    assert [a, b][..1] == [a];
    assert [a][..0] == [];
    assert FailAll(rows, [a]) == FailOne(FailAll(rows, []), a);
  }

  /** Failing 4, the only child of 2, completes 2 and nothing else. */
  lemma FailFour(rows: Rows)
    requires Shape(rows) && rows[1].status == Waiting && rows[2].status == Waiting
    ensures var r := FailOne(rows, 4);
      && Shape(r) && r[1].status == Waiting && r[2].status == Failed
      && r[3].status == rows[3].status && r[4].status == Failed
  {
    var c := rows[4 := rows[4].(status := Failed)];
    assert Children(c, 2) == {4};
    assert SomeChildFailed(c, 2) by { assert 4 in Children(c, 2); }
    CountingMeansAllFinal(c, 2);
    Complete(c, 2);
  }

  /** Failing 3 completes 1 if 2 has its end. */
  lemma FailThree(rows: Rows)
    requires Shape(rows) && rows[1].status == Waiting
    ensures var r := FailOne(rows, 3);
      Shape(r) && r[1].status == (if Final(rows[2].status) then Failed else Waiting)
      && r[2].status == rows[2].status && r[3].status == Failed && r[4].status == rows[4].status
  {
    var c := rows[3 := rows[3].(status := Failed)];
    assert Children(c, 1) == {2, 3};
    assert SomeChildFailed(c, 1) by { assert 3 in Children(c, 1); }
    assert AllChildrenFinal(c, 1) <==> Final(c[2].status);
    ParentStatus(c, 1);
    OnlyTheParent(c, c[3], 2);
    OnlyTheParent(c, c[3], 3);
    OnlyTheParent(c, c[3], 4);
  }

  lemma EldersChildren(rows: Rows)
    requires Shape(rows) && Final(rows[2].status) && Final(rows[3].status)
    ensures AllChildrenFinal(rows, 1)
  {
    assert Children(rows, 1) == {2, 3};
  }

  /** The order in which the query returns two lost jobs, 3 and 4, decides the outcome for their
      waiting elders: failing 4 first lets 3 complete the grandparent. */
  lemma GrandchildFirst(rows: Rows)
    requires Shape(rows) && rows[1].status == Waiting && rows[2].status == Waiting
    ensures FailAll(rows, [4, 3])[1].status == Failed
  {
    FailInOrder(rows, 4, 3);
    FailFour(rows);
    FailThree(FailOne(rows, 4));
  }

  /** Failing 3 first leaves the grandparent waiting although both its children have ended. */
  lemma ChildFirst(rows: Rows)
    requires Shape(rows) && rows[1].status == Waiting && rows[2].status == Waiting
    ensures var r := FailAll(rows, [3, 4]); r[1].status == Waiting && AllChildrenFinal(r, 1)
  {
    FailInOrder(rows, 3, 4);
    FailThree(rows);
    FailFour(FailOne(rows, 3));
    EldersChildren(FailOne(FailOne(rows, 3), 4));
  }
}
