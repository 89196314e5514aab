/** How results reach a waiting parent over whole reliable runs: its children are published,
    reserved, marked, killed and reported by any heartbeats in any order, with every other step
    of the farm in between. */
module FamilyRuns {
  import opened Wrappers
  import opened JobTable
  import opened Reports
  import opened Admin
  import opened Scheduler
  import opened Heartbeat
  import opened JobClient
  import opened Agreement
  import opened Farm
  import opened ReliableFarm
  import opened RollUp

  /** p is in step with kids, its children: none of them waits for children of its own, and p
      waits if and only if one of them has no end yet, and otherwise failed if and only if one
      of them did. */
  predicate InStep(rows: Rows, p: JobId, kids: set<JobId>) {
    && p in rows && Children(rows, p) == kids && kids != {}
    && (forall k :: k in kids ==> rows[k].status != Waiting)
    && rows[p].status ==
         if AllChildrenFinal(rows, p) then (if SomeChildFailed(rows, p) then Failed else Success) else Waiting
  }

  /** The step reports job k finished. */
  predicate Reporting(step: Step, k: JobId) {
    step.Request? && k in FinishedIds(step.p)
  }

  /** The step reports job k finished, and its last word is a failure. */
  predicate ReportingFailure(step: Step, k: JobId) {
    Reporting(step, k) && LastOutcome(step.p.finished.value, k).value.Raised?
  }

  predicate NoYield(reports: seq<Report>, kids: set<JobId>) {
    forall r :: r in reports && r.id in kids ==> !r.outcome.Yielded?
  }

  predicate YieldsNoKid(step: Step, kids: set<JobId>) {
    step.Request? && step.p.finished.Some? ==> NoYield(step.p.finished.value, kids)
  }

  /** How a family gets into step, and exactly when it does not: after the report with which p
      yields, p waits for its children unless there are none, one of them waits itself, or all of
      them have already ended. In the last case p is left waiting: no child is left to report. */
  lemma InStepAfterYield(t: Table, r: Report)
    requires KeysIssued(t) && r.id in t.rows && r.outcome.Yielded?
    ensures var rows := Absorb(t, r).rows;
      && r.id in rows && rows[r.id].status == Waiting
      && (InStep(rows, r.id, Children(rows, r.id)) <==>
            && Children(rows, r.id) != {}
            && (forall k :: k in Children(rows, r.id) ==> rows[k].status != Waiting)
            && exists k :: k in Children(rows, r.id) && !Final(rows[k].status))
  {
    var spawned := Spawn(t, r.id, t.rows[r.id], ReportChildren(r));
    var job := Reported(t.rows[r.id], r);
    var rows := spawned.rows[r.id := job];
    SpawnEffect(t, r.id, t.rows[r.id], ReportChildren(r));
    if job.parent == Some(r.id) {
      assert r.id in Children(rows, r.id);
      ParentStatus(rows, r.id);
    } else {
      OnlyTheParent(rows, job, r.id);
    }
  }

  // ---- Changes that leave a family in step ----

  /** The same family, no end given or taken. */
  predicate SameEnds(a: Rows, b: Rows, p: JobId, kids: set<JobId>)
    requires p in a && kids <= a.Keys
  {
    && p in b && b[p].status == a[p].status && Children(b, p) == kids
    && forall k :: k in kids ==> k in b && b[k].status != Waiting && KeepsEnd(a[k].status, b[k].status)
  }

  predicate KeepsEnd(a: Status, b: Status) {
    (Final(a) || Final(b)) ==> a == b
  }

  lemma StaysInStep(a: Rows, b: Rows, p: JobId, kids: set<JobId>)
    requires InStep(a, p, kids) && SameEnds(a, b, p, kids)
    ensures InStep(b, p, kids)
  {
    assert forall k :: k in kids ==> KeepsEnd(a[k].status, b[k].status);
    assert AllChildrenFinal(a, p) <==> AllChildrenFinal(b, p);
    if AllChildrenFinal(a, p) {
      assert forall k :: k in kids ==> a[k].status == b[k].status;
      assert SomeChildFailed(a, p) <==> SomeChildFailed(b, p);
    }
  }

  lemma MarkKeepsFamily(rows: Rows, payload: Payload, p: JobId, kids: set<JobId>)
    requires InStep(rows, p, kids)
    requires forall id :: id in rows && id in MarkedIds(payload) ==> Active(rows[id].status)
    ensures InStep(MarkReported(rows, payload), p, kids)
  {
    var marked := MarkReported(rows, payload);
    MarkReportedEffect(rows, payload);
    assert MarkedAs(rows[p], marked[p], p in MarkedIds(payload));
    SameParents(rows, marked, p);
    forall k | k in kids ensures marked[k].status != Waiting && KeepsEnd(rows[k].status, marked[k].status) {
      assert MarkedAs(rows[k], marked[k], k in MarkedIds(payload));
    }
    StaysInStep(rows, marked, p, kids);
  }

  lemma SameParents(a: Rows, b: Rows, p: JobId)
    requires a.Keys == b.Keys && forall id :: id in a ==> SameRequest(a[id], b[id])
    ensures Children(a, p) == Children(b, p)
  {
    SameChildren(a, b, p);
  }

  /** The report of a child that has no end yet: its row, and its parent if it was the last. */
  lemma KidReportKeepsFamily(t: Table, r: Report, p: JobId, kids: set<JobId>)
    requires KeysIssued(t) && InStep(t.rows, p, kids)
    requires r.id in kids && !Final(t.rows[r.id].status) && !r.outcome.Yielded?
    ensures InStep(Absorb(t, r).rows, p, kids)
  {
    var rows := t.rows[r.id := Reported(t.rows[r.id], r)];
    var after := UpdateParent(rows, p);
    assert Absorb(t, r).rows == after;
    assert t.rows[p].status == Waiting;
    SameChildren(t.rows, rows, p);
    SameChildren(rows, after, p);
    ParentStatus(rows, p);
    forall k | k in kids ensures after[k].status == rows[k].status != Waiting {
      assert Evolves(rows[k], after[k]);
    }
    SameFamily(rows, after, p);
  }

  lemma SameFamily(a: Rows, b: Rows, p: JobId)
    requires Children(a, p) == Children(b, p) && forall k :: k in Children(a, p) ==> a[k].status == b[k].status
    ensures AllChildrenFinal(a, p) <==> AllChildrenFinal(b, p)
    ensures SomeChildFailed(a, p) <==> SomeChildFailed(b, p)
  {
  }

  lemma OtherReportKeepsFamily(t: Table, r: Report, p: JobId, kids: set<JobId>)
    requires KeysIssued(t) && InStep(t.rows, p, kids) && r.id !in kids && r.id != p
    ensures InStep(Absorb(t, r).rows, p, kids)
  {
    if r.id in t.rows {
      OtherReportKeeps(t, p, kids, r);
      StaysInStep(t.rows, Absorb(t, r).rows, p, kids);
    }
  }

  lemma {:induction false} ReportsKeepFamily(t: Table, reports: seq<Report>, p: JobId, kids: set<JobId>)
    requires KeysIssued(t) && InStep(t.rows, p, kids)
    requires DistinctReports(reports) && p !in ReportIds(reports) && NoYield(reports, kids)
    requires forall k :: k in kids && k in ReportIds(reports) ==> !Final(t.rows[k].status)
    ensures InStep(AbsorbAll(t, reports).rows, p, kids)
  {
    if reports != [] {
      var most, last := reports[..|reports| - 1], reports[|reports| - 1];
      var u := AbsorbAll(t, most);
      assert reports == most + [last];
      IdsOfMore(most, last);
      ReportsKeepFamily(t, most, p, kids);
      AbsorbAllEffect(t, most);
      if last.id in kids {
        assert last.id !in ReportIds(most);
        assert AbsorbedAs(t.rows[last.id], u.rows[last.id], false);
        KidReportKeepsFamily(u, last, p, kids);
      } else {
        OtherReportKeepsFamily(u, last, p, kids);
      }
    }
  }

  // ---- The steps of a reliable run ----

  /** What a reliable request's payload does before the scheduler, and that it names active jobs. */
  lemma RequestAbsorbs(s: State, step: Step, u: State)
    requires Inv(s) && ReliableRequest(step) && Next(s, step, u)
    ensures Mid(s, step) == AfterReports(s.table, step.p, []).rows
    ensures step.p.finished.Some? && DistinctReports(step.p.finished.value)
    ensures NamesActive(s.table.rows, step.p)
  {
    RequestFacts(s, step, u);
    NothingLost(s, step, u);
    forall id | id in ReportedIds(step.p) ensures id in ActiveOn(s.table.rows, step.n) {
    }
  }

  predicate NamesActive(rows: Rows, payload: Payload) {
    forall id :: id in ReportedIds(payload) ==> id in rows && Active(rows[id].status)
  }

  lemma PayloadKeepsFamily(t: Table, payload: Payload, p: JobId, kids: set<JobId>)
    requires KeysIssued(t) && InStep(t.rows, p, kids) && NamesActive(t.rows, payload)
    requires payload.finished.Some? && DistinctReports(payload.finished.value) && NoYield(payload.finished.value, kids)
    ensures InStep(AfterReports(t, payload, []).rows, p, kids)
  {
    var marked := t.(rows := MarkReported(t.rows, payload));
    MarkReportedEffect(t.rows, payload);
    MarkKeepsFamily(t.rows, payload, p, kids);
    forall k | k in kids && k in FinishedIds(payload) ensures !Final(marked.rows[k].status) {
      assert MarkedAs(t.rows[k], marked.rows[k], k in MarkedIds(payload));
    }
    ReportsKeepFamily(marked, payload.finished.value, p, kids);
  }

  /** The scheduler's part: at most one ready row is reserved. */
  predicate Reserves(mid: Rows, n: NodeId, pick: Option<JobId>, rows: Rows) {
    match pick
    case None => rows == mid
    case Some(j) => j in mid && mid[j].status == Ready && rows == mid[j := Taken(mid[j], n)]
  }

  lemma RequestReserves(s: State, step: Step, u: State)
    requires Inv(s) && ReliableRequest(step) && Next(s, step, u)
    ensures Reserves(Mid(s, step), step.n, step.ch.pick, u.table.rows)
  {
    RequestRows(s, step, u);
  }

  lemma ReservingKeepsFamily(mid: Rows, n: NodeId, pick: Option<JobId>, rows: Rows, p: JobId, kids: set<JobId>)
    requires Reserves(mid, n, pick, rows) && InStep(mid, p, kids)
    ensures InStep(rows, p, kids)
  {
    SameChildren(mid, rows, p);
    StaysInStep(mid, rows, p, kids);
  }

  lemma RequestKeepsFamily(s: State, step: Step, u: State, p: JobId, kids: set<JobId>)
    requires Inv(s) && ReliableRequest(step) && Next(s, step, u)
    requires InStep(s.table.rows, p, kids) && YieldsNoKid(step, kids)
    ensures InStep(u.table.rows, p, kids)
  {
    RequestAbsorbs(s, step, u);
    PayloadKeepsFamily(s.table, step.p, p, kids);
    RequestReserves(s, step, u);
    ReservingKeepsFamily(Mid(s, step), step.n, step.ch.pick, u.table.rows, p, kids);
  }

  /** A waiting or ended job has no process that could launch another child. */
  lemma TableStepKeepsFamily(s: State, step: Step, u: State, p: JobId, kids: set<JobId>)
    requires Inv(s) && Reliable(s, step) && Next(s, step, u) && TableStep(step) && InStep(s.table.rows, p, kids)
    ensures InStep(u.table.rows, p, kids)
  {
    if step.Launch? && step.job.parent == Some(p) {
      var n :| n in s.nodes && p in s.nodes[n].client.running;
      RunningIsActive(s, n, p);
      assert false;
    }
    TableStepSameEnds(s, step, u, p, kids);
    StaysInStep(s.table.rows, u.table.rows, p, kids);
  }

  lemma TableStepSameEnds(s: State, step: Step, u: State, p: JobId, kids: set<JobId>)
    requires KeysIssued(s.table) && Next(s, step, u) && TableStep(step) && InStep(s.table.rows, p, kids)
    requires step.Launch? ==> step.job.parent != Some(p)
    ensures SameEnds(s.table.rows, u.table.rows, p, kids)
  {
    var rows := s.table.rows;
    match step
    case Launch(job) => LaunchSameEnds(s.table, job, p, kids);
    case Attach(id, dependencies, tags) =>
      OneRowSameEnds(rows, id, rows[id].(dependencies := dependencies, tags := tags), p, kids);
    case Publish(id) => OneRowSameEnds(rows, id, rows[id].(status := Ready), p, kids);
    case KillJob(id) =>
      if rows[id].status == Running {
        OneRowSameEnds(rows, id, rows[id].(status := Terminating), p, kids);
      }
  }

  lemma OneRowSameEnds(rows: Rows, id: JobId, job: Job, p: JobId, kids: set<JobId>)
    requires InStep(rows, p, kids) && id in rows && job.parent == rows[id].parent
    requires rows[id].status != Waiting && !Final(rows[id].status) && job.status != Waiting && !Final(job.status)
    ensures SameEnds(rows, rows[id := job], p, kids)
  {
    SameChildren(rows, rows[id := job], p);
  }

  lemma LaunchSameEnds(t: Table, job: Job, p: JobId, kids: set<JobId>)
    requires KeysIssued(t) && InStep(t.rows, p, kids) && job.parent != Some(p)
    ensures SameEnds(t.rows, Insert(t, job).rows, p, kids)
  {
    assert Children(Insert(t, job).rows, p) == kids;
  }

  lemma StepKeepsFamily(s: State, step: Step, u: State, p: JobId, kids: set<JobId>)
    requires Inv(s) && Reliable(s, step) && Next(s, step, u)
    requires InStep(s.table.rows, p, kids) && YieldsNoKid(step, kids)
    ensures InStep(u.table.rows, p, kids)
  {
    if step.Request? {
      RequestKeepsFamily(s, step, u, p, kids);
    } else if TableStep(step) {
      TableStepKeepsFamily(s, step, u, p, kids);
    }
  }

  /** Over any stretch of any reliable run in which no kid yields, a family in step stays in
      step: the parent waits exactly as long as a kid has no end, and then failed if and only
      if a kid did. */
  lemma {:induction false} FamilyStaysInStep(states: seq<State>, steps: seq<Step>, i: nat, j: nat, p: JobId,
                                             kids: set<JobId>)
    requires IsReliableRun(states, steps) && i <= j < |states| && InStep(states[i].table.rows, p, kids)
    requires forall m :: i <= m < j ==> YieldsNoKid(steps[m], kids)
    ensures InStep(states[j].table.rows, p, kids)
    decreases j
  {
    if i < j {
      FamilyStaysInStep(states, steps, i, j - 1, p, kids);
      RunStepKeepsFamily(states, steps, j - 1, p, kids);
    }
  }

  lemma RunStepKeepsFamily(states: seq<State>, steps: seq<Step>, m: nat, p: JobId, kids: set<JobId>)
    requires IsReliableRun(states, steps) && m + 1 < |states|
    requires InStep(states[m].table.rows, p, kids) && YieldsNoKid(steps[m], kids)
    ensures InStep(states[m + 1].table.rows, p, kids)
  {
    InvAlways(states, steps, m);
    StepKeepsFamily(states[m], steps[m], states[m + 1], p, kids);
  }

  // ---- Which reports end the children ----

  lemma {:induction false} LastOutcomeReported(reports: seq<Report>, id: JobId)
    requires id in ReportIds(reports)
    ensures exists r :: r in reports && r.id == id && r.outcome == LastOutcome(reports, id).value
  {
    var most, last := reports[..|reports| - 1], reports[|reports| - 1];
    assert reports == most + [last] && last in reports;
    IdsOfMore(most, last);
    if last.id != id {
      LastOutcomeReported(most, id);
    }
  }

  /** In one step: a kid with no end gets one exactly if it is reported, failed exactly if the
      report says so; an end stays, and the kid is not reported again. */
  predicate KidMoves(a: Status, b: Status, step: Step, k: JobId) {
    if Final(a) then b == a && !Reporting(step, k)
    else b != Waiting && (Final(b) <==> Reporting(step, k)) && (b == Failed <==> ReportingFailure(step, k))
  }

  lemma ReportedKidEnds(t: Table, payload: Payload, k: JobId)
    requires KeysIssued(t) && k in t.rows && payload.finished.Some? && k in FinishedIds(payload)
    requires NoYield(payload.finished.value, {k})
    ensures var mid := AfterReports(t, payload, []).rows;
      && k in mid && Final(mid[k].status)
      && (mid[k].status == Failed <==> LastOutcome(payload.finished.value, k).value.Raised?)
  {
    var reports := payload.finished.value;
    LastOutcomeReported(reports, k);
    LastReportDecides(t.(rows := MarkReported(t.rows, payload)), reports, k);
  }

  lemma ReportedKidMoves(s: State, step: Step, u: State, k: JobId)
    requires Inv(s) && ReliableRequest(step) && Next(s, step, u) && k in s.table.rows && Reporting(step, k)
    requires YieldsNoKid(step, {k})
    ensures k in u.table.rows && KidMoves(s.table.rows[k].status, u.table.rows[k].status, step, k)
  {
    RequestAbsorbs(s, step, u);
    ReportedKidEnds(s.table, step.p, k);
    RequestReserves(s, step, u);
    EndStays(Mid(s, step), step.n, step.ch.pick, u.table.rows, k);
    NamedIsActive(s.table.rows, step.p, k);
  }

  lemma EndStays(mid: Rows, n: NodeId, pick: Option<JobId>, rows: Rows, k: JobId)
    requires Reserves(mid, n, pick, rows) && k in mid && Final(mid[k].status)
    ensures k in rows && rows[k].status == mid[k].status
  {
  }

  lemma NamedIsActive(rows: Rows, payload: Payload, k: JobId)
    requires NamesActive(rows, payload) && k in FinishedIds(payload)
    ensures k in rows && !Final(rows[k].status)
  {
    assert k in ReportedIds(payload);
  }

  lemma UnreportedKid(t: Table, mid: Rows, kept: set<JobId>, done: set<JobId>, n: NodeId, pick: Option<JobId>,
                      rows: Rows, k: JobId)
    requires Turned(t, mid, kept, done, n, pick, rows) && k in t.rows && k !in done && t.rows[k].status != Waiting
    ensures k in rows && rows[k].status != Waiting && KeepsEnd(t.rows[k].status, rows[k].status)
  {
    assert MidOf(t, mid, kept, done, k);
    assert k in kept ==> k in ActiveOn(t.rows, n);
  }

  lemma UnreportedKidMoves(s: State, step: Step, u: State, k: JobId)
    requires Inv(s) && ReliableRequest(step) && Next(s, step, u) && k in s.table.rows && !Reporting(step, k)
    requires s.table.rows[k].status != Waiting
    ensures k in u.table.rows && KidMoves(s.table.rows[k].status, u.table.rows[k].status, step, k)
  {
    RequestTurns(s, step, u);
    UnreportedKid(s.table, Mid(s, step), Kept(step.p), FinishedIds(step.p), step.n, step.ch.pick, u.table.rows, k);
  }

  lemma TableStepMovesKid(s: State, step: Step, u: State, k: JobId)
    requires KeysIssued(s.table) && Next(s, step, u) && TableStep(step) && k in s.table.rows
    requires s.table.rows[k].status != Waiting
    ensures k in u.table.rows && u.table.rows[k].status != Waiting
    ensures KeepsEnd(s.table.rows[k].status, u.table.rows[k].status)
  {
  }

  lemma StepMovesKid(s: State, step: Step, u: State, k: JobId)
    requires Inv(s) && Reliable(s, step) && Next(s, step, u) && YieldsNoKid(step, {k})
    requires k in s.table.rows && s.table.rows[k].status != Waiting
    ensures k in u.table.rows && KidMoves(s.table.rows[k].status, u.table.rows[k].status, step, k)
  {
    if step.Request? {
      if Reporting(step, k) {
        ReportedKidMoves(s, step, u, k);
      } else {
        UnreportedKidMoves(s, step, u, k);
      }
    } else if TableStep(step) {
      TableStepMovesKid(s, step, u, k);
    }
  }

  lemma RunStepMovesKid(states: seq<State>, steps: seq<Step>, m: nat, k: JobId)
    requires IsReliableRun(states, steps) && m + 1 < |states| && YieldsNoKid(steps[m], {k})
    requires k in states[m].table.rows && states[m].table.rows[k].status != Waiting
    ensures k in states[m + 1].table.rows
    ensures KidMoves(states[m].table.rows[k].status, states[m + 1].table.rows[k].status, steps[m], k)
  {
    InvAlways(states, steps, m);
    StepMovesKid(states[m], steps[m], states[m + 1], k);
  }

  predicate ReportedIn(steps: seq<Step>, i: nat, j: nat, k: JobId)
    requires i <= j <= |steps|
  {
    exists m :: i <= m < j && Reporting(steps[m], k)
  }

  predicate RaisedIn(steps: seq<Step>, i: nat, j: nat, k: JobId)
    requires i <= j <= |steps|
  {
    exists m :: i <= m < j && ReportingFailure(steps[m], k)
  }

  lemma {:induction false} KidFate(states: seq<State>, steps: seq<Step>, i: nat, j: nat, k: JobId)
    requires IsReliableRun(states, steps) && i <= j < |states| && k in states[i].table.rows
    requires !Final(states[i].table.rows[k].status) && states[i].table.rows[k].status != Waiting
    requires forall m :: i <= m < j ==> YieldsNoKid(steps[m], {k})
    ensures k in states[j].table.rows && states[j].table.rows[k].status != Waiting
    ensures Final(states[j].table.rows[k].status) <==> ReportedIn(steps, i, j, k)
    ensures states[j].table.rows[k].status == Failed <==> RaisedIn(steps, i, j, k)
    decreases j
  {
    if i < j {
      KidFate(states, steps, i, j - 1, k);
      RunStepMovesKid(states, steps, j - 1, k);
      OneMoreStep(steps, i, j, k);
    }
  }

  lemma OneMoreStep(steps: seq<Step>, i: nat, j: nat, k: JobId)
    requires i < j <= |steps|
    ensures ReportedIn(steps, i, j, k) <==> ReportedIn(steps, i, j - 1, k) || Reporting(steps[j - 1], k)
    ensures RaisedIn(steps, i, j, k) <==> RaisedIn(steps, i, j - 1, k) || ReportingFailure(steps[j - 1], k)
  {
  }

  /** Roll-up over runs. Take any reliable run, any parent waiting for kids none of which has an
      end, and any later state, with no kid yielding in between: the parent still waits until
      every kid has been reported, in whatever heartbeats of whatever nodes and in whatever
      order, and then has failed if and only if the report of some kid was a failure. */
  lemma RollUpOverRuns(states: seq<State>, steps: seq<Step>, i: nat, j: nat, p: JobId, kids: set<JobId>)
    requires IsReliableRun(states, steps) && i <= j < |states| && InStep(states[i].table.rows, p, kids)
    requires forall k :: k in kids ==> !Final(states[i].table.rows[k].status)
    requires forall m :: i <= m < j ==> YieldsNoKid(steps[m], kids)
    ensures p in states[j].table.rows && states[j].table.rows[p].status ==
      if forall k :: k in kids ==> ReportedIn(steps, i, j, k)
      then (if exists k :: k in kids && RaisedIn(steps, i, j, k) then Failed else Success)
      else Waiting
  {
    FamilyStaysInStep(states, steps, i, j, p, kids);
    forall k | k in kids
      ensures Final(states[j].table.rows[k].status) <==> ReportedIn(steps, i, j, k)
      ensures states[j].table.rows[k].status == Failed <==> RaisedIn(steps, i, j, k)
    {
      KidFate(states, steps, i, j, k);
    }
  }
}
