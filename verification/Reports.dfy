/** What a heartbeat's body does to the table: marking reported jobs running, absorbing
    finished reports, and failing jobs the node has lost. */
module Reports {
  import opened Wrappers
  import opened JobTable

  datatype ChildSpec = ChildSpec(jobClass: string, params: string, node: Option<NodeId>)

  datatype Outcome = Yielded(children: seq<ChildSpec>) | Succeeded | Raised(exception: string)

  datatype Report = Report(id: JobId, progress: string, outcome: Outcome)

  /** One heartbeat's body; a field the node leaves out is None. */
  datatype Payload = Payload(
    running: Option<seq<JobId>>,
    progress: Option<seq<(JobId, string)>>,
    finished: Option<seq<Report>>)

  function Ids(s: seq<JobId>): set<JobId> {
    set i | 0 <= i < |s| :: s[i]
  }

  function ReportIds(reports: seq<Report>): set<JobId> {
    set i | 0 <= i < |reports| :: reports[i].id
  }

  function ProgressIds(s: seq<(JobId, string)>): set<JobId> {
    set i | 0 <= i < |s| :: s[i].0
  }

  /** The ids the server marks running: the progress list wins over the plain list. */
  function MarkedIds(p: Payload): set<JobId> {
    match p.progress
    case Some(list) => ProgressIds(list)
    case None => if p.running.Some? then Ids(p.running.value) else {}
  }

  function FinishedIds(p: Payload): set<JobId> {
    if p.finished.Some? then ReportIds(p.finished.value) else {}
  }

  /** Matched by id alone, whatever node the row names; only a terminating job is passed over. */
  function Mark(rows: Rows, id: JobId, progress: Option<string>): (r: Rows)
    ensures r.Keys == rows.Keys
  {
    if id !in rows || rows[id].status == Terminating then rows
    else if progress.Some? then rows[id := rows[id].(status := Running, progress := Text(progress.value))]
    else rows[id := rows[id].(status := Running)]
  }

  function MarkProgress(rows: Rows, list: seq<(JobId, string)>): (r: Rows)
    ensures r.Keys == rows.Keys
  {
    if list == [] then rows else
    var most := list[..|list| - 1];
    var last := list[|list| - 1];
    Mark(MarkProgress(rows, most), last.0, Some(last.1))
  }

  /** The plain list is one UPDATE over all the rows it names. */
  function MarkPlain(rows: Rows, ids: set<JobId>): (r: Rows)
    ensures r.Keys == rows.Keys
  {
    map id | id in rows ::
      if id in ids && rows[id].status != Terminating then rows[id].(status := Running) else rows[id]
  }

  function MarkReported(rows: Rows, p: Payload): (r: Rows)
    ensures r.Keys == rows.Keys
  {
    match p.progress
    case Some(list) => MarkProgress(rows, list)
    case None => if p.running.Some? then MarkPlain(rows, Ids(p.running.value)) else rows
  }

  /** What marking leaves of a row: r is the row with at most its status and progress changed. */
  predicate MarkedAs(a: Job, b: Job, marked: bool) {
    && SameRequest(a, b) && a.exception == b.exception
    && b.status == (if marked && a.status != Terminating then Running else a.status)
    && (!marked ==> b == a)
  }

  lemma {:induction false} MarkProgressEffect(rows: Rows, list: seq<(JobId, string)>)
    ensures forall id :: id in rows ==> MarkedAs(rows[id], MarkProgress(rows, list)[id], id in ProgressIds(list))
  {
    if list != [] {
      var most, last := list[..|list| - 1], list[|list| - 1];
      MarkProgressEffect(rows, most);
      assert ProgressIds(list) == ProgressIds(most) + {last.0} by {
        assert forall i :: 0 <= i < |most| ==> list[i] == most[i];
      }
    }
  }

  lemma MarkReportedEffect(rows: Rows, p: Payload)
    ensures forall id :: id in rows ==> MarkedAs(rows[id], MarkReported(rows, p)[id], id in MarkedIds(p))
  {
    if p.progress.Some? {
      MarkProgressEffect(rows, p.progress.value);
    }
  }

  /** The last word of a progress list on a job decides its text, unless it is terminating. */
  lemma {:induction false} LastProgress(rows: Rows, list: seq<(JobId, string)>, k: nat)
    requires k < |list| && list[k].0 in rows && rows[list[k].0].status != Terminating
    requires forall j :: k < j < |list| ==> list[j].0 != list[k].0
    ensures var id := list[k].0;
      MarkProgress(rows, list)[id] == rows[id].(status := Running, progress := Text(list[k].1))
  {
    var most := list[..|list| - 1];
    if k < |most| {
      LastProgress(rows, most, k);
    } else {
      MarkProgressEffect(rows, most);
      assert MarkedAs(rows[list[k].0], MarkProgress(rows, most)[list[k].0], list[k].0 in ProgressIds(most));
    }
  }

  function ChildRow(parent: JobId, job: Job, spec: ChildSpec): Job {
    Job(Ready, spec.node, spec.jobClass, spec.params, Some(parent), {}, {},
        job.reqVersion, job.reqGpu, 50, NoProgress, None)
  }

  function Spawn(t: Table, parent: JobId, job: Job, specs: seq<ChildSpec>): (r: Table)
    ensures r.nextId == t.nextId + |specs|
  {
    if specs == [] then t else
    var most := Spawn(t, parent, job, specs[..|specs| - 1]);
    Table(most.rows[most.nextId := ChildRow(parent, job, specs[|specs| - 1])], most.nextId + 1)
  }

  /** The row asks for what its spec does, and for the version and GPU its parent asked for. */
  predicate IsChild(rows: Rows, id: JobId, parent: JobId, job: Job, spec: ChildSpec) {
    && id in rows
    && var row := rows[id];
    && row.status == Ready && row.parent == Some(parent)
    && row.jobClass == spec.jobClass && row.params == spec.params && row.node == spec.node
    && row.reqVersion == job.reqVersion && row.reqGpu == job.reqGpu && row.priority == 50
    && row.dependencies == {} && row.tags == {} && row.progress == NoProgress && row.exception == None
  }

  /** u is t with one row more for each spec, in order from the next key on. */
  predicate AddsChildren(t: Table, u: Table, parent: JobId, job: Job, specs: seq<ChildSpec>) {
    && u.nextId == t.nextId + |specs|
    && (forall i :: 0 <= i < |specs| ==> IsChild(u.rows, t.nextId + i, parent, job, specs[i]))
    && (forall id :: id in t.rows && !(t.nextId <= id < u.nextId) ==> id in u.rows && u.rows[id] == t.rows[id])
    && forall id :: id in u.rows ==> id in t.rows || t.nextId <= id < u.nextId
  }

  lemma {:induction false} SpawnAddsChildren(t: Table, parent: JobId, job: Job, specs: seq<ChildSpec>)
    ensures AddsChildren(t, Spawn(t, parent, job, specs), parent, job, specs)
  {
    if specs != [] {
      var most := specs[..|specs| - 1];
      SpawnAddsChildren(t, parent, job, most);
      assert specs == most + [specs[|specs| - 1]];
      OneChildMore(t, Spawn(t, parent, job, most), parent, job, most, specs[|specs| - 1]);
    }
  }

  lemma OneChildMore(t: Table, u: Table, parent: JobId, job: Job, most: seq<ChildSpec>, last: ChildSpec)
    requires AddsChildren(t, u, parent, job, most)
    ensures AddsChildren(t, Table(u.rows[u.nextId := ChildRow(parent, job, last)], u.nextId + 1), parent, job,
              most + [last])
  {
    var rows, specs := u.rows[u.nextId := ChildRow(parent, job, last)], most + [last];
    forall i | 0 <= i < |specs| ensures IsChild(rows, t.nextId + i, parent, job, specs[i]) {
      if i < |most| {
        assert IsChild(u.rows, t.nextId + i, parent, job, most[i]);
      }
    }
  }

  /** The row a report leaves behind. */
  function Reported(job: Job, r: Report): Job {
    match r.outcome
    case Yielded(_) => job.(progress := Text(r.progress), status := Waiting)
    case Succeeded => job.(progress := Text(r.progress), status := Success)
    case Raised(e) => job.(progress := Text(r.progress), status := Failed, exception := Some(e))
  }

  function ReportChildren(r: Report): seq<ChildSpec> {
    if r.outcome.Yielded? then r.outcome.children else []
  }

  function Absorb(t: Table, r: Report): Table {
    if r.id !in t.rows then t else
    var spawned := Spawn(t, r.id, t.rows[r.id], ReportChildren(r));
    var job := Reported(t.rows[r.id], r);
    Table(JobChanged(spawned.rows[r.id := job], job), spawned.nextId)
  }

  function AbsorbAll(t: Table, reports: seq<Report>): Table {
    if reports == [] then t else
    Absorb(AbsorbAll(t, reports[..|reports| - 1]), reports[|reports| - 1])
  }

  function AbsorbReported(t: Table, p: Payload): Table {
    if p.finished.Some? then AbsorbAll(t, p.finished.value) else t
  }

  /** A row as a batch of reports may leave it. */
  predicate AbsorbedAs(a: Job, b: Job, reported: bool) {
    && SameRequest(a, b)
    && if reported then b.status == Waiting || Final(b.status) else Evolves(a, b)
  }

  /** A row that a yielding report created. */
  predicate FreshChild(job: Job, parents: set<JobId>) {
    job.status == Ready && job.parent.Some? && job.parent.value in parents && job.dependencies == {}
  }

  /** The same, unless a later report of the batch already names the new row. */
  predicate AddedAs(job: Job, parents: set<JobId>, reported: bool) {
    && FreshChild(job.(status := Ready), parents)
    && (job.status == Ready || (reported && (job.status == Waiting || Final(job.status))))
  }

  /** How reports with the given ids move a table. */
  ghost predicate Absorbed(t: Table, u: Table, ids: set<JobId>) {
    && t.nextId <= u.nextId && KeysIssued(u)
    && (forall id :: id in t.rows ==> id in u.rows && AbsorbedAs(t.rows[id], u.rows[id], id in ids))
    && (forall id :: id in u.rows && id !in t.rows ==>
          t.nextId <= id && AddedAs(u.rows[id], ids * u.rows.Keys, id in ids))
  }

  lemma {:induction false} SpawnEffect(t: Table, parent: JobId, job: Job, specs: seq<ChildSpec>)
    requires KeysIssued(t)
    ensures var u := Spawn(t, parent, job, specs);
      && KeysIssued(u)
      && (forall id :: id in t.rows ==> id in u.rows && u.rows[id] == t.rows[id])
      && (forall id :: id in u.rows && id !in t.rows ==> t.nextId <= id && FreshChild(u.rows[id], {parent}))
  {
    if specs != [] {
      SpawnEffect(t, parent, job, specs[..|specs| - 1]);
    }
  }

  lemma AbsorbEffect(t: Table, r: Report)
    requires KeysIssued(t)
    ensures Absorbed(t, Absorb(t, r), {r.id})
  {
    if r.id in t.rows {
      SpawnEffect(t, r.id, t.rows[r.id], ReportChildren(r));
    }
  }

  lemma AbsorbedTwice(t: Table, u: Table, v: Table, a: set<JobId>, b: set<JobId>)
    requires Absorbed(t, u, a) && Absorbed(u, v, b)
    ensures Absorbed(t, v, a + b)
  {
    forall id | id in t.rows
      ensures id in v.rows && AbsorbedAs(t.rows[id], v.rows[id], id in a + b)
    {
      assert AbsorbedAs(t.rows[id], u.rows[id], id in a);
      assert AbsorbedAs(u.rows[id], v.rows[id], id in b);
    }
    forall id | id in v.rows && id !in t.rows
      ensures t.nextId <= id && AddedAs(v.rows[id], (a + b) * v.rows.Keys, id in a + b)
    {
      if id in u.rows {
        assert AddedAs(u.rows[id], a * u.rows.Keys, id in a);
        assert AbsorbedAs(u.rows[id], v.rows[id], id in b);
      } else {
        assert AddedAs(v.rows[id], b * v.rows.Keys, id in b);
      }
    }
  }

  lemma IdsOfMore(most: seq<Report>, last: Report)
    ensures ReportIds(most + [last]) == ReportIds(most) + {last.id}
  {
    var all := most + [last];
    assert all[|most|] == last && forall i :: 0 <= i < |most| ==> all[i] == most[i];
  }

  lemma {:induction false} AbsorbAllEffect(t: Table, reports: seq<Report>)
    requires KeysIssued(t)
    ensures Absorbed(t, AbsorbAll(t, reports), ReportIds(reports))
  {
    if reports != [] {
      var most, last := reports[..|reports| - 1], reports[|reports| - 1];
      IdsOfMore(most, last);
      assert reports == most + [last];
      AbsorbAllEffect(t, most);
      var u := AbsorbAll(t, most);
      AbsorbEffect(u, last);
      AbsorbedTwice(t, u, Absorb(u, last), ReportIds(most), {last.id});
    }
  }

  lemma AbsorbReportedEffect(t: Table, p: Payload)
    requires KeysIssued(t)
    ensures Absorbed(t, AbsorbReported(t, p), FinishedIds(p))
  {
    if p.finished.Some? {
      assert FinishedIds(p) == ReportIds(p.finished.value);
      AbsorbAllEffect(t, p.finished.value);
    }
  }

  // ---- The last report decides ----

  function LastOutcome(reports: seq<Report>, id: JobId): (r: Option<Outcome>)
    ensures r.Some? <==> id in ReportIds(reports)
  {
    if reports == [] then None else
    var most, last := reports[..|reports| - 1], reports[|reports| - 1];
    assert reports == most + [last];
    IdsOfMore(most, last);
    if last.id == id then Some(last.outcome) else LastOutcome(most, id)
  }

  /** The status an outcome leaves; a job that yielded may be rolled up by later reports. */
  predicate EndsAs(outcome: Outcome, s: Status) {
    match outcome
    case Yielded(_) => s == Waiting || Final(s)
    case Succeeded => s == Success
    case Raised(_) => s == Failed
  }

  /** Whatever was reported of a job before, and whatever is reported of others, its status
      after a batch is that of its last report. */
  lemma {:induction false} LastReportDecides(t: Table, reports: seq<Report>, id: JobId)
    requires KeysIssued(t) && id in t.rows && id in ReportIds(reports)
    ensures var u := AbsorbAll(t, reports);
      id in u.rows && EndsAs(LastOutcome(reports, id).value, u.rows[id].status)
  {
    var most, last := reports[..|reports| - 1], reports[|reports| - 1];
    assert reports == most + [last];
    IdsOfMore(most, last);
    AbsorbAllEffect(t, most);
    var u := AbsorbAll(t, most);
    if last.id == id {
      ReportDecides(u, last);
    } else {
      LastReportDecides(t, most, id);
      AbsorbEffect(u, last);
      assert AbsorbedAs(u.rows[id], Absorb(u, last).rows[id], false);
    }
  }

  lemma ReportDecides(t: Table, r: Report)
    requires KeysIssued(t) && r.id in t.rows
    ensures r.id in Absorb(t, r).rows && EndsAs(r.outcome, Absorb(t, r).rows[r.id].status)
  {
    var job := Reported(t.rows[r.id], r);
    var spawned := Spawn(t, r.id, t.rows[r.id], ReportChildren(r));
    assert Evolves(job, JobChanged(spawned.rows[r.id := job], job)[r.id]);
  }

  // ---- Lost and dead jobs ----

  predicate OnNode(job: Job, n: NodeId) {
    job.node == Some(n)
  }

  predicate Executing(s: Status) {
    s == Running || s == Terminating
  }

  /** Jobs the table has executing on n that n did not list. */
  function LostJobs(rows: Rows, n: NodeId, running: set<JobId>): set<JobId> {
    set id | id in rows && Executing(rows[id].status) && OnNode(rows[id], n) && id !in running
  }

  /** Jobs executing on a node that has been silent too long. */
  function DeadJobs(rows: Rows, silent: set<NodeId>): set<JobId> {
    set id | id in rows && Executing(rows[id].status) && rows[id].node.Some? && rows[id].node.value in silent
  }

  function FailOne(rows: Rows, id: JobId): (r: Rows)
    ensures r.Keys == rows.Keys
  {
    if id !in rows then rows else
    var job := rows[id].(status := Failed);
    JobChanged(rows[id := job], job)
  }

  /** Fails the listed jobs one after the other, in the order the query returned them. */
  function FailAll(rows: Rows, order: seq<JobId>): (r: Rows)
    ensures r.Keys == rows.Keys
  {
    if order == [] then rows else FailOne(FailAll(rows, order[..|order| - 1]), order[|order| - 1])
  }

  predicate FailedAs(a: Job, b: Job, listed: bool) {
    SameRequest(a, b) && a.exception == b.exception && if listed then b.status == Failed else Evolves(a, b)
  }

  lemma {:induction false} FailAllEffect(rows: Rows, order: seq<JobId>)
    ensures forall id :: id in rows ==> FailedAs(rows[id], FailAll(rows, order)[id], id in order)
  {
    if order != [] {
      var most, last := order[..|order| - 1], order[|order| - 1];
      FailAllEffect(rows, most);
      var u := FailAll(rows, most);
      if last in rows {
        var job := u[last].(status := Failed);
        forall id | id in rows
          ensures FailedAs(rows[id], FailAll(rows, order)[id], id in order)
        {
          assert FailedAs(rows[id], u[id], id in most);
          assert Evolves(u[last := job][id], JobChanged(u[last := job], job)[id]);
          assert id in order <==> id in most || id == last;
        }
      } else {
        assert forall id :: id in rows ==> (id in order <==> id in most);
      }
    }
  }
}
