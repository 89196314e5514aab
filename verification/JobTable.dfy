/** The farm's table of jobs, as values, and what each server operation does to it.
    JobServer.dfy holds the imperative server proved against these functions. */
module JobTable {
  import opened Wrappers

  type JobId = nat
  type NodeId = string

  datatype Status = Created | Ready | Reserved | Running | Terminating | Waiting | Success | Failed

  datatype Progress = NoProgress | Text(text: string) | Counts(succeeded: nat, failed: nat, total: nat)

  datatype Job = Job(
    status: Status,
    node: Option<NodeId>,
    jobClass: string,
    params: string,
    parent: Option<JobId>,
    dependencies: set<JobId>,
    tags: set<string>,
    reqVersion: int,
    reqGpu: bool,
    priority: int,
    progress: Progress,
    exception: Option<string>)

  type Rows = map<JobId, Job>

  /** The rows, and the next primary key: keys are never handed out twice. */
  datatype Table = Table(rows: Rows, nextId: JobId)

  /** Every key in the table has been handed out. */
  predicate KeysIssued(t: Table) {
    forall id :: id in t.rows ==> id < t.nextId
  }

  predicate Final(s: Status) {
    s == Success || s == Failed
  }

  /** The statuses of a job that some client is expected to hold. */
  predicate Active(s: Status) {
    s == Reserved || s == Running || s == Terminating
  }

  /** b is a with at most its status, progress and exception changed. */
  predicate SameRequest(a: Job, b: Job) {
    b == a.(status := b.status, progress := b.progress, exception := b.exception)
  }

  /** What a roll-up may do to a row it was not asked about. */
  predicate Evolves(a: Job, b: Job) {
    if a.status == Waiting then
      SameRequest(a, b) && a.exception == b.exception && (b.status == Waiting || Final(b.status))
    else b == a
  }

  predicate IsListing(s: seq<JobId>, ids: set<JobId>) {
    && (forall i :: 0 <= i < |s| ==> s[i] in ids)
    && (forall id :: id in ids ==> id in s)
    && (forall i, j :: 0 <= i < j < |s| ==> s[i] != s[j])
  }

  // ---- Roll-up of results to waiting parents ----

  function Children(rows: Rows, p: JobId): set<JobId> {
    set c | c in rows && rows[c].parent == Some(p)
  }

  function ChildrenIn(rows: Rows, p: JobId, s: Status): set<JobId> {
    set c | c in rows && rows[c].parent == Some(p) && rows[c].status == s
  }

  /** The test of the roll-up, as it counts: succeeded + failed == all, and all > 0. */
  predicate CountsComplete(rows: Rows, p: JobId) {
    && |Children(rows, p)| > 0
    && |ChildrenIn(rows, p, Success)| + |ChildrenIn(rows, p, Failed)| == |Children(rows, p)|
  }

  predicate AllChildrenFinal(rows: Rows, p: JobId) {
    && Children(rows, p) != {}
    && forall c :: c in Children(rows, p) ==> Final(rows[c].status)
  }

  predicate SomeChildFailed(rows: Rows, p: JobId) {
    exists c :: c in Children(rows, p) && rows[c].status == Failed
  }

  lemma CountingMeansAllFinal(rows: Rows, p: JobId)
    ensures CountsComplete(rows, p) <==> AllChildrenFinal(rows, p)
    ensures |ChildrenIn(rows, p, Failed)| > 0 <==> SomeChildFailed(rows, p)
  {
    var all, s, f := Children(rows, p), ChildrenIn(rows, p, Success), ChildrenIn(rows, p, Failed);
    assert |s + f| == |s| + |f| by { assert s !! f; }
    assert s + f <= all;
    if |s| + |f| == |all| {
      SubsetOfSameSize(s + f, all);
    }
    if AllChildrenFinal(rows, p) {
      assert s + f == all;
    }
    if SomeChildFailed(rows, p) {
      var c :| c in all && rows[c].status == Failed;
      assert c in f;
    }
    if |f| > 0 {
      var c :| c in f;
      assert c in all;
    }
  }

  lemma SubsetOfSameSize(a: set<JobId>, b: set<JobId>)
    requires a <= b && |a| == |b|
    ensures a == b
  {
    assert |b - a| == |b| - |a| by { assert b == a + (b - a); }
  }

  predicate Completes(rows: Rows, p: JobId) {
    p in rows && rows[p].status == Waiting && CountsComplete(rows, p)
  }

  /** While a completing job is still stored as waiting, its own parent cannot complete:
      for every table, even one whose parent links form a cycle. */
  lemma CompletionStopsAtParent(rows: Rows, p: JobId)
    requires p in rows && rows[p].status == Waiting && rows[p].parent.Some?
    ensures !Completes(rows, rows[p].parent.value)
  {
    var q := rows[p].parent.value;
    CountingMeansAllFinal(rows, q);
    assert p in Children(rows, q);
  }

  /** The row with its new progress text. */
  function Counted(rows: Rows, p: JobId): (r: Job)
    requires p in rows
    ensures r == rows[p].(progress := r.progress)
  {
    rows[p].(progress := Counts(|ChildrenIn(rows, p, Success)|, |ChildrenIn(rows, p, Failed)|, |Children(rows, p)|))
  }

  /** The row with its final status. */
  function Completed(rows: Rows, p: JobId): (r: Job)
    requires p in rows
    ensures r == rows[p].(status := r.status, progress := r.progress) && Final(r.status)
  {
    Counted(rows, p).(status := if |ChildrenIn(rows, p, Failed)| > 0 then Failed else Success)
  }

  /** UpdateParentJob: the recursive call, through JobChanged, runs before the row is saved. */
  function UpdateParent(rows: Rows, p: JobId): (r: Rows)
    requires p in rows
    ensures r.Keys == rows.Keys
    ensures forall id :: id in rows ==> Evolves(rows[id], r[id])
    decreases if Completes(rows, p) then 1 else 0, 0
  {
    if rows[p].status != Waiting then rows
    else if !CountsComplete(rows, p) then rows[p := Counted(rows, p)]
    else if rows[p].parent.Some? then
      CompletionStopsAtParent(rows, p);
      ParentOnly(rows, p);
      JobChanged(rows, Completed(rows, p))[p := Completed(rows, p)]
    else
      rows[p := Completed(rows, p)]
  }

  lemma ParentOnly(rows: Rows, p: JobId)
    requires Completes(rows, p)
    ensures rows[p].parent != Some(p)
  {
    if rows[p].parent == Some(p) {
      CompletionStopsAtParent(rows, p);
    }
  }

  /** onJobChanged: the parent is fetched from the table, job itself is not looked at again. */
  function JobChanged(rows: Rows, job: Job): (r: Rows)
    ensures r.Keys == rows.Keys
    ensures forall id :: id in rows ==> Evolves(rows[id], r[id])
    decreases if job.parent.Some? && Completes(rows, job.parent.value) then 1 else 0, 1
  {
    if job.parent.Some? && job.parent.value in rows then UpdateParent(rows, job.parent.value) else rows
  }
}
