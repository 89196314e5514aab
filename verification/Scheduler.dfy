/** Choosing the next job for a node: the query's filters, the two channels, the order by
    priority and the dependency check, against a declarative notion of eligibility. */
module Scheduler {
  import opened Wrappers
  import opened JobTable

  /** What one heartbeat knows about its node. */
  datatype NodeView = NodeView(
    name: NodeId,
    active: bool,
    reqRestart: bool,
    gpuCount: Option<int>,
    codeVersion: int,
    excludedTags: set<string>,
    available: set<string>,
    dispatching: bool)

  /** A count that was never reported compares, in Python 2, as less than any number. */
  predicate HasGpu(v: NodeView) {
    v.gpuCount.Some? && v.gpuCount.value > 0
  }

  const MAX_INSTANCES: nat := 1

  predicate IsLight(jobClass: string) {
    jobClass == "jobs.thumbnails.GenerateThumbnail" || jobClass == "jobs.test.SpeedTest"
  }

  /** Only running jobs count against a channel: neither reserved nor terminating ones do. */
  function RunningIn(rows: Rows, n: NodeId, light: bool): set<JobId> {
    set j | j in rows && rows[j].status == Running && rows[j].node == Some(n) && IsLight(rows[j].jobClass) == light
  }

  predicate ChannelFree(rows: Rows, n: NodeId, light: bool) {
    |RunningIn(rows, n, light)| < MAX_INSTANCES
  }

  predicate NoneRunning(rows: Rows, n: NodeId, light: bool) {
    forall k :: k in rows && rows[k].status == Running && rows[k].node == Some(n) ==> IsLight(rows[k].jobClass) != light
  }

  predicate DependenciesMet(rows: Rows, job: Job) {
    forall d :: d in job.dependencies && d in rows ==> rows[d].status == Success
  }

  /** A job the node may be given, said without the query: ready, within the node's version,
      meant for this node or (if the node is active) for any, of a class it offers, with no
      excluded tag, not needing a GPU it lacks, in a channel with nothing running, and with
      every dependency successful. */
  predicate Eligible(rows: Rows, v: NodeView, j: JobId) {
    && j in rows
    && var job := rows[j];
    && job.status == Ready
    && job.reqVersion <= v.codeVersion
    && (job.node == Some(v.name) || (v.active && job.node == None))
    && job.jobClass in v.available
    && job.tags !! v.excludedTags
    && (job.reqGpu ==> HasGpu(v))
    && NoneRunning(rows, v.name, IsLight(job.jobClass))
    && DependenciesMet(rows, job)
  }

  predicate Schedules(v: NodeView) {
    v.dispatching && !v.reqRestart
  }

  /** A right choice: none only if none is eligible, and otherwise an eligible one of the
      highest priority. */
  ghost predicate ValidPick(rows: Rows, v: NodeView, pick: Option<JobId>) {
    if !Schedules(v) then pick == None else
    match pick
    case None => forall j :: j in rows ==> !Eligible(rows, v, j)
    case Some(j) =>
      && Eligible(rows, v, j)
      && forall k :: k in rows && Eligible(rows, v, k) ==> rows[k].priority <= rows[j].priority
  }

  lemma FreeMeansNoneRunning(rows: Rows, n: NodeId, light: bool)
    ensures ChannelFree(rows, n, light) <==> NoneRunning(rows, n, light)
  {
    var s := RunningIn(rows, n, light);
    assert |s| < 1 <==> s == {};
    assert forall k :: k in s <==>
      k in rows && rows[k].status == Running && rows[k].node == Some(n) && IsLight(rows[k].jobClass) == light;
    if s != {} {
      var k :| k in s;
      assert !NoneRunning(rows, n, light);
    }
  }

  predicate SortedByPriority(rows: Rows, s: seq<JobId>)
    requires forall i :: 0 <= i < |s| ==> s[i] in rows
  {
    forall i, j :: 0 <= i < j < |s| ==> rows[s[i]].priority >= rows[s[j]].priority
  }

  predicate Highest(rows: Rows, ids: set<JobId>, j: JobId)
    requires ids <= rows.Keys
  {
    j in ids && forall k :: k in ids ==> rows[k].priority <= rows[j].priority
  }

  lemma {:induction false} HighestExists(rows: Rows, ids: set<JobId>) returns (best: JobId)
    requires ids != {} && ids <= rows.Keys
    ensures Highest(rows, ids, best)
    decreases |ids|
  {
    var x :| x in ids;
    var rest := ids - {x};
    best := x;
    if rest != {} {
      var y := HighestExists(rows, rest);
      best := if rows[x].priority >= rows[y].priority then x else y;
    }
    assert forall k :: k in ids ==> k == x || k in rest;
  }

  /** order_by('-priority'): ties come in any order. */
  method OrderByPriority(rows: Rows, ids: set<JobId>) returns (s: seq<JobId>)
    requires ids <= rows.Keys
    ensures IsListing(s, ids)
    ensures SortedByPriority(rows, s)
  {
    s := [];
    var rest := ids;
    while rest != {}
      invariant rest <= ids
      invariant forall i :: 0 <= i < |s| ==> s[i] in ids && s[i] !in rest
      invariant forall id :: id in ids ==> id in rest || id in s
      invariant forall i, j :: 0 <= i < j < |s| ==> s[i] != s[j]
      invariant SortedByPriority(rows, s)
      invariant forall i, k :: 0 <= i < |s| && k in rest ==> rows[s[i]].priority >= rows[k].priority
      decreases rest
    {
      ghost var top := HighestExists(rows, rest);
      var best :| best in rest && forall k :: k in rest ==> rows[k].priority <= rows[best].priority;
      ghost var was := s;
      s := s + [best];
      assert forall id :: id in was ==> id in s;
      assert best in s by { assert s[|s| - 1] == best; }
      rest := rest - {best};
    }
  }

  /** The query. */
  predicate Matches(job: Job, v: NodeView) {
    && job.status == Ready && job.reqVersion <= v.codeVersion
    && (job.node == Some(v.name) || (v.active && job.node == None))
    && job.jobClass in v.available && job.tags !! v.excludedTags
  }

  lemma EligibleIff(rows: Rows, v: NodeView, j: JobId)
    requires j in rows
    ensures Eligible(rows, v, j) <==>
      && Matches(rows[j], v)
      && (!HasGpu(v) ==> !rows[j].reqGpu)
      && ChannelFree(rows, v.name, IsLight(rows[j].jobClass))
      && DependenciesMet(rows, rows[j])
  {
    FreeMeansNoneRunning(rows, v.name, IsLight(rows[j].jobClass));
  }

  /** The scheduler's filter, sort, channel-union and first-match loop. */
  method PickJob(rows: Rows, v: NodeView) returns (pick: Option<JobId>)
    ensures ValidPick(rows, v, pick)
  {
    pick := None;
    if !v.dispatching || v.reqRestart {
      return;
    }
    var lightFree, heavyFree := ChannelFree(rows, v.name, true), ChannelFree(rows, v.name, false);
    if !lightFree && !heavyFree {
      return;
    }
    var found := set j | j in rows && Matches(rows[j], v);
    if !HasGpu(v) {
      found := set j | j in found && !rows[j].reqGpu;
    }
    found := set j | j in found &&
      ((lightFree && IsLight(rows[j].jobClass)) || (heavyFree && !IsLight(rows[j].jobClass)));
    forall j | j in rows ensures Eligible(rows, v, j) <==> j in found && DependenciesMet(rows, rows[j]) {
      EligibleIff(rows, v, j);
    }
    var next := OrderByPriority(rows, found);
    pick := FirstMet(rows, next);
  }

  /** The first job, in the order of the query, with nothing left to depend on. */
  method FirstMet(rows: Rows, next: seq<JobId>) returns (pick: Option<JobId>)
    requires (forall i :: 0 <= i < |next| ==> next[i] in rows) && SortedByPriority(rows, next)
    ensures pick == None ==> forall j :: j in next ==> !DependenciesMet(rows, rows[j])
    ensures pick.Some? ==> pick.value in next && DependenciesMet(rows, rows[pick.value])
    ensures pick.Some? ==>
      forall j :: j in next && DependenciesMet(rows, rows[j]) ==> rows[j].priority <= rows[pick.value].priority
  {
    pick := None;
    var i := 0;
    while i < |next|
      invariant 0 <= i <= |next|
      invariant forall k :: 0 <= k < i ==> !DependenciesMet(rows, rows[next[k]])
    {
      if DependenciesMet(rows, rows[next[i]]) {
        return Some(next[i]);
      }
      i := i + 1;
    }
  }

  // ---- Tags ----

  function ExcludedTags(known: set<string>, supported: set<string>): set<string> {
    known - supported
  }
}
