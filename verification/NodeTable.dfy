/** The server's table of nodes: what a request stores of its node, and what the scheduler knows
    of the node from it. */
module NodeTable {
  import opened Wrappers
  import opened JobTable
  import opened Reports
  import opened Scheduler
  import opened Heartbeat

  const SILENCE_LIMIT: int := 2 * 3600

  datatype NodeRow = NodeRow(
    lastSeen: int, codeVersion: int, reqRestart: bool, active: bool,
    gpuCount: Option<int>, tags: set<string>, accepting: bool)

  datatype Request = Request(
    machine: NodeId, accepting: bool, restarted: bool, codeVersion: Option<int>,
    gpuCount: Option<int>, tags: Option<set<string>>, available: set<string>, payload: Payload)

  /** What the cloud provider says of the machine. */
  datatype Cloud = Cloud(id: Option<string>, running: bool)

  const NEW_NODE := NodeRow(0, 1, false, true, None, {}, false)

  function UpdatedNode(nodes: map<NodeId, NodeRow>, r: Request, cloud: Cloud, now: int): NodeRow {
    var node := if r.machine in nodes then nodes[r.machine] else NEW_NODE;
    NodeRow(
      now,
      if r.codeVersion.Some? then r.codeVersion.value else 0,
      node.reqRestart && !r.restarted,
      node.active,
      if r.gpuCount.Some? then r.gpuCount else node.gpuCount,
      if r.tags.Some? then r.tags.value + (if cloud.id.Some? then {"aws"} else {}) else node.tags,
      r.accepting)
  }

  function KnownTags(nodes: map<NodeId, NodeRow>): set<string> {
    set n, x | n in nodes && x in nodes[n].tags :: x
  }

  function ViewOf(nodes: map<NodeId, NodeRow>, r: Request, cloud: Cloud): NodeView
    requires r.machine in nodes
  {
    var node := nodes[r.machine];
    NodeView(r.machine, node.active, node.reqRestart, node.gpuCount, node.codeVersion,
      ExcludedTags(KnownTags(nodes), node.tags), r.available,
      node.accepting && (cloud.id == None || cloud.running))
  }

  // ---- Tags ----

  /** The filter is meant to keep a job from a node that lacks one of its tags. A job the node is
      eligible for has all its tags supported by the node if and only if each of them is carried
      by some node of the farm. */
  lemma TagFilterExact(rows: Rows, nodes: map<NodeId, NodeRow>, r: Request, cloud: Cloud, j: JobId)
    requires r.machine in nodes && j in rows && Eligible(rows, ViewOf(nodes, r, cloud), j)
    ensures rows[j].tags <= nodes[r.machine].tags <==> rows[j].tags <= KnownTags(nodes)
  {
    var supported := nodes[r.machine].tags;
    assert supported <= KnownTags(nodes);
    assert rows[j].tags !! ExcludedTags(KnownTags(nodes), supported);
    forall x | x in rows[j].tags && x in KnownTags(nodes) ensures x in supported {
      assert x !in ExcludedTags(KnownTags(nodes), supported);
    }
  }

  /** So a known tag the node lacks does keep the job away, and none of the others ever does: two
      jobs alike but for their tags are both eligible or both not when their known tags are
      the same. */
  lemma UnknownTagsIgnored(rows: Rows, nodes: map<NodeId, NodeRow>, r: Request, cloud: Cloud, j: JobId,
                           tags: set<string>)
    requires r.machine in nodes && j in rows && tags * KnownTags(nodes) == rows[j].tags * KnownTags(nodes)
    ensures var v := ViewOf(nodes, r, cloud);
      Eligible(rows, v, j) <==> Eligible(rows[j := rows[j].(tags := tags)], v, j)
  {
    var v, other := ViewOf(nodes, r, cloud), rows[j := rows[j].(tags := tags)];
    SameKnown(KnownTags(nodes), nodes[r.machine].tags, rows[j].tags, tags);
    assert DependenciesMet(rows, rows[j]) <==> DependenciesMet(other, other[j]) by {
      assert forall d :: d in rows ==> rows[d].status == other[d].status;
    }
    SameRunning(rows, other, v.name, IsLight(rows[j].jobClass));
  }

  lemma SameKnown(known: set<string>, supported: set<string>, a: set<string>, b: set<string>)
    requires a * known == b * known
    ensures a !! ExcludedTags(known, supported) <==> b !! ExcludedTags(known, supported)
  {
    forall x | x in ExcludedTags(known, supported) ensures x in a <==> x in b {
      assert x in a <==> x in a * known;
      assert x in b <==> x in b * known;
    }
  }

  lemma SameRunning(a: Rows, b: Rows, n: NodeId, light: bool)
    requires a.Keys == b.Keys
    requires forall k :: k in a ==> b[k] == a[k].(tags := b[k].tags)
    ensures NoneRunning(a, n, light) <==> NoneRunning(b, n, light)
  {
    assert forall k :: k in a ==>
      a[k].status == b[k].status && a[k].node == b[k].node && a[k].jobClass == b[k].jobClass;
  }

  /** A farm of one node that carries the tag "py36", and a ready job that asks for "gpu", which
      no node carries: the node is given the job. */
  lemma UnknownTagRunsAnywhere(rows: Rows, nodes: map<NodeId, NodeRow>, r: Request, cloud: Cloud)
    requires rows.Keys == {1} && rows[1] == Job(Ready, None, "c", "", None, {}, {"gpu"}, 1, false, 50, NoProgress, None)
    requires nodes.Keys == {"n"} && nodes["n"] == NodeRow(0, 1, false, true, None, {"py36"}, true)
    requires r.machine == "n" && r.available == {"c"} && cloud.id == None
    ensures var v := ViewOf(nodes, r, cloud);
      Eligible(rows, v, 1) && ValidPick(rows, v, Some(1)) && !(rows[1].tags <= nodes["n"].tags)
  {
    assert "gpu" in rows[1].tags && "gpu" !in nodes["n"].tags;
    assert "gpu" !in KnownTags(nodes);
    assert Eligible(rows, ViewOf(nodes, r, cloud), 1);
  }

  function SilentNodes(nodes: map<NodeId, NodeRow>, now: int): set<NodeId> {
    set n | n in nodes && nodes[n].lastSeen < now - SILENCE_LIMIT
  }

  // ---- What the scheduler knows, said of the request and of the nodes before it ----

  /** The node carries x once the request is in: the tags sent, if any were, and "aws" with them
      on a cloud machine; otherwise those it had. */
  predicate HasTag(nodes: map<NodeId, NodeRow>, r: Request, cloud: Cloud, x: string) {
    if r.tags.Some? then x in r.tags.value || (x == "aws" && cloud.id.Some?)
    else r.machine in nodes && x in nodes[r.machine].tags
  }

  /** Another node carries x. */
  predicate OthersHave(nodes: map<NodeId, NodeRow>, n: NodeId, x: string) {
    exists m :: m in nodes && m != n && x in nodes[m].tags
  }

  /** A request without a code version counts as version 0. */
  predicate SentVersionAtLeast(r: Request, version: int) {
    match r.codeVersion
    case Some(sent) => version <= sent
    case None => version <= 0
  }

  /** A node the server has not heard of before is active. */
  predicate IsActive(nodes: map<NodeId, NodeRow>, n: NodeId) {
    n in nodes ==> nodes[n].active
  }

  predicate MustRestart(nodes: map<NodeId, NodeRow>, r: Request) {
    r.machine in nodes && nodes[r.machine].reqRestart && !r.restarted
  }

  /** The last count the node sent, if it ever did, is positive. */
  predicate HasSomeGpu(nodes: map<NodeId, NodeRow>, r: Request) {
    match r.gpuCount
    case Some(n) => n > 0
    case None => r.machine in nodes && nodes[r.machine].gpuCount.Some? && nodes[r.machine].gpuCount.value > 0
  }

  predicate Accepts(r: Request, cloud: Cloud) {
    r.accepting && (cloud.id.Some? ==> cloud.running)
  }

  ghost predicate Sees(nodes: map<NodeId, NodeRow>, r: Request, cloud: Cloud, v: NodeView) {
    && v.name == r.machine && v.available == r.available
    && v.codeVersion == (if r.codeVersion == None then 0 else r.codeVersion.value)
    && (v.active <==> IsActive(nodes, r.machine))
    && (v.reqRestart <==> MustRestart(nodes, r))
    && v.gpuCount == (if r.gpuCount == None && r.machine in nodes then nodes[r.machine].gpuCount else r.gpuCount)
    && (v.dispatching <==> Accepts(r, cloud))
    && forall x :: x in v.excludedTags <==> !HasTag(nodes, r, cloud, x) && OthersHave(nodes, r.machine, x)
  }

  /** The row that is stored: seen now, with the tags it has. */
  ghost predicate StoredAs(nodes: map<NodeId, NodeRow>, r: Request, cloud: Cloud, now: int, row: NodeRow) {
    && row.lastSeen == now && row.accepting == r.accepting
    && row.codeVersion == (if r.codeVersion == None then 0 else r.codeVersion.value)
    && row.gpuCount == (if r.gpuCount == None && r.machine in nodes then nodes[r.machine].gpuCount else r.gpuCount)
    && (row.active <==> IsActive(nodes, r.machine)) && (row.reqRestart <==> MustRestart(nodes, r))
    && forall x :: x in row.tags <==> HasTag(nodes, r, cloud, x)
  }

  lemma ViewOfRequest(nodes: map<NodeId, NodeRow>, r: Request, cloud: Cloud, now: int)
    ensures var after := nodes[r.machine := UpdatedNode(nodes, r, cloud, now)];
      Sees(nodes, r, cloud, ViewOf(after, r, cloud)) && StoredAs(nodes, r, cloud, now, after[r.machine])
  {
    var after := nodes[r.machine := UpdatedNode(nodes, r, cloud, now)];
    forall x ensures x in after[r.machine].tags <==> HasTag(nodes, r, cloud, x) {
    }
    forall x ensures x in KnownTags(after) <==> HasTag(nodes, r, cloud, x) || OthersHave(nodes, r.machine, x) {
      if x in KnownTags(after) {
        var m :| m in after && x in after[m].tags;
      }
      if HasTag(nodes, r, cloud, x) {
        assert x in after[r.machine].tags;
      }
      if OthersHave(nodes, r.machine, x) {
        var m :| m in nodes && m != r.machine && x in nodes[m].tags;
        assert x in after[m].tags;
      }
    }
  }

  // ---- When a request is given a job ----

  /** A job the node may be given, said of the request, the nodes before it and the rows. */
  ghost predicate Fits(rows: Rows, nodes: map<NodeId, NodeRow>, r: Request, cloud: Cloud, j: JobId) {
    && j in rows
    && var job := rows[j];
    && job.status == Ready && job.jobClass in r.available && SentVersionAtLeast(r, job.reqVersion)
    && (job.node == Some(r.machine) || (job.node == None && IsActive(nodes, r.machine)))
    && (job.reqGpu ==> HasSomeGpu(nodes, r))
    && (forall x :: x in job.tags ==> HasTag(nodes, r, cloud, x) || !OthersHave(nodes, r.machine, x))
    && (forall k :: k in rows && rows[k].status == Running && rows[k].node == Some(r.machine) ==>
          (IsLight(rows[k].jobClass) <==> !IsLight(job.jobClass)))
    && forall d :: d in job.dependencies && d in rows ==> rows[d].status == Success
  }

  /** Of all jobs that fit, none is more urgent. */
  ghost predicate FitsBest(rows: Rows, nodes: map<NodeId, NodeRow>, r: Request, cloud: Cloud, j: JobId) {
    && Fits(rows, nodes, r, cloud, j)
    && forall k :: Fits(rows, nodes, r, cloud, k) ==> rows[k].priority <= rows[j].priority
  }

  lemma FitsIsEligible(rows: Rows, nodes: map<NodeId, NodeRow>, r: Request, cloud: Cloud, v: NodeView, j: JobId)
    requires Sees(nodes, r, cloud, v)
    ensures Fits(rows, nodes, r, cloud, j) <==> Eligible(rows, v, j)
  {
    if j in rows {
      var job := rows[j];
      assert job.reqVersion <= v.codeVersion <==> SentVersionAtLeast(r, job.reqVersion);
      assert job.tags !! v.excludedTags <==> forall x :: x in job.tags ==> x !in v.excludedTags;
      assert NoneRunning(rows, v.name, IsLight(job.jobClass)) <==>
        forall k :: k in rows && rows[k].status == Running && rows[k].node == Some(r.machine) ==>
          (IsLight(rows[k].jobClass) <==> !IsLight(job.jobClass));
    }
  }

  /** The classes of the light channel: such a job fits beside a running job of any other class. */
  lemma LightClasses(c: string)
    ensures IsLight(c) <==> c in ["jobs.thumbnails.GenerateThumbnail", "jobs.test.SpeedTest"]
  {
  }

  predicate WasReserved(rows: Rows, n: NodeId, j: JobId) {
    j in rows && rows[j].status == Reserved && rows[j].node == Some(n)
  }

  /** What the answer carries. rows is the table when the scheduler starts. */
  ghost predicate Hands(rows: Rows, nodes: map<NodeId, NodeRow>, r: Request, cloud: Cloud, reply: Reply) {
    && (reply.jobs != [] <==>
          && Accepts(r, cloud)
          && ((exists j :: WasReserved(rows, r.machine, j))
              || (!MustRestart(nodes, r) && exists j :: Fits(rows, nodes, r, cloud, j))))
    && forall j :: j in JobIds(reply.jobs) ==>
         WasReserved(rows, r.machine, j) || (!MustRestart(nodes, r) && FitsBest(rows, nodes, r, cloud, j))
  }

  lemma PickFits(rows: Rows, nodes: map<NodeId, NodeRow>, r: Request, cloud: Cloud, v: NodeView, pick: Option<JobId>)
    requires Sees(nodes, r, cloud, v) && ValidPick(rows, v, pick)
    ensures pick.Some? <==>
      Accepts(r, cloud) && !MustRestart(nodes, r) && exists j :: Fits(rows, nodes, r, cloud, j)
    ensures pick.Some? ==> FitsBest(rows, nodes, r, cloud, pick.value)
  {
    forall j ensures Fits(rows, nodes, r, cloud, j) <==> Eligible(rows, v, j) {
      FitsIsEligible(rows, nodes, r, cloud, v, j);
    }
    if pick.Some? {
      assert Fits(rows, nodes, r, cloud, pick.value);
    }
  }

  /** What is reserved for the node once the scheduler is done with the rows. */
  ghost predicate ReservedIs(rows: Rows, n: NodeId, pick: Option<JobId>, ids: set<JobId>) {
    && (forall j :: j in ids ==> WasReserved(rows, n, j) || pick == Some(j))
    && (if pick.Some? then pick.value in ids else forall j :: WasReserved(rows, n, j) ==> j in ids)
  }

  lemma ReservedAfter(rows: Rows, v: NodeView, pick: Option<JobId>, u: Rows)
    requires ValidPick(rows, v, pick) && u == if pick.Some? then Reserve(rows, v.name, pick.value) else rows
    ensures ReservedIs(rows, v.name, pick, OnNodeIn(u, v.name, Reserved))
  {
  }

  lemma ListedOrNone(jobs: seq<JobData>, ids: set<JobId>)
    requires IsListing(JobIds(jobs), ids)
    ensures jobs != [] <==> ids != {}
    ensures forall j :: j in JobIds(jobs) ==> j in ids
  {
    if ids != {} {
      var j :| j in ids;
      assert j in JobIds(jobs);
    }
    if jobs != [] {
      assert JobIds(jobs)[0] in ids;
    }
  }

  lemma HandsReserved(rows: Rows, nodes: map<NodeId, NodeRow>, r: Request, cloud: Cloud, v: NodeView,
                      pick: Option<JobId>, ids: set<JobId>, reply: Reply)
    requires Sees(nodes, r, cloud, v) && ValidPick(rows, v, pick) && ReservedIs(rows, v.name, pick, ids)
    requires if v.dispatching then IsListing(JobIds(reply.jobs), ids) else reply.jobs == []
    ensures Hands(rows, nodes, r, cloud, reply)
  {
    PickFits(rows, nodes, r, cloud, v, pick);
    if v.dispatching {
      ListedOrNone(reply.jobs, ids);
    } else {
      assert JobIds(reply.jobs) == [];
    }
    if ids != {} {
      var j :| j in ids;
      assert WasReserved(rows, v.name, j) || pick == Some(j);
    }
  }

  /** Exactly when a request is given a job, and which: one reserved for the node before, or one
      of the most urgent that fit. */
  lemma RequestIsHandedAJob(t: Table, nodes: map<NodeId, NodeRow>, silent: set<NodeId>, r: Request, cloud: Cloud,
                            v: NodeView, ch: Choices, reply: Reply)
    requires Sees(nodes, r, cloud, v) && ValidChoices(t, silent, v, r.payload, ch)
    requires Answers(t, Beat(t, v.name, r.payload, ch), v, ch, reply)
    ensures Hands(Settle(t, r.payload, ch.dead, ch.lost).rows, nodes, r, cloud, reply)
  {
    var rows, u := Settle(t, r.payload, ch.dead, ch.lost).rows, Beat(t, v.name, r.payload, ch).rows;
    ReservedAfter(rows, v, ch.pick, u);
    HandsReserved(rows, nodes, r, cloud, v, ch.pick, OnNodeIn(u, v.name, Reserved), reply);
  }
}
