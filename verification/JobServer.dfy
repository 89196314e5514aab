/** The server, updating its tables in place, proved against the functions of the other modules. */
module JobServer {
  import opened Wrappers
  import opened JobTable
  import opened Reports
  import opened Admin
  import opened Scheduler
  import opened Heartbeat
  import opened NodeTable

  datatype Response = Done | Refused | NotFound | Raises

  /** The rows a query returns, in an order of the database's own. */
  method Listing(ids: set<JobId>) returns (s: seq<JobId>)
    ensures IsListing(s, ids)
  {
    s := [];
    var rest := ids;
    while rest != {}
      invariant rest <= ids
      invariant forall i :: 0 <= i < |s| ==> s[i] in ids && s[i] !in rest
      invariant forall id :: id in ids ==> id in rest || id in s
      invariant forall i, j :: 0 <= i < j < |s| ==> s[i] != s[j]
      decreases rest
    {
      var id :| id in rest;
      assert id in s + [id] by { assert (s + [id])[|s|] == id; }
      s, rest := s + [id], rest - {id};
    }
  }

  // ---- What the requests leave, said of the rows ----

  predicate IsExecuting(job: Job) {
    job.status == Running || job.status == Terminating
  }

  /** The request lists the job as running, with progress or, if it sends none, without. */
  predicate Names(p: Payload, id: JobId) {
    match p.progress
    case Some(list) => exists i :: 0 <= i < |list| && list[i].0 == id
    case None => p.running.Some? && id in p.running.value
  }

  /** The job is reserved for n, and everything below it is gone. */
  ghost predicate IsReserved(rows: Rows, id: JobId, n: NodeId, u: Rows) {
    && id in rows && rows[id].status == Ready
    && Cleared(rows, id, rows[id].(status := Reserved, node := Some(n), exception := None), u)
  }

  predicate HasBusyChild(rows: Rows, id: JobId) {
    exists c :: c in rows && rows[c].parent == Some(id) && (rows[c].status == Running || rows[c].status == Waiting)
  }

  predicate HasFailedChild(rows: Rows, id: JobId) {
    exists c :: c in rows && rows[c].parent == Some(id) && rows[c].status == Failed
  }

  /** b is a made ready again, as it was first asked for, on its machine only if that is wanted. */
  predicate IsReset(a: Job, sameMachine: bool, b: Job) {
    && b.status == Ready && b.exception == None && b.progress == NoProgress
    && b.node == (if sameMachine then a.node else None)
    && a == b.(status := a.status, exception := a.exception, progress := a.progress, node := a.node)
  }

  /** The failed children of id are reset, and id waits if there are any. */
  predicate ResetsFailed(rows: Rows, id: JobId, sameMachine: bool, u: Rows)
    requires id in rows
  {
    && u.Keys == rows.Keys
    && (forall k :: k in rows && k != id ==>
          if rows[k].parent == Some(id) && rows[k].status == Failed then IsReset(rows[k], sameMachine, u[k])
          else u[k] == rows[k])
    && u[id] == if HasFailedChild(rows, id) then rows[id].(status := Waiting) else rows[id]
  }

  lemma FailedAreReset(rows: Rows, id: JobId, sameMachine: bool)
    requires id in rows
    ensures ResetsFailed(rows, id, sameMachine, RestartFailedChildren(rows, id, sameMachine))
  {
    var failed := ChildrenIn(rows, id, Failed);
    assert HasFailedChild(rows, id) <==> failed != {} by {
      assert forall c :: c in failed <==> c in rows && rows[c].parent == Some(id) && rows[c].status == Failed;
    }
  }

  /** b asks for what a does, but for no version, dependencies or parent. */
  predicate IsClone(a: Job, sameMachine: bool, b: Job) {
    && b.status == Ready && b.exception == None && b.progress == NoProgress
    && b.node == (if sameMachine then a.node else None)
    && b.jobClass == a.jobClass && b.params == a.params && b.tags == a.tags && b.reqGpu == a.reqGpu
    && b.priority == a.priority
    && b.parent == None && b.dependencies == {} && b.reqVersion == 1
  }

  /** A job executing on a node silent for two hours, that the request does not name, has failed. */
  predicate OverdueFailed(rows: Rows, nodes: map<NodeId, NodeRow>, now: int, p: Payload, u: Rows) {
    forall id :: id in rows && id in u && IsOverdue(rows[id], nodes, now) && id !in ReportedIds(p) ==>
      u[id].status == Failed
  }

  predicate IsOverdue(job: Job, nodes: map<NodeId, NodeRow>, now: int) {
    && IsExecuting(job) && job.node.Some? && job.node.value in nodes
    && nodes[job.node.value].lastSeen < now - 7200
  }

  lemma OverdueIsFailed(t: Table, nodes: map<NodeId, NodeRow>, now: int, v: NodeView, p: Payload, ch: Choices)
    requires KeysIssued(t) && ValidChoices(t, SilentNodes(nodes, now), v, p, ch)
    ensures OverdueFailed(t.rows, nodes, now, p, Beat(t, v.name, p, ch).rows)
  {
    var u := Beat(t, v.name, p, ch).rows;
    forall id | id in t.rows && id in u && IsOverdue(t.rows[id], nodes, now) && id !in ReportedIds(p)
      ensures u[id].status == Failed
    {
      assert id in DeadJobs(t.rows, SilentNodes(nodes, now));
      RowEffect(t, p, ch.dead, ch.lost, id);
      BeatAfterSettle(t, SilentNodes(nodes, now), v, p, ch, id);
    }
  }

  /** What a request comes to for the nodes as they were: whether and which job is handed out, what
      reserving one leaves of the settled rows, and that no overdue job stays. */
  ghost predicate Comes(t: Table, nodes: map<NodeId, NodeRow>, r: Request, cloud: Cloud, now: int, ch: Choices,
                        reply: Reply, u: Rows) {
    var settled := Settle(t, r.payload, ch.dead, ch.lost).rows;
    && Hands(settled, nodes, r, cloud, reply)
    && (ch.pick.Some? ==> IsReserved(settled, ch.pick.value, r.machine, u))
    && (KeysIssued(t) ==> OverdueFailed(t.rows, nodes, now, r.payload, u))
  }

  lemma RequestOutcome(t: Table, nodes: map<NodeId, NodeRow>, r: Request, cloud: Cloud, now: int, v: NodeView,
                       ch: Choices, reply: Reply)
    requires Sees(nodes, r, cloud, v) && ValidChoices(t, SilentNodes(nodes, now), v, r.payload, ch)
    requires Answers(t, Beat(t, v.name, r.payload, ch), v, ch, reply)
    ensures Comes(t, nodes, r, cloud, now, ch, reply, Beat(t, v.name, r.payload, ch).rows)
  {
    RequestIsHandedAJob(t, nodes, SilentNodes(nodes, now), r, cloud, v, ch, reply);
    if ch.pick.Some? {
      PickIsReserved(Settle(t, r.payload, ch.dead, ch.lost).rows, v, ch.pick.value);
    }
    if KeysIssued(t) {
      OverdueIsFailed(t, nodes, now, v, r.payload, ch);
    }
  }

  lemma PickIsReserved(rows: Rows, v: NodeView, j: JobId)
    requires ValidPick(rows, v, Some(j))
    ensures j in rows && IsReserved(rows, j, v.name, Reserve(rows, v.name, j))
  {
    assert Eligible(rows, v, j);
    EverythingBelowGoes(rows, j, rows[j].(status := Reserved, node := Some(v.name), exception := None));
  }

  class JobServer {
    var jobs: Rows
    var nextId: JobId
    var nodes: map<NodeId, NodeRow>

    constructor ()
      ensures View() == Table(map[], 1) && nodes == map[]
    {
      jobs, nextId, nodes := map[], 1, map[];
    }

    function View(): Table
      reads this
    {
      Table(jobs, nextId)
    }

    // ---- Roll-up ----

    method UpdateParentJob(id: JobId)
      requires id in jobs
      modifies this`jobs
      ensures jobs == UpdateParent(old(jobs), id)
      decreases if Completes(jobs, id) then 1 else 0, 0
    {
      var job := jobs[id];
      if job.status == Waiting {
        var succeeded, failed := |ChildrenIn(jobs, id, Success)|, |ChildrenIn(jobs, id, Failed)|;
        var all := |Children(jobs, id)|;
        job := job.(progress := Counts(succeeded, failed, all));
        if all > 0 && succeeded + failed == all {
          job := job.(status := if failed > 0 then Failed else Success);
          if job.parent.Some? {
            CompletionStopsAtParent(jobs, id);
            ParentOnly(jobs, id);
          }
          OnJobChanged(job);
        }
        jobs := jobs[id := job];
      }
    }

    method OnJobChanged(job: Job)
      modifies this`jobs
      ensures jobs == JobChanged(old(jobs), job)
      decreases if job.parent.Some? && Completes(jobs, job.parent.value) then 1 else 0, 1
    {
      if job.parent.Some? && job.parent.value in jobs {
        UpdateParentJob(job.parent.value);
      }
    }

    // ---- One heartbeat ----

    /** Fails the rows of a query result one by one; each is saved as the query returned it. */
    method FailRows(order: seq<JobId>)
      requires forall i :: 0 <= i < |order| ==> order[i] in jobs && Executing(jobs[order[i]].status)
      requires forall i, j :: 0 <= i < j < |order| ==> order[i] != order[j]
      modifies this`jobs
      ensures jobs == FailAll(old(jobs), order)
    {
      var fetched := jobs;
      var i := 0;
      while i < |order|
        invariant 0 <= i <= |order|
        invariant jobs == FailAll(fetched, order[..i])
      {
        var id := order[i];
        assert order[..i + 1][..i] == order[..i];
        FailAllEffect(fetched, order[..i]);
        assert id !in order[..i];
        assert FailedAs(fetched[id], jobs[id], false);
        var job := fetched[id].(status := Failed);
        jobs := jobs[id := job];
        OnJobChanged(job);
        i := i + 1;
      }
      assert order[..i] == order;
    }

    method CleanupDeadJobs(silent: set<NodeId>) returns (ghost order: seq<JobId>)
      modifies this`jobs
      ensures IsListing(order, DeadJobs(old(jobs), silent)) && jobs == FailAll(old(jobs), order)
      ensures jobs.Keys == old(jobs.Keys)
      ensures forall id :: id in old(jobs) ==>
        var job := old(jobs)[id];
        if IsExecuting(job) && job.node.Some? && job.node.value in silent then jobs[id].status == Failed
        else Evolves(job, jobs[id])
    {
      var dead := Listing(DeadJobs(jobs, silent));
      FailRows(dead);
      order := dead;
      FailAllEffect(old(jobs), dead);
    }

    method MarkRunning(p: Payload)
      modifies this`jobs
      ensures jobs == MarkReported(old(jobs), p) && jobs.Keys == old(jobs.Keys)
      ensures forall id :: id in jobs ==>
        jobs[id].status == if Names(p, id) && old(jobs)[id].status != Terminating then Running else old(jobs)[id].status
      ensures p.progress == None ==> forall id :: id in jobs ==> jobs[id] == old(jobs)[id].(status := jobs[id].status)
    {
      MarkReportedEffect(jobs, p);
      if p.progress.Some? {
        var list := p.progress.value;
        var i := 0;
        while i < |list|
          invariant 0 <= i <= |list|
          invariant jobs == MarkProgress(old(jobs), list[..i])
        {
          assert list[..i + 1][..i] == list[..i];
          var (id, progress) := list[i];
          if id in jobs && jobs[id].status != Terminating {
            jobs := jobs[id := jobs[id].(status := Running, progress := Text(progress))];
          }
          i := i + 1;
        }
        assert list[..i] == list;
      } else if p.running.Some? {
        jobs := MarkPlain(jobs, Ids(p.running.value));
      }
    }

    /** Creates the child jobs of a yielding job, one after the other. */
    method SpawnChildren(parent: JobId, job: Job, specs: seq<ChildSpec>)
      modifies this`jobs, this`nextId
      ensures View() == Spawn(old(View()), parent, job, specs)
      ensures AddsChildren(old(View()), View(), parent, job, specs)
    {
      SpawnAddsChildren(View(), parent, job, specs);
      var i := 0;
      while i < |specs|
        invariant 0 <= i <= |specs|
        invariant View() == Spawn(old(View()), parent, job, specs[..i])
      {
        assert specs[..i + 1][..i] == specs[..i];
        jobs, nextId := jobs[nextId := ChildRow(parent, job, specs[i])], nextId + 1;
        i := i + 1;
      }
      assert specs[..i] == specs;
    }

    method AbsorbReport(r: Report)
      modifies this`jobs, this`nextId
      ensures View() == Absorb(old(View()), r)
    {
      if r.id in jobs {
        var job := jobs[r.id].(progress := Text(r.progress));
        match r.outcome {
          case Yielded(children) =>
            SpawnChildren(r.id, jobs[r.id], children);
            job := job.(status := Waiting);
          case Succeeded =>
            job := job.(status := Success);
          case Raised(e) =>
            job := job.(status := Failed, exception := Some(e));
        }
        jobs := jobs[r.id := job];
        OnJobChanged(job);
      }
    }

    method AbsorbFinished(p: Payload)
      modifies this`jobs, this`nextId
      ensures View() == AbsorbReported(old(View()), p)
    {
      if p.finished.Some? {
        var reports := p.finished.value;
        var i := 0;
        while i < |reports|
          invariant 0 <= i <= |reports|
          invariant View() == AbsorbAll(old(View()), reports[..i])
        {
          assert reports[..i + 1][..i] == reports[..i];
          AbsorbReport(reports[i]);
          i := i + 1;
        }
        assert reports[..i] == reports;
      }
    }

    method FailLost(n: NodeId, p: Payload) returns (ghost order: seq<JobId>)
      modifies this`jobs
      ensures ValidLost(old(jobs), n, p, order) && jobs == FailAll(old(jobs), order)
      ensures jobs.Keys == old(jobs.Keys)
      ensures forall id :: id in old(jobs) ==>
        var job := old(jobs)[id];
        if p.running.Some? && IsExecuting(job) && job.node == Some(n) && id !in p.running.value
        then jobs[id].status == Failed
        else Evolves(job, jobs[id])
    {
      order := [];
      if p.running.Some? {
        var lost := Listing(LostJobs(jobs, n, Ids(p.running.value)));
        FailRows(lost);
        order := lost;
        FailAllEffect(old(jobs), lost);
      }
    }

    /** Reserves at most one job: the children it may have are deleted first. */
    method Schedule(v: NodeView) returns (pick: Option<JobId>)
      modifies this`jobs
      ensures ValidPick(old(jobs), v, pick)
      ensures jobs == if pick.Some? then Reserve(old(jobs), v.name, pick.value) else old(jobs)
      ensures pick.Some? ==> IsReserved(old(jobs), pick.value, v.name, jobs)
      ensures Integrity(old(View())) && pick.Some? ==> Children(jobs, pick.value) == {}
    {
      pick := PickJob(jobs, v);
      if pick.Some? {
        var id := pick.value;
        var job := jobs[id];
        jobs := Delete(jobs, Children(jobs, id));
        job := job.(status := Reserved, node := Some(v.name), exception := None);
        jobs := jobs[id := job];
        EverythingBelowGoes(old(jobs), id, job);
      }
    }

    method ReservedJobs(n: NodeId) returns (data: seq<JobData>)
      ensures IsListing(JobIds(data), OnNodeIn(jobs, n, Reserved))
      ensures forall d :: d in data ==>
        d.id in jobs && d.jobClass == jobs[d.id].jobClass && d.params == jobs[d.id].params
    {
      var ids := Listing(OnNodeIn(jobs, n, Reserved));
      data := [];
      var i := 0;
      while i < |ids|
        invariant 0 <= i <= |ids|
        invariant JobIds(data) == ids[..i]
        invariant forall d :: d in data ==>
          d.id in jobs && d.jobClass == jobs[d.id].jobClass && d.params == jobs[d.id].params
      {
        data := data + [JobData(ids[i], jobs[ids[i]].jobClass, jobs[ids[i]].params)];
        i := i + 1;
      }
      assert ids[..i] == ids;
    }

    /** What the request reports of its jobs, and the jobs it has lost. */
    method ReadPayload(n: NodeId, p: Payload) returns (ghost lost: seq<JobId>)
      modifies this`jobs, this`nextId
      ensures var u := AbsorbReported(Table(MarkReported(old(jobs), p), old(nextId)), p);
        ValidLost(u.rows, n, p, lost) && View() == u.(rows := FailAll(u.rows, lost))
    {
      MarkRunning(p);
      AbsorbFinished(p);
      lost := FailLost(n, p);
    }

    /** The scheduler, and the answer with the jobs to kill that were read before. */
    method Answer(v: NodeView, toKill: seq<JobId>) returns (reply: Reply, pick: Option<JobId>)
      modifies this`jobs
      ensures ValidPick(old(jobs), v, pick)
      ensures jobs == if pick.Some? then Reserve(old(jobs), v.name, pick.value) else old(jobs)
      ensures if !v.dispatching then reply == Reply([], []) else
        && reply.kill == toKill && IsListing(JobIds(reply.jobs), OnNodeIn(jobs, v.name, Reserved))
        && forall d :: d in reply.jobs ==>
             d.id in jobs && d.jobClass == jobs[d.id].jobClass && d.params == jobs[d.id].params
    {
      reply, pick := Reply([], []), None;
      if v.dispatching {
        pick := Schedule(v);
        var data := ReservedJobs(v.name);
        reply := Reply(data, toKill);
      }
    }

    /** The whole request. silent and ch are what the proofs about heartbeats call the nodes past
        the silence limit and the choices the database made; v is what the scheduler saw. */
    method PostClientDiscover(r: Request, cloud: Cloud, now: int)
      returns (reply: Reply, ghost silent: set<NodeId>, ghost v: NodeView, ghost ch: Choices)
      modifies this
      ensures nodes == old(nodes)[r.machine := UpdatedNode(old(nodes), r, cloud, now)]
      ensures Sees(old(nodes), r, cloud, v) && StoredAs(old(nodes), r, cloud, now, nodes[r.machine])
      ensures forall n :: n in silent <==> n in old(nodes) && old(nodes)[n].lastSeen < now - 7200
      ensures v == ViewOf(nodes, r, cloud)
      ensures ValidChoices(old(View()), silent, v, r.payload, ch)
      ensures View() == Beat(old(View()), r.machine, r.payload, ch)
      ensures Answers(old(View()), View(), v, ch, reply)
      ensures Comes(old(View()), old(nodes), r, cloud, now, ch, reply, jobs)
    {
      ViewOfRequest(nodes, r, cloud, now);
      silent := SilentNodes(nodes, now);
      ghost var dead := CleanupDeadJobs(SilentNodes(nodes, now));
      nodes := nodes[r.machine := UpdatedNode(nodes, r, cloud, now)];
      var view := ViewOf(nodes, r, cloud);
      v := view;
      var toKill := Listing(OnNodeIn(jobs, r.machine, Terminating));
      ghost var lost := ReadPayload(r.machine, r.payload);
      var picked;
      reply, picked := Answer(view, toKill);
      ch := Choices(dead, lost, picked);
      RequestOutcome(old(View()), old(nodes), r, cloud, now, v, ch, reply);
    }

    // ---- What users ask for ----

    method CreateJob(job: Job) returns (id: JobId)
      modifies this`jobs, this`nextId
      ensures id == old(nextId) && View() == Insert(old(View()), job)
      ensures jobs == old(jobs)[id := job] && nextId == old(nextId) + 1
    {
      id := nextId;
      jobs, nextId := jobs[id := job], nextId + 1;
    }

    method KillJob(id: JobId) returns (r: Response)
      modifies this`jobs
      ensures id !in old(jobs) ==> r == Raises && jobs == old(jobs)
      ensures id in old(jobs) ==> jobs == Kill(old(jobs), id)
      ensures id in old(jobs) && old(jobs)[id].status == Running ==>
        r == Done && jobs == old(jobs)[id := old(jobs)[id].(status := Terminating)]
      ensures id in old(jobs) && old(jobs)[id].status != Running ==> r == NotFound && jobs == old(jobs)
    {
      if id !in jobs {
        return Raises;
      }
      r := NotFound;
      if jobs[id].status == Running {
        jobs := jobs[id := jobs[id].(status := Terminating)];
        r := Done;
      }
    }

    method RestartJob(id: JobId, clone: bool, sameMachine: bool) returns (r: Response)
      modifies this`jobs, this`nextId
      ensures id !in old(jobs) ==> r == Raises && View() == old(View())
      ensures id in old(jobs) && clone ==> r == Done && View() == Insert(old(View()), Clone(old(jobs)[id], sameMachine))
      ensures id in old(jobs) && clone ==>
        && nextId == old(nextId) + 1 && old(nextId) in jobs && jobs == old(jobs)[old(nextId) := jobs[old(nextId)]]
        && IsClone(old(jobs)[id], sameMachine, jobs[old(nextId)])
      ensures id in old(jobs) && !clone ==>
        nextId == old(nextId) && jobs == Restart(old(jobs), id, sameMachine)
      ensures id in old(jobs) && !clone && HasBusyChild(old(jobs), id) ==> r == Refused && jobs == old(jobs)
      ensures id in old(jobs) && !clone && !HasBusyChild(old(jobs), id) ==>
        && r == Done && id in jobs && IsReset(old(jobs)[id], sameMachine, jobs[id])
        && Cleared(old(jobs), id, jobs[id], jobs)
      ensures id in old(jobs) && !clone && r == Done && Integrity(old(View())) ==> Children(jobs, id) == {}
    {
      if id !in jobs {
        return Raises;
      }
      r := Done;
      if clone {
        var job := jobs[id];
        var copy := Clone(job, sameMachine).(status := Created, tags := {});
        var newId := CreateJob(copy);
        jobs := jobs[newId := jobs[newId].(tags := job.tags)];
        jobs := jobs[newId := jobs[newId].(status := Ready)];
      } else if |ChildrenIn(jobs, id, Running)| + |ChildrenIn(jobs, id, Waiting)| > 0 {
        RefusedByCount(jobs, id);
        r := Refused;
      } else {
        RefusedByCount(jobs, id);
        var job := jobs[id];
        jobs := Delete(jobs, Children(jobs, id));
        jobs := jobs[id := Reset(job, sameMachine)];
        EverythingBelowGoes(old(jobs), id, jobs[id]);
      }
    }

    method RestartJobFailedChild(id: JobId, sameMachine: bool) returns (r: Response)
      modifies this`jobs
      ensures id !in old(jobs) ==> r == Raises && jobs == old(jobs)
      ensures id in old(jobs) ==> r == Done && jobs == RestartFailedChildren(old(jobs), id, sameMachine)
      ensures id in old(jobs) ==> ResetsFailed(old(jobs), id, sameMachine, jobs)
    {
      if id !in jobs {
        return Raises;
      }
      var parent := jobs[id];
      var failed := ChildrenIn(jobs, id, Failed);
      FailedAreReset(jobs, id, sameMachine);
      if failed != {} {
        jobs := map k | k in jobs :: if k in failed then Reset(jobs[k], sameMachine) else jobs[k];
        jobs := jobs[id := parent.(status := Waiting)];
      }
      r := Done;
    }

    method DeleteJob(id: JobId) returns (r: Response)
      modifies this`jobs
      ensures id !in old(jobs) ==> r == Raises && jobs == old(jobs)
      ensures id in old(jobs) ==> jobs == Remove(old(jobs), id) && (r == Done <==> id !in jobs)
      ensures id in old(jobs) && old(jobs)[id].status in {Ready, Success, Failed} ==>
        && r == Done && (forall k :: k in jobs <==> k in old(jobs) && k != id && !Below(old(jobs), k, id))
        && forall k :: k in jobs ==> jobs[k] == old(jobs)[k]
      ensures id in old(jobs) && old(jobs)[id].status !in {Ready, Success, Failed} ==>
        r == NotFound && jobs == old(jobs)
    {
      if id !in jobs {
        return Raises;
      }
      r := NotFound;
      if Deletable(jobs[id].status) {
        DeletedWithBelow(jobs, id);
        jobs := Delete(jobs, {id});
        r := Done;
      }
    }
  }

  lemma RefusedByCount(rows: Rows, id: JobId)
    ensures |ChildrenIn(rows, id, Running)| + |ChildrenIn(rows, id, Waiting)| > 0 <==> RestartRefused(rows, id)
  {
    var running, waiting := ChildrenIn(rows, id, Running), ChildrenIn(rows, id, Waiting);
    if RestartRefused(rows, id) {
      var c :| c in Children(rows, id) && (rows[c].status == Running || rows[c].status == Waiting);
      assert c in running || c in waiting;
    }
    if |running| > 0 {
      var c :| c in running;
      assert c in Children(rows, id);
    } else if |waiting| > 0 {
      var c :| c in waiting;
      assert c in Children(rows, id);
    }
  }
}
