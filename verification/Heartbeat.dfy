/** One heartbeat of a node as a step on the table, and what holds of it for every table and
    every request. The rows come back from the database in an order the code does not fix, so
    those orders are part of the step's choices. */
module Heartbeat {
  import opened Wrappers
  import opened JobTable
  import opened Reports
  import opened Admin
  import opened Scheduler

  datatype Choices = Choices(dead: seq<JobId>, lost: seq<JobId>, pick: Option<JobId>)

  datatype JobData = JobData(id: JobId, jobClass: string, params: string)

  datatype Reply = Reply(jobs: seq<JobData>, kill: seq<JobId>)

  function JobIds(jobs: seq<JobData>): seq<JobId> {
    seq(|jobs|, i requires 0 <= i < |jobs| => jobs[i].id)
  }

  function RunningIds(p: Payload): set<JobId> {
    if p.running.Some? then Ids(p.running.value) else {}
  }

  function ReportedIds(p: Payload): set<JobId> {
    MarkedIds(p) + FinishedIds(p)
  }

  // ---- The step ----

  function AfterReports(t: Table, p: Payload, dead: seq<JobId>): Table {
    AbsorbReported(t.(rows := MarkReported(FailAll(t.rows, dead), p)), p)
  }

  /** The table when the scheduler starts. */
  function Settle(t: Table, p: Payload, dead: seq<JobId>, lost: seq<JobId>): Table {
    var u := AfterReports(t, p, dead);
    u.(rows := FailAll(u.rows, lost))
  }

  function Reserve(rows: Rows, n: NodeId, j: JobId): Rows
    requires j in rows
  {
    DeleteChildrenAndSave(rows, j, rows[j].(status := Reserved, node := Some(n), exception := None))
  }

  function Beat(t: Table, n: NodeId, p: Payload, ch: Choices): Table {
    var u := Settle(t, p, ch.dead, ch.lost);
    if ch.pick.Some? && ch.pick.value in u.rows then u.(rows := Reserve(u.rows, n, ch.pick.value)) else u
  }

  ghost predicate ValidChoices(t: Table, silent: set<NodeId>, v: NodeView, p: Payload, ch: Choices) {
    && IsListing(ch.dead, DeadJobs(t.rows, silent))
    && ValidLost(AfterReports(t, p, ch.dead).rows, v.name, p, ch.lost)
    && ValidPick(Settle(t, p, ch.dead, ch.lost).rows, v, ch.pick)
  }

  predicate ValidLost(rows: Rows, n: NodeId, p: Payload, lost: seq<JobId>) {
    if p.running.Some? then IsListing(lost, LostJobs(rows, n, RunningIds(p))) else lost == []
  }

  function OnNodeIn(rows: Rows, n: NodeId, s: Status): set<JobId> {
    set j | j in rows && rows[j].status == s && OnNode(rows[j], n)
  }

  /** The answer to the heartbeat: every job reserved for the node, and the jobs to kill as
      they stood before the reports were read. */
  predicate Answers(t: Table, u: Table, v: NodeView, ch: Choices, reply: Reply) {
    if !v.dispatching then reply == Reply([], []) else
    && IsListing(JobIds(reply.jobs), OnNodeIn(u.rows, v.name, Reserved))
    && (forall d :: d in reply.jobs ==>
         d.id in u.rows && d.jobClass == u.rows[d.id].jobClass && d.params == u.rows[d.id].params)
    && IsListing(reply.kill, OnNodeIn(FailAll(t.rows, ch.dead), v.name, Terminating))
  }

  // ---- What it does to each row ----

  predicate SettledAs(a: Job, b: Job, finished: bool, marked: bool, dead: bool, lost: bool) {
    && SameRequest(a, b)
    && if finished then b.status == Waiting || Final(b.status)
       else if lost then b.status == Failed
       else if marked then b.status == if a.status == Terminating && !dead then Terminating else Running
       else if dead then b.status == Failed
       else b.status == a.status || (a.status == Waiting && Final(b.status))
  }

  predicate RowSettled(t: Table, u: Table, p: Payload, dead: seq<JobId>, lost: seq<JobId>, id: JobId)
    requires id in t.rows && id in u.rows
  {
    SettledAs(t.rows[id], u.rows[id], id in FinishedIds(p), id in MarkedIds(p), id in dead, id in lost)
  }

  lemma RowChain(a: Job, failed: Job, marked: Job, absorbed: Job, b: Job, finished: bool, mark: bool, dead: bool,
                 lost: bool)
    requires FailedAs(a, failed, dead) && MarkedAs(failed, marked, mark)
    requires AbsorbedAs(marked, absorbed, finished) && FailedAs(absorbed, b, lost)
    ensures SettledAs(a, b, finished, mark, dead, lost)
  {
  }

  lemma RowEffect(t: Table, p: Payload, dead: seq<JobId>, lost: seq<JobId>, id: JobId)
    requires KeysIssued(t)
    requires id in t.rows
    ensures id in Settle(t, p, dead, lost).rows && RowSettled(t, Settle(t, p, dead, lost), p, dead, lost, id)
  {
    var failed := FailAll(t.rows, dead);
    var marked := t.(rows := MarkReported(failed, p));
    var absorbed := AfterReports(t, p, dead);
    FailAllEffect(t.rows, dead);
    MarkReportedEffect(failed, p);
    AbsorbReportedEffect(marked, p);
    FailAllEffect(absorbed.rows, lost);
    RowChain(t.rows[id], failed[id], marked.rows[id], absorbed.rows[id], FailAll(absorbed.rows, lost)[id],
      id in FinishedIds(p), id in MarkedIds(p), id in dead, id in lost);
  }

  lemma NewRowEffect(t: Table, n: NodeId, p: Payload, dead: seq<JobId>, lost: seq<JobId>, id: JobId)
    requires KeysIssued(t)
    requires ValidLost(AfterReports(t, p, dead).rows, n, p, lost)
    requires id in Settle(t, p, dead, lost).rows && id !in t.rows
    ensures var u := Settle(t, p, dead, lost);
      t.nextId <= id && AddedAs(u.rows[id], FinishedIds(p) * u.rows.Keys, id in FinishedIds(p))
  {
    var marked := t.(rows := MarkReported(FailAll(t.rows, dead), p));
    var absorbed := AfterReports(t, p, dead);
    AbsorbReportedEffect(marked, p);
    FailAllEffect(absorbed.rows, lost);
    assert AddedAs(absorbed.rows[id], FinishedIds(p) * absorbed.rows.Keys, id in FinishedIds(p));
    assert FailedAs(absorbed.rows[id], FailAll(absorbed.rows, lost)[id], id in lost);
    NotLost(absorbed.rows, n, p, lost, id);
  }

  /** When every reported id is issued, so is the parent of a row the heartbeat creates. */
  lemma IssuedParents(t: Table, n: NodeId, p: Payload, dead: seq<JobId>, lost: seq<JobId>, id: JobId)
    requires KeysIssued(t) && ValidLost(AfterReports(t, p, dead).rows, n, p, lost)
    requires forall k :: k in FinishedIds(p) ==> k < t.nextId
    requires id in Settle(t, p, dead, lost).rows && id !in t.rows
    ensures t.nextId <= id && FreshChild(Settle(t, p, dead, lost).rows[id], FinishedIds(p) * t.rows.Keys)
  {
    NewRowEffect(t, n, p, dead, lost, id);
    var u := Settle(t, p, dead, lost);
    forall k | k in u.rows && k < t.nextId ensures k in t.rows {
      if k !in t.rows {
        SettleAddsNew(t, p, dead, lost, k);
      }
    }
  }

  lemma SettleAddsNew(t: Table, p: Payload, dead: seq<JobId>, lost: seq<JobId>, id: JobId)
    requires KeysIssued(t) && id in Settle(t, p, dead, lost).rows && id !in t.rows
    ensures t.nextId <= id
  {
    AbsorbReportedEffect(t.(rows := MarkReported(FailAll(t.rows, dead), p)), p);
  }

  lemma NotLost(rows: Rows, n: NodeId, p: Payload, lost: seq<JobId>, id: JobId)
    requires ValidLost(rows, n, p, lost) && id in rows
    ensures id in lost ==> Executing(rows[id].status) && OnNode(rows[id], n) && id !in RunningIds(p)
    ensures p.running.Some? && Executing(rows[id].status) && OnNode(rows[id], n) && id !in RunningIds(p) ==> id in lost
  {
    if id in lost {
      var i :| 0 <= i < |lost| && lost[i] == id;
      assert lost[i] in LostJobs(rows, n, RunningIds(p));
    }
  }

  /** After the lost jobs have been failed, what the table has executing on the node is what
      the node listed. */
  lemma ExecutingIsListed(t: Table, n: NodeId, p: Payload, dead: seq<JobId>, lost: seq<JobId>, id: JobId)
    requires p.running.Some? && ValidLost(AfterReports(t, p, dead).rows, n, p, lost)
    requires id in Settle(t, p, dead, lost).rows
    requires var job := Settle(t, p, dead, lost).rows[id]; Executing(job.status) && OnNode(job, n)
    ensures id in RunningIds(p)
  {
    var absorbed := AfterReports(t, p, dead);
    FailAllEffect(absorbed.rows, lost);
    assert FailedAs(absorbed.rows[id], FailAll(absorbed.rows, lost)[id], id in lost);
    NotLost(absorbed.rows, n, p, lost, id);
  }

  lemma SettleKeysIssued(t: Table, p: Payload, dead: seq<JobId>, lost: seq<JobId>)
    requires KeysIssued(t)
    ensures KeysIssued(Settle(t, p, dead, lost)) && t.nextId <= Settle(t, p, dead, lost).nextId
    ensures t.rows.Keys <= Settle(t, p, dead, lost).rows.Keys
  {
    AbsorbReportedEffect(t.(rows := MarkReported(FailAll(t.rows, dead), p)), p);
  }

  // ---- For every table and every request ----

  /** No job the node reports, running or finished, comes back as a job to launch. */
  lemma NoDuplicateLaunch(t: Table, silent: set<NodeId>, v: NodeView, p: Payload, ch: Choices, reply: Reply, id: JobId)
    requires KeysIssued(t) && ValidChoices(t, silent, v, p, ch)
    requires Answers(t, Beat(t, v.name, p, ch), v, ch, reply)
    requires id in ReportedIds(p) && id < t.nextId
    ensures id !in JobIds(reply.jobs)
  {
    var u := Beat(t, v.name, p, ch);
    if id in u.rows {
      BeatAfterSettle(t, silent, v, p, ch, id);
      ReportedIsNotIdle(t, v.name, p, ch.dead, ch.lost, id);
      assert id !in OnNodeIn(u.rows, v.name, Reserved);
    }
  }

  lemma ReportedIsNotIdle(t: Table, n: NodeId, p: Payload, dead: seq<JobId>, lost: seq<JobId>, id: JobId)
    requires KeysIssued(t) && ValidLost(AfterReports(t, p, dead).rows, n, p, lost)
    requires id in ReportedIds(p) && id < t.nextId && id in Settle(t, p, dead, lost).rows
    ensures Settle(t, p, dead, lost).rows[id].status !in {Ready, Reserved}
  {
    if id in t.rows {
      RowEffect(t, p, dead, lost, id);
    } else {
      NewRowEffect(t, n, p, dead, lost, id);
      assert false;
    }
  }

  // ---- Only ids that had been handed out are safe from it ----

  ghost predicate Exchange(t: Table, silent: set<NodeId>, v: NodeView, p: Payload, ch: Choices, reply: Reply) {
    ValidChoices(t, silent, v, p, ch) && Answers(t, Beat(t, v.name, p, ch), v, ch, reply)
  }

  /** Whatever node reports id, it is not given id to launch. */
  ghost predicate NotGivenBack(t: Table, id: JobId) {
    forall silent, v, p, ch, reply ::
      Exchange(t, silent, v, p, ch, reply) && id in ReportedIds(p) ==> id !in JobIds(reply.jobs)
  }

  /** Exactly which ids no request gets back: the promise needs no more than that id had been
      handed out, and fails for every other id once the table has a row. */
  lemma NotGivenBackIff(t: Table, id: JobId)
    requires KeysIssued(t)
    ensures NotGivenBack(t, id) <==> id < t.nextId || t.rows == map[]
  {
    if id < t.nextId {
      forall silent, v, p, ch, reply | Exchange(t, silent, v, p, ch, reply) && id in ReportedIds(p)
        ensures id !in JobIds(reply.jobs)
      {
        NoDuplicateLaunch(t, silent, v, p, ch, reply, id);
      }
    } else if t.rows == map[] {
      forall silent, v, p, ch, reply | Exchange(t, silent, v, p, ch, reply) ensures id !in JobIds(reply.jobs) {
        NothingToLaunch(t, silent, v, p, ch, reply, id);
      }
    } else {
      var q :| q in t.rows;
      var v, p, ch, reply := UnissuedIdIsLaunched(t, q, id);
      assert Exchange(t, {}, v, p, ch, reply);
    }
  }

  lemma NothingToLaunch(t: Table, silent: set<NodeId>, v: NodeView, p: Payload, ch: Choices, reply: Reply, id: JobId)
    requires t.rows == map[] && Exchange(t, silent, v, p, ch, reply)
    ensures id !in JobIds(reply.jobs)
  {
    var marked := t.(rows := MarkReported(FailAll(t.rows, ch.dead), p));
    if p.finished.Some? {
      NothingToAbsorb(marked, p.finished.value);
    }
    assert Settle(t, p, ch.dead, ch.lost).rows.Keys == {};
    assert OnNodeIn(Beat(t, v.name, p, ch).rows, v.name, Reserved) == {};
  }

  lemma {:induction false} NothingToAbsorb(t: Table, reports: seq<Report>)
    requires t.rows.Keys == {}
    ensures AbsorbAll(t, reports) == t
  {
    if reports != [] {
      NothingToAbsorb(t, reports[..|reports| - 1]);
    }
  }

  /** For every stored job and every id not handed out yet: a node that no row names reports that
      the job yields children enough, and lists the id; the child with that id is launched on it. */
  lemma UnissuedIdIsLaunched(t: Table, q: JobId, id: JobId) returns (v: NodeView, p: Payload, ch: Choices, reply: Reply)
    requires KeysIssued(t) && q in t.rows && t.nextId <= id
    ensures Exchange(t, {}, v, p, ch, reply)
    ensures id in ReportedIds(p) && id in JobIds(reply.jobs)
  {
    var n := UnnamedNode(t.rows);
    var spec := ChildSpec("c", "", Some(n));
    var r := Report(q, "", Yielded(Copies(spec, id - t.nextId + 1)));
    v := NodeView(n, false, false, Some(1), t.rows[q].reqVersion, {}, {"c"}, true);
    p := Payload(Some([id]), None, Some([r]));
    ch, reply := Choices([], [], Some(id)), Reply([JobData(id, "c", "")], []);
    YieldedCopies(t, p, r, spec, id);
    OneCopyPicked(Settle(t, p, [], []).rows, t.rows[q], q, v, id);
    OneCopyChosen(t, v, p, ch, id);
    OneCopyAnswered(t, Beat(t, n, p, ch), v, ch, reply, id);
    assert p.running.value[0] == id;
  }

  lemma OneCopyChosen(t: Table, v: NodeView, p: Payload, ch: Choices, id: JobId)
    requires ch == Choices([], [], Some(id)) && p.running.Some?
    requires AfterReports(t, p, []).rows == Settle(t, p, [], []).rows
    requires forall k :: k in Settle(t, p, [], []).rows && OnNode(Settle(t, p, [], []).rows[k], v.name) ==>
      Settle(t, p, [], []).rows[k].status == Ready
    requires ValidPick(Settle(t, p, [], []).rows, v, Some(id))
    ensures ValidChoices(t, {}, v, p, ch)
  {
    assert DeadJobs(t.rows, {}) == {} && LostJobs(AfterReports(t, p, []).rows, v.name, RunningIds(p)) == {};
  }

  lemma OneCopyAnswered(t: Table, u: Table, v: NodeView, ch: Choices, reply: Reply, id: JobId)
    requires v.dispatching && ch.dead == [] && reply == Reply([JobData(id, "c", "")], [])
    requires forall k :: k in t.rows ==> !OnNode(t.rows[k], v.name)
    requires OnNodeIn(u.rows, v.name, Reserved) == {id}
    requires id in u.rows && u.rows[id].jobClass == "c" && u.rows[id].params == ""
    ensures Answers(t, u, v, ch, reply) && id in JobIds(reply.jobs)
  {
    assert JobIds(reply.jobs) == [id] && OnNodeIn(t.rows, v.name, Terminating) == {};
  }

  function Copies(spec: ChildSpec, k: nat): seq<ChildSpec> {
    seq(k, _ => spec)
  }

  /** Old rows keep off the node; every other row is a child of q waiting to be given to it. */
  predicate OnlyCopies(before: set<JobId>, rows: Rows, n: NodeId, child: Job) {
    forall k :: k in rows ==> if k in before then !OnNode(rows[k], n) else rows[k] == child
  }

  lemma YieldedCopies(t: Table, p: Payload, r: Report, spec: ChildSpec, id: JobId)
    requires KeysIssued(t) && r.id in t.rows && t.nextId <= id && spec.node.Some?
    requires r == Report(r.id, "", Yielded(Copies(spec, id - t.nextId + 1)))
    requires p == Payload(Some([id]), None, Some([r]))
    requires forall k :: k in t.rows ==> !OnNode(t.rows[k], spec.node.value)
    ensures var rows := Settle(t, p, [], []).rows;
      && AfterReports(t, p, []).rows == rows && id in rows && id !in t.rows
      && OnlyCopies(t.rows.Keys, rows, spec.node.value, ChildRow(r.id, t.rows[r.id], spec))
  {
    assert MarkReported(t.rows, p) == t.rows;
    OneReport(t, r);
    SpawnCopies(t, r.id, t.rows[r.id], spec, id - t.nextId + 1);
    AbsorbEffect(t, r);
    var spawned := Spawn(t, r.id, t.rows[r.id], ReportChildren(r)).rows[r.id := Reported(t.rows[r.id], r)];
    forall k | k in Absorb(t, r).rows
      ensures if k in t.rows then !OnNode(Absorb(t, r).rows[k], spec.node.value)
              else Absorb(t, r).rows[k] == ChildRow(r.id, t.rows[r.id], spec)
    {
      assert Evolves(spawned[k], Absorb(t, r).rows[k]);
      if k in t.rows {
        assert AbsorbedAs(t.rows[k], Absorb(t, r).rows[k], k in {r.id});
      }
    }
  }

  lemma OneReport(t: Table, r: Report)
    ensures AbsorbAll(t, [r]) == Absorb(t, r)
  {
    assert [r][..0] == [] && AbsorbAll(t, []) == t;
  }

  lemma {:induction false} SpawnCopies(t: Table, parent: JobId, job: Job, spec: ChildSpec, k: nat)
    requires KeysIssued(t)
    ensures var u := Spawn(t, parent, job, Copies(spec, k));
      && (forall id :: id in u.rows <==> id in t.rows || t.nextId <= id < t.nextId + k)
      && (forall id :: id in u.rows ==> u.rows[id] == if id in t.rows then t.rows[id] else ChildRow(parent, job, spec))
  {
    if k > 0 {
      SpawnCopies(t, parent, job, spec, k - 1);
      assert Copies(spec, k)[..k - 1] == Copies(spec, k - 1);
    }
  }

  lemma OneCopyPicked(rows: Rows, job: Job, q: JobId, v: NodeView, id: JobId)
    requires v == NodeView(v.name, false, false, Some(1), job.reqVersion, {}, {"c"}, true)
    requires id in rows && rows[id] == ChildRow(q, job, ChildSpec("c", "", Some(v.name)))
    requires forall k :: k in rows && OnNode(rows[k], v.name) ==> rows[k] == rows[id]
    ensures ValidPick(rows, v, Some(id))
    ensures OnNodeIn(Reserve(rows, v.name, id), v.name, Reserved) == {id}
    ensures Reserve(rows, v.name, id)[id].jobClass == "c" && Reserve(rows, v.name, id)[id].params == ""
  {
    assert Eligible(rows, v, id);
    var u := Reserve(rows, v.name, id);
    forall k | k in u ensures k in OnNodeIn(u, v.name, Reserved) <==> k == id {
      assert k != id && OnNode(u[k], v.name) ==> u[k] == rows[id];
    }
  }

  lemma UnnamedNode(rows: Rows) returns (n: NodeId)
    ensures forall k :: k in rows ==> !OnNode(rows[k], n)
  {
    var most := LongestName(rows, rows.Keys);
    n := seq(most + 1, _ => 'n');
  }

  lemma {:induction false} LongestName(rows: Rows, ids: set<JobId>) returns (most: nat)
    requires ids <= rows.Keys
    ensures forall k :: k in ids && rows[k].node.Some? ==> |rows[k].node.value| <= most
    decreases |ids|
  {
    most := 0;
    if ids != {} {
      var x :| x in ids;
      most := LongestName(rows, ids - {x});
      most := if rows[x].node.Some? && |rows[x].node.value| > most then |rows[x].node.value| else most;
      assert forall k :: k in ids ==> k == x || k in ids - {x};
    }
  }

  /** The scheduler touches one ready row, and deletes what is below it. */
  lemma BeatAfterSettle(t: Table, silent: set<NodeId>, v: NodeView, p: Payload, ch: Choices, id: JobId)
    requires ValidChoices(t, silent, v, p, ch)
    requires id in Beat(t, v.name, p, ch).rows
    ensures var s, u := Settle(t, p, ch.dead, ch.lost), Beat(t, v.name, p, ch);
      && id in s.rows
      && if ch.pick == Some(id) then
           && s.rows[id].status == Ready
           && u.rows[id] == s.rows[id].(status := Reserved, node := Some(v.name), exception := None)
         else u.rows[id] == s.rows[id]
  {
  }

  /** A job the scheduler cannot pick keeps its status. */
  lemma BeatKeepsStatus(t: Table, silent: set<NodeId>, v: NodeView, p: Payload, ch: Choices, id: JobId)
    requires ValidChoices(t, silent, v, p, ch) && id in Beat(t, v.name, p, ch).rows
    requires id in Settle(t, p, ch.dead, ch.lost).rows
    requires Settle(t, p, ch.dead, ch.lost).rows[id].status != Ready
    ensures Beat(t, v.name, p, ch).rows[id].status == Settle(t, p, ch.dead, ch.lost).rows[id].status
  {
    BeatAfterSettle(t, silent, v, p, ch, id);
  }

  /** A job terminating when its node's heartbeat arrives is named in the answer. */
  lemma TerminatingIsNamed(t: Table, silent: set<NodeId>, v: NodeView, p: Payload, ch: Choices, reply: Reply, id: JobId)
    requires v.name !in silent && IsListing(ch.dead, DeadJobs(t.rows, silent))
    requires v.dispatching && Answers(t, Beat(t, v.name, p, ch), v, ch, reply)
    requires id in t.rows && t.rows[id].status == Terminating && OnNode(t.rows[id], v.name)
    ensures id in reply.kill
  {
    NotDead(t.rows, silent, ch.dead, id, v.name);
    assert id in OnNodeIn(FailAll(t.rows, ch.dead), v.name, Terminating);
  }

  lemma WasTerminating(rows: Rows, dead: seq<JobId>, id: JobId)
    requires id in rows && FailAll(rows, dead)[id].status == Terminating
    ensures rows[id].status == Terminating && rows[id].node == FailAll(rows, dead)[id].node
  {
    FailAllEffect(rows, dead);
    assert FailedAs(rows[id], FailAll(rows, dead)[id], id in dead);
  }

  /** And the answer names nothing else: exactly the jobs terminating on the node when it asked,
      if it is given an answer at all. */
  lemma KillListExact(t: Table, silent: set<NodeId>, v: NodeView, p: Payload, ch: Choices, reply: Reply, id: JobId)
    requires v.name !in silent && IsListing(ch.dead, DeadJobs(t.rows, silent))
    requires Answers(t, Beat(t, v.name, p, ch), v, ch, reply)
    ensures id in reply.kill <==>
      v.dispatching && id in t.rows && t.rows[id].status == Terminating && t.rows[id].node == Some(v.name)
  {
    if id in reply.kill {
      assert id in OnNodeIn(FailAll(t.rows, ch.dead), v.name, Terminating);
      WasTerminating(t.rows, ch.dead, id);
    } else if v.dispatching && id in t.rows && t.rows[id].status == Terminating && OnNode(t.rows[id], v.name) {
      TerminatingIsNamed(t, silent, v, p, ch, reply, id);
    }
  }

  /** Killing is not undone: a terminating job stays terminating while its node still lists it,
      and is failed by the first heartbeat that neither lists it nor reports its end. */
  lemma TerminatingSticks(t: Table, silent: set<NodeId>, v: NodeView, p: Payload, ch: Choices, id: JobId)
    requires KeysIssued(t)
    requires p.running.Some? && v.name !in silent
    requires ValidChoices(t, silent, v, p, ch)
    requires id in t.rows && t.rows[id].status == Terminating && OnNode(t.rows[id], v.name)
    requires id in Beat(t, v.name, p, ch).rows
    ensures var s := Beat(t, v.name, p, ch).rows[id].status;
      if id in FinishedIds(p) then s == Waiting || Final(s)
      else s == if id in RunningIds(p) then Terminating else Failed
  {
    NotDead(t.rows, silent, ch.dead, id, v.name);
    TerminatingSettles(t, v.name, p, ch.dead, ch.lost, id);
    BeatKeepsStatus(t, silent, v, p, ch, id);
  }

  lemma TerminatingSettles(t: Table, n: NodeId, p: Payload, dead: seq<JobId>, lost: seq<JobId>, id: JobId)
    requires KeysIssued(t)
    requires p.running.Some? && ValidLost(AfterReports(t, p, dead).rows, n, p, lost)
    requires id in t.rows && t.rows[id].status == Terminating && OnNode(t.rows[id], n) && id !in dead
    ensures id in Settle(t, p, dead, lost).rows
    ensures var s := Settle(t, p, dead, lost).rows[id].status;
      if id in FinishedIds(p) then s == Waiting || Final(s)
      else s == if id in RunningIds(p) then Terminating else Failed
  {
    if id in FinishedIds(p) {
      RowEffect(t, p, dead, lost, id);
    } else {
      TerminatingUnlessLost(t, n, p, dead, lost, id);
    }
  }

  lemma NotDead(rows: Rows, silent: set<NodeId>, dead: seq<JobId>, id: JobId, n: NodeId)
    requires IsListing(dead, DeadJobs(rows, silent)) && id in rows && OnNode(rows[id], n) && n !in silent
    ensures id !in dead
    ensures Executing(rows[id].status) ==>
      FailAll(rows, dead)[id].status == rows[id].status && OnNode(FailAll(rows, dead)[id], n)
  {
    FailAllEffect(rows, dead);
    assert FailedAs(rows[id], FailAll(rows, dead)[id], id in dead);
    assert id in dead ==> id in DeadJobs(rows, silent);
  }

  lemma TerminatingUnlessLost(t: Table, n: NodeId, p: Payload, dead: seq<JobId>, lost: seq<JobId>, id: JobId)
    requires KeysIssued(t)
    requires p.running.Some? && ValidLost(AfterReports(t, p, dead).rows, n, p, lost)
    requires id in t.rows && t.rows[id].status == Terminating && OnNode(t.rows[id], n)
    requires id !in dead && id !in FinishedIds(p)
    ensures id in Settle(t, p, dead, lost).rows
    ensures Settle(t, p, dead, lost).rows[id].status == if id in RunningIds(p) then Terminating else Failed
  {
    var failed := FailAll(t.rows, dead);
    var marked := t.(rows := MarkReported(failed, p));
    var absorbed := AfterReports(t, p, dead);
    FailAllEffect(t.rows, dead);
    assert FailedAs(t.rows[id], failed[id], false);
    MarkReportedEffect(failed, p);
    assert MarkedAs(failed[id], marked.rows[id], id in MarkedIds(p));
    AbsorbReportedEffect(marked, p);
    assert AbsorbedAs(marked.rows[id], absorbed.rows[id], false);
    FailAllEffect(absorbed.rows, lost);
    assert FailedAs(absorbed.rows[id], FailAll(absorbed.rows, lost)[id], id in lost);
    NotLost(absorbed.rows, n, p, lost, id);
  }
}
