/** Runs in which every message arrives and nothing is restarted, deleted or crashes: what the
    server and the nodes agree on after every step. */
module ReliableFarm {
  import opened Wrappers
  import opened JobTable
  import opened Reports
  import opened Admin
  import opened Scheduler
  import opened Heartbeat
  import opened JobClient
  import opened Agreement
  import opened Farm

  predicate PastReady(s: Status) {
    s != Created && s != Ready
  }

  predicate ParentsStarted(rows: Rows) {
    forall id :: id in rows && rows[id].parent.Some? && rows[id].parent.value in rows ==>
      PastReady(rows[rows[id].parent.value].status)
  }

  /** Dependencies exist, and those of a job past ready are in success. */
  ghost predicate DependenciesDone(rows: Rows) {
    forall id, d :: id in rows && d in rows[id].dependencies ==>
      d in rows && (PastReady(rows[id].status) ==> rows[d].status == Success)
  }

  /** The jobs a node answers for: what it holds, or will hold once the answer arrives. */
  function Expected(node: Node): set<JobId> {
    match node.phase
    case Idle => Held(node.client)
    case Awaiting(sent, jobs) => (Held(node.client) - sent) + jobs
  }

  predicate Agreed(s: State) {
    && (forall n :: n in s.nodes ==> ActiveOn(s.table.rows, n) == Expected(s.nodes[n]))
    && (forall id :: id in s.table.rows && Active(s.table.rows[id].status) ==>
          s.table.rows[id].node.Some? && s.table.rows[id].node.value in s.nodes)
  }

  predicate Occupies(job: Job, n: NodeId, light: bool) {
    (job.status == Reserved || job.status == Running) && OnNode(job, n) && IsLight(job.jobClass) == light
  }

  ghost predicate OnePerChannel(rows: Rows) {
    forall n, light, j, k :: j in rows && k in rows && Occupies(rows[j], n, light) && Occupies(rows[k], n, light) ==>
      j == k
  }

  ghost predicate Inv(s: State) {
    && Safe(s) && ParentsStarted(s.table.rows) && DependenciesDone(s.table.rows)
    && Agreed(s) && OnePerChannel(s.table.rows)
  }

  // ---- What a heartbeat does ----

  predicate MidRow(a: Job, b: Job, finished: bool, running: bool) {
    && SameRequest(a, b)
    && if finished then b.status == Waiting || Final(b.status)
       else if running then b.status == if a.status == Terminating then Terminating else Running
       else b.status == a.status || (a.status == Waiting && Final(b.status))
  }

  function Taken(job: Job, n: NodeId): Job {
    job.(status := Reserved, node := Some(n), exception := None)
  }

  predicate ReliableRequest(step: Step) {
    step.Request? && step.silent == {}
  }

  /** The table just before the scheduler. */
  function Mid(s: State, step: Step): Rows
    requires step.Request?
  {
    Settle(s.table, step.p, step.ch.dead, step.ch.lost).rows
  }

  lemma SomethingListed(list: seq<JobId>, ids: set<JobId>)
    requires IsListing(list, ids) && list != []
    ensures exists id :: id in ids
  {
    assert list[0] in ids;
  }

  lemma RequestFacts(s: State, step: Step, u: State)
    requires Inv(s) && ReliableRequest(step) && Next(s, step, u)
    ensures var c := s.nodes[step.n].client;
      && SafeNode(s.table, s.nodes[step.n]) && FinishedIds(step.p) <= c.finished.Keys
      && Kept(step.p) == Held(c) - FinishedIds(step.p) && Kept(step.p) <= MarkedIds(step.p)
      && ActiveOn(s.table.rows, step.n) == Kept(step.p) + FinishedIds(step.p)
      && (forall k :: k in FinishedIds(step.p) ==> k < s.table.nextId)
    ensures step.ch.dead == []
  {
    var c := s.nodes[step.n].client;
    assert SafeNode(s.table, s.nodes[step.n]);
    assert Expected(s.nodes[step.n]) == Held(c);
    ReportedAreFinished(c, step.p);
    if step.ch.dead != [] {
      SomethingListed(step.ch.dead, DeadJobs(s.table.rows, {}));
    }
  }

  /** The lost-job loop finds nothing: what the table has active on the node was reported. */
  lemma NothingLostIn(t: Table, n: NodeId, p: Payload, lost: seq<JobId>, id: JobId)
    requires KeysIssued(t) && ValidLost(AfterReports(t, p, []).rows, n, p, lost)
    requires MarkedIds(p) <= RunningIds(p) && ActiveOn(t.rows, n) <= ReportedIds(p)
    requires id in AfterReports(t, p, []).rows
    ensures id !in lost
  {
    var marked, absorbed := t.(rows := MarkReported(t.rows, p)), AfterReports(t, p, []);
    MarkReportedEffect(t.rows, p);
    AbsorbReportedEffect(marked, p);
    NotLost(absorbed.rows, n, p, lost, id);
    if id in t.rows {
      assert MarkedAs(t.rows[id], marked.rows[id], id in MarkedIds(p));
      assert AbsorbedAs(marked.rows[id], absorbed.rows[id], id in FinishedIds(p));
      assert Executing(t.rows[id].status) && OnNode(t.rows[id], n) ==> id in ActiveOn(t.rows, n);
    } else {
      assert AddedAs(absorbed.rows[id], FinishedIds(p) * absorbed.rows.Keys, id in FinishedIds(p));
    }
  }

  lemma NothingLost(s: State, step: Step, u: State)
    requires Inv(s) && ReliableRequest(step) && Next(s, step, u)
    ensures step.ch.lost == []
  {
    RequestFacts(s, step, u);
    var lost := step.ch.lost;
    if |lost| > 0 {
      var rows := AfterReports(s.table, step.p, []).rows;
      assert lost[0] in LostJobs(rows, step.n, RunningIds(step.p));
      NothingLostIn(s.table, step.n, step.p, lost, lost[0]);
    }
  }

  lemma MidRows(s: State, step: Step, u: State, id: JobId)
    requires Inv(s) && ReliableRequest(step) && Next(s, step, u)
    ensures MidOf(s.table, Mid(s, step), Kept(step.p), FinishedIds(step.p), id)
  {
    RequestFacts(s, step, u);
    NothingLost(s, step, u);
    if id in s.table.rows {
      RowEffect(s.table, step.p, [], [], id);
    } else if id in Mid(s, step) {
      IssuedParents(s.table, step.n, step.p, [], [], id);
    }
  }

  /** Reserving a job deletes nothing: no ready job has children. */
  lemma RequestRows(s: State, step: Step, u: State)
    requires Inv(s) && ReliableRequest(step) && Next(s, step, u)
    ensures var mid := Mid(s, step);
      match step.ch.pick
      case None => u.table.rows == mid
      case Some(j) =>
        && j in mid && mid[j].status == Ready && DependenciesMet(mid, mid[j])
        && NoneRunning(mid, step.n, IsLight(mid[j].jobClass))
        && u.table.rows == mid[j := Taken(mid[j], step.n)]
  {
    var mid := Mid(s, step);
    if step.ch.pick.Some? {
      var j := step.ch.pick.value;
      assert Eligible(mid, step.v, j);
      assert Children(mid, j) == {} by {
        forall c | c in mid ensures mid[c].parent != Some(j) {
          MidRows(s, step, u, c);
          MidRows(s, step, u, j);
          ReadyHasNoChild(s.table, mid, Kept(step.p), FinishedIds(step.p), c, j);
        }
      }
      NothingToDelete(mid, j, Taken(mid[j], step.n));
    }
  }

  predicate MidOf(t: Table, mid: Rows, kept: set<JobId>, done: set<JobId>, id: JobId) {
    && (id in t.rows ==> id in mid && MidRow(t.rows[id], mid[id], id in done, id in kept))
    && (id in mid && id !in t.rows ==> t.nextId <= id && FreshChild(mid[id], done * t.rows.Keys))
  }

  lemma ReadyHasNoChild(t: Table, mid: Rows, kept: set<JobId>, done: set<JobId>, child: JobId, j: JobId)
    requires Integrity(t) && ParentsStarted(t.rows)
    requires child in mid && j in mid && mid[j].status == Ready
    requires MidOf(t, mid, kept, done, child) && MidOf(t, mid, kept, done, j)
    ensures mid[child].parent != Some(j)
  {
  }

  // ---- The invariant across a heartbeat ----

  /** The rows after a reliable heartbeat of n, as the lemmas below use them. */
  predicate Turned(t: Table, mid: Rows, kept: set<JobId>, done: set<JobId>, n: NodeId, pick: Option<JobId>,
                   rows: Rows) {
    && kept !! done && ActiveOn(t.rows, n) == kept + done
    && t.rows.Keys <= mid.Keys
    && (forall id :: id in mid ==> MidOf(t, mid, kept, done, id))
    && match pick
       case None => rows == mid
       case Some(j) =>
         && j in mid && mid[j].status == Ready && DependenciesMet(mid, mid[j])
         && NoneRunning(mid, n, IsLight(mid[j].jobClass))
         && rows == mid[j := Taken(mid[j], n)]
  }

  lemma RequestTurns(s: State, step: Step, u: State)
    requires Inv(s) && ReliableRequest(step) && Next(s, step, u)
    ensures Turned(s.table, Mid(s, step), Kept(step.p), FinishedIds(step.p), step.n, step.ch.pick, u.table.rows)
  {
    RequestFacts(s, step, u);
    RequestRows(s, step, u);
    forall id ensures MidOf(s.table, Mid(s, step), Kept(step.p), FinishedIds(step.p), id) {
      MidRows(s, step, u, id);
    }
    assert forall id :: id in s.table.rows ==> MidOf(s.table, Mid(s, step), Kept(step.p), FinishedIds(step.p), id);
  }

  lemma TurnKeepsParents(t: Table, mid: Rows, kept: set<JobId>, done: set<JobId>, n: NodeId, pick: Option<JobId>,
                         rows: Rows)
    requires Turned(t, mid, kept, done, n, pick, rows) && Integrity(t) && ParentsStarted(t.rows)
    ensures ParentsStarted(rows)
  {
    forall id | id in rows && rows[id].parent.Some? && rows[id].parent.value in rows
      ensures PastReady(rows[rows[id].parent.value].status)
    {
      assert MidOf(t, mid, kept, done, id) && MidOf(t, mid, kept, done, rows[id].parent.value);
    }
  }

  lemma TurnKeepsDependencies(t: Table, mid: Rows, kept: set<JobId>, done: set<JobId>, n: NodeId, pick: Option<JobId>,
                              rows: Rows)
    requires Turned(t, mid, kept, done, n, pick, rows) && DependenciesDone(t.rows)
    ensures DependenciesDone(rows)
  {
    forall id, d | id in rows && d in rows[id].dependencies
      ensures d in rows && (PastReady(rows[id].status) ==> rows[d].status == Success)
    {
      assert MidOf(t, mid, kept, done, id);
      DependencyKept(t, mid, kept, done, n, pick, rows, id, d);
    }
  }

  predicate DependencyDone(rows: Rows, id: JobId, d: JobId)
    requires id in rows
  {
    d in rows && (PastReady(rows[id].status) ==> rows[d].status == Success)
  }

  lemma DependencyKept(t: Table, mid: Rows, kept: set<JobId>, done: set<JobId>, n: NodeId, pick: Option<JobId>,
                       rows: Rows, id: JobId, d: JobId)
    requires Turned(t, mid, kept, done, n, pick, rows)
    requires id in t.rows && id in rows && d in rows[id].dependencies && DependencyDone(t.rows, id, d)
    ensures DependencyDone(rows, id, d)
  {
    assert MidOf(t, mid, kept, done, id) && MidOf(t, mid, kept, done, d);
    if t.rows[d].status == Success {
      SuccessKept(t, mid, kept, done, n, pick, rows, d);
    }
    if PastReady(rows[id].status) && pick == Some(id) {
      assert mid[d].status == Success;
    }
  }

  /** No job in success is held by a node, so none is reported. */
  lemma SuccessKept(t: Table, mid: Rows, kept: set<JobId>, done: set<JobId>, n: NodeId, pick: Option<JobId>,
                    rows: Rows, d: JobId)
    requires Turned(t, mid, kept, done, n, pick, rows) && d in t.rows && t.rows[d].status == Success
    ensures d in rows && rows[d].status == Success
  {
    assert MidOf(t, mid, kept, done, d);
    assert d !in ActiveOn(t.rows, n);
  }

  lemma TurnKeepsChannels(t: Table, mid: Rows, kept: set<JobId>, done: set<JobId>, n: NodeId, pick: Option<JobId>,
                          rows: Rows)
    requires Turned(t, mid, kept, done, n, pick, rows) && OnePerChannel(t.rows)
    ensures OnePerChannel(rows)
  {
    forall m, light, j, k | j in rows && k in rows && Occupies(rows[j], m, light) && Occupies(rows[k], m, light)
      ensures j == k
    {
      OccupiesBefore(t, mid, kept, done, n, pick, rows, m, light, j);
      OccupiesBefore(t, mid, kept, done, n, pick, rows, m, light, k);
    }
  }

  lemma OccupiesBefore(t: Table, mid: Rows, kept: set<JobId>, done: set<JobId>, n: NodeId, pick: Option<JobId>,
                       rows: Rows, m: NodeId, light: bool, j: JobId)
    requires Turned(t, mid, kept, done, n, pick, rows) && j in rows && Occupies(rows[j], m, light)
    ensures if pick == Some(j) then m == n && light == IsLight(mid[j].jobClass)
            else j in t.rows && Occupies(t.rows[j], m, light)
    ensures m == n && pick.Some? && pick != Some(j) ==> light != IsLight(mid[pick.value].jobClass)
  {
    assert MidOf(t, mid, kept, done, j);
    if pick != Some(j) && m == n {
      assert j in ActiveOn(t.rows, n);
      assert mid[j].status == Running;
    }
  }

  lemma TurnAgrees(t: Table, mid: Rows, kept: set<JobId>, done: set<JobId>, n: NodeId, pick: Option<JobId>, rows: Rows)
    requires Turned(t, mid, kept, done, n, pick, rows)
    ensures ActiveOn(rows, n) == kept + OnNodeIn(rows, n, Reserved)
    ensures forall m :: m != n ==> ActiveOn(rows, m) == ActiveOn(t.rows, m)
    ensures forall id :: id in rows && Active(rows[id].status) ==>
      OnNode(rows[id], n) || (id in t.rows && Active(t.rows[id].status) && rows[id].node == t.rows[id].node)
  {
    forall id | id in rows && Active(rows[id].status)
      ensures OnNode(rows[id], n) || (id in t.rows && Active(t.rows[id].status) && rows[id].node == t.rows[id].node)
    {
      assert MidOf(t, mid, kept, done, id);
    }
    forall id | id in kept
      ensures id in ActiveOn(rows, n)
    {
      KeptIsActive(t, mid, kept, done, n, pick, rows, id);
    }
    forall id | id in ActiveOn(rows, n)
      ensures id in kept + OnNodeIn(rows, n, Reserved)
    {
      StillListed(t, mid, kept, done, n, pick, rows, id);
    }
    forall m | m != n
      ensures ActiveOn(rows, m) == ActiveOn(t.rows, m)
    {
      OtherNode(t, mid, kept, done, n, pick, rows, m);
    }
  }

  lemma KeptIsActive(t: Table, mid: Rows, kept: set<JobId>, done: set<JobId>, n: NodeId, pick: Option<JobId>,
                     rows: Rows, id: JobId)
    requires Turned(t, mid, kept, done, n, pick, rows) && id in kept
    ensures id in ActiveOn(rows, n)
  {
    assert id in ActiveOn(t.rows, n);
    assert MidOf(t, mid, kept, done, id);
  }

  lemma StillListed(t: Table, mid: Rows, kept: set<JobId>, done: set<JobId>, n: NodeId, pick: Option<JobId>,
                    rows: Rows, id: JobId)
    requires Turned(t, mid, kept, done, n, pick, rows) && id in ActiveOn(rows, n)
    ensures id in kept || id in OnNodeIn(rows, n, Reserved)
  {
    assert MidOf(t, mid, kept, done, id);
    if pick != Some(id) {
      assert id in ActiveOn(t.rows, n);
    }
  }

  lemma OtherNode(t: Table, mid: Rows, kept: set<JobId>, done: set<JobId>, n: NodeId, pick: Option<JobId>, rows: Rows,
                  m: NodeId)
    requires Turned(t, mid, kept, done, n, pick, rows) && m != n
    ensures ActiveOn(rows, m) == ActiveOn(t.rows, m)
  {
    forall id | id in ActiveOn(rows, m) ensures id in ActiveOn(t.rows, m) {
      assert MidOf(t, mid, kept, done, id);
    }
    forall id | id in ActiveOn(t.rows, m) ensures id in ActiveOn(rows, m) {
      assert MidOf(t, mid, kept, done, id);
      assert id !in ActiveOn(t.rows, n);
    }
  }

  lemma ReservedWasPicked(t: Table, mid: Rows, kept: set<JobId>, done: set<JobId>, n: NodeId, pick: Option<JobId>,
                          rows: Rows, id: JobId)
    requires Turned(t, mid, kept, done, n, pick, rows) && id in OnNodeIn(rows, n, Reserved)
    ensures pick == Some(id)
  {
    assert MidOf(t, mid, kept, done, id);
    assert pick != Some(id) ==> id in ActiveOn(t.rows, n);
  }

  lemma AnswerCarriesReserved(s: State, step: Step, u: State)
    requires Inv(s) && ReliableRequest(step) && Next(s, step, u)
    requires Turned(s.table, Mid(s, step), Kept(step.p), FinishedIds(step.p), step.n, step.ch.pick, u.table.rows)
    ensures Ids(JobIds(step.reply.jobs)) == OnNodeIn(u.table.rows, step.n, Reserved)
  {
    if step.v.dispatching {
      ListingIds(JobIds(step.reply.jobs), OnNodeIn(u.table.rows, step.n, Reserved));
    } else {
      forall id | id in OnNodeIn(u.table.rows, step.n, Reserved) ensures false {
        var kept, done := Kept(step.p), FinishedIds(step.p);
        ReservedWasPicked(s.table, Mid(s, step), kept, done, step.n, step.ch.pick, u.table.rows, id);
      }
      assert JobIds(step.reply.jobs) == [];
    }
  }

  lemma AgreementAfter(s: State, u: State, n: NodeId, done: set<JobId>, jobs: set<JobId>)
    requires Agreed(s) && n in s.nodes && jobs == OnNodeIn(u.table.rows, n, Reserved)
    requires u.nodes == s.nodes[n := Node(s.nodes[n].client, Awaiting(done, jobs))]
    requires ActiveOn(u.table.rows, n) == (Held(s.nodes[n].client) - done) + jobs
    requires forall m :: m != n ==> ActiveOn(u.table.rows, m) == ActiveOn(s.table.rows, m)
    requires forall id :: id in u.table.rows && Active(u.table.rows[id].status) ==>
      OnNode(u.table.rows[id], n) ||
        (id in s.table.rows && Active(s.table.rows[id].status) && u.table.rows[id].node == s.table.rows[id].node)
    ensures Agreed(u)
  {
    forall m | m in u.nodes ensures ActiveOn(u.table.rows, m) == Expected(u.nodes[m]) {
      assert m != n ==> u.nodes[m] == s.nodes[m];
    }
  }

  lemma RequestKeepsRows(s: State, step: Step, u: State)
    requires Inv(s) && ReliableRequest(step) && Next(s, step, u)
    requires Turned(s.table, Mid(s, step), Kept(step.p), FinishedIds(step.p), step.n, step.ch.pick, u.table.rows)
    ensures ParentsStarted(u.table.rows) && DependenciesDone(u.table.rows) && OnePerChannel(u.table.rows)
  {
    var kept, done, mid := Kept(step.p), FinishedIds(step.p), Mid(s, step);
    TurnKeepsParents(s.table, mid, kept, done, step.n, step.ch.pick, u.table.rows);
    TurnKeepsDependencies(s.table, mid, kept, done, step.n, step.ch.pick, u.table.rows);
    TurnKeepsChannels(s.table, mid, kept, done, step.n, step.ch.pick, u.table.rows);
  }

  lemma RequestKeepsInv(s: State, step: Step, u: State)
    requires Inv(s) && ReliableRequest(step) && Next(s, step, u)
    ensures Inv(u)
  {
    RequestIsSafe(s, step, u);
    RequestTurns(s, step, u);
    RequestFacts(s, step, u);
    RequestKeepsRows(s, step, u);
    AnswerCarriesReserved(s, step, u);
    TurnAgrees(s.table, Mid(s, step), Kept(step.p), FinishedIds(step.p), step.n, step.ch.pick, u.table.rows);
    AgreementAfter(s, u, step.n, FinishedIds(step.p), Ids(JobIds(step.reply.jobs)));
  }

  lemma RunningIsActive(s: State, n: NodeId, id: JobId)
    requires Inv(s) && n in s.nodes && id in s.nodes[n].client.running
    ensures id in s.table.rows && Active(s.table.rows[id].status)
  {
    assert SafeNode(s.table, s.nodes[n]);
    assert id in Expected(s.nodes[n]);
    assert id in ActiveOn(s.table.rows, n);
  }

  /** Rows added or changed without becoming or ceasing to be active leave the agreement alone. */
  lemma ActiveUnchanged(a: Rows, b: Rows, n: NodeId)
    requires StaysActive(a, b) && WasActive(a, b)
    ensures ActiveOn(a, n) == ActiveOn(b, n)
  {
  }

  predicate TableStep(step: Step) {
    step.Launch? || step.Attach? || step.Publish? || step.KillJob?
  }

  lemma TableStepKeepsAgreement(s: State, step: Step, u: State)
    requires Integrity(s.table) && Agreed(s) && Next(s, step, u) && TableStep(step)
    ensures Agreed(u)
  {
    TableStepKeepsActive(s, step, u);
    forall n | n in s.nodes ensures ActiveOn(u.table.rows, n) == Expected(u.nodes[n]) {
      ActiveUnchanged(s.table.rows, u.table.rows, n);
    }
  }

  lemma TableStepKeepsActive(s: State, step: Step, u: State)
    requires KeysIssued(s.table) && Next(s, step, u) && TableStep(step)
    ensures u.nodes == s.nodes && StaysActive(s.table.rows, u.table.rows) && WasActive(s.table.rows, u.table.rows)
  {
  }

  predicate StaysActive(a: Rows, b: Rows) {
    forall id :: id in a && Active(a[id].status) ==> id in b && Active(b[id].status) && b[id].node == a[id].node
  }

  predicate WasActive(a: Rows, b: Rows) {
    forall id :: id in b && Active(b[id].status) ==> id in a && Active(a[id].status) && a[id].node == b[id].node
  }

  lemma TableStepKeepsParents(s: State, step: Step, u: State)
    requires Inv(s) && Reliable(s, step) && Next(s, step, u) && TableStep(step)
    ensures ParentsStarted(u.table.rows)
  {
    if step.Launch? && step.job.parent.Some? {
      var n :| n in s.nodes && step.job.parent.value in s.nodes[n].client.running;
      RunningIsActive(s, n, step.job.parent.value);
    }
    ParentsStay(s.table, u.table, step, s, u);
  }

  lemma ParentsStay(t: Table, v: Table, step: Step, s: State, u: State)
    requires Integrity(t) && ParentsStarted(t.rows) && t == s.table && v == u.table
    requires Next(s, step, u) && TableStep(step)
    requires step.Launch? && step.job.parent.Some? ==> PastReady(t.rows[step.job.parent.value].status)
    ensures ParentsStarted(v.rows)
  {
  }

  lemma TableStepKeepsInv(s: State, step: Step, u: State)
    requires Inv(s) && Reliable(s, step) && Next(s, step, u) && TableStep(step)
    ensures Inv(u)
  {
    StepIsSafe(s, step, u);
    TableStepKeepsParents(s, step, u);
    TableStepKeepsAgreement(s, step, u);
    TableStepKeepsDependencies(s, step, u);
    TableStepKeepsChannels(s, step, u);
  }

  lemma TableStepKeepsDependencies(s: State, step: Step, u: State)
    requires Integrity(s.table) && DependenciesDone(s.table.rows) && Next(s, step, u) && TableStep(step)
    ensures DependenciesDone(u.table.rows)
  {
    forall id, d | id in u.table.rows && d in u.table.rows[id].dependencies
      ensures DependencyDone(u.table.rows, id, d)
    {
      if id in s.table.rows && d in s.table.rows[id].dependencies {
        assert DependencyDone(s.table.rows, id, d);
      }
    }
  }

  lemma TableStepKeepsChannels(s: State, step: Step, u: State)
    requires Integrity(s.table) && OnePerChannel(s.table.rows) && Next(s, step, u) && TableStep(step)
    ensures OnePerChannel(u.table.rows)
  {
    forall n, light, j, k | j in u.table.rows && k in u.table.rows
        && Occupies(u.table.rows[j], n, light) && Occupies(u.table.rows[k], n, light)
      ensures j == k
    {
      assert Occupies(s.table.rows[j], n, light) && Occupies(s.table.rows[k], n, light);
    }
  }

  lemma StepKeepsInv(s: State, step: Step, u: State)
    requires Inv(s) && Reliable(s, step) && Next(s, step, u)
    ensures Inv(u)
  {
    match step
    case Request(_, _, _, _, _, _) => RequestKeepsInv(s, step, u);
    case Launch(_) => TableStepKeepsInv(s, step, u);
    case Attach(_, _, _) => TableStepKeepsInv(s, step, u);
    case Publish(_) => TableStepKeepsInv(s, step, u);
    case KillJob(_) => TableStepKeepsInv(s, step, u);
    case Delivered(n) =>
      StepIsSafe(s, step, u);
      assert SafeNode(s.table, s.nodes[n]);
      assert Expected(u.nodes[n]) == Expected(s.nodes[n]);
    case Ends(n, report) =>
      StepIsSafe(s, step, u);
      assert SafeNode(s.table, s.nodes[n]);
      FinishHolds(s.nodes[n].client, report);
      assert Expected(u.nodes[n]) == Expected(s.nodes[n]);
  }

  ghost predicate IsReliableRun(states: seq<State>, steps: seq<Step>) {
    IsRun(states, steps) && forall i :: 0 <= i < |steps| ==> Reliable(states[i], steps[i])
  }

  lemma {:induction false} InvAlways(states: seq<State>, steps: seq<Step>, i: nat)
    requires IsReliableRun(states, steps) && i < |states|
    ensures Inv(states[i])
  {
    if i == 0 {
      assert forall n :: n in states[0].nodes ==> ActiveOn(states[0].table.rows, n) == Expected(states[0].nodes[n]);
    } else {
      InvAlways(states, steps, i - 1);
      assert Next(states[i - 1], steps[i - 1], states[i]) && Reliable(states[i - 1], steps[i - 1]);
      StepKeepsInv(states[i - 1], steps[i - 1], states[i]);
    }
  }

  // ---- Over whole runs ----

  /** Between exchanges a client holds exactly the jobs the server has active on its node. */
  lemma ClientsAgree(states: seq<State>, steps: seq<Step>, i: nat, n: NodeId)
    requires IsReliableRun(states, steps) && i < |states| && n in states[i].nodes && states[i].nodes[n].phase == Idle
    ensures Held(states[i].nodes[n].client) == ActiveOn(states[i].table.rows, n)
  {
    InvAlways(states, steps, i);
  }

  function Occupants(rows: Rows, n: NodeId, light: bool): set<JobId> {
    set j | j in rows && Occupies(rows[j], n, light)
  }

  /** At most one job of each channel is reserved or running on a node. */
  lemma ChannelCapacity(states: seq<State>, steps: seq<Step>, i: nat, n: NodeId, light: bool)
    requires IsReliableRun(states, steps) && i < |states|
    ensures |Occupants(states[i].table.rows, n, light)| <= 1
  {
    InvAlways(states, steps, i);
    var rows := states[i].table.rows;
    var busy := Occupants(rows, n, light);
    if busy != {} {
      var j :| j in busy;
      assert forall k :: k in busy ==> Occupies(rows[k], n, light) && k == j;
      assert busy == {j};
    }
  }

  /** path leads from its first job along dependency links. */
  predicate IsDependencyPath(rows: Rows, path: seq<JobId>) {
    && |path| > 0 && path[0] in rows
    && forall k :: 0 <= k < |path| - 1 ==> path[k] in rows && path[k + 1] in rows[path[k]].dependencies
  }

  lemma {:induction false} PathDone(rows: Rows, path: seq<JobId>, k: nat)
    requires DependenciesDone(rows) && IsDependencyPath(rows, path) && 0 < k < |path|
    requires PastReady(rows[path[0]].status)
    ensures path[k] in rows && rows[path[k]].status == Success
  {
    if k > 1 {
      PathDone(rows, path, k - 1);
    }
    assert path[k - 1 + 1] in rows[path[k - 1]].dependencies;
  }

  /** Every job past ready has all its dependencies, direct and indirect, in success. */
  lemma DependencyOrder(states: seq<State>, steps: seq<Step>, i: nat, path: seq<JobId>, k: nat)
    requires IsReliableRun(states, steps) && i < |states|
    requires IsDependencyPath(states[i].table.rows, path) && 0 < k < |path|
    requires PastReady(states[i].table.rows[path[0]].status)
    ensures path[k] in states[i].table.rows && states[i].table.rows[path[k]].status == Success
  {
    InvAlways(states, steps, i);
    PathDone(states[i].table.rows, path, k);
  }

  // ---- The order of statuses ----

  /** One step of a job's life. */
  predicate Moves(a: Status, b: Status) {
    a == b ||
    match a
    case Created => b == Ready
    case Ready => b == Reserved
    case Reserved => b == Running || b == Waiting || Final(b)
    case Running => b == Terminating || b == Waiting || Final(b)
    case Terminating => b == Waiting || Final(b)
    case Waiting => Final(b)
    case Success => false
    case Failed => false
  }

  lemma TurnMoves(t: Table, mid: Rows, kept: set<JobId>, done: set<JobId>, n: NodeId, pick: Option<JobId>, rows: Rows,
                  id: JobId)
    requires Turned(t, mid, kept, done, n, pick, rows) && id in t.rows
    ensures id in rows && Moves(t.rows[id].status, rows[id].status)
  {
    assert MidOf(t, mid, kept, done, id);
    assert id in kept + done ==> id in ActiveOn(t.rows, n);
  }

  lemma StepMoves(s: State, step: Step, u: State, id: JobId)
    requires Inv(s) && Reliable(s, step) && Next(s, step, u) && id in s.table.rows
    ensures id in u.table.rows && Moves(s.table.rows[id].status, u.table.rows[id].status)
  {
    if step.Request? {
      RequestTurns(s, step, u);
      TurnMoves(s.table, Mid(s, step), Kept(step.p), FinishedIds(step.p), step.n, step.ch.pick, u.table.rows, id);
    } else if TableStep(step) {
      assert KeysIssued(s.table);
    }
  }

  function Rank(s: Status): nat {
    match s
    case Created => 0
    case Ready => 1
    case Reserved => 2
    case Running => 3
    case Terminating => 4
    case Waiting => 5
    case Success => 6
    case Failed => 6
  }

  predicate Advances(a: Status, b: Status) {
    Rank(a) <= Rank(b) && (Rank(a) == Rank(b) ==> a == b)
  }

  lemma MovesAdvance(a: Status, b: Status)
    requires Moves(a, b)
    ensures Advances(a, b)
  {
  }

  lemma RunStepMoves(states: seq<State>, steps: seq<Step>, i: nat, id: JobId)
    requires IsReliableRun(states, steps) && i + 1 < |states| && id in states[i].table.rows
    ensures id in states[i + 1].table.rows
    ensures Moves(states[i].table.rows[id].status, states[i + 1].table.rows[id].status)
  {
    InvAlways(states, steps, i);
    StepMoves(states[i], steps[i], states[i + 1], id);
  }

  lemma AdvancesOn(a: Status, b: Status, c: Status)
    requires Advances(a, b) && Advances(b, c)
    ensures Advances(a, c)
  {
  }

  lemma RunStepAdvances(states: seq<State>, steps: seq<Step>, i: nat, id: JobId)
    requires IsReliableRun(states, steps) && i + 1 < |states| && id in states[i].table.rows
    ensures id in states[i + 1].table.rows
    ensures Advances(states[i].table.rows[id].status, states[i + 1].table.rows[id].status)
  {
    RunStepMoves(states, steps, i, id);
    MovesAdvance(states[i].table.rows[id].status, states[i + 1].table.rows[id].status);
  }

  /** No job ever goes back: its status only moves up the order, and success and failed stay. */
  lemma {:induction false} StatusesOnlyAdvance(states: seq<State>, steps: seq<Step>, i: nat, j: nat, id: JobId)
    requires IsReliableRun(states, steps) && i <= j < |states| && id in states[i].table.rows
    ensures id in states[j].table.rows
    ensures Advances(states[i].table.rows[id].status, states[j].table.rows[id].status)
    decreases j
  {
    if i < j {
      StatusesOnlyAdvance(states, steps, i, j - 1, id);
      RunStepAdvances(states, steps, j - 1, id);
      var a, b := states[i].table.rows[id].status, states[j - 1].table.rows[id].status;
      AdvancesOn(a, b, states[j].table.rows[id].status);
    }
  }

  // ---- From a kill to the answer that names the job ----

  predicate IsTerminatingOn(rows: Rows, id: JobId, n: NodeId) {
    id in rows && rows[id].status == Terminating && rows[id].node == Some(n)
  }

  lemma KilledIsTerminating(s: State, id: JobId, u: State, n: NodeId)
    requires Next(s, KillJob(id), u) && s.table.rows[id].status == Running && s.table.rows[id].node == Some(n)
    ensures IsTerminatingOn(u.table.rows, id, n)
  {
  }

  lemma TurnKeepsTerminating(t: Table, mid: Rows, kept: set<JobId>, done: set<JobId>, m: NodeId, pick: Option<JobId>,
                             rows: Rows, id: JobId, n: NodeId)
    requires Turned(t, mid, kept, done, m, pick, rows) && m != n && IsTerminatingOn(t.rows, id, n)
    ensures IsTerminatingOn(rows, id, n)
  {
    assert MidOf(t, mid, kept, done, id);
    assert id !in ActiveOn(t.rows, m);
  }

  lemma TableStepKeepsTerminating(s: State, step: Step, u: State, id: JobId, n: NodeId)
    requires KeysIssued(s.table) && TableStep(step) && Next(s, step, u) && IsTerminatingOn(s.table.rows, id, n)
    ensures IsTerminatingOn(u.table.rows, id, n)
  {
  }

  /** Until n reports, nothing else changes a job terminating on it. */
  lemma StaysTerminating(s: State, step: Step, u: State, id: JobId, n: NodeId)
    requires Inv(s) && Reliable(s, step) && Next(s, step, u) && !(step.Request? && step.n == n)
    requires IsTerminatingOn(s.table.rows, id, n)
    ensures IsTerminatingOn(u.table.rows, id, n)
  {
    if step.Request? {
      RequestTurns(s, step, u);
      var kept, done := Kept(step.p), FinishedIds(step.p);
      TurnKeepsTerminating(s.table, Mid(s, step), kept, done, step.n, step.ch.pick, u.table.rows, id, n);
    } else if TableStep(step) {
      TableStepKeepsTerminating(s, step, u, id, n);
    }
  }

  lemma RunStepKeepsTerminating(states: seq<State>, steps: seq<Step>, i: nat, id: JobId, n: NodeId)
    requires IsReliableRun(states, steps) && i < |steps| && !(steps[i].Request? && steps[i].n == n)
    requires IsTerminatingOn(states[i].table.rows, id, n)
    ensures IsTerminatingOn(states[i + 1].table.rows, id, n)
  {
    InvAlways(states, steps, i);
    StaysTerminating(states[i], steps[i], states[i + 1], id, n);
  }

  lemma {:induction false} StaysTerminatingOver(states: seq<State>, steps: seq<Step>, i: nat, k: nat, id: JobId,
                                                n: NodeId)
    requires IsReliableRun(states, steps) && i <= k < |states|
    requires IsTerminatingOn(states[i].table.rows, id, n)
    requires forall j :: i <= j < k ==> !(steps[j].Request? && steps[j].n == n)
    ensures IsTerminatingOn(states[k].table.rows, id, n)
    decreases k
  {
    if i < k {
      StaysTerminatingOver(states, steps, i, k - 1, id, n);
      RunStepKeepsTerminating(states, steps, k - 1, id, n);
    }
  }

  /** A job that is killed while it runs on n is named in the answer to n's next request, however
      much else happens before, if n accepts work. */
  lemma KilledIsNamed(states: seq<State>, steps: seq<Step>, i: nat, k: nat, id: JobId, n: NodeId)
    requires IsReliableRun(states, steps) && i < k < |steps|
    requires steps[i] == KillJob(id) && id in states[i].table.rows
    requires states[i].table.rows[id].status == Running && states[i].table.rows[id].node == Some(n)
    requires steps[k].Request? && steps[k].n == n && steps[k].v.dispatching
    requires forall j :: i < j < k ==> !(steps[j].Request? && steps[j].n == n)
    ensures id in steps[k].reply.kill
  {
    assert Next(states[i], steps[i], states[i + 1]);
    KilledIsTerminating(states[i], id, states[i + 1], n);
    StaysTerminatingOver(states, steps, i + 1, k, id, n);
    assert Next(states[k], steps[k], states[k + 1]) && Reliable(states[k], steps[k]);
    var step := steps[k];
    TerminatingIsNamed(states[k].table, step.silent, step.v, step.p, step.ch, step.reply, id);
  }
}
