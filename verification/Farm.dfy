/** The whole farm as a state machine: the server's table, the nodes' clients, and messages
    that may be lost. */
module Farm {
  import opened Wrappers
  import opened JobTable
  import opened Reports
  import opened Admin
  import opened Scheduler
  import opened Heartbeat
  import opened JobClient
  import opened Agreement
  import opened JobServer

  /** A node either owes no answer, or waits for the answer to a heartbeat that sent the
      results sent; the answer on its way carries jobs. */
  datatype Phase = Idle | Awaiting(sent: set<JobId>, jobs: set<JobId>)

  datatype Node = Node(client: Client, phase: Phase)

  datatype State = State(table: Table, nodes: map<NodeId, Node>)

  datatype Step =
    | Launch(job: Job)
    | Attach(id: JobId, dependencies: set<JobId>, tags: set<string>)
    | Publish(id: JobId)
    | KillJob(id: JobId)
    | Request(n: NodeId, silent: set<NodeId>, v: NodeView, p: Payload, ch: Choices, reply: Reply)
    | Delivered(n: NodeId)
    | Ends(n: NodeId, report: Report)
    | AnswerLost(n: NodeId)
    | Crash(n: NodeId)
    | RestartJob(id: JobId, sameMachine: bool)
    | CloneJob(id: JobId, sameMachine: bool)
    | RestartChildren(id: JobId, sameMachine: bool)
    | RemoveJob(id: JobId)

  function WithRows(s: State, rows: Rows): State {
    s.(table := s.table.(rows := rows))
  }

  function WithNode(s: State, n: NodeId, node: Node): State {
    s.(nodes := s.nodes[n := node])
  }

  /** A new job: created, or ready at once if nothing is to be attached; its parent, if any, is
      a row of the table. */
  predicate Launchable(s: State, job: Job) {
    && (job.status == Created || job.status == Ready) && job.dependencies == {}
    && (job.parent.Some? ==> job.parent.value in s.table.rows)
  }

  ghost predicate Next(s: State, step: Step, u: State) {
    var rows := s.table.rows;
    match step
    case Launch(job) =>
      Launchable(s, job) && u == s.(table := Insert(s.table, job))
    case Attach(id, dependencies, tags) =>
      id in rows && rows[id].status == Created && dependencies <= rows.Keys
      && u == WithRows(s, rows[id := rows[id].(dependencies := dependencies, tags := tags)])
    case Publish(id) =>
      id in rows && rows[id].status == Created && u == WithRows(s, SetStatus(rows, id, Ready))
    case KillJob(id) =>
      id in rows && u == WithRows(s, Kill(rows, id))
    case Request(n, silent, v, p, ch, reply) =>
      && n in s.nodes && s.nodes[n].phase == Idle && v.name == n && Covers(s.nodes[n].client, p)
      && ValidChoices(s.table, silent, v, p, ch)
      && Answers(s.table, Beat(s.table, n, p, ch), v, ch, reply)
      && u == WithNode(s.(table := Beat(s.table, n, p, ch)), n,
                s.nodes[n].(phase := Awaiting(FinishedIds(p), Ids(JobIds(reply.jobs)))))
    case Delivered(n) =>
      && n in s.nodes && s.nodes[n].phase.Awaiting?
      && u == WithNode(s, n, Node(Deliver(s.nodes[n].client, s.nodes[n].phase.sent, s.nodes[n].phase.jobs), Idle))
    case Ends(n, report) =>
      && n in s.nodes && report.id in s.nodes[n].client.running
      && u == WithNode(s, n, s.nodes[n].(client := Finish(s.nodes[n].client, report)))
    case AnswerLost(n) =>
      n in s.nodes && u == WithNode(s, n, s.nodes[n].(phase := Idle))
    case Crash(n) =>
      n in s.nodes && u == WithNode(s, n, Node(Client({}, map[]), Idle))
    case RestartJob(id, same) =>
      id in rows && u == WithRows(s, Restart(rows, id, same))
    case CloneJob(id, same) =>
      id in rows && u == s.(table := Insert(s.table, Clone(rows[id], same)))
    case RestartChildren(id, same) =>
      id in rows && u == WithRows(s, RestartFailedChildren(rows, id, same))
    case RemoveJob(id) =>
      id in rows && u == WithRows(s, Remove(rows, id))
  }

  /** Some client runs the job. */
  ghost predicate RunBySome(s: State, id: JobId) {
    exists n :: n in s.nodes && id in s.nodes[n].client.running
  }

  /** Every message arrives, nodes report often enough, nobody restarts, deletes or crashes, and
      only the process of a running job launches its children. */
  ghost predicate Reliable(s: State, step: Step) {
    match step
    case Request(_, silent, _, _, _, _) => silent == {}
    case Launch(job) => job.parent.Some? ==> RunBySome(s, job.parent.value)
    case Attach(_, _, _) => true
    case Publish(_) => true
    case KillJob(_) => true
    case Delivered(_) => true
    case Ends(_, _) => true
    case _ => false
  }

  /** An empty table and idle nodes with nothing to do. */
  predicate Start(s: State) {
    s.table.rows == map[] && forall n :: n in s.nodes ==> s.nodes[n] == Node(Client({}, map[]), Idle)
  }

  ghost predicate IsRun(states: seq<State>, steps: seq<Step>) {
    && |states| == |steps| + 1 && Start(states[0])
    && forall i :: 0 <= i < |steps| ==> Next(states[i], steps[i], states[i + 1])
  }

  // ---- Every run, with losses, crashes, restarts and deletes ----

  predicate SafeNode(t: Table, node: Node) {
    && Coherent(node.client) && HeldIssued(t, node.client)
    && (node.phase.Awaiting? ==>
          && node.phase.jobs !! Held(node.client)
          && node.phase.sent <= node.client.finished.Keys
          && forall id :: id in node.phase.jobs ==> id < t.nextId)
  }

  predicate Safe(s: State) {
    Integrity(s.table) && forall n :: n in s.nodes ==> SafeNode(s.table, s.nodes[n])
  }

  lemma BeatKeepsIntegrity(t: Table, n: NodeId, silent: set<NodeId>, v: NodeView, p: Payload, ch: Choices)
    requires Integrity(t) && forall k :: k in FinishedIds(p) ==> k < t.nextId
    requires v.name == n && ValidChoices(t, silent, v, p, ch)
    ensures Integrity(Beat(t, n, p, ch)) && t.nextId <= Beat(t, n, p, ch).nextId
  {
    var s := Settle(t, p, ch.dead, ch.lost);
    SettleKeysIssued(t, p, ch.dead, ch.lost);
    forall id | id in s.rows && s.rows[id].parent.Some?
      ensures s.rows[id].parent.value in s.rows && s.rows[id].parent.value < id
    {
      if id in t.rows {
        RowEffect(t, p, ch.dead, ch.lost, id);
      } else {
        NewRowEffect(t, n, p, ch.dead, ch.lost, id);
      }
    }
    if ch.pick.Some? && ch.pick.value in s.rows {
      var j := ch.pick.value;
      DeleteChildrenKeepsIntegrity(s, j, s.rows[j].(status := Reserved, node := Some(n), exception := None));
    }
  }

  lemma RequestIsSafe(s: State, step: Step, u: State)
    requires Safe(s) && step.Request? && Next(s, step, u)
    ensures Safe(u)
  {
    var n, p := step.n, step.p;
    var c := s.nodes[n].client;
    assert SafeNode(s.table, s.nodes[n]);
    ReportedAreFinished(c, p);
    BeatKeepsIntegrity(s.table, n, step.silent, step.v, p, step.ch);
    var jobs := Ids(JobIds(step.reply.jobs));
    forall id | id in jobs
      ensures id !in Held(c) && id < u.table.nextId
    {
      AnsweredIsIssued(s.table, u.table, step.v, step.ch, step.reply, id);
      if id in Held(c) {
        NoDuplicateLaunch(s.table, step.silent, step.v, p, step.ch, step.reply, id);
      }
    }
    forall m | m in u.nodes
      ensures SafeNode(u.table, u.nodes[m])
    {
      assert SafeNode(s.table, s.nodes[m]);
    }
  }

  lemma AnsweredIsIssued(t: Table, u: Table, v: NodeView, ch: Choices, reply: Reply, id: JobId)
    requires Answers(t, u, v, ch, reply) && KeysIssued(u) && id in Ids(JobIds(reply.jobs))
    ensures v.dispatching && id in u.rows && id < u.nextId
    ensures u.rows[id].status == Reserved && OnNode(u.rows[id], v.name)
  {
    var i :| 0 <= i < |JobIds(reply.jobs)| && JobIds(reply.jobs)[i] == id;
    assert JobIds(reply.jobs)[i] in OnNodeIn(u.rows, v.name, Reserved);
  }

  lemma FinishHolds(c: Client, r: Report)
    requires Coherent(c) && r.id in c.running
    ensures Worked(c, Finish(c, r))
  {
    assert Held(Finish(c, r)) == Held(c);
  }

  lemma StepIsSafe(s: State, step: Step, u: State)
    requires Safe(s) && Next(s, step, u)
    ensures Safe(u)
  {
    match step
    case Request(_, _, _, _, _, _) => RequestIsSafe(s, step, u);
    case Delivered(_) => NodeStepIsSafe(s, step, u);
    case Ends(_, _) => NodeStepIsSafe(s, step, u);
    case AnswerLost(_) => NodeStepIsSafe(s, step, u);
    case Crash(_) => NodeStepIsSafe(s, step, u);
    case _ => TableStepIsSafe(s, step, u);
  }

  predicate NodeStep(step: Step) {
    step.Delivered? || step.Ends? || step.AnswerLost? || step.Crash?
  }

  lemma NodeStepIsSafe(s: State, step: Step, u: State)
    requires Safe(s) && NodeStep(step) && Next(s, step, u)
    ensures Safe(u)
  {
    var n := step.n;
    assert SafeNode(s.table, s.nodes[n]);
    if step.Ends? {
      FinishHolds(s.nodes[n].client, step.report);
    }
    assert SafeNode(u.table, u.nodes[n]);
  }

  lemma TableStepIsSafe(s: State, step: Step, u: State)
    requires Safe(s) && !NodeStep(step) && !step.Request? && Next(s, step, u)
    ensures Safe(u)
  {
    TableStepKeepsIntegrity(s, step, u);
    forall n | n in u.nodes ensures SafeNode(u.table, u.nodes[n]) {
      assert SafeNode(s.table, s.nodes[n]);
    }
  }

  lemma TableStepKeepsIntegrity(s: State, step: Step, u: State)
    requires Integrity(s.table) && !NodeStep(step) && !step.Request? && Next(s, step, u)
    ensures Integrity(u.table) && u.nodes == s.nodes && s.table.nextId <= u.table.nextId
  {
    match step
    case RestartJob(id, same) =>
      DeleteChildrenKeepsIntegrity(s.table, id, Reset(s.table.rows[id], same));
    case RemoveJob(id) => DeleteKeepsIntegrity(s.table, {id});
    case _ =>
  }

  lemma {:induction false} RunIsSafe(states: seq<State>, steps: seq<Step>, i: nat)
    requires IsRun(states, steps) && i < |states|
    ensures Safe(states[i])
  {
    if i > 0 {
      RunIsSafe(states, steps, i - 1);
      assert Next(states[i - 1], steps[i - 1], states[i]);
      StepIsSafe(states[i - 1], steps[i - 1], states[i]);
    }
  }

  /** In every run, however many messages, clients and jobs are lost, the uniqueness check of
      the launch never fires: a job on its way to a node is not running or finished there. */
  lemma LaunchNeverRepeats(states: seq<State>, steps: seq<Step>, i: nat, n: NodeId)
    requires IsRun(states, steps) && i < |states| && n in states[i].nodes && states[i].nodes[n].phase.Awaiting?
    ensures states[i].nodes[n].phase.jobs !! Held(states[i].nodes[n].client)
  {
    RunIsSafe(states, steps, i);
    assert SafeNode(states[i].table, states[i].nodes[n]);
  }

  // ---- After a crash ----

  lemma NothingHeld(t: Table, silent: set<NodeId>, v: NodeView, p: Payload, ch: Choices, id: JobId)
    requires KeysIssued(t) && ValidChoices(t, silent, v, p, ch) && Covers(Client({}, map[]), p)
    requires id in Beat(t, v.name, p, ch).rows && id in t.rows
    requires Executing(t.rows[id].status) && OnNode(t.rows[id], v.name)
    ensures Beat(t, v.name, p, ch).rows[id].status == Failed
  {
    RowEffect(t, p, ch.dead, ch.lost, id);
    assert id !in RunningIds(p) + FinishedIds(p);
    if Executing(Settle(t, p, ch.dead, ch.lost).rows[id].status) {
      ExecutingIsListed(t, v.name, p, ch.dead, ch.lost, id);
    }
    BeatAfterSettle(t, silent, v, p, ch, id);
  }

  predicate WasExecuting(job: Job, n: NodeId) {
    (job.status == Running || job.status == Terminating) && job.node == Some(n)
  }

  lemma CrashedHolds(t: Table, silent: set<NodeId>, v: NodeView, p: Payload, ch: Choices, reply: Reply)
    requires KeysIssued(t) && ValidChoices(t, silent, v, p, ch) && Covers(Client({}, map[]), p) && v.dispatching
    requires Answers(t, Beat(t, v.name, p, ch), v, ch, reply)
    ensures var u := Beat(t, v.name, p, ch).rows;
      Ids(JobIds(reply.jobs)) == ActiveOn(u, v.name) == OnNodeIn(u, v.name, Reserved)
  {
    var c := Client({}, map[]);
    OneExchangeAgrees(t, silent, v, c, p, ch, reply, c);
    assert Kept(p) == {};
    assert Held(Deliver(c, FinishedIds(p), Ids(JobIds(reply.jobs)))) == Ids(JobIds(reply.jobs));
    ListingIds(JobIds(reply.jobs), OnNodeIn(Beat(t, v.name, p, ch).rows, v.name, Reserved));
  }

  /** A node that crashed, in whatever state the farm was, is in agreement with the server again
      after its next exchange: what it was executing has failed, and it holds exactly the jobs
      reserved for it, those on their way when it crashed among them. */
  lemma CrashRecovers(s: State, n: NodeId, t: State, request: Step, u: State, w: State)
    requires Safe(s) && Next(s, Crash(n), t) && Next(t, request, u) && Next(u, Delivered(n), w)
    requires request.Request? && request.n == n && request.v.dispatching
    ensures Held(w.nodes[n].client) == ActiveOn(w.table.rows, n) == OnNodeIn(w.table.rows, n, Reserved)
    ensures forall id :: id in s.table.rows && id in w.table.rows && WasExecuting(s.table.rows[id], n) ==>
      w.table.rows[id].status == Failed
  {
    var v, p, ch := request.v, request.p, request.ch;
    CrashedHolds(t.table, request.silent, v, p, ch, request.reply);
    forall id | id in s.table.rows && id in w.table.rows && WasExecuting(s.table.rows[id], n)
      ensures w.table.rows[id].status == Failed
    {
      NothingHeld(t.table, request.silent, v, p, ch, id);
    }
  }

  /** A node whose answer was lost holds what it held before, asks again, and is then in agreement
      with the server but for its strays; what is still reserved for it of the lost answer has
      come again. */
  lemma LostAnswerComesAgain(s: State, n: NodeId, t: State, request: Step, u: State, w: State)
    requires Safe(s) && Next(s, AnswerLost(n), t) && Next(t, request, u) && Next(u, Delivered(n), w)
    requires request.Request? && request.n == n && request.v.dispatching
    ensures t.nodes[n].client == s.nodes[n].client && t.table == s.table && t.nodes[n].phase == Idle
    ensures Held(w.nodes[n].client) == ActiveOn(w.table.rows, n) + Strays(w.table.rows, n, Kept(request.p))
    ensures s.nodes[n].phase.Awaiting? ==>
      s.nodes[n].phase.jobs * ActiveOn(w.table.rows, n) <= w.nodes[n].client.running
  {
    var v, p, ch := request.v, request.p, request.ch;
    var c := s.nodes[n].client;
    assert SafeNode(s.table, s.nodes[n]);
    OneExchangeAgrees(t.table, request.silent, v, c, p, ch, request.reply, c);
    assert w.nodes[n].client == Deliver(c, FinishedIds(p), Ids(JobIds(request.reply.jobs)));
    assert s.nodes[n].phase.Awaiting? ==> s.nodes[n].phase.jobs !! c.finished.Keys;
  }

  // ---- What the requests of users are among the steps ----

  /** A restart, a clone, a restart of failed children and a delete leave what the server's methods
      leave. */
  lemma UserSteps(s: State, step: Step, u: State)
    requires Next(s, step, u) && (step.RestartJob? || step.CloneJob? || step.RestartChildren? || step.RemoveJob?)
    ensures u.nodes == s.nodes
    ensures var rows, after := s.table.rows, u.table.rows;
      match step
      case RestartJob(id, same) =>
        if HasBusyChild(rows, id) then after == rows
        else id in after && IsReset(rows[id], same, after[id]) && Cleared(rows, id, after[id], after)
      case CloneJob(id, same) =>
        s.table.nextId in after && after == rows[s.table.nextId := after[s.table.nextId]]
        && IsClone(rows[id], same, after[s.table.nextId])
      case RestartChildren(id, same) => ResetsFailed(rows, id, same, after)
      case RemoveJob(id) =>
        forall k :: k in after <==>
          k in rows && (rows[id].status in {Ready, Success, Failed} ==> k != id && !Below(rows, k, id))
      case _ => true
  {
    match step
    case RestartJob(id, same) => EverythingBelowGoes(s.table.rows, id, Reset(s.table.rows[id], same));
    case RestartChildren(id, same) => FailedAreReset(s.table.rows, id, same);
    case RemoveJob(id) => DeletedWithBelow(s.table.rows, id);
    case CloneJob(_, _) =>
  }
}
