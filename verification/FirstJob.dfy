/** That the runs of the farm do what they are for: a job that is asked for can be done. */
module FirstJob {
  import opened Wrappers
  import opened JobTable
  import opened Reports
  import opened Admin
  import opened Scheduler
  import opened Heartbeat
  import opened JobClient
  import opened Agreement
  import opened Farm
  import opened ReliableFarm

  const NOTHING: Payload := Payload(Some([]), Some([]), Some([]))

  function ResultOnly(r: Report): Payload {
    Payload(Some([]), Some([]), Some([r]))
  }

  /** A farm of one idle node and at most one job. */
  function Alone(n: NodeId, id: JobId, job: Job, client: Client, phase: Phase): State {
    State(Table(map[id := job], id + 1), map[n := Node(client, phase)])
  }

  function ViewFor(n: NodeId, job: Job): NodeView {
    NodeView(n, true, false, Some(1), job.reqVersion, {}, {job.jobClass}, true)
  }

  /** The request that is given the job. */
  function Asks(n: NodeId, id: JobId, job: Job): Step {
    Request(n, {}, ViewFor(n, job), NOTHING, Choices([], [], Some(id)),
      Reply([JobData(id, job.jobClass, job.params)], []))
  }

  /** The request that carries its result. */
  function Returns(n: NodeId, job: Job, r: Report): Step {
    Request(n, {}, ViewFor(n, job), ResultOnly(r), Choices([], [], None), Reply([], []))
  }

  predicate Simple(job: Job, n: NodeId) {
    job.parent == None && job.dependencies == {} && (job.node == None || job.node == Some(n))
  }

  lemma NothingReported(t: Table)
    ensures AfterReports(t, NOTHING, []) == t == Settle(t, NOTHING, [], [])
  {
    assert FailAll(t.rows, []) == t.rows;
    assert MarkProgress(t.rows, []) == t.rows;
    assert AbsorbAll(t, []) == t;
  }

  lemma OnlyListing(id: JobId)
    ensures IsListing([id], {id}) && Ids([id]) == {id}
  {
    assert [id][0] == id;
  }

  lemma JobIsPicked(n: NodeId, id: JobId, job: Job)
    requires Simple(job, n) && job.status == Ready
    ensures ValidPick(map[id := job], ViewFor(n, job), Some(id))
    ensures Reserve(map[id := job], n, id) == map[id := Taken(job, n)]
  {
    var rows := map[id := job];
    assert Eligible(rows, ViewFor(n, job), id);
    assert Children(rows, id) == {};
    NothingToDelete(rows, id, Taken(job, n));
  }

  lemma AskChoices(n: NodeId, id: JobId, job: Job)
    requires Simple(job, n) && job.status == Ready
    ensures var t, ch := Table(map[id := job], id + 1), Choices([], [], Some(id));
      && ValidChoices(t, {}, ViewFor(n, job), NOTHING, ch)
      && Beat(t, n, NOTHING, ch) == Table(map[id := Taken(job, n)], id + 1)
  {
    var t := Table(map[id := job], id + 1);
    NothingReported(t);
    JobIsPicked(n, id, job);
    assert DeadJobs(t.rows, {}) == {} && LostJobs(t.rows, n, RunningIds(NOTHING)) == {};
  }

  lemma AskAnswers(n: NodeId, id: JobId, job: Job)
    requires Simple(job, n) && job.status == Ready
    ensures Answers(Table(map[id := job], id + 1), Table(map[id := Taken(job, n)], id + 1), ViewFor(n, job),
              Choices([], [], Some(id)), Reply([JobData(id, job.jobClass, job.params)], []))
  {
    var rows, u := map[id := job], map[id := Taken(job, n)];
    assert OnNodeIn(u, n, Reserved) == {id} && OnNodeIn(rows, n, Terminating) == {};
    assert FailAll(rows, []) == rows;
    assert JobIds([JobData(id, job.jobClass, job.params)]) == [id];
    OnlyListing(id);
  }

  /** A request of the only node, from what is known of its parts. */
  lemma RequestIsAStep(n: NodeId, id: JobId, job: Job, after: Job, c: Client, v: NodeView, p: Payload, ch: Choices,
                       reply: Reply)
    requires v.name == n && Covers(c, p)
    requires ValidChoices(Table(map[id := job], id + 1), {}, v, p, ch)
    requires Beat(Table(map[id := job], id + 1), n, p, ch) == Table(map[id := after], id + 1)
    requires Answers(Table(map[id := job], id + 1), Table(map[id := after], id + 1), v, ch, reply)
    ensures ReliableStep(Alone(n, id, job, c, Idle), Request(n, {}, v, p, ch, reply),
      Alone(n, id, after, c, Awaiting(FinishedIds(p), Ids(JobIds(reply.jobs)))))
  {
    var phase := Awaiting(FinishedIds(p), Ids(JobIds(reply.jobs)));
    assert map[n := Node(c, Idle)][n := Node(c, phase)] == map[n := Node(c, phase)];
  }

  ghost predicate ReliableStep(s: State, step: Step, u: State) {
    Next(s, step, u) && Reliable(s, step)
  }

  lemma AsksIsAStep(n: NodeId, id: JobId, job: Job)
    requires Simple(job, n) && job.status == Ready
    ensures ReliableStep(Alone(n, id, job, Client({}, map[]), Idle), Asks(n, id, job),
      Alone(n, id, Taken(job, n), Client({}, map[]), Awaiting({}, {id})))
  {
    var ch, reply := Choices([], [], Some(id)), Reply([JobData(id, job.jobClass, job.params)], []);
    AskChoices(n, id, job);
    AskAnswers(n, id, job);
    OnlyListing(id);
    assert JobIds(reply.jobs) == [id] && FinishedIds(NOTHING) == {};
    RequestIsAStep(n, id, job, Taken(job, n), Client({}, map[]), ViewFor(n, job), NOTHING, ch, reply);
  }

  function Succeeds(job: Job, r: Report): Job {
    job.(status := Success, progress := Text(r.progress))
  }

  lemma ResultReported(id: JobId, job: Job, r: Report)
    requires job.parent == None && r.id == id && r.outcome == Succeeded
    ensures var t, u := Table(map[id := job], id + 1), Table(map[id := Succeeds(job, r)], id + 1);
      AfterReports(t, ResultOnly(r), []) == u == Settle(t, ResultOnly(r), [], [])
  {
    var t := Table(map[id := job], id + 1);
    assert FailAll(t.rows, []) == t.rows && MarkProgress(t.rows, []) == t.rows;
    OneReport(t, r);
    assert Spawn(t, id, job, []) == t;
    assert t.rows[id := Succeeds(job, r)] == map[id := Succeeds(job, r)];
  }

  lemma ReturnChoices(n: NodeId, id: JobId, job: Job, r: Report)
    requires job.parent == None && r.id == id && r.outcome == Succeeded
    ensures var t, ch := Table(map[id := job], id + 1), Choices([], [], None);
      && ValidChoices(t, {}, ViewFor(n, job), ResultOnly(r), ch)
      && Beat(t, n, ResultOnly(r), ch) == Table(map[id := Succeeds(job, r)], id + 1)
  {
    var t := Table(map[id := job], id + 1);
    ResultReported(id, job, r);
    assert DeadJobs(t.rows, {}) == {};
    assert LostJobs(map[id := Succeeds(job, r)], n, RunningIds(ResultOnly(r))) == {};
  }

  lemma ReturnAnswers(n: NodeId, id: JobId, job: Job, r: Report)
    requires job.status == Reserved
    ensures Answers(Table(map[id := job], id + 1), Table(map[id := Succeeds(job, r)], id + 1), ViewFor(n, job),
              Choices([], [], None), Reply([], []))
  {
    var rows, u := map[id := job], map[id := Succeeds(job, r)];
    assert OnNodeIn(u, n, Reserved) == {} && OnNodeIn(rows, n, Terminating) == {};
    assert FailAll(rows, []) == rows && JobIds([]) == [];
  }

  lemma ResultCovers(id: JobId, r: Report)
    requires r.id == id
    ensures Covers(Client({}, map[id := r]), ResultOnly(r)) && FinishedIds(ResultOnly(r)) == {id}
  {
    assert [r][0].id == id;
    assert FinishedIds(ResultOnly(r)) == {id};
  }

  lemma ReturnsIsAStep(n: NodeId, id: JobId, job: Job, r: Report)
    requires job.parent == None && job.status == Reserved && r.id == id && r.outcome == Succeeded
    ensures ReliableStep(Alone(n, id, job, Client({}, map[id := r]), Idle), Returns(n, job, r),
      Alone(n, id, Succeeds(job, r), Client({}, map[id := r]), Awaiting({id}, {})))
  {
    var c, p, ch := Client({}, map[id := r]), ResultOnly(r), Choices([], [], None);
    ReturnChoices(n, id, job, r);
    ReturnAnswers(n, id, job, r);
    ResultCovers(id, r);
    assert JobIds([]) == [] && Ids([]) == {};
    RequestIsAStep(n, id, job, Succeeds(job, r), c, ViewFor(n, job), p, ch, Reply([], []));
  }

  function Started(n: NodeId, id: JobId): State {
    State(Table(map[], id), map[n := Node(Client({}, map[]), Idle)])
  }

  lemma Asked(n: NodeId, id: JobId, job: Job, tags: set<string>)
    requires Simple(job, n) && job.status == Created
    ensures var none, tagged := Client({}, map[]), job.(tags := tags);
      && ReliableStep(Started(n, id), Launch(job), Alone(n, id, job, none, Idle))
      && ReliableStep(Alone(n, id, job, none, Idle), Attach(id, {}, tags), Alone(n, id, tagged, none, Idle))
      && ReliableStep(Alone(n, id, tagged, none, Idle), Publish(id), Alone(n, id, tagged.(status := Ready), none, Idle))
  {
    var tagged := job.(tags := tags);
    assert map[][id := job] == map[id := job];
    assert map[id := job][id := tagged] == map[id := tagged];
    assert map[id := tagged][id := tagged.(status := Ready)] == map[id := tagged.(status := Ready)];
  }

  lemma Worked(n: NodeId, id: JobId, job: Job, done: Job, r: Report)
    requires r.id == id
    ensures var none, held, result := Client({}, map[]), Client({id}, map[]), Client({}, map[id := r]);
      && ReliableStep(Alone(n, id, job, none, Awaiting({}, {id})), Delivered(n), Alone(n, id, job, held, Idle))
      && ReliableStep(Alone(n, id, job, held, Idle), Ends(n, r), Alone(n, id, job, result, Idle))
      && ReliableStep(Alone(n, id, done, result, Awaiting({id}, {})), Delivered(n), Alone(n, id, done, none, Idle))
  {
    var none, held, result := Client({}, map[]), Client({id}, map[]), Client({}, map[id := r]);
    assert Deliver(none, {}, {id}) == held;
    assert Finish(held, r) == result;
    assert Deliver(result, {id}, {}) == none;
  }

  function Tagged(job: Job, tags: set<string>): Job {
    job.(tags := tags)
  }

  /** The states of a job's life on an otherwise idle farm: asked for, given to the node and done. */
  function LifeAt(n: NodeId, id: JobId, job: Job, tags: set<string>, r: Report, i: nat): State {
    var none := Client({}, map[]);
    var ready := Tagged(job, tags).(status := Ready);
    if i == 0 then Started(n, id)
    else if i == 1 then Alone(n, id, job, none, Idle)
    else if i == 2 then Alone(n, id, Tagged(job, tags), none, Idle)
    else if i == 3 then Alone(n, id, ready, none, Idle)
    else if i == 4 then Alone(n, id, Taken(ready, n), none, Awaiting({}, {id}))
    else if i == 5 then Alone(n, id, Taken(ready, n), Client({id}, map[]), Idle)
    else if i == 6 then Alone(n, id, Taken(ready, n), Client({}, map[id := r]), Idle)
    else if i == 7 then Alone(n, id, Succeeds(Taken(ready, n), r), Client({}, map[id := r]), Awaiting({id}, {}))
    else Alone(n, id, Succeeds(Taken(ready, n), r), none, Idle)
  }

  function LifeStepAt(n: NodeId, id: JobId, job: Job, tags: set<string>, r: Report, i: nat): Step {
    var ready := Tagged(job, tags).(status := Ready);
    if i == 0 then Launch(job)
    else if i == 1 then Attach(id, {}, tags)
    else if i == 2 then Publish(id)
    else if i == 3 then Asks(n, id, ready)
    else if i == 5 then Ends(n, r)
    else if i == 6 then Returns(n, Taken(ready, n), r)
    else Delivered(n)
  }

  lemma LifeGoesOn(n: NodeId, id: JobId, job: Job, tags: set<string>, r: Report, i: nat)
    requires Simple(job, n) && job.status == Created && r.id == id && r.outcome == Succeeded && i < 8
    ensures ReliableStep(LifeAt(n, id, job, tags, r, i), LifeStepAt(n, id, job, tags, r, i),
              LifeAt(n, id, job, tags, r, i + 1))
  {
    var ready := Tagged(job, tags).(status := Ready);
    if i < 3 {
      Asked(n, id, job, tags);
    } else if i == 3 {
      AsksIsAStep(n, id, ready);
    } else if i == 6 {
      ReturnsIsAStep(n, id, Taken(ready, n), r);
    } else {
      Worked(n, id, Taken(ready, n), Succeeds(Taken(ready, n), r), r);
    }
  }

  lemma LifeIsARun(n: NodeId, id: JobId, job: Job, tags: set<string>, r: Report, states: seq<State>, steps: seq<Step>)
    requires Simple(job, n) && job.status == Created && r.id == id && r.outcome == Succeeded
    requires |states| == 9 && forall i :: 0 <= i < 9 ==> states[i] == LifeAt(n, id, job, tags, r, i)
    requires |steps| == 8 && forall i :: 0 <= i < 8 ==> steps[i] == LifeStepAt(n, id, job, tags, r, i)
    ensures IsReliableRun(states, steps)
  {
    assert Start(states[0]);
    forall i | 0 <= i < |steps| ensures ReliableStep(states[i], steps[i], states[i + 1]) {
      LifeGoesOn(n, id, job, tags, r, i);
    }
  }

  /** For every job without parent and dependencies, with any tags, there is a reliable run in which
      it is launched, given to a node, and ends in success there with its result on the server and
      nothing left on the node. */
  lemma JobCanBeDone(n: NodeId, id: JobId, job: Job, tags: set<string>, progress: string)
    returns (states: seq<State>, steps: seq<Step>)
    requires Simple(job, n) && job.status == Created
    ensures IsReliableRun(states, steps) && Launch(job) in steps
    ensures var last := states[|states| - 1];
      && n in last.nodes && last.nodes[n] == Node(Client({}, map[]), Idle)
      && id in last.table.rows
      && last.table.rows[id] == job.(status := Success, node := Some(n), tags := tags, progress := Text(progress),
                                     exception := None)
  {
    var r := Report(id, progress, Succeeded);
    states := seq(9, i requires 0 <= i < 9 => LifeAt(n, id, job, tags, r, i));
    steps := seq(8, i requires 0 <= i < 8 => LifeStepAt(n, id, job, tags, r, i));
    LifeIsARun(n, id, job, tags, r, states, steps);
    assert steps[0] == Launch(job);
  }
}
