/** The farm node's side: its two dictionaries of jobs, the payload it builds from them and
    what it does with the answer. */
module JobClient {
  import opened Wrappers
  import opened JobTable
  import opened Reports
  import opened Heartbeat

  /** The dictionaries as values. */
  datatype Client = Client(running: set<JobId>, finished: map<JobId, Report>)

  function Held(c: Client): set<JobId> {
    c.running + c.finished.Keys
  }

  predicate Coherent(c: Client) {
    c.running !! c.finished.Keys && forall id :: id in c.finished ==> c.finished[id].id == id
  }

  predicate PayloadOf(c: Client, p: Payload) {
    && p.running.Some? && Ids(p.running.value) == c.running
    && p.progress.Some? && ProgressIds(p.progress.value) == c.running
    && p.finished.Some? && ReportIds(p.finished.value) == c.finished.Keys
    && forall r :: r in p.finished.value ==> r.id in c.finished && c.finished[r.id] == r
  }

  /** What a payload carries when jobs may end while it is built: the lists name what the client
      holds between them, and a job that ended on the way may be in more than one. */
  predicate Covers(c: Client, p: Payload) {
    && p.running.Some? && p.progress.Some? && p.finished.Some?
    && RunningIds(p) + FinishedIds(p) == Held(c)
    && MarkedIds(p) <= RunningIds(p) <= MarkedIds(p) + FinishedIds(p)
    && DistinctReports(p.finished.value)
    && forall r :: r in p.finished.value ==> r.id in c.finished && c.finished[r.id] == r
  }

  /** The jobs a payload leaves to the client: listed, and not reported finished. */
  function Kept(p: Payload): set<JobId> {
    RunningIds(p) - FinishedIds(p)
  }

  lemma ReportedAreFinished(c: Client, p: Payload)
    requires Covers(c, p)
    ensures FinishedIds(p) <= c.finished.Keys
  {
    forall id | id in FinishedIds(p) ensures id in c.finished {
      var i :| 0 <= i < |p.finished.value| && p.finished.value[i].id == id;
      assert p.finished.value[i] in p.finished.value;
    }
  }

  /** A payload built while nothing ends covers the client. */
  lemma SnapshotCovers(c: Client, p: Payload)
    requires PayloadOf(c, p) && DistinctReports(p.finished.value)
    ensures Covers(c, p)
  {
  }

  predicate DistinctReports(reports: seq<Report>) {
    forall i, j :: 0 <= i < j < |reports| ==> reports[i].id != reports[j].id
  }

  /** Client after jobs finished on their own since c: nothing is held or released. */
  predicate Worked(c: Client, d: Client) {
    && Coherent(d) && Held(d) == Held(c) && d.running <= c.running
    && forall id :: id in c.finished ==> id in d.finished && d.finished[id] == c.finished[id]
  }

  function Finish(c: Client, r: Report): Client {
    Client(c.running - {r.id}, c.finished[r.id := r])
  }

  function Deliver(c: Client, sent: set<JobId>, jobs: set<JobId>): Client {
    Client(c.running + jobs, c.finished - sent)
  }

  datatype Instance = Instance(status: string, terminated: bool)

  /** What blocking_run leaves as the result: a job told to terminate reports that, whatever
      its process said, and one whose process said nothing reports that it failed. */
  function ResultOf(id: JobId, instance: Instance, output: Option<Outcome>): Report {
    if instance.terminated then Report(id, "terminated", Raised("Terminated by server"))
    else if output == None then Report(id, "failed", Raised("Job process terminated abnormally"))
    else Report(id, instance.status, output.value)
  }

  /** A job after the answer: the instance it had, or the one it starts as, and told to stop if and
      only if the answer names it or it was told before. */
  function Told(running: map<JobId, Instance>, kill: seq<JobId>, id: JobId): (r: Instance)
    ensures r.status == (if id in running then running[id].status else "")
    ensures r.terminated <==> id in kill || (id in running && running[id].terminated)
  {
    var instance := if id in running then running[id] else Instance("", false);
    if id in kill then instance.(terminated := true) else instance
  }

  /** The k jobs before the first whose id was running have been launched, and no job was told to
      stop. */
  predicate LaunchedBefore(running: map<JobId, Instance>, jobs: seq<JobData>, k: nat, u: map<JobId, Instance>)
    requires k < |jobs|
  {
    && jobs[k].id in running && (forall j :: 0 <= j < k ==> jobs[j].id !in running)
    && u.Keys == running.Keys + Ids(JobIds(jobs[..k]))
    && forall id :: id in u ==> u[id] == if id in running then running[id] else Instance("", false)
  }

  class JobContainer {
    var running: map<JobId, Instance>
    var finished: map<JobId, Report>

    constructor ()
      ensures View() == Client({}, map[])
    {
      running, finished := map[], map[];
    }

    function View(): Client
      reads this
    {
      Client(running.Keys, finished)
    }

    /** The end of a worker thread. */
    method Wrapper(id: JobId, output: Option<Outcome>)
      requires id in running
      modifies this
      ensures View() == Finish(old(View()), ResultOf(id, old(running[id]), output))
      ensures running == old(running) - {id} && finished.Keys == old(finished.Keys) + {id}
      ensures forall k :: k in old(finished) && k != id ==> finished[k] == old(finished)[k]
      ensures finished[id].id == id
      ensures old(running[id]).terminated ==>
        finished[id].outcome == Raised("Terminated by server") && finished[id].progress == "terminated"
      ensures !old(running[id]).terminated && output.Some? ==>
        finished[id].outcome == output.value && finished[id].progress == old(running[id]).status
      ensures !old(running[id]).terminated && output == None ==>
        finished[id].outcome == Raised("Job process terminated abnormally") && finished[id].progress == "failed"
    {
      finished := finished[id := ResultOf(id, running[id], output)];
      running := running - {id};
    }

    method TerminateJob(id: JobId)
      modifies this`running
      ensures running.Keys == old(running.Keys)
      ensures forall k :: k in running ==>
        running[k] == if k == id then old(running[k]).(terminated := true) else old(running[k])
    {
      if id in running {
        running := running[id := running[id].(terminated := true)];
      }
    }

    /** Launches one job; raised is the uniqueness exception. */
    method SubmitJob(job: JobData) returns (raised: bool)
      modifies this`running
      ensures raised <==> job.id in old(running)
      ensures running == if raised then old(running) else old(running)[job.id := Instance("", false)]
    {
      raised := job.id in running;
      if !raised {
        running := running[job.id := Instance("", false)];
      }
    }

    method BuildPayload() returns (p: Payload)
      requires Coherent(View())
      ensures PayloadOf(View(), p) && Covers(View(), p)
      ensures forall e :: e in p.progress.value ==> e.0 in running && e.1 == running[e.0].status
    {
      var ids, progress, reports := [], [], [];
      var rest := running.Keys;
      while rest != {}
        invariant rest <= running.Keys
        invariant Ids(ids) == running.Keys - rest && ProgressIds(progress) == running.Keys - rest
        invariant forall e :: e in progress ==> e.0 in running && e.1 == running[e.0].status
        decreases rest
      {
        var id :| id in rest;
        AppendIds(ids, progress, id, running[id].status);
        ids, progress, rest := ids + [id], progress + [(id, running[id].status)], rest - {id};
      }
      rest := finished.Keys;
      while rest != {}
        invariant rest <= finished.Keys
        invariant ReportIds(reports) == finished.Keys - rest
        invariant forall r :: r in reports ==> r.id in finished && finished[r.id] == r && r.id !in rest
        invariant DistinctReports(reports)
        decreases rest
      {
        var id :| id in rest;
        AppendReport(reports, finished[id]);
        reports, rest := reports + [finished[id]], rest - {id};
      }
      p := Payload(Some(ids), Some(progress), Some(reports));
      SnapshotCovers(View(), p);
    }

    /** The results that have been sent are dropped. */
    method ForgetSent(sent: seq<Report>)
      requires ReportIds(sent) <= finished.Keys && DistinctReports(sent)
      modifies this`finished
      ensures finished == old(finished) - ReportIds(sent)
    {
      var i := 0;
      while i < |sent|
        invariant 0 <= i <= |sent|
        invariant finished == old(finished) - ReportIds(sent[..i])
      {
        assert ReportIds(sent[..i + 1]) == ReportIds(sent[..i]) + {sent[i].id} by {
          AppendReport(sent[..i], sent[i]);
          assert sent[..i + 1] == sent[..i] + [sent[i]];
        }
        finished := finished - {sent[i].id};
        i := i + 1;
      }
      assert sent[..i] == sent;
    }

    /** Launches jobs until one of them is running already. */
    method LaunchAll(jobs: seq<JobData>) returns (raised: bool)
      requires forall i, j :: 0 <= i < j < |jobs| ==> jobs[i].id != jobs[j].id
      modifies this`running
      ensures raised <==> exists d :: d in jobs && d.id in old(running)
      ensures !raised ==> running.Keys == old(running.Keys) + Ids(JobIds(jobs))
      ensures !raised ==> forall id :: id in running ==> running[id] == Told(old(running), [], id)
      ensures raised ==> exists k: nat :: k < |jobs| && LaunchedBefore(old(running), jobs, k, running)
    {
      var i := 0;
      while i < |jobs|
        invariant 0 <= i <= |jobs|
        invariant forall k :: 0 <= k < i ==> jobs[k].id !in old(running)
        invariant running.Keys == old(running.Keys) + Ids(JobIds(jobs[..i]))
        invariant forall id :: id in running ==> running[id] == Told(old(running), [], id)
      {
        assert Ids(JobIds(jobs[..i + 1])) == Ids(JobIds(jobs[..i])) + {jobs[i].id} by {
          AppendJob(jobs[..i], jobs[i]);
          assert jobs[..i + 1] == jobs[..i] + [jobs[i]];
        }
        assert jobs[i].id !in Ids(JobIds(jobs[..i]));
        raised := SubmitJob(jobs[i]);
        if raised {
          assert jobs[i] in jobs;
          assert LaunchedBefore(old(running), jobs, i, running);
          return;
        }
        i := i + 1;
      }
      assert jobs[..i] == jobs;
      raised := false;
    }

    method KillAll(kill: seq<JobId>)
      modifies this`running
      ensures running.Keys == old(running.Keys)
      ensures forall id :: id in running ==> running[id] == Told(old(running), kill, id)
    {
      var i := 0;
      while i < |kill|
        invariant 0 <= i <= |kill|
        invariant running.Keys == old(running.Keys)
        invariant forall id :: id in running ==> running[id] == Told(old(running), kill[..i], id)
      {
        assert kill[..i + 1] == kill[..i] + [kill[i]];
        TerminateJob(kill[i]);
        i := i + 1;
      }
      assert kill[..i] == kill;
    }

    /** The answer to p: forget the results sent, launch the jobs received, kill the jobs named.
        A job id already running raises, and the rest of the answer is dropped. */
    method HandleAnswer(p: Payload, reply: Reply) returns (raised: bool)
      requires p.finished.Some? && ReportIds(p.finished.value) <= finished.Keys
      requires DistinctReports(p.finished.value)
      requires forall i, j :: 0 <= i < j < |reply.jobs| ==> reply.jobs[i].id != reply.jobs[j].id
      modifies this
      ensures raised <==> exists d :: d in reply.jobs && d.id in old(running)
      ensures !raised ==> View() == Deliver(old(View()), ReportIds(p.finished.value), Ids(JobIds(reply.jobs)))
      ensures finished == old(finished) - ReportIds(p.finished.value)
      ensures !raised ==> running.Keys == old(running.Keys) + Ids(JobIds(reply.jobs))
      ensures !raised ==> forall id :: id in running ==> running[id] == Told(old(running), reply.kill, id)
      ensures raised ==> exists k: nat :: k < |reply.jobs| && LaunchedBefore(old(running), reply.jobs, k, running)
    {
      ForgetSent(p.finished.value);
      raised := LaunchAll(reply.jobs);
      if !raised {
        KillAll(reply.kill);
      }
    }
  }

  lemma AppendIds(ids: seq<JobId>, progress: seq<(JobId, string)>, id: JobId, s: string)
    ensures Ids(ids + [id]) == Ids(ids) + {id}
    ensures ProgressIds(progress + [(id, s)]) == ProgressIds(progress) + {id}
  {
    var more, list := ids + [id], progress + [(id, s)];
    assert more[|ids|] == id && list[|progress|].0 == id;
    assert forall i :: 0 <= i < |ids| ==> more[i] == ids[i];
    assert forall i :: 0 <= i < |progress| ==> list[i] == progress[i];
  }

  lemma AppendReport(reports: seq<Report>, r: Report)
    ensures ReportIds(reports + [r]) == ReportIds(reports) + {r.id}
  {
    var more := reports + [r];
    assert more[|reports|] == r;
    assert forall i :: 0 <= i < |reports| ==> more[i] == reports[i];
  }

  lemma AppendJob(jobs: seq<JobData>, d: JobData)
    ensures Ids(JobIds(jobs + [d])) == Ids(JobIds(jobs)) + {d.id}
  {
    assert JobIds(jobs + [d]) == JobIds(jobs) + [d.id];
    AppendIds(JobIds(jobs), [], d.id, "");
  }
}
