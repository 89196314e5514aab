/** What one heartbeat exchange establishes between the table and a node, from any table and
    any client, and what the order of reads in the payload guarantees. */
module Agreement {
  import opened Wrappers
  import opened JobTable
  import opened Reports
  import opened Admin
  import opened Scheduler
  import opened Heartbeat
  import opened JobClient

  /** The jobs the server expects n to hold. */
  function ActiveOn(rows: Rows, n: NodeId): set<JobId> {
    set j | j in rows && Active(rows[j].status) && OnNode(rows[j], n)
  }

  predicate HeldIssued(t: Table, c: Client) {
    forall id :: id in Held(c) ==> id < t.nextId
  }

  /** Jobs left to the client that the table does not place on n: deleted, or on another node. */
  function Strays(rows: Rows, n: NodeId, kept: set<JobId>): set<JobId> {
    set j | j in kept && (j !in rows || !OnNode(rows[j], n))
  }

  /** From any table, any client state and any silent nodes, a delivered exchange leaves the
      client holding exactly the jobs the table has active on it, and its strays. Jobs may
      finish on the client while the payload is built and while the request is under way. */
  lemma OneExchangeAgrees(t: Table, silent: set<NodeId>, v: NodeView, c: Client, p: Payload, ch: Choices,
                          reply: Reply, d: Client)
    requires KeysIssued(t) && Coherent(c) && HeldIssued(t, c) && Covers(c, p)
    requires v.dispatching && ValidChoices(t, silent, v, p, ch)
    requires Answers(t, Beat(t, v.name, p, ch), v, ch, reply)
    requires Worked(c, d)
    ensures var u, e := Beat(t, v.name, p, ch), Deliver(d, FinishedIds(p), Ids(JobIds(reply.jobs)));
      && Coherent(e)
      && Held(e) == ActiveOn(u.rows, v.name) + Strays(u.rows, v.name, Kept(p))
      && Ids(JobIds(reply.jobs)) !! Held(d)
  {
    var u, jobs := Beat(t, v.name, p, ch), Ids(JobIds(reply.jobs));
    ReportedAreFinished(c, p);
    assert jobs == OnNodeIn(u.rows, v.name, Reserved) by {
      ListingIds(JobIds(reply.jobs), OnNodeIn(u.rows, v.name, Reserved));
    }
    forall id | id in Held(c) ensures id !in jobs {
      NoDuplicateLaunch(t, silent, v, p, ch, reply, id);
    }
    forall id | id in Kept(p) && id in u.rows && OnNode(u.rows[id], v.name)
      ensures Active(u.rows[id].status)
    {
      ListedIsActive(t, silent, v, p, ch, id);
    }
    forall id | id in u.rows && Executing(u.rows[id].status) && OnNode(u.rows[id], v.name)
      ensures id in Kept(p)
    {
      BeatAfterSettle(t, silent, v, p, ch, id);
      ExecutingIsListed(t, v.name, p, ch.dead, ch.lost, id);
      FinishedIsNotExecuting(t, p, ch.dead, ch.lost, id);
    }
    ExchangeSets(u.rows, v.name, c, d, FinishedIds(p), Kept(p), jobs);
  }

  lemma FinishedIsNotExecuting(t: Table, p: Payload, dead: seq<JobId>, lost: seq<JobId>, id: JobId)
    requires KeysIssued(t) && id < t.nextId && id in Settle(t, p, dead, lost).rows
    requires Executing(Settle(t, p, dead, lost).rows[id].status)
    ensures id !in FinishedIds(p)
  {
    if id in t.rows {
      RowEffect(t, p, dead, lost, id);
    } else {
      SettleAddsNew(t, p, dead, lost, id);
    }
  }

  lemma ListingIds(s: seq<JobId>, ids: set<JobId>)
    requires IsListing(s, ids)
    ensures Ids(s) == ids
  {
  }

  lemma ListedIsActive(t: Table, silent: set<NodeId>, v: NodeView, p: Payload, ch: Choices, id: JobId)
    requires KeysIssued(t) && ValidChoices(t, silent, v, p, ch)
    requires id in MarkedIds(p) && id in Kept(p) && id < t.nextId
    requires id in Beat(t, v.name, p, ch).rows && OnNode(Beat(t, v.name, p, ch).rows[id], v.name)
    ensures Active(Beat(t, v.name, p, ch).rows[id].status)
  {
    BeatAfterSettle(t, silent, v, p, ch, id);
    if id in t.rows {
      RowEffect(t, p, ch.dead, ch.lost, id);
      assert id !in ch.lost by { ListedIsNotLost(AfterReports(t, p, ch.dead).rows, v.name, p, ch.lost, id); }
    } else {
      NewRowEffect(t, v.name, p, ch.dead, ch.lost, id);
      assert false;
    }
  }

  lemma ListedIsNotLost(rows: Rows, n: NodeId, p: Payload, lost: seq<JobId>, id: JobId)
    requires ValidLost(rows, n, p, lost) && id in RunningIds(p)
    ensures id !in lost
  {
    assert id in lost ==> id in LostJobs(rows, n, RunningIds(p));
  }

  lemma ExchangeSets(rows: Rows, n: NodeId, c: Client, d: Client, done: set<JobId>, kept: set<JobId>, jobs: set<JobId>)
    requires Coherent(c) && Worked(c, d) && jobs == OnNodeIn(rows, n, Reserved) && jobs !! Held(c)
    requires done <= c.finished.Keys && kept == Held(c) - done
    requires forall id :: id in kept && id in rows && OnNode(rows[id], n) ==> Active(rows[id].status)
    requires forall id :: id in rows && Executing(rows[id].status) && OnNode(rows[id], n) ==> id in kept
    ensures var e := Deliver(d, done, jobs);
      Coherent(e) && Held(e) == kept + jobs == ActiveOn(rows, n) + Strays(rows, n, kept)
  {
    assert Held(Deliver(d, done, jobs)) == kept + jobs;
    forall id | id in kept + jobs
      ensures id in ActiveOn(rows, n) + Strays(rows, n, kept)
    {
    }
    forall id | id in ActiveOn(rows, n) + Strays(rows, n, kept)
      ensures id in kept + jobs
    {
    }
  }

  // ---- Final statuses ----

  /** What a heartbeat leaves of a job in success or failed, whose row it keeps: its status if
      the heartbeat does not report it; running if it is listed with progress; and what its
      last report says if it is reported finished. */
  lemma FinalUnlessReported(t: Table, silent: set<NodeId>, v: NodeView, p: Payload, ch: Choices, id: JobId)
    requires KeysIssued(t) && ValidChoices(t, silent, v, p, ch) && MarkedIds(p) <= RunningIds(p)
    requires id in t.rows && Final(t.rows[id].status) && id in Beat(t, v.name, p, ch).rows
    ensures FinalAfter(p, t.rows[id].status, Beat(t, v.name, p, ch).rows[id].status, id)
  {
    assert id !in ch.dead by {
      assert id in ch.dead ==> id in DeadJobs(t.rows, silent);
    }
    FinalSettles(t, v.name, p, ch.dead, ch.lost, id);
    NeverReady(p, t.rows[id].status, Settle(t, p, ch.dead, ch.lost).rows[id].status, id);
    BeatKeepsStatus(t, silent, v, p, ch, id);
  }

  predicate FinalAfter(p: Payload, before: Status, after: Status, id: JobId) {
    if id in FinishedIds(p) then EndsAs(LastOutcome(p.finished.value, id).value, after)
    else after == if id in MarkedIds(p) then Running else before
  }

  lemma NeverReady(p: Payload, before: Status, after: Status, id: JobId)
    requires Final(before) && FinalAfter(p, before, after, id)
    ensures after != Ready
  {
  }

  lemma FinalSettles(t: Table, n: NodeId, p: Payload, dead: seq<JobId>, lost: seq<JobId>, id: JobId)
    requires KeysIssued(t) && ValidLost(AfterReports(t, p, dead).rows, n, p, lost) && MarkedIds(p) <= RunningIds(p)
    requires id in t.rows && Final(t.rows[id].status) && id !in dead
    ensures id in Settle(t, p, dead, lost).rows
    ensures FinalAfter(p, t.rows[id].status, Settle(t, p, dead, lost).rows[id].status, id)
  {
    if id in FinishedIds(p) {
      FinishedAsReported(t, n, p, dead, lost, id);
    } else {
      UnfinishedFinal(t, n, p, dead, lost, id);
    }
  }

  lemma UnfinishedFinal(t: Table, n: NodeId, p: Payload, dead: seq<JobId>, lost: seq<JobId>, id: JobId)
    requires KeysIssued(t) && ValidLost(AfterReports(t, p, dead).rows, n, p, lost) && MarkedIds(p) <= RunningIds(p)
    requires id in t.rows && Final(t.rows[id].status) && id !in dead && id !in FinishedIds(p)
    ensures id in Settle(t, p, dead, lost).rows
    ensures Settle(t, p, dead, lost).rows[id].status == if id in MarkedIds(p) then Running else t.rows[id].status
  {
    RowEffect(t, p, dead, lost, id);
    if id in MarkedIds(p) {
      ListedIsNotLost(AfterReports(t, p, dead).rows, n, p, lost, id);
    } else {
      UnreportedFinalNotLost(t, n, p, dead, lost, id);
    }
  }

  /** A job reported finished ends as its last report in the heartbeat says, whatever it was. */
  lemma FinishedAsReported(t: Table, n: NodeId, p: Payload, dead: seq<JobId>, lost: seq<JobId>, id: JobId)
    requires KeysIssued(t) && ValidLost(AfterReports(t, p, dead).rows, n, p, lost)
    requires id in t.rows && id in FinishedIds(p)
    ensures id in Settle(t, p, dead, lost).rows
    ensures EndsAs(LastOutcome(p.finished.value, id).value, Settle(t, p, dead, lost).rows[id].status)
  {
    var marked, absorbed := t.(rows := MarkReported(FailAll(t.rows, dead), p)), AfterReports(t, p, dead);
    LastReportDecides(marked, p.finished.value, id);
    NotLost(absorbed.rows, n, p, lost, id);
    FailAllEffect(absorbed.rows, lost);
    assert FailedAs(absorbed.rows[id], FailAll(absorbed.rows, lost)[id], false);
  }

  lemma UnreportedFinalNotLost(t: Table, n: NodeId, p: Payload, dead: seq<JobId>, lost: seq<JobId>, id: JobId)
    requires KeysIssued(t) && ValidLost(AfterReports(t, p, dead).rows, n, p, lost)
    requires id in t.rows && Final(t.rows[id].status) && id !in dead && id !in ReportedIds(p)
    ensures id !in lost
  {
    var failed := FailAll(t.rows, dead);
    var marked := t.(rows := MarkReported(failed, p));
    FailAllEffect(t.rows, dead);
    assert FailedAs(t.rows[id], failed[id], false);
    MarkReportedEffect(failed, p);
    assert MarkedAs(failed[id], marked.rows[id], false);
    AbsorbReportedEffect(marked, p);
    assert AbsorbedAs(marked.rows[id], AfterReports(t, p, dead).rows[id], false);
    NotLost(AfterReports(t, p, dead).rows, n, p, lost, id);
  }

  // ---- Payload coverage ----

  /** Where the heartbeat thread is in building the payload: it reads the running keys, then
      the progress of each, then the finished results. */
  datatype Build = NotStarted | ReadRunning | ReadProgress | ReadFinished

  /** The two dictionaries while worker threads run beside the heartbeat thread. A worker puts
      its result into finished and only then removes itself from running. */
  datatype Live = Live(
    running: set<JobId>, finished: set<JobId>,
    build: Build, listed: set<JobId>, progressed: set<JobId>, reported: set<JobId>)

  predicate WorkerInserts(s: Live, u: Live) {
    exists id :: id in s.running && u == s.(finished := s.finished + {id})
  }

  predicate WorkerRemoves(s: Live, u: Live) {
    exists id :: id in s.running && id in s.finished && u == s.(running := s.running - {id})
  }

  predicate BuilderReads(s: Live, u: Live) {
    match s.build
    case NotStarted => u == s.(build := ReadRunning, listed := s.running)
    case ReadRunning => u == s.(build := ReadProgress, progressed := s.running)
    case ReadProgress => u == s.(build := ReadFinished, reported := s.finished)
    case ReadFinished => false
  }

  predicate BuildStep(s: Live, u: Live) {
    WorkerInserts(s, u) || WorkerRemoves(s, u) || BuilderReads(s, u)
  }

  ghost predicate IsBuild(run: seq<Live>) {
    && |run| > 0 && run[0].build == NotStarted
    && forall i :: 0 <= i < |run| - 1 ==> BuildStep(run[i], run[i + 1])
  }

  predicate Covering(held: set<JobId>, s: Live) {
    && s.running + s.finished == held
    && (s.build != NotStarted ==>
         s.running <= s.listed && s.listed <= s.running + s.finished && held <= s.listed + s.finished)
    && (s.build == ReadProgress || s.build == ReadFinished ==>
         s.progressed <= s.listed && s.listed <= s.progressed + s.finished)
    && (s.build == ReadFinished ==>
         s.reported <= s.finished && held <= s.listed + s.reported && s.listed <= s.progressed + s.reported)
  }

  lemma {:induction false} BuildCovers(run: seq<Live>, i: nat)
    requires IsBuild(run) && i < |run|
    ensures Covering(run[0].running + run[0].finished, run[i])
  {
    if i > 0 {
      BuildCovers(run, i - 1);
      assert BuildStep(run[i - 1], run[i]);
    }
  }

  /** Under any interleaving of the workers with the three reads, the payload names every job
      held when the build began; a job listed as running without progress is among the results;
      and nothing else is named. */
  lemma PayloadCoverage(run: seq<Live>, i: nat)
    requires IsBuild(run) && i < |run| && run[i].build == ReadFinished
    ensures var held, s := run[0].running + run[0].finished, run[i];
      && s.listed + s.reported == held
      && s.progressed <= s.listed <= s.progressed + s.reported
  {
    BuildCovers(run, i);
  }

  /** The payload a build has read, and the client at that moment. */
  predicate BuiltFrom(s: Live, c: Client, p: Payload) {
    && Coherent(c) && c.finished.Keys == s.finished && c.running == s.running - s.finished
    && p.running.Some? && Ids(p.running.value) == s.listed
    && p.progress.Some? && ProgressIds(p.progress.value) == s.progressed
    && p.finished.Some? && ReportIds(p.finished.value) == s.reported && DistinctReports(p.finished.value)
    && forall r :: r in p.finished.value ==> r.id in c.finished && c.finished[r.id] == r
  }

  /** However the workers interleave with the reads, the payload is one that the theorems about
      exchanges and runs allow. */
  lemma BuiltPayloadCovers(run: seq<Live>, i: nat, c: Client, p: Payload)
    requires IsBuild(run) && i < |run| && run[i].build == ReadFinished && BuiltFrom(run[i], c, p)
    ensures Covers(c, p) && Held(c) == run[0].running + run[0].finished
  {
    BuildCovers(run, i);
    PayloadCoverage(run, i);
    assert Held(c) == run[i].running + run[i].finished;
  }

  /** So the lost-job loop never fails a job the client held when the build began, in any
      interleaving and any table. */
  lemma HeldJobIsNotLost(run: seq<Live>, i: nat, c: Client, p: Payload, t: Table, n: NodeId,
                         dead: seq<JobId>, lost: seq<JobId>, id: JobId)
    requires IsBuild(run) && i < |run| && run[i].build == ReadFinished && BuiltFrom(run[i], c, p)
    requires KeysIssued(t) && ValidLost(AfterReports(t, p, dead).rows, n, p, lost)
    requires id in t.rows && id in run[0].running + run[0].finished
    ensures id !in lost
  {
    BuiltPayloadCovers(run, i, c, p);
    CoveredJobIsNotLost(t, n, p, dead, lost, id);
  }

  lemma CoveredJobIsNotLost(t: Table, n: NodeId, p: Payload, dead: seq<JobId>, lost: seq<JobId>, id: JobId)
    requires KeysIssued(t) && ValidLost(AfterReports(t, p, dead).rows, n, p, lost)
    requires id in t.rows && id in RunningIds(p) + FinishedIds(p)
    ensures id !in lost
  {
    var marked := t.(rows := MarkReported(FailAll(t.rows, dead), p));
    AbsorbReportedEffect(marked, p);
    assert AbsorbedAs(marked.rows[id], AfterReports(t, p, dead).rows[id], id in FinishedIds(p));
    NotLost(AfterReports(t, p, dead).rows, n, p, lost, id);
  }
}
