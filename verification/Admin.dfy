/** The operations a user or a running job asks for directly: creating and publishing jobs,
    killing, restarting and deleting them. */
module Admin {
  import opened Wrappers
  import opened JobTable

  // ---- Cascading delete ----

  function ChildrenOfAny(rows: Rows, ids: set<JobId>): set<JobId> {
    set c | c in rows && rows[c].parent.Some? && rows[c].parent.value in ids
  }

  /** ids and everything below them: deleting a row deletes the rows whose parent it is. */
  function Descendants(rows: Rows, ids: set<JobId>): (r: set<JobId>)
    ensures ids <= r <= ids + rows.Keys
    ensures ChildrenOfAny(rows, r) <= r
    decreases rows.Keys - ids
  {
    var next := ids + ChildrenOfAny(rows, ids);
    if next == ids then ids else Descendants(rows, next)
  }

  lemma {:induction false} DescendantsLeast(rows: Rows, ids: set<JobId>, closed: set<JobId>)
    requires ids <= closed && ChildrenOfAny(rows, closed) <= closed
    ensures Descendants(rows, ids) <= closed
    decreases rows.Keys - ids
  {
    var next := ids + ChildrenOfAny(rows, ids);
    if next != ids {
      assert ChildrenOfAny(rows, ids) <= ChildrenOfAny(rows, closed);
      DescendantsLeast(rows, next, closed);
    }
  }

  predicate Linked(rows: Rows, c: JobId, p: JobId) {
    c in rows && rows[c].parent == Some(p)
  }

  /** path leads from k along parent links. */
  predicate IsParentPath(rows: Rows, path: seq<JobId>, k: JobId) {
    && path != [] && path[0] == k
    && forall i :: 0 <= i < |path| - 1 ==> Linked(rows, path[i], path[i + 1])
  }

  /** A chain of one or more parent links leads from k to id. */
  ghost predicate Below(rows: Rows, k: JobId, id: JobId) {
    exists path :: IsParentPath(rows, path, k) && |path| > 1 && path[|path| - 1] == id
  }

  ghost predicate LeadsTo(rows: Rows, k: JobId, ids: set<JobId>) {
    exists path :: IsParentPath(rows, path, k) && path[|path| - 1] in ids
  }

  lemma PathFromChild(rows: Rows, c: JobId, p: JobId, path: seq<JobId>)
    requires Linked(rows, c, p) && IsParentPath(rows, path, p)
    ensures IsParentPath(rows, [c] + path, c) && ([c] + path)[|path|] == path[|path| - 1]
  {
    var longer := [c] + path;
    forall i | 0 <= i < |longer| - 1 ensures Linked(rows, longer[i], longer[i + 1]) {
      assert longer[i + 1] == path[i];
      assert i > 0 ==> longer[i] == path[i - 1];
    }
  }

  lemma PathToParent(rows: Rows, k: JobId, path: seq<JobId>, p: JobId)
    requires IsParentPath(rows, path, k) && Linked(rows, path[|path| - 1], p)
    ensures IsParentPath(rows, path + [p], k)
  {
    var longer := path + [p];
    forall i | 0 <= i < |longer| - 1 ensures Linked(rows, longer[i], longer[i + 1]) {
      assert longer[i] == path[i];
      assert i < |path| - 1 ==> longer[i + 1] == path[i + 1];
    }
  }

  lemma PathFront(rows: Rows, k: JobId, path: seq<JobId>)
    requires IsParentPath(rows, path, k) && |path| > 1
    ensures IsParentPath(rows, path[..|path| - 1], k)
  {
    var front := path[..|path| - 1];
    assert forall i :: 0 <= i < |front| ==> front[i] == path[i];
  }

  lemma {:induction false} PathDescends(rows: Rows, ids: set<JobId>, k: JobId, path: seq<JobId>)
    requires IsParentPath(rows, path, k) && path[|path| - 1] in ids
    ensures k in Descendants(rows, ids)
    decreases |path|
  {
    if |path| > 1 {
      var rest := path[1..];
      assert Linked(rows, path[0], path[0 + 1]);
      forall i | 0 <= i < |rest| - 1 ensures Linked(rows, rest[i], rest[i + 1]) {
        assert Linked(rows, path[i + 1], path[i + 1 + 1]);
      }
      PathDescends(rows, ids, path[1], rest);
      assert k in ChildrenOfAny(rows, Descendants(rows, ids));
    }
  }

  ghost function Leading(rows: Rows, ids: set<JobId>): set<JobId> {
    set x | x in ids + rows.Keys && LeadsTo(rows, x, ids)
  }

  lemma LeadingIsClosed(rows: Rows, ids: set<JobId>)
    ensures ids <= Leading(rows, ids) && ChildrenOfAny(rows, Leading(rows, ids)) <= Leading(rows, ids)
  {
    forall x | x in ids ensures x in Leading(rows, ids) {
      assert IsParentPath(rows, [x], x) && [x][|[x]| - 1] in ids;
    }
    forall x | x in ChildrenOfAny(rows, Leading(rows, ids)) ensures x in Leading(rows, ids) {
      var p := rows[x].parent.value;
      var path :| IsParentPath(rows, path, p) && path[|path| - 1] in ids;
      PathFromChild(rows, x, p, path);
      var longer := [x] + path;
      assert IsParentPath(rows, longer, x) && longer[|longer| - 1] in ids;
    }
  }

  /** The cascade reaches exactly the rows from which parent links lead to the given ones. */
  lemma DescendantsLeadTo(rows: Rows, ids: set<JobId>, k: JobId)
    ensures k in Descendants(rows, ids) <==> LeadsTo(rows, k, ids)
  {
    LeadingIsClosed(rows, ids);
    DescendantsLeast(rows, ids, Leading(rows, ids));
    if LeadsTo(rows, k, ids) {
      var path :| IsParentPath(rows, path, k) && path[|path| - 1] in ids;
      PathDescends(rows, ids, k, path);
    }
  }

  lemma LeadsToOne(rows: Rows, k: JobId, id: JobId)
    ensures LeadsTo(rows, k, {id}) <==> k == id || Below(rows, k, id)
  {
    if LeadsTo(rows, k, {id}) {
      var path :| IsParentPath(rows, path, k) && path[|path| - 1] in {id};
      assert |path| > 1 ==> Below(rows, k, id);
    }
    if k == id {
      assert IsParentPath(rows, [k], k);
    } else if Below(rows, k, id) {
      var path :| IsParentPath(rows, path, k) && |path| > 1 && path[|path| - 1] == id;
      assert path[|path| - 1] in {id};
    }
  }

  lemma LeadsToChildren(rows: Rows, k: JobId, id: JobId)
    ensures LeadsTo(rows, k, Children(rows, id)) <==> Below(rows, k, id)
  {
    if LeadsTo(rows, k, Children(rows, id)) {
      var path :| IsParentPath(rows, path, k) && path[|path| - 1] in Children(rows, id);
      PathToParent(rows, k, path, id);
      assert (path + [id])[|path|] == id;
    }
    if Below(rows, k, id) {
      var path :| IsParentPath(rows, path, k) && |path| > 1 && path[|path| - 1] == id;
      var n := |path| - 2;
      PathFront(rows, k, path);
      assert Linked(rows, path[n], path[n + 1]);
      assert path[..|path| - 1][n] in Children(rows, id);
    }
  }

  function Delete(rows: Rows, ids: set<JobId>): Rows {
    rows - Descendants(rows, ids)
  }

  /** Deletes the children of id, then saves job under id: if id is its own descendant the
      save puts the row back. */
  function DeleteChildrenAndSave(rows: Rows, id: JobId, job: Job): (r: Rows)
    ensures id in r && r[id] == job
    ensures forall k :: k in r && k != id ==> k in rows && r[k] == rows[k]
  {
    Delete(rows, Children(rows, id))[id := job]
  }

  /** u is rows without everything below id, and with job under id. */
  ghost predicate Cleared(rows: Rows, id: JobId, job: Job, u: Rows) {
    && id in u && u[id] == job
    && (forall k :: k != id ==> (k in u <==> k in rows && !Below(rows, k, id)))
    && (forall k :: k != id && k in u ==> u[k] == rows[k])
    && forall c :: c in u && c != id ==> u[c].parent != Some(id)
  }

  /** Exactly the rows below id go; no row that is left but id itself can name id as its parent. */
  lemma EverythingBelowGoes(rows: Rows, id: JobId, job: Job)
    ensures Cleared(rows, id, job, DeleteChildrenAndSave(rows, id, job))
  {
    var u := DeleteChildrenAndSave(rows, id, job);
    forall k | k != id ensures k in u <==> k in rows && !Below(rows, k, id) {
      DescendantsLeadTo(rows, Children(rows, id), k);
      LeadsToChildren(rows, k, id);
    }
    forall c | c in u && c != id ensures u[c].parent != Some(id) {
      assert c in Children(rows, id) ==> c in Descendants(rows, Children(rows, id));
    }
  }

  /** Deleting a row takes exactly the row and everything below it. */
  lemma DeletedWithBelow(rows: Rows, id: JobId)
    ensures forall k :: k in Delete(rows, {id}) <==> k in rows && k != id && !Below(rows, k, id)
    ensures forall k :: k in Delete(rows, {id}) ==> Delete(rows, {id})[k] == rows[k]
  {
    forall k ensures k in Delete(rows, {id}) <==> k in rows && k != id && !Below(rows, k, id) {
      DescendantsLeadTo(rows, {id}, k);
      LeadsToOne(rows, k, id);
    }
  }

  lemma NothingToDelete(rows: Rows, id: JobId, job: Job)
    requires Children(rows, id) == {}
    ensures DeleteChildrenAndSave(rows, id, job) == rows[id := job]
  {
    DescendantsLeast(rows, {}, {});
  }

  // ---- Requests ----

  function Reset(job: Job, sameMachine: bool): Job {
    job.(status := Ready, exception := None, progress := NoProgress,
         node := if sameMachine then job.node else None)
  }

  predicate RestartRefused(rows: Rows, id: JobId) {
    exists c :: c in Children(rows, id) && (rows[c].status == Running || rows[c].status == Waiting)
  }

  /** restart_job in place: the job's own status is not looked at. */
  function Restart(rows: Rows, id: JobId, sameMachine: bool): Rows
    requires id in rows
  {
    if RestartRefused(rows, id) then rows
    else DeleteChildrenAndSave(rows, id, Reset(rows[id], sameMachine))
  }

  /** restart_job as a clone: dependencies and the required version are not copied. */
  function Clone(job: Job, sameMachine: bool): Job {
    Job(Ready, if sameMachine then job.node else None, job.jobClass, job.params, None, {}, job.tags,
        1, job.reqGpu, job.priority, NoProgress, None)
  }

  function RestartFailedChildren(rows: Rows, id: JobId, sameMachine: bool): Rows
    requires id in rows
  {
    var failed := ChildrenIn(rows, id, Failed);
    if failed == {} then rows else
    var reset := map k | k in rows :: if k in failed then Reset(rows[k], sameMachine) else rows[k];
    reset[id := rows[id].(status := Waiting)]
  }

  function Kill(rows: Rows, id: JobId): Rows
    requires id in rows
  {
    if rows[id].status == Running then rows[id := rows[id].(status := Terminating)] else rows
  }

  predicate Deletable(s: Status) {
    s == Ready || s == Success || s == Failed
  }

  function Remove(rows: Rows, id: JobId): Rows
    requires id in rows
  {
    if Deletable(rows[id].status) then Delete(rows, {id}) else rows
  }

  function Insert(t: Table, job: Job): Table {
    Table(t.rows[t.nextId := job], t.nextId + 1)
  }

  function SetStatus(rows: Rows, id: JobId, s: Status): Rows
    requires id in rows
  {
    rows[id := rows[id].(status := s)]
  }

  /** Every key has been issued, and the parent of every row exists and is older than it. */
  predicate Integrity(t: Table) {
    && KeysIssued(t)
    && forall id :: id in t.rows && t.rows[id].parent.Some? ==>
         t.rows[id].parent.value in t.rows && t.rows[id].parent.value < id
  }

  /** A cascading delete leaves no row behind whose parent is gone. */
  lemma DeleteKeepsIntegrity(t: Table, ids: set<JobId>)
    requires Integrity(t)
    ensures Integrity(t.(rows := Delete(t.rows, ids)))
  {
    var d := Descendants(t.rows, ids);
    forall id | id in Delete(t.rows, ids) && t.rows[id].parent.Some?
      ensures t.rows[id].parent.value in Delete(t.rows, ids) && t.rows[id].parent.value < id
    {
      assert t.rows[id].parent.value in d ==> id in ChildrenOfAny(t.rows, d);
    }
  }

  lemma DeleteChildrenKeepsIntegrity(t: Table, id: JobId, job: Job)
    requires Integrity(t) && id in t.rows && job.parent == t.rows[id].parent
    ensures Integrity(t.(rows := DeleteChildrenAndSave(t.rows, id, job)))
  {
    DeleteKeepsIntegrity(t, Children(t.rows, id));
    var younger := set k | k in t.rows && k > id;
    DescendantsLeast(t.rows, Children(t.rows, id), younger);
  }
}
