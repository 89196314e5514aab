/** When the order in which a query returns lost jobs matters for the jobs that wait above them. */
module LostOrder {
  import opened Wrappers
  import opened JobTable
  import opened Reports
  import opened RollUp

  /** Jobs that are executing, as every lost or dead job is. */
  predicate Losable(rows: Rows, lost: set<JobId>) {
    forall id :: id in lost ==> id in rows && Executing(rows[id].status)
  }

  predicate SomeLost(rows: Rows, p: JobId, lost: set<JobId>) {
    exists c :: c in Children(rows, p) && c in lost
  }

  predicate LostOrEnded(rows: Rows, p: JobId, lost: set<JobId>) {
    forall c :: c in Children(rows, p) ==> c in lost || Final(rows[c].status)
  }

  /** A waiting job that ends when the last of its lost children is failed. */
  predicate Ends(rows: Rows, p: JobId, lost: set<JobId>) {
    p in rows && rows[p].status == Waiting && SomeLost(rows, p, lost) && LostOrEnded(rows, p, lost)
  }

  predicate SomeWaiting(rows: Rows, g: JobId) {
    exists w :: w in Children(rows, g) && rows[w].status == Waiting
  }

  /** g waits for a lost job and for a waiting one, and for nothing but lost jobs, ended jobs, and
      waiting jobs that end with their own lost children. */
  predicate Sensitive(rows: Rows, g: JobId, lost: set<JobId>) {
    && g in rows && rows[g].status == Waiting && SomeLost(rows, g, lost) && SomeWaiting(rows, g)
    && forall c :: c in Children(rows, g) ==> c in lost || Final(rows[c].status) || Ends(rows, c, lost)
  }

  // ---- Without a sensitive job, a closed form ----

  /** The status of a row once the jobs in lost are failed. */
  function After(rows: Rows, id: JobId, lost: set<JobId>): Status
    requires id in rows
  {
    if id in lost || Ends(rows, id, lost) then Failed else rows[id].status
  }

  predicate IsAfter(rows: Rows, u: Rows, lost: set<JobId>) {
    && u.Keys == rows.Keys
    && forall id :: id in rows ==> u[id].parent == rows[id].parent && u[id].status == After(rows, id, lost)
  }

  predicate NoneSensitive(rows: Rows, lost: set<JobId>) {
    forall g :: g in rows ==> !Sensitive(rows, g, lost)
  }

  lemma EndsGrows(rows: Rows, p: JobId, some: set<JobId>, lost: set<JobId>)
    requires some <= lost && Ends(rows, p, some)
    ensures Ends(rows, p, lost)
  {
    var c :| c in Children(rows, p) && c in some;
    assert c in lost;
  }

  /** Failing one more job ends its parent exactly if all the parent's children are lost or ended:
      a child that ended by roll-up on the way would make the parent sensitive. */
  lemma ParentEndsIff(rows: Rows, u: Rows, some: set<JobId>, lost: set<JobId>, x: JobId, p: JobId)
    requires Losable(rows, lost) && NoneSensitive(rows, lost) && some <= lost && x in lost && x !in some
    requires IsAfter(rows, u, some) && rows[x].parent == Some(p) && p in rows && rows[p].status == Waiting
    ensures u[p].status == Waiting
    ensures AllChildrenFinal(u[x := u[x].(status := Failed)], p) <==> LostOrEnded(rows, p, some + {x})
  {
    var r := u[x := u[x].(status := Failed)];
    assert x in Children(rows, p);
    SameChildren(rows, r, p);
    if AllChildrenFinal(r, p) {
      forall c | c in Children(rows, p) ensures c in some + {x} || Final(rows[c].status) {
        if c !in some + {x} && !Final(rows[c].status) {
          assert Ends(rows, c, some);
          EndedChildMakesSensitive(rows, r, u, some, lost, x, p, c);
        }
      }
    }
  }

  lemma EndedChildMakesSensitive(rows: Rows, r: Rows, u: Rows, some: set<JobId>, lost: set<JobId>,
                                 x: JobId, p: JobId, w: JobId)
    requires some <= lost && x in lost && rows.Keys == r.Keys && IsAfter(rows, u, some) && x in u
    requires r == u[x := u[x].(status := Failed)]
    requires p in rows && rows[p].status == Waiting && x in Children(rows, p)
    requires w in Children(rows, p) && Ends(rows, w, some)
    requires Children(r, p) == Children(rows, p) && AllChildrenFinal(r, p)
    ensures Sensitive(rows, p, lost)
  {
    forall c | c in Children(rows, p) ensures c in lost || Final(rows[c].status) || Ends(rows, c, lost) {
      assert Final(r[c].status);
      if c !in lost && !Final(rows[c].status) {
        assert Ends(rows, c, some);
        EndsGrows(rows, c, some, lost);
      }
    }
  }

  lemma OneMoreFailed(rows: Rows, u: Rows, some: set<JobId>, lost: set<JobId>, x: JobId)
    requires Losable(rows, lost) && NoneSensitive(rows, lost) && some <= lost && x in lost && x !in some
    requires IsAfter(rows, u, some)
    ensures IsAfter(rows, FailOne(u, x), some + {x})
  {
    var job := u[x].(status := Failed);
    var r := u[x := job];
    var v := FailOne(u, x);
    forall id | id in rows ensures v[id].parent == rows[id].parent && v[id].status == After(rows, id, some + {x}) {
      assert Evolves(r[id], JobChanged(r, job)[id]);
      if rows[x].parent == Some(id) {
        ParentAfter(rows, u, some, lost, x, id);
      } else {
        OnlyTheParent(r, job, id);
        OtherAfter(rows, some, x, id);
      }
    }
  }

  /** A job none of whose children is x. */
  lemma OtherAfter(rows: Rows, some: set<JobId>, x: JobId, id: JobId)
    requires id in rows && x in rows && rows[x].parent != Some(id)
    ensures Ends(rows, id, some + {x}) <==> Ends(rows, id, some)
  {
    assert x !in Children(rows, id);
  }

  lemma FailedBelow(u: Rows, y: JobId, p: JobId)
    requires y in u && p in u && p != y && u[y].parent == Some(p) && u[p].status == Waiting
    ensures var r := u[y := u[y].(status := Failed)];
      FailOne(u, y)[p].status == if AllChildrenFinal(r, p) then Failed else Waiting
  {
    var r := u[y := u[y].(status := Failed)];
    ParentStatus(r, p);
    assert y in Children(r, p) && r[y].status == Failed;
  }

  lemma ParentAfter(rows: Rows, u: Rows, some: set<JobId>, lost: set<JobId>, x: JobId, p: JobId)
    requires Losable(rows, lost) && NoneSensitive(rows, lost) && some <= lost && x in lost && x !in some
    requires IsAfter(rows, u, some) && rows[x].parent == Some(p) && p in rows
    ensures FailOne(u, x)[p].status == After(rows, p, some + {x})
  {
    if rows[p].status == Waiting {
      ParentEndsIff(rows, u, some, lost, x, p);
      FailedBelow(u, x, p);
      assert x in Children(rows, p);
      EndsWithOneMore(rows, p, some, x);
    } else {
      var job := u[x].(status := Failed);
      assert Evolves(u[x := job][p], JobChanged(u[x := job], job)[p]);
    }
  }

  lemma EndsWithOneMore(rows: Rows, p: JobId, some: set<JobId>, x: JobId)
    requires p in rows && rows[p].status == Waiting && x in Children(rows, p)
    ensures Ends(rows, p, some + {x}) <==> LostOrEnded(rows, p, some + {x})
  {
    assert x in some + {x};
  }

  function Members(order: seq<JobId>): set<JobId> {
    set i | 0 <= i < |order| :: order[i]
  }

  lemma MembersOfMore(most: seq<JobId>, x: JobId)
    ensures Members(most + [x]) == Members(most) + {x}
  {
    var all := most + [x];
    assert all[|most|] == x && forall i :: 0 <= i < |most| ==> all[i] == most[i];
  }

  predicate NoRepeats(order: seq<JobId>) {
    forall i, j :: 0 <= i < j < |order| ==> order[i] != order[j]
  }

  lemma {:induction false} ClosedForm(rows: Rows, lost: set<JobId>, order: seq<JobId>)
    requires Losable(rows, lost) && NoneSensitive(rows, lost) && NoRepeats(order) && Members(order) <= lost
    ensures IsAfter(rows, FailAll(rows, order), Members(order))
  {
    if order != [] {
      var most, x := order[..|order| - 1], order[|order| - 1];
      assert order == most + [x];
      MembersOfMore(most, x);
      ClosedForm(rows, lost, most);
      LastIsNew(most, x);
      OneMoreFailed(rows, FailAll(rows, most), Members(most), lost, x);
    }
  }

  lemma LastIsNew(most: seq<JobId>, x: JobId)
    requires NoRepeats(most + [x])
    ensures NoRepeats(most) && x !in Members(most)
  {
    var all := most + [x];
    assert all[|most|] == x && forall i :: 0 <= i < |most| ==> all[i] == most[i];
  }

  // ---- With a sensitive job, two outcomes ----

  lemma FailedElsewhere(u: Rows, y: JobId, id: JobId)
    requires y in u && id in u && id != y && u[y].parent != Some(id)
    ensures FailOne(u, y)[id].status == u[id].status
  {
    var job := u[y].(status := Failed);
    OnlyTheParent(u[y := job], job, id);
  }

  /** A row of an ordering's prefix: failed if it is in it, as it was if it could not wait. */
  lemma NotWaiting(rows: Rows, order: seq<JobId>, c: JobId)
    requires c in rows && rows[c].status != Waiting
    ensures FailAll(rows, order)[c].status == if c in order then Failed else rows[c].status
  {
    FailAllEffect(rows, order);
    assert FailedAs(rows[c], FailAll(rows, order)[c], c in order);
  }

  lemma SameParent(rows: Rows, order: seq<JobId>, c: JobId)
    requires c in rows
    ensures FailAll(rows, order)[c].parent == rows[c].parent
  {
    FailAllEffect(rows, order);
    assert FailedAs(rows[c], FailAll(rows, order)[c], c in order);
  }

  /** A lost child that is not failed yet keeps its parent waiting. */
  lemma {:induction false} Blocked(rows: Rows, lost: set<JobId>, order: seq<JobId>, p: JobId, x: JobId)
    requires Losable(rows, lost) && Members(order) <= lost && x in lost && x !in order
    requires p in rows && rows[p].status == Waiting && rows[x].parent == Some(p)
    ensures FailAll(rows, order)[p].status == Waiting
  {
    if order != [] {
      var most, y := order[..|order| - 1], order[|order| - 1];
      var u := FailAll(rows, most);
      assert order == most + [y];
      MembersOfMore(most, y);
      Blocked(rows, lost, most, p, x);
      SameParent(rows, most, y);
      if rows[y].parent == Some(p) {
        NotWaiting(rows, most, x);
        SameParent(rows, most, x);
        assert x in Children(u[y := u[y].(status := Failed)], p);
        FailedBelow(u, y, p);
      } else {
        FailedElsewhere(u, y, p);
      }
    }
  }

  /** A waiting child that still waits keeps its parent waiting. */
  lemma {:induction false} BlockedAbove(rows: Rows, lost: set<JobId>, order: seq<JobId>, g: JobId, w: JobId, x: JobId)
    requires Losable(rows, lost) && Members(order) <= lost && x in lost && x !in order
    requires w in rows && rows[w].status == Waiting && rows[x].parent == Some(w)
    requires g in rows && rows[g].status == Waiting && rows[w].parent == Some(g)
    ensures FailAll(rows, order)[g].status == Waiting
  {
    if order != [] {
      var most, y := order[..|order| - 1], order[|order| - 1];
      var u := FailAll(rows, most);
      assert order == most + [y];
      MembersOfMore(most, y);
      BlockedAbove(rows, lost, most, g, w, x);
      Blocked(rows, lost, most, w, x);
      SameParent(rows, most, y);
      if rows[y].parent == Some(g) {
        SameParent(rows, most, w);
        assert w in Children(u[y := u[y].(status := Failed)], g);
        FailedBelow(u, y, g);
      } else {
        FailedElsewhere(u, y, g);
      }
    }
  }

  /** All children of p have ended after order, except those that are not in it and had no end. */
  lemma {:induction false} WaitingEnds(rows: Rows, lost: set<JobId>, order: seq<JobId>, p: JobId)
    requires Losable(rows, lost) && NoRepeats(order) && Members(order) <= lost && Ends(rows, p, Members(order))
    ensures FailAll(rows, order)[p].status == Failed
  {
    var c :| c in Children(rows, p) && c in Members(order);
    var most, y := order[..|order| - 1], order[|order| - 1];
    assert order == most + [y];
    MembersOfMore(most, y);
    SameParent(rows, most, y);
    if rows[y].parent == Some(p) {
      LastChildFails(rows, lost, most, p, y);
    } else {
      assert y !in Children(rows, p);
      WaitingEnds(rows, lost, most, p);
      FailedElsewhere(FailAll(rows, most), y, p);
    }
  }

  lemma LastChildFails(rows: Rows, lost: set<JobId>, most: seq<JobId>, p: JobId, y: JobId)
    requires Losable(rows, lost) && Members(most) <= lost && y in lost && y !in most
    requires p in rows && rows[p].status == Waiting && rows[y].parent == Some(p)
    requires forall c :: c in Children(rows, p) ==>
      c == y || c in Members(most) || Final(rows[c].status) || FailAll(rows, most)[c].status == Failed
    ensures FailOne(FailAll(rows, most), y)[p].status == Failed
  {
    var u := FailAll(rows, most);
    var r := u[y := u[y].(status := Failed)];
    Blocked(rows, lost, most, p, y);
    SameParent(rows, most, y);
    forall c | c in Children(r, p) ensures Final(r[c].status) {
      SameParent(rows, most, c);
      assert c in Children(rows, p);
      if c != y && u[c].status != Failed {
        EndedInOrder(rows, lost, most, c);
      }
    }
    assert y in Children(r, p);
    FailedBelow(u, y, p);
  }

  lemma EndedInOrder(rows: Rows, lost: set<JobId>, order: seq<JobId>, c: JobId)
    requires Losable(rows, lost) && Members(order) <= lost
    requires c in rows && (c in Members(order) || Final(rows[c].status))
    ensures Final(FailAll(rows, order)[c].status)
  {
    NotWaiting(rows, order, c);
  }

  lemma NotItsOwnChild(rows: Rows, lost: set<JobId>, g: JobId)
    requires Losable(rows, lost) && Sensitive(rows, g, lost)
    ensures rows[g].parent != Some(g)
  {
    assert rows[g].parent == Some(g) <==> g in Children(rows, g);
  }

  /** A listing that ends with a lost child of a sensitive job fails that job. */
  lemma FailsWithOwnChildLast(rows: Rows, lost: set<JobId>, g: JobId, most: seq<JobId>, x: JobId)
    requires Losable(rows, lost) && Sensitive(rows, g, lost) && IsListing(most + [x], lost)
    requires x in Children(rows, g)
    ensures FailAll(rows, most + [x])[g].status == Failed
  {
    ListingParts(most, x, lost);
    NotItsOwnChild(rows, lost, g);
    forall c | c in Children(rows, g)
      ensures c == x || c in Members(most) || Final(rows[c].status) || FailAll(rows, most)[c].status == Failed
    {
      if c !in lost && !Final(rows[c].status) {
        assert Ends(rows, c, lost) && x !in Children(rows, c);
        WithoutOne(rows, c, lost, Members(most), x);
        WaitingEnds(rows, lost, most, c);
      }
    }
    LastChildFails(rows, lost, most, g, x);
    FailAllMore(rows, most, x);
  }

  lemma WithoutOne(rows: Rows, p: JobId, lost: set<JobId>, some: set<JobId>, x: JobId)
    requires Ends(rows, p, lost) && x !in Children(rows, p) && lost == some + {x}
    ensures Ends(rows, p, some)
  {
    var c :| c in Children(rows, p) && c in lost;
    assert c in some;
  }

  lemma FailAllMore(rows: Rows, most: seq<JobId>, x: JobId)
    ensures FailAll(rows, most + [x]) == FailOne(FailAll(rows, most), x)
  {
    assert (most + [x])[..|most|] == most;
  }

  lemma ListingParts(most: seq<JobId>, x: JobId, lost: set<JobId>)
    requires IsListing(most + [x], lost)
    ensures x in lost && x !in most && NoRepeats(most) && lost == Members(most) + {x}
  {
    var all := most + [x];
    assert all[|most|] == x && forall i :: 0 <= i < |most| ==> all[i] == most[i];
    MembersOfMore(most, x);
    assert Members(all) == lost;
  }

  /** A listing that ends with a lost child of one of its waiting children leaves it waiting. */
  lemma WaitsWithGrandchildLast(rows: Rows, lost: set<JobId>, g: JobId, w: JobId, most: seq<JobId>, x: JobId)
    requires Losable(rows, lost) && Sensitive(rows, g, lost) && IsListing(most + [x], lost)
    requires w in Children(rows, g) && rows[w].status == Waiting && x in Children(rows, w)
    ensures FailAll(rows, most + [x])[g].status == Waiting
  {
    ListingParts(most, x, lost);
    NotItsOwnChild(rows, lost, g);
    BlockedAbove(rows, lost, most, g, w, x);
    SameParent(rows, most, x);
    FailAllMore(rows, most, x);
    FailedElsewhere(FailAll(rows, most), x, g);
  }

  // ---- The order matters exactly with a sensitive job ----

  lemma {:induction false} ListingOf(ids: set<JobId>) returns (s: seq<JobId>)
    ensures IsListing(s, ids)
    decreases |ids|
  {
    s := [];
    if ids != {} {
      var x :| x in ids;
      var most := ListingOf(ids - {x});
      s := most + [x];
      assert forall id :: id in most ==> id in s;
      assert s[|most|] == x;
    }
  }

  lemma ListingEndingWith(ids: set<JobId>, x: JobId) returns (most: seq<JobId>)
    requires x in ids
    ensures IsListing(most + [x], ids)
  {
    most := ListingOf(ids - {x});
    var s := most + [x];
    assert s[|most|] == x && forall i :: 0 <= i < |most| ==> s[i] == most[i];
    forall id | id in ids ensures id in s {
      assert id != x ==> id in most;
    }
  }

  predicate SameStatuses(a: Rows, b: Rows) {
    a.Keys == b.Keys && forall id :: id in a ==> a[id].status == b[id].status
  }

  /** The order in which the lost jobs are failed changes some status if and only if some job is
      sensitive, which can be read off the table before. */
  lemma OrderMattersIff(rows: Rows, lost: set<JobId>)
    requires Losable(rows, lost)
    ensures NoneSensitive(rows, lost) <==>
      forall a, b :: IsListing(a, lost) && IsListing(b, lost) ==> SameStatuses(FailAll(rows, a), FailAll(rows, b))
  {
    if NoneSensitive(rows, lost) {
      forall a, b | IsListing(a, lost) && IsListing(b, lost) ensures SameStatuses(FailAll(rows, a), FailAll(rows, b)) {
        ListingMembers(a, lost);
        ListingMembers(b, lost);
        ClosedForm(rows, lost, a);
        ClosedForm(rows, lost, b);
      }
    } else {
      var g :| g in rows && Sensitive(rows, g, lost);
      var a, b := TwoListings(rows, lost, g);
      assert !SameStatuses(FailAll(rows, a), FailAll(rows, b));
    }
  }

  lemma ListingMembers(s: seq<JobId>, ids: set<JobId>)
    requires IsListing(s, ids)
    ensures Members(s) == ids && NoRepeats(s)
  {
  }

  lemma TwoListings(rows: Rows, lost: set<JobId>, g: JobId) returns (a: seq<JobId>, b: seq<JobId>)
    requires Losable(rows, lost) && Sensitive(rows, g, lost)
    ensures IsListing(a, lost) && FailAll(rows, a)[g].status == Failed
    ensures IsListing(b, lost) && FailAll(rows, b)[g].status == Waiting
  {
    a := FailingListing(rows, lost, g);
    b := WaitingListing(rows, lost, g);
  }

  lemma FailingListing(rows: Rows, lost: set<JobId>, g: JobId) returns (a: seq<JobId>)
    requires Losable(rows, lost) && Sensitive(rows, g, lost)
    ensures IsListing(a, lost) && FailAll(rows, a)[g].status == Failed
  {
    var x :| x in Children(rows, g) && x in lost;
    var most := ListingEndingWith(lost, x);
    FailsWithOwnChildLast(rows, lost, g, most, x);
    a := most + [x];
  }

  lemma WaitingListing(rows: Rows, lost: set<JobId>, g: JobId) returns (b: seq<JobId>)
    requires Losable(rows, lost) && Sensitive(rows, g, lost)
    ensures IsListing(b, lost) && FailAll(rows, b)[g].status == Waiting
  {
    var w :| w in Children(rows, g) && rows[w].status == Waiting;
    assert Ends(rows, w, lost);
    var y :| y in Children(rows, w) && y in lost;
    var most := ListingEndingWith(lost, y);
    WaitsWithGrandchildLast(rows, lost, g, w, most, y);
    b := most + [y];
  }

  /** What the lost-job loop fails, and what the cleanup fails. */
  lemma LostAreLosable(rows: Rows, n: NodeId, running: set<JobId>, silent: set<NodeId>)
    ensures Losable(rows, LostJobs(rows, n, running)) && Losable(rows, DeadJobs(rows, silent))
  {
  }

  /** The four rows of GrandchildFirst and ChildFirst are the smallest case. */
  lemma FourRowsSensitive(rows: Rows)
    requires Shape(rows) && rows[1].status == Waiting && rows[2].status == Waiting
    ensures Sensitive(rows, 1, {3, 4})
  {
    assert Children(rows, 1) == {2, 3} && Children(rows, 2) == {4};
    assert 3 in Children(rows, 1) && 2 in Children(rows, 1) && 4 in Children(rows, 2);
  }
}
