/**
 * The allocation pass of the Niku report: for every ordinary project, the
 * positive effort of each accepted resource on the project's tasks is added
 * up per ClarityRID.
 */
module ProjectAllocations {
  import opened Wrappers
  import opened Hashes
  import opened NikuTypes

  /** Assigned resource `a` is booked under `rid`: its ClarityRID is `rid` and has a capacity. */
  predicate BookedAs(a: Resource, rid: string, caps: Capacities) {
    a.clarityRID == Some(rid) && rid in caps.entries
  }

  /** `res[rid].sum += work`, creating the record at 0.0 first when there is none. */
  function AddWork(res: map<string, NikuResource>, rid: string, work: real): (booked: map<string, NikuResource>) {
    if rid in res then res[rid := res[rid].(sum := res[rid].sum + work)]
    else res[rid := NikuResource(rid, 0.0 + work)]
  }

  /** The inner loop over the resources `rs` assigned to task `t`. */
  function AddAssignments(res: map<string, NikuResource>, t: Task, rs: seq<Resource>, caps: Capacities,
                          effort: (Task, Resource) -> real): (booked: map<string, NikuResource>)
    decreases |rs|
  {
    if |rs| == 0 then
      res
    else
      var res' := AddAssignments(res, t, rs[..|rs| - 1], caps, effort);
      var a := rs[|rs| - 1];
      if a.clarityRID.None? || a.clarityRID.value !in caps.entries then
        res'
      else
        var work := effort(t, a);
        if work <= 0.0 then res' else AddWork(res', a.clarityRID.value, work)
  }

  /** The loop over the tasks of one project. */
  function AddTasks(res: map<string, NikuResource>, tasks: seq<Task>, caps: Capacities,
                    effort: (Task, Resource) -> real): (booked: map<string, NikuResource>)
    decreases |tasks|
  {
    if |tasks| == 0 then
      res
    else
      var t := tasks[|tasks| - 1];
      AddAssignments(AddTasks(res, tasks[..|tasks| - 1], caps, effort), t, t.assignedResources, caps, effort)
  }

  /** One project after the pass: the time-off project is skipped by its ClarityPID. */
  function Allocate(p: NikuProject, caps: Capacities, timeOffId: Option<string>,
                    effort: (Task, Resource) -> real): (q: NikuProject) {
    if timeOffId == Some(p.id) then p
    else p.(resources := AddTasks(p.resources, p.tasks, caps, effort))
  }

  // ---------------------------------------------------------------------------
  // Reference definitions: what the pass adds, independent of loop order.

  /** The positive effort on `t` of its assigned resources `rs` booked under `rid`. */
  function AssignmentsEffort(t: Task, rs: seq<Resource>, rid: string, caps: Capacities,
                             effort: (Task, Resource) -> real): (e: real)
    decreases |rs|
  {
    if |rs| == 0 then
      0.0
    else
      var a := rs[|rs| - 1];
      AssignmentsEffort(t, rs[..|rs| - 1], rid, caps, effort)
        + (if BookedAs(a, rid, caps) && effort(t, a) > 0.0 then effort(t, a) else 0.0)
  }

  /** The positive effort booked under `rid` on task `t`. */
  function TaskEffort(t: Task, rid: string, caps: Capacities, effort: (Task, Resource) -> real): (e: real) {
    AssignmentsEffort(t, t.assignedResources, rid, caps, effort)
  }

  /** The positive effort booked under `rid` on all of `tasks`. */
  function TasksEffort(tasks: seq<Task>, rid: string, caps: Capacities, effort: (Task, Resource) -> real): (e: real)
    decreases |tasks|
  {
    if |tasks| == 0 then
      0.0
    else
      TasksEffort(tasks[..|tasks| - 1], rid, caps, effort) + TaskEffort(tasks[|tasks| - 1], rid, caps, effort)
  }

  /** Some resource of `rs` is booked under `rid` with positive effort on `t`. */
  predicate TouchesIn(t: Task, rs: seq<Resource>, rid: string, caps: Capacities, effort: (Task, Resource) -> real) {
    exists k :: 0 <= k < |rs| && BookedAs(rs[k], rid, caps) && effort(t, rs[k]) > 0.0
  }

  /** Some resource of one of `tasks` is booked under `rid` with positive effort on it. */
  predicate Touches(tasks: seq<Task>, rid: string, caps: Capacities, effort: (Task, Resource) -> real) {
    exists i :: 0 <= i < |tasks| && TouchesIn(tasks[i], tasks[i].assignedResources, rid, caps, effort)
  }

  /** The value stored under `rid` before the pass, 0.0 when there is none. */
  function SumOf(res: map<string, NikuResource>, rid: string): (s: real) {
    if rid in res then res[rid].sum else 0.0
  }

  /** The record a pass over tasks `tasks` must leave under `rid`. */
  predicate AddedUp(before: map<string, NikuResource>, after: map<string, NikuResource>, rid: string,
                    touched: bool, added: real) {
    && (rid in after <==> rid in before || touched)
    && (rid in after ==> after[rid].sum == SumOf(before, rid) + added)
    && (rid in after ==> after[rid].id == if rid in before then before[rid].id else rid)
  }

  /** The effort of some assignments is never negative, and positive iff one of them counts. */
  lemma {:induction false} AssignmentsEffortSign(t: Task, rs: seq<Resource>, rid: string, caps: Capacities,
                                                 effort: (Task, Resource) -> real)
    ensures AssignmentsEffort(t, rs, rid, caps, effort) >= 0.0
    ensures AssignmentsEffort(t, rs, rid, caps, effort) > 0.0 <==> TouchesIn(t, rs, rid, caps, effort)
    decreases |rs|
  {
    if |rs| > 0 {
      var pre := rs[..|rs| - 1];
      AssignmentsEffortSign(t, pre, rid, caps, effort);
      assert forall k :: 0 <= k < |pre| ==> pre[k] == rs[k];
      var a := rs[|rs| - 1];
      if BookedAs(a, rid, caps) && effort(t, a) > 0.0 {
        assert BookedAs(rs[|rs| - 1], rid, caps);
      }
    }
  }

  /** The effort over some tasks is never negative, and positive iff one of them counts. */
  lemma {:induction false} TasksEffortSign(tasks: seq<Task>, rid: string, caps: Capacities,
                                           effort: (Task, Resource) -> real)
    ensures TasksEffort(tasks, rid, caps, effort) >= 0.0
    ensures TasksEffort(tasks, rid, caps, effort) > 0.0 <==> Touches(tasks, rid, caps, effort)
    decreases |tasks|
  {
    if |tasks| > 0 {
      var pre := tasks[..|tasks| - 1];
      var t := tasks[|tasks| - 1];
      TasksEffortSign(pre, rid, caps, effort);
      AssignmentsEffortSign(t, t.assignedResources, rid, caps, effort);
      assert forall i :: 0 <= i < |pre| ==> pre[i] == tasks[i];
    }
  }

  /**
   * The inner loop over the resources assigned to `t` adds exactly their
   * positive effort booked under `rid`, and creates the record only when
   * there is some.
   */
  lemma {:induction false} AddAssignmentsSpec(res: map<string, NikuResource>, t: Task, rs: seq<Resource>,
                                              caps: Capacities, effort: (Task, Resource) -> real, rid: string)
    ensures AddedUp(res, AddAssignments(res, t, rs, caps, effort), rid,
                    TouchesIn(t, rs, rid, caps, effort), AssignmentsEffort(t, rs, rid, caps, effort))
    decreases |rs|
  {
    if |rs| > 0 {
      var pre := rs[..|rs| - 1];
      AddAssignmentsSpec(res, t, pre, caps, effort, rid);
      AssignmentsEffortSign(t, pre, rid, caps, effort);
      assert forall k :: 0 <= k < |pre| ==> pre[k] == rs[k];
      var a := rs[|rs| - 1];
      if BookedAs(a, rid, caps) && effort(t, a) > 0.0 {
        assert BookedAs(rs[|rs| - 1], rid, caps);
      }
    }
  }

  /**
   * The loop over the tasks of a project adds, under every ClarityRID, exactly
   * the positive effort of its booked assignments, and creates the record only
   * when there is some.
   */
  lemma {:induction false} AddTasksSpec(res: map<string, NikuResource>, tasks: seq<Task>, caps: Capacities,
                                        effort: (Task, Resource) -> real, rid: string)
    ensures AddedUp(res, AddTasks(res, tasks, caps, effort), rid,
                    Touches(tasks, rid, caps, effort), TasksEffort(tasks, rid, caps, effort))
    decreases |tasks|
  {
    if |tasks| > 0 {
      var pre := tasks[..|tasks| - 1];
      var t := tasks[|tasks| - 1];
      var mid := AddTasks(res, pre, caps, effort);
      AddTasksSpec(res, pre, caps, effort, rid);
      AddAssignmentsSpec(mid, t, t.assignedResources, caps, effort, rid);
      TasksEffortSign(pre, rid, caps, effort);
      assert forall i :: 0 <= i < |pre| ==> pre[i] == tasks[i];
      assert Touches(tasks, rid, caps, effort) <==>
        Touches(pre, rid, caps, effort) || TouchesIn(t, t.assignedResources, rid, caps, effort) by {
        if TouchesIn(t, t.assignedResources, rid, caps, effort) {
          assert TouchesIn(tasks[|tasks| - 1], tasks[|tasks| - 1].assignedResources, rid, caps, effort);
        }
      }
    }
  }

  /** The effort of two lists of tasks one after the other is the sum of their efforts. */
  lemma {:induction false} TasksEffortConcat(u: seq<Task>, v: seq<Task>, rid: string, caps: Capacities,
                                             effort: (Task, Resource) -> real)
    ensures TasksEffort(u + v, rid, caps, effort) == TasksEffort(u, rid, caps, effort) + TasksEffort(v, rid, caps, effort)
    decreases |v|
  {
    if |v| == 0 {
      assert u + v == u;
    } else {
      var v' := v[..|v| - 1];
      TasksEffortConcat(u, v', rid, caps, effort);
      assert (u + v)[..|u + v| - 1] == u + v';
    }
  }

  /** Reordering the tasks does not change their effort. */
  lemma {:induction false} TasksEffortPermutation(a: seq<Task>, b: seq<Task>, rid: string, caps: Capacities,
                                                  effort: (Task, Resource) -> real)
    requires multiset(a) == multiset(b)
    ensures TasksEffort(a, rid, caps, effort) == TasksEffort(b, rid, caps, effort)
    decreases |a|
  {
    if |a| == 0 {
      assert |b| == |multiset(b)| == 0;
      return;
    }
    var a' := a[..|a| - 1];
    var x := a[|a| - 1];
    assert a == a' + [x];
    assert x in multiset(b);
    var i :| 0 <= i < |b| && b[i] == x;
    var b' := b[..i] + b[i + 1..];
    assert b == b[..i] + [x] + b[i + 1..];
    assert multiset(b') == multiset(b) - multiset{x};
    assert multiset(a') == multiset(a) - multiset{x};
    TasksEffortPermutation(a', b', rid, caps, effort);
    TasksEffortConcat(b[..i] + [x], b[i + 1..], rid, caps, effort);
    TasksEffortConcat(b[..i], [x], rid, caps, effort);
    TasksEffortConcat(b[..i], b[i + 1..], rid, caps, effort);
    assert TasksEffort([x], rid, caps, effort) == TaskEffort(x, rid, caps, effort) by {
      assert [x][..0] == [];
    }
  }

  /** The sums a project ends up with do not depend on the order of its tasks. */
  lemma AddTasksOrderIndependent(res: map<string, NikuResource>, a: seq<Task>, b: seq<Task>, caps: Capacities,
                                 effort: (Task, Resource) -> real)
    requires multiset(a) == multiset(b)
    ensures AddTasks(res, a, caps, effort) == AddTasks(res, b, caps, effort)
  {
    var ra := AddTasks(res, a, caps, effort);
    var rb := AddTasks(res, b, caps, effort);
    forall rid
      ensures rid in ra <==> rid in rb
      ensures rid in ra ==> ra[rid] == rb[rid]
    {
      AddTasksSpec(res, a, caps, effort, rid);
      AddTasksSpec(res, b, caps, effort, rid);
      TasksEffortPermutation(a, b, rid, caps, effort);
      TasksEffortSign(a, rid, caps, effort);
      TasksEffortSign(b, rid, caps, effort);
    }
  }

  /**
   * The whole allocation pass over the project hash. It changes nothing but
   * the resources of projects other than the time-off one, and keeps the
   * hash's keys and order.
   */
  function ComputeProjectAllocations(ps: Projects, caps: Capacities, timeOffId: Option<string>,
                                     effort: (Task, Resource) -> real): (r: Projects)
    ensures r.order == ps.order && r.entries.Keys == ps.entries.Keys
    ensures ps.Valid() ==> r.Valid()
    ensures forall id :: id in r.entries ==>
      var p, q := ps.entries[id], r.entries[id];
      && q.id == p.id && q.name == p.name && q.tasks == p.tasks
      && (timeOffId == Some(p.id) ==> q == p)
  {
    Hash(ps.order, map id | id in ps.entries :: Allocate(ps.entries[id], caps, timeOffId, effort))
  }

  /**
   * After the pass, an ordinary project holds under every ClarityRID its
   * earlier sum plus the positive effort of the assignments booked under it
   * on the project's tasks; the record exists iff it existed before or there
   * is such effort.
   */
  lemma AllocationSpec(ps: Projects, caps: Capacities, timeOffId: Option<string>,
                       effort: (Task, Resource) -> real, id: string, rid: string)
    requires id in ps.entries && timeOffId != Some(ps.entries[id].id)
    ensures var p, q := ps.entries[id], ComputeProjectAllocations(ps, caps, timeOffId, effort).entries[id];
      AddedUp(p.resources, q.resources, rid, Touches(p.tasks, rid, caps, effort), TasksEffort(p.tasks, rid, caps, effort))
  {
    var p := ps.entries[id];
    AddTasksSpec(p.resources, p.tasks, caps, effort, rid);
  }
}
