/**
 * The Niku report's intermediate format end to end: capacities first, then
 * the Clarity projects (with the time-off project seeded from the free time),
 * then the allocations, and what the renderers read from the result.
 */
module NikuReport {
  import opened Wrappers
  import opened Hashes
  import opened NikuTypes
  import opened ResourceTotals
  import opened ProjectCollection
  import opened ProjectAllocations
  import opened AllocationTable

  /**
   * `generateIntermediateFormat`. The resource and task lists are the ones the
   * report's filters produced; `resourceEffort` and `taskEffort` are the
   * effort queries of the report period and scenario, `workingDays` the
   * working days of the period, and `timeOffId`/`timeOffName` the report's
   * attributes of the same names.
   */
  function GenerateIntermediateFormat(resources: seq<Resource>, tasks: seq<Task>,
                                      resourceEffort: Resource -> real, taskEffort: (Task, Resource) -> real,
                                      workingDays: real, timeOffId: Option<string>,
                                      timeOffName: Option<string>): (r: Result<Report, Error>)
    ensures (forall i :: 0 <= i < |resources| ==> !Accepted(resources[i])) ==> r == Failure(NoClarityResources)
    ensures r.Success? ==> r.value.resources.Valid() && r.value.projects.Valid()
  {
    var caps :- ComputeResourceTotals(resources, resourceEffort, workingDays);
    var ps :- CollectProjects(tasks, caps, timeOffId, timeOffName);
    Success(Report(caps, ComputeProjectAllocations(ps, caps, timeOffId, taskEffort)))
  }

  /**
   * The report is produced iff some resource is accepted, the tasks can be
   * grouped, and at least one task is filed under a ClarityPID.
   */
  lemma GenerateSucceeds(resources: seq<Resource>, tasks: seq<Task>,
                         resourceEffort: Resource -> real, taskEffort: (Task, Resource) -> real,
                         workingDays: real, timeOffId: Option<string>, timeOffName: Option<string>)
    ensures var r := GenerateIntermediateFormat(resources, tasks, resourceEffort, taskEffort, workingDays, timeOffId, timeOffName);
      r.Success? <==>
        && (exists i :: 0 <= i < |resources| && Accepted(resources[i]))
        && Groupable(tasks)
        && (exists i :: 0 <= i < |tasks| && Tagged(tasks[i]))
  {
  }

  /**
   * A ClarityRID has a capacity iff an accepted resource carries it, and that
   * capacity is the larger of the resource's effort and the working days, with
   * effort plus free time filling it.
   */
  lemma ReportCapacity(resources: seq<Resource>, tasks: seq<Task>,
                       resourceEffort: Resource -> real, taskEffort: (Task, Resource) -> real,
                       workingDays: real, timeOffId: Option<string>, timeOffName: Option<string>, rid: string)
    requires GenerateIntermediateFormat(resources, tasks, resourceEffort, taskEffort, workingDays, timeOffId, timeOffName).Success?
    ensures var rep := GenerateIntermediateFormat(resources, tasks, resourceEffort, taskEffort, workingDays, timeOffId, timeOffName).value;
      && (rid in rep.resources.entries <==> exists i :: 0 <= i < |resources| && AcceptedAs(resources[i], rid))
      && (rid in rep.resources.entries ==>
            var c := rep.resources.entries[rid];
            && AcceptedAs(c.resource, rid)
            && c.totalEffort == Max(resourceEffort(c.resource), workingDays)
            && resourceEffort(c.resource) + c.freeWork == c.totalEffort
            && c.totalEffort >= workingDays)
  {
    CollectKeys(resources, resourceEffort, workingDays);
    var rep := GenerateIntermediateFormat(resources, tasks, resourceEffort, taskEffort, workingDays, timeOffId, timeOffName).value;
    if rid in rep.resources.entries {
      CapacityInvariant(resources, resourceEffort, workingDays, rid);
    }
  }

  /**
   * The fraction of an ordinary Clarity project: the positive effort booked
   * under `rid` on the project's tasks, divided by the resource's capacity,
   * and 0.0 when there is no such effort.
   */
  lemma OrdinaryFraction(resources: seq<Resource>, tasks: seq<Task>,
                         resourceEffort: Resource -> real, taskEffort: (Task, Resource) -> real,
                         workingDays: real, timeOffId: Option<string>, timeOffName: Option<string>,
                         id: string, rid: string)
    requires GenerateIntermediateFormat(resources, tasks, resourceEffort, taskEffort, workingDays, timeOffId, timeOffName).Success?
    requires id in FirstSeen(tasks) && timeOffId != Some(id)
    ensures var rep := GenerateIntermediateFormat(resources, tasks, resourceEffort, taskEffort, workingDays, timeOffId, timeOffName).value;
      var members := Members(tasks, id);
      && id in rep.projects.entries
      && rep.projects.entries[id].tasks == members
      && (Touches(members, rid, rep.resources, taskEffort) ==>
            && rid in rep.resources.entries
            && Sum(rep, id, rid) == Divide(TasksEffort(members, rid, rep.resources, taskEffort),
                                           rep.resources.entries[rid].totalEffort))
      && (!Touches(members, rid, rep.resources, taskEffort) ==> Sum(rep, id, rid) == Finite(0.0))
  {
    var caps := ComputeResourceTotals(resources, resourceEffort, workingDays).value;
    var ps := CollectProjects(tasks, caps, timeOffId, timeOffName).value;
    AllocationSpec(ps, caps, timeOffId, taskEffort, id, rid);
    var members := Members(tasks, id);
    if Touches(members, rid, caps, taskEffort) {
      var i :| 0 <= i < |members| && TouchesIn(members[i], members[i].assignedResources, rid, caps, taskEffort);
    }
  }

  /** Two parts of one capacity, each divided by it, add up to one. */
  lemma PartsOfWhole(a: real, b: real, whole: real)
    requires whole != 0.0 && a + b == whole
    ensures a / whole + b / whole == 1.0
  {
    assert a / whole + b / whole == (a + b) / whole;
  }

  /**
   * The time-off project books, under each accepted ClarityRID, the free
   * time of the last resource that carries it: its fraction is that free
   * time over the capacity, and together with the fraction of that
   * resource's own effort it makes up the whole capacity.
   */
  lemma TimeOffFraction(resources: seq<Resource>, tasks: seq<Task>,
                        resourceEffort: Resource -> real, taskEffort: (Task, Resource) -> real,
                        workingDays: real, timeOffId: Option<string>, timeOffName: Option<string>, rid: string)
    requires GenerateIntermediateFormat(resources, tasks, resourceEffort, taskEffort, workingDays, timeOffId, timeOffName).Success?
    requires TimeOffEnabled(timeOffId, timeOffName)
    requires rid in GenerateIntermediateFormat(resources, tasks, resourceEffort, taskEffort, workingDays, timeOffId, timeOffName).value.resources.entries
    ensures var rep := GenerateIntermediateFormat(resources, tasks, resourceEffort, taskEffort, workingDays, timeOffId, timeOffName).value;
      var c := rep.resources.entries[rid];
      && rep.projects.entries[timeOffId.value].tasks == []
      && Sum(rep, timeOffId.value, rid) == Divide(c.freeWork, c.totalEffort)
      && (c.totalEffort != 0.0 ==>
            Sum(rep, timeOffId.value, rid).value + resourceEffort(c.resource) / c.totalEffort == 1.0)
  {
    var rep := GenerateIntermediateFormat(resources, tasks, resourceEffort, taskEffort, workingDays, timeOffId, timeOffName).value;
    var caps := ComputeResourceTotals(resources, resourceEffort, workingDays).value;
    var ps := CollectProjects(tasks, caps, timeOffId, timeOffName).value;
    var tid := timeOffId.value;
    assert rep.resources == caps;
    assert ps.entries[tid] == TimeOffProject(tid, timeOffName.value, caps);
    assert rep.projects.entries[tid] == ps.entries[tid];
    var c := caps.entries[rid];
    assert rep.projects.entries[tid].resources[rid].sum == c.freeWork;
    assert Sum(rep, tid, rid) == Divide(c.freeWork, c.totalEffort);
    ReportCapacity(resources, tasks, resourceEffort, taskEffort, workingDays, timeOffId, timeOffName, rid);
    if c.totalEffort != 0.0 {
      PartsOfWhole(c.freeWork, resourceEffort(c.resource), c.totalEffort);
    }
  }

  /**
   * The time-off project books free time: it has a record under a ClarityRID
   * iff some accepted resource carries it, and the record holds the working
   * days the last such resource leaves unused.
   */
  lemma TimeOffBooking(resources: seq<Resource>, tasks: seq<Task>,
                       resourceEffort: Resource -> real, taskEffort: (Task, Resource) -> real,
                       workingDays: real, timeOffId: Option<string>, timeOffName: Option<string>, rid: string)
    requires GenerateIntermediateFormat(resources, tasks, resourceEffort, taskEffort, workingDays, timeOffId, timeOffName).Success?
    requires TimeOffEnabled(timeOffId, timeOffName)
    ensures var rep := GenerateIntermediateFormat(resources, tasks, resourceEffort, taskEffort, workingDays, timeOffId, timeOffName).value;
      var p := rep.projects.entries[timeOffId.value];
      && p.tasks == []
      && (rid in p.resources <==> exists i :: 0 <= i < |resources| && AcceptedAs(resources[i], rid))
      && (rid in p.resources ==> exists i :: (0 <= i < |resources| && AcceptedAs(resources[i], rid)
            && (forall j :: i < j < |resources| ==> !AcceptedAs(resources[j], rid))
            && p.resources[rid] == NikuResource(rid, Max(workingDays - resourceEffort(resources[i]), 0.0))))
  {
    var caps := ComputeResourceTotals(resources, resourceEffort, workingDays).value;
    var ps := CollectProjects(tasks, caps, timeOffId, timeOffName).value;
    var tid := timeOffId.value;
    var rep := GenerateIntermediateFormat(resources, tasks, resourceEffort, taskEffort, workingDays, timeOffId, timeOffName).value;
    assert caps == Collect(resources, resourceEffort, workingDays);
    assert rep.projects.entries[tid] == ps.entries[tid] == TimeOffProject(tid, timeOffName.value, caps);
    var p := rep.projects.entries[tid];
    assert rid in p.resources <==> rid in caps.entries;
    CollectKeys(resources, resourceEffort, workingDays);
    if rid in caps.entries {
      assert p.resources[rid] == NikuResource(rid, caps.entries[rid].freeWork);
      CollectLastWins(resources, resourceEffort, workingDays, rid);
    }
  }

  /**
   * When timeOffId is set but timeOffName is not, no time-off project exists,
   * yet the allocation pass still skips the ordinary project with that
   * ClarityPID, so all its fractions are 0.0.
   */
  lemma SkippedProjectFraction(resources: seq<Resource>, tasks: seq<Task>,
                               resourceEffort: Resource -> real, taskEffort: (Task, Resource) -> real,
                               workingDays: real, timeOffId: Option<string>, timeOffName: Option<string>, rid: string)
    requires GenerateIntermediateFormat(resources, tasks, resourceEffort, taskEffort, workingDays, timeOffId, timeOffName).Success?
    requires timeOffId.Some? && timeOffName.None? && timeOffId.value in FirstSeen(tasks)
    ensures var rep := GenerateIntermediateFormat(resources, tasks, resourceEffort, taskEffort, workingDays, timeOffId, timeOffName).value;
      && rep.projects.entries[timeOffId.value].tasks == Members(tasks, timeOffId.value)
      && Sum(rep, timeOffId.value, rid) == Finite(0.0)
  {
  }

  /** Nothing booked on a project, ordinary or time-off, is negative. */
  lemma BookedNonNegative(tasks: seq<Task>, caps: Capacities, timeOffId: Option<string>, timeOffName: Option<string>,
                          effort: (Task, Resource) -> real, id: string, rid: string)
    requires CollectProjects(tasks, caps, timeOffId, timeOffName).Success?
    requires forall r :: r in caps.entries ==> caps.entries[r].freeWork >= 0.0
    requires var ps := CollectProjects(tasks, caps, timeOffId, timeOffName).value;
      id in ps.entries && rid in ComputeProjectAllocations(ps, caps, timeOffId, effort).entries[id].resources
    ensures var ps := CollectProjects(tasks, caps, timeOffId, timeOffName).value;
      ComputeProjectAllocations(ps, caps, timeOffId, effort).entries[id].resources[rid].sum >= 0.0
  {
    var ps := CollectProjects(tasks, caps, timeOffId, timeOffName).value;
    if IsTimeOff(id, timeOffId, timeOffName) {
      assert ps.entries[id] == TimeOffProject(id, timeOffName.value, caps);
    } else if timeOffId != Some(id) {
      assert Collected(ps.entries[id], id);
      AllocationSpec(ps, caps, timeOffId, effort, id, rid);
      TasksEffortSign(ps.entries[id].tasks, rid, caps, effort);
    }
  }

  /** A fraction is finite and non-negative when its capacity is positive and its booking is not negative. */
  lemma FractionOfPositive(rep: Report, p: string, rid: string)
    requires HasFraction(rep, p, rid) ==>
      rep.resources.entries[rid].totalEffort > 0.0 && rep.projects.entries[p].resources[rid].sum >= 0.0
    ensures Sum(rep, p, rid).Finite? && Sum(rep, p, rid).value >= 0.0
  {
  }

  /**
   * With a positive number of working days every fraction is a finite,
   * non-negative number: no capacity is 0.0 and nothing booked is negative.
   */
  lemma FractionsFinite(resources: seq<Resource>, tasks: seq<Task>,
                        resourceEffort: Resource -> real, taskEffort: (Task, Resource) -> real,
                        workingDays: real, timeOffId: Option<string>, timeOffName: Option<string>,
                        id: string, rid: string)
    requires GenerateIntermediateFormat(resources, tasks, resourceEffort, taskEffort, workingDays, timeOffId, timeOffName).Success?
    requires workingDays > 0.0
    ensures var rep := GenerateIntermediateFormat(resources, tasks, resourceEffort, taskEffort, workingDays, timeOffId, timeOffName).value;
      Sum(rep, id, rid).Finite? && Sum(rep, id, rid).value >= 0.0
  {
    GenerateSucceeds(resources, tasks, resourceEffort, taskEffort, workingDays, timeOffId, timeOffName);
    var caps := ComputeResourceTotals(resources, resourceEffort, workingDays).value;
    var ps := CollectProjects(tasks, caps, timeOffId, timeOffName).value;
    var rep := Report(caps, ComputeProjectAllocations(ps, caps, timeOffId, taskEffort));
    if HasFraction(rep, id, rid) {
      ReportCapacity(resources, tasks, resourceEffort, taskEffort, workingDays, timeOffId, timeOffName, rid);
      BookedNonNegative(tasks, caps, timeOffId, timeOffName, taskEffort, id, rid);
    }
    FractionOfPositive(rep, id, rid);
  }
}
