/**
 * The project grouping of the Niku report: the tasks that carry a ClarityPID
 * are filed into one NikuProject per ClarityPID, whose ClarityPName must be
 * the same on all of them, and an optional extra project collects every
 * resource's free time.
 */
module ProjectCollection {
  import opened Wrappers
  import opened Hashes
  import opened NikuTypes

  /**
   * The task filter as the code has it: a task is looked at when it is a leaf
   * OR has no assigned resources; only a non-leaf task with assignments is
   * passed over.
   */
  predicate Considered(t: Task) {
    t.leaf || |t.assignedResources| == 0
  }

  /** `t` is looked at and carries some ClarityPID. */
  predicate Tagged(t: Task) {
    Considered(t) && t.clarityPID.Some?
  }

  /** `t` is looked at and carries ClarityPID `id`. */
  predicate BelongsTo(t: Task, id: string) {
    Considered(t) && t.clarityPID == Some(id)
  }

  /** A task the loop files must have a non-empty ClarityPID and a set, non-empty ClarityPName. */
  predicate TagsValid(t: Task) {
    Tagged(t) ==> t.clarityPID.value != "" && t.clarityPName.Some? && t.clarityPName.value != ""
  }

  /** Any two filed tasks with the same ClarityPID carry the same ClarityPName. */
  predicate NamesAgree(tasks: seq<Task>) {
    forall i, j ::
      0 <= i < j < |tasks| && Tagged(tasks[i]) && Tagged(tasks[j]) && tasks[i].clarityPID == tasks[j].clarityPID
      ==> tasks[i].clarityPName == tasks[j].clarityPName
  }

  /** The task list can be grouped without an exception. */
  predicate Groupable(tasks: seq<Task>) {
    (forall i :: 0 <= i < |tasks| ==> TagsValid(tasks[i])) && NamesAgree(tasks)
  }

  /** The tasks filed under `id`, in list order. */
  function Members(tasks: seq<Task>, id: string): (members: seq<Task>)
    decreases |tasks|
  {
    if |tasks| == 0 then
      []
    else
      var ms := Members(tasks[..|tasks| - 1], id);
      if BelongsTo(tasks[|tasks| - 1], id) then ms + [tasks[|tasks| - 1]] else ms
  }

  /** The ClarityPIDs of the filed tasks, each once, in the order of first appearance. */
  function FirstSeen(tasks: seq<Task>): (seen: seq<string>)
    decreases |tasks|
  {
    if |tasks| == 0 then
      []
    else
      var ids := FirstSeen(tasks[..|tasks| - 1]);
      var t := tasks[|tasks| - 1];
      if Tagged(t) && t.clarityPID.value !in ids then ids + [t.clarityPID.value] else ids
  }

  /**
   * A project as the task loop leaves it: filed under its own ClarityPID,
   * with a non-empty name that every one of its (at least one) tasks carries,
   * and no allocations yet.
   */
  predicate Collected(p: NikuProject, id: string) {
    && p.id == id
    && p.name != ""
    && |p.tasks| > 0
    && p.resources == map[]
    && forall k :: 0 <= k < |p.tasks| ==> BelongsTo(p.tasks[k], id) && p.tasks[k].clarityPName == Some(p.name)
  }

  /** The invariant of the project hash during the task loop. */
  predicate WellFormed(ps: Projects) {
    ps.Valid() && forall id :: id in ps.entries ==> Collected(ps.entries[id], id)
  }

  /**
   * One iteration of the task loop: skip the task, file it into a new or an
   * existing project, or raise the exception for its tags.
   */
  function AddTask(ps: Projects, t: Task): (r: Result<Projects, Error>)
    requires WellFormed(ps)
    ensures r.Success? ==> WellFormed(r.value)
  {
    if !Considered(t) then
      Success(ps)
    else
      match t.clarityPID
      case None => Success(ps)
      case Some(id) =>
        if id == "" then
          Failure(EmptyClarityPID(t.fullId))
        else
          match t.clarityPName
          case None => Failure(MissingClarityPName(t.fullId))
          case Some(name) =>
            if name == "" then
              Failure(EmptyClarityPName(t.fullId))
            else if id !in ps.entries then
              Success(ps.Put(id, NikuProject(id, name, [t], map[])))
            else
              var p := ps.entries[id];
              var first := p.tasks[0];
              if first.clarityPName != Some(name) then
                Failure(InconsistentClarityPName(t.fullId, first.fullId, id, name, first.clarityPName))
              else
                Success(ps.Put(id, p.(tasks := p.tasks + [t])))
  }

  /** The task loop over `tasks`, stopping at the first exception. */
  function Group(tasks: seq<Task>): (r: Result<Projects, Error>)
    ensures r.Success? ==> WellFormed(r.value)
    decreases |tasks|
  {
    if |tasks| == 0 then
      Success(Empty())
    else
      var ps :- Group(tasks[..|tasks| - 1]);
      AddTask(ps, tasks[|tasks| - 1])
  }

  /** The members of `id` are exactly the filed tasks carrying `id`. */
  lemma {:induction false} MembersSpec(tasks: seq<Task>, id: string)
    ensures forall t :: t in Members(tasks, id) <==> t in tasks && BelongsTo(t, id)
    decreases |tasks|
  {
    if |tasks| > 0 {
      var pre := tasks[..|tasks| - 1];
      MembersSpec(pre, id);
      assert tasks == pre + [tasks[|tasks| - 1]];
    }
  }

  /** A ClarityPID that no task carries has no members. */
  lemma {:induction false} NoMembers(tasks: seq<Task>, id: string)
    requires forall i :: 0 <= i < |tasks| ==> !BelongsTo(tasks[i], id)
    ensures Members(tasks, id) == []
    decreases |tasks|
  {
    if |tasks| > 0 {
      NoMembers(tasks[..|tasks| - 1], id);
    }
  }

  /** A ClarityPID is first seen iff some filed task carries it. */
  lemma {:induction false} FirstSeenSpec(tasks: seq<Task>)
    ensures forall id :: id in FirstSeen(tasks) <==> exists i :: 0 <= i < |tasks| && BelongsTo(tasks[i], id)
    decreases |tasks|
  {
    if |tasks| > 0 {
      var pre := tasks[..|tasks| - 1];
      FirstSeenSpec(pre);
      assert forall i :: 0 <= i < |pre| ==> pre[i] == tasks[i];
      var t := tasks[|tasks| - 1];
      if Tagged(t) {
        assert BelongsTo(tasks[|tasks| - 1], t.clarityPID.value);
      }
    }
  }

  /** The project hash is the ClarityPIDs in first-seen order, each with its members. */
  predicate GroupedAs(ps: Projects, tasks: seq<Task>) {
    && ps.order == FirstSeen(tasks)
    && forall id :: id in ps.entries ==> ps.entries[id].tasks == Members(tasks, id)
  }

  /** Appending a task extends members and first-seen ids only at its own ClarityPID. */
  lemma AppendOne(pre: seq<Task>, t: Task)
    ensures forall id :: Members(pre + [t], id) == if BelongsTo(t, id) then Members(pre, id) + [t] else Members(pre, id)
    ensures FirstSeen(pre + [t]) == if Tagged(t) && t.clarityPID.value !in FirstSeen(pre) then FirstSeen(pre) + [t.clarityPID.value] else FirstSeen(pre)
  {
    assert (pre + [t])[..|pre|] == pre;
  }

  /** Appending a task keeps the list groupable iff its tags are valid and its name agrees with earlier namesakes. */
  lemma GroupableAppend(pre: seq<Task>, t: Task)
    ensures Groupable(pre + [t]) <==>
      && Groupable(pre)
      && TagsValid(t)
      && (Tagged(t) ==> forall i :: 0 <= i < |pre| && BelongsTo(pre[i], t.clarityPID.value) ==> pre[i].clarityPName == t.clarityPName)
  {
    var tasks := pre + [t];
    assert forall i :: 0 <= i < |pre| ==> tasks[i] == pre[i];
    assert tasks[|pre|] == t;
    if Groupable(tasks) {
      assert Groupable(pre);
      if Tagged(t) {
        forall i | 0 <= i < |pre| && BelongsTo(pre[i], t.clarityPID.value)
          ensures pre[i].clarityPName == t.clarityPName
        {
          assert Tagged(tasks[i]) && Tagged(tasks[|pre|]);
        }
      }
    }
  }

  /** One step of the loop on a task that is not filed. */
  lemma StepUntagged(pre: seq<Task>, t: Task)
    requires Group(pre).Success? && GroupedAs(Group(pre).value, pre) && Groupable(pre)
    requires !Tagged(t)
    ensures Group(pre + [t]) == Success(Group(pre).value)
    ensures Groupable(pre + [t]) && GroupedAs(Group(pre + [t]).value, pre + [t])
  {
    assert (pre + [t])[..|pre|] == pre;
    AppendOne(pre, t);
    GroupableAppend(pre, t);
  }

  /** A ClarityPID without a project after the loop was carried by no filed task. */
  lemma UnseenId(pre: seq<Task>, id: string)
    requires Group(pre).Success? && GroupedAs(Group(pre).value, pre) && id !in Group(pre).value.entries
    ensures id !in FirstSeen(pre)
    ensures forall i :: 0 <= i < |pre| ==> !BelongsTo(pre[i], id)
    ensures Members(pre, id) == []
  {
    FirstSeenSpec(pre);
    NoMembers(pre, id);
  }

  /** Opening a project for a ClarityPID no earlier task carried keeps the hash grouped. */
  lemma NewProjectGrouped(pre: seq<Task>, t: Task)
    requires Group(pre).Success? && GroupedAs(Group(pre).value, pre)
    requires Tagged(t) && TagsValid(t) && t.clarityPID.value !in FirstSeen(pre) && Members(pre, t.clarityPID.value) == []
    requires var ps := Group(pre).value;
      var id := t.clarityPID.value;
      id !in ps.entries && Group(pre + [t]) == Success(ps.Put(id, NikuProject(id, t.clarityPName.value, [t], map[])))
    ensures GroupedAs(Group(pre + [t]).value, pre + [t])
  {
    AppendOne(pre, t);
  }

  /** One step of the loop on a valid task whose ClarityPID is new. */
  lemma StepNew(pre: seq<Task>, t: Task)
    requires Group(pre).Success? && GroupedAs(Group(pre).value, pre) && Groupable(pre)
    requires Tagged(t) && TagsValid(t) && t.clarityPID.value !in Group(pre).value.entries
    ensures Group(pre + [t]).Success?
    ensures Groupable(pre + [t]) && GroupedAs(Group(pre + [t]).value, pre + [t])
  {
    var ps := Group(pre).value;
    var id := t.clarityPID.value;
    assert (pre + [t])[..|pre|] == pre;
    assert Group(pre + [t]) == Success(ps.Put(id, NikuProject(id, t.clarityPName.value, [t], map[])));
    UnseenId(pre, id);
    GroupableAppend(pre, t);
    NewProjectGrouped(pre, t);
  }

  /** One step of the loop on a valid task whose ClarityPName differs from its project's first task. */
  lemma StepMismatch(pre: seq<Task>, t: Task)
    requires Group(pre).Success? && GroupedAs(Group(pre).value, pre) && Groupable(pre)
    requires Tagged(t) && TagsValid(t) && t.clarityPID.value in Group(pre).value.entries
    requires Group(pre).value.entries[t.clarityPID.value].tasks[0].clarityPName != t.clarityPName
    ensures Group(pre + [t]).Failure? && !Groupable(pre + [t])
  {
    var ps := Group(pre).value;
    var id := t.clarityPID.value;
    assert (pre + [t])[..|pre|] == pre;
    assert Group(pre + [t]) == AddTask(ps, t);
    MembersSpec(pre, id);
    GroupableAppend(pre, t);
    var first := ps.entries[id].tasks[0];
    assert first in Members(pre, id);
    var f :| 0 <= f < |pre| && pre[f] == first;
    assert BelongsTo(pre[f], id);
  }

  /** One step of the loop on a valid task that joins its existing project. */
  lemma StepJoin(pre: seq<Task>, t: Task)
    requires Group(pre).Success? && GroupedAs(Group(pre).value, pre) && Groupable(pre)
    requires Tagged(t) && TagsValid(t) && t.clarityPID.value in Group(pre).value.entries
    requires Group(pre).value.entries[t.clarityPID.value].tasks[0].clarityPName == t.clarityPName
    ensures Group(pre + [t]).Success?
    ensures Groupable(pre + [t]) && GroupedAs(Group(pre + [t]).value, pre + [t])
  {
    var ps := Group(pre).value;
    var id := t.clarityPID.value;
    var p := ps.entries[id];
    assert (pre + [t])[..|pre|] == pre;
    assert Group(pre + [t]) == Success(ps.Put(id, p.(tasks := p.tasks + [t])));
    MembersSpec(pre, id);
    AppendOne(pre, t);
    GroupableAppend(pre, t);
    forall i | 0 <= i < |pre| && BelongsTo(pre[i], id)
      ensures pre[i].clarityPName == t.clarityPName
    {
      assert pre[i] in Members(pre, id);
      var k :| 0 <= k < |p.tasks| && p.tasks[k] == pre[i];
    }
    assert id in FirstSeen(pre);
  }

  /**
   * The task loop succeeds iff every filed task has valid tags and tasks with
   * the same ClarityPID agree on ClarityPName; it then files every such task,
   * in list order, under its ClarityPID.
   */
  lemma {:induction false} GroupCharacterised(tasks: seq<Task>)
    ensures Group(tasks).Success? <==> Groupable(tasks)
    ensures Group(tasks).Success? ==> GroupedAs(Group(tasks).value, tasks)
    decreases |tasks|
  {
    if |tasks| == 0 {
      return;
    }
    var pre := tasks[..|tasks| - 1];
    var t := tasks[|tasks| - 1];
    assert tasks == pre + [t];
    GroupCharacterised(pre);
    GroupableAppend(pre, t);
    if Group(pre).Failure? {
      return;
    }
    if !Tagged(t) {
      StepUntagged(pre, t);
    } else if !TagsValid(t) {
      assert Group(tasks) == AddTask(Group(pre).value, t);
    } else if t.clarityPID.value !in Group(pre).value.entries {
      StepNew(pre, t);
    } else if Group(pre).value.entries[t.clarityPID.value].tasks[0].clarityPName != t.clarityPName {
      StepMismatch(pre, t);
    } else {
      StepJoin(pre, t);
    }
  }

  /** A failure of the loop on a prefix is the failure of the loop on the whole list. */
  lemma {:induction false} FailureSticks(tasks: seq<Task>, k: nat)
    requires k <= |tasks| && Group(tasks[..k]).Failure?
    ensures Group(tasks) == Group(tasks[..k])
    decreases |tasks|
  {
    if k < |tasks| {
      var pre := tasks[..|tasks| - 1];
      assert pre[..k] == tasks[..k];
      FailureSticks(pre, k);
    } else {
      assert tasks[..k] == tasks;
    }
  }

  /** The first member filed under `id` is the first filed task in the list that carries `id`. */
  lemma {:induction false} MembersHead(tasks: seq<Task>, id: string)
    requires Members(tasks, id) != []
    ensures exists f :: (0 <= f < |tasks| && tasks[f] == Members(tasks, id)[0] && BelongsTo(tasks[f], id)
      && forall g :: 0 <= g < f ==> !BelongsTo(tasks[g], id))
    decreases |tasks|
  {
    var n := |tasks|;
    var pre := tasks[..n - 1];
    assert forall i :: 0 <= i < |pre| ==> pre[i] == tasks[i];
    if Members(pre, id) != [] {
      MembersHead(pre, id);
    } else {
      MembersSpec(pre, id);
      assert forall g :: 0 <= g < n - 1 ==> !BelongsTo(tasks[g], id) by {
        forall g | 0 <= g < n - 1
          ensures !BelongsTo(tasks[g], id)
        {
          assert pre[g] in pre;
        }
      }
      assert tasks[n - 1] == Members(tasks, id)[0];
    }
  }

  /** Both report attributes timeOffId and timeOffName are set; an empty string counts as set. */
  predicate TimeOffEnabled(timeOffId: Option<string>, timeOffName: Option<string>) {
    timeOffId.Some? && timeOffName.Some?
  }

  /** `id` is the ClarityPID under which the time-off project is stored. */
  predicate IsTimeOff(id: string, timeOffId: Option<string>, timeOffName: Option<string>) {
    TimeOffEnabled(timeOffId, timeOffName) && timeOffId == Some(id)
  }

  /** The time-off ClarityPID when it comes after the ordinary ones in the hash's order. */
  function TimeOffAppended(tasks: seq<Task>, timeOffId: Option<string>, timeOffName: Option<string>): (ids: seq<string>) {
    if TimeOffEnabled(timeOffId, timeOffName) && timeOffId.value !in FirstSeen(tasks) then [timeOffId.value] else []
  }

  /**
   * The extra project that books, under each accepted ClarityRID, the free
   * time of the last resource that carries it.
   */
  function TimeOffProject(id: string, name: string, caps: Capacities): (p: NikuProject)
    ensures p.id == id && p.name == name && p.tasks == []
  {
    NikuProject(id, name, [], map rid | rid in caps.entries :: NikuResource(rid, caps.entries[rid].freeWork))
  }

  /** What the successful task loop leaves for the rest of the function. */
  lemma GroupFiled(tasks: seq<Task>)
    ensures Group(tasks).Success? ==> forall id :: id in Group(tasks).value.entries <==> id in FirstSeen(tasks)
    ensures Group(tasks).Success? ==>
      (Group(tasks).value.entries == map[] <==> forall i :: 0 <= i < |tasks| ==> !Tagged(tasks[i]))
  {
    GroupCharacterised(tasks);
    FirstSeenSpec(tasks);
    assert forall i :: 0 <= i < |tasks| && Tagged(tasks[i]) ==> BelongsTo(tasks[i], tasks[i].clarityPID.value);
    if Group(tasks).Success? {
      var ps := Group(tasks).value;
      assert forall i :: 0 <= i < |tasks| && Tagged(tasks[i]) ==> tasks[i].clarityPID.value in ps.entries;
    }
  }

  /**
   * The whole grouping phase. It succeeds iff the task loop does and at least
   * one task was filed; the time-off project cannot make up for no task being
   * filed, and it replaces any ordinary project with the same ClarityPID.
   */
  function CollectProjects(tasks: seq<Task>, caps: Capacities, timeOffId: Option<string>, timeOffName: Option<string>): (r: Result<Projects, Error>)
    ensures r.Success? <==> Groupable(tasks) && exists i :: 0 <= i < |tasks| && Tagged(tasks[i])
    ensures r.Failure? && Groupable(tasks) ==> r.error == NoClarityProjects
    ensures r.Success? ==> r.value.Valid()
    ensures r.Success? ==>
      r.value.order == FirstSeen(tasks) + TimeOffAppended(tasks, timeOffId, timeOffName)
    ensures r.Success? ==> forall id :: id in r.value.entries <==> id in FirstSeen(tasks) || IsTimeOff(id, timeOffId, timeOffName)
    ensures r.Success? ==> forall id :: id in r.value.entries && !IsTimeOff(id, timeOffId, timeOffName) ==>
      Collected(r.value.entries[id], id) && r.value.entries[id].tasks == Members(tasks, id)
    ensures r.Success? && TimeOffEnabled(timeOffId, timeOffName) ==>
      r.value.entries[timeOffId.value] == TimeOffProject(timeOffId.value, timeOffName.value, caps)
  {
    GroupCharacterised(tasks);
    GroupFiled(tasks);
    var ps :- Group(tasks);
    if ps.entries == map[] then
      Failure(NoClarityProjects)
    else if TimeOffEnabled(timeOffId, timeOffName) then
      Success(ps.Put(timeOffId.value, TimeOffProject(timeOffId.value, timeOffName.value, caps)))
    else
      Success(ps)
  }

  /** Only a task with a ClarityPID can make a groupable list ungroupable. */
  lemma OffenderIsTagged(pre: seq<Task>, t: Task)
    requires Groupable(pre) && !Groupable(pre + [t])
    ensures Tagged(t)
  {
    GroupableAppend(pre, t);
  }

  /** A groupable list gets through the task loop. */
  lemma LoopSucceeds(tasks: seq<Task>)
    requires Groupable(tasks)
    ensures Group(tasks).Success?
  {
    GroupCharacterised(tasks);
  }

  /** A list that is not groupable makes the task loop raise. */
  lemma LoopFails(tasks: seq<Task>)
    requires !Groupable(tasks)
    ensures Group(tasks).Failure?
  {
    GroupCharacterised(tasks);
  }

  /** A task that makes the loop fail after a successful prefix decides the outcome of the whole loop. */
  lemma OffenceDecides(tasks: seq<Task>, k: nat)
    requires k < |tasks| && Group(tasks[..k]).Success? && Group(tasks[..k + 1]).Failure?
    ensures Group(tasks) == AddTask(Group(tasks[..k]).value, tasks[k])
    ensures Group(tasks).Failure?
  {
    assert tasks[..k + 1][..k] == tasks[..k];
    assert Group(tasks[..k + 1]) == AddTask(Group(tasks[..k]).value, tasks[k]);
    FailureSticks(tasks, k + 1);
  }

  /** The first task filed under `id` in a successful loop is the head of its project. */
  lemma FirstFiled(pre: seq<Task>, id: string)
    requires Group(pre).Success? && id in Group(pre).value.entries
    ensures exists f :: (0 <= f < |pre| && BelongsTo(pre[f], id)
      && (forall g :: 0 <= g < f ==> !BelongsTo(pre[g], id))
      && Group(pre).value.entries[id].tasks[0] == pre[f])
  {
    GroupCharacterised(pre);
    MembersHead(pre, id);
  }

  /**
   * A task with valid tags that makes a groupable list ungroupable is refused
   * for its name, and the error names the first task filed under its id.
   */
  lemma MismatchOffence(pre: seq<Task>, t: Task)
    requires Group(pre).Success? && Tagged(t) && TagsValid(t) && AddTask(Group(pre).value, t).Failure?
    ensures exists f :: (0 <= f < |pre| && BelongsTo(pre[f], t.clarityPID.value)
      && (forall g :: 0 <= g < f ==> !BelongsTo(pre[g], t.clarityPID.value))
      && pre[f].clarityPName != t.clarityPName
      && AddTask(Group(pre).value, t) == Failure(InconsistentClarityPName(t.fullId, pre[f].fullId, t.clarityPID.value,
                                                                       t.clarityPName.value, pre[f].clarityPName)))
  {
    var ps := Group(pre).value;
    var id := t.clarityPID.value;
    assert id in ps.entries;
    FirstFiled(pre, id);
  }

  /** The function fails with whatever stops the task loop. */
  lemma LoopFailurePropagates(tasks: seq<Task>, caps: Capacities, timeOffId: Option<string>, timeOffName: Option<string>)
    requires Group(tasks).Failure?
    ensures CollectProjects(tasks, caps, timeOffId, timeOffName) == Failure(Group(tasks).error)
  {
  }

  /** The first offending task carries a ClarityPID, and the loop gets through the tasks before it but not through it. */
  lemma OffenderTagged(tasks: seq<Task>, k: nat)
    requires k < |tasks| && Groupable(tasks[..k]) && !Groupable(tasks[..k + 1])
    ensures Tagged(tasks[k])
    ensures Group(tasks[..k]).Success? && Group(tasks[..k + 1]).Failure?
  {
    var pre := tasks[..k];
    var t := tasks[k];
    assert tasks[..k + 1] == pre + [t];
    OffenderIsTagged(pre, t);
    LoopSucceeds(pre);
    LoopFails(tasks[..k + 1]);
  }

  /** A first offending task with valid tags is refused for a name that differs from an earlier task's. */
  lemma OffenderMismatch(tasks: seq<Task>, k: nat)
    requires k < |tasks| && Group(tasks[..k]).Success? && Tagged(tasks[k]) && TagsValid(tasks[k])
    requires AddTask(Group(tasks[..k]).value, tasks[k]).Failure?
    ensures var t := tasks[k];
      exists f :: (0 <= f < k && BelongsTo(tasks[f], t.clarityPID.value)
        && (forall g :: 0 <= g < f ==> !BelongsTo(tasks[g], t.clarityPID.value))
        && tasks[f].clarityPName != t.clarityPName
        && AddTask(Group(tasks[..k]).value, t)
           == Failure(InconsistentClarityPName(t.fullId, tasks[f].fullId, t.clarityPID.value,
                                               t.clarityPName.value, tasks[f].clarityPName)))
  {
    var pre := tasks[..k];
    MismatchOffence(pre, tasks[k]);
    assert forall g :: 0 <= g < k ==> tasks[g] == pre[g];
  }

  /** A filed task with invalid tags raises the exception for the first tag that is wrong. */
  lemma TagErrors(ps: Projects, t: Task)
    requires WellFormed(ps) && Tagged(t) && !TagsValid(t)
    ensures t.clarityPID == Some("") ==> AddTask(ps, t) == Failure(EmptyClarityPID(t.fullId))
    ensures t.clarityPID != Some("") && t.clarityPName.None? ==> AddTask(ps, t) == Failure(MissingClarityPName(t.fullId))
    ensures t.clarityPID != Some("") && t.clarityPName == Some("") ==> AddTask(ps, t) == Failure(EmptyClarityPName(t.fullId))
    ensures AddTask(ps, t).Failure?
  {
  }

  /** The task loop stops with the exception raised for the first offending task `tasks[k]`. */
  lemma GroupOffence(tasks: seq<Task>, k: nat)
    requires k < |tasks| && Groupable(tasks[..k]) && !Groupable(tasks[..k + 1])
    ensures var r := Group(tasks);
      var t := tasks[k];
      && Tagged(t)
      && r.Failure?
      && (t.clarityPID == Some("") ==> r.error == EmptyClarityPID(t.fullId))
      && (t.clarityPID != Some("") && t.clarityPName.None? ==> r.error == MissingClarityPName(t.fullId))
      && (t.clarityPID != Some("") && t.clarityPName == Some("") ==> r.error == EmptyClarityPName(t.fullId))
      && (TagsValid(t) ==> exists f :: (0 <= f < k && BelongsTo(tasks[f], t.clarityPID.value)
            && (forall g :: 0 <= g < f ==> !BelongsTo(tasks[g], t.clarityPID.value))
            && tasks[f].clarityPName != t.clarityPName
            && r.error == InconsistentClarityPName(t.fullId, tasks[f].fullId, t.clarityPID.value,
                                                   t.clarityPName.value, tasks[f].clarityPName)))
  {
    OffenderTagged(tasks, k);
    OffenceDecides(tasks, k);
    var ps := Group(tasks[..k]).value;
    if TagsValid(tasks[k]) {
      OffenderMismatch(tasks, k);
    } else {
      TagErrors(ps, tasks[k]);
    }
  }

  /**
   * The exception that aborts the grouping is the one for the first offending
   * task `tasks[k]`: its empty ClarityPID, its unset or empty ClarityPName, or
   * a ClarityPName that differs from the one on the first task filed under the
   * same ClarityPID.
   */
  lemma FirstOffence(tasks: seq<Task>, caps: Capacities, timeOffId: Option<string>, timeOffName: Option<string>, k: nat)
    requires k < |tasks| && Groupable(tasks[..k]) && !Groupable(tasks[..k + 1])
    ensures var r := CollectProjects(tasks, caps, timeOffId, timeOffName);
      var t := tasks[k];
      && Tagged(t)
      && r.Failure?
      && (t.clarityPID == Some("") ==> r.error == EmptyClarityPID(t.fullId))
      && (t.clarityPID != Some("") && t.clarityPName.None? ==> r.error == MissingClarityPName(t.fullId))
      && (t.clarityPID != Some("") && t.clarityPName == Some("") ==> r.error == EmptyClarityPName(t.fullId))
      && (TagsValid(t) ==> exists f :: (0 <= f < k && BelongsTo(tasks[f], t.clarityPID.value)
            && (forall g :: 0 <= g < f ==> !BelongsTo(tasks[g], t.clarityPID.value))
            && tasks[f].clarityPName != t.clarityPName
            && r.error == InconsistentClarityPName(t.fullId, tasks[f].fullId, t.clarityPID.value,
                                                   t.clarityPName.value, tasks[f].clarityPName)))
  {
    GroupOffence(tasks, k);
    LoopFailurePropagates(tasks, caps, timeOffId, timeOffName);
  }
}
