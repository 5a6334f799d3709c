# Niku report allocation engine in Dafny

This project models the part of TaskJuggler's Niku report (`NikuReport`) that
builds the intermediate format for the Clarity XOG export. The part turns a
schedule into a table of Clarity project × Clarity resource × fraction of
the resource's capacity. It runs in three phases:

- **Capacity normalisation** (`computeResourceTotals`). Every leaf resource
  with a non-empty `ClarityRID` gets a capacity: the larger of its allocated
  effort and the working days of the report period. It also gets its free
  time, which is the working days not covered by effort. A later resource
  with the same `ClarityRID` replaces the earlier one. If no resource
  qualifies, the report fails.
- **Project grouping** (`collectProjects`). Tasks that carry a `ClarityPID`
  are filed into one `NikuProject` per id. The following abort the report:
  - an empty `ClarityPID`;
  - an unset or empty `ClarityPName`;
  - a `ClarityPName` that differs from the one on the project's first task;
  - no filed task at all.
  If the report's `timeOffId` and `timeOffName` are both set, an extra
  project is then added. It books, under each accepted `ClarityRID`, the
  free time of the last resource that carries it, and it replaces any
  project with the same id.
- **Allocation** (`computeProjectAllocations`). Every project except the
  time-off one adds up, per `ClarityRID`, the positive effort of the
  accepted resources assigned to its tasks.

The renderers read the result through `sum` (a fraction), `resourceTotal`,
`projectTotal` and `total`.

Modules and files:

- `wrappers.dfy` (`Wrappers`): `Option` and `Result`.
- `hashes.dfy` (`Hashes`): Ruby's insertion-ordered `Hash`.
- `niku_types.dfy` (`NikuTypes`): the resources, tasks, capacities,
  `NikuProject` / `NikuResource` records, the errors, and Ruby Float results.
- `resource_totals.dfy` (`ResourceTotals`): capacity normalisation.
- `project_collection.dfy` (`ProjectCollection`): project grouping.
- `project_allocations.dfy` (`ProjectAllocations`): allocation. It also holds
  an order-free reference definition of what gets added.
- `allocation_table.dfy` (`AllocationTable`): `sum` and the totals.
- `niku_report.dfy` (`NikuReport`): the three phases together, and
  properties of the finished report.

Each phase is a pure function. The first two phases return a `Result`,
because they can raise; the allocation pass cannot fail and returns the
updated project hash. The loops are
left-to-right folds that add the last element last, so updates happen in the
same order as in the Ruby code.

Inputs that the model takes as parameters:

- the resource and task lists, already sorted and filtered;
- the two effort queries, as functions `Resource -> real` and
  `(Task, Resource) -> real`;
- the working days of the period, as `workingDays: real`;
- the report attributes `timeOffId` and `timeOffName`, as `Option<string>`.

A Ruby `nil` is `None`. An empty string is truthy in Ruby, so `Some("")`
for both attributes still creates the time-off project.

Behaviours of the code worth knowing:

- Task filter. The comment at `NikuReport.rb:362-363` speaks of leaf tasks
  that have resource allocations. The condition at `NikuReport.rb:364-365`
  keeps a task when it is a leaf *or* has no assigned resources
  (`Considered`), and the model follows the condition. As a result, a
  container task without assignments is filed too, and it can create a
  project or trigger the name checks.
- Skipping the time-off project. The allocation pass skips every project
  whose id equals `timeOffId`, even when `timeOffName` is unset and so no
  time-off project exists. That ordinary project then keeps no allocations
  (`NikuReport.SkippedProjectFraction`).
- Which resources are counted. Allocation counts an assigned resource when
  its `ClarityRID` has a capacity. It does not check again that the assigned
  resource is a leaf.
- Division by zero. A capacity can be 0.0 (zero working days and zero
  effort). Ruby then divides by 0.0 and gets NaN or Infinity. The model
  returns `NonFinite` in that case.

## Model

| member | source | states |
|---|---|---|
| `ResourceTotals.Normalize` | lib/taskjuggler/reports/NikuReport.rb:330-340 | the capacity is max(effort, working days), the free time is max(working days − effort, 0), effort plus free time equals the capacity, and the capacity is at least the working days |
| `ResourceTotals.Collect` | lib/taskjuggler/reports/NikuReport.rb:310-341 | the capacity hash built by the loop is a valid ordered hash, and every free time in it is non-negative |
| `ResourceTotals.CollectKeys` | lib/taskjuggler/reports/NikuReport.rb:310-315 | a `ClarityRID` gets a capacity iff some leaf resource carries it as a set, non-empty tag |
| `ResourceTotals.CollectLastWins` | lib/taskjuggler/reports/NikuReport.rb:336-340 | the capacity under a `ClarityRID` is the normalisation of the last accepted resource that carries it; no later resource carries it |
| `ResourceTotals.CapacityInvariant` | lib/taskjuggler/reports/NikuReport.rb:330-340 | every capacity record satisfies the normalisation invariant for the effort of the resource it was computed from |
| `ResourceTotals.ComputeResourceTotals` | lib/taskjuggler/reports/NikuReport.rb:343-347 | normalisation fails, with the no-ClarityRID error, iff no resource is accepted |
| `ProjectCollection.AddTask` | lib/taskjuggler/reports/NikuReport.rb:385-403 | filing one task keeps every project under its own id, with at least one task, and with every task carrying the project's id and non-empty name |
| `ProjectCollection.Group` | lib/taskjuggler/reports/NikuReport.rb:361-404 | after the task loop, every project carries one consistent `ClarityPName` across all its tasks |
| `ProjectCollection.StepUntagged` | lib/taskjuggler/reports/NikuReport.rb:364-369 | a task that the filter passes over, or whose `ClarityPID` is unset, changes nothing and raises nothing |
| `ProjectCollection.StepNew` | lib/taskjuggler/reports/NikuReport.rb:385-390 | a valid task with a new `ClarityPID` creates that project and appends the id to the hash order |
| `ProjectCollection.StepMismatch` | lib/taskjuggler/reports/NikuReport.rb:391-400 | a task whose `ClarityPName` differs from the project's first task makes grouping fail, and the task list is then not consistently named |
| `ProjectCollection.StepJoin` | lib/taskjuggler/reports/NikuReport.rb:402-403 | a task whose name matches is appended to its project, in list order |
| `ProjectCollection.GroupCharacterised` | lib/taskjuggler/reports/NikuReport.rb:361-404 | the task loop succeeds iff all filed tasks have valid tags and tasks with the same id have the same name; each project then holds exactly the filed tasks with its id in list order, and ids appear in first-seen order |
| `ProjectCollection.FailureSticks` | lib/taskjuggler/reports/NikuReport.rb:370-400 | once a prefix of the task list raises, the whole loop raises that same exception |
| `ProjectCollection.CollectProjects` | lib/taskjuggler/reports/NikuReport.rb:406-420 | grouping succeeds iff the loop does and at least one task was filed (the time-off project cannot make up for none). The keys are the first-seen ids plus the time-off id. Ordinary projects are as collected. The time-off project replaces any project with its id |
| `ProjectCollection.FirstOffence` | lib/taskjuggler/reports/NikuReport.rb:367-400 | the error reported is the one for the first offending task: empty id, unset name, empty name, or a name that differs from the first task filed under the same id (which is named in the error) |
| `ProjectAllocations.AddAssignmentsSpec` | lib/taskjuggler/reports/NikuReport.rb:442-466 | the loop over a task's assigned resources adds exactly their positive, accepted effort under each `ClarityRID`, and creates a record only if there is some |
| `ProjectAllocations.AddTasksSpec` | lib/taskjuggler/reports/NikuReport.rb:441-467 | the loop over a project's tasks adds, under each `ClarityRID`, the reference total of positive accepted effort; no record is created when every such effort is ≤ 0 |
| `ProjectAllocations.AddTasksOrderIndependent` | lib/taskjuggler/reports/NikuReport.rb:441-467 | permuting a project's tasks leaves its resulting sums unchanged |
| `ProjectAllocations.ComputeProjectAllocations` | lib/taskjuggler/reports/NikuReport.rb:438-440 | the pass keeps the hash's keys and order and every project's id, name and tasks, and it leaves the project whose id is `timeOffId` unchanged |
| `ProjectAllocations.AllocationSpec` | lib/taskjuggler/reports/NikuReport.rb:438-467 | every other project ends with its earlier sums plus the reference total of positive accepted effort on its tasks |
| `NikuTypes.Divide` | lib/taskjuggler/reports/NikuReport.rb:243 | a Float division is non-finite iff the divisor is 0.0; otherwise the quotient times the divisor gives back the dividend |
| `AllocationTable.Sum` | lib/taskjuggler/reports/NikuReport.rb:236-244 | `sum` is 0.0 when the project, its record for the resource, or the resource's capacity is missing. It is non-finite iff all three exist and the capacity is 0.0. Otherwise it times the capacity gives the booked effort |
| `AllocationTable.OverProjectsNonFinite` | lib/taskjuggler/reports/NikuReport.rb:246-252 | `resourceTotal` is non-finite iff one of the fractions it adds is |
| `AllocationTable.OverResourcesNonFinite` | lib/taskjuggler/reports/NikuReport.rb:254-260 | `projectTotal` is non-finite iff one of the fractions it adds is |
| `AllocationTable.UnknownResourceTotal` | lib/taskjuggler/reports/NikuReport.rb:246-252 | the total of a resource without a capacity is 0.0 |
| `AllocationTable.UnknownProjectTotal` | lib/taskjuggler/reports/NikuReport.rb:254-260 | the total of a project that does not exist is 0.0 |
| `AllocationTable.OverBothSwap` | lib/taskjuggler/reports/NikuReport.rb:262-270 | adding all fractions project by project gives the same result as adding them resource by resource |
| `AllocationTable.TotalByResource` | lib/taskjuggler/reports/NikuReport.rb:262-270 | `total` equals the sum of every resource's column of fractions |
| `NikuReport.GenerateIntermediateFormat` | lib/taskjuggler/reports/NikuReport.rb:75-83 | with no accepted resource the report fails with the no-ClarityRID error; on success both hashes are valid ordered hashes |
| `NikuReport.GenerateSucceeds` | lib/taskjuggler/reports/NikuReport.rb:75-83 | the report is produced iff some resource is accepted, the tasks can be grouped, and some task is filed |
| `NikuReport.ReportCapacity` | lib/taskjuggler/reports/NikuReport.rb:310-340 | in the finished report, a `ClarityRID` has a capacity iff an accepted resource carries it, and that capacity satisfies the normalisation invariant |
| `NikuReport.OrdinaryFraction` | lib/taskjuggler/reports/NikuReport.rb:441-466 | an ordinary project's fraction for a resource is that resource's positive effort on the project's tasks divided by its capacity, or 0.0 if there is none |
| `NikuReport.TimeOffFraction` | lib/taskjuggler/reports/NikuReport.rb:414-419 | the time-off fraction is the free time over the capacity; with a non-zero capacity, it plus the resource's effort over the capacity is exactly 1 |
| `NikuReport.SkippedProjectFraction` | lib/taskjuggler/reports/NikuReport.rb:438-440 | with `timeOffId` set and `timeOffName` unset, the ordinary project with that id keeps its tasks but all its fractions are 0.0 |
| `NikuReport.BookedNonNegative` | lib/taskjuggler/reports/NikuReport.rb:451-466 | nothing booked on any project, ordinary or time-off, is negative |
| `NikuReport.TimeOffBooking` | lib/taskjuggler/reports/NikuReport.rb:414-419 | the time-off project has no tasks and a record under a ClarityRID iff some accepted resource carries it; the record books the working days the last such resource leaves unused, `max(workingDays - effort, 0)` |
| `NikuReport.FractionsFinite` | lib/taskjuggler/reports/NikuReport.rb:236-244 | with positive working days, every fraction is finite and non-negative |

## Left out

- The renderers `to_html`, `to_niku` and `to_csv`, and `htmlTabCell`. They only format values read through `sum` and the totals, using number formatting and the XML element classes, which are not part of this model.
- Preparing the resource and task lists (`PropertyList`, sorting, `filterResourceList`, `filterTaskList`). Their result is an input of the model.
- The effort `Query` and `@project.workingDays`. These are parameters: two effort functions and a number.
- `@report.get`, `a(...)` and the scenario index. The attributes the engine reads are parameters, and each task carries its assigned resources for the report's scenario.
- `ReportBase` and the `super` call of `generateIntermediateFormat`.
- The exception message text. The errors carry the task ids, the ClarityPID and both names, but not the formatted sentence.
- Floating-point rounding. Efforts, capacities and sums are `real`. Nothing claims that a resource's fractions add up to 1.0. The code does not guarantee it, because the task filter can drop effort that the resource's capacity still counts.
- The order of a project's `NikuResource` records. It is a map, because only the renderers read it, and they sort the keys.
- `AllocationTable.Sum`: a Ruby division by 0.0 yields NaN or ±Infinity. The model folds all three into one `NonFinite` value. Only finiteness is stated, not which non-finite value results.
- `AllocationTable.OverBothSwap`: `total` adds every fraction into one running sum. The model adds each project's row first and then the rows. Over reals and non-finite values the two groupings are equal, but floating-point rounding is not modelled.
