/**
 * The entities of the Niku (Clarity XOG) export report: the schedule's
 * resources and tasks as the report sees them, the capacity kept per Clarity
 * resource, the NikuProject / NikuResource records that collect allocations
 * per Clarity project, and the exceptions that abort the report.
 */
module NikuTypes {
  import opened Wrappers
  import opened Hashes

  /**
   * A resource of the schedule, after the external sorting and filtering:
   * its full id, whether it is a leaf, and its custom attribute ClarityRID
   * (unset, or a string that may be empty).
   */
  datatype Resource = Resource(fullId: string, leaf: bool, clarityRID: Option<string>)

  /**
   * A task of the schedule: its full id, whether it is a leaf, its custom
   * attributes ClarityPID and ClarityPName, and the resources assigned to it
   * in the report's scenario.
   */
  datatype Task = Task(
    fullId: string,
    leaf: bool,
    clarityPID: Option<string>,
    clarityPName: Option<string>,
    assignedResources: seq<Resource>)

  /**
   * What the report keeps per accepted ClarityRID: the resource itself, its
   * maximum possible work in the report period (the denominator of every
   * fraction) and its unallocated or vacation time, both in days.
   */
  datatype Capacity = Capacity(resource: Resource, totalEffort: real, freeWork: real)

  /** The effort of one Clarity resource summed up within one Clarity project. */
  datatype NikuResource = NikuResource(id: string, sum: real)

  /**
   * One Clarity project: its ClarityPID and ClarityPName, the tasks that carry
   * them, and a NikuResource per ClarityRID that worked on those tasks.
   */
  datatype NikuProject = NikuProject(
    id: string,
    name: string,
    tasks: seq<Task>,
    resources: map<string, NikuResource>)

  /** Capacities by ClarityRID, in the order the resources were first accepted. */
  type Capacities = Hash<string, Capacity>

  /** Clarity projects by ClarityPID, in the order they were first created. */
  type Projects = Hash<string, NikuProject>

  /** The intermediate format the renderers read. */
  datatype Report = Report(resources: Capacities, projects: Projects)

  /** The exceptions raised while building the intermediate format. */
  datatype Error =
    | NoClarityResources
    | EmptyClarityPID(task: string)
    | MissingClarityPName(task: string)
    | EmptyClarityPName(task: string)
    | InconsistentClarityPName(task: string, firstTask: string, id: string, name: string, firstName: Option<string>)
    | NoClarityProjects

  /**
   * A Ruby Float as a result of the report's arithmetic: a finite value, or
   * one of NaN and the infinities, which a division by 0.0 yields and which
   * every later addition keeps non-finite.
   */
  datatype Float = Finite(value: real) | NonFinite {

    function Plus(other: Float): (sum: Float) {
      if Finite? && other.Finite? then Finite(value + other.value) else NonFinite
    }
  }

  /** Ruby's `a / b` on Floats whose operands are finite. */
  function Divide(a: real, b: real): (q: Float)
    ensures q.NonFinite? <==> b == 0.0
    ensures q.Finite? ==> q.value * b == a
  {
    if b == 0.0 then NonFinite else Finite(a / b)
  }

  function Max(a: real, b: real): (m: real) {
    if a >= b then a else b
  }
}
