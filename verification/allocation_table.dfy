/**
 * The read-only view the renderers take of the intermediate format: the
 * fraction of a resource's capacity booked on a Clarity project, and its sums
 * per resource, per project and overall.
 */
module AllocationTable {
  import opened Wrappers
  import opened Hashes
  import opened NikuTypes

  /** Project `p` exists, has a record for `rid`, and `rid` has a capacity. */
  predicate HasFraction(rep: Report, p: string, rid: string) {
    && p in rep.projects.entries
    && rid in rep.projects.entries[p].resources
    && rid in rep.resources.entries
  }

  /**
   * `sum(projectId, resourceId)`: the effort booked on the project divided by
   * the resource's capacity, and 0.0 when the project, its record for the
   * resource or the resource's capacity is missing.
   */
  function Sum(rep: Report, p: string, rid: string): (f: Float)
    ensures !HasFraction(rep, p, rid) ==> f == Finite(0.0)
    ensures f.NonFinite? <==> HasFraction(rep, p, rid) && rep.resources.entries[rid].totalEffort == 0.0
    ensures f.Finite? && HasFraction(rep, p, rid) ==>
      f.value * rep.resources.entries[rid].totalEffort == rep.projects.entries[p].resources[rid].sum
  {
    if p !in rep.projects.entries then
      Finite(0.0)
    else
      var project := rep.projects.entries[p];
      if rid !in project.resources || rid !in rep.resources.entries then
        Finite(0.0)
      else
        Divide(project.resources[rid].sum, rep.resources.entries[rid].totalEffort)
  }

  /** The fractions of resource `rid` over the projects `ps`, added in order. */
  function OverProjects(rep: Report, ps: seq<string>, rid: string): (s: Float)
    decreases |ps|
  {
    if |ps| == 0 then
      Finite(0.0)
    else
      OverProjects(rep, ps[..|ps| - 1], rid).Plus(Sum(rep, ps[|ps| - 1], rid))
  }

  /** The fractions on project `p` over the resources `rids`, added in order. */
  function OverResources(rep: Report, p: string, rids: seq<string>): (s: Float)
    decreases |rids|
  {
    if |rids| == 0 then
      Finite(0.0)
    else
      OverResources(rep, p, rids[..|rids| - 1]).Plus(Sum(rep, p, rids[|rids| - 1]))
  }

  /** The nested loop of `total`: for each project of `ps`, for each resource of `rids`. */
  function OverBoth(rep: Report, ps: seq<string>, rids: seq<string>): (s: Float)
    decreases |ps|
  {
    if |ps| == 0 then
      Finite(0.0)
    else
      OverBoth(rep, ps[..|ps| - 1], rids).Plus(OverResources(rep, ps[|ps| - 1], rids))
  }

  /** The same fractions added resource by resource. */
  function OverBothByResource(rep: Report, ps: seq<string>, rids: seq<string>): (s: Float)
    decreases |rids|
  {
    if |rids| == 0 then
      Finite(0.0)
    else
      OverBothByResource(rep, ps, rids[..|rids| - 1]).Plus(OverProjects(rep, ps, rids[|rids| - 1]))
  }

  /** `resourceTotal(resourceId)`: the resource's fractions over all projects. */
  function ResourceTotal(rep: Report, rid: string): (s: Float) {
    OverProjects(rep, rep.projects.order, rid)
  }

  /** `projectTotal(projectId)`: the project's fractions over all accepted resources. */
  function ProjectTotal(rep: Report, p: string): (s: Float) {
    OverResources(rep, p, rep.resources.order)
  }

  /** `total`: all fractions. */
  function Total(rep: Report): (s: Float) {
    OverBoth(rep, rep.projects.order, rep.resources.order)
  }

  /** Non-finite values absorb, finite ones add up: the additions may be regrouped. */
  lemma PlusInterchange(a: Float, b: Float, c: Float, d: Float)
    ensures a.Plus(b).Plus(c.Plus(d)) == a.Plus(c).Plus(b.Plus(d))
  {
  }

  /** A sum over the resources is non-finite iff one of its fractions is. */
  lemma {:induction false} OverResourcesNonFinite(rep: Report, p: string, rids: seq<string>)
    ensures OverResources(rep, p, rids).NonFinite? <==> exists k :: 0 <= k < |rids| && Sum(rep, p, rids[k]).NonFinite?
    decreases |rids|
  {
    if |rids| > 0 {
      var pre := rids[..|rids| - 1];
      OverResourcesNonFinite(rep, p, pre);
      assert forall k :: 0 <= k < |pre| ==> pre[k] == rids[k];
    }
  }

  /** A sum over the projects is non-finite iff one of its fractions is. */
  lemma {:induction false} OverProjectsNonFinite(rep: Report, ps: seq<string>, rid: string)
    ensures OverProjects(rep, ps, rid).NonFinite? <==> exists k :: 0 <= k < |ps| && Sum(rep, ps[k], rid).NonFinite?
    decreases |ps|
  {
    if |ps| > 0 {
      var pre := ps[..|ps| - 1];
      OverProjectsNonFinite(rep, pre, rid);
      assert forall k :: 0 <= k < |pre| ==> pre[k] == ps[k];
    }
  }

  /** Over no projects at all, every resource's column adds up to 0.0. */
  lemma {:induction false} OverNoProjects(rep: Report, rids: seq<string>)
    ensures OverBothByResource(rep, [], rids) == Finite(0.0)
    decreases |rids|
  {
    if |rids| > 0 {
      OverNoProjects(rep, rids[..|rids| - 1]);
    }
  }

  /** Adding one more project adds its row to the resource-by-resource sum. */
  lemma {:induction false} OverBothByResourceSnoc(rep: Report, ps: seq<string>, p: string, rids: seq<string>)
    ensures OverBothByResource(rep, ps + [p], rids) == OverBothByResource(rep, ps, rids).Plus(OverResources(rep, p, rids))
    decreases |rids|
  {
    if |rids| > 0 {
      var pre := rids[..|rids| - 1];
      var r := rids[|rids| - 1];
      OverBothByResourceSnoc(rep, ps, p, pre);
      assert (ps + [p])[..|ps|] == ps;
      PlusInterchange(OverBothByResource(rep, ps, pre), OverResources(rep, p, pre), OverProjects(rep, ps, r), Sum(rep, p, r));
    }
  }

  /** Adding project by project and adding resource by resource give the same result. */
  lemma {:induction false} OverBothSwap(rep: Report, ps: seq<string>, rids: seq<string>)
    ensures OverBoth(rep, ps, rids) == OverBothByResource(rep, ps, rids)
    decreases |ps|
  {
    if |ps| == 0 {
      OverNoProjects(rep, rids);
    } else {
      var pre := ps[..|ps| - 1];
      OverBothSwap(rep, pre, rids);
      OverBothByResourceSnoc(rep, pre, ps[|ps| - 1], rids);
      assert pre + [ps[|ps| - 1]] == ps;
    }
  }

  /** The grand total is both the sum of the project totals and the sum of the resource totals. */
  lemma TotalByResource(rep: Report)
    ensures Total(rep) == OverBothByResource(rep, rep.projects.order, rep.resources.order)
  {
    OverBothSwap(rep, rep.projects.order, rep.resources.order);
  }

  /** A resource without a capacity has a zero total. */
  lemma {:induction false} UnknownResourceTotal(rep: Report, ps: seq<string>, rid: string)
    requires rid !in rep.resources.entries
    ensures OverProjects(rep, ps, rid) == Finite(0.0)
    decreases |ps|
  {
    if |ps| > 0 {
      UnknownResourceTotal(rep, ps[..|ps| - 1], rid);
    }
  }

  /** A project that does not exist has a zero total. */
  lemma {:induction false} UnknownProjectTotal(rep: Report, p: string, rids: seq<string>)
    requires p !in rep.projects.entries
    ensures OverResources(rep, p, rids) == Finite(0.0)
    decreases |rids|
  {
    if |rids| > 0 {
      UnknownProjectTotal(rep, p, rids[..|rids| - 1]);
    }
  }
}
