/**
 * The capacity normalisation of the Niku report: for every leaf resource that
 * carries a ClarityRID, the maximum possible work in the report period and the
 * part of it that was not allocated.
 */
module ResourceTotals {
  import opened Wrappers
  import opened Hashes
  import opened NikuTypes

  /** A resource the report cares about: a leaf whose ClarityRID is set and not empty. */
  predicate Accepted(r: Resource) {
    r.leaf && r.clarityRID.Some? && r.clarityRID.value != ""
  }

  /** `r` is accepted and filed under `rid`. */
  predicate AcceptedAs(r: Resource, rid: string) {
    Accepted(r) && r.clarityRID == Some(rid)
  }

  /**
   * The capacity of resource `r` whose allocated effort in the period is
   * `actual`. An over-allocated resource has no free time and its own effort
   * as the denominator; an under-allocated one keeps the nominal working days
   * as the denominator and the difference as free time.
   */
  function Normalize(r: Resource, actual: real, workingDays: real): (c: Capacity)
    ensures c.resource == r
    ensures c.totalEffort == Max(actual, workingDays)
    ensures c.freeWork == Max(workingDays - actual, 0.0)
    ensures actual + c.freeWork == c.totalEffort
    ensures c.totalEffort >= workingDays && c.freeWork >= 0.0
  {
    if actual >= workingDays then
      Capacity(r, actual, 0.0)
    else
      Capacity(r, workingDays, workingDays - actual)
  }

  /**
   * The capacities recorded once the loop over the resource list has visited
   * `rs`; a later resource with the same ClarityRID replaces the earlier one.
   */
  function Collect(rs: seq<Resource>, effort: Resource -> real, workingDays: real): (caps: Capacities)
    ensures caps.Valid()
    ensures forall rid :: rid in caps.entries ==> caps.entries[rid].freeWork >= 0.0
    decreases |rs|
  {
    if |rs| == 0 then
      Empty()
    else
      var caps := Collect(rs[..|rs| - 1], effort, workingDays);
      var r := rs[|rs| - 1];
      if Accepted(r) then
        caps.Put(r.clarityRID.value, Normalize(r, effort(r), workingDays))
      else
        caps
  }

  /** A ClarityRID gets a capacity iff some leaf resource carries it. */
  lemma {:induction false} CollectKeys(rs: seq<Resource>, effort: Resource -> real, workingDays: real)
    ensures forall rid :: rid in Collect(rs, effort, workingDays).entries <==>
      exists i :: 0 <= i < |rs| && AcceptedAs(rs[i], rid)
    decreases |rs|
  {
    if |rs| > 0 {
      var pre := rs[..|rs| - 1];
      CollectKeys(pre, effort, workingDays);
      assert forall i :: 0 <= i < |pre| ==> pre[i] == rs[i];
    }
  }

  /**
   * The capacity filed under `rid` is the normalisation of the LAST accepted
   * resource that carries `rid`.
   */
  lemma {:induction false} CollectLastWins(rs: seq<Resource>, effort: Resource -> real, workingDays: real, rid: string)
    requires rid in Collect(rs, effort, workingDays).entries
    ensures exists i :: (0 <= i < |rs| && AcceptedAs(rs[i], rid)
      && Collect(rs, effort, workingDays).entries[rid] == Normalize(rs[i], effort(rs[i]), workingDays)
      && forall j :: i < j < |rs| ==> !AcceptedAs(rs[j], rid))
    decreases |rs|
  {
    var pre := rs[..|rs| - 1];
    var r := rs[|rs| - 1];
    if AcceptedAs(r, rid) {
      assert AcceptedAs(rs[|rs| - 1], rid);
    } else {
      CollectLastWins(pre, effort, workingDays, rid);
      var i :| 0 <= i < |pre| && AcceptedAs(pre[i], rid)
        && Collect(pre, effort, workingDays).entries[rid] == Normalize(pre[i], effort(pre[i]), workingDays)
        && forall j :: i < j < |pre| ==> !AcceptedAs(pre[j], rid);
      assert rs[i] == pre[i];
      assert forall j :: i < j < |rs| ==> !AcceptedAs(rs[j], rid) by {
        forall j | i < j < |rs|
          ensures !AcceptedAs(rs[j], rid)
        {
          if j < |pre| {
            assert rs[j] == pre[j];
          }
        }
      }
    }
  }

  /**
   * Every capacity record keeps the normalisation invariant for the effort
   * of the resource it was computed from: the denominator is the larger of
   * actual effort and working days, and effort plus free time fill it.
   */
  lemma CapacityInvariant(rs: seq<Resource>, effort: Resource -> real, workingDays: real, rid: string)
    requires rid in Collect(rs, effort, workingDays).entries
    ensures var c := Collect(rs, effort, workingDays).entries[rid];
      && AcceptedAs(c.resource, rid)
      && c.totalEffort == Max(effort(c.resource), workingDays)
      && c.freeWork == Max(workingDays - effort(c.resource), 0.0)
      && effort(c.resource) + c.freeWork == c.totalEffort
      && c.totalEffort >= workingDays
  {
    CollectLastWins(rs, effort, workingDays, rid);
  }

  /**
   * The whole normalisation phase: the capacities, or an error when not a
   * single resource carries a usable ClarityRID.
   */
  function ComputeResourceTotals(rs: seq<Resource>, effort: Resource -> real, workingDays: real): (r: Result<Capacities, Error>)
    ensures r.Failure? <==> forall i :: 0 <= i < |rs| ==> !Accepted(rs[i])
    ensures r.Failure? ==> r.error == NoClarityResources
    ensures r.Success? ==> r.value.Valid() && r.value.entries != map[]
    ensures r.Success? ==> forall rid :: rid in r.value.entries ==> r.value.entries[rid].freeWork >= 0.0
  {
    var caps := Collect(rs, effort, workingDays);
    CollectKeys(rs, effort, workingDays);
    assert forall i :: 0 <= i < |rs| && Accepted(rs[i]) ==> rs[i].clarityRID.value in caps.entries;
    if caps.entries == map[] then
      Failure(NoClarityResources)
    else
      Success(caps)
  }
}
