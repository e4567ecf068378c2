/**
 * `HTP.fix_missing_resources` on plan values: a top-down pass in which every node
 * whose resource set is empty takes the (already fixed) set of its parent.
 */
module ResourceFix {
  import opened PlanValues

  /** The `if not p.task.resources` step of `fix_missing_resources` for one child: it keeps its own resources, or takes the parent's if it has none. */
  function Adopt(parentResources: set<Resource>, child: PlanV): (c: PlanV)
    ensures c.subPlans == child.subPlans
    ensures c.task.resources == (if child.task.resources == {} then parentResources else child.task.resources)
  {
    if child.task.resources == {} then child.(task := child.task.(resources := parentResources)) else child
  }

  /**
   * `fix_missing_resources`: the root keeps its task untouched; each child first
   * adopts the root's resources if it has none, and is then fixed in turn.
   */
  function FixMissing(p: PlanV): (q: PlanV)
    decreases p.subPlans
    ensures q.task == p.task && |q.subPlans| == |p.subPlans|
    ensures forall i :: 0 <= i < |p.subPlans| ==>
      q.subPlans[i].task.resources ==
        (if p.subPlans[i].task.resources == {} then p.task.resources else p.subPlans[i].task.resources)
  {
    PlanV(p.task, seq(|p.subPlans|, i requires 0 <= i < |p.subPlans| => FixMissing(Adopt(p.task.resources, p.subPlans[i]))))
  }

  /** A plan with every resource set emptied: what the pass must leave alone. */
  function WithoutResources(p: PlanV): (q: PlanV)
    ensures |q.subPlans| == |p.subPlans|
  {
    PlanV(p.task.(resources := {}), seq(|p.subPlans|, i requires 0 <= i < |p.subPlans| => WithoutResources(p.subPlans[i])))
  }

  /** Every node of the plan has at least one resource. */
  ghost predicate AllResourced(p: PlanV)
  {
    p.task.resources != {} && forall i :: 0 <= i < |p.subPlans| ==> AllResourced(p.subPlans[i])
  }

  /** `q` has the shape of `p`, and every node that had resources in `p` has the same ones in `q`. */
  ghost predicate KeepsOwnResources(p: PlanV, q: PlanV)
  {
    |q.subPlans| == |p.subPlans| &&
    (p.task.resources != {} ==> q.task.resources == p.task.resources) &&
    forall i :: 0 <= i < |p.subPlans| ==> KeepsOwnResources(p.subPlans[i], q.subPlans[i])
  }

  /** The pass changes no tree shape, ask, status or result: only resource sets. */
  lemma {:induction false} FixChangesOnlyResources(p: PlanV)
    ensures WithoutResources(FixMissing(p)) == WithoutResources(p)
    decreases p.subPlans
  {
    var q := FixMissing(p);
    forall i | 0 <= i < |p.subPlans|
      ensures WithoutResources(q.subPlans[i]) == WithoutResources(p.subPlans[i])
    {
      var c := Adopt(p.task.resources, p.subPlans[i]);
      FixChangesOnlyResources(c);
      assert WithoutResources(c) == WithoutResources(p.subPlans[i]);
    }
    assert WithoutResources(q).subPlans == WithoutResources(p).subPlans;
  }

  /** A node that had resources of its own keeps them, at every depth. */
  lemma {:induction false} FixKeepsOwnResources(p: PlanV)
    ensures KeepsOwnResources(p, FixMissing(p))
    decreases p.subPlans
  {
    var q := FixMissing(p);
    forall i | 0 <= i < |p.subPlans|
      ensures KeepsOwnResources(p.subPlans[i], q.subPlans[i])
    {
      var c := Adopt(p.task.resources, p.subPlans[i]);
      FixKeepsOwnResources(c);
      KeepsOwnResourcesOfAdopted(p.subPlans[i], c, q.subPlans[i]);
    }
  }

  /** Adoption only fills an empty set, so what is kept relative to the adopted node is kept relative to the original. */
  lemma KeepsOwnResourcesOfAdopted(child: PlanV, adopted: PlanV, q: PlanV)
    requires adopted.subPlans == child.subPlans
    requires child.task.resources != {} ==> adopted.task.resources == child.task.resources
    requires KeepsOwnResources(adopted, q)
    ensures KeepsOwnResources(child, q)
  {
  }

  /** Once the root has resources, the pass leaves no node without any. */
  lemma {:induction false} FixReachesEveryNode(p: PlanV)
    requires p.task.resources != {}
    ensures AllResourced(FixMissing(p))
    decreases p.subPlans
  {
    var q := FixMissing(p);
    forall i | 0 <= i < |p.subPlans|
      ensures AllResourced(q.subPlans[i])
    {
      FixReachesEveryNode(Adopt(p.task.resources, p.subPlans[i]));
    }
  }

  /** Running the pass twice changes nothing more. */
  lemma {:induction false} FixIsIdempotent(p: PlanV)
    ensures FixMissing(FixMissing(p)) == FixMissing(p)
    decreases p.subPlans
  {
    var q := FixMissing(p);
    forall i | 0 <= i < |p.subPlans|
      ensures FixMissing(Adopt(q.task.resources, q.subPlans[i])) == q.subPlans[i]
    {
      var c := Adopt(p.task.resources, p.subPlans[i]);
      assert Adopt(q.task.resources, q.subPlans[i]) == q.subPlans[i];
      FixIsIdempotent(c);
    }
    assert FixMissing(q).subPlans == q.subPlans;
  }
}
