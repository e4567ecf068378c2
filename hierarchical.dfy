/**
 * The `HTP` class of openssa/l2/planning/hierarchical/__init__.py on the heap: a
 * tree of plan nodes, each owning a mutable `Task`. Every method is proved against
 * the value-level definitions: `from_dict` against `PlanFromDict`,
 * `fix_missing_resources` against `FixMissing` and `execute` against `Resolve`.
 */
module Hierarchical {
  import opened Wrappers
  import opened PyValues
  import opened PlanValues
  import opened PlanDict
  import opened ResourceFix
  import opened Resolution

  /** A task whose lifecycle state and resources the planner and executor update in place. */
  class Task {
    const ask: string
    var status: Status
    var result: Option<string>
    var resources: set<Resource>

    function Value(): TaskV
      reads this
    {
      TaskV(ask, status, result, resources)
    }

    constructor (v: TaskV)
      ensures Value() == v
    {
      ask := v.ask;
      status := v.status;
      result := v.result;
      resources := v.resources;
    }
  }

  /** The objects owned by a list of plan nodes. */
  ghost function ReprOf(hs: seq<Htp>): set<object>
  {
    if hs == [] then {} else ReprOf(hs[..|hs| - 1]) + hs[|hs| - 1].Repr
  }

  lemma {:induction false} ReprOfCovers(hs: seq<Htp>, k: nat)
    requires k < |hs|
    ensures hs[k].Repr <= ReprOf(hs)
    decreases |hs|
  {
    if k < |hs| - 1 {
      ReprOfCovers(hs[..|hs| - 1], k);
    }
  }

  lemma {:induction false} ReprOfOnlyCovers(hs: seq<Htp>, o: object)
    requires o in ReprOf(hs)
    ensures exists k :: 0 <= k < |hs| && o in hs[k].Repr
    decreases |hs|
  {
    var init := hs[..|hs| - 1];
    if o !in hs[|hs| - 1].Repr {
      ReprOfOnlyCovers(init, o);
      var k :| 0 <= k < |init| && o in init[k].Repr;
      assert o in hs[k].Repr;
    }
  }

  /** A hierarchical task plan: a task and its ordered sub-plans, each owning its own objects. */
  class Htp {
    const task: Task
    const subPlans: seq<Htp>
    ghost const Repr: set<object>

    /** Sub-plans form a tree: each owns its objects, and no two of them share any. */
    ghost predicate Valid()
      decreases Repr
    {
      this in Repr && task in Repr &&
      (forall i :: 0 <= i < |subPlans| ==>
         subPlans[i] in Repr && subPlans[i].Repr <= Repr && this !in subPlans[i].Repr &&
         task !in subPlans[i].Repr && subPlans[i].Valid()) &&
      (forall i, j :: 0 <= i < |subPlans| && 0 <= j < |subPlans| && i != j ==>
         subPlans[i].Repr !! subPlans[j].Repr)
    }

    /** The value the plan currently holds. */
    function Model(): (v: PlanV)
      requires Valid()
      reads Repr
      decreases Repr, 1
    {
      PlanV(task.Value(), Models(|subPlans|))
    }

    function Models(n: nat): (vs: seq<PlanV>)
      requires Valid() && n <= |subPlans|
      reads Repr
      decreases Repr, 0, n
      ensures |vs| == n && forall k :: 0 <= k < n ==> vs[k] == subPlans[k].Model()
    {
      if n == 0 then [] else Models(n - 1) + [subPlans[n - 1].Model()]
    }

    /** `HTP(task=..., sub_plans=...)`: a node over a task and already-built sub-plans. */
    constructor (t: Task, kids: seq<Htp>)
      requires forall k :: 0 <= k < |kids| ==> kids[k].Valid() && t !in kids[k].Repr
      requires forall j, k :: 0 <= j < |kids| && 0 <= k < |kids| && j != k ==> kids[j].Repr !! kids[k].Repr
      ensures Valid() && task == t && subPlans == kids
      ensures Repr == {this, t} + ReprOf(kids)
    {
      task := t;
      subPlans := kids;
      Repr := {this, t} + ReprOf(kids);
      new;
      forall k | 0 <= k < |kids|
        ensures kids[k].Repr <= Repr
      {
        ReprOfCovers(kids, k);
      }
    }

    /** Builds a fresh plan holding the value `v`. */
    static method Build(v: PlanV) returns (h: Htp)
      ensures h.Valid() && fresh(h.Repr) && h.Model() == v
      decreases v, 1
    {
      var t := new Task(v.task);
      var kids := BuildChildren(v);
      h := new Htp(t, kids);
      forall o | o in h.Repr
        ensures fresh(o)
      {
        if o in ReprOf(kids) {
          ReprOfOnlyCovers(kids, o);
        }
      }
      assert h.Models(|kids|) == v.subPlans;
    }

    /** Fresh, pairwise separate plans holding the sub-plans of `v`. */
    static method BuildChildren(v: PlanV) returns (kids: seq<Htp>)
      ensures |kids| == |v.subPlans|
      ensures forall k :: 0 <= k < |kids| ==>
        kids[k].Valid() && fresh(kids[k].Repr) && kids[k].Model() == v.subPlans[k]
      ensures forall j, k :: 0 <= j < |kids| && 0 <= k < |kids| && j != k ==> kids[j].Repr !! kids[k].Repr
      decreases v, 0
    {
      kids := [];
      var i := 0;
      while i < |v.subPlans|
        invariant 0 <= i <= |v.subPlans| && |kids| == i
        invariant forall k :: 0 <= k < i ==>
          kids[k].Valid() && fresh(kids[k].Repr) && kids[k].Model() == v.subPlans[k]
        invariant forall j, k :: 0 <= j < i && 0 <= k < i && j != k ==> kids[j].Repr !! kids[k].Repr
      {
        var c := Build(v.subPlans[i]);
        kids := kids + [c];
        i := i + 1;
      }
    }

    /**
     * `HTP.from_dict`: a fresh plan decoded from `d`, or the error
     * the decoding raises.
     */
    static method FromDict(codec: TaskCodec, d: Value) returns (r: Result<Htp, PyError>)
      ensures r.Ok? <==> PlanFromDict(codec, d).Ok?
      ensures r.Ok? ==> r.value.Valid() && fresh(r.value.Repr) && r.value.Model() == PlanFromDict(codec, d).value
      ensures r.Err? ==> r.error == PlanFromDict(codec, d).error
    {
      match PlanFromDict(codec, d)
      case Err(e) =>
        r := Err(e);
      case Ok(v) =>
        var h := Build(v);
        r := Ok(h);
    }

    /** The `if not p.task.resources` step of `fix_missing_resources` for one child: an empty resource set takes the parent's. */
    method InheritResources(parentResources: set<Resource>)
      requires Valid()
      modifies task
      ensures Model() == Adopt(parentResources, old(Model()))
    {
      if task.resources == {} {
        task.resources := parentResources;
      }
      assert Models(|subPlans|) == old(Models(|subPlans|));
    }

    /** One turn of the `for p in self.sub_plans` loop of `fix_missing_resources`. */
    method FixChild(i: nat)
      requires Valid() && i < |subPlans|
      modifies subPlans[i].Repr
      ensures subPlans[i].Model() == FixMissing(Adopt(task.resources, old(subPlans[i].Model())))
      decreases Repr, 0
    {
      var p := subPlans[i];
      p.InheritResources(task.resources);
      p.FixMissingResources();
    }

    /**
     * `fix_missing_resources`: every child with no resources inherits
     * its parent's (as already fixed), from the root down; the root itself is kept.
     */
    method FixMissingResources()
      requires Valid()
      modifies Repr
      ensures Model() == FixMissing(old(Model()))
      decreases Repr, 1
    {
      ghost var before := Model();
      var i := 0;
      while i < |subPlans|
        invariant 0 <= i <= |subPlans|
        invariant forall k :: i <= k < |subPlans| ==> subPlans[k].Model() == old(subPlans[k].Model())
        invariant forall k :: 0 <= k < i ==>
          subPlans[k].Model() == FixMissing(Adopt(before.task.resources, before.subPlans[k]))
        invariant task.Value() == before.task
      {
        FixChild(i);
        i := i + 1;
      }
      assert Models(|subPlans|) == FixMissing(before).subPlans;
    }

    /**
     * One turn of the sub-plan loop of `execute`: a DONE child contributes its stored
     * result; a pending one is executed with the pairs gathered so far.
     */
    method ExecuteChild(rs: Reasoner, tpl: Templates, i: nat, pairs: seq<AskAns>) returns (pair: AskAns)
      requires Valid() && i < |subPlans|
      modifies subPlans[i].Repr
      ensures subPlans[i].Model() == ResolveChild(rs, tpl, old(subPlans[i].Model()), pairs)
      ensures pair == AskAns(subPlans[i].task.ask, subPlans[i].Model().task.result)
      decreases Repr, 0
    {
      var p := subPlans[i];
      if p.task.status == Done {
        pair := AskAns(p.task.ask, p.task.result);
      } else {
        var res := p.Execute(rs, tpl, pairs);
        pair := AskAns(p.task.ask, Some(res));
      }
    }

    /** The sub-plan loop of `execute`: every child in order, each with the pairs of those before it. */
    method ExecuteChildren(rs: Reasoner, tpl: Templates) returns (pairs: seq<AskAns>)
      requires Valid()
      modifies Repr
      ensures Models(|subPlans|) == ResolveSiblings(rs, tpl, old(Model()), |subPlans|).kids
      ensures pairs == ResolveSiblings(rs, tpl, old(Model()), |subPlans|).pairs
      ensures task.Value() == old(task.Value())
      decreases Repr, 1
    {
      ghost var before := Model();
      pairs := [];
      var i := 0;
      while i < |subPlans|
        invariant 0 <= i <= |subPlans|
        invariant pairs == ResolveSiblings(rs, tpl, before, i).pairs
        invariant forall k :: 0 <= k < i ==> subPlans[k].Model() == ResolveSiblings(rs, tpl, before, i).kids[k]
        invariant forall k :: i <= k < |subPlans| ==> subPlans[k].Model() == before.subPlans[k]
        invariant task.Value() == before.task
      {
        SiblingsUnfold(rs, tpl, before, i);
        var pair := ExecuteChild(rs, tpl, i, pairs);
        pairs := pairs + [pair];
        i := i + 1;
      }
    }

    /**
     * `execute`: resolves the plan in place and returns the result
     * it stores at the root.
     */
    method Execute(rs: Reasoner, tpl: Templates, other: seq<AskAns>) returns (r: string)
      requires Valid()
      modifies Repr
      ensures Model() == Resolve(rs, tpl, old(Model()), other)
      ensures task.result == Some(r)
      decreases Repr, 2
    {
      ghost var before := Model();
      var reasoning := rs.reason(task.Value());
      if |subPlans| > 0 {
        var subResults := ExecuteChildren(rs, tpl);
        var prompt := tpl.resultsSynth(task.ask, Info(reasoning, subResults, other));
        task.result := Some(rs.lm.getResponse(prompt, 0));
      } else {
        task.result := Some(reasoning);
      }
      task.status := Done;
      r := task.result.value;
      ghost var q := Resolve(rs, tpl, before, other);
      assert task.Value() == q.task;
      assert Models(|subPlans|) == q.subPlans;
    }
  }
}
