/**
 * `AutoHTPlanner` of openssa/l2/planning/hierarchical/__init__.py: derived planners,
 * the prompt a plan request uses, the "ask again until the reply parses to something
 * non-empty" loop, and the two planning operations built on it.
 *
 * The language model may answer a prompt differently every time it is asked, so
 * `lm.getResponse(prompt, k)` is its reply to the k-th request with that prompt.
 * The source asks without bound; the model scans the first `horizon` requests
 * and reports `Unanswered` when none of them parsed to a non-empty value.
 */
module AutoPlanner {
  import opened Wrappers
  import opened PyValues
  import opened PlanValues
  import opened PlanDict
  import opened ResourceFix
  import opened Hierarchical

  /** The planner's configuration (a dataclass whose fields are never updated). */
  datatype Planner = Planner(lm: Lm, maxDepth: int, maxSubtasksPerDecomp: int)

  /** How a planning call ends: a value, an exception, or no usable reply within the horizon. */
  datatype Outcome<+T> = Returned(value: T) | Raised(error: PyError) | Unanswered

  /** `one_level_deep`: the same planner limited to a single level of decomposition. */
  function OneLevelDeep(pl: Planner): (q: Planner)
    ensures q == pl.(maxDepth := 1)
  {
    Planner(pl.lm, 1, pl.maxSubtasksPerDecomp)
  }

  /** `one_fewer_level_deep`: the same planner one level shallower. */
  function OneFewerLevelDeep(pl: Planner): (q: Planner)
    ensures q == pl.(maxDepth := pl.maxDepth - 1)
  {
    Planner(pl.lm, pl.maxDepth - 1, pl.maxSubtasksPerDecomp)
  }

  /** The parsed reply to the k-th request carrying `prompt` (the `while not htp_dict` and `while not updated_htp_dict` loops). */
  function Reply(lm: Lm, prompt: string, k: nat): Value
  {
    lm.parseOutput(lm.getResponse(prompt, k))
  }

  /** The first of the first `horizon` requests whose reply parses to a non-empty value. */
  function FirstAnswer(lm: Lm, prompt: string, horizon: nat): (r: Option<nat>)
    ensures r.Some? ==> r.value < horizon && Truthy(Reply(lm, prompt, r.value))
    ensures r.Some? ==> forall j :: 0 <= j < r.value ==> !Truthy(Reply(lm, prompt, j))
    ensures r.None? ==> forall j :: 0 <= j < horizon ==> !Truthy(Reply(lm, prompt, j))
  {
    if horizon == 0 then None
    else
      match FirstAnswer(lm, prompt, horizon - 1)
      case Some(k) => Some(k)
      case None => if Truthy(Reply(lm, prompt, horizon - 1)) then Some(horizon - 1) else None
  }

  /**
   * A longer horizon changes nothing once an answer came: the finite scan agrees
   * with the unbounded loop whenever it answers at all.
   */
  lemma {:induction false} AnswerIgnoresLongerHorizon(lm: Lm, prompt: string, h: nat, h': nat)
    requires h <= h' && FirstAnswer(lm, prompt, h).Some?
    ensures FirstAnswer(lm, prompt, h') == FirstAnswer(lm, prompt, h)
    decreases h' - h
  {
    if h < h' {
      AnswerIgnoresLongerHorizon(lm, prompt, h, h' - 1);
    }
  }

  /**
   * The `while not htp_dict` loops of `plan` and `update_plan_resources`: ask again until the parsed reply is
   * non-empty. Returns that reply and the number of requests made.
   */
  method RequestUntilNonEmpty(lm: Lm, prompt: string, horizon: nat) returns (d: Option<Value>, calls: nat)
    ensures FirstAnswer(lm, prompt, horizon).None? ==> d.None? && calls == horizon
    ensures FirstAnswer(lm, prompt, horizon).Some? ==>
      var k := FirstAnswer(lm, prompt, horizon).value;
      d == Some(Reply(lm, prompt, k)) && calls == k + 1
  {
    d := None;
    calls := 0;
    while calls < horizon && d.None?
      invariant calls <= horizon
      invariant d.None? ==> FirstAnswer(lm, prompt, calls).None?
      invariant d.Some? ==> 0 < calls && FirstAnswer(lm, prompt, calls) == Some(calls - 1) &&
                            d.value == Reply(lm, prompt, calls - 1)
    {
      var parsed := Reply(lm, prompt, calls);
      if Truthy(parsed) {
        d := Some(parsed);
      }
      calls := calls + 1;
    }
    if d.Some? {
      AnswerIgnoresLongerHorizon(lm, prompt, calls, horizon);
    }
  }

  /** The prompt `plan` sends: the resource-aware template only when resources are given. */
  function PlanPrompt(pl: Planner, tpl: Templates, problem: string, resources: set<Resource>): (r: string)
    ensures resources != {} ==> r == tpl.htpWithResources(problem, resources, pl.maxDepth, pl.maxSubtasksPerDecomp)
    ensures resources == {} ==> r == tpl.htp(problem, pl.maxDepth, pl.maxSubtasksPerDecomp)
  {
    if resources != {} then tpl.htpWithResources(problem, resources, pl.maxDepth, pl.maxSubtasksPerDecomp)
    else tpl.htp(problem, pl.maxDepth, pl.maxSubtasksPerDecomp)
  }

  /**
   * The plan a decoded reply turns into, or the error decoding raises; fixing
   * missing resources changes nothing but resources.
   */
  function Decoded(codec: TaskCodec, d: Value, fix: bool): (o: Outcome<PlanV>)
    ensures !o.Unanswered?
    ensures o.Raised? <==> PlanFromDict(codec, d).Err?
    ensures o.Raised? ==> o.error == PlanFromDict(codec, d).error
    ensures o.Returned? ==> WithoutResources(o.value) == WithoutResources(PlanFromDict(codec, d).value)
  {
    match PlanFromDict(codec, d)
    case Err(e) => Raised(e)
    case Ok(v) =>
      FixChangesOnlyResources(v);
      Returned(if fix then FixMissing(v) else v)
  }

  /**
   * `plan` on values: no answer within the horizon, or the first non-empty reply
   * decoded, failing exactly when its decoding fails, and otherwise differing
   * from the decoded plan in resources only.
   */
  function PlanOutcome(pl: Planner, tpl: Templates, codec: TaskCodec, problem: string,
                       resources: set<Resource>, horizon: nat): (o: Outcome<PlanV>)
    ensures o.Unanswered? <==> FirstAnswer(pl.lm, PlanPrompt(pl, tpl, problem, resources), horizon).None?
    ensures FirstAnswer(pl.lm, PlanPrompt(pl, tpl, problem, resources), horizon).Some? ==>
      var d := Reply(pl.lm, PlanPrompt(pl, tpl, problem, resources),
                     FirstAnswer(pl.lm, PlanPrompt(pl, tpl, problem, resources), horizon).value);
      Truthy(d) &&
      (o.Raised? <==> PlanFromDict(codec, d).Err?) &&
      (o.Raised? ==> o.error == PlanFromDict(codec, d).error) &&
      (o.Returned? ==> WithoutResources(o.value) == WithoutResources(PlanFromDict(codec, d).value))
  {
    var prompt := PlanPrompt(pl, tpl, problem, resources);
    match FirstAnswer(pl.lm, prompt, horizon)
    case None => Unanswered
    case Some(k) => Decoded(codec, Reply(pl.lm, prompt, k), resources != {})
  }

  /**
   * The prompt `update_plan_resources` sends: the resources and a dictionary form
   * of the current plan. When the task serialiser keeps every ask, `from_dict`
   * rebuilds the plan's tree shape and asks from that dictionary; when it is
   * lossless, it rebuilds the plan exactly.
   */
  function UpdatePrompt(tpl: Templates, codec: TaskCodec, plan: PlanV, resources: set<Resource>): (r: string)
    ensures exists d ::
              r == tpl.updateResources(resources, d) &&
              (KeepsAsk(codec) ==> PlanFromDict(codec, d).Ok? && OutlineOf(PlanFromDict(codec, d).value) == OutlineOf(plan)) &&
              (Lossless(codec) ==> PlanFromDict(codec, d) == Ok(plan))
  {
    var d := PlanToDict(codec, plan);
    assert KeepsAsk(codec) ==> PlanFromDict(codec, d).Ok? && OutlineOf(PlanFromDict(codec, d).value) == OutlineOf(plan) by {
      if KeepsAsk(codec) {
        RoundTripKeepsOutline(codec, plan);
      }
    }
    assert Lossless(codec) ==> PlanFromDict(codec, d) == Ok(plan) by {
      if Lossless(codec) {
        RoundTripExact(codec, plan);
      }
    }
    tpl.updateResources(resources, d)
  }

  /**
   * `update_plan_resources` on values, once both assertions have passed: as for
   * `plan`, except that the decoded plan always has its missing resources fixed.
   */
  function UpdateOutcome(pl: Planner, tpl: Templates, codec: TaskCodec, plan: PlanV,
                         resources: set<Resource>, horizon: nat): (o: Outcome<PlanV>)
    ensures o.Unanswered? <==> FirstAnswer(pl.lm, UpdatePrompt(tpl, codec, plan, resources), horizon).None?
    ensures FirstAnswer(pl.lm, UpdatePrompt(tpl, codec, plan, resources), horizon).Some? ==>
      var d := Reply(pl.lm, UpdatePrompt(tpl, codec, plan, resources),
                     FirstAnswer(pl.lm, UpdatePrompt(tpl, codec, plan, resources), horizon).value);
      Truthy(d) &&
      (o.Raised? <==> PlanFromDict(codec, d).Err?) &&
      (o.Raised? ==> o.error == PlanFromDict(codec, d).error) &&
      (o.Returned? ==> o.value == FixMissing(PlanFromDict(codec, d).value))
  {
    var prompt := UpdatePrompt(tpl, codec, plan, resources);
    match FirstAnswer(pl.lm, prompt, horizon)
    case None => Unanswered
    case Some(k) => Decoded(codec, Reply(pl.lm, prompt, k), true)
  }

  /**
   * `plan` returns the decoded plan untouched when no resources are given, and
   * otherwise lets every node without resources inherit its parent's; either way
   * nothing but resources differs from the decoded plan.
   */
  lemma PlanFixesOnlyWithResources(pl: Planner, tpl: Templates, codec: TaskCodec, problem: string,
                                   resources: set<Resource>, horizon: nat)
    requires PlanOutcome(pl, tpl, codec, problem, resources, horizon).Returned?
    ensures var prompt := PlanPrompt(pl, tpl, problem, resources);
      var k := FirstAnswer(pl.lm, prompt, horizon).value;
      var decoded := PlanFromDict(codec, Reply(pl.lm, prompt, k)).value;
      var q := PlanOutcome(pl, tpl, codec, problem, resources, horizon).value;
      (resources == {} ==> q == decoded) &&
      (resources != {} ==> q == FixMissing(decoded)) &&
      WithoutResources(q) == WithoutResources(decoded)
  {
    var prompt := PlanPrompt(pl, tpl, problem, resources);
    var k := FirstAnswer(pl.lm, prompt, horizon).value;
    FixChangesOnlyResources(PlanFromDict(codec, Reply(pl.lm, prompt, k)).value);
  }

  /** After `update_plan_resources`, a plan whose root has resources has them at every node. */
  lemma UpdatedPlanIsResourced(pl: Planner, tpl: Templates, codec: TaskCodec, plan: PlanV,
                               resources: set<Resource>, horizon: nat)
    requires UpdateOutcome(pl, tpl, codec, plan, resources, horizon).Returned?
    requires UpdateOutcome(pl, tpl, codec, plan, resources, horizon).value.task.resources != {}
    ensures AllResourced(UpdateOutcome(pl, tpl, codec, plan, resources, horizon).value)
  {
    var prompt := UpdatePrompt(tpl, codec, plan, resources);
    var k := FirstAnswer(pl.lm, prompt, horizon).value;
    FixReachesEveryNode(PlanFromDict(codec, Reply(pl.lm, prompt, k)).value);
  }

  /** The same after `plan` when resources were given. */
  lemma PlannedWithResourcesIsResourced(pl: Planner, tpl: Templates, codec: TaskCodec, problem: string,
                                        resources: set<Resource>, horizon: nat)
    requires resources != {}
    requires PlanOutcome(pl, tpl, codec, problem, resources, horizon).Returned?
    requires PlanOutcome(pl, tpl, codec, problem, resources, horizon).value.task.resources != {}
    ensures AllResourced(PlanOutcome(pl, tpl, codec, problem, resources, horizon).value)
  {
    var prompt := PlanPrompt(pl, tpl, problem, resources);
    var k := FirstAnswer(pl.lm, prompt, horizon).value;
    FixReachesEveryNode(PlanFromDict(codec, Reply(pl.lm, prompt, k)).value);
  }

  /** The plan handed to `update_plan_resources`: an `HTP`, or an object of another type. */
  datatype PlanArg = HtpPlan(htp: Htp) | OtherPlan

  /** `plan`: requests, decodes, and fixes resources only when given. */
  method Plan(pl: Planner, tpl: Templates, codec: TaskCodec, problem: string,
              resources: set<Resource>, horizon: nat) returns (r: Outcome<Htp>, calls: nat)
    ensures var o := PlanOutcome(pl, tpl, codec, problem, resources, horizon);
      (r.Returned? <==> o.Returned?) &&
      (r.Returned? ==> r.value.Valid() && fresh(r.value.Repr) && r.value.Model() == o.value) &&
      (!o.Returned? ==> r == (if o.Raised? then Raised(o.error) else Unanswered))
    ensures var answer := FirstAnswer(pl.lm, PlanPrompt(pl, tpl, problem, resources), horizon);
      calls == if answer.Some? then answer.value + 1 else horizon
  {
    var prompt := PlanPrompt(pl, tpl, problem, resources);
    var d;
    d, calls := RequestUntilNonEmpty(pl.lm, prompt, horizon);
    if d.None? {
      r := Unanswered;
      return;
    }
    var h := Htp.FromDict(codec, d.value);
    match h
    case Err(e) =>
      r := Raised(e);
    case Ok(htp) =>
      if resources != {} {
        htp.FixMissingResources();
      }
      r := Returned(htp);
  }

  /**
   * `update_plan_resources`: an argument that is not an `HTP`, or an
   * empty resource set, fails its assertion before the language model is asked;
   * otherwise the reply is decoded and its missing resources are always fixed.
   */
  method UpdatePlanResources(pl: Planner, tpl: Templates, codec: TaskCodec, plan: PlanArg,
                             resources: set<Resource>, horizon: nat) returns (r: Outcome<Htp>, calls: nat)
    requires plan.HtpPlan? ==> plan.htp.Valid()
    ensures (plan.OtherPlan? || resources == {}) ==> r == Raised(AssertionError) && calls == 0
    ensures plan.HtpPlan? && resources != {} ==>
      var o := UpdateOutcome(pl, tpl, codec, plan.htp.Model(), resources, horizon);
      (r.Returned? <==> o.Returned?) &&
      (r.Returned? ==> r.value.Valid() && fresh(r.value.Repr) && r.value.Model() == o.value) &&
      (!o.Returned? ==> r == (if o.Raised? then Raised(o.error) else Unanswered))
    ensures plan.HtpPlan? && resources != {} ==>
      var answer := FirstAnswer(pl.lm, UpdatePrompt(tpl, codec, plan.htp.Model(), resources), horizon);
      calls == if answer.Some? then answer.value + 1 else horizon
  {
    if plan.OtherPlan? || resources == {} {
      return Raised(AssertionError), 0;
    }
    ghost var before := plan.htp.Model();
    var prompt := UpdatePrompt(tpl, codec, plan.htp.Model(), resources);
    ghost var outcome := UpdateOutcome(pl, tpl, codec, before, resources, horizon);
    var d;
    d, calls := RequestUntilNonEmpty(pl.lm, prompt, horizon);
    if d.None? {
      r := Unanswered;
      return;
    }
    var h := Htp.FromDict(codec, d.value);
    match h
    case Err(e) =>
      r := Raised(e);
    case Ok(htp) =>
      htp.FixMissingResources();
      r := Returned(htp);
  }
}
