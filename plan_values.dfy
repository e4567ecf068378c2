/**
 * The values a hierarchical task plan (HTP) is made of, and the external
 * capabilities the planning core consumes, as opaque functions.
 */
module PlanValues {
  import opened Wrappers
  import opened PyValues

  /** `TaskStatus`: a task is pending until the executor resolves it. */
  datatype Status = Pending | Done

  /** An informational resource; the core only hands resource sets around. */
  datatype Resource = Resource(uniqueName: string, overview: string)

  /** A snapshot of a Task: its question, lifecycle state and resources. */
  datatype TaskV = TaskV(ask: string, status: Status, result: Option<string>, resources: set<Resource>)

  /** A snapshot of an HTP node: its task and its ordered sub-plans. */
  datatype PlanV = PlanV(task: TaskV, subPlans: seq<PlanV>)

  /** `AskAnsPair`: a question with the result it received. */
  datatype AskAns = AskAns(ask: string, result: Option<string>)

  /** The questions of a plan and its tree shape, without any lifecycle state. */
  datatype Outline = Outline(ask: string, parts: seq<Outline>)

  /**
   * A language model. `getResponse(prompt, k)` is the reply to the k-th request
   * carrying that prompt (the model samples afresh on every request);
   * `parseOutput` extracts structured data from a reply, possibly an empty one.
   */
  datatype Lm = Lm(getResponse: (string, nat) -> string, parseOutput: string -> Value)

  /** A reasoner: its answer to a single task, and the language model it carries. */
  datatype Reasoner = Reasoner(reason: TaskV -> string, lm: Lm)

  /** The prompt templates, each filled in by `.format`. */
  datatype Templates = Templates(
    htp: (string, int, int) -> string,                             // problem, max depth, max sub-tasks
    htpWithResources: (string, set<Resource>, int, int) -> string,  // the same, with resource overviews
    updateResources: (set<Resource>, Value) -> string,              // resource overviews, current plan
    resultsSynth: (string, string) -> string)                       // ask, info

  /** `Task.from_dict_or_str` and `Task.to_json_dict`, both outside this model. */
  datatype TaskCodec = TaskCodec(decode: Value -> Result<TaskV, PyError>, encode: TaskV -> Value)

  /** The outline of a plan. */
  function OutlineOf(p: PlanV): (o: Outline)
    ensures o.ask == p.task.ask && |o.parts| == |p.subPlans|
  {
    Outline(p.task.ask, seq(|p.subPlans|, i requires 0 <= i < |p.subPlans| => OutlineOf(p.subPlans[i])))
  }
}
