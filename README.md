# Hierarchical task plans: a verified model

This project models, in Dafny, the core of a hierarchical task planner and executor.
A hierarchical task plan (HTP) is an ordered tree of tasks. Each node holds a task (a
question, its status, its result and its informational resources) and its sub-plans.
The model covers the following operations:

- **Dictionary form.** `HTP.from_dict` and `HTP.to_dict` read and write the nested
  dictionary that a language model produces. The sub-plan list uses the key `"sub-plans"`.
- **Resource propagation.** `HTP.fix_missing_resources` gives every sub-plan without
  resources the resources of its parent, from the root down.
- **Execution.** `HTP.execute` runs in three steps:
  - The reasoner answers the node's own task first.
  - A leaf keeps that answer as its result.
  - A node with sub-plans resolves its children in order. A child already DONE is reused.
    A pending child is executed and sees the (ask, result) pairs of the children before it.
    The node then asks the language model to synthesise its result from a prompt. The
    prompt holds the baseline reasoning, numbered SUPPORTING blocks, and OTHER blocks for
    results inherited from an ancestor.
- **Planner.** `AutoHTPlanner` derives shallower planners and builds the planning prompt.
  It asks the language model again and again until the parsed reply is non-empty, decodes
  the plan and fixes its resources: in `plan` only when resources were given, in
  `update_plan_resources` always. `update_plan_resources` first asserts that its argument
  is an `HTP` and that the resource set is not empty.
- **Chat messages.** The two chat-message canonicalisers of `Utils` turn loose user
  inputs and model responses into lists of `{"role", "content"}` records.

The project has two layers:

- **Value layer.** Plans are datatypes (`PlanV`, `TaskV`). `FixMissing`, `Resolve` and
  `PlanFromDict` are the reference definitions, and lemmas prove the properties about them.
- **Heap layer.** `Htp` is a class whose nodes own a mutable `Task`. Its methods work in
  place, like the source, and are proved against the value layer through `Model()`.

The language model, the reasoner, the prompt templates, the task codec and Python's
`str()` are function-valued parameters. The model does not look inside them.
`lm.getResponse(prompt, k)` is the reply to the k-th request that carries that prompt,
so repeated requests may get different replies.

Files:

- `wrappers.dfy`: `Option` and `Result`.
- `py_values.dfy`: Python values, exceptions and truthiness.
- `plan_values.dfy`: plan and task values, and the external capabilities.
- `plan_dict.dfy`: `from_dict` and `to_dict`.
- `resource_fix.dfy`: `fix_missing_resources`.
- `resolution.dfy`: `execute` on values.
- `hierarchical.dfy`: the `Task` and `Htp` classes.
- `planner.dfy`: `AutoHTPlanner`.
- `utils.dfy`: the canonicalisers.

## Model

| member | source | states |
|---|---|---|
| PlanDict.PlanFromDict | openssa/l2/planning/hierarchical/__init__.py:37-41 | A value that is not a dict raises TypeError. A dict without "task" raises KeyError. A decoded plan's root task is the codec's decoding of `d["task"]`. A dict with no "sub-plans" key gives a leaf. When "sub-plans" is a list, decoding succeeds exactly when every record in it decodes, and sub-plan i is the decoding of record i. |
| PlanDict.PlansFromList | openssa/l2/planning/hierarchical/__init__.py:41 | Decoding the first n sub-plan records succeeds exactly when each of them decodes, and gives their n plans in order. Otherwise it raises the error of the first record that fails, after every earlier record decoded. |
| PlanDict.PlanToDict | openssa/l2/planning/hierarchical/__init__.py:43-46 | The dictionary has exactly the keys "task" and "sub-plans". "sub-plans" is a list with one entry per sub-plan. |
| PlanDict.RoundTripKeepsOutline | openssa/l2/planning/hierarchical/__init__.py:37-46 | If the task codec keeps the ask, then from_dict(to_dict(p)) succeeds and has the same tree shape and the same ask at every node. |
| PlanDict.ListRoundTripKeepsOutline | openssa/l2/planning/hierarchical/__init__.py:41-46 | The same for every prefix of the sub-plan list. |
| PlanDict.RoundTripExact | openssa/l2/planning/hierarchical/__init__.py:37-46 | If the task codec is lossless, then from_dict(to_dict(p)) == p. |
| PlanDict.ListRoundTripExact | openssa/l2/planning/hierarchical/__init__.py:41-46 | The same for every prefix of the sub-plan list. |
| PlanDict.ReencodingIsStable | openssa/l2/planning/hierarchical/__init__.py:37-46 | If re-encoding a decoded task reproduces its record, then to_dict(from_dict(to_dict(p))) == to_dict(p). |
| PlanDict.ListReencodingIsStable | openssa/l2/planning/hierarchical/__init__.py:41-46 | The same for every prefix of the sub-plan list. |
| ResourceFix.Adopt | openssa/l2/planning/hierarchical/__init__.py:51-52 | A child with an empty resource set takes the parent's set. A child with resources keeps its own. Its sub-plans are untouched. |
| ResourceFix.FixMissing | openssa/l2/planning/hierarchical/__init__.py:48-53 | The root task is unchanged and the number of children stays the same. Child i has its own resources if it had any, and the root's resources otherwise. |
| ResourceFix.FixChangesOnlyResources | openssa/l2/planning/hierarchical/__init__.py:48-53 | With resources erased, the fixed plan equals the original: the shape, asks, statuses and results are all unchanged. |
| ResourceFix.FixKeepsOwnResources | openssa/l2/planning/hierarchical/__init__.py:51-52 | Every node that had resources keeps exactly those resources. |
| ResourceFix.FixReachesEveryNode | openssa/l2/planning/hierarchical/__init__.py:48-53 | If the root has resources, every node has resources afterwards. |
| ResourceFix.FixIsIdempotent | openssa/l2/planning/hierarchical/__init__.py:48-53 | Fixing twice gives the same plan as fixing once. |
| Resolution.Decimal | openssa/l2/planning/hierarchical/__init__.py:70-77 | The printed block number is a non-empty string of decimal digits. |
| Resolution.DecimalDenotes | openssa/l2/planning/hierarchical/__init__.py:70-77 | The digits printed for a block number denote that number, so block i+1 carries the number i+1 and no other. |
| Resolution.Render | openssa/l2/planning/hierarchical/__init__.py:72-77 | A present result is printed as it is; a missing one (`None`) is printed as "None". |
| Resolution.Blocks | openssa/l2/planning/hierarchical/__init__.py:70-77 | There is one question/result block per pair, in order. |
| Resolution.Info | openssa/l2/planning/hierarchical/__init__.py:68-80 | The info starts with the baseline reasoning. Without inherited results it is the baseline followed by the joined SUPPORTING blocks and nothing else. |
| Resolution.InfoShowsEverySibling | openssa/l2/planning/hierarchical/__init__.py:68-73 | The block of every child's (ask, result) pair, numbered i+1, occurs in the synthesis info. |
| Resolution.InfoShowsEveryInherited | openssa/l2/planning/hierarchical/__init__.py:74-80 | Every inherited pair's OTHER block occurs in the info. |
| Resolution.JoinShowsEveryPart | openssa/l2/planning/hierarchical/__init__.py:70 | Every part passed to `'\n\n'.join` occurs in the joined string. |
| Resolution.Resolve | openssa/l2/planning/hierarchical/__init__.py:55-89 | The node becomes DONE with a result present. Nothing else about its task changes. The number of children stays the same. A leaf's result is the reasoner's answer to its own task. |
| Resolution.NonLeafResultIsSynthesised | openssa/l2/planning/hierarchical/__init__.py:59-83 | For q = Resolve(p) with sub-plans, q's result is the language model's reply (request 0) to the synthesis template over p's ask and an info string. That info starts with the baseline reasoning of p's own task. For every child i it contains the SUPPORTING block, numbered i+1, of child i's ask and q's new result for child i. Without inherited results it is exactly the baseline followed by those blocks joined with blank lines. |
| Resolution.ResolveSiblings | openssa/l2/planning/hierarchical/__init__.py:59-64 | Resolving the first n children gives n new children and n pairs. |
| Resolution.SiblingInOrder | openssa/l2/planning/hierarchical/__init__.py:60-64 | For child i, the pair holds child i's own ask and its new result, and the child ends DONE. A DONE child is left untouched. A pending child is executed with exactly the pairs of children 0..i-1. |
| Resolution.PairsGrowByPrefix | openssa/l2/planning/hierarchical/__init__.py:60-64 | The pairs child i receives are the first i pairs of the final list. |
| Resolution.ResolveChangesOnlyLifecycle | openssa/l2/planning/hierarchical/__init__.py:55-89 | With statuses and results erased, the executed plan equals the original: the shape, asks and resources are all kept. |
| Resolution.SiblingChangesOnlyLifecycle | openssa/l2/planning/hierarchical/__init__.py:60-64 | The same for every child of the loop. |
| Resolution.ResolveFinishesTree | openssa/l2/planning/hierarchical/__init__.py:55-89 | If no DONE node hides pending nodes below it, every node is DONE after execution. |
| Resolution.SiblingFinishes | openssa/l2/planning/hierarchical/__init__.py:60-64 | The same for every child of the loop. |
| Resolution.ResolveKeepsResultIffDone | openssa/l2/planning/hierarchical/__init__.py:55-89 | Execution keeps the invariant that a result is present exactly when the status is DONE. |
| Resolution.SiblingKeepsResultIffDone | openssa/l2/planning/hierarchical/__init__.py:60-64 | The same for every child of the loop. |
| Hierarchical.Htp.constructor | openssa/l2/planning/hierarchical/__init__.py:40-41 | The node owns its task and its separately owned sub-plans, and forms a valid tree. |
| Hierarchical.Htp.Build | openssa/l2/planning/hierarchical/__init__.py:40-41 | Builds a fresh, valid tree that holds the given plan value. |
| Hierarchical.Htp.BuildChildren | openssa/l2/planning/hierarchical/__init__.py:41 | Builds fresh, pairwise separate sub-plans that hold the given values, in order. |
| Hierarchical.Htp.FromDict | openssa/l2/planning/hierarchical/__init__.py:37-41 | Succeeds exactly when PlanFromDict does and yields a fresh tree holding its value. Otherwise it raises the same error. |
| Hierarchical.Htp.InheritResources | openssa/l2/planning/hierarchical/__init__.py:51-52 | The node's new value is Adopt(parent resources, old value). |
| Hierarchical.Htp.FixChild | openssa/l2/planning/hierarchical/__init__.py:50-53 | Child i becomes FixMissing(Adopt(root resources, its old value)). |
| Hierarchical.Htp.FixMissingResources | openssa/l2/planning/hierarchical/__init__.py:48-53 | The tree's new value is FixMissing(old value). |
| Hierarchical.Htp.ExecuteChild | openssa/l2/planning/hierarchical/__init__.py:61-64 | A DONE child i is left as it was; a pending one becomes Resolve(its old value, the pairs gathered so far). The returned pair is its ask and its new result. |
| Hierarchical.Htp.ExecuteChildren | openssa/l2/planning/hierarchical/__init__.py:59-64 | The children become ResolveSiblings(old tree).kids and the returned pairs are ResolveSiblings(old tree).pairs. The node's own task is untouched. |
| Hierarchical.Htp.Execute | openssa/l2/planning/hierarchical/__init__.py:55-89 | The tree's new value is Resolve(old value), and the returned string is the result stored at the root. |
| AutoPlanner.OneLevelDeep | openssa/l2/planning/hierarchical/__init__.py:96-100 | The derived planner is the same planner (language model and sub-task bound kept) with depth 1. |
| AutoPlanner.OneFewerLevelDeep | openssa/l2/planning/hierarchical/__init__.py:102-106 | The derived planner is the same planner (language model and sub-task bound kept) with depth one less. |
| AutoPlanner.FirstAnswer | openssa/l2/planning/hierarchical/__init__.py:122-124 | The answer is the first request, within the horizon, whose parsed reply is non-empty. Every earlier reply parsed to an empty value. If there is none, every reply within the horizon was empty. |
| AutoPlanner.AnswerIgnoresLongerHorizon | openssa/l2/planning/hierarchical/__init__.py:122-124 | Once answered, a longer horizon gives the same answer. |
| AutoPlanner.RequestUntilNonEmpty | openssa/l2/planning/hierarchical/__init__.py:122-124 | Returns the first non-empty parsed reply after exactly k+1 requests. With no such reply it makes `horizon` requests and returns nothing. |
| AutoPlanner.PlanPrompt | openssa/l2/planning/hierarchical/__init__.py:110-119 | With resources, the prompt is the resource-aware template over the problem, the resources, the depth and the sub-task bound. Without resources, it is the plain template over the problem, the depth and the sub-task bound. |
| AutoPlanner.PlanOutcome | openssa/l2/planning/hierarchical/__init__.py:108-131 | No answer within the horizon exactly when no reply to the plan prompt parsed to something non-empty. Otherwise the first such reply is decoded: the outcome raises exactly when decoding fails, with the same error, and a returned plan differs from the decoded one in resources only. |
| AutoPlanner.UpdatePrompt | openssa/l2/planning/hierarchical/__init__.py:138-140 | The prompt is the update template over the resources and a dictionary d of the plan. If the task codec keeps every ask, `from_dict(d)` succeeds with the plan's tree shape and asks. If the codec is lossless, `from_dict(d)` is exactly the plan. |
| AutoPlanner.UpdateOutcome | openssa/l2/planning/hierarchical/__init__.py:133-151 | As for PlanOutcome with the update prompt, except that a returned plan is exactly FixMissing of the decoded plan. |
| AutoPlanner.PlanFixesOnlyWithResources | openssa/l2/planning/hierarchical/__init__.py:126-131 | Without resources the decoded plan is returned untouched. With resources it is FixMissing(decoded). Either way only resources differ from the decoded plan. |
| AutoPlanner.PlannedWithResourcesIsResourced | openssa/l2/planning/hierarchical/__init__.py:126-131 | With resources given and a root that has resources, every node of the plan has resources. |
| AutoPlanner.UpdatedPlanIsResourced | openssa/l2/planning/hierarchical/__init__.py:147-151 | In the plan returned by update_plan_resources, every node has resources if the root does. |
| AutoPlanner.Plan | openssa/l2/planning/hierarchical/__init__.py:108-131 | The outcome is exactly PlanOutcome: a fresh valid tree, the decoding error, or no answer within the horizon. The number of requests is the index of the first answer plus one. |
| AutoPlanner.UpdatePlanResources | openssa/l2/planning/hierarchical/__init__.py:133-151 | A non-HTP argument or an empty resource set raises AssertionError with no request made. Otherwise the outcome is exactly UpdateOutcome, with missing resources always fixed, and the number of requests is the index of the first answer plus one (or the horizon when none came). |
| Utils.CanonicalizeUserInput | openssm/utils/utils.py:9-42 | A list keeps its length and order: each element that already has "role" and "content" stays as it is, and any other element becomes a user message holding `str(item)`. A string becomes one user message. A dict is wrapped unchanged, whatever its keys. Anything else becomes one user message. Unless the input is a dict, every record has "role" and "content". |
| Utils.AssistantMessage | openssm/utils/utils.py:54-76 | Every record has "role" and "content". A string becomes an assistant message with the string as content. A dict that already has both keys passes through unchanged, and that test comes before the "response" test. Any other item gets the role "assistant". A dict with "response" gets that value as its content. Anything else gets the content `str(item)`. |
| Utils.ResponseItems | openssm/utils/utils.py:50-51 | A list is iterated as it is, and anything else as a one-item list. Only the empty list yields no items. |
| Utils.AllResponses | openssm/utils/utils.py:45-76 | Every response item is rewritten, in order, with one record each. Every record has "role" and "content". |
| Utils.FirstResponseOnly | openssm/utils/utils.py:50-77 | There is no result exactly when there are no items. Otherwise the result is only the first rewritten item. |
| Utils.CanonicalizeQueryResponse | openssm/utils/utils.py:45-77 | The loop as written, with its early return, computes FirstResponseOnly. |
| Utils.CanonicalizeQueryResponseIntended | openssm/utils/utils.py:45-76 | The loop with the return after it computes AllResponses. |
| Utils.EarlyReturnDropsItems | openssm/utils/utils.py:76-77 | Unless there is exactly one item, the code as written differs from the intended result. With two or more items it returns fewer records. |

## Left out

- The language model, the reasoner, the prompt templates, `Task.from_dict_or_str`, `Task.to_json_dict` and Python's `str()` are opaque function parameters.
  - Their own behaviour is not part of this model.
  - Neither are the errors the task codec can raise beyond the one it reports.
  - Neither is the text of `_prompts.py`.
- The language model is a function of the prompt and the request index. The executor always uses request index 0.
  - The model therefore does not capture two identical synthesis prompts in one run receiving different replies.
- The unbounded `while not htp_dict` loops are scanned up to a finite `horizon`.
  - When no reply within the horizon parses to something non-empty, the model reports `Unanswered`. It makes no claim that the real loop ends.
  - `AnswerIgnoresLongerHorizon` shows that a longer horizon never changes an answer already found.
- Resources are a set of (unique name, overview) values.
  - `resources=None` is modelled as the empty set, since both are falsy and the code treats them alike.
  - The `{unique_name: overview}` dictionary passed to the templates is represented by the set itself.
- `json.dumps` is not modelled. The update prompt receives the plan's dictionary value.
- `tqdm` progress display and `loguru` logging are not modelled: they do not affect results.
- Asynchronous use, concurrent access to one plan, and Python's `-O` flag (which removes `assert` statements) are not modelled.
- Three behaviours of the code are worth stating outright:
  - `HTPDict` (openssa/l2/planning/hierarchical/__init__.py:28-30) declares the key `sub_plans`, but `from_dict` and `to_dict` (lines 41 and 46) use `"sub-plans"`. The model uses `"sub-plans"`.
  - A dictionary without `"task"` raises `KeyError` from `htp_dict['task']` (line 40).
  - `update_plan_resources` checks its arguments with `assert cond, TypeError(...)` and `assert cond, ValueError(...)` (lines 135-136). A failing check raises `AssertionError`; the `TypeError` or `ValueError` object is only its message.
- `fix_missing_resources` makes a child share its parent's set object (`p.task.resources = self.task.resources`); the model copies the set value. No operation of this core changes a resource set in place, so nothing here can observe the sharing.
- `execute`'s `other_results=None` default is modelled as the empty list `[]`; both are falsy and produce no OTHER blocks.
- `Htp.Valid()` requires sub-plans and tasks to be owned by one node each. The `HTP` dataclass also accepts plans whose nodes or tasks are shared; `from_dict` never builds one, and the model does not cover executing such a plan.
- `reasoner.reason` is a deterministic function of the task's current value.
- `Task.ask` is a constant field: no operation in this core changes it.
- The dictionary form of a task and any extra fields of `Task` beyond the ask, status, result and resources are not modelled.

## Findings

| source | as written | input that shows it | evidently intended | confidence | as-written member | corrected member |
|---|---|---|---|---|---|---|
| openssm/utils/utils.py:76-77 | The `return results` is inside the `for` loop. Only the first response item is canonicalised, and an empty list falls off the end and returns `None`. | `["a", "b"]` gives one assistant record instead of two; `[]` gives `None` instead of `[]`. | Every item is rewritten and returned after the loop, as the docstring's "list of dicts" says. | not executed | Utils.EarlyReturnDropsItems | Utils.CanonicalizeQueryResponseIntended |
