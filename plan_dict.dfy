/**
 * `HTP.from_dict` and `HTP.to_dict`: the dictionary form of a plan. Both use the
 * hyphenated key "sub-plans"; a missing "task" key raises KeyError.
 */
module PlanDict {
  import opened Wrappers
  import opened PyValues
  import opened PlanValues

  /** `HTP.from_dict`: the plan a dictionary describes, or the error raised building it. */
  function PlanFromDict(codec: TaskCodec, d: Value): (r: Result<PlanV, PyError>)
    decreases d, 0
    ensures !d.PyDict? ==> r == Err(TypeError)
    ensures d.PyDict? && "task" !in d.entries ==> r == Err(KeyError)
    ensures r.Ok? ==> d.PyDict? && "task" in d.entries && codec.decode(d.entries["task"]) == Ok(r.value.task)
    ensures (d.PyDict? && "task" in d.entries && "sub-plans" !in d.entries &&
             codec.decode(d.entries["task"]).Ok?) ==>
            r == Ok(PlanV(codec.decode(d.entries["task"]).value, []))
    ensures (d.PyDict? && "task" in d.entries && codec.decode(d.entries["task"]).Ok? &&
             "sub-plans" in d.entries && d.entries["sub-plans"].PyList?) ==>
            (r.Ok? <==> forall i :: 0 <= i < |d.entries["sub-plans"].items| ==>
                          PlanFromDict(codec, d.entries["sub-plans"].items[i]).Ok?) &&
            (r.Ok? ==> |r.value.subPlans| == |d.entries["sub-plans"].items| &&
                       forall i :: 0 <= i < |d.entries["sub-plans"].items| ==>
                         PlanFromDict(codec, d.entries["sub-plans"].items[i]) == Ok(r.value.subPlans[i]))
  {
    if !d.PyDict? then Err(TypeError)
    else if "task" !in d.entries then Err(KeyError)
    else
      match codec.decode(d.entries["task"])
      case Err(e) => Err(e)
      case Ok(task) =>
        if "sub-plans" !in d.entries then Ok(PlanV(task, []))
        else
          match d.entries["sub-plans"]
          case PyList(items) =>
            (match PlansFromList(codec, d.entries["sub-plans"], |items|)
             case Err(e) => Err(e)
             case Ok(kids) => Ok(PlanV(task, kids)))
          // iterating a string or a dict yields strings, which cannot be indexed by 'task'
          case PyStr(s) => if s == "" then Ok(PlanV(task, [])) else Err(TypeError)
          case PyDict(m) => if m == map[] then Ok(PlanV(task, [])) else Err(TypeError)
          case _ => Err(TypeError)
  }

  /**
   * The list comprehension over the first `n` sub-plan records: it succeeds when
   * every record decodes, giving their plans in order, and otherwise raises the
   * error of the first record that fails.
   */
  function PlansFromList(codec: TaskCodec, list: Value, n: nat): (r: Result<seq<PlanV>, PyError>)
    requires list.PyList? && n <= |list.items|
    decreases list, n
    ensures r.Ok? ==> |r.value| == n
    ensures r.Ok? <==> forall i :: 0 <= i < n ==> PlanFromDict(codec, list.items[i]).Ok?
    ensures r.Ok? ==> forall i :: 0 <= i < n ==> PlanFromDict(codec, list.items[i]) == Ok(r.value[i])
    ensures r.Err? ==> exists j :: 0 <= j < n && PlanFromDict(codec, list.items[j]) == Err(r.error) &&
                                   forall i :: 0 <= i < j ==> PlanFromDict(codec, list.items[i]).Ok?
  {
    if n == 0 then Ok([])
    else
      match PlansFromList(codec, list, n - 1)
      case Err(e) => Err(e)
      case Ok(prefix) =>
        match PlanFromDict(codec, list.items[n - 1])
        case Err(e) => Err(e)
        case Ok(p) => Ok(prefix + [p])
  }

  /** `HTP.to_dict`: exactly the keys "task" and "sub-plans". */
  function PlanToDict(codec: TaskCodec, p: PlanV): (d: Value)
    ensures d.PyDict? && d.entries.Keys == {"task", "sub-plans"}
    ensures d.entries["sub-plans"].PyList? && |d.entries["sub-plans"].items| == |p.subPlans|
  {
    PyDict(map[
      "task" := codec.encode(p.task),
      "sub-plans" := PyList(seq(|p.subPlans|, i requires 0 <= i < |p.subPlans| => PlanToDict(codec, p.subPlans[i])))])
  }

  /** The task serialiser keeps the question of every task. */
  ghost predicate KeepsAsk(codec: TaskCodec)
  {
    forall t :: codec.decode(codec.encode(t)).Ok? && codec.decode(codec.encode(t)).value.ask == t.ask
  }

  /** The task serialiser is lossless. */
  ghost predicate Lossless(codec: TaskCodec)
  {
    forall t :: codec.decode(codec.encode(t)) == Ok(t)
  }

  /** Re-encoding a decoded task record gives back the same record. */
  ghost predicate StableEncoding(codec: TaskCodec)
  {
    forall t :: codec.decode(codec.encode(t)).Ok? && codec.encode(codec.decode(codec.encode(t)).value) == codec.encode(t)
  }

  /** Round trip: decoding the dictionary of a plan rebuilds its tree shape and every ask. */
  lemma {:induction false} RoundTripKeepsOutline(codec: TaskCodec, p: PlanV)
    requires KeepsAsk(codec)
    ensures PlanFromDict(codec, PlanToDict(codec, p)).Ok?
    ensures OutlineOf(PlanFromDict(codec, PlanToDict(codec, p)).value) == OutlineOf(p)
    decreases p, 1
  {
    var d := PlanToDict(codec, p);
    var list := d.entries["sub-plans"];
    ListRoundTripKeepsOutline(codec, p, |p.subPlans|);
    var kids := PlansFromList(codec, list, |p.subPlans|).value;
    var q := PlanFromDict(codec, d).value;
    assert q.subPlans == kids;
    assert OutlineOf(q).parts == OutlineOf(p).parts by {
      forall i | 0 <= i < |p.subPlans|
        ensures OutlineOf(q).parts[i] == OutlineOf(p).parts[i]
      {
      }
    }
  }

  /** The sub-plan list of a plan's dictionary decodes child by child. */
  lemma {:induction false} ListRoundTripKeepsOutline(codec: TaskCodec, p: PlanV, n: nat)
    requires KeepsAsk(codec) && n <= |p.subPlans|
    ensures var list := PlanToDict(codec, p).entries["sub-plans"];
      PlansFromList(codec, list, n).Ok? &&
      forall i :: 0 <= i < n ==> OutlineOf(PlansFromList(codec, list, n).value[i]) == OutlineOf(p.subPlans[i])
    decreases p, 0, n
  {
    var list := PlanToDict(codec, p).entries["sub-plans"];
    forall i | 0 <= i < n
      ensures PlanFromDict(codec, list.items[i]).Ok?
      ensures OutlineOf(PlanFromDict(codec, list.items[i]).value) == OutlineOf(p.subPlans[i])
    {
      assert list.items[i] == PlanToDict(codec, p.subPlans[i]);
      RoundTripKeepsOutline(codec, p.subPlans[i]);
    }
  }

  /** With a lossless task serialiser, decoding the dictionary of a plan gives the plan back. */
  lemma {:induction false} RoundTripExact(codec: TaskCodec, p: PlanV)
    requires Lossless(codec)
    ensures PlanFromDict(codec, PlanToDict(codec, p)) == Ok(p)
    decreases p, 1
  {
    var d := PlanToDict(codec, p);
    ListRoundTripExact(codec, p, |p.subPlans|);
    assert PlansFromList(codec, d.entries["sub-plans"], |p.subPlans|).value == p.subPlans[..|p.subPlans|];
    assert p.subPlans[..|p.subPlans|] == p.subPlans;
  }

  lemma {:induction false} ListRoundTripExact(codec: TaskCodec, p: PlanV, n: nat)
    requires Lossless(codec) && n <= |p.subPlans|
    ensures PlansFromList(codec, PlanToDict(codec, p).entries["sub-plans"], n) == Ok(p.subPlans[..n])
    decreases p, 0, n
  {
    var list := PlanToDict(codec, p).entries["sub-plans"];
    forall i | 0 <= i < n
      ensures PlanFromDict(codec, list.items[i]) == Ok(p.subPlans[i])
    {
      assert list.items[i] == PlanToDict(codec, p.subPlans[i]);
      RoundTripExact(codec, p.subPlans[i]);
    }
    assert PlansFromList(codec, list, n).value == p.subPlans[..n];
  }

  /**
   * Encoding is stable under a decode: `to_dict(from_dict(to_dict(x))) == to_dict(x)`
   * whenever the task serialiser is stable the same way.
   */
  lemma {:induction false} ReencodingIsStable(codec: TaskCodec, p: PlanV)
    requires StableEncoding(codec)
    ensures PlanFromDict(codec, PlanToDict(codec, p)).Ok?
    ensures PlanToDict(codec, PlanFromDict(codec, PlanToDict(codec, p)).value) == PlanToDict(codec, p)
    decreases p, 1
  {
    var d := PlanToDict(codec, p);
    ListReencodingIsStable(codec, p, |p.subPlans|);
    var q := PlanFromDict(codec, d).value;
    var d' := PlanToDict(codec, q);
    assert d'.entries["sub-plans"] == d.entries["sub-plans"];
    assert d'.entries == d.entries;
  }

  lemma {:induction false} ListReencodingIsStable(codec: TaskCodec, p: PlanV, n: nat)
    requires StableEncoding(codec) && n <= |p.subPlans|
    ensures var list := PlanToDict(codec, p).entries["sub-plans"];
      PlansFromList(codec, list, n).Ok? &&
      forall i :: 0 <= i < n ==> PlanToDict(codec, PlansFromList(codec, list, n).value[i]) == PlanToDict(codec, p.subPlans[i])
    decreases p, 0, n
  {
    var list := PlanToDict(codec, p).entries["sub-plans"];
    forall i | 0 <= i < n
      ensures PlanFromDict(codec, list.items[i]).Ok?
      ensures PlanToDict(codec, PlanFromDict(codec, list.items[i]).value) == PlanToDict(codec, p.subPlans[i])
    {
      assert list.items[i] == PlanToDict(codec, p.subPlans[i]);
      ReencodingIsStable(codec, p.subPlans[i]);
    }
  }
}
