/**
 * `HTP.execute` on plan values: the reasoner answers every node's own task first;
 * a leaf keeps that answer, while a node with sub-plans resolves its children in
 * order, hands each pending child the (ask, result) pairs of the children before
 * it, and asks the language model to synthesise its result from a prompt.
 */
module Resolution {
  import opened Wrappers
  import opened PlanValues

  /** The number a string of decimal digits denotes, most significant digit first. */
  function DigitsValue(s: string): int
  {
    if s == [] then 0 else DigitsValue(s[..|s| - 1]) * 10 + (s[|s| - 1] as int - '0' as int)
  }

  /** The decimal digits of a natural number, as an f-string prints it. */
  function Decimal(n: nat): (s: string)
    ensures |s| >= 1 && forall i :: 0 <= i < |s| ==> '0' <= s[i] <= '9'
  {
    if n < 10 then ["0123456789"[n]] else Decimal(n / 10) + ["0123456789"[n % 10]]
  }

  /** The digits `Decimal` prints denote the number itself, so distinct numbers print differently. */
  lemma {:induction false} DecimalDenotes(n: nat)
    ensures DigitsValue(Decimal(n)) == n
    decreases n
  {
    var s := Decimal(n);
    if n >= 10 {
      DecimalDenotes(n / 10);
      assert s[..|s| - 1] == Decimal(n / 10);
    }
  }

  /** How an f-string prints a result that may be `None`: a string as it is, `None` as "None". */
  function Render(result: Option<string>): (r: string)
    ensures result.Some? ==> r == result.value
    ensures result.None? ==> r == "None"
  {
    match result
    case Some(s) => s
    case None => "None"
  }

  /** Python's `sep.join(parts)`. */
  function Join(sep: string, parts: seq<string>): string
  {
    if |parts| == 0 then ""
    else if |parts| == 1 then parts[0]
    else Join(sep, parts[..|parts| - 1]) + sep + parts[|parts| - 1]
  }

  /** One numbered question/result block of the synthesis info, as the two f-strings of `execute` print it. */
  function Block(heading: string, number: nat, pair: AskAns): string
  {
    heading + " QUESTION/TASK #" + Decimal(number) + ":\n" + pair.ask + "\n" +
    "\n" +
    heading + " RESULT #" + Decimal(number) + ":\n" + Render(pair.result) + "\n"
  }

  /** The blocks for a list of pairs, numbered from 1. */
  function Blocks(heading: string, pairs: seq<AskAns>): (bs: seq<string>)
    ensures |bs| == |pairs|
  {
    seq(|pairs|, i requires 0 <= i < |pairs| => Block(heading, i + 1, pairs[i]))
  }

  /** The opening of the info: the reasoning obtained without any sub-results. */
  function Baseline(reasoning: string): string
  {
    "REASONING WITHOUT FURTHER SUPPORTING RESULTS:\n" + reasoning + "\n" + "\n\n"
  }

  /** The OTHER part of the info: present only when results were inherited. */
  function Inherited(other: seq<AskAns>): string
  {
    if other != [] then "\n\n" + Join("\n\n", Blocks("OTHER", other)) else ""
  }

  /**
   * The `info` handed to the synthesis template: the baseline reasoning, one
   * SUPPORTING block per child, and OTHER blocks only when results were inherited.
   */
  function Info(reasoning: string, sub: seq<AskAns>, other: seq<AskAns>): (s: string)
    ensures |Baseline(reasoning)| <= |s| && s[..|Baseline(reasoning)|] == Baseline(reasoning)
    ensures other == [] ==> s == Baseline(reasoning) + Join("\n\n", Blocks("SUPPORTING", sub))
  {
    Baseline(reasoning) + Join("\n\n", Blocks("SUPPORTING", sub)) + Inherited(other)
  }

  /** `b` stands in `s` from offset `k` on. */
  ghost predicate OccursAt(b: string, s: string, k: int)
  {
    0 <= k && k + |b| <= |s| && s[k..k + |b|] == b
  }

  /** `b` stands somewhere in `s`. */
  ghost predicate Occurs(b: string, s: string)
  {
    exists k :: OccursAt(b, s, k)
  }

  /** What the children of a node come to: their new values and their (ask, result) pairs. */
  datatype Siblings = Siblings(kids: seq<PlanV>, pairs: seq<AskAns>)

  /**
   * `execute`: the node's new value; the string `execute` returns is
   * the result stored in it.
   */
  function Resolve(rs: Reasoner, tpl: Templates, p: PlanV, other: seq<AskAns>): (q: PlanV)
    decreases p, 1
    ensures q.task == p.task.(status := Done, result := q.task.result) && q.task.result.Some?
    ensures |q.subPlans| == |p.subPlans|
    ensures p.subPlans == [] ==> q.task.result == Some(rs.reason(p.task))
  {
    var reasoning := rs.reason(p.task);
    if p.subPlans == [] then
      PlanV(p.task.(status := Done, result := Some(reasoning)), [])
    else
      var s := ResolveSiblings(rs, tpl, p, |p.subPlans|);
      var prompt := tpl.resultsSynth(p.task.ask, Info(reasoning, s.pairs, other));
      PlanV(p.task.(status := Done, result := Some(rs.lm.getResponse(prompt, 0))), s.kids)
  }

  /** The (ask, result) pairs of a node's children: each ask from `p`, each result from `q`. */
  function ChildPairs(p: PlanV, q: PlanV): (pairs: seq<AskAns>)
    requires |q.subPlans| == |p.subPlans|
    ensures |pairs| == |p.subPlans|
  {
    seq(|p.subPlans|, i requires 0 <= i < |p.subPlans| => AskAns(p.subPlans[i].task.ask, q.subPlans[i].task.result))
  }

  /**
   * A node with sub-plans stores the language model's reply to the synthesis
   * prompt, never its own baseline reasoning: the info in that prompt opens with
   * the baseline, shows every child's ask next to that child's new result, with
   * blocks numbered from 1, and without inherited results holds nothing else.
   */
  lemma NonLeafResultIsSynthesised(rs: Reasoner, tpl: Templates, p: PlanV, other: seq<AskAns>)
    requires p.subPlans != []
    ensures var q := Resolve(rs, tpl, p, other);
      var pairs := ChildPairs(p, q);
      var info := Info(rs.reason(p.task), pairs, other);
        q.task.result == Some(rs.lm.getResponse(tpl.resultsSynth(p.task.ask, info), 0)) &&
        |Baseline(rs.reason(p.task))| <= |info| &&
        info[..|Baseline(rs.reason(p.task))|] == Baseline(rs.reason(p.task)) &&
        (forall i :: 0 <= i < |pairs| ==> Occurs(Blocks("SUPPORTING", pairs)[i], info)) &&
        (other == [] ==> info == Baseline(rs.reason(p.task)) + Join("\n\n", Blocks("SUPPORTING", pairs)))
  {
    var q := Resolve(rs, tpl, p, other);
    var pairs := ChildPairs(p, q);
    SiblingPairsAreChildPairs(rs, tpl, p, other);
    var info := Info(rs.reason(p.task), pairs, other);
    assert q.task.result == Some(rs.lm.getResponse(tpl.resultsSynth(p.task.ask, info), 0));
    forall i | 0 <= i < |pairs|
      ensures Occurs(Blocks("SUPPORTING", pairs)[i], info)
    {
      InfoShowsEverySibling(rs.reason(p.task), pairs, other, i);
    }
  }

  /** The pairs the sibling loop gathers are the children's asks next to their new results. */
  lemma SiblingPairsAreChildPairs(rs: Reasoner, tpl: Templates, p: PlanV, other: seq<AskAns>)
    requires p.subPlans != []
    ensures ResolveSiblings(rs, tpl, p, |p.subPlans|).pairs == ChildPairs(p, Resolve(rs, tpl, p, other))
  {
    var s := ResolveSiblings(rs, tpl, p, |p.subPlans|);
    var pairs := ChildPairs(p, Resolve(rs, tpl, p, other));
    assert Resolve(rs, tpl, p, other).subPlans == s.kids;
    forall i | 0 <= i < |p.subPlans|
      ensures s.pairs[i] == pairs[i]
    {
      SiblingInOrder(rs, tpl, p, |p.subPlans|, i);
    }
  }

  /**
   * The `for p in tqdm(self.sub_plans)` loop of `execute` over the first `n` children: a child already DONE
   * contributes its stored result; a pending one is resolved with the pairs of
   * the children before it.
   */
  function ResolveSiblings(rs: Reasoner, tpl: Templates, p: PlanV, n: nat): (s: Siblings)
    requires n <= |p.subPlans|
    decreases p, 0, n
    ensures |s.kids| == n && |s.pairs| == n
  {
    if n == 0 then Siblings([], [])
    else
      var s := ResolveSiblings(rs, tpl, p, n - 1);
      var c := p.subPlans[n - 1];
      var c' := ResolveChild(rs, tpl, c, s.pairs);
      Siblings(s.kids + [c'], s.pairs + [AskAns(c.task.ask, c'.task.result)])
  }

  /** The loop over one more child appends that child's outcome. */
  lemma SiblingsUnfold(rs: Reasoner, tpl: Templates, p: PlanV, n: nat)
    requires n < |p.subPlans|
    ensures var s := ResolveSiblings(rs, tpl, p, n);
      var c' := ResolveChild(rs, tpl, p.subPlans[n], s.pairs);
      ResolveSiblings(rs, tpl, p, n + 1) == Siblings(s.kids + [c'], s.pairs + [AskAns(p.subPlans[n].task.ask, c'.task.result)])
  {
  }

  /** One turn of that loop: a DONE child is reused, a pending one is executed. */
  function ResolveChild(rs: Reasoner, tpl: Templates, c: PlanV, pairs: seq<AskAns>): (c': PlanV)
    decreases c, 2
    ensures c.task.status == Done ==> c' == c
    ensures c.task.status != Done ==> c' == Resolve(rs, tpl, c, pairs)
  {
    if c.task.status == Done then c else Resolve(rs, tpl, c, pairs)
  }

  /**
   * Sibling order: child i yields exactly one pair, with its own ask; a DONE child
   * is left as it was and contributes its stored result; a pending child is
   * resolved with the pairs of children 0..i-1; afterwards child i is DONE.
   */
  lemma {:induction false} SiblingInOrder(rs: Reasoner, tpl: Templates, p: PlanV, n: nat, i: nat)
    requires i < n <= |p.subPlans|
    ensures var s := ResolveSiblings(rs, tpl, p, n);
      s.pairs[i].ask == p.subPlans[i].task.ask &&
      s.pairs[i].result == s.kids[i].task.result &&
      s.kids[i].task.status == Done &&
      (p.subPlans[i].task.status == Done ==> s.kids[i] == p.subPlans[i]) &&
      (p.subPlans[i].task.status != Done ==>
        s.kids[i] == Resolve(rs, tpl, p.subPlans[i], ResolveSiblings(rs, tpl, p, i).pairs))
    decreases n
  {
    var s := ResolveSiblings(rs, tpl, p, n - 1);
    var c := p.subPlans[n - 1];
    var c' := if c.task.status == Done then c else Resolve(rs, tpl, c, s.pairs);
    var s' := ResolveSiblings(rs, tpl, p, n);
    assert s' == Siblings(s.kids + [c'], s.pairs + [AskAns(c.task.ask, c'.task.result)]);
    if i < n - 1 {
      SiblingInOrder(rs, tpl, p, n - 1, i);
      assert s'.kids[i] == s.kids[i] && s'.pairs[i] == s.pairs[i];
    }
  }

  /** One more child adds one kid and one pair and keeps those before it. */
  lemma SiblingsStep(rs: Reasoner, tpl: Templates, p: PlanV, n: nat)
    requires 0 < n <= |p.subPlans|
    ensures var s := ResolveSiblings(rs, tpl, p, n - 1);
      var s' := ResolveSiblings(rs, tpl, p, n);
      s'.kids == s.kids + [s'.kids[n - 1]] && s'.pairs == s.pairs + [s'.pairs[n - 1]]
  {
  }

  lemma PrefixOfSnoc<T>(a: seq<T>, x: T, i: nat)
    requires i <= |a|
    ensures (a + [x])[..i] == a[..i]
  {
  }

  lemma {:induction false} PairsGrowByPrefix(rs: Reasoner, tpl: Templates, p: PlanV, n: nat, i: nat)
    requires i <= n <= |p.subPlans|
    ensures ResolveSiblings(rs, tpl, p, i).pairs == ResolveSiblings(rs, tpl, p, n).pairs[..i]
    decreases n
  {
    if i < n {
      PairsGrowByPrefix(rs, tpl, p, n - 1, i);
      SiblingsStep(rs, tpl, p, n);
      var ps := ResolveSiblings(rs, tpl, p, n).pairs;
      PrefixOfSnoc(ResolveSiblings(rs, tpl, p, n - 1).pairs, ps[n - 1], i);
    }
  }

  /** The plan with every lifecycle state reset: shape, asks and resources only. */
  function Unresolved(p: PlanV): (q: PlanV)
    ensures |q.subPlans| == |p.subPlans|
  {
    PlanV(p.task.(status := Pending, result := None),
          seq(|p.subPlans|, i requires 0 <= i < |p.subPlans| => Unresolved(p.subPlans[i])))
  }

  /** Execution changes only statuses and results: shape, asks and resources stay. */
  lemma {:induction false} ResolveChangesOnlyLifecycle(rs: Reasoner, tpl: Templates, p: PlanV, other: seq<AskAns>)
    ensures Unresolved(Resolve(rs, tpl, p, other)) == Unresolved(p)
    decreases p, 1
  {
    var q := Resolve(rs, tpl, p, other);
    if p.subPlans != [] {
      assert q.subPlans == ResolveSiblings(rs, tpl, p, |p.subPlans|).kids;
      forall i | 0 <= i < |p.subPlans|
        ensures Unresolved(q.subPlans[i]) == Unresolved(p.subPlans[i])
      {
        SiblingChangesOnlyLifecycle(rs, tpl, p, i);
      }
      assert Unresolved(q).subPlans == Unresolved(p).subPlans;
    }
  }

  lemma {:induction false} SiblingChangesOnlyLifecycle(rs: Reasoner, tpl: Templates, p: PlanV, i: nat)
    requires i < |p.subPlans|
    ensures Unresolved(ResolveSiblings(rs, tpl, p, |p.subPlans|).kids[i]) == Unresolved(p.subPlans[i])
    decreases p, 0
  {
    SiblingInOrder(rs, tpl, p, |p.subPlans|, i);
    if p.subPlans[i].task.status != Done {
      ResolveChangesOnlyLifecycle(rs, tpl, p.subPlans[i], ResolveSiblings(rs, tpl, p, i).pairs);
    }
  }

  /** Every node of the plan is DONE. */
  ghost predicate AllDone(p: PlanV)
  {
    p.task.status == Done && forall i :: 0 <= i < |p.subPlans| ==> AllDone(p.subPlans[i])
  }

  /** Below a DONE node, every node is DONE, as after an earlier execution. */
  ghost predicate DoneIsFinal(p: PlanV)
  {
    (p.task.status == Done ==> AllDone(p)) &&
    forall i :: 0 <= i < |p.subPlans| ==> DoneIsFinal(p.subPlans[i])
  }

  /** Execution leaves the whole tree DONE, unless a DONE node still hides pending ones. */
  lemma {:induction false} ResolveFinishesTree(rs: Reasoner, tpl: Templates, p: PlanV, other: seq<AskAns>)
    requires DoneIsFinal(p)
    ensures AllDone(Resolve(rs, tpl, p, other))
    decreases p, 1
  {
    var q := Resolve(rs, tpl, p, other);
    if p.subPlans != [] {
      assert q.subPlans == ResolveSiblings(rs, tpl, p, |p.subPlans|).kids;
      forall i | 0 <= i < |p.subPlans|
        ensures AllDone(q.subPlans[i])
      {
        SiblingFinishes(rs, tpl, p, i);
      }
    }
  }

  lemma {:induction false} SiblingFinishes(rs: Reasoner, tpl: Templates, p: PlanV, i: nat)
    requires i < |p.subPlans| && DoneIsFinal(p)
    ensures AllDone(ResolveSiblings(rs, tpl, p, |p.subPlans|).kids[i])
    decreases p, 0
  {
    SiblingInOrder(rs, tpl, p, |p.subPlans|, i);
    assert DoneIsFinal(p.subPlans[i]);
    if p.subPlans[i].task.status != Done {
      ResolveFinishesTree(rs, tpl, p.subPlans[i], ResolveSiblings(rs, tpl, p, i).pairs);
    }
  }

  /** The Task invariant: a result is present exactly when the status is DONE, at every node. */
  ghost predicate ResultIffDone(p: PlanV)
  {
    (p.task.result.Some? <==> p.task.status == Done) &&
    forall i :: 0 <= i < |p.subPlans| ==> ResultIffDone(p.subPlans[i])
  }

  /** Execution preserves the Task invariant. */
  lemma {:induction false} ResolveKeepsResultIffDone(rs: Reasoner, tpl: Templates, p: PlanV, other: seq<AskAns>)
    requires ResultIffDone(p)
    ensures ResultIffDone(Resolve(rs, tpl, p, other))
    decreases p, 1
  {
    var q := Resolve(rs, tpl, p, other);
    if p.subPlans != [] {
      assert q.subPlans == ResolveSiblings(rs, tpl, p, |p.subPlans|).kids;
      forall i | 0 <= i < |p.subPlans|
        ensures ResultIffDone(q.subPlans[i])
      {
        SiblingKeepsResultIffDone(rs, tpl, p, i);
      }
    }
  }

  lemma {:induction false} SiblingKeepsResultIffDone(rs: Reasoner, tpl: Templates, p: PlanV, i: nat)
    requires i < |p.subPlans| && ResultIffDone(p)
    ensures ResultIffDone(ResolveSiblings(rs, tpl, p, |p.subPlans|).kids[i])
    decreases p, 0
  {
    SiblingInOrder(rs, tpl, p, |p.subPlans|, i);
    assert ResultIffDone(p.subPlans[i]);
    if p.subPlans[i].task.status != Done {
      ResolveKeepsResultIffDone(rs, tpl, p.subPlans[i], ResolveSiblings(rs, tpl, p, i).pairs);
    }
  }

  /** Every part handed to `join` stands in the joined string. */
  lemma {:induction false} JoinShowsEveryPart(sep: string, parts: seq<string>, i: nat)
    requires i < |parts|
    ensures exists k :: OccursAt(parts[i], Join(sep, parts), k)
    decreases |parts|
  {
    var j := Join(sep, parts);
    if |parts| == 1 {
      assert OccursAt(parts[i], j, 0);
    } else {
      var init := parts[..|parts| - 1];
      var front := Join(sep, init);
      assert j == front + sep + parts[|parts| - 1];
      if i == |parts| - 1 {
        assert OccursAt(parts[i], j, |front| + |sep|);
      } else {
        JoinShowsEveryPart(sep, init, i);
        var k :| OccursAt(init[i], front, k);
        assert j[k..k + |parts[i]|] == front[k..k + |parts[i]|];
        assert OccursAt(parts[i], j, k);
      }
    }
  }

  /** What stands in the middle part of a concatenation stands in the whole, shifted. */
  lemma OccursInMiddle(b: string, x: string, y: string, z: string, k: int)
    requires OccursAt(b, y, k)
    ensures OccursAt(b, x + y + z, |x| + k)
  {
    assert (x + y + z)[|x| + k..|x| + k + |b|] == y[k..k + |b|];
  }

  /** The synthesis info shows the question and result of every child, numbered from 1. */
  lemma InfoShowsEverySibling(reasoning: string, sub: seq<AskAns>, other: seq<AskAns>, i: nat)
    requires i < |sub|
    ensures exists k :: OccursAt(Blocks("SUPPORTING", sub)[i], Info(reasoning, sub, other), k)
  {
    var b := Blocks("SUPPORTING", sub)[i];
    var joined := Join("\n\n", Blocks("SUPPORTING", sub));
    JoinShowsEveryPart("\n\n", Blocks("SUPPORTING", sub), i);
    var k :| OccursAt(b, joined, k);
    var rest := Inherited(other);
    OccursInMiddle(b, Baseline(reasoning), joined, rest, k);
    assert Info(reasoning, sub, other) == Baseline(reasoning) + joined + rest;
  }

  /** What stands in the second part of a concatenation stands in the whole, shifted. */
  lemma OccursAfter(b: string, x: string, y: string, k: int)
    requires OccursAt(b, y, k)
    ensures OccursAt(b, x + y, |x| + k)
  {
    assert (x + y)[|x| + k..|x| + k + |b|] == y[k..k + |b|];
  }

  /** When results were inherited, the info also shows every one of them, numbered from 1. */
  lemma InfoShowsEveryInherited(reasoning: string, sub: seq<AskAns>, other: seq<AskAns>, i: nat)
    requires i < |other|
    ensures exists k :: OccursAt(Blocks("OTHER", other)[i], Info(reasoning, sub, other), k)
  {
    var b := Blocks("OTHER", other)[i];
    var joined := Join("\n\n", Blocks("OTHER", other));
    JoinShowsEveryPart("\n\n", Blocks("OTHER", other), i);
    var k :| OccursAt(b, joined, k);
    var sep := "\n\n";
    OccursAfter(b, sep, joined, k);
    assert Inherited(other) == sep + joined;
    var front := Baseline(reasoning) + Join(sep, Blocks("SUPPORTING", sub));
    OccursAfter(b, front, Inherited(other), |sep| + k);
    assert Info(reasoning, sub, other) == front + Inherited(other);
  }
}
