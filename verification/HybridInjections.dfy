/** Round-robin injection of agency agents into a hybrid plan. */
module HybridInjections {
  import opened Arithmetic
  import opened Sequences

  datatype Agent = Agent(id: string, name: string, score: int, domains: seq<string>)

  datatype InjectionPoint = InjectionPoint(atState: string, mandatory: bool)

  datatype Injection = Injection(atState: string, mandatory: bool, agents: seq<Agent>)

  // ----- Modular arithmetic

  lemma {:induction false} ModShift(x: nat, q: nat, n: nat)
    requires n > 0
    ensures (x + q * n) % n == x % n
  {
    if q > 0 {
      ModShift(x, q - 1, n);
      assert x + q * n == (x + (q - 1) * n) + n;
      ModPlus(x + (q - 1) * n, n);
    }
  }

  lemma AtLeastOnce(k: int, n: nat)
    requires k >= 1
    ensures k * n >= n
  {
  }

  lemma DivModUnique(q: int, r: nat, n: nat)
    requires r < n
    ensures (q * n + r) / n == q && (q * n + r) % n == r
  {
    var x := q * n + r;
    var d := x / n - q;
    assert x == x / n * n + x % n;
    assert d * n == x / n * n - q * n;
    if d >= 1 {
      AtLeastOnce(d, n);
    } else if d <= -1 {
      AtLeastOnce(-d, n);
    }
  }

  lemma ModPlus(x: nat, n: nat)
    requires n > 0
    ensures (x + n) % n == x % n && (x + n) / n == x / n + 1
  {
    assert x + n == (x / n + 1) * n + x % n;
    DivModUnique(x / n + 1, x % n, n);
  }

  lemma ModOfMod(t: nat, i: nat, n: nat)
    requires n > 0
    ensures (t % n + i) % n == (t + i) % n
  {
    ModShift(t % n + i, t / n, n);
    assert t % n + i + t / n * n == t + i;
  }

  lemma ModSucc(t: nat, n: nat)
    requires n > 0
    ensures (t + 1) % n == (if t % n == n - 1 then 0 else t % n + 1)
    ensures (t + 1) / n == t / n + (if t % n == n - 1 then 1 else 0)
  {
    if t % n == n - 1 {
      assert t + 1 == (t / n + 1) * n + 0;
      DivModUnique(t / n + 1, 0, n);
    } else {
      assert t + 1 == t / n * n + (t % n + 1);
      DivModUnique(t / n, t % n + 1, n);
    }
  }

  // ----- Selection

  /** `k` agents from position `t` of the endless round. */
  function Window(agents: seq<Agent>, t: nat, k: nat): (w: seq<Agent>)
    requires agents != []
    ensures |w| == k
    ensures forall i :: 0 <= i < k ==> w[i] == agents[(t + i) % |agents|]
  {
    seq(k, i requires 0 <= i < k => agents[(t + i) % |agents|])
  }

  /** Places of the round that `p` points have used. */
  function Start(p: nat, perPoint: nat): nat {
    if p == 0 then 0 else Start(p - 1, perPoint) + perPoint
  }

  /** Every point takes the places of the round that follow those of the points before it. */
  ghost predicate RoundRobin(points: seq<InjectionPoint>, agents: seq<Agent>, perPoint: nat, plan: seq<Injection>)
  {
    && |plan| == (if agents == [] then 0 else |points|)
    && forall p :: 0 <= p < |plan| ==>
         plan[p] == Injection(points[p].atState, points[p].mandatory,
                              Window(agents, Start(p, perPoint), Min(perPoint, |agents|)))
  }

  lemma WindowShift(agents: seq<Agent>, t: nat, k: nat)
    requires agents != []
    ensures Window(agents, t % |agents|, k) == Window(agents, t, k)
  {
    forall i | 0 <= i < k
      ensures Window(agents, t % |agents|, k)[i] == Window(agents, t, k)[i]
    {
      ModOfMod(t, i, |agents|);
    }
  }

  method SelectAgents(agents: seq<Agent>, offset: nat, maxAgentsPerInjection: nat) returns (selected: seq<Agent>)
    requires agents != []
    ensures selected == Window(agents, offset, Min(maxAgentsPerInjection, |agents|))
  {
    selected := [];
    for i := 0 to maxAgentsPerInjection
      invariant |selected| == i < |agents|
      invariant selected == Window(agents, offset, i)
    {
      selected := selected + [agents[(offset + i) % |agents|]];
      if |selected| >= |agents| {
        break;
      }
    }
  }

  method BuildHybridInjections(points: seq<InjectionPoint>, agents: seq<Agent>, maxAgentsPerInjection: nat)
    returns (plan: seq<Injection>)
    requires maxAgentsPerInjection >= 1
    ensures RoundRobin(points, agents, maxAgentsPerInjection, plan)
  {
    plan := [];
    if |agents| == 0 || |points| == 0 {
      return;
    }
    var offset := 0;
    for p := 0 to |points|
      invariant |plan| == p
      invariant offset == Start(p, maxAgentsPerInjection) % |agents|
      invariant RoundRobin(points[..p], agents, maxAgentsPerInjection, plan)
    {
      ghost var start := Start(p, maxAgentsPerInjection);
      var selected := SelectAgents(agents, offset, maxAgentsPerInjection);
      WindowShift(agents, start, Min(maxAgentsPerInjection, |agents|));
      ModOfMod(start, maxAgentsPerInjection, |agents|);
      offset := (offset + maxAgentsPerInjection) % |agents|;
      plan := plan + [Injection(points[p].atState, points[p].mandatory, selected)];
    }
    assert points[..|points|] == points;
  }

  // ----- Balance

  function Count(s: seq<Agent>, x: Agent): nat {
    if s == [] then 0 else Count(s[..|s| - 1], x) + if s[|s| - 1] == x then 1 else 0
  }

  /** How often agent `x` is injected. */
  function Usage(plan: seq<Injection>, x: Agent): nat {
    if plan == [] then 0 else Usage(plan[..|plan| - 1], x) + Count(plan[|plan| - 1].agents, x)
  }

  /** Turns of agent `a` among the first `t` places of the round. */
  function Turns(t: nat, n: nat, a: nat): nat
    requires a < n
  {
    if t == 0 then 0 else Turns(t - 1, n, a) + if (t - 1) % n == a then 1 else 0
  }

  lemma {:induction false} TurnsClosedForm(t: nat, n: nat, a: nat)
    requires a < n
    ensures Turns(t, n, a) == t / n + if a < t % n then 1 else 0
  {
    if t == 0 {
      DivModUnique(0, 0, n);
    } else {
      TurnsClosedForm(t - 1, n, a);
      ModSucc(t - 1, n);
    }
  }

  lemma {:induction false} WindowCount(agents: seq<Agent>, t: nat, k: nat, a: nat)
    requires Distinct(agents) && a < |agents|
    ensures Count(Window(agents, t, k), agents[a]) == Turns(t + k, |agents|, a) - Turns(t, |agents|, a)
  {
    if k > 0 {
      WindowCount(agents, t, k - 1, a);
      assert Window(agents, t, k)[..k - 1] == Window(agents, t, k - 1);
    }
  }

  lemma FullRound(t: nat, n: nat, a: nat)
    requires a < n
    ensures Turns(t + n, n, a) == Turns(t, n, a) + 1
  {
    TurnsClosedForm(t, n, a);
    TurnsClosedForm(t + n, n, a);
    ModPlus(t, n);
  }

  lemma PointCount(agents: seq<Agent>, m: nat, t: nat, a: nat)
    requires Distinct(agents) && a < |agents|
    ensures Count(Window(agents, t, Min(m, |agents|)), agents[a]) ==
            if m <= |agents| then Turns(t + m, |agents|, a) - Turns(t, |agents|, a) else 1
  {
    WindowCount(agents, t, Min(m, |agents|), a);
    FullRound(t, |agents|, a);
  }

  lemma UsageStep(plan: seq<Injection>, p: nat, x: Agent)
    requires 0 < p <= |plan|
    ensures Usage(plan[..p], x) == Usage(plan[..p - 1], x) + Count(plan[p - 1].agents, x)
  {
    assert plan[..p][..p - 1] == plan[..p - 1];
  }

  /** While `m <= n` the places taken so far are the first `Start(p, m)` of the round;
      otherwise every point takes everybody. */
  ghost predicate UsageShape(agents: seq<Agent>, m: nat, plan: seq<Injection>, p: nat, a: nat)
    requires a < |agents| && p <= |plan|
  {
    Usage(plan[..p], agents[a]) == if m <= |agents| then Turns(Start(p, m), |agents|, a) else p
  }

  lemma StartNext(p: nat, m: nat)
    ensures Start(p + 1, m) == Start(p, m) + m
  {
  }

  lemma UsageShapeStep(agents: seq<Agent>, m: nat, plan: seq<Injection>, p: nat, a: nat)
    requires Distinct(agents) && a < |agents| && p < |plan|
    requires plan[p].agents == Window(agents, Start(p, m), Min(m, |agents|))
    requires UsageShape(agents, m, plan, p, a)
    ensures UsageShape(agents, m, plan, p + 1, a)
  {
    hide Usage, Turns, Count, Distinct, Start;
    UsageStep(plan, p + 1, agents[a]);
    PointCount(agents, m, Start(p, m), a);
    StartNext(p, m);
  }

  ghost predicate TakesWindow(agents: seq<Agent>, m: nat, plan: seq<Injection>, p: nat)
    requires agents != [] && p < |plan|
  {
    plan[p].agents == Window(agents, Start(p, m), Min(m, |agents|))
  }

  lemma {:induction false} UsageIsTurns(agents: seq<Agent>, m: nat, plan: seq<Injection>, p: nat, a: nat)
    requires Distinct(agents) && a < |agents| && p <= |plan|
    requires forall q :: 0 <= q < |plan| ==> TakesWindow(agents, m, plan, q)
    ensures UsageShape(agents, m, plan, p, a)
    decreases p
  {
    if p == 0 {
      assert plan[..0] == [];
    } else {
      UsageIsTurns(agents, m, plan, p - 1, a);
      assert TakesWindow(agents, m, plan, p - 1);
      UsageShapeStep(agents, m, plan, p - 1, a);
    }
  }

  lemma TurnsBalanced(t: nat, n: nat, a: nat, b: nat)
    requires a < n && b < n
    ensures Turns(t, n, a) <= Turns(t, n, b) + 1
  {
    TurnsClosedForm(t, n, a);
    TurnsClosedForm(t, n, b);
  }

  /** Each point gets `min(m, n)` different agents. */
  lemma EachPointDistinct(points: seq<InjectionPoint>, agents: seq<Agent>, m: nat, plan: seq<Injection>, p: nat)
    requires RoundRobin(points, agents, m, plan) && Distinct(agents) && p < |plan|
    ensures |plan[p].agents| == Min(m, |agents|) && Distinct(plan[p].agents)
  {
    var n, t := |agents|, Start(p, m);
    forall i, j | 0 <= i < j < |plan[p].agents|
      ensures plan[p].agents[i] != plan[p].agents[j]
    {
      ModOfMod(t + i, j - i, n);
      WithinOneTurn((t + i) % n, j - i, n);
      assert t + i + (j - i) == t + j;
      assert (t + i) % n != (t + j) % n;
    }
  }

  lemma WithinOneTurn(r: nat, d: nat, n: nat)
    requires r < n && 0 < d < n
    ensures (r + d) % n != r
  {
    if r + d >= n {
      ModPlus(r + d - n, n);
    }
  }

  /** Over any number of points no agent is used more than once more than another. */
  lemma BalancedUsage(points: seq<InjectionPoint>, agents: seq<Agent>, m: nat, plan: seq<Injection>, a: nat, b: nat)
    requires RoundRobin(points, agents, m, plan) && Distinct(agents) && a < |agents| && b < |agents|
    ensures Usage(plan, agents[a]) <= Usage(plan, agents[b]) + 1
  {
    UsageIsTurns(agents, m, plan, |plan|, a);
    UsageIsTurns(agents, m, plan, |plan|, b);
    assert plan[..|plan|] == plan;
    TurnsBalanced(Start(|plan|, m), |agents|, a, b);
  }
}
