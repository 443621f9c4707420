/** Who runs for a requested agent, in terms of the registry and what is said about its agents. */
module StandIns {
  import opened Sequences
  import opened StateDispatch

  predicate Away(env: Env, id: string) {
    id in env.availability && env.availability[id] == false
  }

  ghost predicate Listed(env: Env, id: string) {
    exists k :: 0 <= k < |env.agents| && env.agents[k].id == id
  }

  predicate NeedsCapability(env: Env, id: string) {
    id in env.capabilityRequirements && env.capabilityRequirements[id] != ""
  }

  /** The agent is not away and has what `id` needs. */
  predicate CanStandIn(env: Env, id: string, agent: AgentRef)
    requires NeedsCapability(env, id)
  {
    !Away(env, agent.id) && agent.id in env.capabilities && env.capabilityRequirements[id] in env.capabilities[agent.id]
  }

  ghost predicate Replaceable(env: Env, id: string)
    requires NeedsCapability(env, id)
  {
    exists k :: 0 <= k < |env.agents| && CanStandIn(env, id, env.agents[k])
  }

  ghost predicate FirstListed(env: Env, id: string, agent: AgentRef) {
    exists k :: 0 <= k < |env.agents| && env.agents[k] == agent && agent.id == id
                && forall j :: 0 <= j < k ==> env.agents[j].id != id
  }

  ghost predicate FirstStandIn(env: Env, id: string, agent: AgentRef)
    requires NeedsCapability(env, id)
  {
    exists k :: 0 <= k < |env.agents| && env.agents[k] == agent && CanStandIn(env, id, agent)
                && forall j :: 0 <= j < k ==> !CanStandIn(env, id, env.agents[j])
  }

  lemma {:induction false} FindsFirst(agents: seq<AgentRef>, p: AgentRef -> bool)
    ensures match FindAgent(agents, p)
            case Some(a) => exists k :: 0 <= k < |agents| && agents[k] == a && p(a) && forall j :: 0 <= j < k ==> !p(agents[j])
            case None => forall j :: 0 <= j < |agents| ==> !p(agents[j])
  {
    if agents != [] {
      FindsFirst(agents[1..], p);
      if !p(agents[0]) {
        match FindAgent(agents[1..], p)
        case Some(a) =>
          var k :| 0 <= k < |agents[1..]| && agents[1..][k] == a && p(a) && forall j :: 0 <= j < k ==> !p(agents[1..][j]);
          assert agents[k + 1] == a;
          assert forall j :: 0 <= j < k + 1 ==> !p(agents[j]);
        case None =>
          assert forall j :: 0 <= j < |agents| ==> j == 0 || agents[j] == agents[1..][j - 1];
      }
    }
  }

  /** A listed agent that is not away runs itself, and so does one that needs no capability;
      otherwise the first of the registry runs that is not away and has the capability. */
  ghost predicate RunsFor(env: Env, id: string, chosen: Option<AgentRef>) {
    if Listed(env, id) && (!Away(env, id) || !NeedsCapability(env, id)) then
      chosen.Some? && FirstListed(env, id, chosen.value)
    else if NeedsCapability(env, id) && Replaceable(env, id) then
      chosen.Some? && FirstStandIn(env, id, chosen.value)
    else chosen == None
  }

  lemma ResolveIsExact(env: Env, id: string)
    ensures RunsFor(env, id, Resolve(env, id))
  {
    FindsFirst(env.agents, (a: AgentRef) => a.id == id);
    if NeedsCapability(env, id) {
      var capability := env.capabilityRequirements[id];
      FindsFirst(env.agents, (a: AgentRef) => Available(env, a.id) && HasCapability(env, a.id, capability));
    }
  }

  lemma OneRunsFor(env: Env, id: string, a: Option<AgentRef>, b: Option<AgentRef>)
    requires RunsFor(env, id, a) && RunsFor(env, id, b)
    ensures a == b
  {
  }

  // ----- What is booked

  /** What running `agent` comes to: nothing but a degraded failure when its budget blocks it. */
  function Ran(env: Env, agent: AgentRef, paths: seq<string>, config: int): Invoked {
    var budget := if agent.id in env.budgets then Some(env.budgets[agent.id]) else None;
    if budget.Some? && budget.value.Blocked? then Answered(InvokeResult(false, None, budget.value.reasons, true))
    else env.invoke(agent, paths, if budget == Some(Allowed(FastPath)) then FastPath else Standard, config)
  }

  lemma RanIsInvoked(env: Env, agent: AgentRef, paths: seq<string>, config: int)
    ensures Ran(env, agent, paths, config) ==
            if IsBlocked(env, agent.id) then Answered(BlockedResult(env, agent.id))
            else env.invoke(agent, paths, PolicyOf(env, agent.id), config)
  {
    if agent.id in env.budgets && env.budgets[agent.id].Allowed? {
      assert env.budgets[agent.id].policy == Standard || env.budgets[agent.id].policy == FastPath;
    }
  }

  /** The agent that runs for `id` in a group: whoever `RunsFor` names, or the last one listed. */
  ghost predicate TaskAgent(env: Env, id: string, agent: AgentRef) {
    RunsFor(env, id, Some(agent)) ||
    (RunsFor(env, id, None) && exists k :: 0 <= k < |env.agents| && env.agents[k] == agent && agent.id == id
                                          && forall j :: k < j < |env.agents| ==> env.agents[j].id != id)
  }

  lemma {:induction false} LastIsLast(agents: seq<AgentRef>, id: string)
    ensures match LastAgent(agents, id)
            case Some(a) => exists k :: 0 <= k < |agents| && agents[k] == a && a.id == id
                                        && forall j :: k < j < |agents| ==> agents[j].id != id
            case None => forall j :: 0 <= j < |agents| ==> agents[j].id != id
  {
    if agents != [] && agents[|agents| - 1].id != id {
      LastIsLast(agents[..|agents| - 1], id);
    }
  }

  /** The record that the task of `id` books when `agent` runs for it. */
  ghost predicate TaskAnswer(env: Env, id: string, paths: seq<string>, agent: AgentRef, r: Record) {
    match Ran(env, agent, paths, if id in env.configs then env.configs[id] else NO_CONFIG)
    case Answered(result) => r == Record(agent, result)
    case Aborted(reason) => r == Record(UNKNOWN, InvokeResult(false, None, reason, false))
  }

  /** The record that the task of an id books: an id nobody runs for fails; otherwise it is about
      the agent that runs for it, and has that agent's answer. */
  lemma TaskBooks(env: Env, id: string, paths: seq<string>)
    ensures var r := TaskRecord(env, id, paths);
            if exists agent :: TaskAgent(env, id, agent) then
              exists agent :: TaskAgent(env, id, agent) && TaskAnswer(env, id, paths, agent, r)
            else r == Record(AgentRef(id, id), InvokeResult(false, None, "not found in registry", false)) && !Listed(env, id)
  {
    ResolveIsExact(env, id);
    LastIsLast(env.agents, id);
    hide RunsFor, Resolve;
    var resolved := Resolve(env, id);
    var found := if resolved.Some? then resolved else LastAgent(env.agents, id);
    if found.Some? {
      assert TaskAgent(env, id, found.value);
      RanIsInvoked(env, found.value, paths, if id in env.configs then env.configs[id] else NO_CONFIG);
      assert TaskAnswer(env, id, paths, found.value, TaskRecord(env, id, paths));
    } else {
      forall agent
        ensures !TaskAgent(env, id, agent)
      {
        if RunsFor(env, id, Some(agent)) {
          OneRunsFor(env, id, Some(agent), None);
        }
      }
    }
  }

  /** The agent that runs for `requested` in the sequential loop. */
  ghost predicate StepAgent(env: Env, requested: AgentRef, agent: AgentRef) {
    RunsFor(env, requested.id, Some(agent)) || (RunsFor(env, requested.id, None) && agent == requested)
  }

  /** The step of the loop when `agent` runs for `requested`: nothing for an agent that has been
      used; otherwise its answer is booked, and a failure stops the loop if the mode says so. */
  ghost predicate StepAnswer(env: Env, s: Sequential, requested: AgentRef, agent: AgentRef, next: Sequential) {
    var config := if requested.id in env.configs then env.configs[requested.id]
                  else if agent.id in env.configs then env.configs[agent.id] else NO_CONFIG;
    if agent.id in s.used then next == s
    else
      && next.used == s.used + {agent.id}
      && match Ran(env, agent, s.dispatch.paths, config)
         case Answered(result) =>
           && next.dispatch.results == s.dispatch.results + [Record(agent, result)]
           && (next.dispatch.status == Running <==> result.success || env.onFailure == ContinueOnFailure)
           && (next.dispatch.escalated <==> s.dispatch.escalated || (!result.success && env.onFailure == EscalateOnFailure))
         case Aborted(_) => next.dispatch == s.dispatch.(status := Threw)
  }

  /** The sequential loop books the answer of an agent it comes to, unless it has used it. */
  lemma StepBooks(env: Env, s: Sequential, requested: AgentRef)
    requires s.dispatch.status == Running
    ensures exists agent :: StepAgent(env, requested, agent) &&
              StepAnswer(env, s, requested, agent, SequentialStep(env, s, requested))
  {
    ResolveIsExact(env, requested.id);
    hide RunsFor, Resolve;
    assert StepAgent(env, requested, Effective(env, requested));
    RanIsInvoked(env, Effective(env, requested), s.dispatch.paths, ConfigOf(env, requested.id, Effective(env, requested).id));
    assert StepAnswer(env, s, requested, Effective(env, requested), SequentialStep(env, s, requested));
  }

  /** The paths of some records are exactly the outputs, if not empty, of their successes. */
  lemma {:induction false} OutputsAreOfSuccesses(records: seq<Record>, path: string)
    ensures path in OutputsOf(records) <==>
            path != "" && exists k :: 0 <= k < |records| && records[k].result.success && records[k].result.outputPath == Some(path)
  {
    if records != [] {
      var init, last := records[..|records| - 1], records[|records| - 1];
      OutputsAreOfSuccesses(init, path);
      assert forall k :: 0 <= k < |init| ==> init[k] == records[k];
      if path in OutputsOf(init) {
        var k :| 0 <= k < |init| && init[k].result.success && init[k].result.outputPath == Some(path);
        assert records[k].result.success;
      }
      if path != "" && last.result.success && last.result.outputPath == Some(path) {
        assert records[|records| - 1].result.success;
      }
    }
  }

  // ----- Nobody who is away runs while someone can stand in

  ghost predicate Justified(env: Env, r: Record) {
    Away(env, r.agent.id) && Listed(env, r.agent.id) && r.agent != UNKNOWN && NeedsCapability(env, r.agent.id) ==>
      !Replaceable(env, r.agent.id)
  }

  ghost predicate AllJustified(env: Env, records: seq<Record>) {
    forall k :: 0 <= k < |records| ==> Justified(env, records[k])
  }

  lemma ChosenIsJustified(env: Env, id: string, agent: AgentRef, result: InvokeResult)
    requires RunsFor(env, id, Some(agent)) || (RunsFor(env, id, None) && agent.id == id)
    ensures Justified(env, Record(agent, result))
  {
  }

  lemma TaskIsJustified(env: Env, id: string, paths: seq<string>)
    ensures Justified(env, TaskRecord(env, id, paths))
  {
    TaskBooks(env, id, paths);
    var r := TaskRecord(env, id, paths);
    if r.agent != UNKNOWN && exists agent :: TaskAgent(env, id, agent) {
      ChosenIsJustified(env, id, r.agent, r.result);
    }
  }

  lemma {:induction false} BookAllIsJustified(env: Env, d: Dispatch, records: seq<Record>)
    requires AllJustified(env, d.results) && AllJustified(env, records)
    ensures AllJustified(env, BookAll(env, d, records).results)
  {
    hide Justified;
    if records != [] {
      assert forall k :: 0 <= k < |records| - 1 ==> records[..|records| - 1][k] == records[k];
      BookAllIsJustified(env, d, records[..|records| - 1]);
    }
  }

  /** In neither dispatch is anyone run who is away and needs a capability that somebody has who
      is not. */
  lemma {:induction false} ParallelIsJustified(env: Env, groups: seq<seq<string>>, paths: seq<string>)
    ensures AllJustified(env, ParallelRun(env, groups, paths).results)
  {
    hide Justified, TaskRecord, BookAll, OrderGroup;
    if groups != [] {
      var init, group := groups[..|groups| - 1], groups[|groups| - 1];
      var before := ParallelRun(env, init, paths);
      ParallelIsJustified(env, init, paths);
      var records := GroupRecords(env, group, before.paths);
      forall k | 0 <= k < |records|
        ensures Justified(env, records[k])
      {
        TaskIsJustified(env, OrderGroup(env, group)[k], before.paths);
      }
      BookAllIsJustified(env, before, records);
    }
  }

  lemma {:induction false} SequentialIsJustified(env: Env, n: nat, paths: seq<string>)
    requires n <= |env.agents|
    ensures AllJustified(env, SequentialRun(env, n, paths).dispatch.results)
  {
    if n > 0 {
      hide RunsFor, Ran, Justified, SequentialStep;
      SequentialIsJustified(env, n - 1, paths);
      var s, requested := SequentialRun(env, n - 1, paths), env.agents[n - 1];
      if s.dispatch.status == Running {
        StepBooks(env, s, requested);
        var next := SequentialStep(env, s, requested);
        if next.dispatch.results != s.dispatch.results {
          var r := next.dispatch.results[|s.dispatch.results|];
          ChosenIsJustified(env, requested.id, r.agent, r.result);
        }
      } else {
        StoppedStays(env, s, requested);
      }
    }
  }

  lemma StoppedStays(env: Env, s: Sequential, requested: AgentRef)
    requires s.dispatch.status != Running
    ensures SequentialStep(env, s, requested) == s
  {
  }
}
