/** Dispatching the agents of a state: one by one, or in bounded-parallel groups that
    run one after another. */
module StateDispatch {
  import opened Sequences

  datatype AgentRef = AgentRef(id: string, name: string)

  datatype Policy = Standard | FastPath

  /** `evaluateAgentBudget` for an agent that has a budget. */
  datatype BudgetVerdict = Blocked(reasons: string) | Allowed(policy: Policy)

  datatype InvokeResult = InvokeResult(success: bool, outputPath: Option<string>, error: string, degraded: bool)

  /** An invocation answers, or is aborted and throws. */
  datatype Invoked = Answered(result: InvokeResult) | Aborted(reason: string)

  datatype Record = Record(agent: AgentRef, result: InvokeResult)

  datatype OnFailure = ContinueOnFailure | AbortOnFailure | EscalateOnFailure

  /** Everything a dispatch of one state reads. `invoke` gets the agent, the predecessor
      paths, the execution policy and the agent's configuration. */
  datatype Env = Env(
    agents: seq<AgentRef>,
    capabilityRequirements: map<string, string>,
    capabilities: map<string, seq<string>>,
    availability: map<string, bool>,
    budgets: map<string, BudgetVerdict>,
    configs: map<string, int>,
    onFailure: OnFailure,
    invoke: (AgentRef, seq<string>, Policy, int) -> Invoked,
    priority: string -> real,
    keyLeq: (string, string) -> bool)

  const NO_CONFIG := 0

  // ----- Choosing the agent

  function FindAgent(agents: seq<AgentRef>, p: AgentRef -> bool): Option<AgentRef> {
    if agents == [] then None else if p(agents[0]) then Some(agents[0]) else FindAgent(agents[1..], p)
  }

  predicate Available(env: Env, id: string) {
    id in env.availability ==> env.availability[id]
  }

  predicate HasCapability(env: Env, id: string, capability: string) {
    id in env.capabilities && capability in env.capabilities[id]
  }

  /** `agentMap.get(id)`: with repeated ids the last agent wins. */
  function LastAgent(agents: seq<AgentRef>, id: string): Option<AgentRef> {
    if agents == [] then None
    else if agents[|agents| - 1].id == id then Some(agents[|agents| - 1])
    else LastAgent(agents[..|agents| - 1], id)
  }

  function Resolve(env: Env, requestedId: string): Option<AgentRef> {
    var requested := FindAgent(env.agents, (a: AgentRef) => a.id == requestedId);
    if requested.Some? && Available(env, requestedId) then requested
    else if requestedId !in env.capabilityRequirements || env.capabilityRequirements[requestedId] == "" then requested
    else
      var capability := env.capabilityRequirements[requestedId];
      FindAgent(env.agents, (a: AgentRef) => Available(env, a.id) && HasCapability(env, a.id, capability))
  }

  /** An agent is only ever replaced while it is unavailable and names a capability; the
      replacement is available and has that capability. */
  lemma {:induction false} SubstitutionIsJustified(env: Env, requestedId: string)
    ensures var requested := FindAgent(env.agents, (a: AgentRef) => a.id == requestedId);
            var chosen := Resolve(env, requestedId);
            chosen != requested ==>
              && (requested.None? || !Available(env, requestedId))
              && requestedId in env.capabilityRequirements
              && (chosen.Some? ==> chosen.value in env.agents && Available(env, chosen.value.id)
                                   && HasCapability(env, chosen.value.id, env.capabilityRequirements[requestedId]))
  {
    if requestedId in env.capabilityRequirements {
      var capability := env.capabilityRequirements[requestedId];
      FindAgentFinds(env.agents, (a: AgentRef) => Available(env, a.id) && HasCapability(env, a.id, capability));
    }
  }

  lemma {:induction false} FindAgentFinds(agents: seq<AgentRef>, p: AgentRef -> bool)
    ensures var found := FindAgent(agents, p);
            if found.Some? then found.value in agents && p(found.value) else forall a :: a in agents ==> !p(a)
  {
    if agents != [] {
      FindAgentFinds(agents[1..], p);
    }
  }

  // ----- One agent

  function ConfigOf(env: Env, requestedId: string, agentId: string): int {
    if requestedId in env.configs then env.configs[requestedId]
    else if agentId in env.configs then env.configs[agentId]
    else NO_CONFIG
  }

  function PolicyOf(env: Env, id: string): Policy {
    if id in env.budgets && env.budgets[id].Allowed? then env.budgets[id].policy else Standard
  }

  predicate IsBlocked(env: Env, id: string) {
    id in env.budgets && env.budgets[id].Blocked?
  }

  function BlockedResult(env: Env, id: string): InvokeResult
    requires IsBlocked(env, id)
  {
    InvokeResult(false, None, env.budgets[id].reasons, true)
  }

  /** Paths that a record adds for later agents: only a success with an output adds one. */
  function OutputOf(r: Record): seq<string> {
    if r.result.success && r.result.outputPath.Some? && r.result.outputPath.value != "" then [r.result.outputPath.value]
    else []
  }

  function OutputsOf(records: seq<Record>): seq<string> {
    if records == [] then [] else OutputsOf(records[..|records| - 1]) + OutputOf(records[|records| - 1])
  }

  // ----- The dispatch result

  datatype Status = Running | Stopped | Threw

  datatype Dispatch = Dispatch(
    completed: seq<string>,
    failed: seq<string>,
    results: seq<Record>,
    escalated: bool,
    paths: seq<string>,
    status: Status)

  function Begin(paths: seq<string>): Dispatch {
    Dispatch([], [], [], false, paths, Running)
  }

  /** Book one record, and stop after a failure if the mode says so. */
  function Book(env: Env, d: Dispatch, r: Record): Dispatch {
    if r.result.success then
      d.(completed := d.completed + [r.agent.id], results := d.results + [r], paths := d.paths + OutputOf(r))
    else
      d.(failed := d.failed + [r.agent.id],
         results := d.results + [r],
         escalated := d.escalated || env.onFailure == EscalateOnFailure,
         status := if env.onFailure == ContinueOnFailure then d.status else Stopped)
  }

  // ----- Sequential dispatch

  datatype Sequential = Sequential(dispatch: Dispatch, used: set<string>)

  function SequentialStep(env: Env, s: Sequential, requested: AgentRef): Sequential {
    var resolved := Resolve(env, requested.id);
    var agent := if resolved.Some? then resolved.value else requested;
    if s.dispatch.status != Running || agent.id in s.used then s
    else
      var used := s.used + {agent.id};
      if IsBlocked(env, agent.id) then Sequential(Book(env, s.dispatch, Record(agent, BlockedResult(env, agent.id))), used)
      else
        match env.invoke(agent, s.dispatch.paths, PolicyOf(env, agent.id), ConfigOf(env, requested.id, agent.id))
        case Answered(result) => Sequential(Book(env, s.dispatch, Record(agent, result)), used)
        case Aborted(_) => Sequential(s.dispatch.(status := Threw), used)
  }

  function SequentialRun(env: Env, n: nat, paths: seq<string>): Sequential
    requires n <= |env.agents|
  {
    if n == 0 then Sequential(Begin(paths), {})
    else SequentialStep(env, SequentialRun(env, n - 1, paths), env.agents[n - 1])
  }

  lemma {:induction false} SequentialStays(env: Env, n: nat, m: nat, paths: seq<string>)
    requires n <= m <= |env.agents| && SequentialRun(env, n, paths).dispatch.status != Running
    ensures SequentialRun(env, m, paths).dispatch == SequentialRun(env, n, paths).dispatch
    decreases m
  {
    if n < m {
      SequentialStays(env, n, m - 1, paths);
    }
  }

  method DispatchStateSequential(env: Env, predecessorPaths: seq<string>)
    returns (completed: seq<string>, failed: seq<string>, results: seq<Record>, escalated: bool, paths: seq<string>,
             status: Status)
    ensures Dispatch(completed, failed, results, escalated, paths, status)
            == SequentialRun(env, |env.agents|, predecessorPaths).dispatch
  {
    completed, failed, results, escalated, paths, status := [], [], [], false, predecessorPaths, Running;
    var used: set<string> := {};
    for i := 0 to |env.agents|
      invariant status == Running
      invariant Sequential(Dispatch(completed, failed, results, escalated, paths, status), used)
                == SequentialRun(env, i, predecessorPaths)
    {
      var requested := env.agents[i];
      ghost var next := SequentialRun(env, i + 1, predecessorPaths);
      var resolved := Resolve(env, requested.id);
      var agent := if resolved.Some? then resolved.value else requested;
      if agent.id in used {
        continue;
      }
      used := used + {agent.id};
      var result;
      if IsBlocked(env, agent.id) {
        result := BlockedResult(env, agent.id);
      } else {
        var invoked := env.invoke(agent, paths, PolicyOf(env, agent.id), ConfigOf(env, requested.id, agent.id));
        if invoked.Aborted? {
          status := Threw;
          SequentialStays(env, i + 1, |env.agents|, predecessorPaths);
          return;
        }
        result := invoked.result;
      }
      results := results + [Record(agent, result)];
      if result.success {
        completed := completed + [agent.id];
        paths := paths + OutputOf(Record(agent, result));
      } else {
        failed := failed + [agent.id];
        if env.onFailure != ContinueOnFailure {
          escalated := env.onFailure == EscalateOnFailure;
          status := Stopped;
          assert !SequentialRun(env, i, predecessorPaths).dispatch.escalated || escalated by {
            SequentialNotEscalated(env, i, predecessorPaths);
          }
          SequentialStays(env, i + 1, |env.agents|, predecessorPaths);
          return;
        }
      }
    }
  }

  lemma {:induction false} SequentialNotEscalated(env: Env, n: nat, paths: seq<string>)
    requires n <= |env.agents| && SequentialRun(env, n, paths).dispatch.status == Running
    ensures !SequentialRun(env, n, paths).dispatch.escalated
  {
    if n > 0 {
      SequentialNotEscalated(env, n - 1, paths);
    }
  }

  // ----- Parallel dispatch

  const UNKNOWN := AgentRef("unknown", "unknown")

  /** The record of one task of a group. Every task of a group reads the same paths, so
      the order in which the tasks run does not show in their records. */
  function TaskRecord(env: Env, agentId: string, paths: seq<string>): Record {
    var resolved := Resolve(env, agentId);
    var found := if resolved.Some? then resolved else LastAgent(env.agents, agentId);
    if found.None? then
      Record(AgentRef(agentId, agentId), InvokeResult(false, None, "not found in registry", false))
    else
      var agent := found.value;
      if IsBlocked(env, agent.id) then Record(agent, BlockedResult(env, agent.id))
      else
        var config := if agentId in env.configs then env.configs[agentId] else NO_CONFIG;
        match env.invoke(agent, paths, PolicyOf(env, agent.id), config)
        case Answered(result) => Record(agent, result)
        case Aborted(reason) => Record(UNKNOWN, InvokeResult(false, None, reason, false))
  }

  /** Falling priority, then rising id. */
  function PriorityOrder(env: Env): (string, string) -> bool {
    (x: string, y: string) => env.priority(x) > env.priority(y) || (env.priority(x) == env.priority(y) && env.keyLeq(x, y))
  }

  function OrderGroup(env: Env, group: seq<string>): seq<string> {
    StableSort(group, PriorityOrder(env))
  }

  function GroupRecords(env: Env, group: seq<string>, paths: seq<string>): seq<Record> {
    Map(OrderGroup(env, group), (id: string) => TaskRecord(env, id, paths))
  }

  /** Book the records of a group in order, up to a failure that stops the dispatch. */
  function BookAll(env: Env, d: Dispatch, records: seq<Record>): Dispatch {
    if records == [] then d
    else
      var before := BookAll(env, d, records[..|records| - 1]);
      if before.status != Running then before else Book(env, before, records[|records| - 1])
  }

  function ParallelRun(env: Env, groups: seq<seq<string>>, paths: seq<string>): Dispatch {
    if groups == [] then Begin(paths)
    else
      var before := ParallelRun(env, groups[..|groups| - 1], paths);
      if before.status != Running then before
      else BookAll(env, before, GroupRecords(env, groups[|groups| - 1], before.paths))
  }

  lemma {:induction false} BookAllStays(env: Env, d: Dispatch, records: seq<Record>, n: nat)
    requires n <= |records| && BookAll(env, d, records[..n]).status != Running
    ensures BookAll(env, d, records) == BookAll(env, d, records[..n])
    decreases |records| - n
  {
    if n == |records| {
      assert records[..n] == records;
    } else {
      assert records[..n + 1][..n] == records[..n];
      BookAllStays(env, d, records, n + 1);
    }
  }

  lemma {:induction false} ParallelStays(env: Env, groups: seq<seq<string>>, paths: seq<string>, n: nat)
    requires n <= |groups| && ParallelRun(env, groups[..n], paths).status != Running
    ensures ParallelRun(env, groups, paths) == ParallelRun(env, groups[..n], paths)
    decreases |groups| - n
  {
    if n == |groups| {
      assert groups[..n] == groups;
    } else {
      assert groups[..n + 1][..n] == groups[..n];
      ParallelStays(env, groups, paths, n + 1);
    }
  }

  /** The collecting loop over the records of one group. */
  method CollectGroup(env: Env, records: seq<Record>, d: Dispatch) returns (r: Dispatch, aborted: bool)
    requires d.status == Running
    ensures r == BookAll(env, d, records)
    ensures aborted <==> r.status != Running
  {
    r, aborted := d, false;
    for i := 0 to |records|
      invariant r == BookAll(env, d, records[..i]) && r.status == Running && !aborted
    {
      assert records[..i + 1][..i] == records[..i];
      r := Book(env, r, records[i]);
      if r.status != Running {
        BookAllStays(env, d, records, i + 1);
        return r, true;
      }
    }
    assert records[..|records|] == records;
  }

  method DispatchStateParallel(env: Env, groups: seq<seq<string>>, predecessorPaths: seq<string>)
    returns (dispatch: Dispatch)
    ensures dispatch == ParallelRun(env, groups, predecessorPaths)
  {
    dispatch := Begin(predecessorPaths);
    for g := 0 to |groups|
      invariant dispatch == ParallelRun(env, groups[..g], predecessorPaths) && dispatch.status == Running
    {
      assert groups[..g + 1][..g] == groups[..g];
      var records := GroupRecords(env, groups[g], dispatch.paths);
      var aborted;
      dispatch, aborted := CollectGroup(env, records, dispatch);
      if aborted {
        ParallelStays(env, groups, predecessorPaths, g + 1);
        return;
      }
    }
    assert groups[..|groups|] == groups;
  }

  // ----- Predecessor paths and conservation

  /** The agents of the records that succeeded, or of those that failed, in order. */
  function IdsWhere(results: seq<Record>, success: bool): seq<string> {
    if results == [] then []
    else
      var last := results[|results| - 1];
      IdsWhere(results[..|results| - 1], success) + (if last.result.success == success then [last.agent.id] else [])
  }

  ghost predicate Accounted(d: Dispatch, initial: seq<string>) {
    && d.paths == initial + OutputsOf(d.results)
    && d.completed == IdsWhere(d.results, true)
    && d.failed == IdsWhere(d.results, false)
  }

  lemma BookAccounted(env: Env, d: Dispatch, r: Record, initial: seq<string>)
    requires Accounted(d, initial)
    ensures Accounted(Book(env, d, r), initial)
  {
    var after := Book(env, d, r);
    assert after.results[..|after.results| - 1] == d.results;
    assert OutputsOf(after.results) == OutputsOf(d.results) + OutputOf(r);
  }

  lemma {:induction false} BookAllAccounted(env: Env, d: Dispatch, records: seq<Record>, initial: seq<string>)
    requires Accounted(d, initial)
    ensures Accounted(BookAll(env, d, records), initial)
  {
    if records != [] {
      BookAllAccounted(env, d, records[..|records| - 1], initial);
      BookAccounted(env, BookAll(env, d, records[..|records| - 1]), records[|records| - 1], initial);
    }
  }

  /** Whatever the groups and the failures, the paths a group gets are the initial ones
      followed by the outputs of all earlier successes, and every record is booked once. */
  lemma {:induction false} PredecessorPaths(env: Env, groups: seq<seq<string>>, initial: seq<string>)
    ensures Accounted(ParallelRun(env, groups, initial), initial)
  {
    if groups != [] {
      var before := ParallelRun(env, groups[..|groups| - 1], initial);
      PredecessorPaths(env, groups[..|groups| - 1], initial);
      if before.status == Running {
        BookAllAccounted(env, before, GroupRecords(env, groups[|groups| - 1], before.paths), initial);
      }
    }
  }

  // ----- Order within a group

  lemma PriorityOrderIsPreorder(env: Env)
    requires KeyOrder(env.keyLeq)
    ensures TotalPreorder(PriorityOrder(env))
  {
    var leq := PriorityOrder(env);
    forall a, b
      ensures leq(a, b) || leq(b, a)
    {
      assert env.keyLeq(a, b) || env.keyLeq(b, a);
    }
    forall a, b, c | leq(a, b) && leq(b, c)
      ensures leq(a, c)
    {
      assert env.keyLeq(a, b) && env.keyLeq(b, c) ==> env.keyLeq(a, c);
    }
  }

  /** A group runs its agents by falling priority, ties by id, whatever order it lists them in. */
  lemma GroupOrderIrrelevant(env: Env, group: seq<string>, shuffled: seq<string>, paths: seq<string>)
    requires KeyOrder(env.keyLeq) && multiset(group) == multiset(shuffled)
    ensures GroupRecords(env, group, paths) == GroupRecords(env, shuffled, paths)
    ensures var order := OrderGroup(env, group);
            && multiset(order) == multiset(group)
            && forall i, j :: 0 <= i < j < |order| ==>
                 env.priority(order[i]) > env.priority(order[j])
                 || (env.priority(order[i]) == env.priority(order[j]) && env.keyLeq(order[i], order[j]))
  {
    PriorityOrderIsPreorder(env);
    SortCanonical(group, shuffled, PriorityOrder(env));
    SortPermutes(group, PriorityOrder(env));
    SortSorted(group, PriorityOrder(env));
  }

  // ----- Refinement

  /** The agent that runs for `a`: itself, unless another one is found to stand in. */
  function Effective(env: Env, a: AgentRef): AgentRef {
    var resolved := Resolve(env, a.id);
    if resolved.Some? then resolved.value else a
  }

  /** Ids are distinct, nothing is aborted, and where another agent stands in, the two
      dispatch methods give it the same configuration. */
  ghost predicate Plain(env: Env) {
    && (forall i, j :: 0 <= i < j < |env.agents| ==> env.agents[i].id != env.agents[j].id)
    && (forall a :: a in env.agents ==>
          a.id in env.configs || Effective(env, a).id == a.id || Effective(env, a).id !in env.configs)
    && (forall a, b, paths, policy, config :: a in env.agents && b == Effective(env, a) ==>
          env.invoke(b, paths, policy, config).Answered?)
  }

  /** Of the first `n` agents none that the sequential loop comes to has the same one running for
      it as an earlier agent; the loop comes to those before its first stop. */
  ghost predicate Fresh(env: Env, paths: seq<string>, n: nat)
    requires n <= |env.agents|
  {
    forall i, j :: 0 <= i < j < n && SequentialRun(env, j, paths).dispatch.status == Running ==>
      Effective(env, env.agents[i]).id != Effective(env, env.agents[j]).id
  }

  /** No two agents of the registry have the same one running for them. */
  ghost predicate NoSharedAgent(env: Env) {
    forall i, j :: 0 <= i < j < |env.agents| ==> Effective(env, env.agents[i]).id != Effective(env, env.agents[j]).id
  }

  lemma {:induction false} LastAgentFinds(agents: seq<AgentRef>, k: nat)
    requires k < |agents| && forall i, j :: 0 <= i < j < |agents| ==> agents[i].id != agents[j].id
    ensures LastAgent(agents, agents[k].id) == Some(agents[k])
  {
    if k < |agents| - 1 {
      LastAgentFinds(agents[..|agents| - 1], k);
    }
  }

  /** One singleton group per agent, in registry order. */
  function Singletons(agents: seq<AgentRef>): seq<seq<string>> {
    Map(agents, (a: AgentRef) => [a.id])
  }

  lemma SingletonRecords(env: Env, a: AgentRef, paths: seq<string>)
    ensures GroupRecords(env, [a.id], paths) == [TaskRecord(env, a.id, paths)]
  {
    SortSingleton(a.id, PriorityOrder(env));
  }

  lemma {:induction false} UsedSoFar(env: Env, n: nat, paths: seq<string>)
    requires n <= |env.agents|
    ensures forall id :: id in SequentialRun(env, n, paths).used ==>
              exists k :: 0 <= k < n && Effective(env, env.agents[k]).id == id
  {
    if n > 0 {
      hide Resolve, Book, IsBlocked;
      UsedSoFar(env, n - 1, paths);
    }
  }

  /** The record of an agent's own task is about the agent that runs for it. */
  lemma TaskOfAgent(env: Env, k: nat, paths: seq<string>)
    requires Plain(env) && k < |env.agents|
    ensures var a, agent := env.agents[k], Effective(env, env.agents[k]);
            TaskRecord(env, a.id, paths) ==
            if IsBlocked(env, agent.id) then Record(agent, BlockedResult(env, agent.id))
            else Record(agent, env.invoke(agent, paths, PolicyOf(env, agent.id), ConfigOf(env, a.id, agent.id)).result)
  {
    hide Resolve;
    LastAgentFinds(env.agents, k);
    assert env.agents[k] in env.agents;
  }

  /** Booking the one record of an agent's own group is that agent's sequential step. */
  lemma SingletonStep(env: Env, before: Sequential, k: nat)
    requires Plain(env) && k < |env.agents| && before.dispatch.status == Running
    requires Effective(env, env.agents[k]).id !in before.used
    ensures BookAll(env, before.dispatch, GroupRecords(env, [env.agents[k].id], before.dispatch.paths)) ==
            SequentialStep(env, before, env.agents[k]).dispatch
  {
    hide GroupRecords, Resolve, Book, TaskRecord, PolicyOf, ConfigOf;
    var a := env.agents[k];
    assert a in env.agents;
    SingletonRecords(env, a, before.dispatch.paths);
    TaskOfAgent(env, k, before.dispatch.paths);
    var r := TaskRecord(env, a.id, before.dispatch.paths);
    assert [r][..0] == [];
  }

  lemma NotUsedYet(env: Env, n: nat, paths: seq<string>)
    requires n < |env.agents| && Fresh(env, paths, n + 1) && SequentialRun(env, n, paths).dispatch.status == Running
    ensures Effective(env, env.agents[n]).id !in SequentialRun(env, n, paths).used
  {
    hide SequentialRun, Effective;
    UsedSoFar(env, n, paths);
  }

  lemma SingletonsSnoc(agents: seq<AgentRef>, n: nat)
    requires n < |agents|
    ensures Singletons(agents[..n + 1]) == Singletons(agents[..n]) + [[agents[n].id]]
  {
  }

  lemma {:induction false} SingletonGroupsPrefix(env: Env, n: nat, paths: seq<string>)
    requires Plain(env) && n <= |env.agents| && Fresh(env, paths, n)
    ensures ParallelRun(env, Singletons(env.agents[..n]), paths) == SequentialRun(env, n, paths).dispatch
  {
    hide Plain, Singletons, GroupRecords, BookAll, Effective;
    if n == 0 {
      assert Singletons(env.agents[..0]) == [] by { SingletonsEmpty(env.agents); }
    } else {
      var before := SequentialRun(env, n - 1, paths);
      SingletonGroupsPrefix(env, n - 1, paths);
      SingletonsSnoc(env.agents, n - 1);
      var groups := Singletons(env.agents[..n]);
      assert groups[..|groups| - 1] == Singletons(env.agents[..n - 1]);
      if before.dispatch.status == Running {
        NotUsedYet(env, n - 1, paths);
        SingletonStep(env, before, n - 1);
      }
    }
  }

  lemma SingletonsEmpty(agents: seq<AgentRef>)
    ensures Singletons(agents[..0]) == []
  {
  }

  // ----- Shared agents

  /** A loop that is still running has used the agent of everyone before. */
  lemma {:induction false} AllUsed(env: Env, n: nat, paths: seq<string>)
    requires n <= |env.agents| && SequentialRun(env, n, paths).dispatch.status == Running
    ensures forall k :: 0 <= k < n ==> Effective(env, env.agents[k]).id in SequentialRun(env, n, paths).used
  {
    if n > 0 {
      hide Resolve, IsBlocked;
      AllUsed(env, n - 1, paths);
    }
  }

  /** What the loop books after the first `n` agents is about agents not used by then. */
  lemma {:induction false} BooksUnused(env: Env, n: nat, m: nat, paths: seq<string>)
    requires n <= m <= |env.agents|
    ensures var s, t := SequentialRun(env, n, paths), SequentialRun(env, m, paths);
            && s.used <= t.used && |s.dispatch.results| <= |t.dispatch.results|
            && forall k :: |s.dispatch.results| <= k < |t.dispatch.results| ==> t.dispatch.results[k].agent.id !in s.used
    decreases m
  {
    if n < m {
      hide Resolve, IsBlocked;
      BooksUnused(env, n, m - 1, paths);
    }
  }

  lemma {:induction false} BookAllExtends(env: Env, d: Dispatch, records: seq<Record>)
    ensures d.results <= BookAll(env, d, records).results
  {
    if records != [] {
      BookAllExtends(env, d, records[..|records| - 1]);
    }
  }

  lemma {:induction false} ParallelExtends(env: Env, groups: seq<seq<string>>, paths: seq<string>, n: nat)
    requires n <= |groups|
    ensures ParallelRun(env, groups[..n], paths).results <= ParallelRun(env, groups, paths).results
    decreases |groups|
  {
    hide GroupRecords, BookAll;
    if n == |groups| {
      assert groups[..n] == groups;
    } else {
      var init := groups[..|groups| - 1];
      assert init[..n] == groups[..n];
      ParallelExtends(env, init, paths, n);
      var before := ParallelRun(env, init, paths);
      BookAllExtends(env, before, GroupRecords(env, groups[|groups| - 1], before.paths));
    }
  }

  /** The group of agent `n` books a record about the agent that runs for it, used or not. */
  lemma GroupOfOneBooks(env: Env, n: nat, paths: seq<string>)
    requires Plain(env) && n < |env.agents|
    requires var d := ParallelRun(env, Singletons(env.agents[..n]), paths); d.status == Running
    ensures var d := ParallelRun(env, Singletons(env.agents[..n]), paths);
            var after := ParallelRun(env, Singletons(env.agents[..n + 1]), paths);
            && |after.results| == |d.results| + 1
            && after.results[|d.results|].agent.id == Effective(env, env.agents[n]).id
  {
    hide GroupRecords, TaskRecord, Singletons, Effective;
    var d, a := ParallelRun(env, Singletons(env.agents[..n]), paths), env.agents[n];
    SingletonsSnoc(env.agents, n);
    var groups := Singletons(env.agents[..n + 1]);
    assert groups[..|groups| - 1] == Singletons(env.agents[..n]);
    SingletonRecords(env, a, d.paths);
    TaskOfAgent(env, n, d.paths);
    var r := TaskRecord(env, a.id, d.paths);
    assert [r][..0] == [] && groups[|groups| - 1] == [a.id];
    assert ParallelRun(env, groups, paths) == BookAll(env, d, [r]);
    assert BookAll(env, d, [r][..0]) == d;
    assert BookAll(env, d, [r]) == Book(env, d, r);
  }

  lemma SingletonsPrefix(agents: seq<AgentRef>, n: nat)
    requires n <= |agents|
    ensures |Singletons(agents)| == |agents| && Singletons(agents)[..n] == Singletons(agents[..n])
  {
  }

  /** The first agent that the loop comes to but has used already makes the difference: its
      group books a record for it, the loop never books one about it again. */
  lemma SharedDiffers(env: Env, paths: seq<string>, i: nat, j: nat)
    requires Plain(env) && i < j < |env.agents| && Fresh(env, paths, j)
    requires SequentialRun(env, j, paths).dispatch.status == Running
    requires Effective(env, env.agents[i]).id == Effective(env, env.agents[j]).id
    ensures ParallelRun(env, Singletons(env.agents), paths) != SequentialRun(env, |env.agents|, paths).dispatch
  {
    hide Plain, Effective, Singletons, SequentialRun, ParallelRun, Fresh;
    SingletonGroupsPrefix(env, j, paths);
    GroupOfOneBooks(env, j, paths);
    SingletonsPrefix(env.agents, j + 1);
    ParallelExtends(env, Singletons(env.agents), paths, j + 1);
    AllUsed(env, j, paths);
    BooksUnused(env, j, |env.agents|, paths);
  }

  lemma {:induction false} FirstShared(env: Env, paths: seq<string>, n: nat) returns (i: nat, j: nat)
    requires n <= |env.agents| && !Fresh(env, paths, n)
    ensures i < j < n && Fresh(env, paths, j) && SequentialRun(env, j, paths).dispatch.status == Running
    ensures Effective(env, env.agents[i]).id == Effective(env, env.agents[j]).id
  {
    hide SequentialRun, Effective;
    if Fresh(env, paths, n - 1) {
      var k, l :| 0 <= k < l < n && SequentialRun(env, l, paths).dispatch.status == Running &&
                  Effective(env, env.agents[k]).id == Effective(env, env.agents[l]).id;
      i, j := k, l;
    } else {
      i, j := FirstShared(env, paths, n - 1);
    }
  }

  /** With one agent per group the parallel dispatch is the sequential one, in every failure
      mode, if and only if no agent that the sequential loop comes to before it stops has the
      same one running for it as an earlier agent: the loop skips it, its group does not. */
  lemma SingletonGroupsAreSequentialIff(env: Env, paths: seq<string>)
    requires Plain(env)
    ensures ParallelRun(env, Singletons(env.agents), paths) == SequentialRun(env, |env.agents|, paths).dispatch
            <==> Fresh(env, paths, |env.agents|)
  {
    hide Effective, Plain, ParallelRun, SequentialRun, Singletons, Fresh;
    if Fresh(env, paths, |env.agents|) {
      SingletonGroupsPrefix(env, |env.agents|, paths);
      assert env.agents[..|env.agents|] == env.agents;
    } else {
      var i, j := FirstShared(env, paths, |env.agents|);
      SharedDiffers(env, paths, i, j);
    }
  }

  lemma {:induction false} NeverStops(env: Env, n: nat, paths: seq<string>)
    requires Plain(env) && env.onFailure == ContinueOnFailure && n <= |env.agents|
    ensures SequentialRun(env, n, paths).dispatch.status == Running
  {
    if n > 0 {
      hide Resolve, IsBlocked;
      assert env.agents[n - 1] in env.agents;
      NeverStops(env, n - 1, paths);
    }
  }

  /** So they agree in every mode if no two agents have the same one running for them, and only
      then if failures do not stop the dispatch. */
  lemma SingletonGroupsAreSequential(env: Env, paths: seq<string>)
    requires Plain(env)
    ensures var agree := ParallelRun(env, Singletons(env.agents), paths) == SequentialRun(env, |env.agents|, paths).dispatch;
            && (NoSharedAgent(env) ==> agree)
            && (env.onFailure == ContinueOnFailure ==> (agree <==> NoSharedAgent(env)))
  {
    hide Effective, Plain, ParallelRun, SequentialRun, Singletons;
    SingletonGroupsAreSequentialIff(env, paths);
    if env.onFailure == ContinueOnFailure {
      forall n | 0 <= n < |env.agents|
        ensures SequentialRun(env, n, paths).dispatch.status == Running
      {
        NeverStops(env, n, paths);
      }
    }
  }
}
