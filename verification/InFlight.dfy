/** Invocations in flight: each asks the budget gate before it runs and reports its usage
    when it is done, in any interleaving with others. */
module InFlight {
  import opened Arithmetic
  import opened Sequences
  import opened Finops

  /** An invocation that the gate has let through and that has not reported yet. */
  datatype Grant = Grant(sessionId: string, workflowId: string, estimate: Estimate)

  datatype Flight = Flight(rows: seq<UsageRecord>, pending: seq<Grant>)

  datatype Event =
    | Ask(grant: Grant)
    | Report(i: nat, row: UsageRecord, readOk: bool)
    | Abandon(i: nat)

  function Without(pending: seq<Grant>, i: nat): seq<Grant>
    requires i < |pending|
  {
    pending[..i] + pending[i + 1..]
  }

  /** A report is for its grant's session and workflow and within its grant's estimate. */
  predicate Enabled(f: Flight, event: Event) {
    match event
    case Ask(_) => true
    case Abandon(i) => i < |f.pending|
    case Report(i, row, _) =>
      && i < |f.pending|
      && row.sessionId == f.pending[i].sessionId && row.workflowId == f.pending[i].workflowId
      && 0 <= row.totalTokens <= f.pending[i].estimate.totalTokens
      && 0.0 <= row.costUsd <= f.pending[i].estimate.estimatedCostUsd
  }

  function Apply(f: Flight, c: Ceilings, event: Event): Flight
    requires Enabled(f, event)
  {
    match event
    case Ask(grant) =>
      if Gate(f.rows, c, grant.sessionId, grant.workflowId, grant.estimate) == Allowed
      then f.(pending := f.pending + [grant]) else f
    case Report(i, row, readOk) => Flight(RecordedOver(f.rows, row, readOk), Without(f.pending, i))
    case Abandon(i) => f.(pending := Without(f.pending, i))
  }

  /** At most `limit` invocations are in flight at any time. */
  ghost predicate IsFlight(f: Flight, c: Ceilings, limit: nat, events: seq<Event>)
    decreases events
  {
    && |f.pending| <= limit
    && (events != [] ==> Enabled(f, events[0]) && IsFlight(Apply(f, c, events[0]), c, limit, events[1..]))
  }

  ghost function After(f: Flight, c: Ceilings, limit: nat, events: seq<Event>): Flight
    requires IsFlight(f, c, limit, events)
    decreases events
  {
    if events == [] then f else After(Apply(f, c, events[0]), c, limit, events[1..])
  }

  // ----- What the grants promise

  function Promised(pending: seq<Grant>, q: Grant -> bool): int {
    if pending == [] then 0
    else (if q(pending[0]) then pending[0].estimate.totalTokens else 0) + Promised(pending[1..], q)
  }

  function PromisedUsd(pending: seq<Grant>, q: Grant -> bool): real {
    if pending == [] then 0.0
    else (if q(pending[0]) then pending[0].estimate.estimatedCostUsd else 0.0) + PromisedUsd(pending[1..], q)
  }

  function InSession(id: string): Grant -> bool { (g: Grant) => g.sessionId == id }

  function InWorkflow(id: string): Grant -> bool { (g: Grant) => g.workflowId == id }

  ghost predicate Small(g: Grant, maxTokens: nat, maxUsd: real) {
    0 <= g.estimate.totalTokens <= maxTokens && 0.0 <= g.estimate.estimatedCostUsd <= maxUsd
  }

  ghost predicate AllSmall(pending: seq<Grant>, maxTokens: nat, maxUsd: real) {
    forall i :: 0 <= i < |pending| ==> Small(pending[i], maxTokens, maxUsd)
  }

  function TimesUsd(k: nat, unit: real): real {
    if k == 0 then 0.0 else TimesUsd(k - 1, unit) + unit
  }

  lemma {:induction false} TimesUsdIsProduct(k: nat, unit: real)
    ensures TimesUsd(k, unit) == k as real * unit
  {
    if k > 0 {
      TimesUsdIsProduct(k - 1, unit);
      assert (k - 1) as real * unit + unit == k as real * unit;
    }
  }

  lemma {:induction false} TimesUsdMonotone(j: nat, k: nat, unit: real)
    requires j <= k && unit >= 0.0
    ensures 0.0 <= TimesUsd(j, unit) <= TimesUsd(k, unit)
  {
    if j < k {
      TimesUsdMonotone(j, k - 1, unit);
    } else if k > 0 {
      TimesUsdMonotone(j - 1, k - 1, unit);
    }
  }

  lemma {:induction false} PromisedBound(pending: seq<Grant>, q: Grant -> bool, maxTokens: nat, maxUsd: real)
    requires AllSmall(pending, maxTokens, maxUsd) && maxUsd >= 0.0
    ensures 0 <= Promised(pending, q) <= Times(|pending|, maxTokens)
    ensures 0.0 <= PromisedUsd(pending, q) <= TimesUsd(|pending|, maxUsd)
    decreases pending
  {
    if pending != [] {
      assert Small(pending[0], maxTokens, maxUsd);
      PromisedBound(pending[1..], q, maxTokens, maxUsd);
    }
  }

  lemma {:induction false} PromisedAppend(pending: seq<Grant>, more: seq<Grant>, q: Grant -> bool)
    ensures Promised(pending + more, q) == Promised(pending, q) + Promised(more, q)
    ensures PromisedUsd(pending + more, q) == PromisedUsd(pending, q) + PromisedUsd(more, q)
    decreases pending
  {
    if pending == [] {
      assert pending + more == more;
    } else {
      assert (pending + more)[1..] == pending[1..] + more;
      PromisedAppend(pending[1..], more, q);
    }
  }

  lemma PromisedOne(g: Grant, q: Grant -> bool)
    ensures Promised([g], q) == if q(g) then g.estimate.totalTokens else 0
    ensures PromisedUsd([g], q) == if q(g) then g.estimate.estimatedCostUsd else 0.0
  {
    assert [g][1..] == [];
  }

  lemma PromisedWithout(pending: seq<Grant>, i: nat, q: Grant -> bool)
    requires i < |pending|
    ensures Promised(pending, q) == Promised(Without(pending, i), q) + Promised([pending[i]], q)
    ensures PromisedUsd(pending, q) == PromisedUsd(Without(pending, i), q) + PromisedUsd([pending[i]], q)
  {
    hide Promised, PromisedUsd;
    var front, back := pending[..i], pending[i + 1..];
    assert pending == front + ([pending[i]] + back);
    PromisedAppend(front, [pending[i]] + back, q);
    PromisedAppend([pending[i]], back, q);
    PromisedAppend(front, back, q);
  }

  // ----- The invariant

  /** Recorded and promised spending together, for one session or workflow. */
  ghost predicate Covered(f: Flight, p: UsageRecord -> bool, q: Grant -> bool, tokens: real, usd: real) {
    && (Tokens(f.rows, p) + Promised(f.pending, q)) as real <= tokens
    && Cost(f.rows, p) + PromisedUsd(f.pending, q) <= usd
  }

  lemma ReportCovers(f: Flight, i: nat, row: UsageRecord, readOk: bool, p: UsageRecord -> bool, q: Grant -> bool, tokens: real, usd: real)
    requires NonNegative(f.rows) && Enabled(f, Report(i, row, readOk)) && Covered(f, p, q, tokens, usd)
    requires p(row) == q(f.pending[i])
    ensures Covered(Flight(RecordedOver(f.rows, row, readOk), Without(f.pending, i)), p, q, tokens, usd)
  {
    hide Tokens, Cost, Promised, PromisedUsd, RecordedOver, Without;
    PromisedWithout(f.pending, i, q);
    PromisedOne(f.pending[i], q);
    RecordedTotals(f.rows, row, readOk, p);
  }

  lemma AbandonCovers(f: Flight, i: nat, p: UsageRecord -> bool, q: Grant -> bool, tokens: real, usd: real)
    requires i < |f.pending| && Covered(f, p, q, tokens, usd)
    requires f.pending[i].estimate.totalTokens >= 0 && f.pending[i].estimate.estimatedCostUsd >= 0.0
    ensures Covered(f.(pending := Without(f.pending, i)), p, q, tokens, usd)
  {
    hide Tokens, Cost, Promised, PromisedUsd, Without;
    PromisedWithout(f.pending, i, q);
    PromisedOne(f.pending[i], q);
  }

  /** A new grant fits under the ceiling alone; the others may come on top of it. */
  lemma AskCovers(f: Flight, g: Grant, p: UsageRecord -> bool, q: Grant -> bool, tokens: real, usd: real,
                  others: nat, maxTokens: nat, maxUsd: real)
    requires AllSmall(f.pending, maxTokens, maxUsd) && |f.pending| <= others && maxUsd >= 0.0
    requires Covered(f, p, q, tokens + Times(others, maxTokens) as real, usd + TimesUsd(others, maxUsd))
    requires q(g) ==> (Tokens(f.rows, p) + g.estimate.totalTokens) as real <= tokens
                      && Cost(f.rows, p) + g.estimate.estimatedCostUsd <= usd
    ensures Covered(f.(pending := f.pending + [g]), p, q, tokens + Times(others, maxTokens) as real,
                    usd + TimesUsd(others, maxUsd))
  {
    hide Tokens, Cost, Promised, PromisedUsd, AllSmall, Times, TimesUsd;
    PromisedAppend(f.pending, [g], q);
    PromisedOne(g, q);
    PromisedBound(f.pending, q, maxTokens, maxUsd);
    TimesMonotone(|f.pending|, others, maxTokens);
    TimesUsdMonotone(|f.pending|, others, maxUsd);
  }

  ghost predicate Inv(f: Flight, c: Ceilings, others: nat, maxTokens: nat, maxUsd: real) {
    && NonNegative(f.rows) && AllSmall(f.pending, maxTokens, maxUsd)
    && (forall id :: Covered(f, OfSession(id), InSession(id), c.sessionTokenLimit + Times(others, maxTokens) as real,
                             c.sessionCostLimitUsd + TimesUsd(others, maxUsd)))
    && (forall id :: Covered(f, OfWorkflow(id), InWorkflow(id), c.workflowTokenLimit + Times(others, maxTokens) as real,
                             c.workflowCostLimitUsd + TimesUsd(others, maxUsd)))
  }

  lemma AskKeepsInv(f: Flight, c: Ceilings, g: Grant, others: nat, maxTokens: nat, maxUsd: real)
    requires Inv(f, c, others, maxTokens, maxUsd) && Small(g, maxTokens, maxUsd) && |f.pending| <= others
    requires Gate(f.rows, c, g.sessionId, g.workflowId, g.estimate) == Allowed
    ensures Inv(f.(pending := f.pending + [g]), c, others, maxTokens, maxUsd)
  {
    hide Covered, NonNegative, Tokens, Cost, Times, TimesUsd;
    var after := f.(pending := f.pending + [g]);
    forall id
      ensures Covered(after, OfSession(id), InSession(id), c.sessionTokenLimit + Times(others, maxTokens) as real,
                      c.sessionCostLimitUsd + TimesUsd(others, maxUsd))
      ensures Covered(after, OfWorkflow(id), InWorkflow(id), c.workflowTokenLimit + Times(others, maxTokens) as real,
                      c.workflowCostLimitUsd + TimesUsd(others, maxUsd))
    {
      AskCovers(f, g, OfSession(id), InSession(id), c.sessionTokenLimit, c.sessionCostLimitUsd, others, maxTokens, maxUsd);
      AskCovers(f, g, OfWorkflow(id), InWorkflow(id), c.workflowTokenLimit, c.workflowCostLimitUsd, others, maxTokens, maxUsd);
    }
  }

  lemma ReportKeepsInv(f: Flight, c: Ceilings, i: nat, row: UsageRecord, readOk: bool, others: nat, maxTokens: nat, maxUsd: real)
    requires Inv(f, c, others, maxTokens, maxUsd) && Enabled(f, Report(i, row, readOk))
    ensures Inv(Apply(f, c, Report(i, row, readOk)), c, others, maxTokens, maxUsd)
  {
    RecordedNonNegative(f.rows, row, readOk);
    var after := Flight(RecordedOver(f.rows, row, readOk), Without(f.pending, i));
    assert Apply(f, c, Report(i, row, readOk)) == after && AllSmall(after.pending, maxTokens, maxUsd);
    hide Covered, NonNegative, RecordedOver, Times, TimesUsd, Gate, Apply, AllSmall, Without;
    forall id
      ensures Covered(after, OfSession(id), InSession(id),
                      c.sessionTokenLimit + Times(others, maxTokens) as real, c.sessionCostLimitUsd + TimesUsd(others, maxUsd))
      ensures Covered(after, OfWorkflow(id), InWorkflow(id),
                      c.workflowTokenLimit + Times(others, maxTokens) as real, c.workflowCostLimitUsd + TimesUsd(others, maxUsd))
    {
      ReportCovers(f, i, row, readOk, OfSession(id), InSession(id), c.sessionTokenLimit + Times(others, maxTokens) as real,
                   c.sessionCostLimitUsd + TimesUsd(others, maxUsd));
      ReportCovers(f, i, row, readOk, OfWorkflow(id), InWorkflow(id), c.workflowTokenLimit + Times(others, maxTokens) as real,
                   c.workflowCostLimitUsd + TimesUsd(others, maxUsd));
    }
  }

  lemma AbandonKeepsInv(f: Flight, c: Ceilings, i: nat, others: nat, maxTokens: nat, maxUsd: real)
    requires Inv(f, c, others, maxTokens, maxUsd) && i < |f.pending|
    ensures Inv(Apply(f, c, Abandon(i)), c, others, maxTokens, maxUsd)
  {
    assert Small(f.pending[i], maxTokens, maxUsd);
    hide Covered, NonNegative, Times, TimesUsd;
    forall id
      ensures Covered(Apply(f, c, Abandon(i)), OfSession(id), InSession(id),
                      c.sessionTokenLimit + Times(others, maxTokens) as real, c.sessionCostLimitUsd + TimesUsd(others, maxUsd))
      ensures Covered(Apply(f, c, Abandon(i)), OfWorkflow(id), InWorkflow(id),
                      c.workflowTokenLimit + Times(others, maxTokens) as real, c.workflowCostLimitUsd + TimesUsd(others, maxUsd))
    {
      AbandonCovers(f, i, OfSession(id), InSession(id), c.sessionTokenLimit + Times(others, maxTokens) as real,
                    c.sessionCostLimitUsd + TimesUsd(others, maxUsd));
      AbandonCovers(f, i, OfWorkflow(id), InWorkflow(id), c.workflowTokenLimit + Times(others, maxTokens) as real,
                    c.workflowCostLimitUsd + TimesUsd(others, maxUsd));
    }
  }

  lemma {:induction false} FlightKeepsInv(f: Flight, c: Ceilings, limit: nat, events: seq<Event>, maxTokens: nat, maxUsd: real)
    requires limit >= 1 && IsFlight(f, c, limit, events) && Inv(f, c, limit - 1, maxTokens, maxUsd)
    requires forall i :: 0 <= i < |events| && events[i].Ask? ==> Small(events[i].grant, maxTokens, maxUsd)
    ensures Inv(After(f, c, limit, events), c, limit - 1, maxTokens, maxUsd)
    decreases events
  {
    if events != [] {
      hide Inv, Small;
      var event := events[0];
      match event {
        case Ask(g) =>
          if Gate(f.rows, c, g.sessionId, g.workflowId, g.estimate) == Allowed {
            assert |Apply(f, c, event).pending| <= limit;
            AskKeepsInv(f, c, g, limit - 1, maxTokens, maxUsd);
          }
        case Report(i, row, readOk) => ReportKeepsInv(f, c, i, row, readOk, limit - 1, maxTokens, maxUsd);
        case Abandon(i) => AbandonKeepsInv(f, c, i, limit - 1, maxTokens, maxUsd);
      }
      FlightKeepsInv(Apply(f, c, event), c, limit, events[1..], maxTokens, maxUsd);
    }
  }

  /** Ceilings with room for `others` estimates more. */
  function Raised(c: Ceilings, others: nat, maxTokens: nat, maxUsd: real): Ceilings {
    var tokens, usd := (others * maxTokens) as real, others as real * maxUsd;
    Ceilings(c.sessionTokenLimit + tokens, c.workflowTokenLimit + tokens,
             c.sessionCostLimitUsd + usd, c.workflowCostLimitUsd + usd)
  }

  lemma EmptyFlight(rows: seq<UsageRecord>, c: Ceilings, others: nat, maxTokens: nat, maxUsd: real)
    requires NonNegative(rows) && Within(rows, c) && maxUsd >= 0.0
    ensures Inv(Flight(rows, []), c, others, maxTokens, maxUsd)
  {
    hide Tokens, Cost, NonNegative;
    TimesMonotone(0, others, maxTokens);
    TimesUsdMonotone(0, others, maxUsd);
  }

  lemma InvIsWithin(f: Flight, c: Ceilings, others: nat, maxTokens: nat, maxUsd: real)
    requires Inv(f, c, others, maxTokens, maxUsd) && maxUsd >= 0.0
    ensures Within(f.rows, Raised(c, others, maxTokens, maxUsd))
  {
    TimesIsProduct(others, maxTokens);
    TimesUsdIsProduct(others, maxUsd);
    hide Tokens, Cost, NonNegative, Times, TimesUsd;
    forall id
      ensures Covered(f, OfSession(id), InSession(id), c.sessionTokenLimit + Times(others, maxTokens) as real,
                      c.sessionCostLimitUsd + TimesUsd(others, maxUsd))
      ensures Covered(f, OfWorkflow(id), InWorkflow(id), c.workflowTokenLimit + Times(others, maxTokens) as real,
                      c.workflowCostLimitUsd + TimesUsd(others, maxUsd))
      ensures Promised(f.pending, InSession(id)) >= 0 && PromisedUsd(f.pending, InSession(id)) >= 0.0
      ensures Promised(f.pending, InWorkflow(id)) >= 0 && PromisedUsd(f.pending, InWorkflow(id)) >= 0.0
    {
      PromisedBound(f.pending, InSession(id), maxTokens, maxUsd);
      PromisedBound(f.pending, InWorkflow(id), maxTokens, maxUsd);
    }
  }

  /** In every interleaving of `limit` invocations at a time, no session and no workflow
      exceeds a ceiling by more than `limit - 1` estimates: one at a time, by nothing. */
  lemma OvershootBounded(rows: seq<UsageRecord>, c: Ceilings, limit: nat, events: seq<Event>, maxTokens: nat, maxUsd: real)
    requires NonNegative(rows) && Within(rows, c) && limit >= 1 && maxUsd >= 0.0
    requires IsFlight(Flight(rows, []), c, limit, events)
    requires forall i :: 0 <= i < |events| && events[i].Ask? ==> Small(events[i].grant, maxTokens, maxUsd)
    ensures Within(After(Flight(rows, []), c, limit, events).rows, Raised(c, limit - 1, maxTokens, maxUsd))
  {
    EmptyFlight(rows, c, limit - 1, maxTokens, maxUsd);
    FlightKeepsInv(Flight(rows, []), c, limit, events, maxTokens, maxUsd);
    InvIsWithin(After(Flight(rows, []), c, limit, events), c, limit - 1, maxTokens, maxUsd);
  }

  // ----- The overshoot is reached

  function Copies<T>(x: T, n: nat): (r: seq<T>)
    ensures |r| == n && forall i :: 0 <= i < n ==> r[i] == x
  {
    seq(n, _ => x)
  }

  function GrantFor(row: UsageRecord): Grant {
    Grant(row.sessionId, row.workflowId, Estimate(row.totalTokens, row.costUsd))
  }

  lemma {:induction false} TokensOfCopies(row: UsageRecord, n: nat)
    ensures Tokens(Copies(row, n), OfSession(row.sessionId)) == n * row.totalTokens
  {
    if n > 0 {
      TokensOfCopies(row, n - 1);
      assert Copies(row, n) == Copies(row, n - 1) + [row];
      PushTotals(Copies(row, n - 1), row, OfSession(row.sessionId));
    }
  }

  /** With `done` rows recorded and `n` grants pending, `n` reports empty the flight. */
  lemma {:induction false} ReportAll(row: UsageRecord, c: Ceilings, limit: nat, done: nat, n: nat)
    requires done + n <= LEDGER_ROWS && n <= limit && row.totalTokens >= 0 && row.costUsd >= 0.0
    ensures var f, events := Flight(Copies(row, done), Copies(GrantFor(row), n)), Copies(Report(0, row, true), n);
            IsFlight(f, c, limit, events) && After(f, c, limit, events).rows == Copies(row, done + n)
    decreases n
  {
    if n > 0 {
      var f, events := Flight(Copies(row, done), Copies(GrantFor(row), n)), Copies(Report(0, row, true), n);
      ReportAll(row, c, limit, done + 1, n - 1);
      assert Recorded(f.rows, row) == Copies(row, done + 1);
      assert Without(f.pending, 0) == Copies(GrantFor(row), n - 1);
      assert events[1..] == Copies(Report(0, row, true), n - 1);
    }
  }

  /** The rest of a flight in which all ask before any reports. */
  function AskThenReport(row: UsageRecord, asks: nat, reports: nat): seq<Event> {
    Copies(Ask(GrantFor(row)), asks) + Copies(Report(0, row, true), reports)
  }

  lemma {:induction false} AskAll(row: UsageRecord, c: Ceilings, limit: nat, n: nat)
    requires n <= limit <= LEDGER_ROWS && row.totalTokens >= 0 && row.costUsd >= 0.0
    requires Gate([], c, row.sessionId, row.workflowId, Estimate(row.totalTokens, row.costUsd)) == Allowed
    ensures var f, events := Flight([], Copies(GrantFor(row), limit - n)), AskThenReport(row, n, limit);
            IsFlight(f, c, limit, events) && After(f, c, limit, events).rows == Copies(row, limit)
    decreases n
  {
    var f, events := Flight([], Copies(GrantFor(row), limit - n)), AskThenReport(row, n, limit);
    assert Copies(row, 0) == [];
    if n == 0 {
      ReportAll(row, c, limit, 0, limit);
      assert events == Copies(Report(0, row, true), limit);
    } else {
      AskAll(row, c, limit, n - 1);
      assert f.pending + [GrantFor(row)] == Copies(GrantFor(row), limit - (n - 1));
      assert events[1..] == AskThenReport(row, n - 1, limit);
    }
  }

  /** The bound is exact: `limit` invocations that each ask for a whole session ceiling, and
      all pass the gate before any of them reports, spend it `limit` times over. */
  lemma OvershootReached(row: UsageRecord, c: Ceilings, limit: nat)
    requires 1 <= limit <= LEDGER_ROWS && row.totalTokens >= 0 && row.costUsd == 0.0
    requires c.sessionTokenLimit == row.totalTokens as real && c.workflowTokenLimit >= row.totalTokens as real
    requires c.sessionCostLimitUsd >= 0.0 && c.workflowCostLimitUsd >= 0.0
    ensures var events := AskThenReport(row, limit, limit);
            && IsFlight(Flight([], []), c, limit, events)
            && Tokens(After(Flight([], []), c, limit, events).rows, OfSession(row.sessionId)) as real ==
               Raised(c, limit - 1, row.totalTokens, 0.0).sessionTokenLimit
  {
    AskAll(row, c, limit, limit);
    assert Copies(GrantFor(row), 0) == [];
    TokensOfCopies(row, limit);
    assert limit * row.totalTokens == row.totalTokens + (limit - 1) * row.totalTokens;
  }
}
