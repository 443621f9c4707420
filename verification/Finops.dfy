/** The spending ledger: the budget gate, recorded usage, and the retry governor. */
module Finops {
  import opened Sequences

  datatype UsageRecord = UsageRecord(
    month: string,
    sessionId: string,
    workflowId: string,
    costCenter: string,
    agentId: string,
    provider: string,
    model: string,
    featureLane: string,
    totalTokens: int,
    costUsd: real)

  datatype Ceilings = Ceilings(
    sessionTokenLimit: real,
    workflowTokenLimit: real,
    sessionCostLimitUsd: real,
    workflowCostLimitUsd: real)

  datatype Estimate = Estimate(totalTokens: int, estimatedCostUsd: real)

  // ----- Costs

  /** `Math.round(usd * 10000) / 10000`. */
  function Round4(usd: real): real {
    (usd * 10000.0 + 0.5).Floor as real / 10000.0
  }

  function UsdPer1kTokens(model: string): real {
    if model == "copilot-chat" then 0.003
    else if model == "gpt-4o-mini" then 0.004
    else if model == "gpt-4o" then 0.02
    else if model == "claude-3-5-sonnet" then 0.018
    else 0.008
  }

  function EstimateCostUsd(model: string, totalTokens: int): real {
    Round4(totalTokens as real / 1000.0 * UsdPer1kTokens(model))
  }

  lemma Round4Monotone(a: real, b: real)
    requires a <= b
    ensures Round4(a) <= Round4(b)
  {
    assert (a * 10000.0 + 0.5).Floor <= (b * 10000.0 + 0.5).Floor;
  }

  lemma Round4Close(a: real)
    ensures -0.00005 <= Round4(a) - a <= 0.00005
  {
    var x := a * 10000.0 + 0.5;
    assert x.Floor as real <= x < x.Floor as real + 1.0;
  }

  lemma ScaleMonotone(a: real, b: real, rate: real)
    requires a <= b && rate > 0.0
    ensures a * rate <= b * rate
  {
  }

  /** Fewer tokens never cost more, and no tokens cost nothing. */
  lemma CostMonotone(model: string, fewer: int, more: int)
    requires 0 <= fewer <= more
    ensures 0.0 <= EstimateCostUsd(model, fewer) <= EstimateCostUsd(model, more)
  {
    var rate := UsdPer1kTokens(model);
    ScaleMonotone(0.0, fewer as real / 1000.0, rate);
    ScaleMonotone(fewer as real / 1000.0, more as real / 1000.0, rate);
    Round4Monotone(fewer as real / 1000.0 * rate, more as real / 1000.0 * rate);
    Round4Monotone(0.0, fewer as real / 1000.0 * rate);
  }

  /** The price list, in dollars for a thousand tokens. */
  lemma PricesPerThousand(other: string)
    requires other !in {"copilot-chat", "gpt-4o-mini", "gpt-4o", "claude-3-5-sonnet"}
    ensures EstimateCostUsd("copilot-chat", 1000) == 0.003
    ensures EstimateCostUsd("gpt-4o-mini", 1000) == 0.004
    ensures EstimateCostUsd("gpt-4o", 1000) == 0.02
    ensures EstimateCostUsd("claude-3-5-sonnet", 1000) == 0.018
    ensures EstimateCostUsd(other, 1000) == 0.008
  {
    assert (0.003 * 10000.0 + 0.5).Floor == 30 && (0.004 * 10000.0 + 0.5).Floor == 40;
    assert (0.02 * 10000.0 + 0.5).Floor == 200 && (0.018 * 10000.0 + 0.5).Floor == 180;
    assert (0.008 * 10000.0 + 0.5).Floor == 80;
  }

  /** What `tokens` cost follows from what a thousand cost, up to half a unit of the last place;
      it is a whole number of such units. */
  lemma CostIsPrice(model: string, tokens: int)
    ensures -0.00005 <= EstimateCostUsd(model, tokens) - tokens as real / 1000.0 * EstimateCostUsd(model, 1000) <= 0.00005
    ensures EstimateCostUsd(model, 1000) > 0.0
    ensures EstimateCostUsd(model, tokens) * 10000.0 == (EstimateCostUsd(model, tokens) * 10000.0).Floor as real
  {
    PricesPerThousand("");
    if model !in {"copilot-chat", "gpt-4o-mini", "gpt-4o", "claude-3-5-sonnet"} {
      PricesPerThousand(model);
    }
    assert EstimateCostUsd(model, 1000) == UsdPer1kTokens(model);
    Round4Close(tokens as real / 1000.0 * UsdPer1kTokens(model));
    Round4Whole(tokens as real / 1000.0 * UsdPer1kTokens(model));
  }

  lemma Round4Whole(a: real)
    ensures Round4(a) * 10000.0 == (Round4(a) * 10000.0).Floor as real
  {
    var n := (a * 10000.0 + 0.5).Floor;
    assert Round4(a) * 10000.0 == n as real;
  }

  function BudgetEstimate(model: string, promptTokens: int, maxCompletionTokens: int): Estimate {
    var total := if promptTokens + maxCompletionTokens > 0 then promptTokens + maxCompletionTokens else 0;
    Estimate(total, EstimateCostUsd(model, total))
  }

  /** A request asks for its prompt and its completion together, never for less than nothing, at
      the price of that many tokens. */
  lemma RequestIsPriced(model: string, promptTokens: int, maxCompletionTokens: int)
    ensures var e, asked := BudgetEstimate(model, promptTokens, maxCompletionTokens), promptTokens + maxCompletionTokens;
            && (asked >= 0 ==> e.totalTokens == asked) && (asked < 0 ==> e.totalTokens == 0)
            && -0.00005 <= e.estimatedCostUsd - e.totalTokens as real / 1000.0 * EstimateCostUsd(model, 1000) <= 0.00005
  {
    CostIsPrice(model, BudgetEstimate(model, promptTokens, maxCompletionTokens).totalTokens);
  }

  // ----- Totals

  function Tokens(rows: seq<UsageRecord>, p: UsageRecord -> bool): int {
    if rows == [] then 0
    else
      var last := rows[|rows| - 1];
      Tokens(rows[..|rows| - 1], p) + if p(last) then last.totalTokens else 0
  }

  function Cost(rows: seq<UsageRecord>, p: UsageRecord -> bool): real {
    if rows == [] then 0.0
    else
      var last := rows[|rows| - 1];
      Cost(rows[..|rows| - 1], p) + if p(last) then last.costUsd else 0.0
  }

  function OfSession(id: string): UsageRecord -> bool { (r: UsageRecord) => r.sessionId == id }

  function OfWorkflow(id: string): UsageRecord -> bool { (r: UsageRecord) => r.workflowId == id }

  method Aggregate(rows: seq<UsageRecord>, sessionId: string, workflowId: string)
    returns (sessionTokens: int, workflowTokens: int, sessionCostUsd: real, workflowCostUsd: real)
    ensures sessionTokens == Tokens(rows, OfSession(sessionId)) && sessionCostUsd == Cost(rows, OfSession(sessionId))
    ensures workflowTokens == Tokens(rows, OfWorkflow(workflowId)) && workflowCostUsd == Cost(rows, OfWorkflow(workflowId))
  {
    sessionTokens, workflowTokens, sessionCostUsd, workflowCostUsd := 0, 0, 0.0, 0.0;
    for i := 0 to |rows|
      invariant sessionTokens == Tokens(rows[..i], OfSession(sessionId))
      invariant sessionCostUsd == Cost(rows[..i], OfSession(sessionId))
      invariant workflowTokens == Tokens(rows[..i], OfWorkflow(workflowId))
      invariant workflowCostUsd == Cost(rows[..i], OfWorkflow(workflowId))
    {
      var row := rows[i];
      assert rows[..i + 1][..i] == rows[..i];
      if row.sessionId == sessionId {
        sessionTokens := sessionTokens + row.totalTokens;
        sessionCostUsd := sessionCostUsd + row.costUsd;
      }
      if row.workflowId == workflowId {
        workflowTokens := workflowTokens + row.totalTokens;
        workflowCostUsd := workflowCostUsd + row.costUsd;
      }
    }
    assert rows[..|rows|] == rows;
  }

  // ----- The gate

  datatype Verdict = Allowed | SessionTokensBlocked | WorkflowTokensBlocked | SessionCostBlocked | WorkflowCostBlocked

  function Gate(rows: seq<UsageRecord>, c: Ceilings, sessionId: string, workflowId: string, e: Estimate): Verdict {
    if (Tokens(rows, OfSession(sessionId)) + e.totalTokens) as real > c.sessionTokenLimit then SessionTokensBlocked
    else if (Tokens(rows, OfWorkflow(workflowId)) + e.totalTokens) as real > c.workflowTokenLimit then WorkflowTokensBlocked
    else if Cost(rows, OfSession(sessionId)) + e.estimatedCostUsd > c.sessionCostLimitUsd then SessionCostBlocked
    else if Cost(rows, OfWorkflow(workflowId)) + e.estimatedCostUsd > c.workflowCostLimitUsd then WorkflowCostBlocked
    else Allowed
  }

  const LEDGER_ROWS := 5000

  function Recorded(rows: seq<UsageRecord>, row: UsageRecord): seq<UsageRecord> {
    var pushed := rows + [row];
    if |pushed| > LEDGER_ROWS then pushed[|pushed| - LEDGER_ROWS..] else pushed
  }

  /** Recording keeps the newest 5000 rows, the new one among them. */
  lemma RecordedIsNewest(rows: seq<UsageRecord>, row: UsageRecord)
    ensures var kept, n := Recorded(rows, row), |rows| + 1;
            && |kept| == (if n < 5000 then n else 5000) && kept[|kept| - 1] == row
            && kept == (rows + [row])[n - |kept|..]
  {
    if |rows| + 1 <= LEDGER_ROWS {
      assert (rows + [row])[0..] == rows + [row];
    }
  }

  /** The verdict names the first ceiling that recorded usage and estimate together exceed:
      session tokens, workflow tokens, session cost, workflow cost; none is exceeded exactly when
      the request is allowed. */
  lemma GateNamesFirst(rows: seq<UsageRecord>, c: Ceilings, sessionId: string, workflowId: string, e: Estimate)
    ensures var over := [(Tokens(rows, OfSession(sessionId)) + e.totalTokens) as real > c.sessionTokenLimit,
                         (Tokens(rows, OfWorkflow(workflowId)) + e.totalTokens) as real > c.workflowTokenLimit,
                         Cost(rows, OfSession(sessionId)) + e.estimatedCostUsd > c.sessionCostLimitUsd,
                         Cost(rows, OfWorkflow(workflowId)) + e.estimatedCostUsd > c.workflowCostLimitUsd];
            match Gate(rows, c, sessionId, workflowId, e)
            case Allowed => over == [false, false, false, false]
            case SessionTokensBlocked => over[0]
            case WorkflowTokensBlocked => over[..2] == [false, true]
            case SessionCostBlocked => over[..3] == [false, false, true]
            case WorkflowCostBlocked => over == [false, false, false, true]
  {
  }

  /** What a call finds in the ledger; one that cannot be read counts as empty. */
  function Found(rows: seq<UsageRecord>, readOk: bool): seq<UsageRecord> {
    if readOk then rows else []
  }

  /** What recording leaves, when the ledger can be written. */
  function RecordedOver(rows: seq<UsageRecord>, row: UsageRecord, readOk: bool): seq<UsageRecord> {
    Recorded(Found(rows, readOk), row)
  }

  class FinopsGovernor {
    var usage: seq<UsageRecord>
    const ceilings: Ceilings

    constructor (ceilings: Ceilings)
      ensures usage == [] && this.ceilings == ceilings
    {
      usage, this.ceilings := [], ceilings;
    }

    method EnforceBudget(sessionId: string, workflowId: string, e: Estimate, readOk: bool) returns (verdict: Verdict)
      ensures verdict == Gate(Found(usage, readOk), ceilings, sessionId, workflowId, e)
    {
      var ledger := if readOk then usage else [];
      var sessionTokens, workflowTokens, sessionCost, workflowCost := Aggregate(ledger, sessionId, workflowId);
      if (sessionTokens + e.totalTokens) as real > ceilings.sessionTokenLimit {
        return SessionTokensBlocked;
      }
      if (workflowTokens + e.totalTokens) as real > ceilings.workflowTokenLimit {
        return WorkflowTokensBlocked;
      }
      if sessionCost + e.estimatedCostUsd > ceilings.sessionCostLimitUsd {
        return SessionCostBlocked;
      }
      if workflowCost + e.estimatedCostUsd > ceilings.workflowCostLimitUsd {
        return WorkflowCostBlocked;
      }
      return Allowed;
    }

    /** `row` carries the ids of the context; its cost is computed from its tokens. A failed
        write throws and leaves the ledger as it was. */
    method RecordUsage(row: UsageRecord, readOk: bool, writeOk: bool) returns (thrown: bool)
      modifies this
      ensures thrown <==> !writeOk
      ensures usage == if thrown then old(usage)
                       else RecordedOver(old(usage), row.(costUsd := EstimateCostUsd(row.model, row.totalTokens)), readOk)
    {
      var ledger := if readOk then usage else [];
      ledger := ledger + [row.(costUsd := EstimateCostUsd(row.model, row.totalTokens))];
      if |ledger| > LEDGER_ROWS {
        ledger := ledger[|ledger| - LEDGER_ROWS..];
      }
      if writeOk {
        usage := ledger;
      }
      thrown := !writeOk;
    }
  }

  // ----- Ceilings over whole runs

  ghost predicate NonNegative(rows: seq<UsageRecord>) {
    forall i :: 0 <= i < |rows| ==> rows[i].totalTokens >= 0 && rows[i].costUsd >= 0.0
  }

  ghost predicate Within(rows: seq<UsageRecord>, c: Ceilings) {
    && (forall id :: Tokens(rows, OfSession(id)) as real <= c.sessionTokenLimit)
    && (forall id :: Tokens(rows, OfWorkflow(id)) as real <= c.workflowTokenLimit)
    && (forall id :: Cost(rows, OfSession(id)) <= c.sessionCostLimitUsd)
    && (forall id :: Cost(rows, OfWorkflow(id)) <= c.workflowCostLimitUsd)
  }

  lemma {:induction false} DropFront(rows: seq<UsageRecord>, k: nat, p: UsageRecord -> bool)
    requires NonNegative(rows) && k <= |rows|
    ensures 0 <= Tokens(rows[k..], p) <= Tokens(rows, p)
    ensures 0.0 <= Cost(rows[k..], p) <= Cost(rows, p)
  {
    if k < |rows| {
      var n := |rows| - 1;
      DropFront(rows[..n], k, p);
      assert rows[k..][..n - k] == rows[..n][k..];
    } else if rows != [] {
      DropFront(rows[..|rows| - 1], k - 1, p);
      assert rows[k..] == [];
    }
  }

  lemma PushTotals(rows: seq<UsageRecord>, row: UsageRecord, p: UsageRecord -> bool)
    ensures Tokens(rows + [row], p) == Tokens(rows, p) + if p(row) then row.totalTokens else 0
    ensures Cost(rows + [row], p) == Cost(rows, p) + if p(row) then row.costUsd else 0.0
  {
    assert (rows + [row])[..|rows|] == rows;
  }

  lemma RecordedTotals(rows: seq<UsageRecord>, row: UsageRecord, readOk: bool, p: UsageRecord -> bool)
    requires NonNegative(rows + [row])
    ensures Tokens(RecordedOver(rows, row, readOk), p) <= Tokens(rows, p) + if p(row) then row.totalTokens else 0
    ensures Cost(RecordedOver(rows, row, readOk), p) <= Cost(rows, p) + if p(row) then row.costUsd else 0.0
  {
    var found := Found(rows, readOk);
    var pushed := found + [row];
    assert NonNegative(rows) by {
      assert forall i :: 0 <= i < |rows| ==> rows[i] == (rows + [row])[i];
    }
    DropFront(rows, |rows|, p);
    assert (rows + [row])[|rows|] == row;
    PushTotals(found, row, p);
    if |pushed| > LEDGER_ROWS {
      DropFront(pushed, |pushed| - LEDGER_ROWS, p);
    }
  }

  lemma RecordedNonNegative(rows: seq<UsageRecord>, row: UsageRecord, readOk: bool)
    requires NonNegative(rows) && row.totalTokens >= 0 && row.costUsd >= 0.0
    ensures NonNegative(rows + [row]) && NonNegative(RecordedOver(rows, row, readOk))
  {
  }

  /** Recording within an estimate that the gate has allowed keeps every ceiling, whether or not
      recording can read the ledger. */
  lemma GatedRecordStaysWithin(rows: seq<UsageRecord>, c: Ceilings, e: Estimate, row: UsageRecord, readOk: bool)
    requires NonNegative(rows) && Within(rows, c)
    requires Gate(rows, c, row.sessionId, row.workflowId, e) == Allowed
    requires 0 <= row.totalTokens <= e.totalTokens && 0.0 <= row.costUsd <= e.estimatedCostUsd
    ensures NonNegative(RecordedOver(rows, row, readOk)) && Within(RecordedOver(rows, row, readOk), c)
  {
    var kept := RecordedOver(rows, row, readOk);
    RecordedNonNegative(rows, row, readOk);
    hide RecordedOver, Tokens, Cost, NonNegative;
    forall id
      ensures Tokens(kept, OfSession(id)) as real <= c.sessionTokenLimit
      ensures Cost(kept, OfSession(id)) <= c.sessionCostLimitUsd
    {
      RecordedTotals(rows, row, readOk, OfSession(id));
      assert id != row.sessionId ==> !OfSession(id)(row);
    }
    forall id
      ensures Tokens(kept, OfWorkflow(id)) as real <= c.workflowTokenLimit
      ensures Cost(kept, OfWorkflow(id)) <= c.workflowCostLimitUsd
    {
      RecordedTotals(rows, row, readOk, OfWorkflow(id));
      assert id != row.workflowId ==> !OfWorkflow(id)(row);
    }
  }

  /** A ledger with room keeps every ceiling when a row is recorded if and only if a gate that
      can read it would let exactly that usage through. The verdict of a gate that cannot read
      it has no say in this. */
  lemma RoomyRecordStaysWithinIff(rows: seq<UsageRecord>, c: Ceilings, row: UsageRecord)
    requires NonNegative(rows) && Within(rows, c) && row.totalTokens >= 0 && row.costUsd >= 0.0
    requires |rows| < LEDGER_ROWS
    ensures Within(Recorded(rows, row), c) <==>
            Gate(rows, c, row.sessionId, row.workflowId, Estimate(row.totalTokens, row.costUsd)) == Allowed
  {
    var e := Estimate(row.totalTokens, row.costUsd);
    PushTotals(rows, row, OfSession(row.sessionId));
    PushTotals(rows, row, OfWorkflow(row.workflowId));
    if Gate(rows, c, row.sessionId, row.workflowId, e) == Allowed {
      GatedRecordStaysWithin(rows, c, e, row, true);
    }
  }

  /** A ledger that cannot be read counts as empty: the gate then lets through whatever it
      otherwise would, and the estimate of a spent session besides. */
  lemma UnreadGateOverspends(row: UsageRecord, c: Ceilings)
    requires row.totalTokens > 0 && row.costUsd == 0.0
    requires c.sessionTokenLimit == row.totalTokens as real && c.workflowTokenLimit >= row.totalTokens as real
    requires c.sessionCostLimitUsd >= 0.0 && c.workflowCostLimitUsd >= 0.0
    ensures var rows, e := [row], Estimate(row.totalTokens, 0.0);
            && Within(rows, c)
            && Gate(Found(rows, true), c, row.sessionId, row.workflowId, e) == SessionTokensBlocked
            && Gate(Found(rows, false), c, row.sessionId, row.workflowId, e) == Allowed
            && !Within(Recorded(rows, row), c)
  {
    var none: seq<UsageRecord> := [];
    assert none + [row] == [row];
    RoomyRecordStaysWithinIff(none, c, row);
    PushTotals(none, row, OfSession(row.sessionId));
    RoomyRecordStaysWithinIff([row], c, row);
  }

  /** Usage priced above the room under a cost ceiling closes the gate: once it is recorded no
      further request of that session, or of that workflow, passes a gate that can read the
      ledger, however small. */
  lemma PricedOut(rows: seq<UsageRecord>, c: Ceilings, row: UsageRecord, sessionId: string, workflowId: string, e: Estimate)
    requires |rows| < LEDGER_ROWS && e.estimatedCostUsd >= 0.0
    requires var price := row.totalTokens as real / 1000.0 * EstimateCostUsd(row.model, 1000) - 0.00005;
             (sessionId == row.sessionId && Cost(rows, OfSession(sessionId)) + price > c.sessionCostLimitUsd) ||
             (workflowId == row.workflowId && Cost(rows, OfWorkflow(workflowId)) + price > c.workflowCostLimitUsd)
    ensures Gate(Recorded(rows, row.(costUsd := EstimateCostUsd(row.model, row.totalTokens))), c, sessionId, workflowId, e) != Allowed
  {
    var priced := row.(costUsd := EstimateCostUsd(row.model, row.totalTokens));
    CostIsPrice(row.model, row.totalTokens);
    PushTotals(rows, priced, OfSession(sessionId));
    PushTotals(rows, priced, OfWorkflow(workflowId));
  }

  /** A hundred thousand tokens of gpt-4o cost two dollars, and close a session with a ceiling of
      one dollar. */
  lemma TwoDollarsAreSpent(row: UsageRecord, c: Ceilings, e: Estimate)
    requires row.model == "gpt-4o" && row.totalTokens == 100000 && c.sessionCostLimitUsd == 1.0 && e.estimatedCostUsd >= 0.0
    ensures EstimateCostUsd(row.model, row.totalTokens) == 2.0
    ensures Gate(Recorded([], row.(costUsd := 2.0)), c, row.sessionId, row.workflowId, e) != Allowed
  {
    PricesPerThousand("");
    assert (2.0 * 10000.0 + 0.5).Floor == 20000;
    PricedOut([], c, row, row.sessionId, row.workflowId, e);
  }

  /** One governed invocation: what it asked for, what it used, and how its ledger calls went.
      A failed write throws after the usage. */
  datatype Spending = Spending(prompt: int, maxCompletion: int, row: UsageRecord, gateReadOk: bool, readOk: bool, writeOk: bool)

  function AfterSpending(rows: seq<UsageRecord>, c: Ceilings, s: Spending): seq<UsageRecord> {
    var e := BudgetEstimate(s.row.model, s.prompt, s.maxCompletion);
    if s.writeOk && Gate(Found(rows, s.gateReadOk), c, s.row.sessionId, s.row.workflowId, e) == Allowed then
      RecordedOver(rows, s.row.(costUsd := EstimateCostUsd(s.row.model, s.row.totalTokens)), s.readOk)
    else rows
  }

  function Spent(rows: seq<UsageRecord>, c: Ceilings, run: seq<Spending>): seq<UsageRecord> {
    if run == [] then rows else AfterSpending(Spent(rows, c, run[..|run| - 1]), c, run[|run| - 1])
  }

  /** Only an invocation that its gate allows, and whose usage can be written, changes the ledger:
      then its row is in it, at the price of its tokens. */
  lemma SpendingIsRecordedIff(rows: seq<UsageRecord>, c: Ceilings, s: Spending)
    ensures var after, e := AfterSpending(rows, c, s), BudgetEstimate(s.row.model, s.prompt, s.maxCompletion);
            if s.writeOk && Gate(Found(rows, s.gateReadOk), c, s.row.sessionId, s.row.workflowId, e) == Allowed then
              && after != [] && var last := after[|after| - 1];
              && last.totalTokens == s.row.totalTokens && last.sessionId == s.row.sessionId
              && last.costUsd == EstimateCostUsd(s.row.model, s.row.totalTokens)
            else after == rows
  {
  }

  ghost predicate UsesNoMoreThanAsked(s: Spending) {
    0 <= s.row.totalTokens <= s.prompt + s.maxCompletion
  }

  /** Over every run of invocations, one after another, whose gate could read the ledger, the
      retained totals of every session and workflow stay within their ceilings, across the
      truncation of the ledger and whatever else fails. */
  lemma {:induction false} RunsStayWithinCeilings(rows: seq<UsageRecord>, c: Ceilings, run: seq<Spending>)
    requires NonNegative(rows) && Within(rows, c)
    requires forall i :: 0 <= i < |run| ==> UsesNoMoreThanAsked(run[i]) && run[i].gateReadOk
    ensures NonNegative(Spent(rows, c, run)) && Within(Spent(rows, c, run), c)
  {
    if run != [] {
      var s := run[|run| - 1];
      assert UsesNoMoreThanAsked(s);
      RunsStayWithinCeilings(rows, c, run[..|run| - 1]);
      var e := BudgetEstimate(s.row.model, s.prompt, s.maxCompletion);
      CostMonotone(s.row.model, s.row.totalTokens, e.totalTokens);
      var before := Spent(rows, c, run[..|run| - 1]);
      hide Within, Gate, NonNegative, RecordedOver;
      if Gate(before, c, s.row.sessionId, s.row.workflowId, e) == Allowed {
        GatedRecordStaysWithin(before, c, e, s.row.(costUsd := EstimateCostUsd(s.row.model, s.row.totalTokens)), s.readOk);
      }
    }
  }

  // ----- The retry governor

  datatype Governor = Governor(maxValidationRetries: int, maxToolRounds: int, maxToolCallsPerRound: int)

  function Utilization(tokens: int, limit: real): real { if limit > 0.0 then tokens as real / limit else 0.0 }

  /** What a governor that knows only the two totals grants. */
  function GovernorFor(sessionTokens: int, workflowTokens: int, c: Ceilings, fastPath: bool, requested: int): Governor {
    var session := Utilization(sessionTokens, c.sessionTokenLimit);
    var workflow := Utilization(workflowTokens, c.workflowTokenLimit);
    var utilization := if session > workflow then session else workflow;
    var wanted := if requested > 0 then requested else 0;
    if utilization >= 0.8 then Governor(0, 2, 3)
    else if utilization >= 0.6 || fastPath then Governor(if wanted < 1 then wanted else 1, 3, 4)
    else Governor(wanted, 4, 6)
  }

  /** The total has reached `fifths` fifths of a limit; a limit that is not positive does not count. */
  predicate Reaches(tokens: int, limit: real, fifths: real) {
    limit > 0.0 && 5.0 * tokens as real >= fifths * limit
  }

  /** At four fifths of a token limit nothing is granted, at three fifths, and on the fast path,
      one retry at most, and below that whatever was asked for. */
  lemma GovernorLevels(s: int, t: int, c: Ceilings, fastPath: bool, requested: int)
    ensures var strict := Reaches(s, c.sessionTokenLimit, 4.0) || Reaches(t, c.workflowTokenLimit, 4.0);
            var raised := Reaches(s, c.sessionTokenLimit, 3.0) || Reaches(t, c.workflowTokenLimit, 3.0);
            var wanted := if requested < 0 then 0 else requested;
            GovernorFor(s, t, c, fastPath, requested) ==
            if strict then Governor(0, 2, 3)
            else if raised || fastPath then Governor(if wanted == 0 then 0 else 1, 3, 4)
            else Governor(wanted, 4, 6)
  {
    if c.sessionTokenLimit > 0.0 {
      LevelReached(s, c.sessionTokenLimit);
    }
    if c.workflowTokenLimit > 0.0 {
      LevelReached(t, c.workflowTokenLimit);
    }
  }

  lemma LevelReached(tokens: int, limit: real)
    requires limit > 0.0
    ensures Utilization(tokens, limit) >= 0.8 <==> 5.0 * tokens as real >= 4.0 * limit
    ensures Utilization(tokens, limit) >= 0.6 <==> 5.0 * tokens as real >= 3.0 * limit
  {
    AtLevel(tokens as real, limit, 0.8);
    AtLevel(tokens as real, limit, 0.6);
  }

  lemma AtLevel(x: real, limit: real, level: real)
    requires limit > 0.0
    ensures x / limit >= level <==> x >= level * limit
  {
    if x < level * limit {
      QuotientBelow(x, limit, level);
    } else {
      var q := x / limit;
      assert q * limit == x;
      if q < level {
        ScaleMonotone(q, level, limit);
      }
    }
  }

  function RetryGovernor(rows: seq<UsageRecord>, c: Ceilings, sessionId: string, workflowId: string, fastPath: bool,
                         requested: int): Governor
  {
    GovernorFor(Tokens(rows, OfSession(sessionId)), Tokens(rows, OfWorkflow(workflowId)), c, fastPath, requested)
  }

  /** The rows that recording one more takes out of the ledger: the oldest of a full one, and
      all of one that cannot be read. */
  function TakenOut(rows: seq<UsageRecord>, readOk: bool): seq<UsageRecord> {
    if !readOk then rows else if |rows| < LEDGER_ROWS then [] else rows[..|rows| + 1 - LEDGER_ROWS]
  }

  lemma {:induction false} TokensAppend(a: seq<UsageRecord>, b: seq<UsageRecord>, p: UsageRecord -> bool)
    ensures Tokens(a + b, p) == Tokens(a, p) + Tokens(b, p)
    decreases b
  {
    if b == [] {
      assert a + b == a;
    } else {
      assert (a + b)[..|a + b| - 1] == a + b[..|b| - 1];
      TokensAppend(a, b[..|b| - 1], p);
    }
  }

  /** Recording adds the row's tokens and takes away those of the rows it takes out; so a total
      does not fall exactly when the rows taken out have no more tokens in it than the new row. */
  lemma TotalsKeepIff(rows: seq<UsageRecord>, row: UsageRecord, readOk: bool, p: UsageRecord -> bool)
    ensures var own, after := if p(row) then row.totalTokens else 0, RecordedOver(rows, row, readOk);
            && Tokens(after, p) == Tokens(rows, p) + own - Tokens(TakenOut(rows, readOk), p)
            && (Tokens(rows, p) <= Tokens(after, p) <==> Tokens(TakenOut(rows, readOk), p) <= own)
  {
    var found := Found(rows, readOk);
    PushTotals(found, row, p);
    if |found| + 1 > LEDGER_ROWS {
      var out := TakenOut(rows, readOk);
      assert found + [row] == out + Recorded(found, row);
      TokensAppend(out, Recorded(found, row), p);
    }
  }

  /** Neither the session's nor the workflow's total falls when `row` is recorded. */
  predicate KeepsTotals(rows: seq<UsageRecord>, row: UsageRecord, readOk: bool, sessionId: string, workflowId: string) {
    var out := TakenOut(rows, readOk);
    && Tokens(out, OfSession(sessionId)) <= (if row.sessionId == sessionId then row.totalTokens else 0)
    && Tokens(out, OfWorkflow(workflowId)) <= (if row.workflowId == workflowId then row.totalTokens else 0)
  }

  /** While the ledger has room and can be read every row keeps the totals. */
  lemma RoomKeepsTotals(rows: seq<UsageRecord>, row: UsageRecord, sessionId: string, workflowId: string)
    requires |rows| < LEDGER_ROWS && row.totalTokens >= 0
    ensures KeepsTotals(rows, row, true, sessionId, workflowId)
  {
  }

  predicate NoLooser(after: Governor, before: Governor) {
    && after.maxValidationRetries <= before.maxValidationRetries
    && after.maxToolRounds <= before.maxToolRounds
    && after.maxToolCallsPerRound <= before.maxToolCallsPerRound
  }

  /** The governor follows the totals: it never grants more than was asked for, and higher
      totals never loosen it. */
  lemma GovernorFollowsTotals(s: int, t: int, moreS: int, moreT: int, c: Ceilings, fastPath: bool, requested: int)
    requires s <= moreS && t <= moreT
    ensures var before, after := GovernorFor(s, t, c, fastPath, requested), GovernorFor(moreS, moreT, c, fastPath, requested);
            && NoLooser(after, before) && 0 <= after.maxValidationRetries
            && (requested >= 0 ==> before.maxValidationRetries <= requested)
  {
    UtilizationMonotone(s, moreS, c.sessionTokenLimit);
    UtilizationMonotone(t, moreT, c.workflowTokenLimit);
    hide Utilization;
  }

  /** The ceilings that settings can give. */
  predicate Positive(c: Ceilings) {
    c.sessionTokenLimit > 0.0 && c.workflowTokenLimit > 0.0 && c.sessionCostLimitUsd > 0.0 && c.workflowCostLimitUsd > 0.0
  }

  /** Totals of which one falls loosen the governor under some ceilings: those under which the
      higher one has just reached the strict level and the other one is far from it. */
  lemma FallenTotalLoosens(s: int, t: int, u: int, v: int) returns (c: Ceilings)
    requires 0 <= u && 0 <= v && 0 <= s && 0 <= t && (u < s || v < t)
    ensures Positive(c) && !NoLooser(GovernorFor(u, v, c, false, 1), GovernorFor(s, t, c, false, 1))
  {
    if u < s {
      var far := (2 * (t + v) + 1) as real;
      c := Ceilings(s as real / 0.8, far, 1.0, 1.0);
      StrictLevel(u, s);
      FarLevel(v, far);
    } else {
      var far := (2 * (s + u) + 1) as real;
      c := Ceilings(far, t as real / 0.8, 1.0, 1.0);
      StrictLevel(v, t);
      FarLevel(u, far);
    }
  }

  lemma StrictLevel(fewer: int, more: int)
    requires 0 <= fewer < more
    ensures Utilization(more, more as real / 0.8) == 0.8 && Utilization(fewer, more as real / 0.8) < 0.8
  {
    var limit := more as real / 0.8;
    assert limit * 0.8 == more as real;
    QuotientBelow(fewer as real, limit, 0.8);
    assert more as real / limit == 0.8;
  }

  lemma FarLevel(tokens: int, far: real)
    requires 0 <= tokens && far >= 2.0 * tokens as real + 1.0
    ensures Utilization(tokens, far) < 0.8
  {
    QuotientBelow(tokens as real, far, 0.8);
  }

  lemma QuotientBelow(x: real, limit: real, level: real)
    requires limit > 0.0 && x < level * limit
    ensures x / limit < level
  {
    var q := x / limit;
    assert q * limit == x;
    if q >= level {
      ScaleMonotone(level, q, limit);
    }
  }

  /** Recording usage never loosens the governor, whatever the ceilings, if and only if it keeps
      the totals; as it does while the ledger has room and can be read. */
  lemma GovernorTightensIff(rows: seq<UsageRecord>, row: UsageRecord, readOk: bool, sessionId: string, workflowId: string)
    requires NonNegative(rows) && row.totalTokens >= 0 && row.costUsd >= 0.0
    ensures (forall c, fastPath, requested :: Positive(c) ==>
               NoLooser(RetryGovernor(RecordedOver(rows, row, readOk), c, sessionId, workflowId, fastPath, requested),
                        RetryGovernor(rows, c, sessionId, workflowId, fastPath, requested)))
            <==> KeepsTotals(rows, row, readOk, sessionId, workflowId)
    ensures readOk && |rows| < LEDGER_ROWS ==> KeepsTotals(rows, row, readOk, sessionId, workflowId)
  {
    var kept := RecordedOver(rows, row, readOk);
    var s, t := Tokens(rows, OfSession(sessionId)), Tokens(rows, OfWorkflow(workflowId));
    var u, v := Tokens(kept, OfSession(sessionId)), Tokens(kept, OfWorkflow(workflowId));
    TotalsKeepIff(rows, row, readOk, OfSession(sessionId));
    TotalsKeepIff(rows, row, readOk, OfWorkflow(workflowId));
    RecordedNonNegative(rows, row, readOk);
    DropFront(rows, 0, OfSession(sessionId));
    DropFront(rows, 0, OfWorkflow(workflowId));
    DropFront(kept, 0, OfSession(sessionId));
    DropFront(kept, 0, OfWorkflow(workflowId));
    hide Tokens, RecordedOver, TakenOut, GovernorFor, NoLooser;
    if s <= u && t <= v {
      forall c, fastPath, requested
        ensures NoLooser(GovernorFor(u, v, c, fastPath, requested), GovernorFor(s, t, c, fastPath, requested))
      {
        GovernorFollowsTotals(s, t, u, v, c, fastPath, requested);
      }
    } else {
      var c := FallenTotalLoosens(s, t, u, v);
      assert !NoLooser(RetryGovernor(kept, c, sessionId, workflowId, false, 1),
                       RetryGovernor(rows, c, sessionId, workflowId, false, 1));
    }
    if readOk && |rows| < LEDGER_ROWS {
      RoomKeepsTotals(rows, row, sessionId, workflowId);
    }
  }

  /** A governor and a gate that cannot read the ledger allow at least what they would
      otherwise. */
  lemma UnreadLedgerIsLoosest(rows: seq<UsageRecord>, c: Ceilings, sessionId: string, workflowId: string, e: Estimate,
                              fastPath: bool, requested: int)
    requires NonNegative(rows)
    ensures Gate(rows, c, sessionId, workflowId, e) == Allowed ==>
              Gate(Found(rows, false), c, sessionId, workflowId, e) == Allowed
    ensures NoLooser(RetryGovernor(rows, c, sessionId, workflowId, fastPath, requested),
                     RetryGovernor(Found(rows, false), c, sessionId, workflowId, fastPath, requested))
  {
    DropFront(rows, 0, OfSession(sessionId));
    DropFront(rows, 0, OfWorkflow(workflowId));
    assert rows[0..] == rows;
    GovernorFollowsTotals(0, 0, Tokens(rows, OfSession(sessionId)), Tokens(rows, OfWorkflow(workflowId)), c, fastPath, requested);
  }

  lemma UtilizationMonotone(fewer: int, more: int, limit: real)
    requires fewer <= more
    ensures Utilization(fewer, limit) <= Utilization(more, limit)
  {
    if limit > 0.0 {
      ScaleMonotone(fewer as real, more as real, 1.0 / limit);
      assert fewer as real / limit == fewer as real * (1.0 / limit);
      assert more as real / limit == more as real * (1.0 / limit);
    }
  }

  lemma {:induction false} ZeroTokens(row: UsageRecord, n: nat, p: UsageRecord -> bool)
    requires row.totalTokens == 0
    ensures Tokens(seq(n, _ => row), p) == 0
  {
    if n > 0 {
      ZeroTokens(row, n - 1, p);
      assert seq(n, _ => row)[..n - 1] == seq(n - 1, _ => row);
    }
  }

  /** A full ledger can loosen it: once the one row with tokens is pushed out by a row
      without any, a session at its limit gets all its retries back. */
  lemma FullLedgerLoosens(first: UsageRecord, zero: UsageRecord, c: Ceilings, requested: int)
    requires first.totalTokens == 100 && zero.totalTokens == 0 && requested > 0
    requires c.sessionTokenLimit == 100.0 && c.workflowTokenLimit == 100.0
    ensures var rows := [first] + seq(LEDGER_ROWS - 1, _ => zero);
            && |rows| == LEDGER_ROWS
            && RetryGovernor(rows, c, first.sessionId, first.workflowId, false, requested) == Governor(0, 2, 3)
            && RetryGovernor(Recorded(rows, zero), c, first.sessionId, first.workflowId, false, requested) ==
               Governor(requested, 4, 6)
            && !KeepsTotals(rows, zero, true, first.sessionId, first.workflowId)
  {
    var zeros := seq(LEDGER_ROWS - 1, _ => zero);
    var rows := [first] + zeros;
    FullLedgerTotals(first, zero, rows, zeros, OfSession(first.sessionId));
    FullLedgerTotals(first, zero, rows, zeros, OfWorkflow(first.workflowId));
    hide Tokens, Recorded, TakenOut;
    assert GovernorFor(100, 100, c, false, requested) == Governor(0, 2, 3);
    assert GovernorFor(0, 0, c, false, requested) == Governor(requested, 4, 6);
  }

  lemma FullLedgerTotals(first: UsageRecord, zero: UsageRecord, rows: seq<UsageRecord>, zeros: seq<UsageRecord>,
                         p: UsageRecord -> bool)
    requires first.totalTokens == 100 && zero.totalTokens == 0 && p(first)
    requires zeros == seq(LEDGER_ROWS - 1, _ => zero) && rows == [first] + zeros
    ensures Tokens(rows, p) == 100 && Tokens(Recorded(rows, zero), p) == 0 && Tokens(TakenOut(rows, true), p) == 100
  {
    var none: seq<UsageRecord> := [];
    assert none + [first] == [first] == TakenOut(rows, true);
    PushTotals(none, first, p);
    ZeroTokens(zero, LEDGER_ROWS - 1, p);
    TokensAppend([first], zeros, p);
    TotalsKeepIff(rows, zero, true, p);
  }
}
