/** Completing a prompt: providers in order, and on each a bounded number of repaired attempts. */
module ProviderLoop {
  import opened Arithmetic
  import opened Sequences
  import opened Texts

  type Content = string

  /** An exception from outside, and whether `shouldFallbackProvider` accepts its message. */
  datatype Fault = Fault(message: string, fallback: bool)

  /** What a provider can be given up for: an outside fault, output still invalid after the
      last attempt, or an answer that repeats the one before it. */
  datatype Error =
    | Raised(fault: Fault)
    | Invalid(attempts: int, fallback: bool)
    | NoProgress(attempts: int, fallback: bool)

  predicate AllowsNext(error: Error) {
    match error
    case Raised(fault) => fault.fallback
    case Invalid(_, fallback) => fallback
    case NoProgress(_, fallback) => fallback
  }

  datatype Completion = Completed(content: Content) | Failed(fault: Fault)

  /** The outside: whether provider `p` can be had, what it answers on its `n`-th attempt,
      what the contract accepts, and how an answer is fingerprinted. */
  datatype World = World(
    acquire: nat -> Option<Fault>,
    complete: (nat, nat) -> Completion,
    valid: Content -> bool,
    fingerprint: Content -> string,
    invalidFallsBack: (nat, nat) -> bool,
    noProgressFallsBack: (nat, nat) -> bool)

  datatype Attempted = Good(content: Content, attempts: nat) | Bad(error: Error) | NoAttempt

  datatype Outcome = Response(content: Content, provider: nat, attempts: nat) | Thrown(error: Error) | NoResult

  /** Attempt `n` on provider `p` answered with something the contract does not accept. */
  ghost predicate Rejected(w: World, p: nat, n: nat) {
    w.complete(p, n).Completed? && !w.valid(w.complete(p, n).content)
  }

  /** Attempt `n` has the non-empty fingerprint of the attempt before it. */
  ghost predicate Repeats(w: World, p: nat, n: nat) {
    && n >= 2
    && w.complete(p, n - 1).Completed? && w.complete(p, n).Completed?
    && w.fingerprint(w.complete(p, n).content) != ""
    && w.fingerprint(w.complete(p, n - 1).content) == w.fingerprint(w.complete(p, n).content)
  }

  /** The first `n` attempts were each rejected with something new. */
  ghost predicate RepairedUpTo(w: World, p: nat, n: nat) {
    w.acquire(p) == None && forall k :: 1 <= k <= n ==> Rejected(w, p, k) && !Repeats(w, p, k)
  }

  /** How provider `p` ended after `n` completion calls. */
  ghost predicate EndsAs(w: World, p: nat, max: int, n: nat, r: Attempted) {
    && n <= Max(0, max + 1)
    && match r
       case Good(content, attempts) =>
         && 1 <= attempts == n && RepairedUpTo(w, p, n - 1)
         && w.complete(p, n) == Completed(content) && w.valid(content)
       case Bad(Invalid(attempts, fallback)) =>
         && attempts == n == max + 1 >= 1 && RepairedUpTo(w, p, n)
         && fallback == w.invalidFallsBack(p, n)
       case Bad(NoProgress(attempts, fallback)) =>
         && 1 <= attempts == n && RepairedUpTo(w, p, n - 1)
         && Rejected(w, p, n) && Repeats(w, p, n) && fallback == w.noProgressFallsBack(p, n)
       case Bad(Raised(fault)) =>
         if n == 0 then w.acquire(p) == Some(fault)
         else w.complete(p, n) == Failed(fault) && RepairedUpTo(w, p, n - 1)
       case NoAttempt => n == 0 && max < 0 && w.acquire(p) == None
  }

  /** A provider that was still being repaired when it ended ran out of attempts. */
  lemma RepairedToTheEnd(w: World, p: nat, max: int, n: nat, r: Attempted)
    requires EndsAs(w, p, max, n, r) && n >= 1 && RepairedUpTo(w, p, n)
    ensures n == max + 1 && r == Bad(Invalid(n, w.invalidFallsBack(p, n)))
  {
    assert Rejected(w, p, n) && !Repeats(w, p, n);
  }

  lemma EndsNoEarlier(w: World, p: nat, max: int, n: nat, r: Attempted, m: nat, q: Attempted)
    requires EndsAs(w, p, max, n, r) && EndsAs(w, p, max, m, q)
    ensures n >= m
  {
    if 1 <= n <= m - 1 {
      RepairedToTheEnd(w, p, max, n, r);
    }
  }

  /** There is only one way for a provider to end. */
  lemma EndsOneWay(w: World, p: nat, max: int, n: nat, r: Attempted, m: nat, q: Attempted)
    requires EndsAs(w, p, max, n, r) && EndsAs(w, p, max, m, q)
    ensures n == m && r == q
  {
    EndsNoEarlier(w, p, max, n, r, m, q);
    EndsNoEarlier(w, p, max, m, q, n, r);
    if n >= 1 && RepairedUpTo(w, p, n) {
      RepairedToTheEnd(w, p, max, n, r);
      RepairedToTheEnd(w, p, max, n, q);
    }
  }

  /** The attempts on one provider. `previous` is the fingerprint that the providers
      before it have left behind; it is never compared with an answer of this one. */
  method TryProvider(w: World, p: nat, max: int, previous: string) returns (r: Attempted, latest: string, n: nat)
    ensures EndsAs(w, p, max, n, r)
  {
    latest, n := previous, 0;
    var unavailable := w.acquire(p);
    if unavailable.Some? {
      return Bad(Raised(unavailable.value)), latest, 0;
    }
    var attempts := 0;
    while attempts <= max
      invariant 0 <= attempts == n && (attempts == 0 || attempts <= max)
      invariant RepairedUpTo(w, p, n)
      invariant n >= 1 ==> Rejected(w, p, n) && latest == w.fingerprint(w.complete(p, n).content)
      decreases max - attempts
    {
      attempts := attempts + 1;
      n := n + 1;
      var completion := w.complete(p, attempts);
      if completion.Failed? {
        return Bad(Raised(completion.fault)), latest, n;
      }
      if w.valid(completion.content) {
        return Good(completion.content, attempts), latest, n;
      }
      var fingerprint := w.fingerprint(completion.content);
      if attempts > 1 && |fingerprint| > 0 && fingerprint == latest {
        return Bad(NoProgress(attempts, w.noProgressFallsBack(p, attempts))), latest, n;
      }
      latest := fingerprint;
      if attempts > max {
        return Bad(Invalid(attempts, w.invalidFallsBack(p, attempts))), latest, n;
      }
    }
    r := NoAttempt;
  }

  /** What happened on each provider tried: how many calls it got and how it ended. */
  datatype Visit = Visit(calls: nat, result: Attempted)

  ghost predicate Visited(w: World, max: int, visits: seq<Visit>) {
    forall p :: 0 <= p < |visits| ==> EndsAs(w, p, max, visits[p].calls, visits[p].result)
  }

  /** Every provider but the last one tried failed with an error that allows the next. */
  ghost predicate FellBack(visits: seq<Visit>) {
    forall p :: 0 <= p < |visits| - 1 ==> visits[p].result.Bad? && AllowsNext(visits[p].result.error)
  }

  function TotalCalls(visits: seq<Visit>): nat {
    if visits == [] then 0 else TotalCalls(visits[..|visits| - 1]) + visits[|visits| - 1].calls
  }

  lemma NothingVisited(w: World, max: int)
    ensures Visited(w, max, []) && FellBack([])
  {
  }

  lemma VisitAdded(w: World, max: int, visits: seq<Visit>, next: Visit)
    requires Visited(w, max, visits) && FellBack(visits)
    requires visits != [] ==> visits[|visits| - 1].result.Bad? && AllowsNext(visits[|visits| - 1].result.error)
    requires EndsAs(w, |visits|, max, next.calls, next.result)
    ensures Visited(w, max, visits + [next]) && FellBack(visits + [next])
  {
    hide EndsAs, AllowsNext;
  }

  lemma GoodIsValid(w: World, p: nat, max: int, n: nat, r: Attempted)
    requires EndsAs(w, p, max, n, r) && r.Good?
    ensures w.valid(r.content) && w.complete(p, r.attempts) == Completed(r.content) && 1 <= r.attempts <= max + 1
  {
  }

  lemma NoAttemptOnlyBelowZero(w: World, p: nat, max: int, n: nat)
    requires EndsAs(w, p, max, n, NoAttempt)
    ensures max < 0
  {
  }

  lemma EndsWithin(w: World, p: nat, max: nat, n: nat, r: Attempted)
    requires EndsAs(w, p, max, n, r)
    ensures n <= max + 1
  {
  }

  lemma {:induction false} CallsBounded(w: World, max: nat, visits: seq<Visit>)
    requires Visited(w, max, visits)
    ensures TotalCalls(visits) <= Times(|visits|, max + 1)
    decreases visits
  {
    if visits != [] {
      hide EndsAs;
      var n := |visits| - 1;
      CallsBounded(w, max, visits[..n]);
      EndsWithin(w, n, max, visits[n].calls, visits[n].result);
    }
  }

  lemma CallsWithin(w: World, max: nat, visits: seq<Visit>, providers: nat)
    requires Visited(w, max, visits) && |visits| <= providers
    ensures TotalCalls(visits) <= providers * (max + 1)
  {
    hide Visited, TotalCalls, Times;
    CallsBounded(w, max, visits);
    TimesMonotone(|visits|, providers, max + 1);
    TimesIsProduct(providers, max + 1);
  }

  /** The outcome follows from the last provider tried. */
  ghost predicate Concludes(providers: nat, visits: seq<Visit>, outcome: Outcome) {
    if visits == [] then providers == 0 && outcome == NoResult
    else
      var last := |visits| - 1;
      match visits[last].result
      case Good(content, attempts) => outcome == Response(content, last, attempts)
      case Bad(error) => outcome == Thrown(error) && (last == providers - 1 || !AllowsNext(error))
      case NoAttempt => outcome == NoResult
  }

  /** The provider loop. A response has passed validation, on the first provider that was
      not given up; calls are bounded; with at least one provider and a retry limit that is
      not negative the loop always ends with a response or an exception. */
  method CompleteWithFallback(w: World, providers: seq<string>, max: int) returns (outcome: Outcome, ghost visits: seq<Visit>)
    ensures Visited(w, max, visits) && FellBack(visits) && |visits| <= |providers|
    ensures Concludes(|providers|, visits, outcome)
    ensures max >= 0 ==> TotalCalls(visits) <= |providers| * (max + 1)
    ensures outcome.Response? ==>
      && w.valid(outcome.content)
      && w.complete(outcome.provider, outcome.attempts) == Completed(outcome.content)
      && outcome.provider < |providers| && 1 <= outcome.attempts <= max + 1
    ensures providers != [] && max >= 0 ==> outcome != NoResult
  {
    hide EndsAs, Visited, FellBack, TotalCalls, AllowsNext;
    var previous := "";
    visits := [];
    NothingVisited(w, max);
    for p := 0 to |providers|
      invariant |visits| == p && Visited(w, max, visits) && FellBack(visits)
      invariant p > 0 ==> visits[p - 1].result.Bad? && AllowsNext(visits[p - 1].result.error) && p < |providers|
    {
      var r, latest, n := TryProvider(w, p, max, previous);
      previous := latest;
      VisitAdded(w, max, visits, Visit(n, r));
      visits := visits + [Visit(n, r)];
      if max >= 0 {
        CallsWithin(w, max, visits, |providers|);
      }
      match r {
        case Good(content, attempts) =>
          GoodIsValid(w, p, max, n, r);
          return Response(content, p, attempts), visits;
        case NoAttempt =>
          NoAttemptOnlyBelowZero(w, p, max, n);
          return NoResult, visits;
        case Bad(error) =>
          if p >= |providers| - 1 || !AllowsNext(error) {
            return Thrown(error), visits;
          }
      }
    }
    if max >= 0 {
      CallsWithin(w, max, visits, |providers|);
    }
    outcome := NoResult;
  }

  /** `Array.from(new Set([route, own, ...fallbacks, ...ownFallbacks]))`. */
  function ProviderOrder(route: string, own: string, fallbacks: seq<string>, ownFallbacks: seq<string>): seq<string> {
    Dedupe([route, own] + fallbacks + ownFallbacks)
  }

  /** The list is never empty and names no provider twice. */
  lemma ProviderOrderIsUsable(route: string, own: string, fallbacks: seq<string>, ownFallbacks: seq<string>)
    ensures var order := ProviderOrder(route, own, fallbacks, ownFallbacks);
            && order != [] && Distinct(order)
            && forall p :: p in order <==> p == route || p == own || p in fallbacks || p in ownFallbacks
  {
    var all := [route, own] + fallbacks + ownFallbacks;
    DedupeElements(all);
    assert all[0] == route;
    assert route in Dedupe(all);
    assert forall p :: p in all <==> p == route || p == own || p in fallbacks || p in ownFallbacks;
  }

  /** What the outside says of the way provider `p` ended: whether the next one may be tried. */
  ghost predicate MayGoOn(w: World, p: nat, visit: Visit) {
    match visit.result
    case Bad(Raised(fault)) => fault.fallback && (w.acquire(p) == Some(fault) || w.complete(p, visit.calls) == Failed(fault))
    case Bad(Invalid(_, _)) => w.invalidFallsBack(p, visit.calls)
    case Bad(NoProgress(_, _)) => w.noProgressFallsBack(p, visit.calls)
    case _ => false
  }

  /** Whether the loop goes on to the next provider is up to the outside: every provider passed
      over allowed that, and an exception comes from one that did not, or from the last. */
  lemma FallbackIsAllowed(w: World, max: int, visits: seq<Visit>, providers: nat, outcome: Outcome)
    requires Visited(w, max, visits) && FellBack(visits) && Concludes(providers, visits, outcome)
    ensures forall p :: 0 <= p < |visits| - 1 ==> MayGoOn(w, p, visits[p])
    ensures outcome.Thrown? && |visits| < providers ==> !MayGoOn(w, |visits| - 1, visits[|visits| - 1])
  {
    forall p | 0 <= p < |visits|
      ensures visits[p].result.Bad? ==> (AllowsNext(visits[p].result.error) <==> MayGoOn(w, p, visits[p]))
    {
      assert EndsAs(w, p, max, visits[p].calls, visits[p].result);
    }
  }
}
