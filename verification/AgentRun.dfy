// The bounded attempt loop of an agent: routing, provider checkout, execution, validation,
// trace checking and usage accounting.  What router, registry, provider and hooks do in each
// attempt is given by a script, so a statement about all scripts is one about all runs.
module AgentRun {
  import opened Results
  import opened Usage

  datatype RouteAction = Execute | MultiModelReview | HumanReview

  datatype Route = Route(action: RouteAction, provider: Option<string>, model: Option<string>, modelId: Option<string>,
                         providerDigest: Option<string>, modelDigest: Option<string>, protocol: Option<string>,
                         trust: Option<string>, mode: Option<string>, reasoning: Option<string>,
                         reasoningEffective: Option<string>, profileDigest: Option<string>)

  datatype Response = Response(provider: string, model: string, modelId: Option<string>,
                               providerDigest: Option<string>, modelDigest: Option<string>, protocol: Option<string>,
                               trust: Option<string>, mode: Option<string>, reasoningEffective: Option<string>,
                               isMock: bool, usage: Usage)

  datatype Draft = Draft(text: string)

  // A schema violation is reported with a fixed text, anything else with its own safe text.
  datatype Failure = Invalid | Raised(text: string)

  datatype Execution = Threw(failure: Failure) | Plain(draft: Draft) | Traced(draft: Draft, response: Response, prompt: string)

  // What happens around one attempt.  None in a `...Failure` field means that step succeeds.
  // `spent` is what the provider adds to its own counter while it executes.
  datatype Attempt = Attempt(route: Option<Route>, requirementsDigest: Option<string>,
                             prepareFailure: Option<Failure>, checkoutFailure: Option<Failure>,
                             readBeforeFailure: Option<Failure>, execution: Execution, spent: Usage,
                             schemaFailure: Option<Failure>, gateFailure: Option<Failure>, canReadAfter: bool)

  datatype Status = Succeeded | Escalated | AwaitingHuman

  datatype Trace = Trace(provider: Option<string>, model: Option<string>, remoteModel: Option<string>, remoteReported: Option<string>,
                         providerId: Option<string>, providerDigest: Option<string>, modelId: Option<string>,
                         modelDigest: Option<string>, protocol: Option<string>, mode: Option<string>,
                         reasoningRequested: Option<string>, reasoningEffective: Option<string>, trust: Option<string>)

  const NO_TRACE := Trace(None, None, None, None, None, None, None, None, None, None, None, None, None)

  datatype RunResult = RunResult(status: Status, output: Option<Draft>, attempts: nat, routes: seq<Route>, errors: seq<string>,
                                 isMock: bool, trace: Trace, prompt: Option<string>, usage: Usage)

  // The run either returns a result or lets an exception of the router or of the usage
  // accounting through to its caller.
  datatype Outcome = RouterRaised | AccountingRaised | Finished(result: RunResult)

  const UNROUTED := "route did not select a provider"
  const DIGEST_MISMATCH := "route TaskProfile digest differs from execution requirements"
  const INVALID := "provider or agent output failed validation"

  function Message(f: Failure): string {
    match f case Invalid => INVALID case Raised(text) => text
  }

  // ---- one attempt ----------------------------------------------------------------------------

  predicate Pinned(required: Option<string>, actual: Option<string>) {
    required.Some? ==> actual == required
  }

  // The response agrees with everything the route fixes.
  predicate TraceAgrees(r: Route, p: Response) {
    && Pinned(r.provider, Some(p.provider)) && Pinned(r.modelId, p.modelId) && Pinned(r.protocol, p.protocol)
    && Pinned(r.trust, p.trust) && Pinned(r.mode, p.mode) && (p.isMock ==> r.provider == Some("mock"))
    && Pinned(r.providerDigest, p.providerDigest) && Pinned(r.modelDigest, p.modelDigest)
  }

  // The checks in their order; the first disagreement is the one reported.
  function TraceError(r: Route, p: Response): (e: Option<string>)
    ensures e.None? <==> TraceAgrees(r, p)
  {
    if !Pinned(r.provider, Some(p.provider)) then Some("provider response identity differs from route decision")
    else if !Pinned(r.modelId, p.modelId) then Some("provider response model_id differs from route decision")
    else if !Pinned(r.protocol, p.protocol) then Some("provider response protocol differs from route decision")
    else if !Pinned(r.trust, p.trust) then Some("provider response endpoint trust differs from route decision")
    else if !Pinned(r.mode, p.mode) then Some("provider response structured mode differs from route decision")
    else if p.isMock && r.provider != Some("mock") then Some("real provider route returned a Mock response")
    else if !Pinned(r.providerDigest, p.providerDigest) then Some("provider response config digest differs from route decision")
    else if !Pinned(r.modelDigest, p.modelDigest) then Some("provider response model digest differs from route decision")
    else None
  }

  // The provider object has been handed out.
  predicate CheckedOut(a: Attempt) {
    && a.route.Some? && a.route.value.action == Execute && a.route.value.provider.Some?
    && a.route.value.profileDigest == a.requirementsDigest
    && a.prepareFailure.None? && a.checkoutFailure.None?
  }

  predicate Executed(a: Attempt) {
    CheckedOut(a) && a.readBeforeFailure.None?
  }

  function ResponseOf(a: Attempt): Option<Response> {
    if Executed(a) && a.execution.Traced? then Some(a.execution.response) else None
  }

  datatype Verdict = Unroutable | Review(human: bool) | Failed(message: string) | Accepted(draft: Draft)

  function VerdictOf(a: Attempt): Verdict {
    if a.route.None? then Unroutable
    else if a.route.value.action != Execute then Review(a.route.value.action == HumanReview)
    else if a.route.value.provider.None? then Failed(UNROUTED)
    else if a.route.value.profileDigest != a.requirementsDigest then Failed(DIGEST_MISMATCH)
    else if a.prepareFailure.Some? then Failed(Message(a.prepareFailure.value))
    else if a.checkoutFailure.Some? then Failed(Message(a.checkoutFailure.value))
    else if a.readBeforeFailure.Some? then Failed(Message(a.readBeforeFailure.value))
    else if a.execution.Threw? then Failed(Message(a.execution.failure))
    else if a.schemaFailure.Some? then Failed(Message(a.schemaFailure.value))
    else if a.gateFailure.Some? then Failed(Message(a.gateFailure.value))
    else if a.execution.Traced? && TraceError(a.route.value, a.execution.response).Some? then
      Failed(TraceError(a.route.value, a.execution.response).value)
    else Accepted(a.execution.draft)
  }

  function CountersAfter(a: Attempt, c: Counters): Counters {
    if Executed(a) then Spend(c, a.route.value.provider.value, a.spent) else c
  }

  // What the run charges itself for the attempt: the response's usage, or the movement of the
  // provider's counter since the first reading (since nothing, when that reading failed).
  // None when the second reading raises or yields more than the schema admits.
  function ChargeOf(a: Attempt, c: Counters): Option<Usage> {
    if ResponseOf(a).Some? then Some(ResponseOf(a).value.usage)
    else if !CheckedOut(a) then Some(NOTHING)
    else if !a.canReadAfter then None
    else
      var p := a.route.value.provider.value;
      var before := if a.readBeforeFailure.Some? then NOTHING else Reading(c, p);
      var delta := Difference(before, Reading(CountersAfter(a, c), p));
      if WithinCaps(delta) then Some(delta) else None
  }

  // The accumulated usage once the attempt has been accounted for; None when that raises.
  function Charged(accumulated: Usage, a: Attempt, c: Counters): Option<Usage> {
    if !CheckedOut(a) then Some(accumulated)
    else
      match ChargeOf(a, c)
      case None => None
      case Some(charge) => Plus(accumulated, charge)
  }

  // By how much the charge of one attempt exceeds what the provider's counter moved.
  function Discrepancy(a: Attempt, c: Counters, f: Field): int {
    if ResponseOf(a).Some? then Amount(ResponseOf(a).value.usage, f) - Amount(a.spent, f)
    else if CheckedOut(a) && a.readBeforeFailure.Some? then Amount(Reading(c, a.route.value.provider.value), f)
    else 0
  }

  function Moved(a: Attempt, f: Field): nat {
    if Executed(a) then Amount(a.spent, f) else 0
  }

  lemma ExecutedCharge(a: Attempt, c: Counters, f: Field)
    requires Executed(a) && ResponseOf(a).None? && ChargeOf(a, c).Some?
    ensures Amount(ChargeOf(a, c).value, f) == Amount(a.spent, f)
  {
    var p := a.route.value.provider.value;
    DifferenceRecovers(Reading(c, p), a.spent, f);
    assert Reading(CountersAfter(a, c), p) == Sum(Reading(c, p), a.spent);
    hide Amount, Difference, Sum, Reading, WithinCaps;
  }

  lemma UnreadCharge(a: Attempt, c: Counters, f: Field)
    requires CheckedOut(a) && a.readBeforeFailure.Some? && ChargeOf(a, c).Some?
    ensures Amount(ChargeOf(a, c).value, f) == Amount(Reading(c, a.route.value.provider.value), f)
  {
    hide Amount, Difference, Reading, WithinCaps;
    DifferenceOfReading(Reading(c, a.route.value.provider.value), f);
  }

  lemma NoAmount(f: Field)
    ensures Amount(NOTHING, f) == 0
  {
  }

  lemma ChargeIs(a: Attempt, c: Counters, f: Field)
    requires ChargeOf(a, c).Some?
    ensures Amount(ChargeOf(a, c).value, f) == Moved(a, f) + Discrepancy(a, c, f)
    ensures !CheckedOut(a) ==> Moved(a, f) == 0 && Discrepancy(a, c, f) == 0
  {
    NoAmount(f);
    hide Amount, Difference, Sum, Reading, WithinCaps;
    if CheckedOut(a) && ResponseOf(a).None? {
      if Executed(a) { ExecutedCharge(a, c, f); } else { UnreadCharge(a, c, f); }
    }
  }

  // Accounting for an attempt adds what its provider counted, up to the discrepancy.
  lemma ChargedAmount(accumulated: Usage, a: Attempt, c: Counters, f: Field)
    requires Charged(accumulated, a, c).Some?
    ensures Amount(Charged(accumulated, a, c).value, f) == Amount(accumulated, f) + Moved(a, f) + Discrepancy(a, c, f)
  {
    hide ChargeOf, Moved, Discrepancy, Amount;
    if CheckedOut(a) { ChargeIs(a, c, f); } else { NothingMoves(a, c, f); }
  }

  lemma NothingMoves(a: Attempt, c: Counters, f: Field)
    requires !CheckedOut(a)
    ensures Moved(a, f) == 0 && Discrepancy(a, c, f) == 0
  {
  }

  // ---- the attempts so far ----------------------------------------------------------------------

  function Routes(script: seq<Attempt>): (r: seq<Route>)
    requires forall a :: a in script ==> a.route.Some?
    ensures |r| == |script|
  {
    seq(|script|, i requires 0 <= i < |script| => script[i].route.value)
  }

  function Messages(script: seq<Attempt>): (m: seq<string>)
    requires forall a :: a in script ==> VerdictOf(a).Failed?
    ensures |m| == |script|
  {
    seq(|script|, i requires 0 <= i < |script| => VerdictOf(script[i]).message)
  }

  function Count(script: seq<Attempt>): (n: nat)
    ensures n <= |script|
  {
    if script == [] then 0
    else Count(script[..|script| - 1]) + if Executed(script[|script| - 1]) then 1 else 0
  }

  // The most recent attempt that reached execution.
  function LastExecuted(script: seq<Attempt>): (a: Option<Attempt>)
    ensures a.Some? ==> Executed(a.value) && a.value in script
    ensures a.None? <==> Count(script) == 0
  {
    if script == [] then None
    else if Executed(script[|script| - 1]) then Some(script[|script| - 1])
    else LastExecuted(script[..|script| - 1])
  }

  function CountersThrough(script: seq<Attempt>, c: Counters): Counters {
    if script == [] then c
    else CountersAfter(script[|script| - 1], CountersThrough(script[..|script| - 1], c))
  }

  // The accumulated usage; None as soon as one addition raises.
  function Accumulated(script: seq<Attempt>, c: Counters): Option<Usage> {
    if script == [] then Some(NOTHING)
    else
      var k := |script| - 1;
      match Accumulated(script[..k], c)
      case None => None
      case Some(u) => Charged(u, script[k], CountersThrough(script[..k], c))
  }

  // ---- results ----------------------------------------------------------------------------------

  function RouteTrace(r: Route): Trace {
    Trace(r.provider, r.model, r.model, None, r.provider, r.providerDigest, r.modelId, r.modelDigest, r.protocol,
          r.mode, r.reasoning, r.reasoningEffective, r.trust)
  }

  function SuccessTrace(r: Route, p: Option<Response>): Trace {
    match p
    case None => RouteTrace(r)
    case Some(p) =>
      Trace(Some(p.provider), Some(p.model), r.model, Some(p.model), r.provider, p.providerDigest, p.modelId, p.modelDigest,
            p.protocol, p.mode, r.reasoning, p.reasoningEffective, p.trust)
  }

  // An attempt that executed and failed is a mock attempt by its response if it left one,
  // by its route otherwise.
  function MockOf(a: Attempt): bool
    requires Executed(a)
  {
    match ResponseOf(a)
    case Some(p) => p.isMock
    case None => a.route.value.provider == Some("mock")
  }

  function LastTrace(script: seq<Attempt>): Trace {
    match LastExecuted(script)
    case None => NO_TRACE
    case Some(a) => RouteTrace(a.route.value)
  }

  function LastMock(script: seq<Attempt>): bool {
    match LastExecuted(script)
    case None => false
    case Some(a) => MockOf(a)
  }

  ghost predicate AllFail(script: seq<Attempt>) {
    forall a :: a in script ==> VerdictOf(a).Failed?
  }

  // What the run returns when `script` holds exactly the attempts it made.
  function Conclusion(script: seq<Attempt>, c: Counters): Outcome
    requires Stops(script, c)
  {
    var k := |script| - 1;
    var before, last := script[..k], script[k];
    if last.route.None? then RouterRaised
    else
      assert script == before + [last];
      var routes := Routes(script);
      match VerdictOf(last)
      case Review(human) =>
        Finished(RunResult(if human then AwaitingHuman else Escalated, None, Count(before), routes, Messages(before),
                           LastMock(before), LastTrace(before), None, Accumulated(before, c).value))
      case Failed(_) =>
        (match Accumulated(script, c)
         case None => AccountingRaised
         case Some(u) =>
           Finished(RunResult(Escalated, None, Count(script), routes, Messages(script), LastMock(script), LastTrace(script), None, u)))
      case Accepted(draft) =>
        (match Accumulated(script, c)
         case None => AccountingRaised
         case Some(u) =>
           Finished(RunResult(Succeeded, Some(draft), Count(script), routes, Messages(before),
                              MockOf(last), SuccessTrace(last.route.value, ResponseOf(last)),
                              if last.execution.Traced? then Some(last.execution.prompt) else None, u)))
  }

  // The run stops at the first attempt that does not merely fail, or when attempts run out.
  ghost predicate StopsAfter(script: seq<Attempt>, c: Counters, n: nat) {
    && 1 <= n <= |script|
    && Stops(script[..n], c)
    && (n == |script| || !VerdictOf(script[n - 1]).Failed? || Accumulated(script[..n], c).None?)
  }

  // `made` could be the attempts of a whole run: all but the last one failed and were charged.
  ghost predicate Stops(made: seq<Attempt>, c: Counters) {
    made != [] && AllFail(made[..|made| - 1]) && Accumulated(made[..|made| - 1], c).Some?
  }

  // ---- what the router and the hooks are shown -------------------------------------------------

  // The base hook keeps the input; the two modelling agents append one feedback entry built
  // from the latest error.
  datatype Hook = Keep | Feedback(prefix: string)

  const FEEDBACK_LIMIT: nat := 4096

  function Clip(text: string): string {
    if |text| <= FEEDBACK_LIMIT then text else text[..FEEDBACK_LIMIT]
  }

  function Prepared(hook: Hook, guidance: seq<string>, errors: seq<string>): seq<string> {
    if hook.Keep? || errors == [] then guidance
    else guidance + [hook.prefix + Clip(errors[|errors| - 1])]
  }

  datatype Call = Call(retryCount: nat, guidance: seq<string>)

  function RoutedRetries(profileRetries: nat, i: nat): nat {
    profileRetries + if i <= 1 then 0 else i - 1
  }

  // The retry count routed and the input prepared for the attempt after `before`.
  function CallAfter(before: seq<Attempt>, profileRetries: nat, hook: Hook, guidance: seq<string>): Call
    requires AllFail(before)
  {
    Call(RoutedRetries(profileRetries, |before|), Prepared(hook, guidance, Messages(before)))
  }

  function Calls(script: seq<Attempt>, profileRetries: nat, hook: Hook, guidance: seq<string>): (calls: seq<Call>)
    requires script != [] ==> AllFail(script[..|script| - 1])
    ensures |calls| == |script|
  {
    if script == [] then []
    else
      var before := script[..|script| - 1];
      assert before != [] ==> AllFail(before[..|before| - 1]);
      Calls(before, profileRetries, hook, guidance) + [CallAfter(before, profileRetries, hook, guidance)]
  }

  // ---- the loop ----------------------------------------------------------------------------------

  // The providers' own counters, which execution moves.
  class Meters {
    var counters: Counters

    constructor (initial: Counters)
      ensures counters == initial
    {
      counters := initial;
    }

    method Execute(provider: string, spent: Usage)
      modifies this
      ensures counters == Spend(old(counters), provider, spent)
    {
      counters := Spend(counters, provider, spent);
    }

    method GetUsage(provider: string) returns (u: Usage)
      ensures u == Reading(counters, provider)
    {
      u := Reading(counters, provider);
    }
  }

  // Adds the charge of an attempt, made on counters `c`, to the accumulated usage; None when it
  // raises.  The loop only has what the attempt left behind.
  method Account(accumulated: Usage, response: Option<Response>, provider: Option<string>, before: Usage, canReadAfter: bool, meters: Meters,
                 ghost a: Attempt, ghost c: Counters)
    returns (r: Option<Usage>)
    requires response == ResponseOf(a) && canReadAfter == a.canReadAfter && meters.counters == CountersAfter(a, c)
    requires provider == if CheckedOut(a) then a.route.value.provider else None
    requires before == if Executed(a) then Reading(c, a.route.value.provider.value) else NOTHING
    ensures r == Charged(accumulated, a, c)
    ensures r.Some? ==> forall f :: Amount(r.value, f) == Amount(accumulated, f) + Moved(a, f) + Discrepancy(a, c, f)
  {
    if response.Some? {
      r := Plus(accumulated, response.value.usage);
    } else if provider.Some? {
      if !canReadAfter {
        return None;
      }
      var after := meters.GetUsage(provider.value);
      var delta := Difference(before, after);
      r := if WithinCaps(delta) then Plus(accumulated, delta) else None;
    } else {
      r := Some(accumulated);
    }
    hide ChargeOf, Moved, Discrepancy, Amount, Plus, WithinCaps, Difference;
    if r.Some? {
      forall f ensures Amount(r.value, f) == Amount(accumulated, f) + Moved(a, f) + Discrepancy(a, c, f) {
        ChargedAmount(accumulated, a, c, f);
      }
    }
  }

  // What one attempt left behind.
  datatype Trial = Trial(provider: Option<string>, before: Usage, executed: bool, response: Option<Response>,
                         prompt: Option<string>, failure: Option<string>, draft: Draft)

  // The guarded part of an attempt on an executable route.
  method TryAttempt(a: Attempt, meters: Meters) returns (t: Trial)
    requires a.route.Some? && a.route.value.action == Execute && a.route.value.provider.Some?
    modifies meters
    ensures meters.counters == CountersAfter(a, old(meters.counters))
    ensures t.provider == if CheckedOut(a) then a.route.value.provider else None
    ensures t.before == if Executed(a) then Reading(old(meters.counters), a.route.value.provider.value) else NOTHING
    ensures t.executed == Executed(a) && t.response == ResponseOf(a)
    ensures VerdictOf(a) == if t.failure.Some? then Failed(t.failure.value) else Accepted(t.draft)
    ensures t.failure.None? ==> t.executed && t.prompt == if a.execution.Traced? then Some(a.execution.prompt) else None
  {
    var route := a.route.value;
    t := Trial(None, NOTHING, false, None, None, None, Draft(""));
    if route.profileDigest != a.requirementsDigest {
      return t.(failure := Some(DIGEST_MISMATCH));
    }
    if a.prepareFailure.Some? {
      return t.(failure := Some(Message(a.prepareFailure.value)));
    }
    if a.checkoutFailure.Some? {
      return t.(failure := Some(Message(a.checkoutFailure.value)));
    }
    t := t.(provider := route.provider);
    if a.readBeforeFailure.Some? {
      return t.(failure := Some(Message(a.readBeforeFailure.value)));
    }
    var reading := meters.GetUsage(route.provider.value);
    t := t.(before := reading, executed := true);
    meters.Execute(route.provider.value, a.spent);
    match a.execution {
      case Threw(failure) =>
        return t.(failure := Some(Message(failure)));
      case Traced(draft, response, prompt) =>
        t := t.(draft := draft, response := Some(response), prompt := Some(prompt));
      case Plain(draft) =>
        t := t.(draft := draft);
    }
    if a.schemaFailure.Some? {
      return t.(failure := Some(Message(a.schemaFailure.value)));
    }
    if a.gateFailure.Some? {
      return t.(failure := Some(Message(a.gateFailure.value)));
    }
    if t.response.Some? {
      t := t.(failure := TraceError(route, t.response.value));
    }
  }

  // One attempt with its accounting, which happens after failures and successes alike.
  method AttemptAndCharge(a: Attempt, accumulated: Usage, meters: Meters) returns (t: Trial, charged: Option<Usage>)
    requires a.route.Some? && a.route.value.action == Execute && a.route.value.provider.Some?
    modifies meters
    ensures meters.counters == CountersAfter(a, old(meters.counters))
    ensures t.executed == Executed(a) && t.response == ResponseOf(a)
    ensures VerdictOf(a) == if t.failure.Some? then Failed(t.failure.value) else Accepted(t.draft)
    ensures t.failure.None? ==> t.executed && t.prompt == if a.execution.Traced? then Some(a.execution.prompt) else None
    ensures charged == Charged(accumulated, a, old(meters.counters))
    ensures t.executed ==> MockOf(a) == if t.response.Some? then t.response.value.isMock else a.route.value.provider == Some("mock")
    ensures t.response.Some? ==> t.executed
  {
    t := TryAttempt(a, meters);
    hide VerdictOf;
    charged := Account(accumulated, t.response, t.provider, t.before, a.canReadAfter, meters, a, old(meters.counters));
  }

  // The loop's variables after the attempts `made`.
  datatype Locals = Locals(errors: seq<string>, routes: seq<Route>, executed: nat, accumulated: Usage,
                           lastRoute: Option<Route>, lastMock: bool)

  function TraceOf(r: Option<Route>): Trace {
    match r case None => NO_TRACE case Some(route) => RouteTrace(route)
  }

  ghost predicate Tracks(v: Locals, made: seq<Attempt>, c: Counters) {
    && AllFail(made) && Accumulated(made, c) == Some(v.accumulated)
    && v.routes == Routes(made) && v.errors == Messages(made) && v.executed == Count(made)
    && v.lastMock == LastMock(made) && TraceOf(v.lastRoute) == LastTrace(made)
  }

  // The variables once attempt `a` has been charged.
  function Attempted(v: Locals, a: Attempt, accumulated: Usage): Locals
    requires a.route.Some?
  {
    Locals(v.errors, v.routes + [a.route.value], v.executed + (if Executed(a) then 1 else 0), accumulated,
           if Executed(a) then a.route else v.lastRoute, if Executed(a) then MockOf(a) else v.lastMock)
  }

  lemma Snoc(before: seq<Attempt>, a: Attempt)
    ensures var made := before + [a]; made[..|made| - 1] == before && made[|made| - 1] == a
  {
  }

  lemma RoutesSnoc(before: seq<Attempt>, a: Attempt)
    requires AllFail(before) && a.route.Some?
    ensures (forall b :: b in before + [a] ==> b.route.Some?) && Routes(before + [a]) == Routes(before) + [a.route.value]
  {
  }

  lemma MessagesSnoc(before: seq<Attempt>, a: Attempt)
    requires AllFail(before) && VerdictOf(a).Failed?
    ensures AllFail(before + [a]) && Messages(before + [a]) == Messages(before) + [VerdictOf(a).message]
  {
    hide VerdictOf;
  }

  lemma AccumulatedSnoc(before: seq<Attempt>, a: Attempt, c: Counters)
    ensures CountersThrough(before + [a], c) == CountersAfter(a, CountersThrough(before, c))
    ensures Accumulated(before, c).Some? ==>
              Accumulated(before + [a], c) == Charged(Accumulated(before, c).value, a, CountersThrough(before, c))
  {
    Snoc(before, a);
    hide Charged, CountersAfter;
  }

  lemma CountSnoc(before: seq<Attempt>, a: Attempt)
    ensures Count(before + [a]) == Count(before) + if Executed(a) then 1 else 0
    ensures LastExecuted(before + [a]) == if Executed(a) then Some(a) else LastExecuted(before)
  {
    Snoc(before, a);
    hide Executed;
  }

  // A failed and charged attempt.
  lemma TracksNext(v: Locals, before: seq<Attempt>, a: Attempt, c: Counters, accumulated: Usage)
    requires Tracks(v, before, c) && VerdictOf(a).Failed? && Accumulated(before + [a], c) == Some(accumulated)
    ensures Tracks(Attempted(v, a, accumulated).(errors := v.errors + [VerdictOf(a).message]), before + [a], c)
  {
    assert a.route.Some?;
    hide VerdictOf, Accumulated, Executed, MockOf, Messages, Routes, Count, LastExecuted;
    RoutesSnoc(before, a);
    MessagesSnoc(before, a);
    CountSnoc(before, a);
  }

  lemma ReviewConcludes(v: Locals, before: seq<Attempt>, a: Attempt, c: Counters, human: bool)
    requires Tracks(v, before, c) && VerdictOf(a) == Review(human)
    ensures Stops(before + [a], c) && a.route.Some?
    ensures Conclusion(before + [a], c)
         == Finished(RunResult(if human then AwaitingHuman else Escalated, None, v.executed, v.routes + [a.route.value], v.errors,
                               v.lastMock, TraceOf(v.lastRoute), None, v.accumulated))
  {
    Snoc(before, a);
    RoutesSnoc(before, a);
    hide VerdictOf, Accumulated, Messages, Routes, Count, LastMock, LastTrace, AllFail;
  }

  lemma ExhaustionConcludes(v: Locals, before: seq<Attempt>, a: Attempt, c: Counters, w: Locals)
    requires Tracks(v, before, c) && VerdictOf(a).Failed? && Tracks(w, before + [a], c)
    ensures Stops(before + [a], c)
    ensures Conclusion(before + [a], c)
         == Finished(RunResult(Escalated, None, w.executed, w.routes, w.errors, w.lastMock, TraceOf(w.lastRoute), None, w.accumulated))
  {
    Snoc(before, a);
    assert a.route.Some?;
    hide VerdictOf, Accumulated, Messages, Routes, Count, LastMock, LastTrace, AllFail;
  }

  lemma OverflowConcludes(v: Locals, before: seq<Attempt>, a: Attempt, c: Counters)
    requires Tracks(v, before, c) && (VerdictOf(a).Failed? || VerdictOf(a).Accepted?) && Accumulated(before + [a], c).None?
    ensures Stops(before + [a], c) && Conclusion(before + [a], c) == AccountingRaised
  {
    Snoc(before, a);
    assert a.route.Some?;
    hide VerdictOf, Accumulated, Messages, Routes, Count, LastMock, LastTrace, AllFail;
  }

  lemma AcceptanceConcludes(v: Locals, before: seq<Attempt>, a: Attempt, c: Counters, accumulated: Usage)
    requires Tracks(v, before, c) && VerdictOf(a).Accepted? && Accumulated(before + [a], c) == Some(accumulated)
    ensures Stops(before + [a], c) && Executed(a)
    ensures Conclusion(before + [a], c)
         == Finished(RunResult(Succeeded, Some(VerdictOf(a).draft), v.executed + 1, v.routes + [a.route.value], v.errors, MockOf(a),
                               SuccessTrace(a.route.value, ResponseOf(a)),
                               if a.execution.Traced? then Some(a.execution.prompt) else None, accumulated))
  {
    Snoc(before, a);
    assert Executed(a);
    RoutesSnoc(before, a);
    CountSnoc(before, a);
    hide VerdictOf, Accumulated, Messages, Routes, Count, LastMock, LastTrace, AllFail, Executed, SuccessTrace, MockOf;
  }

  lemma CallsSnoc(before: seq<Attempt>, a: Attempt, profileRetries: nat, hook: Hook, guidance: seq<string>)
    requires AllFail(before)
    ensures var made := before + [a];
            && AllFail(made[..|made| - 1])
            && (before != [] ==> AllFail(before[..|before| - 1]))
            && Calls(made, profileRetries, hook, guidance)
               == Calls(before, profileRetries, hook, guidance) + [CallAfter(before, profileRetries, hook, guidance)]
  {
    Snoc(before, a);
    hide VerdictOf, CallAfter;
  }

  datatype Progress = Stop(outcome: Outcome) | Continue(locals: Locals)

  // The body of the loop: attempt `a` after the attempts `before`.
  method RunAttempt(a: Attempt, v: Locals, meters: Meters, ghost before: seq<Attempt>, ghost c: Counters) returns (next: Progress)
    requires Tracks(v, before, c) && meters.counters == CountersThrough(before, c)
    modifies meters
    ensures meters.counters == CountersThrough(before + [a], c)
    ensures Stops(before + [a], c)
    ensures next.Stop? ==> next.outcome == Conclusion(before + [a], c)
                           && (VerdictOf(a).Failed? ==> Accumulated(before + [a], c).None?)
    ensures next.Continue? ==> VerdictOf(a).Failed? && Tracks(next.locals, before + [a], c)
  {
    AccumulatedSnoc(before, a, c);
    Snoc(before, a);
    if a.route.None? {
      return Stop(RouterRaised);
    }
    var route := a.route.value;
    var routes := v.routes + [route];
    if route.action != Execute {
      ReviewConcludes(v, before, a, c, route.action == HumanReview);
      var status := if route.action == HumanReview then AwaitingHuman else Escalated;
      return Stop(Finished(RunResult(status, None, v.executed, routes, v.errors, v.lastMock, TraceOf(v.lastRoute), None, v.accumulated)));
    }
    if route.provider.None? {
      TracksNext(v, before, a, c, v.accumulated);
      return Continue(v.(routes := routes, errors := v.errors + [UNROUTED]));
    }
    next := RunExecutable(a, v, meters, before, c);
  }

  method RunExecutable(a: Attempt, v: Locals, meters: Meters, ghost before: seq<Attempt>, ghost c: Counters) returns (next: Progress)
    requires Tracks(v, before, c) && meters.counters == CountersThrough(before, c)
    requires a.route.Some? && a.route.value.action == Execute && a.route.value.provider.Some?
    modifies meters
    ensures meters.counters == CountersThrough(before + [a], c)
    ensures Stops(before + [a], c)
    ensures next.Stop? ==> next.outcome == Conclusion(before + [a], c)
                           && (VerdictOf(a).Failed? ==> Accumulated(before + [a], c).None?)
    ensures next.Continue? ==> VerdictOf(a).Failed? && Tracks(next.locals, before + [a], c)
  {
    AccumulatedSnoc(before, a, c);
    Snoc(before, a);
    var route := a.route.value;
    var t, charged := AttemptAndCharge(a, v.accumulated, meters);
    hide Conclusion, Accumulated, CountersThrough, AllFail, Messages, Routes, Count, LastMock, LastTrace, VerdictOf,
         ChargeOf, CountersAfter, Plus, CheckedOut, Executed, ResponseOf, MockOf, SuccessTrace, RouteTrace, Stops;
    if charged.None? {
      OverflowConcludes(v, before, a, c);
      return Stop(AccountingRaised);
    }
    var executed := v.executed + if t.executed then 1 else 0;
    var routes := v.routes + [route];
    if t.failure.None? {
      AcceptanceConcludes(v, before, a, c, charged.value);
      var isMock := if t.response.Some? then t.response.value.isMock else route.provider == Some("mock");
      return Stop(Finished(RunResult(Succeeded, Some(t.draft), executed, routes, v.errors, isMock,
                                     SuccessTrace(route, t.response), t.prompt, charged.value)));
    }
    var lastRoute, lastMock := v.lastRoute, v.lastMock;
    if t.executed {
      lastRoute, lastMock := Some(route), route.provider == Some("mock");
    }
    if t.response.Some? {
      lastMock := t.response.value.isMock;
    }
    TracksNext(v, before, a, c, charged.value);
    next := Continue(Locals(v.errors + [t.failure.value], routes, executed, charged.value, lastRoute, lastMock));
  }

  // Attempts 1..max_retries+1 with the script's events.  `n` is the number of attempts made.
  method Run(maxRetries: nat, profileRetries: nat, hook: Hook, guidance: seq<string>, script: seq<Attempt>, meters: Meters)
    returns (outcome: Outcome, calls: seq<Call>, n: nat)
    requires |script| == maxRetries + 1
    modifies meters
    ensures StopsAfter(script, old(meters.counters), n)
    ensures outcome == Conclusion(script[..n], old(meters.counters))
    ensures meters.counters == CountersThrough(script[..n], old(meters.counters))
    ensures calls == Calls(script[..n], profileRetries, hook, guidance)
  {
    ghost var c := meters.counters;
    var v := Locals([], [], 0, NOTHING, None, false);
    calls, n := [], 0;
    StartTracks(v, c, profileRetries, hook, guidance);
    assert script[..0] == [];
    hide Tracks, Calls, Conclusion, Accumulated, CountersThrough, AllFail, Messages, Routes, Count, LastMock, LastTrace, VerdictOf, Stops,
         StopsAfter, CallAfter, Prepared, RoutedRetries, TraceOf, ChargeOf, CheckedOut, Executed, CountersAfter, Plus;
    while n <= maxRetries
      invariant n <= |script|
      invariant Tracks(v, script[..n], c)
      invariant n > 0 ==> Stops(script[..n], c) && Conclusion(script[..n], c) == Exhausted(v)
      invariant meters.counters == CountersThrough(script[..n], c)
      invariant calls == Calls(script[..n], profileRetries, hook, guidance)
    {
      ghost var before := script[..n];
      var a := script[n];
      Extend(script, n);
      CallIs(v, before, c, profileRetries, hook, guidance);
      CallsSnoc(before, a, profileRetries, hook, guidance);
      calls := calls + [Call(RoutedRetries(profileRetries, n), Prepared(hook, guidance, v.errors))];
      var next := RunAttempt(a, v, meters, before, c);
      n := n + 1;
      if next.Stop? {
        StopsHere(script, c, n);
        outcome := next.outcome;
        return;
      }
      ExhaustionConcludes(v, before, a, c, next.locals);
      v := next.locals;
    }
    StopsHere(script, c, n);
    outcome := Exhausted(v);
  }

  lemma Extend(script: seq<Attempt>, n: nat)
    requires n < |script|
    ensures script[..n + 1] == script[..n] + [script[n]]
  {
  }

  lemma StopsHere(script: seq<Attempt>, c: Counters, n: nat)
    requires 1 <= n <= |script| && Stops(script[..n], c)
    requires n == |script| || !VerdictOf(script[n - 1]).Failed? || Accumulated(script[..n], c).None?
    ensures StopsAfter(script, c, n)
  {
    hide Stops, VerdictOf, Accumulated;
  }

  lemma StartTracks(v: Locals, c: Counters, profileRetries: nat, hook: Hook, guidance: seq<string>)
    requires v == Locals([], [], 0, NOTHING, None, false)
    ensures Tracks(v, [], c) && CountersThrough([], c) == c && Calls([], profileRetries, hook, guidance) == []
  {
  }

  // The loop's own errors are the messages of the attempts so far.
  lemma CallIs(v: Locals, before: seq<Attempt>, c: Counters, profileRetries: nat, hook: Hook, guidance: seq<string>)
    requires Tracks(v, before, c)
    ensures AllFail(before)
    ensures CallAfter(before, profileRetries, hook, guidance) == Call(RoutedRetries(profileRetries, |before|), Prepared(hook, guidance, v.errors))
  {
    hide Accumulated, Count, LastMock, LastTrace, VerdictOf;
  }

  function Exhausted(v: Locals): Outcome {
    Finished(RunResult(Escalated, None, v.executed, v.routes, v.errors, v.lastMock, TraceOf(v.lastRoute), None, v.accumulated))
  }
}
