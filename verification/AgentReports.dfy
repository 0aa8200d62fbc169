// What a finished run reports, in terms of the events of its attempts alone.
module AgentReports {
  import opened Results
  import opened Usage
  import opened AgentRun
  import opened AgentProperties

  // ---- the stages of an attempt ----------------------------------------------------------------

  predicate Says(f: Option<Failure>, m: string) {
    match f
    case None => false
    case Some(Invalid) => m == "provider or agent output failed validation"
    case Some(Raised(text)) => m == text
  }

  // The k-th check of a response against its route fails.
  predicate Differs(r: Route, p: Response, k: nat) {
    match k
    case 0 => r.provider.Some? && p.provider != r.provider.value
    case 1 => r.modelId.Some? && p.modelId != r.modelId
    case 2 => r.protocol.Some? && p.protocol != r.protocol
    case 3 => r.trust.Some? && p.trust != r.trust
    case 4 => r.mode.Some? && p.mode != r.mode
    case 5 => p.isMock && r.provider != Some("mock")
    case 6 => r.providerDigest.Some? && p.providerDigest != r.providerDigest
    case 7 => r.modelDigest.Some? && p.modelDigest != r.modelDigest
    case _ => false
  }

  const TRACE_TEXTS := [
    "provider response identity differs from route decision", "provider response model_id differs from route decision",
    "provider response protocol differs from route decision", "provider response endpoint trust differs from route decision",
    "provider response structured mode differs from route decision", "real provider route returned a Mock response",
    "provider response config digest differs from route decision", "provider response model digest differs from route decision"]

  // The k-th stage of an attempt fails with message m.
  predicate FailsAt(a: Attempt, k: nat, m: string) {
    && a.route.Some?
    && match k
       case 0 => a.route.value.provider.None? && m == "route did not select a provider"
       case 1 => a.route.value.profileDigest != a.requirementsDigest
                 && m == "route TaskProfile digest differs from execution requirements"
       case 2 => Says(a.prepareFailure, m)
       case 3 => Says(a.checkoutFailure, m)
       case 4 => Says(a.readBeforeFailure, m)
       case 5 => a.execution.Threw? && Says(Some(a.execution.failure), m)
       case 6 => Says(a.schemaFailure, m)
       case 7 => Says(a.gateFailure, m)
       case _ => k < 16 && a.execution.Traced? && Differs(a.route.value, a.execution.response, k - 8) && m == TRACE_TEXTS[k - 8]
  }

  // No stage before the k-th fails.
  ghost predicate ReachesStage(a: Attempt, k: nat) {
    forall j, m :: 0 <= j < k ==> !FailsAt(a, j, m)
  }

  ghost predicate FirstFailure(a: Attempt, m: string) {
    exists k :: 0 <= k < 16 && FailsAt(a, k, m) && ReachesStage(a, k)
  }

  predicate ToExecute(a: Attempt) {
    a.route.Some? && a.route.value.action == Execute
  }

  // The stage at which a failing trace check reports.
  lemma TraceErrorAt(r: Route, p: Response) returns (k: nat)
    requires TraceError(r, p).Some?
    ensures k < 8 && Differs(r, p, k) && TraceError(r, p).value == TRACE_TEXTS[k] && forall j :: 0 <= j < k ==> !Differs(r, p, j)
  {
    k := if !Pinned(r.provider, Some(p.provider)) then 0
         else if !Pinned(r.modelId, p.modelId) then 1
         else if !Pinned(r.protocol, p.protocol) then 2
         else if !Pinned(r.trust, p.trust) then 3
         else if !Pinned(r.mode, p.mode) then 4
         else if p.isMock && r.provider != Some("mock") then 5
         else if !Pinned(r.providerDigest, p.providerDigest) then 6
         else 7;
  }

  lemma TraceAgreesIff(r: Route, p: Response)
    ensures TraceAgrees(r, p) <==> forall k :: 0 <= k < 8 ==> !Differs(r, p, k)
  {
    if !TraceAgrees(r, p) { var k := TraceErrorAt(r, p); }
  }

  // The stage at which an unsuccessful attempt reports.
  lemma FailureAt(a: Attempt) returns (k: nat)
    requires VerdictOf(a).Failed?
    ensures ToExecute(a) && k < 16 && FailsAt(a, k, VerdictOf(a).message) && ReachesStage(a, k)
  {
    if a.route.value.provider.None? { k := 0; }
    else if a.route.value.profileDigest != a.requirementsDigest { k := 1; }
    else if a.prepareFailure.Some? { k := 2; }
    else if a.checkoutFailure.Some? { k := 3; }
    else if a.readBeforeFailure.Some? { k := 4; }
    else if a.execution.Threw? { k := 5; }
    else if a.schemaFailure.Some? { k := 6; }
    else if a.gateFailure.Some? { k := 7; }
    else {
      k := TraceErrorAt(a.route.value, a.execution.response);
      hide Differs;
      k := 8 + k;
    }
  }

  lemma AllStagesPass(a: Attempt)
    requires ToExecute(a)
    ensures VerdictOf(a).Accepted? <==> ReachesStage(a, 16)
    ensures VerdictOf(a).Accepted? || VerdictOf(a).Failed?
  {
    if VerdictOf(a).Failed? {
      var k := FailureAt(a);
    } else {
      AcceptedIff(a);
      hide VerdictOf, TRACE_TEXTS, Differs;
      if a.execution.Traced? { TraceAgreesIff(a.route.value, a.execution.response); }
    }
  }

  // ---- status ------------------------------------------------------------------------------------

  // How a finished run ends, by the last route and the stages of the last attempt.
  lemma StatusIs(script: seq<Attempt>, c: Counters, n: nat, r: RunResult)
    requires IsResult(script, c, n, r)
    ensures var a := script[n - 1];
            && a.route.Some?
            && (r.status == AwaitingHuman <==> a.route.value.action == HumanReview)
            && (r.status == Succeeded <==> a.route.value.action == Execute && ReachesStage(a, 16))
            && (r.status == Escalated <==>
                  a.route.value.action == MultiModelReview || (a.route.value.action == Execute && !ReachesStage(a, 16)))
            && (a.route.value.action == Execute && !ReachesStage(a, 16) ==> n == |script|)
  {
    var a := script[n - 1];
    assert script[..n][n - 1] == a;
    StatusByVerdict(script[..n], c, r);
    VerdictIs(a);
    if VerdictOf(a).Failed? { FinishedIsCharged(script, c, n, r); }
  }

  lemma StatusByVerdict(made: seq<Attempt>, c: Counters, r: RunResult)
    requires Stops(made, c) && Conclusion(made, c) == Finished(r)
    ensures made[|made| - 1].route.Some?
    ensures match VerdictOf(made[|made| - 1])
            case Review(human) => r.status == if human then AwaitingHuman else Escalated
            case Failed(_) => r.status == Escalated
            case Accepted(_) => r.status == Succeeded
            case Unroutable => false
  {
    hide Accumulated, LastMock, LastTrace, SuccessTrace, MockOf, Messages, Routes, Count, AllFail, ResponseOf;
  }

  lemma VerdictIs(a: Attempt)
    requires a.route.Some?
    ensures match VerdictOf(a)
            case Review(human) => a.route.value.action != Execute && (human <==> a.route.value.action == HumanReview)
            case Failed(_) => a.route.value.action == Execute && !ReachesStage(a, 16)
            case Accepted(_) => a.route.value.action == Execute && ReachesStage(a, 16)
            case Unroutable => false
  {
    if a.route.value.action == Execute { AllStagesPass(a); }
    hide ReachesStage;
  }

  // Each recorded error is what the first failing stage of that attempt said.
  lemma ErrorsAreFirstFailures(script: seq<Attempt>, c: Counters, n: nat, r: RunResult, i: nat)
    requires IsResult(script, c, n, r) && i < |r.errors|
    ensures i < n && ToExecute(script[i]) && FirstFailure(script[i], r.errors[i])
  {
    RunBudget(script, c, n, r);
    assert VerdictOf(script[i]) == Failed(r.errors[i]);
    hide VerdictOf, IsResult, FailsAt, ReachesStage;
    var k := FailureAt(script[i]);
  }

  // ---- executed attempts ---------------------------------------------------------------------------

  // Every stage before execution passes.
  ghost predicate Runs(a: Attempt) {
    ToExecute(a) && ReachesStage(a, 5)
  }

  lemma RunsIff(a: Attempt)
    ensures Executed(a) <==> Runs(a)
  {
    if ToExecute(a) && !Executed(a) {
      if a.route.value.provider.None? {
        assert FailsAt(a, 0, UNROUTED);
      } else if a.route.value.profileDigest != a.requirementsDigest {
        assert FailsAt(a, 1, DIGEST_MISMATCH);
      } else if a.prepareFailure.Some? {
        assert FailsAt(a, 2, Message(a.prepareFailure.value));
      } else if a.checkoutFailure.Some? {
        assert FailsAt(a, 3, Message(a.checkoutFailure.value));
      } else {
        assert FailsAt(a, 4, Message(a.readBeforeFailure.value));
      }
    }
  }

  ghost function Executions(script: seq<Attempt>, n: nat): set<nat>
    requires n <= |script|
  {
    set i: nat | i < n && Runs(script[i])
  }

  lemma ExecutionsNext(script: seq<Attempt>, n: nat)
    requires n < |script|
    ensures |Executions(script, n + 1)| == |Executions(script, n)| + if Runs(script[n]) then 1 else 0
  {
    hide Runs;
    assert n !in Executions(script, n);
    assert Executions(script, n + 1) == Executions(script, n) + if Runs(script[n]) then {n} else {};
  }

  lemma {:induction false} CountIs(script: seq<Attempt>, n: nat)
    requires n <= |script|
    ensures Count(script[..n]) == |Executions(script, n)|
  {
    if n == 0 {
      assert Executions(script, 0) == {};
    } else {
      assert script[..n] == script[..n - 1] + [script[n - 1]];
      hide *;
      CountIs(script, n - 1);
      RunsIff(script[n - 1]);
      CountSnoc(script[..n - 1], script[n - 1]);
      ExecutionsNext(script, n - 1);
    }
  }

  // The reported number of attempts is the number of attempts that executed.
  lemma AttemptsAreExecutions(script: seq<Attempt>, c: Counters, n: nat, r: RunResult)
    requires IsResult(script, c, n, r)
    ensures n <= |script| && r.attempts == |Executions(script, n)|
  {
    var made := script[..n];
    assert made == made[..n - 1] + [made[n - 1]];
    AttemptsAreCounted(made, c, r);
    if VerdictOf(made[n - 1]).Review? { ReviewDoesNotExecute(made[..n - 1], made[n - 1]); }
    CountIs(script, n);
  }

  lemma AttemptsAreCounted(made: seq<Attempt>, c: Counters, r: RunResult)
    requires Stops(made, c) && Conclusion(made, c) == Finished(r)
    ensures r.attempts == if VerdictOf(made[|made| - 1]).Review? then Count(made[..|made| - 1]) else Count(made)
  {
    StatusByVerdict(made, c, r);
    hide Conclusion, Stops, VerdictOf, Count, LastTrace, LastMock;
    if r.status == Succeeded {
      SuccessCount(made, c, r);
    } else {
      ConclusionTrace(made, c, r);
    }
  }

  lemma SuccessCount(made: seq<Attempt>, c: Counters, r: RunResult)
    requires Stops(made, c) && Conclusion(made, c) == Finished(r) && r.status == Succeeded
    ensures r.attempts == Count(made)
  {
    hide Accumulated, LastMock, LastTrace, SuccessTrace, MockOf, Messages, Routes, Count, AllFail, ResponseOf;
  }

  // ---- trace ----------------------------------------------------------------------------------------

  // What a route alone tells about an execution.
  predicate TracesRoute(t: Trace, r: Route) {
    && t.provider == r.provider && t.model == r.model && t.remoteModel == r.model && t.remoteReported == None
    && t.providerId == r.provider && t.providerDigest == r.providerDigest && t.modelId == r.modelId && t.modelDigest == r.modelDigest
    && t.protocol == r.protocol && t.mode == r.mode && t.trust == r.trust
    && t.reasoningRequested == r.reasoning && t.reasoningEffective == r.reasoningEffective
  }

  // What it tells together with a response: requested names from the route, the rest as reported.
  predicate TracesResponse(t: Trace, r: Route, p: Response) {
    && t.provider == Some(p.provider) && t.model == Some(p.model) && t.remoteModel == r.model && t.remoteReported == Some(p.model)
    && t.providerId == r.provider && t.providerDigest == p.providerDigest && t.modelId == p.modelId && t.modelDigest == p.modelDigest
    && t.protocol == p.protocol && t.mode == p.mode && t.trust == p.trust
    && t.reasoningRequested == r.reasoning && t.reasoningEffective == p.reasoningEffective
  }

  predicate TracesNothing(t: Trace) {
    && t.provider.None? && t.model.None? && t.remoteModel.None? && t.remoteReported.None? && t.providerId.None?
    && t.providerDigest.None? && t.modelId.None? && t.modelDigest.None? && t.protocol.None? && t.mode.None?
    && t.reasoningRequested.None? && t.reasoningEffective.None? && t.trust.None?
  }

  // A successful run reports its last attempt's output, prompt and mock flag, and traces the
  // response if there was one, the route otherwise.
  lemma SuccessReport(script: seq<Attempt>, c: Counters, n: nat, r: RunResult)
    requires IsResult(script, c, n, r) && r.status == Succeeded
    ensures var a := script[n - 1];
            && a.route.Some?
            && match a.execution
               case Threw(_) => false
               case Plain(draft) =>
                 && r.output == Some(draft) && r.prompt == None && (r.isMock <==> a.route.value.provider == Some("mock"))
                 && TracesRoute(r.trace, a.route.value)
               case Traced(draft, p, prompt) =>
                 && r.output == Some(draft) && r.prompt == Some(prompt) && r.isMock == p.isMock
                 && TracesResponse(r.trace, a.route.value, p)
  {
    var made := script[..n];
    assert made[n - 1] == script[n - 1];
    SuccessIsFirstAccepted(script, c, n, r);
    AcceptedIff(script[n - 1]);
    SuccessPrompt(made, c, r);
    hide VerdictOf, Conclusion, StopsAfter;
  }

  lemma SuccessPrompt(made: seq<Attempt>, c: Counters, r: RunResult)
    requires Stops(made, c) && Conclusion(made, c) == Finished(r) && r.status == Succeeded
    ensures var a := made[|made| - 1]; r.prompt == if a.execution.Traced? then Some(a.execution.prompt) else None
  {
    hide Accumulated, LastMock, LastTrace, SuccessTrace, MockOf, Messages, Routes, Count, AllFail, ResponseOf;
  }

  // The j-th attempt is the last one that executed.
  ghost predicate LastToRun(script: seq<Attempt>, n: nat, j: nat)
    requires n <= |script|
  {
    j < n && Runs(script[j]) && forall i :: j < i < n ==> !Runs(script[i])
  }

  lemma {:induction false} LastExecutedAt(script: seq<Attempt>, n: nat) returns (j: nat)
    requires n <= |script| && LastExecuted(script[..n]).Some?
    ensures LastToRun(script, n, j) && LastExecuted(script[..n]) == Some(script[j])
  {
    RunsIff(script[n - 1]);
    assert script[..n] == script[..n - 1] + [script[n - 1]];
    CountSnoc(script[..n - 1], script[n - 1]);
    hide Runs, Executed;
    if Runs(script[n - 1]) {
      j := n - 1;
    } else {
      hide LastExecuted;
      j := LastExecutedAt(script, n - 1);
    }
  }

  lemma {:induction false} NoneExecuted(script: seq<Attempt>, n: nat)
    requires n <= |script| && LastExecuted(script[..n]).None?
    ensures forall i :: 0 <= i < n ==> !Runs(script[i])
  {
    if n > 0 {
      RunsIff(script[n - 1]);
      assert script[..n] == script[..n - 1] + [script[n - 1]];
      CountSnoc(script[..n - 1], script[n - 1]);
      hide Runs, Executed, LastExecuted;
      NoneExecuted(script, n - 1);
    }
  }

  // Without success a run has no output; it traces the route of the last attempt that executed,
  // and is marked mock by that attempt's response if it left one, by its route otherwise.
  lemma FailureReport(script: seq<Attempt>, c: Counters, n: nat, r: RunResult)
    requires IsResult(script, c, n, r) && r.status != Succeeded
    ensures r.output == None && r.prompt == None && n <= |script|
    ensures (forall i :: 0 <= i < n ==> !Runs(script[i])) ==> TracesNothing(r.trace) && !r.isMock
    ensures forall j: nat {:trigger LastToRun(script, n, j)} :: LastToRun(script, n, j) ==>
              && TracesRoute(r.trace, script[j].route.value)
              && (r.isMock <==> if script[j].execution.Traced? then script[j].execution.response.isMock
                                else script[j].route.value.provider == Some("mock"))
  {
    UnsuccessfulTrace(script, c, n, r);
    hide Conclusion, StopsAfter, Count;
    if LastExecuted(script[..n]).Some? {
      var last := LastExecutedAt(script, n);
      forall j: nat | LastToRun(script, n, j)
        ensures j == last
      {
      }
    } else {
      NoneExecuted(script, n);
    }
  }

  // ---- guidance ---------------------------------------------------------------------------------------

  // The entry added for an error: the agent's prefix and the first 4096 characters of the error.
  predicate IsFeedback(entry: string, prefix: string, error: string) {
    && prefix <= entry && entry[|prefix|..] <= error
    && |entry| - |prefix| == if |error| <= 4096 then |error| else 4096
  }

  // What the i-th attempt is shown, by what the attempt before it said.
  lemma ShownGuidance(script: seq<Attempt>, profileRetries: nat, hook: Hook, guidance: seq<string>, i: nat)
    requires i < |script| && AllFail(script[..|script| - 1])
    ensures var shown := Calls(script, profileRetries, hook, guidance)[i].guidance;
            if i == 0 || hook.Keep? then shown == guidance
            else exists m, entry ::
                   FirstFailure(script[i - 1], m) && IsFeedback(entry, hook.prefix, m) && shown == guidance + [entry]
  {
    GuidanceIsOriginalPlusLatest(script, profileRetries, hook, guidance, i);
    if i > 0 && hook.Feedback? {
      var m := VerdictOf(script[i - 1]).message;
      var k := FailureAt(script[i - 1]);
      hide VerdictOf, Calls, FailsAt, ReachesStage;
      assert FirstFailure(script[i - 1], m);
      ClippedFeedback(hook.prefix, m);
    }
  }

  lemma ClippedFeedback(prefix: string, error: string)
    ensures IsFeedback(prefix + Clip(error), prefix, error)
  {
    assert (prefix + Clip(error))[|prefix|..] == Clip(error);
  }

  // ---- accounting -------------------------------------------------------------------------------------

  // A provider object has been handed out, and one has answered.
  ghost predicate Held(a: Attempt) {
    ToExecute(a) && ReachesStage(a, 4)
  }

  ghost predicate Replied(a: Attempt) {
    Runs(a) && a.execution.Traced?
  }

  lemma HeldIff(a: Attempt)
    ensures CheckedOut(a) <==> Held(a)
  {
    if ToExecute(a) && !CheckedOut(a) {
      if a.route.value.provider.None? {
        assert FailsAt(a, 0, UNROUTED);
      } else if a.route.value.profileDigest != a.requirementsDigest {
        assert FailsAt(a, 1, DIGEST_MISMATCH);
      } else if a.prepareFailure.Some? {
        assert FailsAt(a, 2, Message(a.prepareFailure.value));
      } else {
        assert FailsAt(a, 3, Message(a.checkoutFailure.value));
      }
    }
  }

  // What an attempt costs: the answer's own figure, what its provider counted, or everything the
  // provider had counted before when the first reading failed.
  ghost function Cost(a: Attempt, c: Counters, f: Field): nat {
    if Replied(a) then Amount(a.execution.response.usage, f)
    else if Runs(a) then Amount(a.spent, f)
    else if Held(a) && a.route.value.provider.Some? then Amount(Reading(c, a.route.value.provider.value), f)
    else 0
  }

  ghost function TotalCost(script: seq<Attempt>, c: Counters, f: Field): nat {
    if script == [] then 0
    else
      var k := |script| - 1;
      TotalCost(script[..k], c, f) + Cost(script[k], CountersThrough(script[..k], c), f)
  }

  function Cap(f: Field): nat {
    if f == Requests then 1_000_000 else 1_000_000_000
  }

  lemma CapsAre(u: Usage)
    ensures WithinCaps(u) <==> forall f :: Amount(u, f) <= Cap(f)
  {
    if forall f :: Amount(u, f) <= Cap(f) {
      assert Amount(u, Requests) <= Cap(Requests);
      forall f | f in u.tokens && f != Requests
        ensures u.tokens[f] <= MAX_TOKENS
      {
        assert Amount(u, f) <= Cap(f);
      }
    }
  }

  // The usage added for an attempt on a provider that was handed out.
  function Due(a: Attempt, c: Counters): Usage
    requires CheckedOut(a)
  {
    if ResponseOf(a).Some? then ResponseOf(a).value.usage
    else
      var p := a.route.value.provider.value;
      Difference(if a.readBeforeFailure.Some? then NOTHING else Reading(c, p), Reading(CountersAfter(a, c), p))
  }

  lemma DueIsCost(a: Attempt, c: Counters, f: Field)
    requires CheckedOut(a)
    ensures Amount(Due(a, c), f) == Cost(a, c, f)
  {
    RunsIff(a);
    HeldIff(a);
    hide Runs, Held, Amount, Difference, Sum;
    var p := a.route.value.provider.value;
    DifferenceRecovers(Reading(c, p), a.spent, f);
    DifferenceOfReading(Reading(c, p), f);
  }

  // The i-th attempt can be paid for: it answered or its provider's counter can be read again,
  // and no total exceeds what the provider schema admits.
  ghost predicate Payable(script: seq<Attempt>, c: Counters, i: nat)
    requires i < |script|
  {
    Held(script[i]) ==> (Replied(script[i]) || script[i].canReadAfter) && forall f :: TotalCost(script[..i + 1], c, f) <= Cap(f)
  }

  lemma AddedCost(u: Usage, charge: Usage, before: Field -> nat, cost: Field -> nat)
    requires forall f :: Amount(u, f) == before(f) && Amount(charge, f) == cost(f)
    ensures Plus(u, charge).Some? <==> forall f :: before(f) + cost(f) <= Cap(f)
    ensures Plus(u, charge).Some? ==> forall f :: Amount(Plus(u, charge).value, f) == before(f) + cost(f)
    ensures Plus(u, charge).Some? ==> WithinCaps(charge)
  {
    CapsAre(Sum(u, charge));
    CapsAre(charge);
    forall f
      ensures Amount(Sum(u, charge), f) == Amount(u, f) + Amount(charge, f)
    {
      AmountOfSum(u, charge, f);
    }
    hide Amount, Cap, WithinCaps, Sum;
    if Plus(u, charge).Some? {
      forall f
        ensures Amount(charge, f) <= Cap(f)
      {
        assert Amount(Sum(u, charge), f) <= Cap(f);
      }
    }
  }

  lemma ChargedIsDue(u: Usage, a: Attempt, c: Counters)
    requires CheckedOut(a) && (Plus(u, Due(a, c)).Some? ==> WithinCaps(Due(a, c)))
    ensures Charged(u, a, c) == if ResponseOf(a).None? && !a.canReadAfter then None else Plus(u, Due(a, c))
  {
    hide Plus, WithinCaps, Difference, Reading, CountersAfter, Executed;
  }

  lemma NoCost(a: Attempt, c: Counters, f: Field)
    requires !Held(a)
    ensures Cost(a, c, f) == 0
  {
    HeldIff(a);
    RunsIff(a);
    hide Held, Runs;
  }

  lemma Paid(u: Usage, a: Attempt, c: Counters, total: Field -> nat)
    requires forall f :: Amount(u, f) == total(f)
    ensures Charged(u, a, c).Some?
            <==> (Held(a) ==> (Replied(a) || a.canReadAfter) && forall f :: total(f) + Cost(a, c, f) <= Cap(f))
    ensures Charged(u, a, c).Some? ==> forall f :: Amount(Charged(u, a, c).value, f) == total(f) + Cost(a, c, f)
  {
    HeldIff(a);
    RunsIff(a);
    hide Held, Runs, Cost, Amount, Cap, Plus, Due, WithinCaps, ChargeOf, CheckedOut;
    if CheckedOut(a) {
      forall f ensures Amount(Due(a, c), f) == Cost(a, c, f) { DueIsCost(a, c, f); }
      AddedCost(u, Due(a, c), total, f => Cost(a, c, f));
      ChargedIsDue(u, a, c);
    } else {
      forall f ensures Cost(a, c, f) == 0 { NoCost(a, c, f); }
    }
  }

  // A run keeps accounts exactly as long as every attempt can be paid for, and its account is
  // the total of their costs.
  lemma {:induction false} AccountedIff(script: seq<Attempt>, c: Counters)
    ensures Accumulated(script, c).Some? <==> forall i :: 0 <= i < |script| ==> Payable(script, c, i)
    ensures Accumulated(script, c).Some? ==> forall f :: Amount(Accumulated(script, c).value, f) == TotalCost(script, c, f)
  {
    if script == [] {
      forall f ensures Amount(NOTHING, f) == 0 { NoAmount(f); }
    } else {
      var k := |script| - 1;
      AccountedIff(script[..k], c);
      assert script[..k + 1] == script;
      forall i | 0 <= i < k
        ensures Payable(script[..k], c, i) <==> Payable(script, c, i)
      {
        assert script[..k][..i + 1] == script[..i + 1];
      }
      hide Held, Replied, Cost, Amount, Cap, Charged, CountersThrough;
      if Accumulated(script[..k], c).Some? {
        Paid(Accumulated(script[..k], c).value, script[k], CountersThrough(script[..k], c), f => TotalCost(script[..k], c, f));
        assert forall f :: TotalCost(script[..k + 1], c, f) == TotalCost(script[..k], c, f) + Cost(script[k], CountersThrough(script[..k], c), f);
        assert Payable(script, c, k) <==> Charged(Accumulated(script[..k], c).value, script[k], CountersThrough(script[..k], c)).Some?;
      }
    }
  }

  lemma PayablePrefix(script: seq<Attempt>, c: Counters, n: nat, i: nat)
    requires i < n <= |script|
    ensures Payable(script[..n], c, i) <==> Payable(script, c, i)
  {
    assert script[..n][..i + 1] == script[..i + 1];
    hide Held, Replied, TotalCost, Cap;
  }

  lemma AccountedBefore(script: seq<Attempt>, c: Counters, n: nat)
    requires n <= |script|
    ensures Accumulated(script[..n], c).Some? <==> forall i :: 0 <= i < n ==> Payable(script, c, i)
  {
    AccountedIff(script[..n], c);
    hide Payable, Accumulated;
    forall i | 0 <= i < n
      ensures Payable(script[..n], c, i) <==> Payable(script, c, i)
    {
      PayablePrefix(script, c, n, i);
    }
  }

  // The i-th attempt fails, and the loop goes on if it can.
  ghost predicate GoesOn(script: seq<Attempt>, c: Counters, i: nat)
    requires i < |script|
  {
    ToExecute(script[i]) && !ReachesStage(script[i], 16) && Payable(script, c, i)
  }

  lemma FailedIff(a: Attempt)
    ensures VerdictOf(a).Failed? <==> ToExecute(a) && !ReachesStage(a, 16)
  {
    if a.route.Some? { VerdictIs(a); }
    hide ReachesStage;
  }

  // A run stops at the first attempt that does not go on, or when attempts run out.
  lemma StopsIff(script: seq<Attempt>, c: Counters, n: nat)
    ensures StopsAfter(script, c, n)
            <==> 1 <= n <= |script| && (forall i :: 0 <= i < n - 1 ==> GoesOn(script, c, i)) && (n == |script| || !GoesOn(script, c, n - 1))
  {
    if 1 <= n <= |script| {
      var before := script[..n][..n - 1];
      assert before == script[..n - 1];
      AccountedBefore(script, c, n - 1);
      AccountedBefore(script, c, n);
      forall i | 0 <= i < n
        ensures GoesOn(script, c, i) <==> VerdictOf(script[i]).Failed? && Payable(script, c, i)
      {
        FailedIff(script[i]);
      }
      assert AllFail(before) <==> forall i :: 0 <= i < n - 1 ==> VerdictOf(script[i]).Failed? by {
        hide VerdictOf;
        assert forall i :: 0 <= i < n - 1 ==> before[i] == script[i] && before[i] in before;
      }
      hide VerdictOf, GoesOn, Payable, Accumulated, AllFail;
      if Stops(script[..n], c) {
        forall i | 0 <= i < n - 1 ensures GoesOn(script, c, i) { assert VerdictOf(script[i]).Failed? && Payable(script, c, i); }
      }
      if forall i :: 0 <= i < n - 1 ==> GoesOn(script, c, i) {
        forall i | 0 <= i < n - 1 ensures VerdictOf(script[i]).Failed? && Payable(script, c, i) { assert GoesOn(script, c, i); }
      }
    }
  }

  // How a run ends: with the router's exception if the last route raised, with one of the
  // accounting if the last attempt cannot be paid for, and otherwise with a result, which
  // reports the total cost.
  lemma EndsIff(script: seq<Attempt>, c: Counters, n: nat)
    requires StopsAfter(script, c, n)
    ensures var outcome := Conclusion(script[..n], c);
            && (outcome.RouterRaised? <==> script[n - 1].route.None?)
            && (outcome.AccountingRaised? <==> !Payable(script, c, n - 1))
            && (outcome.Finished? ==> forall f :: Amount(outcome.result.usage, f) == TotalCost(script[..n], c, f))
  {
    var made, last := script[..n], script[n - 1];
    assert made[n - 1] == last && Stops(made, c);
    EndsByVerdict(made, c);
    FreeVerdicts(last);
    StopsIff(script, c, n);
    hide *;
    AccountedBefore(script, c, n);
    if !Held(last) { FreeIsPayable(script, c, n - 1); }
    AccountedIff(made, c);
    if Conclusion(made, c).Finished? {
      assert IsResult(script, c, n, Conclusion(made, c).result) by { ResultIs(script, c, n); }
      ReportedUsage(script, c, n, Conclusion(made, c).result);
    }
    assert forall i :: 0 <= i < n - 1 ==> Payable(script, c, i) by { PayableBefore(script, c, n); }
  }

  lemma ResultIs(script: seq<Attempt>, c: Counters, n: nat)
    requires StopsAfter(script, c, n) && Conclusion(script[..n], c).Finished?
    ensures IsResult(script, c, n, Conclusion(script[..n], c).result)
  {
    hide StopsAfter, Conclusion;
  }

  lemma PayableBefore(script: seq<Attempt>, c: Counters, n: nat)
    requires StopsAfter(script, c, n)
    ensures forall i :: 0 <= i < n - 1 ==> Payable(script, c, i)
  {
    StopsIff(script, c, n);
    hide StopsAfter, Payable, ReachesStage, ToExecute;
    forall i | 0 <= i < n - 1
      ensures Payable(script, c, i)
    {
      assert GoesOn(script, c, i);
    }
  }

  lemma FreeVerdicts(a: Attempt)
    ensures VerdictOf(a).Review? || VerdictOf(a).Unroutable? ==> !Held(a)
  {
    HeldIff(a);
    hide Held;
  }

  lemma FreeIsPayable(script: seq<Attempt>, c: Counters, i: nat)
    requires i < |script| && !Held(script[i])
    ensures Payable(script, c, i)
  {
  }

  lemma EndsByVerdict(made: seq<Attempt>, c: Counters)
    requires Stops(made, c)
    ensures var verdict, outcome := VerdictOf(made[|made| - 1]), Conclusion(made, c);
            && (outcome.RouterRaised? <==> verdict.Unroutable?) && (verdict.Unroutable? <==> made[|made| - 1].route.None?)
            && (outcome.AccountingRaised? <==> !verdict.Unroutable? && !verdict.Review? && Accumulated(made, c).None?)
  {
    hide Accumulated, LastMock, LastTrace, SuccessTrace, MockOf, Messages, Routes, Count, AllFail, ResponseOf;
  }
}
