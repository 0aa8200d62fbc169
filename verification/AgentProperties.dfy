// What every run of the attempt loop guarantees, over all scripts.
module AgentProperties {
  import opened Results
  import opened Usage
  import opened AgentRun

  // ---- where a run ends ------------------------------------------------------------------------

  // The attempts made are determined by the script: two stopping points coincide.
  lemma StopIsUnique(script: seq<Attempt>, c: Counters, n: nat, m: nat)
    requires StopsAfter(script, c, n) && StopsAfter(script, c, m)
    ensures n == m
  {
    if n < m { NotBefore(script, c, n, m); }
    if m < n { NotBefore(script, c, m, n); }
  }

  lemma NotBefore(script: seq<Attempt>, c: Counters, n: nat, m: nat)
    requires StopsAfter(script, c, n) && n < m
    ensures !StopsAfter(script, c, m)
  {
    if StopsAfter(script, c, m) {
      var before := script[..m][..m - 1];
      assert script[n - 1] in before by { assert before[n - 1] == script[n - 1]; }
      assert before[..n] == script[..n];
      PrefixAccumulates(before, c, n);
    }
  }

  lemma {:induction false} PrefixAccumulates(script: seq<Attempt>, c: Counters, n: nat)
    requires n <= |script| && Accumulated(script, c).Some?
    ensures Accumulated(script[..n], c).Some?
    decreases |script|
  {
    var k := |script| - 1;
    if n <= k {
      PrefixAccumulates(script[..k], c, n);
      assert script[..k][..n] == script[..n];
    } else {
      assert script[..n] == script;
    }
  }

  // An attempt is accepted exactly when every stage passes and a traced response agrees with
  // everything the route fixes.
  lemma AcceptedIff(a: Attempt)
    ensures VerdictOf(a).Accepted? <==> Passes(a)
    ensures VerdictOf(a).Accepted? ==> VerdictOf(a).draft == a.execution.draft
  {
  }

  ghost predicate IsResult(script: seq<Attempt>, c: Counters, n: nat, r: RunResult) {
    StopsAfter(script, c, n) && Conclusion(script[..n], c) == Finished(r)
  }

  // Routes, errors and executed attempts of every finished run.
  lemma RunBudget(script: seq<Attempt>, c: Counters, n: nat, r: RunResult)
    requires IsResult(script, c, n, r)
    ensures |r.routes| == n <= |script| && r.attempts <= |r.routes|
    ensures forall i :: 0 <= i < n ==> script[i].route == Some(r.routes[i])
    ensures if VerdictOf(script[n - 1]).Failed?
            then r.status == Escalated && |r.errors| == |r.routes| == |script|
            else |r.errors| == |r.routes| - 1
    ensures forall i :: 0 <= i < |r.errors| ==> VerdictOf(script[i]) == Failed(r.errors[i])
  {
    var made := script[..n];
    assert made == made[..n - 1] + [made[n - 1]];
    assert forall i :: 0 <= i < n ==> made[i] == script[i] && (i < n - 1 ==> made[i] in made[..n - 1]);
    assert forall i :: 0 <= i < n ==> made[i].route.Some?;
    hide VerdictOf, Accumulated, LastMock, LastTrace, SuccessTrace, MockOf;
  }

  // A successful run returns the first draft that passed every stage, and stops there.
  lemma SuccessIsFirstAccepted(script: seq<Attempt>, c: Counters, n: nat, r: RunResult)
    requires IsResult(script, c, n, r) && r.status == Succeeded
    ensures VerdictOf(script[n - 1]) == Accepted(r.output.value) && r.output.Some?
    ensures forall i :: 0 <= i < n - 1 ==> VerdictOf(script[i]).Failed?
    ensures r.attempts >= 1 && Executed(script[n - 1])
    ensures r.isMock == MockOf(script[n - 1])
    ensures r.trace == SuccessTrace(script[n - 1].route.value, ResponseOf(script[n - 1]))
  {
    AcceptedIff(script[n - 1]);
    var made := script[..n];
    assert forall i :: 0 <= i < n - 1 ==> made[..n - 1][i] == script[i];
    hide Accumulated, LastMock, LastTrace, SuccessTrace, MockOf, VerdictOf;
  }

  // Every stage of the attempt passes.
  predicate Passes(a: Attempt) {
    && Executed(a) && !a.execution.Threw? && a.schemaFailure.None? && a.gateFailure.None?
    && (a.execution.Traced? ==> TraceAgrees(a.route.value, a.execution.response))
  }

  // A finished run succeeds exactly when some scripted attempt passes every stage and all
  // before it failed; it is the last one made, and its draft is the output.
  lemma SuccessIff(script: seq<Attempt>, c: Counters, n: nat, r: RunResult)
    requires IsResult(script, c, n, r)
    ensures r.status == Succeeded <==> exists i :: 0 <= i < |script| && Passes(script[i]) && AllFail(script[..i])
    ensures forall i :: 0 <= i < |script| && Passes(script[i]) && AllFail(script[..i]) ==>
              i == n - 1 && r.output == Some(script[i].execution.draft)
  {
    hide VerdictOf, Conclusion;
    forall i | 0 <= i < |script| && Passes(script[i]) && AllFail(script[..i])
      ensures i == n - 1 && r.status == Succeeded && r.output == Some(script[i].execution.draft)
    {
      PassesIsLast(script, c, n, r, i);
    }
    if r.status == Succeeded {
      SuccessIsFirstAccepted(script, c, n, r);
      AcceptedIff(script[n - 1]);
      assert forall b :: b in script[..n - 1] ==> VerdictOf(b).Failed?;
    }
  }

  lemma PassesIsLast(script: seq<Attempt>, c: Counters, n: nat, r: RunResult, i: nat)
    requires IsResult(script, c, n, r)
    requires i < |script| && Passes(script[i]) && AllFail(script[..i])
    ensures i == n - 1 && r.status == Succeeded && r.output == Some(script[i].execution.draft)
  {
    AcceptedIff(script[i]);
    hide VerdictOf;
    if n - 1 < i {
      assert script[..i][n - 1] == script[n - 1] && script[n - 1] in script[..i];
      hide AllFail;
      FinishedIsCharged(script, c, n, r);
    } else if i < n - 1 {
      EarlierFailed(script, c, n, i);
    }
    hide Accumulated, MockOf, SuccessTrace, Messages, Routes, Count;
  }

  lemma EarlierFailed(script: seq<Attempt>, c: Counters, n: nat, i: nat)
    requires StopsAfter(script, c, n) && i < n - 1
    ensures VerdictOf(script[i]).Failed?
  {
    hide VerdictOf, Accumulated;
    assert script[..n][..n - 1][i] == script[i];
    assert script[i] in script[..n][..n - 1];
  }

  lemma FinishedIsCharged(script: seq<Attempt>, c: Counters, n: nat, r: RunResult)
    requires IsResult(script, c, n, r) && VerdictOf(script[n - 1]).Failed?
    ensures n == |script|
  {
    hide VerdictOf, Accumulated, MockOf, SuccessTrace, Messages, Routes, Count;
  }

  // The reported trace of a successful run agrees with its route wherever the route fixes
  // something, and only the mock provider yields a mock result.
  lemma SuccessTraceAgrees(script: seq<Attempt>, c: Counters, n: nat, r: RunResult)
    requires IsResult(script, c, n, r) && r.status == Succeeded
    ensures var route := r.routes[n - 1];
            && r.trace.provider == route.provider && r.trace.providerId == route.provider && r.trace.remoteModel == route.model
            && Pinned(route.modelId, r.trace.modelId) && Pinned(route.protocol, r.trace.protocol)
            && Pinned(route.trust, r.trace.trust) && Pinned(route.mode, r.trace.mode)
            && Pinned(route.providerDigest, r.trace.providerDigest) && Pinned(route.modelDigest, r.trace.modelDigest)
            && r.trace.reasoningRequested == route.reasoning
    ensures r.isMock ==> r.trace.provider == Some("mock")
  {
    SuccessIsFirstAccepted(script, c, n, r);
    RunBudget(script, c, n, r);
    AcceptedIff(script[n - 1]);
    hide VerdictOf, Conclusion, StopsAfter;
  }

  // The trace of an unsuccessful conclusion, by the verdict of its last attempt.
  lemma ConclusionTrace(made: seq<Attempt>, c: Counters, r: RunResult)
    requires Stops(made, c) && Conclusion(made, c) == Finished(r) && r.status != Succeeded
    ensures r.output.None? && r.prompt.None? && !VerdictOf(made[|made| - 1]).Accepted?
    ensures var seen := if VerdictOf(made[|made| - 1]).Review? then made[..|made| - 1] else made;
            r.trace == LastTrace(seen) && r.isMock == LastMock(seen) && r.attempts == Count(seen)
  {
    hide Accumulated, LastMock, LastTrace, SuccessTrace, MockOf, Messages, Routes, Count, AllFail, ResponseOf;
  }

  lemma ReviewDoesNotExecute(before: seq<Attempt>, a: Attempt)
    requires VerdictOf(a).Review?
    ensures LastExecuted(before + [a]) == LastExecuted(before) && Count(before + [a]) == Count(before)
  {
    assert !Executed(a);
    hide VerdictOf, Executed, LastExecuted, Count;
    CountSnoc(before, a);
  }

  lemma LastOf(made: seq<Attempt>)
    ensures match LastExecuted(made)
            case None => LastTrace(made) == NO_TRACE && !LastMock(made) && Count(made) == 0
            case Some(a) => LastTrace(made) == RouteTrace(a.route.value) && LastMock(made) == MockOf(a) && Count(made) >= 1
  {
    hide Executed, MockOf, RouteTrace;
  }

  // A run that ends without success reports the route of the last attempt that executed.
  lemma UnsuccessfulTrace(script: seq<Attempt>, c: Counters, n: nat, r: RunResult)
    requires IsResult(script, c, n, r) && r.status != Succeeded
    ensures r.output.None? && r.prompt.None?
    ensures match LastExecuted(script[..n])
            case None => r.trace == NO_TRACE && !r.isMock && r.attempts == 0
            case Some(a) => r.trace == RouteTrace(a.route.value) && r.isMock == MockOf(a) && r.attempts >= 1
  {
    var made := script[..n];
    var before, last := made[..n - 1], made[n - 1];
    assert made == before + [last];
    hide Accumulated, Conclusion, VerdictOf, AllFail, LastTrace, LastMock, LastExecuted, Count, Executed, MockOf, RouteTrace;
    ConclusionTrace(made, c, r);
    if VerdictOf(last).Review? { ReviewDoesNotExecute(before, last); LastOf(before); }
    LastOf(made);
  }

  // The last attempt that executed left a response marked mock although its route names a
  // real provider.
  predicate MockOnRealRoute(last: Option<Attempt>) {
    && last.Some? && ResponseOf(last.value).Some? && ResponseOf(last.value).value.isMock
    && last.value.route.value.provider != Some("mock")
  }

  // When is_mock implies the mock provider: on success, and otherwise unless the last executed
  // attempt got a mock response on a real route.
  lemma MockImpliesMockProviderIff(script: seq<Attempt>, c: Counters, n: nat, r: RunResult)
    requires IsResult(script, c, n, r)
    ensures (r.isMock ==> r.trace.provider == Some("mock")) <==> r.status == Succeeded || !MockOnRealRoute(LastExecuted(script[..n]))
  {
    hide IsResult, LastExecuted;
    if r.status == Succeeded {
      SuccessTraceAgrees(script, c, n, r);
    } else {
      UnsuccessfulTrace(script, c, n, r);
    }
  }

  // ---- what router and hooks are shown -----------------------------------------------------------

  lemma CallsUnfold(script: seq<Attempt>, profileRetries: nat, hook: Hook, guidance: seq<string>)
    requires script != [] && AllFail(script[..|script| - 1])
    ensures var before := script[..|script| - 1];
            && (before != [] ==> AllFail(before[..|before| - 1]))
            && Calls(script, profileRetries, hook, guidance)
               == Calls(before, profileRetries, hook, guidance) + [CallAfter(before, profileRetries, hook, guidance)]
  {
    hide VerdictOf, CallAfter;
  }

  lemma {:induction false} CallsAre(script: seq<Attempt>, profileRetries: nat, hook: Hook, guidance: seq<string>, i: nat)
    requires i < |script| && AllFail(script[..|script| - 1])
    ensures AllFail(script[..i]) && Calls(script, profileRetries, hook, guidance)[i] == CallAfter(script[..i], profileRetries, hook, guidance)
    decreases |script|
  {
    var k := |script| - 1;
    var before := script[..k];
    CallsUnfold(script, profileRetries, hook, guidance);
    hide VerdictOf, CallAfter, Calls, AllFail, Messages, Prepared;
    if i < k {
      assert before[..i] == script[..i];
      CallsAre(before, profileRetries, hook, guidance, i);
    } else {
      assert before == script[..i];
    }
  }

  // Retry counts start at the profile's, stay there for the second attempt and then grow by
  // one per attempt.
  lemma RetryCounts(script: seq<Attempt>, profileRetries: nat, hook: Hook, guidance: seq<string>, i: nat)
    requires i < |script| && AllFail(script[..|script| - 1])
    ensures var calls := Calls(script, profileRetries, hook, guidance);
            && calls[i].retryCount == (if i <= 1 then profileRetries else profileRetries + i - 1)
            && (i > 0 ==> calls[i].retryCount == calls[i - 1].retryCount + (if i >= 2 then 1 else 0))
  {
    CallsAre(script, profileRetries, hook, guidance, i);
    if i > 0 { CallsAre(script, profileRetries, hook, guidance, i - 1); }
  }

  lemma LatestMessage(before: seq<Attempt>)
    requires AllFail(before) && before != []
    ensures VerdictOf(before[|before| - 1]).Failed?
    ensures Messages(before) != [] && Messages(before)[|before| - 1] == VerdictOf(before[|before| - 1]).message
  {
    assert before[|before| - 1] in before;
    hide VerdictOf;
  }

  // Feedback never accumulates: every attempt sees the original guidance, plus, from the
  // second attempt of a modelling agent on, one entry about the attempt just before it.
  lemma GuidanceIsOriginalPlusLatest(script: seq<Attempt>, profileRetries: nat, hook: Hook, guidance: seq<string>, i: nat)
    requires i < |script| && AllFail(script[..|script| - 1])
    ensures var shown := Calls(script, profileRetries, hook, guidance)[i].guidance;
            if i == 0 || hook.Keep? then shown == guidance
            else VerdictOf(script[i - 1]).Failed?
                 && shown == guidance + [hook.prefix + Clip(VerdictOf(script[i - 1]).message)]
  {
    hide VerdictOf, Clip, Messages, Calls, AllFail;
    CallsAre(script, profileRetries, hook, guidance, i);
    if i > 0 { LatestMessage(script[..i]); }
  }

  // ---- usage accounting --------------------------------------------------------------------------

  // A review exit charges nothing for its own attempt.
  lemma ReviewIsFree(before: seq<Attempt>, a: Attempt, c: Counters)
    requires VerdictOf(a).Review? && Accumulated(before, c).Some?
    ensures Accumulated(before + [a], c) == Accumulated(before, c)
  {
    assert !CheckedOut(a);
    hide VerdictOf, CheckedOut, ChargeOf, Plus, Accumulated, CountersThrough, CountersAfter;
    AccumulatedSnoc(before, a, c);
  }

  // The usage of a conclusion, by the verdict of its last attempt.
  lemma ConclusionUsage(made: seq<Attempt>, c: Counters, r: RunResult)
    requires Stops(made, c) && Conclusion(made, c) == Finished(r)
    ensures r.usage == if VerdictOf(made[|made| - 1]).Review? then Accumulated(made[..|made| - 1], c).value
                       else if Accumulated(made, c).Some? then Accumulated(made, c).value else r.usage
    ensures !VerdictOf(made[|made| - 1]).Review? ==> Accumulated(made, c).Some?
  {
    hide Accumulated, LastMock, LastTrace, SuccessTrace, MockOf, Messages, Routes, Count, AllFail, ResponseOf;
  }

  // A finished run reports the accumulated usage of exactly the attempts it made.
  lemma ReportedUsage(script: seq<Attempt>, c: Counters, n: nat, r: RunResult)
    requires IsResult(script, c, n, r)
    ensures Accumulated(script[..n], c) == Some(r.usage)
  {
    var made := script[..n];
    var before, last := made[..n - 1], made[n - 1];
    assert made == before + [last];
    hide Accumulated, Conclusion, VerdictOf, AllFail;
    ConclusionUsage(made, c, r);
    if VerdictOf(last).Review? { ReviewIsFree(before, last, c); }
  }

  function Discrepancies(script: seq<Attempt>, c: Counters, f: Field): int {
    if script == [] then 0
    else
      var k := |script| - 1;
      Discrepancies(script[..k], c, f) + Discrepancy(script[k], CountersThrough(script[..k], c), f)
  }

  lemma MovedTotal(a: Attempt, c: Counters, f: Field)
    ensures GrandTotal(CountersAfter(a, c), f) == GrandTotal(c, f) + Moved(a, f)
  {
    if Executed(a) { SpendTotal(c, a.route.value.provider.value, a.spent, f); }
  }

  lemma {:induction false} AccumulatedIs(script: seq<Attempt>, c: Counters, f: Field)
    requires Accumulated(script, c).Some?
    ensures Amount(Accumulated(script, c).value, f)
         == GrandTotal(CountersThrough(script, c), f) - GrandTotal(c, f) + Discrepancies(script, c, f)
  {
    if script != [] {
      var k := |script| - 1;
      AccumulatedIs(script[..k], c, f);
      var before := CountersThrough(script[..k], c);
      MovedTotal(script[k], before, f);
      ChargeIs(script[k], before, f);
      hide ChargeOf, Discrepancy, Moved, CountersAfter, CheckedOut, GrandTotal, Amount;
    }
  }

  // Conservation, exactly: the usage a run reports is the movement of all provider counters
  // plus the discrepancies of its attempts.
  lemma UsageConservation(script: seq<Attempt>, c: Counters, n: nat, r: RunResult, f: Field)
    requires IsResult(script, c, n, r)
    ensures Amount(r.usage, f) - (GrandTotal(CountersThrough(script[..n], c), f) - GrandTotal(c, f)) == Discrepancies(script[..n], c, f)
  {
    ReportedUsage(script, c, n, r);
    hide Accumulated, CountersThrough, Discrepancies, GrandTotal, Conclusion;
    AccumulatedIs(script[..n], c, f);
  }

  // The first reading never fails, and a response reports what the counter moved.
  ghost predicate Honest(a: Attempt) {
    && a.readBeforeFailure.None?
    && (a.execution.Traced? ==> forall f :: Amount(a.execution.response.usage, f) == Amount(a.spent, f))
  }

  lemma {:induction false} HonestHasNoDiscrepancy(script: seq<Attempt>, c: Counters, f: Field)
    requires forall a :: a in script ==> Honest(a)
    ensures Discrepancies(script, c, f) == 0
  {
    if script != [] {
      var k := |script| - 1;
      HonestHasNoDiscrepancy(script[..k], c, f);
      assert Honest(script[k]);
    }
  }

  // With honest providers the reported usage is what the run made all providers count, even
  // when attempts alternate between providers or fail.
  lemma HonestConservation(script: seq<Attempt>, c: Counters, n: nat, r: RunResult, f: Field)
    requires IsResult(script, c, n, r) && forall a :: a in script ==> Honest(a)
    ensures Amount(r.usage, f) == GrandTotal(CountersThrough(script[..n], c), f) - GrandTotal(c, f)
  {
    assert forall a :: a in script[..n] ==> a in script;
    HonestHasNoDiscrepancy(script[..n], c, f);
    UsageConservation(script, c, n, r, f);
  }

  // ---- concrete runs at the edges ----------------------------------------------------------------

  const ROUTE := Route(Execute, Some("acme"), None, None, None, None, None, None, None, None, None, None)

  // A checked-out provider whose first usage reading fails.
  const UNREAD := Attempt(Some(ROUTE), None, None, None, Some(Invalid), Plain(Draft("")), NOTHING, None, None, true)

  lemma UnreadFails(history: Usage)
    requires WithinCaps(history)
    ensures CheckedOut(UNREAD) && VerdictOf(UNREAD).Failed? && CountersAfter(UNREAD, map["acme" := history]) == map["acme" := history]
    ensures ChargeOf(UNREAD, map["acme" := history]) == Some(history)
  {
    assert Difference(NOTHING, history) == history;
  }

  // A run that executes nothing reports the provider's whole history as its own usage.
  lemma FailedReadingChargesHistory(history: Usage) returns (script: seq<Attempt>, r: RunResult)
    requires WithinCaps(history)
    ensures var c := map["acme" := history];
            && IsResult(script, c, |script|, r) && r.attempts == 0 && r.usage == history
            && CountersThrough(script, c) == c
  {
    script := [UNREAD];
    var c := map["acme" := history];
    UnreadFails(history);
    Started(c);
    hide VerdictOf, ChargeOf, Executed, CheckedOut, MockOf, Conclusion, Stops, CountersThrough, CountersAfter, WithinCaps, UNREAD;
    AccumulatedSnoc([], UNREAD, c);
    r := SingleFailure(UNREAD, c, history);
    assert [] + [UNREAD] == script && script[..1] == script;
  }

  const MOCK_RESPONSE := Response("acme", "m", None, None, None, None, None, None, None, true, NOTHING)
  const MOCKED := Attempt(Some(ROUTE), None, None, None, None, Traced(Draft(""), MOCK_RESPONSE, "v1"), NOTHING, None, None, true)

  lemma MockedFails()
    ensures Executed(MOCKED) && MockOf(MOCKED) && VerdictOf(MOCKED).Failed? && ChargeOf(MOCKED, map[]) == Some(NOTHING)
  {
  }

  const START := Locals([], [], 0, NOTHING, None, false)

  lemma Started(c: Counters)
    ensures Tracks(START, [], c) && CountersThrough([], c) == c && Accumulated([], c) == Some(NOTHING)
  {
  }

  // A run whose only attempt fails.
  lemma SingleFailure(a: Attempt, c: Counters, charge: Usage) returns (r: RunResult)
    requires VerdictOf(a).Failed? && CheckedOut(a) && ChargeOf(a, c) == Some(charge) && WithinCaps(charge)
    ensures Stops([] + [a], c) && Conclusion([] + [a], c) == Finished(r)
    ensures r.status == Escalated && r.usage == charge && r.attempts == (if Executed(a) then 1 else 0)
    ensures Executed(a) ==> r.isMock == MockOf(a) && r.trace == RouteTrace(a.route.value)
  {
    Started(c);
    PlusFromNothing(charge);
    AccumulatedSnoc([], a, c);
    var w := Attempted(START, a, charge).(errors := START.errors + [VerdictOf(a).message]);
    hide VerdictOf, ChargeOf, MockOf, CountersThrough, Accumulated, Conclusion, Tracks, Stops, RouteTrace, CheckedOut;
    TracksNext(START, [], a, c, charge);
    ExhaustionConcludes(START, [], a, c, w);
    r := RunResult(Escalated, None, w.executed, w.routes, w.errors, w.lastMock, TraceOf(w.lastRoute), None, charge);
  }

  // The exception is real: a real route whose provider
  // answered with a mock response ends ESCALATED, marked mock, and traced to the real provider.
  lemma EscalatedCanBeMock() returns (script: seq<Attempt>, r: RunResult)
    ensures IsResult(script, map[], |script|, r) && r.status == Escalated && r.isMock && r.trace.provider == Some("acme")
  {
    script := [MOCKED];
    MockedFails();
    hide VerdictOf, ChargeOf, Executed, MockOf, Conclusion, Stops;
    r := SingleFailure(MOCKED, map[], NOTHING);
    assert [] + [MOCKED] == script && script[..1] == script;
  }
}
