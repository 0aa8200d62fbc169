// Metric identifiers of the verification policy: prefix_suffix for every scenario and every
// one of fifteen metrics.  The identifiers never collide, whatever the scenario names are.
module ScenarioMetrics {
  import opened Results

  datatype Species = J | A | F | P

  datatype Quantity = LambdaPlus | LambdaMinus | LambdaFish | LambdaParasite | DominantPart

  datatype Suffix = Minimum(state: Species) | Final(state: Species) | MaleFraction | Residual | Spectral(quantity: Quantity)

  datatype Source = Series(name: string) | Value(symbol: string)

  datatype Metric = Metric(id: string, source: Source, lower: Option<real>, upper: Option<real>)

  const TOLERANCE := 0.0000001
  const RESIDUAL_LIMIT := 0.0000000001
  const TOP_METRIC := "fixed_ratio_definition"

  const SPECIES := [J, A, F, P]
  const QUANTITIES := [LambdaPlus, LambdaMinus, LambdaFish, LambdaParasite, DominantPart]

  // Generation order of one scenario's metrics.
  const SUFFIXES := [Minimum(J), Final(J), Minimum(A), Final(A), Minimum(F), Final(F), Minimum(P), Final(P),
                     MaleFraction, Residual,
                     Spectral(LambdaPlus), Spectral(LambdaMinus), Spectral(LambdaFish), Spectral(LambdaParasite), Spectral(DominantPart)]

  function Letter(s: Species): string {
    match s case J => "J" case A => "A" case F => "F" case P => "P"
  }

  function Symbol(q: Quantity): string {
    match q
    case LambdaPlus => "lambda_JA_plus"
    case LambdaMinus => "lambda_JA_minus"
    case LambdaFish => "lambda_F"
    case LambdaParasite => "lambda_P"
    case DominantPart => "dominant_real_part"
  }

  function Text(s: Suffix): string {
    match s
    case Minimum(state) => Letter(state) + "_minimum"
    case Final(state) => Letter(state) + "_final"
    case MaleFraction => "male_ratio"
    case Residual => "equilibrium_residual_sq"
    case Spectral(q) => Symbol(q)
  }

  function MetricId(prefix: string, s: Suffix): string {
    prefix + "_" + Text(s)
  }

  // ---- the identifier determines scenario and metric ---------------------------------------

  // The k-th character from the end.
  function FromEnd(s: string, k: nat): char
    requires 1 <= k <= |s|
  {
    s[|s| - k]
  }

  lemma EndsAgree(p: string, a: Suffix, q: string, b: Suffix, k: nat)
    requires MetricId(p, a) == MetricId(q, b) && 1 <= k <= |Text(a)| && k <= |Text(b)|
    ensures FromEnd(Text(a), k) == FromEnd(Text(b), k)
  {
    hide Text;
    EndOfId(p, a, k);
    EndOfId(q, b, k);
  }

  lemma EndOfId(prefix: string, s: Suffix, k: nat)
    requires 1 <= k <= |Text(s)|
    ensures k <= |MetricId(prefix, s)| && FromEnd(MetricId(prefix, s), k) == FromEnd(Text(s), k)
  {
    hide Text;
  }

  // The last characters tell the metrics apart; the state letters of the two state families
  // sit nine and seven places from the end.
  function LastOf(s: Suffix): char {
    match s
    case Minimum(_) => 'm'
    case Final(_) => 'l'
    case MaleFraction => 'o'
    case Residual => 'q'
    case Spectral(LambdaPlus) => 's'
    case Spectral(LambdaMinus) => 's'
    case Spectral(LambdaFish) => 'F'
    case Spectral(LambdaParasite) => 'P'
    case Spectral(DominantPart) => 't'
  }

  lemma LastCharacter(s: Suffix)
    ensures |Text(s)| >= 7 && FromEnd(Text(s), 1) == LastOf(s)
  {
  }

  lemma StateCharacter(s: Species)
    ensures |Text(Minimum(s))| == 9 && [FromEnd(Text(Minimum(s)), 9)] == Letter(s)
    ensures |Text(Final(s))| == 7 && [FromEnd(Text(Final(s)), 7)] == Letter(s)
  {
  }

  // Suffixes with the same last character.
  predicate SameFamily(a: Suffix, b: Suffix) {
    a == b || (a.Minimum? && b.Minimum?) || (a.Final? && b.Final?)
    || (a.Spectral? && b.Spectral? && a.quantity in {LambdaPlus, LambdaMinus} && b.quantity in {LambdaPlus, LambdaMinus})
  }

  lemma LastDecidesFamily(a: Suffix, b: Suffix)
    requires LastOf(a) == LastOf(b)
    ensures SameFamily(a, b)
  {
  }

  lemma LetterIsInjective(s: Species, t: Species)
    requires Letter(s) == Letter(t)
    ensures s == t
  {
    assert Letter(s)[0] == Letter(t)[0];
  }

  lemma SignCharacter()
    ensures |Text(Spectral(LambdaPlus))| >= 3 && FromEnd(Text(Spectral(LambdaPlus)), 3) == 'l'
    ensures |Text(Spectral(LambdaMinus))| >= 3 && FromEnd(Text(Spectral(LambdaMinus)), 3) == 'n'
  {
  }

  lemma SameSuffix(p: string, a: Suffix, q: string, b: Suffix)
    requires MetricId(p, a) == MetricId(q, b)
    ensures a == b
  {
    LastCharacter(a);
    LastCharacter(b);
    hide Text, MetricId, Letter, FromEnd;
    EndsAgree(p, a, q, b, 1);
    LastDecidesFamily(a, b);
    hide LastOf;
    if a.Minimum? && b.Minimum? {
      StateCharacter(a.state);
      StateCharacter(b.state);
      EndsAgree(p, a, q, b, 9);
      LetterIsInjective(a.state, b.state);
    } else if a.Final? && b.Final? {
      StateCharacter(a.state);
      StateCharacter(b.state);
      EndsAgree(p, a, q, b, 7);
      LetterIsInjective(a.state, b.state);
    } else if a != b {
      SignCharacter();
      EndsAgree(p, a, q, b, 3);
    }
  }

  // (prefix, suffix) -> identifier is injective for arbitrary prefixes.
  lemma IdDeterminesParts(p: string, a: Suffix, q: string, b: Suffix)
    ensures MetricId(p, a) == MetricId(q, b) <==> p == q && a == b
  {
    if MetricId(p, a) == MetricId(q, b) {
      SameSuffix(p, a, q, b);
      var k := |MetricId(p, a)| - |Text(a)| - 1;
      assert MetricId(p, a)[..k] == p && MetricId(q, b)[..k] == q;
    }
  }

  lemma TopMetricIsNotScenario(p: string, a: Suffix)
    ensures MetricId(p, a) != TOP_METRIC
  {
    LastCharacter(a);
    EndOfId(p, a, 1);
    assert FromEnd(TOP_METRIC, 1) == 'n';
  }

  // ---- the identifiers of a whole policy ------------------------------------------------------

  ghost predicate NoDuplicates<T>(s: seq<T>) {
    forall i, j :: 0 <= i < j < |s| ==> s[i] != s[j]
  }

  function ScenarioIds(prefix: string): (ids: seq<string>)
    ensures |ids| == |SUFFIXES|
  {
    seq(|SUFFIXES|, i requires 0 <= i < |SUFFIXES| => MetricId(prefix, SUFFIXES[i]))
  }

  function ScenariosIds(prefixes: seq<string>): seq<string> {
    if prefixes == [] then []
    else ScenariosIds(prefixes[..|prefixes| - 1]) + ScenarioIds(prefixes[|prefixes| - 1])
  }

  function PolicyIds(prefixes: seq<string>): seq<string> {
    [TOP_METRIC] + ScenariosIds(prefixes)
  }

  lemma SuffixesAreDistinct()
    ensures NoDuplicates(SUFFIXES)
  {
  }

  lemma ScenarioIdsDistinct(prefix: string)
    ensures NoDuplicates(ScenarioIds(prefix))
  {
    SuffixesAreDistinct();
    forall i, j | 0 <= i < j < |SUFFIXES|
      ensures ScenarioIds(prefix)[i] != ScenarioIds(prefix)[j]
    {
      IdDeterminesParts(prefix, SUFFIXES[i], prefix, SUFFIXES[j]);
    }
  }

  lemma ConcatDistinct<T>(a: seq<T>, b: seq<T>)
    requires NoDuplicates(a) && NoDuplicates(b) && forall x :: x in a ==> x !in b
    ensures NoDuplicates(a + b)
  {
    forall i, j | 0 <= i < j < |a + b|
      ensures (a + b)[i] != (a + b)[j]
    {
      if i < |a| && |a| <= j {
        assert a[i] in a && b[j - |a|] in b;
      }
    }
  }

  lemma {:induction false} IdsComeFromScenarios(prefixes: seq<string>, id: string) returns (p: string, s: Suffix)
    requires id in ScenariosIds(prefixes)
    ensures p in prefixes && id == MetricId(p, s)
  {
    var k := |prefixes| - 1;
    if id in ScenarioIds(prefixes[k]) {
      var i :| 0 <= i < |SUFFIXES| && ScenarioIds(prefixes[k])[i] == id;
      p, s := prefixes[k], SUFFIXES[i];
    } else {
      p, s := IdsComeFromScenarios(prefixes[..k], id);
    }
  }

  lemma {:induction false} ScenariosDistinct(prefixes: seq<string>)
    requires NoDuplicates(prefixes)
    ensures NoDuplicates(ScenariosIds(prefixes))
  {
    if prefixes != [] {
      var k := |prefixes| - 1;
      ScenariosDistinct(prefixes[..k]);
      ScenarioIdsDistinct(prefixes[k]);
      forall id | id in ScenariosIds(prefixes[..k])
        ensures id !in ScenarioIds(prefixes[k])
      {
        var p, s := IdsComeFromScenarios(prefixes[..k], id);
        forall i | 0 <= i < |SUFFIXES|
          ensures ScenarioIds(prefixes[k])[i] != id
        {
          IdDeterminesParts(p, s, prefixes[k], SUFFIXES[i]);
        }
      }
      ConcatDistinct(ScenariosIds(prefixes[..k]), ScenarioIds(prefixes[k]));
    }
  }

  lemma ScenarioIdsFirst(prefix: string)
    ensures |ScenarioIds(prefix)| == 15 && ScenarioIds(prefix)[0] == MetricId(prefix, Minimum(J))
  {
    hide MetricId;
  }

  lemma {:induction false} ScenariosLength(prefixes: seq<string>)
    ensures |ScenariosIds(prefixes)| == 15 * |prefixes|
  {
    if prefixes != [] {
      ScenariosLength(prefixes[..|prefixes| - 1]);
      ScenarioIdsFirst(prefixes[|prefixes| - 1]);
      hide ScenarioIds;
    }
  }

  lemma {:induction false} FirstIdOf(prefixes: seq<string>, i: nat)
    requires i < |prefixes|
    ensures 15 * i < |ScenariosIds(prefixes)| && ScenariosIds(prefixes)[15 * i] == MetricId(prefixes[i], Minimum(J))
  {
    var k := |prefixes| - 1;
    var before, last := ScenariosIds(prefixes[..k]), ScenarioIds(prefixes[k]);
    ScenariosLength(prefixes[..k]);
    ScenarioIdsFirst(prefixes[k]);
    assert ScenariosIds(prefixes) == before + last;
    hide ScenarioIds, ScenariosIds, MetricId;
    if i < k {
      FirstIdOf(prefixes[..k], i);
      IndexOfConcat(before, last, 15 * i);
    } else {
      IndexOfConcat(before, last, 15 * k);
    }
  }

  lemma IndexOfConcat<T>(a: seq<T>, b: seq<T>, k: nat)
    requires k < |a| + |b|
    ensures (a + b)[k] == if k < |a| then a[k] else b[k - |a|]
  {
  }

  lemma TopIsFirst(prefixes: seq<string>)
    requires NoDuplicates(prefixes)
    ensures NoDuplicates(PolicyIds(prefixes))
  {
    ScenariosDistinct(prefixes);
    forall id | id in ScenariosIds(prefixes)
      ensures id != TOP_METRIC
    {
      var p, s := IdsComeFromScenarios(prefixes, id);
      TopMetricIsNotScenario(p, s);
    }
    hide ScenariosIds, TOP_METRIC;
    ConcatDistinct([TOP_METRIC], ScenariosIds(prefixes));
  }

  lemma RepeatedScenario(prefixes: seq<string>, i: nat, j: nat)
    requires i < j < |prefixes| && prefixes[i] == prefixes[j]
    ensures !NoDuplicates(PolicyIds(prefixes))
  {
    hide *;
    FirstIdOf(prefixes, i);
    FirstIdOf(prefixes, j);
    IdAtOffset(prefixes, 15 * i);
    IdAtOffset(prefixes, 15 * j);
    EqualAt(PolicyIds(prefixes), 1 + 15 * i, 1 + 15 * j);
  }

  lemma IdAtOffset(prefixes: seq<string>, k: nat)
    requires k < |ScenariosIds(prefixes)|
    ensures 1 + k < |PolicyIds(prefixes)| && PolicyIds(prefixes)[1 + k] == ScenariosIds(prefixes)[k]
  {
    hide ScenariosIds;
  }

  lemma EqualAt<T>(s: seq<T>, i: nat, j: nat)
    requires i < j < |s| && s[i] == s[j]
    ensures !NoDuplicates(s)
  {
  }

  // For any list of distinct scenario names every metric identifier of the policy occurs
  // exactly once; for a list with a repetition it never does.
  lemma PolicyIdsDistinctIff(prefixes: seq<string>)
    ensures NoDuplicates(PolicyIds(prefixes)) <==> NoDuplicates(prefixes)
  {
    hide PolicyIds;
    if NoDuplicates(prefixes) {
      TopIsFirst(prefixes);
    } else {
      var i, j :| 0 <= i < j < |prefixes| && prefixes[i] == prefixes[j];
      RepeatedScenario(prefixes, i, j);
    }
  }

  // ---- generation ---------------------------------------------------------------------------

  function MetricFor(prefix: string, expectedMale: Option<real>, s: Suffix): Metric {
    var id := MetricId(prefix, s);
    match s
    case Minimum(state) => Metric(id, Series(Letter(state)), Some(-TOLERANCE), None)
    case Final(state) => Metric(id, Series(Letter(state)), None, None)
    case MaleFraction =>
      (match expectedMale
       case None => Metric(id, Value("male_ratio"), None, None)
       case Some(m) => Metric(id, Value("male_ratio"), Some(m - TOLERANCE), Some(m + TOLERANCE)))
    case Residual => Metric(id, Value("equilibrium_residual_sq"), None, Some(RESIDUAL_LIMIT))
    case Spectral(q) => Metric(id, Value(Symbol(q)), None, None)
  }

  ghost predicate Generated(metrics: seq<Metric>, prefix: string, expectedMale: Option<real>, n: nat) {
    && n <= |SUFFIXES| && |metrics| == n
    && forall i :: 0 <= i < n ==> metrics[i] == MetricFor(prefix, expectedMale, SUFFIXES[i])
  }

  lemma GeneratedNext(metrics: seq<Metric>, m: Metric, prefix: string, expectedMale: Option<real>, n: nat)
    requires n < |SUFFIXES| && Generated(metrics, prefix, expectedMale, n) && m == MetricFor(prefix, expectedMale, SUFFIXES[n])
    ensures Generated(metrics + [m], prefix, expectedMale, n + 1)
  {
    hide MetricFor;
  }

  lemma SuffixOrder()
    ensures |SUFFIXES| == 15 && SUFFIXES[8] == MaleFraction && SUFFIXES[9] == Residual
    ensures forall i :: 0 <= i < 4 ==> SUFFIXES[2 * i] == Minimum(SPECIES[i]) && SUFFIXES[2 * i + 1] == Final(SPECIES[i])
    ensures forall i :: 0 <= i < 5 ==> SUFFIXES[10 + i] == Spectral(QUANTITIES[i])
  {
  }

  // ---- what the metrics read and accept --------------------------------------------------------

  predicate Accepts(m: Metric, v: real) {
    (m.lower.Some? ==> m.lower.value <= v) && (m.upper.Some? ==> v <= m.upper.value)
  }

  predicate Identifies(m: Metric, id: string, source: Source) {
    m.id == id && m.source == source
  }

  ghost predicate AcceptsAll(m: Metric) {
    forall v :: Accepts(m, v)
  }

  const STATE_NAMES := ["J", "A", "F", "P"]
  const SPECTRAL_NAMES := ["lambda_JA_plus", "lambda_JA_minus", "lambda_F", "lambda_P", "dominant_real_part"]

  // Each state's minimum must not fall below -1e-7; its final value is only reported.
  ghost predicate StateMetrics(metrics: seq<Metric>, prefix: string, i: nat)
    requires i < 4 && |metrics| == 15
  {
    && Identifies(metrics[2 * i], prefix + "_" + STATE_NAMES[i] + "_minimum", Series(STATE_NAMES[i]))
    && (forall v :: Accepts(metrics[2 * i], v) <==> v >= -0.0000001)
    && Identifies(metrics[2 * i + 1], prefix + "_" + STATE_NAMES[i] + "_final", Series(STATE_NAMES[i]))
    && AcceptsAll(metrics[2 * i + 1])
  }

  // The male ratio must be within 1e-7 of what is expected, if anything is, and the residual must
  // not exceed 1e-10.
  ghost predicate RatioMetrics(metrics: seq<Metric>, prefix: string, expectedMale: Option<real>)
    requires |metrics| == 15
  {
    && Identifies(metrics[8], prefix + "_male_ratio", Value("male_ratio"))
    && (forall v :: Accepts(metrics[8], v) <==> (expectedMale.Some? ==> -0.0000001 <= v - expectedMale.value <= 0.0000001))
    && Identifies(metrics[9], prefix + "_equilibrium_residual_sq", Value("equilibrium_residual_sq"))
    && (forall v :: Accepts(metrics[9], v) <==> v <= 0.0000000001)
  }

  // Spectral quantities are only reported.
  ghost predicate SpectralMetric(metrics: seq<Metric>, prefix: string, i: nat)
    requires i < 5 && |metrics| == 15
  {
    Identifies(metrics[10 + i], prefix + "_" + SPECTRAL_NAMES[i], Value(SPECTRAL_NAMES[i])) && AcceptsAll(metrics[10 + i])
  }

  // The fifteen metrics of a scenario, by what each reads and which values it accepts.
  ghost predicate ScenarioAccepts(metrics: seq<Metric>, prefix: string, expectedMale: Option<real>) {
    && |metrics| == 15 && RatioMetrics(metrics, prefix, expectedMale)
    && (forall i :: 0 <= i < 4 ==> StateMetrics(metrics, prefix, i))
    && (forall i :: 0 <= i < 5 ==> SpectralMetric(metrics, prefix, i))
  }

  lemma StateMetricsAre(metrics: seq<Metric>, prefix: string, expectedMale: Option<real>, i: nat)
    requires Generated(metrics, prefix, expectedMale, 15) && i < 4
    ensures var name := STATE_NAMES[i];
            && metrics[2 * i] == Metric(prefix + "_" + (name + "_minimum"), Series(name), Some(-0.0000001), None)
            && metrics[2 * i + 1] == Metric(prefix + "_" + (name + "_final"), Series(name), None, None)
  {
    SuffixOrder();
    assert Letter(SPECIES[i]) == STATE_NAMES[i];
    hide SUFFIXES, Letter, STATE_NAMES, SPECIES;
  }

  lemma StatesAccept(metrics: seq<Metric>, prefix: string, expectedMale: Option<real>, i: nat)
    requires Generated(metrics, prefix, expectedMale, 15) && i < 4
    ensures StateMetrics(metrics, prefix, i)
  {
    StateMetricsAre(metrics, prefix, expectedMale, i);
    var name := STATE_NAMES[i];
    hide Generated, STATE_NAMES;
    Regroup(prefix + "_", name, "_minimum");
    Regroup(prefix + "_", name, "_final");
  }

  lemma Regroup(a: string, b: string, c: string)
    ensures a + (b + c) == a + b + c
  {
  }

  lemma SpectraAccept(metrics: seq<Metric>, prefix: string, expectedMale: Option<real>, i: nat)
    requires Generated(metrics, prefix, expectedMale, 15) && i < 5
    ensures SpectralMetric(metrics, prefix, i)
  {
    SuffixOrder();
    assert Symbol(QUANTITIES[i]) == SPECTRAL_NAMES[i];
    hide SUFFIXES, SPECTRAL_NAMES, QUANTITIES, Symbol;
  }

  lemma RatioMetricsAre(metrics: seq<Metric>, prefix: string, expectedMale: Option<real>)
    requires Generated(metrics, prefix, expectedMale, 15)
    ensures metrics[8] == MetricFor(prefix, expectedMale, MaleFraction) && metrics[9] == MetricFor(prefix, expectedMale, Residual)
  {
    SuffixOrder();
    hide SUFFIXES, MetricFor;
  }

  lemma RatioAndResidual(metrics: seq<Metric>, prefix: string, expectedMale: Option<real>)
    requires Generated(metrics, prefix, expectedMale, 15)
    ensures RatioMetrics(metrics, prefix, expectedMale)
  {
    RatioMetricsAre(metrics, prefix, expectedMale);
    hide Generated;
    Regroup(prefix, "_", "male_ratio");
    Regroup(prefix, "_", "equilibrium_residual_sq");
  }

  lemma GeneratedAccepts(metrics: seq<Metric>, prefix: string, expectedMale: Option<real>)
    requires Generated(metrics, prefix, expectedMale, 15)
    ensures ScenarioAccepts(metrics, prefix, expectedMale)
  {
    assert |metrics| == 15;
    hide Generated, StateMetrics, RatioMetrics, SpectralMetric;
    RatioAndResidual(metrics, prefix, expectedMale);
    forall i | 0 <= i < 4 ensures StateMetrics(metrics, prefix, i) { StatesAccept(metrics, prefix, expectedMale, i); }
    forall i | 0 <= i < 5 ensures SpectralMetric(metrics, prefix, i) { SpectraAccept(metrics, prefix, expectedMale, i); }
  }

  // The metrics of one scenario, state by state and then the algebraic quantities.
  method GenerateScenarioMetrics(prefix: string, expectedMale: Option<real>) returns (metrics: seq<Metric>)
    ensures |metrics| == |SUFFIXES|
    ensures forall i :: 0 <= i < |metrics| ==> metrics[i] == MetricFor(prefix, expectedMale, SUFFIXES[i])
    ensures ScenarioAccepts(metrics, prefix, expectedMale)
  {
    SuffixOrder();
    hide SUFFIXES, ScenarioAccepts;
    metrics := [];
    for i := 0 to |SPECIES|
      invariant Generated(metrics, prefix, expectedMale, 2 * i)
    {
      var state := SPECIES[i];
      var minimum := Metric(prefix + "_" + (Letter(state) + "_minimum"), Series(Letter(state)), Some(-TOLERANCE), None);
      var final := Metric(prefix + "_" + (Letter(state) + "_final"), Series(Letter(state)), None, None);
      GeneratedNext(metrics, minimum, prefix, expectedMale, 2 * i);
      GeneratedNext(metrics + [minimum], final, prefix, expectedMale, 2 * i + 1);
      metrics := metrics + [minimum] + [final];
    }
    var lower, upper := None, None;
    if expectedMale.Some? {
      lower, upper := Some(expectedMale.value - TOLERANCE), Some(expectedMale.value + TOLERANCE);
    }
    var male := Metric(prefix + "_" + "male_ratio", Value("male_ratio"), lower, upper);
    GeneratedNext(metrics, male, prefix, expectedMale, 8);
    metrics := metrics + [male];
    var residual := Metric(prefix + "_" + "equilibrium_residual_sq", Value("equilibrium_residual_sq"), None, Some(RESIDUAL_LIMIT));
    GeneratedNext(metrics, residual, prefix, expectedMale, 9);
    metrics := metrics + [residual];
    for i := 0 to |QUANTITIES|
      invariant Generated(metrics, prefix, expectedMale, 10 + i)
    {
      var m := Metric(prefix + "_" + Symbol(QUANTITIES[i]), Value(Symbol(QUANTITIES[i])), None, None);
      GeneratedNext(metrics, m, prefix, expectedMale, 10 + i);
      metrics := metrics + [m];
    }
    GeneratedAccepts(metrics, prefix, expectedMale);
  }

  function Names(scenarios: seq<(string, Option<real>)>): seq<string> {
    seq(|scenarios|, i requires 0 <= i < |scenarios| => scenarios[i].0)
  }

  function IdsOf(metrics: seq<Metric>): seq<string> {
    seq(|metrics|, i requires 0 <= i < |metrics| => metrics[i].id)
  }

  lemma NamesNext(scenarios: seq<(string, Option<real>)>, n: nat)
    requires n < |scenarios|
    ensures Names(scenarios[..n + 1]) == Names(scenarios[..n]) + [scenarios[n].0]
  {
  }

  ghost predicate IsScenario(metrics: seq<Metric>, scenario: (string, Option<real>)) {
    Generated(metrics, scenario.0, scenario.1, |SUFFIXES|)
  }

  lemma IdsOfScenario(metrics: seq<Metric>, scenario: (string, Option<real>))
    requires IsScenario(metrics, scenario)
    ensures IdsOf(metrics) == ScenarioIds(scenario.0)
  {
    hide SUFFIXES, MetricId;
  }

  lemma PolicyIdsNext(prefixes: seq<string>, next: string)
    ensures PolicyIds(prefixes + [next]) == PolicyIds(prefixes) + ScenarioIds(next)
  {
    var more := prefixes + [next];
    assert more[..|prefixes|] == prefixes && more[|more| - 1] == next;
    hide ScenarioIds;
    assert ScenariosIds(more) == ScenariosIds(prefixes) + ScenarioIds(next);
  }

  // The identifiers of a policy built scenario by scenario are those of PolicyIds, so they
  // are pairwise distinct exactly when the scenario names are.
  method GeneratePolicy(scenarios: seq<(string, Option<real>)>) returns (metrics: seq<seq<Metric>>, ids: seq<string>)
    ensures |metrics| == |scenarios|
    ensures forall i :: 0 <= i < |scenarios| ==> IsScenario(metrics[i], scenarios[i])
    ensures forall i :: 0 <= i < |scenarios| ==> ScenarioAccepts(metrics[i], scenarios[i].0, scenarios[i].1)
    ensures ids == PolicyIds(Names(scenarios))
    ensures NoDuplicates(ids) <==> NoDuplicates(Names(scenarios))
  {
    metrics, ids := [], [TOP_METRIC];
    BuiltStart(scenarios);
    hide *;
    for n := 0 to |scenarios|
      invariant BuiltSoFar(metrics, ids, scenarios, n)
    {
      var one := GenerateScenarioMetrics(scenarios[n].0, scenarios[n].1);
      MakesScenario(one, scenarios[n]);
      BuiltNext(metrics, ids, scenarios, n, one);
      ids := ids + IdsOf(one);
      metrics := metrics + [one];
    }
    BuiltAll(metrics, ids, scenarios);
  }

  // The first n scenarios have their metrics.
  ghost predicate BuiltSoFar(metrics: seq<seq<Metric>>, ids: seq<string>, scenarios: seq<(string, Option<real>)>, n: nat) {
    && |metrics| == n <= |scenarios|
    && (forall i :: 0 <= i < n ==> IsScenario(metrics[i], scenarios[i]))
    && ids == PolicyIds(Names(scenarios[..n]))
  }

  lemma BuiltStart(scenarios: seq<(string, Option<real>)>)
    ensures BuiltSoFar([], [TOP_METRIC], scenarios, 0)
  {
    assert scenarios[..0] == [] && Names([]) == [] && PolicyIds([]) == [TOP_METRIC];
  }

  lemma BuiltNext(metrics: seq<seq<Metric>>, ids: seq<string>, scenarios: seq<(string, Option<real>)>, n: nat, one: seq<Metric>)
    requires n < |scenarios| && BuiltSoFar(metrics, ids, scenarios, n) && IsScenario(one, scenarios[n])
    ensures BuiltSoFar(metrics + [one], ids + IdsOf(one), scenarios, n + 1)
  {
    hide IsScenario, PolicyIds, Names, IdsOf, ScenarioIds;
    IdsOfScenario(one, scenarios[n]);
    PolicyIdsNext(Names(scenarios[..n]), scenarios[n].0);
    NamesNext(scenarios, n);
  }

  lemma BuiltAll(metrics: seq<seq<Metric>>, ids: seq<string>, scenarios: seq<(string, Option<real>)>)
    requires BuiltSoFar(metrics, ids, scenarios, |scenarios|)
    ensures |metrics| == |scenarios|
    ensures forall i :: 0 <= i < |scenarios| ==> IsScenario(metrics[i], scenarios[i])
    ensures forall i :: 0 <= i < |scenarios| ==> ScenarioAccepts(metrics[i], scenarios[i].0, scenarios[i].1)
    ensures ids == PolicyIds(Names(scenarios)) && (NoDuplicates(ids) <==> NoDuplicates(Names(scenarios)))
  {
    assert scenarios[..|scenarios|] == scenarios;
    hide IsScenario, PolicyIds, Names, ScenarioAccepts, NoDuplicates;
    PolicyIdsDistinctIff(Names(scenarios));
    forall i | 0 <= i < |scenarios|
      ensures ScenarioAccepts(metrics[i], scenarios[i].0, scenarios[i].1)
    {
      ScenarioIsAccepted(metrics[i], scenarios[i]);
    }
  }

  lemma MakesScenario(metrics: seq<Metric>, scenario: (string, Option<real>))
    requires |metrics| == |SUFFIXES| && forall i :: 0 <= i < |metrics| ==> metrics[i] == MetricFor(scenario.0, scenario.1, SUFFIXES[i])
    ensures IsScenario(metrics, scenario)
  {
    hide SUFFIXES, MetricFor;
  }

  lemma ScenarioIsAccepted(metrics: seq<Metric>, scenario: (string, Option<real>))
    requires IsScenario(metrics, scenario)
    ensures ScenarioAccepts(metrics, scenario.0, scenario.1)
  {
    SuffixOrder();
    hide SUFFIXES, Generated, ScenarioAccepts;
    GeneratedAccepts(metrics, scenario.0, scenario.1);
  }
}
