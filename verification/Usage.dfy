// Reported token usage: sums with None as zero, capped as the provider schema caps it, and the
// difference between two readings of a provider's counter.
module Usage {
  import opened Results

  datatype Field = Input | Output | Cached | Reasoning | Total | Requests

  // A token field that was never reported is absent; requests are always present.
  datatype Usage = Usage(tokens: map<Field, nat>, requests: nat)

  const MAX_TOKENS: nat := 1_000_000_000
  const MAX_REQUESTS: nat := 1_000_000
  const NOTHING := Usage(map[], 0)

  function Get(tokens: map<Field, nat>, f: Field): nat {
    if f in tokens then tokens[f] else 0
  }

  function Amount(u: Usage, f: Field): nat {
    if f == Requests then u.requests else Get(u.tokens, f)
  }

  predicate WithinCaps(u: Usage) {
    u.requests <= MAX_REQUESTS && forall f :: f in u.tokens && f != Requests ==> u.tokens[f] <= MAX_TOKENS
  }

  function Sum(a: Usage, b: Usage): Usage {
    Usage(map f | f in a.tokens.Keys + b.tokens.Keys :: Get(a.tokens, f) + Get(b.tokens, f), a.requests + b.requests)
  }

  // None when the result would violate the schema's bounds.
  function Plus(a: Usage, b: Usage): (r: Option<Usage>)
    ensures r.Some? ==> forall f :: Amount(r.value, f) == Amount(a, f) + Amount(b, f)
    ensures r.Some? <==> WithinCaps(Sum(a, b))
  {
    if WithinCaps(Sum(a, b)) then Some(Sum(a, b)) else None
  }

  function Floor(x: int): nat { if x < 0 then 0 else x }

  function Difference(before: Usage, after: Usage): Usage {
    Usage(map f | f in after.tokens :: Floor(after.tokens[f] - Get(before.tokens, f)), Floor(after.requests - before.requests))
  }

  lemma AmountOfSum(a: Usage, b: Usage, f: Field)
    ensures Amount(Sum(a, b), f) == Amount(a, f) + Amount(b, f)
  {
  }

  // Reading a counter around an increment recovers the increment, in every field.
  lemma DifferenceRecovers(before: Usage, spent: Usage, f: Field)
    ensures Amount(Difference(before, Sum(before, spent)), f) == Amount(spent, f)
  {
  }

  lemma DifferenceOfReading(reading: Usage, f: Field)
    ensures Amount(Difference(NOTHING, reading), f) == Amount(reading, f)
  {
  }

  lemma NothingIsNeutral(a: Usage)
    ensures Sum(a, NOTHING) == a && Sum(NOTHING, a) == a
  {
  }

  lemma PlusFromNothing(u: Usage)
    requires WithinCaps(u)
    ensures Plus(NOTHING, u) == Some(u)
  {
    NothingIsNeutral(u);
  }

  // ---- counters of several providers ---------------------------------------------------------

  type Counters = map<string, Usage>

  // A provider without an entry has not been used.
  function Reading(c: Counters, provider: string): Usage {
    if provider in c then c[provider] else NOTHING
  }

  function Spend(c: Counters, provider: string, spent: Usage): Counters {
    c[provider := Sum(Reading(c, provider), spent)]
  }

  ghost function GrandTotal(c: Counters, f: Field): nat
    decreases |c|
  {
    if c == map[] then 0
    else
      var p :| p in c;
      Amount(c[p], f) + GrandTotal(c - {p}, f)
  }

  // The total does not depend on which provider is taken first.
  lemma {:induction false} GrandTotalOf(c: Counters, p: string, f: Field)
    requires p in c
    ensures GrandTotal(c, f) == Amount(c[p], f) + GrandTotal(c - {p}, f)
    decreases |c|
  {
    var q :| q in c && GrandTotal(c, f) == Amount(c[q], f) + GrandTotal(c - {q}, f);
    if p != q {
      GrandTotalOf(c - {q}, p, f);
      GrandTotalOf(c - {p}, q, f);
      assert c - {q} - {p} == c - {p} - {q};
    }
  }

  lemma SpendTotal(c: Counters, p: string, spent: Usage, f: Field)
    ensures GrandTotal(Spend(c, p, spent), f) == GrandTotal(c, f) + Amount(spent, f)
  {
    var d := Spend(c, p, spent);
    GrandTotalOf(d, p, f);
    AmountOfSum(Reading(c, p), spent, f);
    assert d - {p} == c - {p};
    if p in c {
      GrandTotalOf(c, p, f);
    } else {
      assert c - {p} == c;
    }
  }
}
