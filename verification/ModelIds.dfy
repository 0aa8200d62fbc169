// Fresh model identifiers for a provider: slug of the remote name, truncation to one hundred
// characters and a counter that grows until the identifier is unused.
module ModelIds {
  import opened Results
  import opened IdText

  const LIMIT: nat := 100

  // Largest integer up to which the counter is exact.
  const MAX_SAFE_INTEGER: nat := 9007199254740991

  // ---- the slug ----------------------------------------------------------------------------

  function SkipJunk(s: string): (r: string)
    ensures |r| <= |s| && (r != "" ==> IsWord(r[0]))
    ensures s != "" && !IsWord(s[0]) ==> |r| < |s|
  {
    if s == "" || IsWord(s[0]) then s else SkipJunk(s[1..])
  }

  // Every maximal run of other characters becomes one dash.
  function Dashed(s: string): string
    decreases |s|
  {
    if s == "" then ""
    else if IsWord(s[0]) then [s[0]] + Dashed(s[1..])
    else "-" + Dashed(SkipJunk(s))
  }

  // One dash is removed at either end.
  function Trimmed(s: string): string {
    var t := if s != "" && s[0] == '-' then s[1..] else s;
    if t != "" && t[|t| - 1] == '-' then t[..|t| - 1] else t
  }

  // `lowered` is the remote name after lower-casing.
  function Slug(lowered: string): string {
    var t := Trimmed(Dashed(lowered));
    if t == "" then "model" else t
  }

  lemma {:induction false} DashedIsSpaced(s: string)
    ensures Spaced(Dashed(s))
    ensures s != "" && IsWord(s[0]) ==> Dashed(s) != "" && Dashed(s)[0] == s[0]
    decreases |s|
  {
    if s != "" {
      if IsWord(s[0]) {
        DashedIsSpaced(s[1..]);
      } else {
        DashedIsSpaced(SkipJunk(s));
      }
    }
  }

  // A single trim suffices: the slug is never empty, has only letters, digits and single
  // dashes, and neither starts nor ends with a dash.
  lemma SlugIsClean(lowered: string)
    ensures var s := Slug(lowered);
            s != "" && Spaced(s) && s[0] != '-' && s[|s| - 1] != '-'
  {
    DashedIsSpaced(lowered);
    TrimmedIsClean(Dashed(lowered));
  }

  lemma TrimmedIsClean(d: string)
    requires Spaced(d)
    ensures var t := Trimmed(d);
            Spaced(t) && (t != "" ==> t[0] != '-' && t[|t| - 1] != '-')
  {
    var t := if d != "" && d[0] == '-' then d[1..] else d;
    assert Spaced(t);
    assert t != "" ==> t[0] != '-';
    if t != "" && t[|t| - 1] == '-' {
      assert |t| > 1;
    }
  }

  // ---- what the slug keeps -----------------------------------------------------------------

  lemma {:induction false} JunkHasNoMarks(s: string)
    requires s != "" && !IsWord(s[0])
    ensures Marks(SkipJunk(s), false) == Marks(s, false)
  {
    hide IsWord;
    if s[1..] != "" && !IsWord(s[1]) { JunkHasNoMarks(s[1..]); }
  }

  lemma {:induction false} DashedKeepsMarks(s: string, after: bool)
    ensures Marks(Dashed(s), after) == Marks(s, after)
    decreases |s|
  {
    if s != "" {
      if IsWord(s[0]) {
        DashedKeepsMarks(s[1..], true);
        assert Dashed(s)[1..] == Dashed(s[1..]);
      } else {
        JunkHasNoMarks(s);
        DashedKeepsMarks(SkipJunk(s), false);
        assert Dashed(s)[1..] == Dashed(SkipJunk(s));
      }
    }
  }

  lemma TrimmedKeepsMarks(d: string)
    ensures Marks(Trimmed(d), false) == Marks(d, false)
  {
    var t := if d != "" && d[0] == '-' then d[1..] else d;
    assert Marks(t, false) == Marks(d, false);
    if t != "" && t[|t| - 1] == '-' {
      MarksSnoc(t[..|t| - 1], '-', false);
      assert t == t[..|t| - 1] + "-";
    }
  }

  // The slug is the one the name determines.
  lemma SlugIsSlug(lowered: string)
    ensures IsSlug(lowered, Slug(lowered))
  {
    var t := Trimmed(Dashed(lowered));
    DashedKeepsMarks(lowered, false);
    TrimmedKeepsMarks(Dashed(lowered));
    SlugIsClean(lowered);
    DashedIsSpaced(lowered);
    TrimmedIsClean(Dashed(lowered));
    assert t != "" ==> Marks(t, false) != [];
    hide Dashed, Trimmed;
  }

  // ---- truncation and counter -----------------------------------------------------------------

  function Slice(s: string, n: nat): (r: string)
    ensures |r| <= n && |r| <= |s|
  {
    if |s| <= n then s else s[..n]
  }

  function DropDash(s: string): string {
    if s != "" && s[|s| - 1] == '-' then s[..|s| - 1] else s
  }

  function Base(providerId: string, lowered: string): string {
    DropDash(Slice(providerId + "-" + Slug(lowered), LIMIT))
  }

  const DIGITS := "0123456789"

  function Decimal(n: nat): (s: string)
    ensures s != ""
  {
    if n < 10 then [DIGITS[n]] else Decimal(n / 10) + [DIGITS[n % 10]]
  }

  function Addition(counter: nat): string {
    "-" + Decimal(counter)
  }

  function Candidate(base: string, counter: nat): string {
    var addition := Addition(counter);
    if |addition| <= LIMIT then Slice(base, LIMIT - |addition|) + addition else addition
  }

  lemma DigitsAreDistinct(i: nat, j: nat)
    requires i < 10 && j < 10 && DIGITS[i] == DIGITS[j]
    ensures i == j
  {
  }

  lemma {:induction false} DecimalIsInjective(n: nat, m: nat)
    requires Decimal(n) == Decimal(m)
    ensures n == m
  {
    var s := Decimal(n);
    if n < 10 && m < 10 {
      DigitsAreDistinct(n, m);
    } else if n >= 10 && m >= 10 {
      assert s[..|s| - 1] == Decimal(n / 10) && s[..|s| - 1] == Decimal(m / 10);
      DecimalIsInjective(n / 10, m / 10);
      DigitsAreDistinct(n % 10, m % 10);
    }
  }

  lemma {:induction false} DecimalHasDigits(n: nat)
    ensures forall i :: 0 <= i < |Decimal(n)| ==> '0' <= Decimal(n)[i] <= '9'
  {
    if n >= 10 { DecimalHasDigits(n / 10); }
  }

  function Power10(k: nat): nat {
    if k == 0 then 1 else 10 * Power10(k - 1)
  }

  lemma {:induction false} DecimalLength(n: nat, k: nat)
    requires k >= 1 && n < Power10(k)
    ensures |Decimal(n)| <= k
  {
    if n >= 10 {
      assert k >= 2;
      DecimalLength(n / 10, k - 1);
    }
  }

  lemma AdditionIsShort(counter: nat)
    requires counter <= MAX_SAFE_INTEGER
    ensures |Addition(counter)| <= 17
  {
    assert Power10(4) == 10000;
    assert Power10(8) == 100000000;
    assert Power10(12) == 1000000000000;
    assert Power10(16) == 10000000000000000;
    DecimalLength(counter, 16);
  }

  // The text after the last dash tells the counter.
  lemma LastDash(head: string, n: nat, i: nat)
    ensures var s := head + "-" + Decimal(n);
            i < |s| ==> (s[i] == '-' && (forall j :: i < j < |s| ==> s[j] != '-') <==> i == |head|)
  {
    DecimalHasDigits(n);
    var s := head + "-" + Decimal(n);
    assert s[|head|] == '-';
    assert forall j :: |head| < j < |s| ==> s[j] == Decimal(n)[j - |head| - 1];
  }

  lemma SuffixDecides(p: string, n: nat, q: string, m: nat)
    requires p + "-" + Decimal(n) == q + "-" + Decimal(m)
    ensures n == m
  {
    LastDash(p, n, |p|);
    LastDash(q, m, |p|);
    var s := p + "-" + Decimal(n);
    assert s[|p| + 1..] == Decimal(n) && s[|q| + 1..] == Decimal(m);
    DecimalIsInjective(n, m);
  }

  lemma CandidatesAreDistinct(base: string, n: nat, m: nat)
    requires n <= MAX_SAFE_INTEGER && m <= MAX_SAFE_INTEGER && Candidate(base, n) == Candidate(base, m)
    ensures n == m
  {
    AdditionIsShort(n);
    AdditionIsShort(m);
    var p, q := Slice(base, LIMIT - |Addition(n)|), Slice(base, LIMIT - |Addition(m)|);
    assert p + "-" + Decimal(n) == p + Addition(n) == q + Addition(m) == q + "-" + Decimal(m);
    SuffixDecides(p, n, q, m);
  }

  // ---- the loop -----------------------------------------------------------------------------

  // Counters 2..k-1 all taken: there are that many used identifiers.
  lemma {:induction false} TakenAreCounted(used: set<string>, base: string, k: nat)
    requires 2 <= k <= MAX_SAFE_INTEGER + 1
    requires forall j {:trigger Candidate(base, j)} :: 2 <= j < k ==> Candidate(base, j) in used
    ensures k - 2 <= |used|
    decreases k
  {
    if k > 2 {
      var last := Candidate(base, k - 1);
      forall j {:trigger Candidate(base, j)} | 2 <= j < k - 1
        ensures Candidate(base, j) in used - {last}
      {
        if Candidate(base, j) == last { CandidatesAreDistinct(base, j, k - 1); }
      }
      TakenAreCounted(used - {last}, base, k - 1);
    }
  }

  // `id` is the base when that is free, otherwise the candidate with the least free counter.
  ghost predicate FirstFree(used: set<string>, base: string, id: string) {
    if base !in used then id == base
    else exists k {:trigger Candidate(base, k)} ::
           2 <= k <= |used| + 2 && id == Candidate(base, k) && id !in used
           && forall j {:trigger Candidate(base, j)} :: 2 <= j < k ==> Candidate(base, j) in used
  }

  lemma FirstFreeIsUnique(used: set<string>, base: string, id: string, other: string)
    requires FirstFree(used, base, id) && FirstFree(used, base, other)
    ensures id == other && id !in used
  {
    if base in used {
      var k :| 2 <= k <= |used| + 2 && id == Candidate(base, k) && id !in used
               && forall j {:trigger Candidate(base, j)} :: 2 <= j < k ==> Candidate(base, j) in used;
      var m :| 2 <= m <= |used| + 2 && other == Candidate(base, m) && other !in used
               && forall j {:trigger Candidate(base, j)} :: 2 <= j < m ==> Candidate(base, j) in used;
      assert !(k < m) && !(m < k);
    }
  }

  lemma FoundAt(used: set<string>, base: string, id: string, k: nat)
    requires base in used && 2 <= k <= |used| + 2 && id == Candidate(base, k) && id !in used
    requires forall j {:trigger Candidate(base, j)} :: 2 <= j < k ==> Candidate(base, j) in used
    ensures FirstFree(used, base, id)
  {
  }

  // ---- the identifier as text -----------------------------------------------------------------

  lemma BaseIsBase(providerId: string, lowered: string)
    ensures IsBase(providerId + "-" + Slug(lowered), Base(providerId, lowered)) && |Base(providerId, lowered)| <= LIMIT
  {
    hide Slug;
    var whole := providerId + "-" + Slug(lowered);
    var cut := Slice(whole, LIMIT);
    assert cut <= whole;
    if cut != "" && cut[|cut| - 1] == '-' { assert cut == DropDash(cut) + "-"; }
  }

  lemma {:induction false} DecimalIsNumeral(n: nat)
    ensures IsNumeral(Decimal(n), n)
  {
    DecimalHasDigits(n);
    var s := Decimal(n);
    if n < 10 {
      assert s[..0] == "" && NumberOf("") == 0;
      DigitValue(n);
      assert NumberOf(s) == n;
    } else {
      DecimalIsNumeral(n / 10);
      DigitValue(n % 10);
      assert s[..|s| - 1] == Decimal(n / 10);
      hide DIGITS;
      if |Decimal(n / 10)| == 1 { assert Decimal(n / 10)[0] != '0'; }
    }
  }

  lemma DigitValue(d: nat)
    requires d < 10
    ensures DIGITS[d] as int - '0' as int == d && (DIGITS[d] == '0' <==> d == 0)
  {
  }

  lemma CutIsSlice(base: string, head: string, n: nat)
    requires head <= base && |head| <= n && (head == base || |head| == n)
    ensures head == Slice(base, n)
  {
  }

  lemma CandidateParts(base: string, k: nat)
    requires k <= MAX_SAFE_INTEGER
    ensures |Decimal(k)| + 1 <= LIMIT && Candidate(base, k) == Slice(base, LIMIT - 1 - |Decimal(k)|) + "-" + Decimal(k)
  {
    AdditionIsShort(k);
    hide Decimal, MAX_SAFE_INTEGER, Slice;
  }

  lemma CandidateIsOne(base: string, k: nat)
    requires k <= MAX_SAFE_INTEGER
    ensures IsNumbered(base, k, Candidate(base, k))
  {
    CandidateParts(base, k);
    DecimalIsNumeral(k);
    hide Decimal, IsNumeral, MAX_SAFE_INTEGER, Candidate;
    var head := Slice(base, LIMIT - 1 - |Decimal(k)|);
    assert head <= base;
  }

  lemma OnlyCandidate(base: string, k: nat, id: string)
    requires k <= MAX_SAFE_INTEGER && IsNumbered(base, k, id)
    ensures id == Candidate(base, k)
  {
    CandidateParts(base, k);
    hide *;
    var head, digits := NumberedParts(base, k, id);
    DecimalIsNumeral(k);
    NumeralIsUnique(digits, Decimal(k), k);
    CutIsSlice(base, head, LIMIT - 1 - |digits|);
  }

  // The candidates are the numbered identifiers and no others.
  lemma CandidateIsNumbered(base: string, k: nat, id: string)
    requires k <= MAX_SAFE_INTEGER
    ensures IsNumbered(base, k, id) <==> id == Candidate(base, k)
  {
    hide IsNumbered, Candidate, MAX_SAFE_INTEGER;
    CandidateIsOne(base, k);
    if IsNumbered(base, k, id) { OnlyCandidate(base, k, id); }
  }

  lemma LeastIsNumbered(used: set<string>, base: string, id: string)
    requires |used| + 2 <= MAX_SAFE_INTEGER && base in used && FirstFree(used, base, id)
    ensures IsLeastNumbered(used, base, id)
  {
    var k :| 2 <= k <= |used| + 2 && id == Candidate(base, k) && id !in used
             && forall j {:trigger Candidate(base, j)} :: 2 <= j < k ==> Candidate(base, j) in used;
    CandidateIsNumbered(base, k, id);
    hide IsNumbered, Candidate, MAX_SAFE_INTEGER;
    forall j: nat, other | 2 <= j < k && IsNumbered(base, j, other)
      ensures other in used
    {
      CandidateIsNumbered(base, j, other);
    }
  }

  // The first free identifier, in terms of its text.
  lemma FirstFreeIsFresh(used: set<string>, providerId: string, lowered: string, id: string)
    requires |used| + 2 <= MAX_SAFE_INTEGER && FirstFree(used, Base(providerId, lowered), id)
    ensures IsFreshId(used, providerId, lowered, id)
  {
    var base := Base(providerId, lowered);
    SlugIsSlug(lowered);
    BaseIsBase(providerId, lowered);
    FirstFreeIsUnique(used, base, id, id);
    if base in used { LeastIsNumbered(used, base, id); }
    hide Slug, Base, IsSlug, IsBase, IsLeastNumbered, MAX_SAFE_INTEGER;
  }

  // The set of identifiers in use, shared by all calls of one batch.
  class UsedIds {
    var ids: set<string>

    constructor (registered: set<string>)
      ensures ids == registered
    {
      ids := registered;
    }

    method GeneratedModelId(providerId: string, lowered: string) returns (id: string)
      requires |ids| + 2 <= MAX_SAFE_INTEGER
      modifies this
      ensures FirstFree(old(ids), Base(providerId, lowered), id)
      ensures IsFreshId(old(ids), providerId, lowered, id)
      ensures id !in old(ids) && ids == old(ids) + {id}
    {
      var base := Base(providerId, lowered);
      id := base;
      var counter := 2;
      while id in ids
        invariant ids == old(ids) && 2 <= counter <= |ids| + 3
        invariant if counter == 2 then id == base else base in ids && id == Candidate(base, counter - 1)
        invariant forall j {:trigger Candidate(base, j)} :: 2 <= j < counter - 1 ==> Candidate(base, j) in ids
        decreases |ids| + 3 - counter
      {
        TakenAreCounted(ids, base, counter);
        AdditionIsShort(counter);
        var addition := Addition(counter);
        id := Slice(base, LIMIT - |addition|) + addition;
        counter := counter + 1;
      }
      if counter > 2 { FoundAt(ids, base, id, counter - 1); }
      FirstFreeIsFresh(ids, providerId, lowered, id);
      ids := ids + {id};
    }
  }

  // ---- what the backend accepts ----------------------------------------------------------------

  predicate IsIdChar(c: char) {
    IsWord(c) || c == '.' || c == '_' || c == '-'
  }

  // ^[a-z0-9][a-z0-9._-]{1,99}$
  predicate MatchesPattern(s: string) {
    2 <= |s| <= 100 && IsWord(s[0]) && forall i :: 0 <= i < |s| ==> IsIdChar(s[i])
  }

  ghost predicate AllIdChars(s: string) {
    forall i :: 0 <= i < |s| ==> IsIdChar(s[i])
  }

  lemma BaseMatches(providerId: string, lowered: string)
    ensures |Base(providerId, lowered)| <= LIMIT
    ensures MatchesPattern(providerId) ==> MatchesPattern(Base(providerId, lowered))
  {
    SlugIsClean(lowered);
    hide Slug;
    var whole := providerId + "-" + Slug(lowered);
    if MatchesPattern(providerId) {
      assert AllIdChars(whole) && |whole| >= 4 && IsWord(whole[0]);
      var cut := Slice(whole, LIMIT);
      assert AllIdChars(cut) && |cut| >= 4 && cut[0] == whole[0];
    }
  }

  lemma CandidateMatches(base: string, counter: nat)
    requires counter <= MAX_SAFE_INTEGER
    ensures |Candidate(base, counter)| <= LIMIT
    ensures MatchesPattern(base) ==> MatchesPattern(Candidate(base, counter))
  {
    AdditionIsShort(counter);
    DecimalHasDigits(counter);
    var addition := Addition(counter);
    var head := Slice(base, LIMIT - |addition|);
    if MatchesPattern(base) {
      assert AllIdChars(addition) && AllIdChars(head) && head[0] == base[0];
      assert AllIdChars(head + addition);
    }
  }

  lemma FirstFreeMatches(used: set<string>, providerId: string, lowered: string, id: string)
    requires |used| + 2 <= MAX_SAFE_INTEGER && FirstFree(used, Base(providerId, lowered), id)
    ensures |id| <= LIMIT
    ensures MatchesPattern(providerId) ==> MatchesPattern(id)
  {
    var base := Base(providerId, lowered);
    BaseMatches(providerId, lowered);
    hide MatchesPattern;
    if base in used {
      var k :| 2 <= k <= |used| + 2 && id == Candidate(base, k);
      CandidateMatches(base, k);
    }
  }

  function Elements(s: seq<string>): set<string> {
    set x | x in s
  }

  // The identifiers of a batch, each the first free one when its predecessors count as used.
  ghost predicate Fresh(requested: seq<string>, providerId: string, registered: set<string>, lowered: seq<string>) {
    && |requested| <= |lowered|
    && forall i :: 0 <= i < |requested| ==>
         FirstFree(registered + Elements(requested[..i]), Base(providerId, lowered[i]), requested[i])
  }

  lemma FreshStart(providerId: string, registered: set<string>, lowered: seq<string>)
    ensures Fresh([], providerId, registered, lowered) && registered + Elements([]) == registered
  {
  }

  lemma FreshNext(requested: seq<string>, id: string, providerId: string, registered: set<string>, lowered: seq<string>)
    requires Fresh(requested, providerId, registered, lowered) && |requested| < |lowered|
    requires FirstFree(registered + Elements(requested), Base(providerId, lowered[|requested|]), id)
    ensures Fresh(requested + [id], providerId, registered, lowered)
  {
    hide FirstFree, Base;
    var more := requested + [id];
    forall i | 0 <= i < |more|
      ensures FirstFree(registered + Elements(more[..i]), Base(providerId, lowered[i]), more[i])
    {
      assert more[..i] == requested[..i];
      assert requested[..|requested|] == requested;
    }
  }

  lemma ElementsSnoc(s: seq<string>, x: string)
    ensures Elements(s + [x]) == Elements(s) + {x}
  {
  }

  lemma ElementsAreFew(s: seq<string>)
    ensures |Elements(s)| <= |s|
  {
    if s != [] {
      ElementsAreFew(s[1..]);
      assert Elements(s) == {s[0]} + Elements(s[1..]);
    }
  }

  lemma BatchFits(registered: set<string>, requested: seq<string>, lowered: seq<string>)
    requires |registered| + |lowered| + 2 <= MAX_SAFE_INTEGER && |requested| <= |lowered|
    ensures |registered + Elements(requested)| + 2 <= MAX_SAFE_INTEGER
  {
    ElementsAreFew(requested);
    hide Elements;
  }

  // Every batch identifier is new, at most one hundred characters long, and acceptable to the
  // backend whenever the provider's own identifier is.
  lemma FreshIdsAreValid(requested: seq<string>, providerId: string, registered: set<string>, lowered: seq<string>, i: nat, j: nat)
    requires Fresh(requested, providerId, registered, lowered) && |registered| + |lowered| + 2 <= MAX_SAFE_INTEGER
    requires j < |requested|
    ensures requested[j] !in registered && |requested[j]| <= LIMIT
    ensures i < j ==> requested[i] != requested[j]
    ensures IsFreshId(registered + Elements(requested[..j]), providerId, lowered[j], requested[j])
    ensures MatchesPattern(providerId) ==> MatchesPattern(requested[j])
  {
    var used := registered + Elements(requested[..j]);
    ElementsAreFew(requested[..j]);
    assert FirstFree(used, Base(providerId, lowered[j]), requested[j]);
    FirstFreeIsUnique(used, Base(providerId, lowered[j]), requested[j], requested[j]);
    FirstFreeMatches(used, providerId, lowered[j], requested[j]);
    FirstFreeIsFresh(used, providerId, lowered[j], requested[j]);
    hide IsFreshId;
    if i < j { assert requested[i] == requested[..j][i]; }
  }

  lemma FreshTexts(requested: seq<string>, providerId: string, registered: set<string>, lowered: seq<string>)
    requires Fresh(requested, providerId, registered, lowered) && |registered| + |lowered| + 2 <= MAX_SAFE_INTEGER
    ensures forall i :: 0 <= i < |requested| ==>
              IsFreshId(registered + Elements(requested[..i]), providerId, lowered[i], requested[i])
  {
    assert |requested| <= |lowered|;
    hide Fresh, IsFreshId, MAX_SAFE_INTEGER, Elements;
    forall i | 0 <= i < |requested|
      ensures IsFreshId(registered + Elements(requested[..i]), providerId, lowered[i], requested[i])
    {
      FreshIdsAreValid(requested, providerId, registered, lowered, i, i);
    }
  }

  // Adds the selected candidates in turn.  `accepted[i]` says whether the backend accepts the
  // i-th creation; the first refusal ends the batch.
  method AddCandidates(providerId: string, registered: set<string>, lowered: seq<string>, accepted: seq<bool>)
    returns (requested: seq<string>, succeeded: bool)
    requires |lowered| == |accepted| && |registered| + |lowered| + 2 <= MAX_SAFE_INTEGER
    ensures Fresh(requested, providerId, registered, lowered)
    ensures succeeded <==> forall i :: 0 <= i < |accepted| ==> accepted[i]
    ensures |requested| <= |lowered| && forall i :: 0 <= i < |requested| - 1 ==> accepted[i]
    ensures forall i :: 0 <= i < |requested| ==>
              IsFreshId(registered + Elements(requested[..i]), providerId, lowered[i], requested[i])
    ensures |requested| == |lowered| || (requested != [] && !accepted[|requested| - 1])
  {
    var used := new UsedIds(registered);
    requested, succeeded := [], true;
    FreshStart(providerId, registered, lowered);
    hide FirstFree, Base, Fresh, Elements, MAX_SAFE_INTEGER, IsFreshId;
    for n := 0 to |lowered|
      invariant |requested| == n && used.ids == registered + Elements(requested)
      invariant succeeded && forall i :: 0 <= i < n ==> accepted[i]
      invariant Fresh(requested, providerId, registered, lowered)
    {
      BatchFits(registered, requested, lowered);
      var id := used.GeneratedModelId(providerId, lowered[n]);
      FreshNext(requested, id, providerId, registered, lowered);
      ElementsSnoc(requested, id);
      requested := requested + [id];
      if !accepted[n] {
        succeeded := false;
        FreshTexts(requested, providerId, registered, lowered);
        return;
      }
    }
    FreshTexts(requested, providerId, registered, lowered);
  }
}
