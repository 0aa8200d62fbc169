// What the text of a generated model identifier has to be, independently of how it is computed.
module IdText {

  predicate IsWord(c: char) {
    'a' <= c <= 'z' || '0' <= c <= '9'
  }

  // ---- slugs -----------------------------------------------------------------------------------

  // The letters and digits of s in order, each with whether it directly follows another one;
  // `after` says so for a character in front of s.
  function Marks(s: string, after: bool): seq<(char, bool)> {
    if s == "" then []
    else if IsWord(s[0]) then [(s[0], after)] + Marks(s[1..], true)
    else Marks(s[1..], false)
  }

  // The mark of the i-th character.
  function MarkOf(s: string, after: bool, i: nat): (char, bool)
    requires i < |s|
  {
    (s[i], if i == 0 then after else IsWord(s[i - 1]))
  }

  // Ascending places of all letters and digits, with their marks.
  ghost predicate ArePlaces(places: seq<nat>, s: string, after: bool, marks: seq<(char, bool)>) {
    && |places| == |marks|
    && (forall j :: 0 <= j < |places| ==> places[j] < |s| && IsWord(s[places[j]]) && marks[j] == MarkOf(s, after, places[j]))
    && (forall i, j :: 0 <= i < j < |places| ==> places[i] < places[j])
    && (forall i :: 0 <= i < |s| && IsWord(s[i]) ==> i in places)
  }

  lemma {:induction false} MarksSnoc(s: string, c: char, after: bool)
    ensures Marks(s + [c], after) == Marks(s, after) + if IsWord(c) then [MarkOf(s + [c], after, |s|)] else []
  {
    hide IsWord;
    if s == "" {
      assert (s + [c])[1..] == "";
      assert Marks("", true) == [] && Marks("", false) == [];
    } else {
      assert (s + [c])[1..] == s[1..] + [c];
      MarksSnoc(s[1..], c, IsWord(s[0]));
    }
  }

  lemma PlacesSnoc(places: seq<nat>, s: string, c: char, after: bool, marks: seq<(char, bool)>)
    requires ArePlaces(places, s, after, marks)
    ensures if IsWord(c) then ArePlaces(places + [|s|], s + [c], after, marks + [MarkOf(s + [c], after, |s|)])
            else ArePlaces(places, s + [c], after, marks)
  {
    hide IsWord;
    var t := s + [c];
    assert forall i :: 0 <= i < |s| ==> MarkOf(t, after, i) == MarkOf(s, after, i);
  }

  // The places the marks are taken from.
  lemma {:induction false} MarksAt(s: string, after: bool) returns (places: seq<nat>)
    ensures ArePlaces(places, s, after, Marks(s, after))
    decreases |s|
  {
    if s == "" {
      places := [];
    } else {
      var k := |s| - 1;
      places := MarksAt(s[..k], after);
      MarksSnoc(s[..k], s[k], after);
      PlacesSnoc(places, s[..k], s[k], after, Marks(s[..k], after));
      assert s == s[..k] + [s[k]];
      hide ArePlaces, Marks, MarkOf;
      if IsWord(s[k]) { places := places + [k]; }
    }
  }

  predicate IsSlugChar(c: char) {
    IsWord(c) || c == '-'
  }

  ghost predicate Spaced(s: string) {
    && (forall i :: 0 <= i < |s| ==> IsSlugChar(s[i]))
    && (forall i :: 0 <= i < |s| - 1 ==> s[i] != '-' || s[i + 1] != '-')
  }

  // Letters, digits and single dashes between them.
  ghost predicate Tidy(s: string) {
    s != "" && Spaced(s) && s[0] != '-' && s[|s| - 1] != '-'
  }

  // The slug has the name's letters and digits, with one dash wherever two were separated.
  ghost predicate IsSlug(lowered: string, t: string) {
    if Marks(lowered, false) == [] then t == "model" else Tidy(t) && Marks(t, false) == Marks(lowered, false)
  }

  lemma SameCons<T>(a: T, x: seq<T>, b: T, y: seq<T>)
    requires [a] + x == [b] + y
    ensures a == b && x == y
  {
    assert ([a] + x)[0] == a && ([b] + y)[0] == b && ([a] + x)[1..] == x && ([b] + y)[1..] == y;
  }

  lemma {:induction false} RestIsDetermined(t: string, u: string)
    requires Spaced(t) && Spaced(u) && (t != "" ==> t[|t| - 1] != '-') && (u != "" ==> u[|u| - 1] != '-')
    requires Marks(t, true) == Marks(u, true)
    ensures t == u
    decreases |t|
  {
    MarksOfRest(t);
    MarksOfRest(u);
    hide Marks;
    if t != "" && u != "" {
      var i, j := if IsWord(t[0]) then 0 else 1, if IsWord(u[0]) then 0 else 1;
      SameCons((t[i], i == 0), Marks(t[i + 1..], true), (u[j], j == 0), Marks(u[j + 1..], true));
      RestIsDetermined(t[i + 1..], u[i + 1..]);
      assert t == t[..i + 1] + t[i + 1..] && u == u[..i + 1] + u[i + 1..];
    }
  }

  // The first mark of what follows a letter or digit.
  lemma MarksOfRest(t: string)
    requires Spaced(t) && (t != "" ==> t[|t| - 1] != '-')
    ensures if t == "" then Marks(t, true) == []
            else if IsWord(t[0]) then Marks(t, true) == [(t[0], true)] + Marks(t[1..], true)
            else t[0] == '-' && |t| >= 2 && IsWord(t[1]) && Marks(t, true) == [(t[1], false)] + Marks(t[2..], true)
  {
    if t != "" && !IsWord(t[0]) { assert t[1..][1..] == t[2..]; }
  }

  // A slug is determined by the name.
  lemma SlugIsUnique(lowered: string, t: string, u: string)
    requires IsSlug(lowered, t) && IsSlug(lowered, u)
    ensures t == u
  {
    if Marks(lowered, false) != [] {
      SameCons((t[0], false), Marks(t[1..], true), (u[0], false), Marks(u[1..], true));
      RestIsDetermined(t[1..], u[1..]);
      assert t == [t[0]] + t[1..] && u == [u[0]] + u[1..];
    }
  }

  // ---- truncation and numerals -------------------------------------------------------------------

  // Cut at one hundred characters, then without one final dash.
  ghost predicate IsBase(whole: string, base: string) {
    exists cut :: cut <= whole && |cut| == (if |whole| <= 100 then |whole| else 100)
                  && (if cut != "" && cut[|cut| - 1] == '-' then cut == base + "-" else cut == base)
  }

  function NumberOf(digits: string): int {
    if digits == "" then 0 else 10 * NumberOf(digits[..|digits| - 1]) + (digits[|digits| - 1] as int - '0' as int)
  }

  // The decimal numeral of k.
  ghost predicate IsNumeral(digits: string, k: nat) {
    && digits != "" && (forall i :: 0 <= i < |digits| ==> '0' <= digits[i] <= '9') && (|digits| > 1 ==> digits[0] != '0')
    && NumberOf(digits) == k
  }

  // As much of the base as fits, a dash and the counter, in one hundred characters.
  ghost predicate IsNumbered(base: string, k: nat, id: string) {
    exists head, digits ::
      && id == head + "-" + digits && IsNumeral(digits, k) && head <= base
      && |head| + 1 + |digits| <= 100 && (head == base || |id| == 100)
  }

  // The identifier for a remote name when `used` are taken.
  ghost predicate IsFreshId(used: set<string>, providerId: string, lowered: string, id: string) {
    exists t, base ::
      && IsSlug(lowered, t) && IsBase(providerId + "-" + t, base) && id !in used
      && if base !in used then id == base else IsLeastNumbered(used, base, id)
  }

  ghost predicate IsLeastNumbered(used: set<string>, base: string, id: string) {
    exists k: nat :: k >= 2 && IsNumbered(base, k, id) && forall j: nat, other :: 2 <= j < k && IsNumbered(base, j, other) ==> other in used
  }

  lemma {:induction false} NumberIsNatural(digits: string)
    requires forall i :: 0 <= i < |digits| ==> '0' <= digits[i] <= '9'
    ensures NumberOf(digits) >= 0
  {
    if digits != "" { NumberIsNatural(digits[..|digits| - 1]); }
  }

  lemma {:induction false} NumberIsPositive(digits: string)
    requires digits != "" && digits[0] != '0' && forall i :: 0 <= i < |digits| ==> '0' <= digits[i] <= '9'
    ensures NumberOf(digits) > 0
  {
    if |digits| > 1 { NumberIsPositive(digits[..|digits| - 1]); }
  }

  // There is one numeral for each number.
  lemma {:induction false} NumeralIsUnique(a: string, b: string, k: nat)
    requires IsNumeral(a, k) && IsNumeral(b, k)
    ensures a == b
    decreases |a|
  {
    var x, y := a[..|a| - 1], b[..|b| - 1];
    NumberIsNatural(x);
    NumberIsNatural(y);
    assert a == x + [a[|a| - 1]] && b == y + [b[|b| - 1]];
    assert NumberOf(x) == NumberOf(y) && a[|a| - 1] == b[|b| - 1];
    if x != "" { NumberIsPositive(x); }
    if y != "" { NumberIsPositive(y); }
    if x != "" { NumeralIsUnique(x, y, NumberOf(x)); }
  }

  lemma BaseIsUnique(whole: string, a: string, b: string)
    requires IsBase(whole, a) && IsBase(whole, b)
    ensures a == b
  {
    var n := if |whole| <= 100 then |whole| else 100;
    var c :| c <= whole && |c| == n && (if c != "" && c[|c| - 1] == '-' then c == a + "-" else c == a);
    var d :| d <= whole && |d| == n && (if d != "" && d[|d| - 1] == '-' then d == b + "-" else d == b);
    assert c == whole[..n] == d;
    if c != "" && c[|c| - 1] == '-' { assert a == c[..|c| - 1] && b == d[..|d| - 1]; }
  }

  lemma NumberedParts(base: string, k: nat, id: string) returns (head: string, digits: string)
    requires IsNumbered(base, k, id)
    ensures id == head + "-" + digits && IsNumeral(digits, k) && head <= base
    ensures |head| <= 99 - |digits| && (head == base || |head| == 99 - |digits|)
  {
    head, digits :| id == head + "-" + digits && IsNumeral(digits, k) && head <= base
                    && |head| + 1 + |digits| <= 100 && (head == base || |id| == 100);
    hide IsNumeral;
  }

  lemma NumberedIsUnique(base: string, k: nat, a: string, b: string)
    requires IsNumbered(base, k, a) && IsNumbered(base, k, b)
    ensures a == b
  {
    hide IsNumbered, IsNumeral;
    var head, digits := NumberedParts(base, k, a);
    var other, numeral := NumberedParts(base, k, b);
    NumeralIsUnique(digits, numeral, k);
    SameCut(base, head, other, 99 - |digits|);
  }

  lemma SameCut(base: string, a: string, b: string, n: nat)
    requires a <= base && b <= base && |a| <= n && |b| <= n && (a == base || |a| == n) && (b == base || |b| == n)
    ensures a == b
  {
    assert a == base[..|a|] && b == base[..|b|];
  }

  lemma LeastIsUnique(used: set<string>, base: string, a: string, b: string)
    requires IsLeastNumbered(used, base, a) && IsLeastNumbered(used, base, b) && a !in used && b !in used
    ensures a == b
  {
    var k: nat :| k >= 2 && IsNumbered(base, k, a) && forall j: nat, other :: 2 <= j < k && IsNumbered(base, j, other) ==> other in used;
    var m: nat :| m >= 2 && IsNumbered(base, m, b) && forall j: nat, other :: 2 <= j < m && IsNumbered(base, j, other) ==> other in used;
    hide IsNumbered;
    assert k == m;
    NumberedIsUnique(base, k, a, b);
  }

  // The text determines the identifier.
  lemma FreshIdIsUnique(used: set<string>, providerId: string, lowered: string, a: string, b: string)
    requires IsFreshId(used, providerId, lowered, a) && IsFreshId(used, providerId, lowered, b)
    ensures a == b
  {
    hide IsSlug, IsBase, IsLeastNumbered;
    var t, base :| IsSlug(lowered, t) && IsBase(providerId + "-" + t, base) && a !in used
                   && if base !in used then a == base else IsLeastNumbered(used, base, a);
    var u, other :| IsSlug(lowered, u) && IsBase(providerId + "-" + u, other) && b !in used
                    && if other !in used then b == other else IsLeastNumbered(used, other, b);
    SlugIsUnique(lowered, t, u);
    BaseIsUnique(providerId + "-" + t, base, other);
    if base in used { LeastIsUnique(used, base, a, b); }
  }
}
