// Code-point order of strings and sorting by a string key.
module Ordering {

  predicate LessEq(s: string, t: string) {
    s == "" || (t != "" && (s[0] < t[0] || (s[0] == t[0] && LessEq(s[1..], t[1..]))))
  }

  lemma {:induction false} Total(s: string, t: string)
    ensures LessEq(s, t) || LessEq(t, s)
  {
    if s != "" && t != "" && s[0] == t[0] { Total(s[1..], t[1..]); }
  }

  lemma {:induction false} Antisymmetric(s: string, t: string)
    requires LessEq(s, t) && LessEq(t, s)
    ensures s == t
  {
    if s != "" {
      Antisymmetric(s[1..], t[1..]);
      assert s == [s[0]] + s[1..] && t == [t[0]] + t[1..];
    }
  }

  lemma {:induction false} Transitive(s: string, t: string, u: string)
    requires LessEq(s, t) && LessEq(t, u)
    ensures LessEq(s, u)
  {
    if s != "" && s[0] == t[0] && t[0] == u[0] { Transitive(s[1..], t[1..], u[1..]); }
  }

  ghost predicate SameUpTo(s: string, t: string, k: nat)
    requires k <= |s| && k <= |t|
  {
    forall i :: 0 <= i < k ==> s[i] == t[i]
  }

  // s is a proper prefix of t, or has the smaller character at the first difference.
  ghost predicate Precedes(s: string, t: string) {
    exists k :: 0 <= k <= |s| && k < |t| && SameUpTo(s, t, k) && (k == |s| || s[k] < t[k])
  }

  lemma PrecedesFromFirst(s: string, t: string)
    requires s != "" && t != "" && s[0] == t[0]
    ensures Precedes(s, t) <==> Precedes(s[1..], t[1..])
  {
    var a, b := s[1..], t[1..];
    if Precedes(s, t) {
      var k :| 0 <= k <= |s| && k < |t| && SameUpTo(s, t, k) && (k == |s| || s[k] < t[k]);
      assert k > 0 && SameUpTo(a, b, k - 1);
    }
    if Precedes(a, b) {
      var k :| 0 <= k <= |a| && k < |b| && SameUpTo(a, b, k) && (k == |a| || a[k] < b[k]);
      assert forall i :: 0 < i < k + 1 ==> s[i] == a[i - 1] && t[i] == b[i - 1];
      assert SameUpTo(s, t, k + 1);
    }
  }

  // The order is the lexicographic one.
  lemma {:induction false} LessEqIff(s: string, t: string)
    ensures LessEq(s, t) <==> s == t || Precedes(s, t)
  {
    if s != "" && t != "" && s[0] == t[0] {
      LessEqIff(s[1..], t[1..]);
      PrecedesFromFirst(s, t);
      assert s == [s[0]] + s[1..] && t == [t[0]] + t[1..];
    } else if t != "" {
      assert SameUpTo(s, t, 0);
    }
  }
}
