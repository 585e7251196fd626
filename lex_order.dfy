/** Python's ordering of `str` values: lexicographic by code point, where a
    proper prefix comes first. (Dafny's own `<` on sequences is the prefix
    relation, so the order is defined here.) */
module LexOrder {

  /** `a` and `b` agree before index `k` and `a` has the smaller character there. */
  predicate SmallerAt(a: string, b: string, k: nat)
  {
    k < |a| && k < |b| && a[..k] == b[..k] && a[k] < b[k]
  }

  /** `a <= b` on Python strings: either `a` is a prefix of `b`, or the first
      character where they differ is smaller in `a`. */
  predicate LexLe(a: string, b: string)
    ensures LexLe(a, b) <==> (|a| <= |b| && a == b[..|a|]) || exists k: nat :: SmallerAt(a, b, k)
  {
    if a == [] then true
    else if b == [] then false
    else if a[0] != b[0] then
      SmallerAtFirstDifference(a, b);
      a[0] < b[0]
    else
      SmallerAtCommonHead(a, b);
      LexLe(a[1..], b[1..])
  }

  lemma SmallerAtFirstDifference(a: string, b: string)
    requires a != [] && b != [] && a[0] != b[0]
    ensures !(|a| <= |b| && a == b[..|a|])
    ensures (exists k: nat :: SmallerAt(a, b, k)) <==> a[0] < b[0]
  {
    if a[0] < b[0] {
      assert SmallerAt(a, b, 0);
    }
    forall k: nat | SmallerAt(a, b, k)
      ensures a[0] < b[0]
    {
      if k > 0 {
        assert a[..k][0] == b[..k][0];
      }
    }
  }

  lemma SmallerAtCommonHead(a: string, b: string)
    requires a != [] && b != [] && a[0] == b[0]
    ensures (|a| <= |b| && a == b[..|a|]) <==> (|a[1..]| <= |b[1..]| && a[1..] == b[1..][..|a[1..]|])
    ensures (exists k: nat :: SmallerAt(a, b, k)) <==> (exists k: nat :: SmallerAt(a[1..], b[1..], k))
  {
    if |a| <= |b| && a[1..] == b[1..][..|a| - 1] {
      assert a == [a[0]] + a[1..] && b[..|a|] == [b[0]] + b[1..][..|a| - 1];
    }
    forall k: nat | SmallerAt(a, b, k)
      ensures SmallerAt(a[1..], b[1..], k - 1)
    {
      assert k > 0;
      assert a[1..][..k - 1] == a[..k][1..];
      assert b[1..][..k - 1] == b[..k][1..];
    }
    forall k: nat | SmallerAt(a[1..], b[1..], k)
      ensures SmallerAt(a, b, k + 1)
    {
      assert a[..k + 1] == [a[0]] + a[1..][..k];
      assert b[..k + 1] == [b[0]] + b[1..][..k];
    }
  }

  lemma LexLeReflexive(a: string)
    ensures LexLe(a, a)
  {
  }

  /** Any two strings are comparable, so sorting by a string key is well defined. */
  lemma {:induction false} LexLeTotal(a: string, b: string)
    ensures LexLe(a, b) || LexLe(b, a)
  {
    if a != [] && b != [] && a[0] == b[0] {
      LexLeTotal(a[1..], b[1..]);
    }
  }

  lemma {:induction false} LexLeTransitive(a: string, b: string, c: string)
    requires LexLe(a, b) && LexLe(b, c)
    ensures LexLe(a, c)
  {
    if a != [] && b != [] && c != [] && a[0] == b[0] == c[0] {
      LexLeTransitive(a[1..], b[1..], c[1..]);
    }
  }

  lemma LexLeAntisymmetric(a: string, b: string)
    requires LexLe(a, b) && LexLe(b, a)
    ensures a == b
  {
  }

  /** The empty string is the least string, and the only one below it. */
  lemma EmptyIsLeast(a: string)
    ensures LexLe("", a)
    ensures LexLe(a, "") <==> a == ""
  {
  }
}
