/**
 * Facts about sequences that the dashboard relies on: the order Python's
 * `sorted` uses on strings, sorting without duplicates (`sorted(x.unique())`),
 * order-preserving subsequences, and keeping the members of one list that
 * occur in another.
 */
module Seqs {

  /** Python's `<` on two `str` values: lexicographic order of code points. */
  predicate Less(a: string, b: string)
    decreases |a|
  {
    if |a| == 0 then |b| > 0
    else if |b| == 0 then false
    else if a[0] == b[0] then Less(a[1..], b[1..])
    else a[0] < b[0]
  }

  lemma {:induction false} LessIrreflexive(a: string)
    ensures !Less(a, a)
    decreases |a|
  {
    if |a| > 0 {
      LessIrreflexive(a[1..]);
    }
  }

  lemma {:induction false} LessTransitive(a: string, b: string, c: string)
    requires Less(a, b) && Less(b, c)
    ensures Less(a, c)
    decreases |a|
  {
    if |a| > 0 && a[0] == b[0] && b[0] == c[0] {
      LessTransitive(a[1..], b[1..], c[1..]);
    }
  }

  /** Two different strings are always ordered one way or the other. */
  lemma {:induction false} LessTotal(a: string, b: string)
    ensures a == b || Less(a, b) || Less(b, a)
    decreases |a|
  {
    if |a| > 0 && |b| > 0 && a[0] == b[0] {
      assert a == [a[0]] + a[1..] && b == [b[0]] + b[1..];
      LessTotal(a[1..], b[1..]);
    }
  }

  lemma LessAsymmetric(a: string, b: string)
    requires Less(a, b)
    ensures !Less(b, a)
  {
  }

  /** Ascending with no value twice. */
  predicate StrictlySorted(s: seq<string>)
  {
    forall i, j :: 0 <= i < j < |s| ==> Less(s[i], s[j])
  }

  predicate Distinct<T(==)>(s: seq<T>)
  {
    forall i, j :: 0 <= i < j < |s| ==> s[i] != s[j]
  }

  lemma SortedIsDistinct(s: seq<string>)
    requires StrictlySorted(s)
    ensures Distinct(s)
  {
    forall i, j | 0 <= i < j < |s|
      ensures s[i] != s[j]
    {
      LessIrreflexive(s[i]);
    }
  }

  lemma LessThanSorted(x: string, s: seq<string>)
    requires StrictlySorted(s) && |s| > 0 && Less(x, s[0])
    ensures forall k :: 0 <= k < |s| ==> Less(x, s[k])
  {
    forall k | 0 < k < |s|
      ensures Less(x, s[k])
    {
      LessTransitive(x, s[0], s[k]);
    }
  }

  /** Puts `x` into its place in a strictly sorted list, unless it is already there. */
  function Insert(s: seq<string>, x: string): (r: seq<string>)
    requires StrictlySorted(s)
    ensures StrictlySorted(r)
    ensures forall y :: y in r <==> y in s || y == x
    decreases |s|
  {
    if s == [] then [x]
    else if x == s[0] then s
    else if Less(x, s[0]) then
      LessThanSorted(x, s);
      [x] + s
    else
      LessTotal(x, s[0]);
      assert forall y :: y in s[1..] ==> Less(s[0], y);
      [s[0]] + Insert(s[1..], x)
  }

  /** `sorted(set(xs))`: the distinct values of `xs` in ascending order. */
  function SortDistinct(xs: seq<string>): (r: seq<string>)
    ensures StrictlySorted(r)
    ensures forall y :: y in r <==> y in xs
  {
    if xs == [] then [] else Insert(SortDistinct(xs[1..]), xs[0])
  }

  /** A strictly sorted list is fixed by the values it holds. */
  lemma {:induction false} SortedDetermined(a: seq<string>, b: seq<string>)
    requires StrictlySorted(a) && StrictlySorted(b)
    requires forall y :: y in a <==> y in b
    ensures a == b
    decreases |a|
  {
    if a != [] {
      assert b != [] by { assert a[0] in b; }
      HeadIsLeast(b, a[0]);
      HeadIsLeast(a, b[0]);
      LessTotal(a[0], b[0]);
      SortedIsDistinct(a);
      SortedIsDistinct(b);
      forall y
        ensures y in a[1..] <==> y in b[1..]
      {
        if y in a[1..] {
          var k :| 1 <= k < |a| && a[k] == y;
          assert y in b;
          var m :| 0 <= m < |b| && b[m] == y;
          assert m != 0;
        }
        if y in b[1..] {
          var k :| 1 <= k < |b| && b[k] == y;
          assert y in a;
          var m :| 0 <= m < |a| && a[m] == y;
          assert m != 0;
        }
      }
      SortedDetermined(a[1..], b[1..]);
    } else {
      NoMembersEmpty(b);
    }
  }

  lemma NoMembersEmpty<T>(s: seq<T>)
    ensures (forall y :: y !in s) ==> s == []
  {
    if s != [] {
      assert s[0] in s;
    }
  }

  /** No member of a strictly sorted list lies below its head. */
  lemma HeadIsLeast(s: seq<string>, y: string)
    requires StrictlySorted(s) && y in s
    ensures !Less(y, s[0])
  {
    var k :| 0 <= k < |s| && s[k] == y;
    if k == 0 {
      LessIrreflexive(y);
    } else {
      LessAsymmetric(s[0], y);
    }
  }

  /** `a` can be obtained from `b` by deleting elements, without reordering. */
  predicate Subsequence<T(==)>(a: seq<T>, b: seq<T>)
    decreases |b|
  {
    if a == [] then true
    else if b == [] then false
    else if a[0] == b[0] then Subsequence(a[1..], b[1..])
    else Subsequence(a, b[1..])
  }

  /** `[w for w in wanted if w in have]`. */
  function Intersect(wanted: seq<string>, have: seq<string>): (r: seq<string>)
    ensures forall w :: w in r <==> w in wanted && w in have
    ensures |r| <= |wanted|
  {
    if wanted == [] then []
    else (if wanted[0] in have then [wanted[0]] else []) + Intersect(wanted[1..], have)
  }

  lemma {:induction false} IntersectDistinct(wanted: seq<string>, have: seq<string>)
    requires Distinct(wanted)
    ensures Distinct(Intersect(wanted, have))
  {
    if wanted != [] {
      var rest := wanted[1..];
      assert Distinct(rest) by {
        forall i, j | 0 <= i < j < |rest| ensures rest[i] != rest[j] {
          assert rest[i] == wanted[i + 1] && rest[j] == wanted[j + 1];
        }
      }
      assert wanted[0] !in rest by {
        forall m | 0 <= m < |rest| ensures rest[m] != wanted[0] {
          assert rest[m] == wanted[m + 1];
        }
      }
      IntersectDistinct(rest, have);
    }
  }

  /** Only membership in `have` matters. */
  lemma {:induction false} IntersectSameMembers(wanted: seq<string>, h1: seq<string>, h2: seq<string>)
    requires forall w :: w in wanted ==> (w in h1 <==> w in h2)
    ensures Intersect(wanted, h1) == Intersect(wanted, h2)
  {
    if wanted != [] {
      assert wanted[0] in wanted;
      assert forall w :: w in wanted[1..] ==> w in wanted;
      IntersectSameMembers(wanted[1..], h1, h2);
    }
  }

  lemma {:induction false} IntersectIsSubsequence(wanted: seq<string>, have: seq<string>)
    ensures Subsequence(Intersect(wanted, have), wanted)
  {
    if wanted != [] {
      IntersectIsSubsequence(wanted[1..], have);
      var r := Intersect(wanted, have);
      if wanted[0] in have {
        assert r[0] == wanted[0] && r[1..] == Intersect(wanted[1..], have);
      } else {
        assert r == Intersect(wanted[1..], have);
        SubsequenceOfTail(r, wanted);
      }
    }
  }

  /** A subsequence of the tail is a subsequence of the whole. */
  lemma {:induction false} SubsequenceOfTail<T>(a: seq<T>, b: seq<T>)
    requires |b| > 0 && Subsequence(a, b[1..])
    ensures Subsequence(a, b)
    decreases |b|, 0
  {
    if a != [] && a[0] == b[0] {
      DropFirst(a, b[1..]);
    }
  }

  lemma {:induction false} DropFirst<T>(a: seq<T>, b: seq<T>)
    requires |a| > 0 && Subsequence(a, b)
    ensures Subsequence(a[1..], b)
    decreases |b|, 1
  {
    if a[0] == b[0] {
      SubsequenceOfTail(a[1..], b);
    } else {
      DropFirst(a, b[1..]);
      SubsequenceOfTail(a[1..], b);
    }
  }
}
