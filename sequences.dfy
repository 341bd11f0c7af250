/** Facts about sequences used by the column-name filter: duplicate-freedom and
    the order-preserving subsequence relation. */
module Sequences {

  /** No element occurs twice in `s`. */
  predicate Distinct<T(==)>(s: seq<T>) {
    forall i, j | 0 <= i < j < |s| :: s[i] != s[j]
  }

  /** `a` is obtained from `s` by deleting elements, keeping the order of the rest. */
  ghost predicate IsSubsequence<T>(a: seq<T>, s: seq<T>)
    decreases |s|
  {
    if a == [] then true
    else if s == [] then false
    else (a[0] == s[0] && IsSubsequence(a[1..], s[1..])) || IsSubsequence(a, s[1..])
  }

  /** Every element of a subsequence is an element of the sequence. */
  lemma {:induction false} SubsequenceMembers<T>(a: seq<T>, s: seq<T>)
    requires IsSubsequence(a, s)
    ensures forall x :: x in a ==> x in s
  {
    if a != [] && s != [] {
      if a[0] == s[0] && IsSubsequence(a[1..], s[1..]) {
        SubsequenceMembers(a[1..], s[1..]);
        forall x | x in a ensures x in s {
          if x != a[0] { assert x in a[1..]; }
        }
      } else {
        SubsequenceMembers(a, s[1..]);
      }
    }
  }

  /** A subsequence of a duplicate-free sequence is duplicate-free. */
  lemma {:induction false} SubsequenceDistinct<T>(a: seq<T>, s: seq<T>)
    requires IsSubsequence(a, s) && Distinct(s)
    ensures Distinct(a)
  {
    if a != [] && s != [] {
      assert Distinct(s[1..]) by {
        forall i, j | 0 <= i < j < |s[1..]| ensures s[1..][i] != s[1..][j] {
          assert s[1..][i] == s[i + 1] && s[1..][j] == s[j + 1];
        }
      }
      if a[0] == s[0] && IsSubsequence(a[1..], s[1..]) {
        SubsequenceDistinct(a[1..], s[1..]);
        SubsequenceMembers(a[1..], s[1..]);
        forall j | 0 < j < |a| ensures a[0] != a[j] {
          assert a[j] == a[1..][j - 1];
          assert a[j] in s[1..];
          var k :| 0 <= k < |s[1..]| && s[1..][k] == a[j];
          assert s[k + 1] == a[j];
        }
      } else {
        SubsequenceDistinct(a, s[1..]);
      }
    }
  }

  /** Within a duplicate-free sequence, a subsequence is determined by its set of
      elements: two subsequences holding the same elements are equal. */
  lemma {:induction false} SubsequenceUnique<T>(a: seq<T>, b: seq<T>, s: seq<T>)
    requires Distinct(s) && IsSubsequence(a, s) && IsSubsequence(b, s)
    requires forall x :: x in a <==> x in b
    ensures a == b
  {
    if s == [] {
      assert a == [] && b == [];
    } else {
      var rest := s[1..];
      assert Distinct(rest) by {
        forall i, j | 0 <= i < j < |rest| ensures rest[i] != rest[j] {
          assert rest[i] == s[i + 1] && rest[j] == s[j + 1];
        }
      }
      assert s[0] !in rest by {
        forall k | 0 <= k < |rest| ensures rest[k] != s[0] { assert rest[k] == s[k + 1]; }
      }
      if s[0] in a {
        HeadTaken(a, s, rest);
        HeadTaken(b, s, rest);
        SubsequenceMembers(a[1..], rest);
        SubsequenceMembers(b[1..], rest);
        forall x ensures x in a[1..] <==> x in b[1..] {
          if x in a[1..] {
            assert x in a && x != s[0];
            assert x in b;
            assert x == b[0] || x in b[1..];
          }
          if x in b[1..] {
            assert x in b && x != s[0];
            assert x in a;
            assert x == a[0] || x in a[1..];
          }
        }
        SubsequenceUnique(a[1..], b[1..], rest);
        assert a == [a[0]] + a[1..] && b == [b[0]] + b[1..];
      } else {
        HeadSkipped(a, s, rest);
        HeadSkipped(b, s, rest);
        SubsequenceUnique(a, b, rest);
      }
    }
  }

  /** If the head of a duplicate-free `s` occurs in its subsequence `a`, it is `a`'s head. */
  lemma HeadTaken<T>(a: seq<T>, s: seq<T>, rest: seq<T>)
    requires s != [] && rest == s[1..] && s[0] !in rest
    requires IsSubsequence(a, s) && s[0] in a
    ensures a != [] && a[0] == s[0] && IsSubsequence(a[1..], rest)
  {
    if !(a[0] == s[0] && IsSubsequence(a[1..], rest)) {
      SubsequenceMembers(a, rest);
    }
  }

  /** If the head of `s` does not occur in its subsequence `a`, it was deleted. */
  lemma HeadSkipped<T>(a: seq<T>, s: seq<T>, rest: seq<T>)
    requires s != [] && rest == s[1..]
    requires IsSubsequence(a, s) && s[0] !in a
    ensures IsSubsequence(a, rest)
  {
  }
}
