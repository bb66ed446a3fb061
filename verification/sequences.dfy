/** Facts about sequences taken as multisets: how a Go map's iteration order is pinned down. */
module Sequences {

  /** No element occurs twice. */
  ghost predicate Distinct<T>(s: seq<T>)
  {
    forall i, j :: 0 <= i < j < |s| ==> s[i] != s[j]
  }

  /** f applied to every element, in order. */
  function Image<A, B>(s: seq<A>, f: A -> B): (r: seq<B>)
    ensures |r| == |s|
    ensures forall i :: 0 <= i < |s| ==> r[i] == f(s[i])
  {
    seq(|s|, i requires 0 <= i < |s| => f(s[i]))
  }

  /** In a sequence without repetitions every element occurs once. */
  lemma {:induction false} DistinctCount<T>(s: seq<T>, x: T)
    requires Distinct(s)
    ensures multiset(s)[x] == if x in s then 1 else 0
  {
    if s != [] {
      assert s == [s[0]] + s[1..];
      assert Distinct(s[1..]) by {
        forall i, j | 0 <= i < j < |s[1..]| ensures s[1..][i] != s[1..][j] {
          assert s[1..][i] == s[i + 1] && s[1..][j] == s[j + 1];
        }
      }
      DistinctCount(s[1..], x);
      assert s[0] !in s[1..] by {
        forall i | 0 <= i < |s[1..]| ensures s[1..][i] != s[0] {
          assert s[1..][i] == s[i + 1];
        }
      }
      assert multiset(s) == multiset{s[0]} + multiset(s[1..]);
    }
  }

  /** Two sequences without repetitions and with the same elements are permutations of each other. */
  lemma SameElements<T>(a: seq<T>, b: seq<T>)
    requires Distinct(a) && Distinct(b)
    requires forall x :: x in a <==> x in b
    ensures multiset(a) == multiset(b)
  {
    forall x ensures multiset(a)[x] == multiset(b)[x] {
      DistinctCount(a, x);
      DistinctCount(b, x);
    }
  }

  /** Taking one element out of a sequence takes it out of its multiset. */
  lemma RemoveAt<T>(b: seq<T>, i: nat)
    requires i < |b|
    ensures multiset(b) == multiset(b[..i] + b[i + 1..]) + multiset{b[i]}
  {
    assert b == b[..i] + [b[i]] + b[i + 1..];
  }

  /** The image of a concatenation is the concatenation of the images. */
  lemma ImageConcat<A, B>(u: seq<A>, v: seq<A>, f: A -> B)
    ensures Image(u + v, f) == Image(u, f) + Image(v, f)
  {
  }

  /** Removing one element before or after applying f comes to the same. */
  lemma ImageRemoveAt<A, B>(b: seq<A>, i: nat, f: A -> B)
    requires i < |b|
    ensures multiset(Image(b, f)) == multiset(Image(b[..i] + b[i + 1..], f)) + multiset{f(b[i])}
  {
    var fb := Image(b, f);
    assert fb[..i] + fb[i + 1..] == Image(b[..i] + b[i + 1..], f) by {
      ImageConcat(b[..i], b[i + 1..], f);
      assert fb[..i] == Image(b[..i], f);
      assert fb[i + 1..] == Image(b[i + 1..], f);
    }
    RemoveAt(fb, i);
  }

  /** The image of a non-empty sequence is its first image followed by the rest. */
  lemma ImageRemoveFirst<A, B>(a: seq<A>, f: A -> B)
    requires a != []
    ensures multiset(Image(a, f)) == multiset(Image(a[1..], f)) + multiset{f(a[0])}
  {
    assert Image(a, f) == [f(a[0])] + Image(a[1..], f);
  }

  /** Applying f to a permutation gives a permutation of the images. */
  lemma {:induction false} ImagePermutation<A, B>(a: seq<A>, b: seq<A>, f: A -> B)
    requires multiset(a) == multiset(b)
    ensures multiset(Image(a, f)) == multiset(Image(b, f))
    decreases |a|
  {
    if a == [] {
      assert |b| == |multiset(b)| == |multiset(a)| == 0;
    } else {
      var x := a[0];
      assert x in multiset(b) by { assert x in multiset(a); }
      var i :| 0 <= i < |b| && b[i] == x;
      var b' := b[..i] + b[i + 1..];
      RemoveAt(b, i);
      assert a == [x] + a[1..];
      assert multiset(a[1..]) == multiset(b') by {
        assert multiset(a[1..]) + multiset{x} == multiset(b') + multiset{x};
        assert multiset(a[1..]) == multiset(a[1..]) + multiset{x} - multiset{x};
        assert multiset(b') == multiset(b') + multiset{x} - multiset{x};
      }
      ImagePermutation(a[1..], b', f);
      ImageRemoveAt(b, i, f);
      ImageRemoveFirst(a, f);
      var ma, mb, mr := multiset(Image(a, f)), multiset(Image(b, f)), multiset(Image(b', f));
      assert ma == mr + multiset{f(x)};
      assert mb == mr + multiset{f(x)};
    }
  }
}
