/** Generic facts about sequences used by the probe modules: first-match
    linear search, order-preserving subsequences and repetition. */
module Seqs {
  import opened Results

  /** Index of the first element of `xs` at or after `from` satisfying `p`. */
  function FindFrom<T>(xs: seq<T>, p: T -> bool, from: nat): (r: Option<nat>)
    requires from <= |xs|
    ensures r.Some? ==> from <= r.value < |xs| && p(xs[r.value])
    ensures r.Some? ==> forall i :: from <= i < r.value ==> !p(xs[i])
    ensures r.None? <==> forall i :: from <= i < |xs| ==> !p(xs[i])
    decreases |xs| - from
  {
    if from == |xs| then None
    else if p(xs[from]) then Some(from)
    else FindFrom(xs, p, from + 1)
  }

  /** Index of the first element of `xs` satisfying `p`, if any. */
  function FindFirst<T>(xs: seq<T>, p: T -> bool): (r: Option<nat>)
    ensures r.Some? ==> r.value < |xs| && p(xs[r.value])
    ensures r.Some? ==> forall i :: 0 <= i < r.value ==> !p(xs[i])
    ensures r.None? <==> forall i :: 0 <= i < |xs| ==> !p(xs[i])
  {
    FindFrom(xs, p, 0)
  }

  /** A match in the front part hides everything appended after it. */
  lemma FindFirstAppend<T>(a: seq<T>, b: seq<T>, p: T -> bool)
    ensures FindFirst(a, p).Some? ==> FindFirst(a + b, p) == FindFirst(a, p)
    ensures FindFirst(a, p).None? && FindFirst(b, p).Some? ==>
              FindFirst(a + b, p) == Some(|a| + FindFirst(b, p).value)
    ensures FindFirst(a, p).None? && FindFirst(b, p).None? ==> FindFirst(a + b, p).None?
  {
    var ab := a + b;
    if FindFirst(a, p).Some? {
      var k := FindFirst(a, p).value;
      assert ab[k] == a[k];
      FindFirstUnique(ab, p, k);
    } else if FindFirst(b, p).Some? {
      var k := FindFirst(b, p).value;
      assert ab[|a| + k] == b[k];
      forall i | 0 <= i < |a| + k ensures !p(ab[i]) {
        if i < |a| { assert ab[i] == a[i]; } else { assert ab[i] == b[i - |a|]; }
      }
      FindFirstUnique(ab, p, |a| + k);
    } else {
      forall i | 0 <= i < |ab| ensures !p(ab[i]) {
        if i < |a| { assert ab[i] == a[i]; } else { assert ab[i] == b[i - |a|]; }
      }
    }
  }

  /** A match in a middle part, with none before it, is the first match. */
  lemma FindFirstMiddle<T>(a: seq<T>, e: seq<T>, c: seq<T>, p: T -> bool)
    requires FindFirst(a, p).None? && FindFirst(e, p).Some?
    ensures FindFirst(a + e + c, p) == Some(|a| + FindFirst(e, p).value)
    ensures (a + e + c)[|a| + FindFirst(e, p).value] == e[FindFirst(e, p).value]
  {
    FindFirstAppend(a, e, p);
    FindFirstAppend(a + e, c, p);
  }

  /** The first match is determined by the elements alone. */
  lemma FindFirstUnique<T>(xs: seq<T>, p: T -> bool, k: nat)
    requires k < |xs| && p(xs[k])
    requires forall i :: 0 <= i < k ==> !p(xs[i])
    ensures FindFirst(xs, p) == Some(k)
  {
  }

  /** `n` copies of `xs`, one after another. */
  function Repeat<T>(xs: seq<T>, n: nat): (r: seq<T>)
    ensures |r| == n * |xs|
  {
    if n == 0 then [] else Repeat(xs, n - 1) + xs
  }

  /** Searching several copies finds what one copy finds. */
  lemma {:induction false} FindFirstRepeat<T>(xs: seq<T>, n: nat, p: T -> bool)
    requires n >= 1
    ensures FindFirst(Repeat(xs, n), p) == FindFirst(xs, p)
    decreases n
  {
    if n == 1 {
      assert Repeat(xs, 1) == Repeat(xs, 0) + xs == xs;
    } else {
      FindFirstRepeat(xs, n - 1, p);
      FindFirstAppend(Repeat(xs, n - 1), xs, p);
      if FindFirst(xs, p).None? {
        assert FindFirst(Repeat(xs, n), p).None?;
      }
    }
  }

  /** At least one copy: the repetition begins with `xs`. */
  lemma {:induction false} RepeatPrefix<T>(xs: seq<T>, n: nat)
    requires n >= 1
    ensures forall k :: 0 <= k < |xs| ==> Repeat(xs, n)[k] == xs[k]
    decreases n
  {
    if n > 1 {
      RepeatPrefix(xs, n - 1);
      var a := Repeat(xs, n - 1);
      assert forall k :: 0 <= k < |a| ==> (a + xs)[k] == a[k];
    } else {
      assert Repeat(xs, 1) == Repeat(xs, 0) + xs;
    }
  }

  /** Every element of `Repeat(xs, n)` is an element of `xs`. */
  lemma {:induction false} RepeatElements<T>(xs: seq<T>, n: nat)
    ensures forall k :: 0 <= k < |Repeat(xs, n)| ==> Repeat(xs, n)[k] in xs
    decreases n
  {
    if n > 0 {
      RepeatElements(xs, n - 1);
      var a := Repeat(xs, n - 1);
      forall k | 0 <= k < |Repeat(xs, n)| ensures Repeat(xs, n)[k] in xs {
        if k < |a| { assert Repeat(xs, n)[k] == a[k]; }
        else { assert Repeat(xs, n)[k] == xs[k - |a|]; }
      }
    }
  }

  /** `a` is `b` with zero or more elements deleted, order kept. */
  predicate IsSubsequence<T(==)>(a: seq<T>, b: seq<T>)
    decreases |b|
  {
    if a == [] then true
    else if b == [] then false
    else (a[0] == b[0] && IsSubsequence(a[1..], b[1..])) || IsSubsequence(a, b[1..])
  }

  /** Applying a function element-wise keeps a subsequence a subsequence. */
  lemma {:induction false} SubsequenceMap<T, U>(a: seq<T>, b: seq<T>, f: T -> U)
    requires IsSubsequence(a, b)
    ensures IsSubsequence(MapSeq(a, f), MapSeq(b, f))
    decreases |b|
  {
    if a != [] {
      assert b != [];
      assert MapSeq(b, f)[1..] == MapSeq(b[1..], f);
      if a[0] == b[0] && IsSubsequence(a[1..], b[1..]) {
        SubsequenceMap(a[1..], b[1..], f);
        assert MapSeq(a, f)[1..] == MapSeq(a[1..], f);
      } else {
        SubsequenceMap(a, b[1..], f);
      }
    }
  }

  /** Putting the same element in front of both keeps a subsequence. */
  lemma SubsequenceCons<T>(x: T, a: seq<T>, b: seq<T>)
    requires IsSubsequence(a, b)
    ensures IsSubsequence([x] + a, [x] + b)
  {
    assert ([x] + a)[1..] == a;
    assert ([x] + b)[1..] == b;
  }

  function MapSeq<T, U>(xs: seq<T>, f: T -> U): (r: seq<U>)
    ensures |r| == |xs|
    ensures forall i :: 0 <= i < |xs| ==> r[i] == f(xs[i])
  {
    seq(|xs|, i requires 0 <= i < |xs| => f(xs[i]))
  }
}
