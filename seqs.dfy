/** Sequence helpers shared by the conversions: `iter().map(f).collect()`,
    string concatenation and summation. */
module Seqs {

  /** `xs.into_iter().map(f).collect()`: the image of every element, in order. */
  function MapSeq<A, B>(f: A -> B, xs: seq<A>): (r: seq<B>)
    ensures |r| == |xs|
    ensures forall i :: 0 <= i < |xs| ==> r[i] == f(xs[i])
  {
    if xs == [] then [] else [f(xs[0])] + MapSeq(f, xs[1..])
  }

  lemma {:induction false} MapSeqAppend<A, B>(f: A -> B, xs: seq<A>, ys: seq<A>)
    ensures MapSeq(f, xs + ys) == MapSeq(f, xs) + MapSeq(f, ys)
  {
    // MapSeq's element-wise contract determines both sides
    assert |MapSeq(f, xs + ys)| == |MapSeq(f, xs) + MapSeq(f, ys)|;
    forall i | 0 <= i < |xs| + |ys|
      ensures MapSeq(f, xs + ys)[i] == (MapSeq(f, xs) + MapSeq(f, ys))[i]
    {
      if i < |xs| {
        assert (xs + ys)[i] == xs[i];
      } else {
        assert (xs + ys)[i] == ys[i - |xs|];
      }
    }
  }

  /** Concatenation regroups freely. */
  lemma AppendAssoc<T>(a: seq<T>, b: seq<T>, c: seq<T>)
    ensures (a + b) + c == a + (b + c)
  {
  }

  /** A sequence with one element in front splits back into it and the rest. */
  lemma ConsParts<T>(x: T, t: seq<T>)
    ensures ([x] + t)[0] == x && ([x] + t)[1..] == t
  {
  }

  /** A sequence of at most one element is that element. */
  lemma SingletonOf<T>(s: seq<T>, i: nat)
    requires |s| <= 1 && i < |s|
    ensures s == [s[i]]
  {
  }

  /** The sum of a sequence of naturals. */
  function Sum(xs: seq<nat>): nat
  {
    if xs == [] then 0 else xs[0] + Sum(xs[1..])
  }

  lemma {:induction false} SumAppend(xs: seq<nat>, ys: seq<nat>)
    ensures Sum(xs + ys) == Sum(xs) + Sum(ys)
  {
    if xs == [] {
      assert xs + ys == ys;
    } else {
      assert (xs + ys)[1..] == xs[1..] + ys;
      SumAppend(xs[1..], ys);
    }
  }

  /** True when `p` occurs in `s` starting at index `k`. */
  predicate OccursAt(p: string, s: string, k: nat)
  {
    k + |p| <= |s| && s[k..k + |p|] == p
  }

  /** True when `p` is a substring of `s`. */
  ghost predicate Contains(s: string, p: string)
  {
    exists k: nat :: OccursAt(p, s, k)
  }

  lemma ContainsInMiddle(a: string, p: string, b: string)
    ensures Contains(a + p + b, p)
  {
    assert (a + p + b)[|a|..|a| + |p|] == p;
    assert OccursAt(p, a + p + b, |a|);
  }

  lemma ContainsExtend(s: string, p: string, a: string, b: string)
    requires Contains(s, p)
    ensures Contains(a + s + b, p)
  {
    var k: nat :| OccursAt(p, s, k);
    assert (a + s + b)[|a| + k..|a| + k + |p|] == s[k..k + |p|];
    assert OccursAt(p, a + s + b, |a| + k);
  }
}
