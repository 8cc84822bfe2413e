/** Generic list building blocks: concatenating the blocks produced for each element in turn. */
module Seqs {

  /** `f(xs[0]) + f(xs[1]) + ...`, built element by element as an appending loop does. */
  function FlatMap<A, B>(xs: seq<A>, f: A -> seq<B>): seq<B> {
    if xs == [] then [] else FlatMap(xs[..|xs| - 1], f) + f(xs[|xs| - 1])
  }

  /** The blocks of consecutive inputs follow one another. */
  lemma {:induction false} FlatMapAppend<A, B>(a: seq<A>, b: seq<A>, f: A -> seq<B>)
    ensures FlatMap(a + b, f) == FlatMap(a, f) + FlatMap(b, f)
  {
    if b == [] {
      assert a + b == a;
    } else {
      var ab := a + b;
      assert ab[..|ab| - 1] == a + b[..|b| - 1];
      assert ab[|ab| - 1] == b[|b| - 1];
      FlatMapAppend(a, b[..|b| - 1], f);
    }
  }

  /** The concatenation read from the front: the first block, then the rest. */
  lemma FlatMapCons<A, B>(xs: seq<A>, f: A -> seq<B>)
    requires xs != []
    ensures FlatMap(xs, f) == f(xs[0]) + FlatMap(xs[1..], f)
  {
    assert xs == [xs[0]] + xs[1..];
    FlatMapAppend([xs[0]], xs[1..], f);
    assert [xs[0]][..0] == [];
  }

  /** Every element of the result comes from the block of some input. */
  lemma {:induction false} FlatMapElements<A, B>(xs: seq<A>, f: A -> seq<B>, P: B -> bool)
    requires forall i, j :: 0 <= i < |xs| && 0 <= j < |f(xs[i])| ==> P(f(xs[i])[j])
    ensures forall k :: 0 <= k < |FlatMap(xs, f)| ==> P(FlatMap(xs, f)[k])
  {
    if xs != [] {
      var init, last := xs[..|xs| - 1], xs[|xs| - 1];
      assert forall i :: 0 <= i < |init| ==> init[i] == xs[i];
      FlatMapElements(init, f, P);
      var r := FlatMap(xs, f);
      forall k | 0 <= k < |r| ensures P(r[k]) {
        if k >= |FlatMap(init, f)| {
          assert r[k] == f(last)[k - |FlatMap(init, f)|];
        } else {
          assert r[k] == FlatMap(init, f)[k];
        }
      }
    }
  }

  /** The concatenation is empty exactly when every block is. */
  lemma {:induction false} FlatMapEmpty<A, B>(xs: seq<A>, f: A -> seq<B>)
    ensures FlatMap(xs, f) == [] <==> forall i :: 0 <= i < |xs| ==> f(xs[i]) == []
  {
    if xs != [] {
      var init := xs[..|xs| - 1];
      FlatMapEmpty(init, f);
      assert forall i :: 0 <= i < |init| ==> init[i] == xs[i];
      assert |FlatMap(xs, f)| == |FlatMap(init, f)| + |f(xs[|xs| - 1])|;
    }
  }

  /** One more step of an appending loop over `xs`. */
  lemma FlatMapStep<A, B>(xs: seq<A>, i: nat, f: A -> seq<B>)
    requires i < |xs|
    ensures FlatMap(xs[..i + 1], f) == FlatMap(xs[..i], f) + f(xs[i])
  {
    assert xs[..i + 1][..i] == xs[..i];
  }

  /** An appending loop that has visited all of `xs`. */
  lemma FlatMapDone<A, B>(xs: seq<A>, f: A -> seq<B>)
    ensures FlatMap(xs[..|xs|], f) == FlatMap(xs, f)
  {
    assert xs[..|xs|] == xs;
  }

  /** One more element of a prefix. */
  lemma TakeStep<T>(s: seq<T>, j: nat)
    requires j < |s|
    ensures s[..j + 1] == s[..j] + [s[j]]
  {
  }

  /** The prefix of full length. */
  lemma TakeAll<T>(s: seq<T>)
    ensures s[..|s|] == s
  {
  }

  /** Whatever a block holds, the concatenation holds. */
  lemma {:induction false} FlatMapMember<A, B>(xs: seq<A>, f: A -> seq<B>, i: nat, b: B)
    requires i < |xs| && b in f(xs[i])
    ensures b in FlatMap(xs, f)
  {
    if i < |xs| - 1 {
      FlatMapMember(xs[..|xs| - 1], f, i, b);
    }
  }

  /** Where `x` first occurs in `s`. */
  function FirstIndex<T(==)>(s: seq<T>, x: T): (i: nat)
    requires x in s
    ensures i < |s| && s[i] == x && x !in s[..i]
  {
    if s[0] == x then 0 else 1 + FirstIndex(s[1..], x)
  }

  /** Appending elements does not move a first occurrence. */
  lemma {:induction false} FirstIndexAppend<T>(a: seq<T>, b: seq<T>, x: T)
    requires x in a
    ensures FirstIndex(a + b, x) == FirstIndex(a, x)
  {
    if a[0] != x {
      assert (a + b)[1..] == a[1..] + b;
      FirstIndexAppend(a[1..], b, x);
    }
  }

  /** An element appended to a sequence that lacks it first occurs at the end. */
  lemma FirstIndexOfNew<T>(a: seq<T>, x: T)
    requires x !in a
    ensures FirstIndex(a + [x], x) == |a|
  {
  }
}
