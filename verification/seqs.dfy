/** Sequence helpers shared by the vendor models: concatenation of a list of lists, the
    distinct elements of a list in first-occurrence order, and monotonicity of products. */
module Seqs {

  /** The lists concatenated in order. */
  function Flatten<T>(xss: seq<seq<T>>): seq<T>
    decreases |xss|
  {
    if |xss| == 0 then [] else xss[0] + Flatten(xss[1..])
  }

  /** An element of the concatenation is an element of one of the lists, and conversely. */
  lemma {:induction false} FlattenMembership<T>(xss: seq<seq<T>>, x: T)
    ensures x in Flatten(xss) <==> exists i :: 0 <= i < |xss| && x in xss[i]
    decreases |xss|
  {
    if |xss| > 0 {
      FlattenMembership(xss[1..], x);
      if exists i :: 0 <= i < |xss| && x in xss[i] {
        var i :| 0 <= i < |xss| && x in xss[i];
        if i > 0 {
          assert xss[1..][i - 1] == xss[i];
        }
      }
      if exists i :: 0 <= i < |xss[1..]| && x in xss[1..][i] {
        var i :| 0 <= i < |xss[1..]| && x in xss[1..][i];
        assert xss[1..][i] == xss[i + 1];
      }
    }
  }

  /** Concatenating two batches of lists is concatenating their concatenations. */
  lemma {:induction false} FlattenAppend<T>(a: seq<seq<T>>, b: seq<seq<T>>)
    ensures Flatten(a + b) == Flatten(a) + Flatten(b)
    decreases |a|
  {
    if |a| == 0 {
      assert a + b == b;
    } else {
      assert (a + b)[1..] == a[1..] + b;
      FlattenAppend(a[1..], b);
    }
  }

  /** The elements of `xs`, each once, in order of first occurrence. */
  function Distinct<T(==,!new)>(xs: seq<T>): (ys: seq<T>)
    ensures forall x :: x in ys <==> x in xs
    ensures forall i, j :: 0 <= i < j < |ys| ==> ys[i] != ys[j]
    decreases |xs|
  {
    if |xs| == 0 then []
    else
      var init := Distinct(xs[..|xs| - 1]);
      var last := xs[|xs| - 1];
      assert xs == xs[..|xs| - 1] + [last];
      if last in init then init else init + [last]
  }

  /** Products grow with their left factor. */
  lemma {:induction false} MulMono(a: nat, b: nat, c: nat)
    requires a <= b
    ensures a * c <= b * c
    decreases b - a
  {
    if a < b {
      MulMono(a, b - 1, c);
      assert (b - 1) * c + c == b * c;
    }
  }
}
