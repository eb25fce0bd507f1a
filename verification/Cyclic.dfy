/** Index arithmetic of the driver's circular lists. */
module Cyclic {

  /** The successor of an index in a ring of `n` entries, as every ring loop of the driver computes it. */
  function Next(i: nat, n: nat): (r: nat)
    requires i < n
    ensures r < n
  {
    if i + 1 == n then 0 else i + 1
  }

  /** The index `k` places after `base`. A full turn (`k == n`) comes back to `base`. */
  function At(base: nat, k: nat, n: nat): (r: nat)
    requires base < n && k <= n
    ensures r < n
  {
    if base + k < n then base + k else base + k - n
  }

  /** How many places `i` lies after `base`; the inverse of `At` on `0..n`. */
  function Offset(base: nat, i: nat, n: nat): (k: nat)
    requires base < n && i < n
    ensures k < n && At(base, k, n) == i
  {
    if base <= i then i - base else i + n - base
  }

  lemma OffsetAt(base: nat, k: nat, n: nat)
    requires base < n && k < n
    ensures Offset(base, At(base, k, n), n) == k
    ensures Next(At(base, k, n), n) == At(base, k + 1, n)
  {
  }

  /** A ring read from position `c`. */
  function Rotate<T>(s: seq<T>, c: nat): (r: seq<T>)
    requires c <= |s|
    ensures |r| == |s|
  {
    s[c..] + s[..c]
  }

  lemma RotateAt<T>(s: seq<T>, c: nat, k: nat)
    requires c < |s| && k < |s|
    ensures Rotate(s, c)[k] == s[At(c, k, |s|)]
  {
  }

  /** Reading a rotated ring from offset `k` is reading the ring from `k` places further on. */
  lemma RotateTwice<T>(s: seq<T>, c: nat, k: nat)
    requires c < |s| && k <= |s|
    ensures Rotate(s, At(c, k, |s|)) == Rotate(Rotate(s, c), k)
  {
    var n := |s|;
    forall j | 0 <= j < n
      ensures Rotate(s, At(c, k, n))[j] == Rotate(Rotate(s, c), k)[j]
    {
      if k < n {
        assert Rotate(Rotate(s, c), k)[j] == Rotate(s, c)[At(k, j, n)];
      } else {
        assert Rotate(Rotate(s, c), k) == Rotate(s, c);
      }
    }
  }

  /** Turning a rotated ring back gives the list in index order. */
  lemma RotateHome<T>(s: seq<T>, c: nat)
    requires c < |s|
    ensures Rotate(Rotate(s, c), |s| - c) == s
  {
    RotateTwice(s, c, |s| - c);
    assert Rotate(s, 0) == s;
  }
}
