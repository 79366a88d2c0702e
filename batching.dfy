/**
 * The chunking helper `utils.batched` that `pay_invoices` relies on. Its source is not part
 * of this model; it is taken to behave like Python's `itertools.batched`: consecutive chunks
 * of exactly `k` elements, except a shorter last chunk, covering the input in order.
 */
module Batching {
  import opened Common

  function Batched<T>(s: seq<T>, k: nat): (r: seq<seq<T>>)
    requires k > 0
    ensures forall i :: 0 <= i < |r| ==> 0 < |r[i]| <= k
    ensures forall i :: 0 <= i < |r| - 1 ==> |r[i]| == k
    decreases |s|
  {
    if s == [] then []
    else if |s| <= k then [s]
    else [s[..k]] + Batched(s[k..], k)
  }

  /** The chunks put back together give the input, in order. */
  lemma {:induction false} BatchedCovers<T>(s: seq<T>, k: nat)
    requires k > 0
    ensures Concat(Batched(s, k)) == s
    decreases |s|
  {
    if |s| > k {
      BatchedCovers(s[k..], k);
      assert Batched(s, k)[1..] == Batched(s[k..], k);
      assert s == s[..k] + s[k..];
    }
  }

  /** There are ceil(|s| / k) chunks: just enough chunks of k to hold s. */
  lemma {:induction false} BatchedCount<T>(s: seq<T>, k: nat)
    requires k > 0
    ensures (|Batched(s, k)| - 1) * k < |s| <= |Batched(s, k)| * k
    decreases |s|
  {
    if |s| > k {
      BatchedCount(s[k..], k);
      var m := |Batched(s[k..], k)|;
      assert |Batched(s, k)| == m + 1;
      assert (m + 1) * k == m * k + k;
    }
  }
}
