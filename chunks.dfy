/**
 * Integer ranges and Rust's `slice::chunks_exact`, which the pipeline uses to
 * cut flat index lists into faces.
 */
module Chunks {

  /**
   * `chunks_exact(n)`: the consecutive, non-overlapping slices of length `n`
   * from the front of `s`; a tail shorter than `n` is dropped.
   */
  function ChunksExact<T>(s: seq<T>, n: nat): seq<seq<T>>
    requires n > 0
    decreases |s|
  {
    if |s| < n then [] else [s[..n]] + ChunksExact(s[n..], n)
  }

  /**
   * Chunk `i` is the slice `s[n*i .. n*i+n]`, and the chunks cover all of `s`
   * except a tail shorter than `n`.
   */
  lemma {:induction false} ChunksExactAt<T>(s: seq<T>, n: nat)
    requires n > 0
    ensures n * |ChunksExact(s, n)| <= |s| < n * |ChunksExact(s, n)| + n
    ensures forall i | 0 <= i < |ChunksExact(s, n)| ::
              n * i + n <= |s| && ChunksExact(s, n)[i] == s[n * i .. n * i + n]
    decreases |s|
  {
    if |s| >= n {
      var rest := ChunksExact(s[n..], n);
      ChunksExactAt(s[n..], n);
      assert n * (|rest| + 1) == n * |rest| + n;
      forall i | 0 <= i < |ChunksExact(s, n)|
        ensures n * i + n <= |s| && ChunksExact(s, n)[i] == s[n * i .. n * i + n]
      {
        if i > 0 {
          assert n * (i - 1) + n == n * i;
          assert rest[i - 1] == s[n..][n * (i - 1) .. n * (i - 1) + n];
        }
      }
    }
  }

  /** Rust's inclusive range `lo..=hi` collected into a sequence; empty when `lo > hi`. */
  function InclusiveRange(lo: nat, hi: nat): seq<nat>
    decreases hi + 1 - lo
  {
    if lo > hi then [] else [lo] + InclusiveRange(lo + 1, hi)
  }

  /** The range holds `hi - lo + 1` consecutive numbers starting at `lo`. */
  lemma {:induction false} InclusiveRangeAt(lo: nat, hi: nat)
    ensures |InclusiveRange(lo, hi)| == if lo > hi then 0 else hi - lo + 1
    ensures forall i | 0 <= i < |InclusiveRange(lo, hi)| :: InclusiveRange(lo, hi)[i] == lo + i
    decreases hi + 1 - lo
  {
    if lo <= hi {
      InclusiveRangeAt(lo + 1, hi);
    }
  }
}
