/** How the CPU kernels split `n` entries among `nThreads` workers: every
    worker but the last takes `n / nThreads` consecutive entries, the last
    one the rest. */
module Chunks {
  /** Where chunk `c` starts when `n` entries go to `nThreads` workers: every
      worker but the last takes `n / nThreads` entries, the last the rest. */
  function ChunkStart(c: nat, n: nat, nThreads: nat): nat
    requires 1 <= nThreads && c <= nThreads
  {
    if c == nThreads then n
    else if c == 0 then 0
    else ChunkStart(c - 1, n, nThreads) + n / nThreads
  }

  lemma {:induction false} ChunkStartIsMultiple(c: nat, n: nat, nThreads: nat)
    requires 1 <= nThreads && c < nThreads
    ensures ChunkStart(c, n, nThreads) == c * (n / nThreads)
  {
    if c > 0 {
      ChunkStartIsMultiple(c - 1, n, nThreads);
      assert c * (n / nThreads) == (c - 1) * (n / nThreads) + n / nThreads;
    }
  }

  lemma MulMonotone(a: nat, b: nat, g: nat)
    requires a <= b
    ensures a * g <= b * g
  {
    assert b * g == a * g + (b - a) * g;
  }

  /** Chunks are consecutive and within the entries. */
  lemma ChunkStartBounds(c: nat, n: nat, nThreads: nat)
    requires 1 <= nThreads && c < nThreads
    ensures ChunkStart(c, n, nThreads) <= ChunkStart(c + 1, n, nThreads) <= n
    ensures c + 1 < nThreads ==> ChunkStart(c + 1, n, nThreads) == ChunkStart(c, n, nThreads) + n / nThreads
  {
    var grain := n / nThreads;
    assert nThreads * grain <= n;
    if c + 1 < nThreads {
      ChunkStartIsMultiple(c + 1, n, nThreads);
      MulMonotone(c + 1, nThreads, grain);
      assert ChunkStart(c + 1, n, nThreads) == ChunkStart(c, n, nThreads) + grain;
    } else {
      ChunkStartIsMultiple(c, n, nThreads);
      MulMonotone(c, nThreads, grain);
    }
  }
}
