/**
 * `collectDetailInfoParallel`: the enrichment candidates are cut into chunks
 * of `maxConcurrent` items, the chunks run one after another, and every item
 * of a chunk is enriched independently (`Promise.allSettled`). Within-chunk
 * completion order is not observable in the result because each callback
 * writes only its own item, so the model runs a chunk's items in index
 * order. The detail endpoint is the oracle `detail`: `detail(k)` holds the
 * outcomes of the attempts for the `k`-th candidate.
 */
module Enrichment {
  import opened Js
  import opened Upstream
  import opened DetailFetch

  /** Pause before the `j`-th request of a chunk, and between two chunks. */
  const StaggerMs: nat := 200
  const ChunkPauseMs: nat := 1200

  /** Chunk `c` of a list cut into chunks of `size`: the non-empty slice of
      at most `size` items that starts at `ChunkStart(c, size)`. */
  ghost predicate IsChunk<T>(products: seq<T>, size: nat, c: nat, chunk: seq<T>) {
    && 0 < |chunk| <= size
    && ChunkStart(c, size) + |chunk| <= |products|
    && chunk == products[ChunkStart(c, size)..ChunkStart(c, size) + |chunk|]
  }

  /** The `for (i = 0; i < n; i += maxConcurrent) chunks.push(products.slice(i, i + maxConcurrent))`
      loop: chunk `c` is the slice starting at `ChunkStart(c, size)`, only the
      last chunk may be shorter than `size`, the last one ends at the end of
      the list, and there are `ceil(n / size)` of them. */
  method PartitionChunks<T>(products: seq<T>, size: nat) returns (chunks: seq<seq<T>>)
    requires size > 0
    ensures |chunks| == (|products| + size - 1) / size
    ensures forall c :: 0 <= c < |chunks| ==> IsChunk(products, size, c, chunks[c])
    ensures forall c :: 0 <= c < |chunks| - 1 ==> |chunks[c]| == size
    ensures |chunks| == 0 <==> |products| == 0
    ensures |chunks| > 0 ==> ChunkStart(|chunks| - 1, size) + |chunks[|chunks| - 1]| == |products|
  {
    chunks := [];
    var i: nat := 0;
    while i < |products|
      invariant i == ChunkStart(|chunks|, size)
      invariant |chunks| == 0 <==> i == 0
      invariant |chunks| > 0 ==> ChunkStart(|chunks| - 1, size) < |products|
      invariant forall c :: 0 <= c < |chunks| ==> IsChunk(products, size, c, chunks[c])
      invariant forall c :: 0 <= c < |chunks| - 1 ==> |chunks[c]| == size
      invariant |chunks| > 0 ==> ChunkStart(|chunks| - 1, size) + |chunks[|chunks| - 1]| == Min(i, |products|)
      decreases |products| - i
    {
      var chunk := Slice(products, i, i + size);
      assert chunk == products[i..Min(i + size, |products|)];
      assert IsChunk(products, size, |chunks|, chunk);
      var before := chunks;
      chunks := chunks + [chunk];
      forall c | 0 <= c < |chunks|
        ensures IsChunk(products, size, c, chunks[c])
      {
        if c < |before| {
          assert chunks[c] == before[c];
        }
      }
      forall c | 0 <= c < |chunks| - 1
        ensures |chunks[c]| == size
      {
        assert chunks[c] == before[c];
      }
      i := i + size;
    }
    ChunkStartIsProduct(|chunks|, size);
    if |chunks| > 0 {
      ChunkStartIsProduct(|chunks| - 1, size);
    }
    CeilDivUnique(|products|, size, |chunks|);
  }

  /** The chunks joined back together, in order. */
  function Concat<T>(chunks: seq<seq<T>>): seq<T> {
    if |chunks| == 0 then [] else Concat(chunks[..|chunks| - 1]) + chunks[|chunks| - 1]
  }

  /** Chunks laid out as `PartitionChunks` promises join back into the
      list, in order: no candidate is lost, repeated or moved. */
  lemma {:induction false} ChunksJoin<T>(products: seq<T>, size: nat, chunks: seq<seq<T>>)
    requires size > 0
    requires forall c :: 0 <= c < |chunks| ==> IsChunk(products, size, c, chunks[c])
    requires forall c :: 0 <= c < |chunks| - 1 ==> |chunks[c]| == size
    requires |chunks| == 0 <==> |products| == 0
    requires |chunks| > 0 ==> ChunkStart(|chunks| - 1, size) + |chunks[|chunks| - 1]| == |products|
    ensures Concat(chunks) == products
  {
    if |chunks| > 0 {
      var last := |chunks| - 1;
      ConcatPrefix(products, size, chunks, last);
      assert chunks[..last + 1] == chunks;
      assert products == products[..ChunkStart(last, size)] + chunks[last];
    }
  }

  /** The first `c` chunks join into the list up to where chunk `c` starts. */
  lemma {:induction false} ConcatPrefix<T>(products: seq<T>, size: nat, chunks: seq<seq<T>>, c: nat)
    requires c < |chunks|
    requires forall j :: 0 <= j < |chunks| ==> IsChunk(products, size, j, chunks[j])
    requires forall j :: 0 <= j < |chunks| - 1 ==> |chunks[j]| == size
    ensures ChunkStart(c, size) <= |products|
    ensures Concat(chunks[..c]) == products[..ChunkStart(c, size)]
  {
    if c > 0 {
      ConcatPrefix(products, size, chunks, c - 1);
      assert IsChunk(products, size, c - 1, chunks[c - 1]);
      assert chunks[..c][..c - 1] == chunks[..c - 1];
      assert products[..ChunkStart(c, size)] == products[..ChunkStart(c - 1, size)] + chunks[c - 1];
    } else {
      assert chunks[..0] == [];
    }
  }

  // ---------------------------------------------------------------------------
  // Reference definitions: what the first `n` candidates end up as when each
  // is enriched on its own, how many of them succeed, and how long each waits
  // inside its chunk.

  /** The state the enrichment has reached after some candidates: the
      candidates as updated, the delay each waited inside its chunk, and how
      many succeeded. */
  datatype Progress = Progress(updated: seq<RawItem>, stagger: seq<nat>, totalSuccess: nat)

  /** Reference definition: the progress after the first `n` candidates when
      each is enriched on its own and the `k`-th waits `Slot(k, size) * 200` ms. */
  function Reference(products: seq<RawItem>, detail: nat -> Tries, size: nat, n: nat): Progress
    decreases n
  {
    if n == 0 || n > |products| then Progress([], [], 0)
    else
      var p := Reference(products, detail, size, n - 1);
      var (item, ok) := ItemOutcome(products[n - 1], detail(n - 1));
      Progress(p.updated + [item], p.stagger + [Slot(n - 1, size) * StaggerMs], p.totalSuccess + (if ok then 1 else 0))
  }

  /** One more candidate appends its outcome, its delay and its success. */
  lemma {:induction false} ReferenceStep(products: seq<RawItem>, detail: nat -> Tries, size: nat, n: nat)
    requires 0 < n <= |products|
    ensures var p := Reference(products, detail, size, n - 1);
      var o := ItemOutcome(products[n - 1], detail(n - 1));
      Reference(products, detail, size, n)
        == Progress(p.updated + [o.0], p.stagger + [Slot(n - 1, size) * StaggerMs], p.totalSuccess + (if o.1 then 1 else 0))
  {
  }

  /** The progress after `n - 1` candidates, extended by the outcome and the
      delay of candidate `n - 1`, is the progress after `n`. */
  lemma ExtendProgress(products: seq<RawItem>, detail: nat -> Tries, size: nat, n: nat,
                       updated: seq<RawItem>, stagger: seq<nat>, successes: nat, item: RawItem, ok: bool, delay: nat)
    requires 0 < n <= |products|
    requires Progress(updated, stagger, successes) == Reference(products, detail, size, n - 1)
    requires (item, ok) == ItemOutcome(products[n - 1], detail(n - 1))
    requires delay == Slot(n - 1, size) * StaggerMs
    ensures Progress(updated + [item], stagger + [delay], successes + (if ok then 1 else 0)) == Reference(products, detail, size, n)
  {
    ReferenceStep(products, detail, size, n);
  }

  /** After `n` candidates there are `n` updated items and `n` delays, and at
      most `n` successes. */
  lemma {:induction false} ReferenceLength(products: seq<RawItem>, detail: nat -> Tries, size: nat, n: nat)
    requires n <= |products|
    ensures var p := Reference(products, detail, size, n);
      |p.updated| == n && |p.stagger| == n && p.totalSuccess <= n
  {
    if n > 0 {
      ReferenceLength(products, detail, size, n - 1);
    }
  }

  /** After `n` candidates, the `k`-th of them is the `k`-th candidate
      enriched on its own. */
  lemma {:induction false} ReferenceUpdated(products: seq<RawItem>, detail: nat -> Tries, size: nat, n: nat, k: nat)
    requires k < n <= |products|
    ensures var p := Reference(products, detail, size, n);
      k < |p.updated| && p.updated[k] == ItemOutcome(products[k], detail(k)).0
  {
    ReferenceLength(products, detail, size, n - 1);
    if k < n - 1 {
      ReferenceUpdated(products, detail, size, n - 1, k);
    }
  }

  /** After `n` candidates, the `k`-th of them waited `Slot(k, size) * 200` ms. */
  lemma {:induction false} ReferenceStagger(products: seq<RawItem>, detail: nat -> Tries, size: nat, n: nat, k: nat)
    requires k < n <= |products|
    ensures var p := Reference(products, detail, size, n);
      k < |p.stagger| && p.stagger[k] == Slot(k, size) * StaggerMs
  {
    ReferenceLength(products, detail, size, n - 1);
    if k < n - 1 {
      ReferenceStagger(products, detail, size, n - 1, k);
    }
  }

  /** The whole enrichment, candidate by candidate: the `k`-th candidate comes
      out exactly as it would when enriched on its own, after waiting
      `(k % size) * 200` ms inside its chunk. */
  lemma EnrichedCandidate(products: seq<RawItem>, detail: nat -> Tries, size: nat, k: nat)
    requires size > 0 && k < |products|
    ensures var p := Reference(products, detail, size, |products|);
      && |p.updated| == |products| && |p.stagger| == |products|
      && p.updated[k] == ItemOutcome(products[k], detail(k)).0
      && p.stagger[k] == (k % size) * StaggerMs
  {
    ReferenceLength(products, detail, size, |products|);
    ReferenceUpdated(products, detail, size, |products|, k);
    ReferenceStagger(products, detail, size, |products|, k);
    SlotIsMod(k, size);
  }

  /** The same for every candidate at once. */
  lemma EnrichedCandidates(products: seq<RawItem>, detail: nat -> Tries, size: nat)
    requires size > 0
    ensures var p := Reference(products, detail, size, |products|);
      && |p.updated| == |products|
      && forall k :: 0 <= k < |products| ==> p.updated[k] == ItemOutcome(products[k], detail(k)).0
  {
    ReferenceLength(products, detail, size, |products|);
    forall k | 0 <= k < |products|
      ensures Reference(products, detail, size, |products|).updated[k] == ItemOutcome(products[k], detail(k)).0
    {
      ReferenceUpdated(products, detail, size, |products|, k);
    }
  }

  /** Each of the first `n` candidates is enriched successfully on its own. */
  predicate AllOk(products: seq<RawItem>, detail: nat -> Tries, n: nat)
    requires n <= |products|
  {
    forall k :: 0 <= k < n ==> ItemOutcome(products[k], detail(k)).1
  }

  lemma AllOkStep(products: seq<RawItem>, detail: nat -> Tries, n: nat)
    requires 0 < n <= |products|
    ensures AllOk(products, detail, n) <==> AllOk(products, detail, n - 1) && ItemOutcome(products[n - 1], detail(n - 1)).1
  {
  }

  /** Every one of the first `n` candidates succeeded exactly when the
      success count reached `n`. */
  lemma {:induction false} AllSucceeded(products: seq<RawItem>, detail: nat -> Tries, size: nat, n: nat)
    requires n <= |products|
    ensures Reference(products, detail, size, n).totalSuccess == n <==> AllOk(products, detail, n)
  {
    if n > 0 {
      AllSucceeded(products, detail, size, n - 1);
      ReferenceLength(products, detail, size, n - 1);
      AllOkStep(products, detail, n);
    }
  }

  /** The totals `collectDetailInfoParallel` returns (its elapsed time and
      formatted success rate are not modelled). */
  datatype Stats = Stats(totalSuccess: nat, totalAttempts: nat)

  /** One iteration of the chunk loop: `chunk.map(...)` followed by
      `Promise.allSettled`. The `j`-th item of chunk `c` waits `j * 200` ms
      and is then enriched on its own; the chunk's successes are added to the
      running total. `acc` is the progress after the candidates before the
      chunk, which starts at `base`. */
  method EnrichChunk(products: seq<RawItem>, detail: nat -> Tries, size: nat, c: nat, base: nat, chunk: seq<RawItem>, acc: Progress)
    returns (acc': Progress, chunkSuccesses: nat)
    requires |chunk| <= size && base == ChunkStart(c, size) && base + |chunk| <= |products|
    requires chunk == products[base..base + |chunk|]
    requires acc == Reference(products, detail, size, base)
    ensures acc' == Reference(products, detail, size, base + |chunk|)
    ensures chunkSuccesses <= |chunk| && acc'.totalSuccess == acc.totalSuccess + chunkSuccesses
  {
    var updated: seq<RawItem>, stagger: seq<nat> := acc.updated, acc.stagger;
    chunkSuccesses := 0;
    var j: nat := 0;
    while j < |chunk|
      invariant j <= |chunk|
      invariant Progress(updated, stagger, acc.totalSuccess + chunkSuccesses) == Reference(products, detail, size, base + j)
      invariant chunkSuccesses <= j
    {
      assert chunk[j] == products[base + j];
      var item, ok, _ := EnrichItem(chunk[j], detail(base + j));
      SlotOfChunkPosition(c, size, j);
      var delay: nat := j * StaggerMs;
      ExtendProgress(products, detail, size, base + j + 1, updated, stagger, acc.totalSuccess + chunkSuccesses, item, ok, delay);
      updated := updated + [item];
      stagger := stagger + [delay];
      if ok {
        chunkSuccesses := chunkSuccesses + 1;
      }
      j := j + 1;
    }
    assert j == |chunk|;
    acc' := Progress(updated, stagger, acc.totalSuccess + chunkSuccesses);
  }

  /** The whole enrichment of a candidate list: every candidate is enriched
      exactly as it would be on its own, `totalAttempts` is the number of
      candidates, the `k`-th candidate waits `Slot(k, maxConcurrent) * 200` ms
      inside its chunk, and the 1200 ms pause separates consecutive chunks
      only. */
  method CollectDetailInfoParallel(products: seq<RawItem>, maxConcurrent: nat, detail: nat -> Tries)
    returns (updated: seq<RawItem>, stats: Stats, stagger: seq<nat>, pauses: nat)
    requires maxConcurrent > 0
    ensures Progress(updated, stagger, stats.totalSuccess) == Reference(products, detail, maxConcurrent, |products|)
    ensures stats.totalAttempts == |products|
    ensures pauses == (if |products| == 0 then 0 else (|products| + maxConcurrent - 1) / maxConcurrent - 1)
  {
    var chunks := PartitionChunks(products, maxConcurrent);
    var acc := Progress([], [], 0);
    pauses := 0;
    var totalSuccess: nat, totalAttempts: nat := 0, 0;
    var chunkIndex: nat := 0;
    while chunkIndex < |chunks|
      invariant chunkIndex <= |chunks|
      invariant chunkIndex < |chunks| ==> totalAttempts == ChunkStart(chunkIndex, maxConcurrent)
      invariant chunkIndex == |chunks| ==> totalAttempts == |products|
      invariant acc == Reference(products, detail, maxConcurrent, totalAttempts)
      invariant totalSuccess == acc.totalSuccess
      invariant pauses + (if 0 < chunkIndex == |chunks| then 1 else 0) == chunkIndex
    {
      var chunkSuccesses;
      acc, chunkSuccesses, totalAttempts := RunChunk(products, detail, maxConcurrent, chunks, chunkIndex, acc);
      totalSuccess := totalSuccess + chunkSuccesses;
      if chunkIndex < |chunks| - 1 {
        pauses := pauses + 1;
      }
      chunkIndex := chunkIndex + 1;
    }
    updated, stagger := acc.updated, acc.stagger;
    stats := Stats(totalSuccess, totalAttempts);
  }

  /** Chunk `c` of a partition run after the chunks before it: the progress
      reaches the end of the chunk, which is where the next chunk starts or
      the end of the list. */
  method RunChunk(products: seq<RawItem>, detail: nat -> Tries, size: nat, chunks: seq<seq<RawItem>>, c: nat, acc: Progress)
    returns (acc': Progress, chunkSuccesses: nat, reached: nat)
    requires c < |chunks|
    requires forall j :: 0 <= j < |chunks| ==> IsChunk(products, size, j, chunks[j])
    requires forall j :: 0 <= j < |chunks| - 1 ==> |chunks[j]| == size
    requires ChunkStart(|chunks| - 1, size) + |chunks[|chunks| - 1]| == |products|
    requires acc == Reference(products, detail, size, ChunkStart(c, size))
    ensures reached == (if c + 1 < |chunks| then ChunkStart(c + 1, size) else |products|)
    ensures acc' == Reference(products, detail, size, reached)
    ensures acc'.totalSuccess == acc.totalSuccess + chunkSuccesses
  {
    NextChunkStart(products, size, chunks, c);
    var base := ChunkStart(c, size);
    acc', chunkSuccesses := EnrichChunk(products, detail, size, c, base, chunks[c], acc);
    reached := base + |chunks[c]|;
  }

  /** Chunk `c` of a partition is a slice starting at its `ChunkStart`, and
      it ends where the next chunk starts, or at the end of the list when it
      is the last. */
  lemma NextChunkStart<T>(products: seq<T>, size: nat, chunks: seq<seq<T>>, c: nat)
    requires c < |chunks|
    requires forall j :: 0 <= j < |chunks| ==> IsChunk(products, size, j, chunks[j])
    requires forall j :: 0 <= j < |chunks| - 1 ==> |chunks[j]| == size
    requires ChunkStart(|chunks| - 1, size) + |chunks[|chunks| - 1]| == |products|
    ensures |chunks[c]| <= size && ChunkStart(c, size) + |chunks[c]| <= |products|
    ensures chunks[c] == products[ChunkStart(c, size)..ChunkStart(c, size) + |chunks[c]|]
    ensures ChunkStart(c, size) + |chunks[c]| == (if c + 1 < |chunks| then ChunkStart(c + 1, size) else |products|)
  {
    assert IsChunk(products, size, c, chunks[c]);
  }

  // ---------------------------------------------------------------------------
  // Chunk arithmetic, stated recursively so that proofs about the loops stay
  // linear; `ChunkStartIsProduct` and `SlotIsMod` give the closed forms.

  /** Position of the first item of chunk `c` among all candidates. */
  function ChunkStart(c: nat, size: nat): nat {
    if c == 0 then 0 else ChunkStart(c - 1, size) + size
  }

  lemma {:induction false} ChunkStartIsProduct(c: nat, size: nat)
    ensures ChunkStart(c, size) == c * size
  {
    if c > 0 {
      ChunkStartIsProduct(c - 1, size);
      assert (c - 1) * size + size == c * size;
    }
  }

  /** The position of the `k`-th candidate inside its chunk of `size`. */
  function Slot(k: nat, size: nat): nat
    decreases k
  {
    if size == 0 || k < size then k else Slot(k - size, size)
  }

  lemma {:induction false} SlotOfChunkPosition(c: nat, size: nat, j: nat)
    requires j < size
    ensures Slot(ChunkStart(c, size) + j, size) == j
  {
    if c > 0 {
      SlotOfChunkPosition(c - 1, size, j);
    }
  }

  /** The slot is the remainder `k % size`. */
  lemma {:induction false} SlotIsMod(k: nat, size: nat)
    requires size > 0
    ensures Slot(k, size) == k % size
  {
    if k >= size {
      SlotIsMod(k - size, size);
      var q, m := (k - size) / size, (k - size) % size;
      assert k - size == q * size + m;
      assert k == (q + 1) * size + m;
      DivModUnique(k, size, q + 1, m);
    }
  }

  lemma MulMono(a: int, b: int, size: nat)
    requires a <= b
    ensures a * size <= b * size
  {
    var d := b - a;
    assert d >= 0;
    assert d * size >= 0;
    assert b * size == a * size + d * size;
  }

  lemma DivModUnique(n: nat, size: nat, q: nat, m: nat)
    requires size > 0 && m < size && n == q * size + m
    ensures n / size == q && n % size == m
  {
    var q' := n / size;
    var m' := n % size;
    assert n == q' * size + m';
    if q' < q {
      MulMono(q' + 1, q, size);
      assert false;
    } else if q' > q {
      MulMono(q + 1, q', size);
      assert false;
    }
  }

  lemma CeilDivUnique(n: nat, size: nat, c: nat)
    requires size > 0
    requires c * size >= n
    requires c == 0 || (c - 1) * size < n
    ensures c == (n + size - 1) / size
  {
    if c == 0 {
      assert n == 0;
      DivModUnique(size - 1, size, 0, size - 1);
    } else {
      var m := n + size - 1 - (c - 1) * size - size;
      assert (c - 1) * size + size == c * size;
      assert n + size - 1 == (c - 1) * size + size + m;
      assert n + size - 1 == c * size + m;
      DivModUnique(n + size - 1, size, c, m);
    }
  }
}
