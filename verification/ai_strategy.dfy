/** The summarisation engine's pure core: choosing a strategy from the
    transcript length and cutting the transcript into overlapping chunks.
    The source computes `(int) Math.ceil((double) a / b)` and
    `(int) (chunkSize * 0.1)`; for non-negative `int` operands these equal
    integer ceiling division and `chunkSize / 10`, which is what is used
    here. */
module AiStrategy {
  import opened JavaText

  datatype StrategyType = SingleShot | OptimalMapReduce | FixedMapReduce

  /** `SummarizationStrategy(type, chunkSize)`. */
  datatype Strategy = Strategy(kind: StrategyType, chunkSize: nat)

  /** Configuration defaults: `app.ai.strategy.optimal-chars` and
      `app.ai.strategy.max-chunks`. */
  const DefaultOptimalChunkChars: nat := 12000
  const DefaultMaxChunks: nat := 4

  /** Integer ceiling of `a / b`. */
  function CeilDiv(a: nat, b: nat): (q: nat)
    requires b >= 1
    ensures q * b >= a
    ensures q > 0 ==> (q - 1) * b < a
    ensures a == 0 <==> q == 0
  {
    var q := (a + b - 1) / b;
    assert q * b + (a + b - 1) % b == a + b - 1;
    q
  }

  /** Ceiling division is the least count of `b`-sized steps covering `a`. */
  lemma CeilDivLeast(a: nat, b: nat, m: nat)
    requires b >= 1
    requires a <= m * b
    ensures CeilDiv(a, b) <= m
  {
  }

  /** `decideStrategy`: single shot when the whole text fits in one optimal
      chunk; otherwise optimal-size chunks when that many chunks stay within
      `maxChunks`; otherwise a larger chunk size that would need only
      `maxChunks` chunks were they not overlapping. */
  function DecideStrategy(totalChars: nat, optimalChunkCharSize: nat, maxChunks: nat): (s: Strategy)
    requires optimalChunkCharSize >= 1 && maxChunks >= 1
    ensures s.kind == SingleShot <==> totalChars <= optimalChunkCharSize
    ensures s.kind == SingleShot ==> s.chunkSize == totalChars
    ensures s.kind == OptimalMapReduce <==>
      totalChars > optimalChunkCharSize && CeilDiv(totalChars, optimalChunkCharSize) <= maxChunks
    ensures s.kind == OptimalMapReduce ==> s.chunkSize == optimalChunkCharSize
    ensures s.kind == FixedMapReduce ==> s.chunkSize == CeilDiv(totalChars, maxChunks)
    ensures s.kind == FixedMapReduce ==> s.chunkSize > optimalChunkCharSize
    ensures s.kind != SingleShot ==> s.chunkSize >= 1 && CeilDiv(totalChars, s.chunkSize) <= maxChunks
  {
    if totalChars <= optimalChunkCharSize then Strategy(SingleShot, totalChars)
    else if CeilDiv(totalChars, optimalChunkCharSize) <= maxChunks then
      Strategy(OptimalMapReduce, optimalChunkCharSize)
    else
      var size := CeilDiv(totalChars, maxChunks);
      FixedSizeExceedsOptimal(totalChars, optimalChunkCharSize, maxChunks);
      CeilDivLeast(totalChars, size, maxChunks);
      Strategy(FixedMapReduce, size)
  }

  /** When more than `maxChunks` optimal chunks are needed, a chunk of the
      optimal size cannot hold a `maxChunks`-th of the text. */
  lemma FixedSizeExceedsOptimal(totalChars: nat, optimalChunkCharSize: nat, maxChunks: nat)
    requires optimalChunkCharSize >= 1 && maxChunks >= 1
    requires CeilDiv(totalChars, optimalChunkCharSize) > maxChunks
    ensures CeilDiv(totalChars, maxChunks) > optimalChunkCharSize
  {
    var size := CeilDiv(totalChars, maxChunks);
    if size <= optimalChunkCharSize {
      assert size * maxChunks <= optimalChunkCharSize * maxChunks;
      assert totalChars <= maxChunks * optimalChunkCharSize;
      CeilDivLeast(totalChars, optimalChunkCharSize, maxChunks);
    }
  }

  /** The chunks `splitTextByChars` cuts, starting at offset `i` and stepping
      by `stride`: each runs from its start for `chunkSize` chars or to the end
      of the text. */
  function SplitFrom(text: string, chunkSize: nat, stride: nat, i: nat): (chunks: seq<string>)
    requires chunkSize >= 1 && stride >= 1
    ensures forall k :: 0 <= k < |chunks| ==> 0 < |chunks[k]| <= chunkSize
    ensures i >= |text| <==> |chunks| == 0
    decreases |text| - i
  {
    if i >= |text| then []
    else [text[i..Min(i + chunkSize, |text|)]] + SplitFrom(text, chunkSize, stride, i + stride)
  }

  /** `splitTextByChars(text, chunkSize, chunkOverlap)`. The only caller passes
      `chunkOverlap = chunkSize / 10`, so the step is positive. */
  function SplitTextByChars(text: string, chunkSize: nat, chunkOverlap: nat): (chunks: seq<string>)
    requires 0 <= chunkOverlap < chunkSize
    ensures forall k :: 0 <= k < |chunks| ==> 0 < |chunks[k]| <= chunkSize
    ensures |text| == 0 <==> |chunks| == 0
  {
    SplitFrom(text, chunkSize, chunkSize - chunkOverlap, 0)
  }

  /** The overlap the map-reduce path uses: a tenth of the chunk size, which
      always leaves a positive step. */
  function Overlap(chunkSize: nat): (o: nat)
    requires chunkSize >= 1
    ensures o < chunkSize
    ensures chunkSize - o >= 1
  {
    chunkSize / 10
  }

  lemma CeilDivStep(a: nat, b: nat)
    requires b >= 1 && a > b
    ensures CeilDiv(a, b) == 1 + CeilDiv(a - b, b)
  {
    var q := CeilDiv(a - b, b);
    assert (q + 1) * b == q * b + b;
    assert (q + 1) * b >= a;
    if q > 0 {
      assert q * b == (q - 1) * b + b;
    }
    CeilDivLeast(a, b, q + 1);
    if CeilDiv(a, b) < q + 1 {
      var p := CeilDiv(a, b);
      assert p * b >= a;
      assert p <= q;
      if p >= 1 {
        assert (p - 1) * b + b == p * b;
        CeilDivLeast(a - b, b, p - 1);
      }
    }
  }

  lemma ShiftStart(i: nat, k: nat, stride: nat)
    requires k >= 1
    ensures (i + stride) + (k - 1) * stride == i + k * stride
  {
  }

  /** The chunker from offset `i` cuts `ceil((n - i) / stride)` chunks. */
  lemma {:induction false} SplitFromCount(text: string, chunkSize: nat, stride: nat, i: nat)
    requires chunkSize >= 1 && stride >= 1 && i <= |text|
    ensures |SplitFrom(text, chunkSize, stride, i)| == CeilDiv(|text| - i, stride)
    decreases |text| - i
  {
    var n := |text|;
    if i == n {
    } else if i + stride >= n {
      assert SplitFrom(text, chunkSize, stride, i + stride) == [];
      CeilDivLeast(n - i, stride, 1);
    } else {
      SplitFromCount(text, chunkSize, stride, i + stride);
      CeilDivStep(n - i, stride);
    }
  }

  /** Chunk `k` from offset `i` is `text[i + k*stride .. min(i + k*stride + chunkSize, n)]`. */
  lemma {:induction false} SplitFromAt(text: string, chunkSize: nat, stride: nat, i: nat, k: nat)
    requires chunkSize >= 1 && stride >= 1
    requires k < |SplitFrom(text, chunkSize, stride, i)|
    ensures i + k * stride < |text|
    ensures SplitFrom(text, chunkSize, stride, i)[k] == text[i + k * stride..Min(i + k * stride + chunkSize, |text|)]
    decreases k
  {
    if k > 0 {
      SplitFromAt(text, chunkSize, stride, i + stride, k - 1);
      ShiftStart(i, k, stride);
    }
  }

  /** The chunks `splitTextByChars` returns: `ceil(n / step)` of them with
      `step = chunkSize - chunkOverlap`, chunk `k` being
      `text[k*step .. min(k*step + chunkSize, n)]`. */
  lemma SplitClosedForm(text: string, chunkSize: nat, chunkOverlap: nat)
    requires 0 <= chunkOverlap < chunkSize
    ensures var step := chunkSize - chunkOverlap;
      var chunks := SplitTextByChars(text, chunkSize, chunkOverlap);
      && |chunks| == CeilDiv(|text|, step)
      && (forall k :: 0 <= k < |chunks| ==>
            k * step < |text| && chunks[k] == text[k * step..Min(k * step + chunkSize, |text|)])
  {
    var step := chunkSize - chunkOverlap;
    var chunks := SplitTextByChars(text, chunkSize, chunkOverlap);
    SplitFromCount(text, chunkSize, step, 0);
    forall k | 0 <= k < |chunks|
      ensures k * step < |text| && chunks[k] == text[k * step..Min(k * step + chunkSize, |text|)]
    {
      SplitTextAt(text, chunkSize, chunkOverlap, k);
    }
  }

  lemma SplitTextAt(text: string, chunkSize: nat, chunkOverlap: nat, k: nat)
    requires 0 <= chunkOverlap < chunkSize
    requires k < |SplitTextByChars(text, chunkSize, chunkOverlap)|
    ensures var step := chunkSize - chunkOverlap;
      k * step < |text|
      && SplitTextByChars(text, chunkSize, chunkOverlap)[k] == text[k * step..Min(k * step + chunkSize, |text|)]
  {
    var step := chunkSize - chunkOverlap;
    assert SplitTextByChars(text, chunkSize, chunkOverlap) == SplitFrom(text, chunkSize, step, 0);
    SplitFromAt(text, chunkSize, step, 0, k);
    assert 0 + k * step == k * step;
  }

  /** The first chunk is the text's first `chunkSize` chars and the last
      chunk runs to the end of the text. */
  lemma SplitEnds(text: string, chunkSize: nat, chunkOverlap: nat)
    requires 0 <= chunkOverlap < chunkSize
    requires |text| > 0
    ensures var step := chunkSize - chunkOverlap;
      var chunks := SplitTextByChars(text, chunkSize, chunkOverlap);
      && chunks[0] == text[..Min(chunkSize, |text|)]
      && (|chunks| - 1) * step < |text|
      && chunks[|chunks| - 1] == text[(|chunks| - 1) * step..]
  {
    var step := chunkSize - chunkOverlap;
    var chunks := SplitTextByChars(text, chunkSize, chunkOverlap);
    SplitFromCount(text, chunkSize, step, 0);
    SplitFromAt(text, chunkSize, step, 0, 0);
    var last := |chunks| - 1;
    SplitFromAt(text, chunkSize, step, 0, last);
    LastChunkReachesEnd(|text|, step, chunkSize, last);
  }

  lemma LastChunkReachesEnd(n: nat, step: nat, chunkSize: nat, last: nat)
    requires 1 <= step <= chunkSize
    requires last + 1 == CeilDiv(n, step)
    ensures last * step + chunkSize >= n
  {
    assert (last + 1) * step == last * step + step;
  }

  /** Every position of the text lies inside at least one chunk: position `j`
      lies in chunk `j / step`. */
  lemma SplitCovers(text: string, chunkSize: nat, chunkOverlap: nat, j: nat)
    requires 0 <= chunkOverlap < chunkSize
    requires j < |text|
    ensures var step := chunkSize - chunkOverlap;
      var chunks := SplitTextByChars(text, chunkSize, chunkOverlap);
      && j / step < |chunks|
      && (j / step) * step <= j < Min((j / step) * step + chunkSize, |text|)
  {
    var step := chunkSize - chunkOverlap;
    SplitFromCount(text, chunkSize, step, 0);
    DivCovers(j, step, |text|);
  }

  lemma DivCovers(j: nat, step: nat, n: nat)
    requires step >= 1 && j < n
    ensures (j / step) * step <= j < (j / step) * step + step
    ensures j / step < CeilDiv(n, step)
  {
  }

  /** Every chunk after the first with its leading `overlap` chars (or all
      of it, if shorter) removed. */
  function DropOverlaps(chunks: seq<string>, overlap: nat): (r: seq<string>)
    ensures |r| == |chunks|
    ensures forall k :: 0 <= k < |chunks| ==> r[k] == chunks[k][Min(overlap, |chunks[k]|)..]
  {
    seq(|chunks|, k requires 0 <= k < |chunks| => chunks[k][Min(overlap, |chunks[k]|)..])
  }

  /** The first chunk followed by the others with their overlap removed. */
  function Reassemble(chunks: seq<string>, overlap: nat): string {
    if |chunks| == 0 then "" else chunks[0] + Concat(DropOverlaps(chunks[1..], overlap))
  }

  lemma ConcatDropOverlapsCons(chunks: seq<string>, overlap: nat)
    requires |chunks| > 0
    ensures Concat(DropOverlaps(chunks, overlap))
         == chunks[0][Min(overlap, |chunks[0]|)..] + Concat(DropOverlaps(chunks[1..], overlap))
  {
    assert DropOverlaps(chunks, overlap)[1..] == DropOverlaps(chunks[1..], overlap);
  }

  lemma SliceJoin(t: string, a: nat, b: nat, c: nat)
    requires a <= b <= c <= |t|
    ensures t[a..b] + t[b..c] == t[a..c]
  {
  }

  lemma {:induction false} SplitFromReassembles(text: string, chunkSize: nat, overlap: nat, i: nat)
    requires overlap < chunkSize && i < |text|
    ensures Reassemble(SplitFrom(text, chunkSize, chunkSize - overlap, i), overlap) == text[i..]
    decreases |text| - i
  {
    var n := |text|;
    var step := chunkSize - overlap;
    var chunks := SplitFrom(text, chunkSize, step, i);
    var rest := SplitFrom(text, chunkSize, step, i + step);
    var e1 := Min(i + chunkSize, n);
    assert chunks == [text[i..e1]] + rest;
    assert chunks[1..] == rest;
    if i + step >= n {
      assert DropOverlaps(rest, overlap) == [];
    } else {
      SplitFromReassembles(text, chunkSize, overlap, i + step);
      var e2 := Min(i + step + chunkSize, n);
      assert rest[0] == text[i + step..e2];
      ConcatDropOverlapsCons(rest, overlap);
      ReassembleStep(text, i, step, overlap, e1, e2, rest[0], Concat(DropOverlaps(rest[1..], overlap)));
    }
  }

  /** One step of the reassembly: the next chunk, overlap removed, continues
      exactly where the current one ends. */
  lemma ReassembleStep(text: string, i: nat, step: nat, overlap: nat, e1: nat, e2: nat, head: string, tail: string)
    requires i + step < |text| && step >= 1
    requires e1 == Min(i + step + overlap, |text|) && e2 == Min(i + step + step + overlap, |text|)
    requires head == text[i + step..e2]
    requires head + tail == text[i + step..]
    ensures text[i..e1] + (head[Min(overlap, |head|)..] + tail) == text[i..]
  {
    SliceJoin(text, i + step, e2, |text|);
    assert tail == text[e2..];
    assert head[Min(overlap, |head|)..] == text[e1..e2];
    SliceJoin(text, i, e1, e2);
    SliceJoin(text, i, e2, |text|);
  }

  /** Removing the overlap from every chunk but the first and concatenating
      gives back the text: no char is lost or duplicated by the cut. */
  lemma SplitReassembles(text: string, chunkSize: nat, chunkOverlap: nat)
    requires 0 <= chunkOverlap < chunkSize
    ensures Reassemble(SplitTextByChars(text, chunkSize, chunkOverlap), chunkOverlap) == text
  {
    if |text| > 0 {
      SplitFromReassembles(text, chunkSize, chunkOverlap, 0);
    }
  }

  /** With the default configuration a 100000-char transcript takes the fixed
      strategy with 25000-char chunks, and the overlapping chunker then cuts
      five chunks, one more than `maxChunks`. */
  lemma FixedStrategyOvershootsMaxChunks(text: string)
    requires |text| == 100000
    ensures DecideStrategy(|text|, DefaultOptimalChunkChars, DefaultMaxChunks) == Strategy(FixedMapReduce, 25000)
    ensures |SplitTextByChars(text, 25000, Overlap(25000))| == 5
  {
    SplitFromCount(text, 25000, 25000 - Overlap(25000), 0);
  }

  /** With the default configuration a 30000-char transcript takes
      optimal-size chunks and is cut into three of them. */
  lemma OptimalStrategyThreeChunks(text: string)
    requires |text| == 30000
    ensures DecideStrategy(|text|, DefaultOptimalChunkChars, DefaultMaxChunks) == Strategy(OptimalMapReduce, 12000)
    ensures |SplitTextByChars(text, 12000, Overlap(12000))| == 3
  {
    SplitFromCount(text, 12000, 12000 - Overlap(12000), 0);
  }

  /** The number of chunks the map-reduce path actually sends is at most one
      more than `maxChunks` whenever `maxChunks` is at most nine; the overlap
      is what can push it past `maxChunks`. */
  lemma MapReduceFanOutBound(text: string, optimalChunkCharSize: nat, maxChunks: nat)
    requires optimalChunkCharSize >= 1 && 1 <= maxChunks <= 9
    requires |text| > optimalChunkCharSize
    ensures var s := DecideStrategy(|text|, optimalChunkCharSize, maxChunks);
      |SplitTextByChars(text, s.chunkSize, Overlap(s.chunkSize))| <= maxChunks + 1
  {
    var n := |text|;
    var size := DecideStrategy(n, optimalChunkCharSize, maxChunks).chunkSize;
    var step := size - Overlap(size);
    SplitFromCount(text, size, step, 0);
    WholeChunksBound(n, size, maxChunks);
    OverlapStepsBound(size, maxChunks);
    CeilDivLeast(n, step, maxChunks + 1);
  }

  /** `n` fits in `m` whole chunks when `ceil(n / size) <= m`. */
  lemma WholeChunksBound(n: nat, size: nat, m: nat)
    requires size >= 1 && CeilDiv(n, size) <= m
    ensures n <= m * size
  {
    var q := CeilDiv(n, size);
    assert q * size <= m * size;
  }

  /** With at most nine chunks, `m + 1` overlapped steps span at least `m`
      whole chunks. */
  lemma OverlapStepsBound(size: nat, m: nat)
    requires size >= 1 && m <= 9
    ensures m * size <= (m + 1) * (size - Overlap(size))
  {
    var o := size / 10;
    assert 10 * o <= size;
    assert (m + 1) * o <= size;
    assert (m + 1) * (size - o) == (m + 1) * size - (m + 1) * o;
  }
}
