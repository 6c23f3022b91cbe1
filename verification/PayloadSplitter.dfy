/** The metrics payload splitter of emitter.py: a payload that is too big is cut into
    chunks that are split in turn, down to a depth where they are dropped. */
module PayloadSplitter {
  import opened Sums

  const MAX_SPLIT_DEPTH := 2

  /** Serialized and compressed size of a list of series; compression never gives an
      empty result. */
  datatype Codec<!T> = Codec(serialized: seq<T> -> nat, zipped: seq<T> -> Size)

  type Size = n: nat | n > 0 witness 1

  /** Where a stretch of the input ends up, and how deep the call was that decided. */
  datatype Piece<T> = Sent(series: seq<T>, depth: nat) | Dropped(series: seq<T>, depth: nat)

  /** Python slicing stops at the end of the list. */
  function Slice<T>(s: seq<T>, from: nat, to: nat): seq<T> {
    var lo := if from < |s| then from else |s|;
    var hi := if to < |s| then to else |s|;
    if lo <= hi then s[lo..hi] else []
  }

  /** Where chunk `i` begins: at i * size. */
  function Offset(i: nat, size: nat): nat {
    if i == 0 then 0 else Offset(i - 1, size) + size
  }

  lemma {:induction false} OffsetIsProduct(i: nat, size: nat)
    ensures Offset(i, size) == i * size
  {
    if i > 0 {
      OffsetIsProduct(i - 1, size);
      assert i * size == (i - 1) * size + size;
    }
  }

  function Chunk<T>(s: seq<T>, size: nat, i: nat): seq<T> {
    Slice(s, Offset(i, size), Offset(i + 1, size))
  }

  /** From the compressed size and half the compression ratio. */
  function ChunkCount<T>(c: Codec<T>, series: seq<T>, max: Size): Size {
    Quotient(c.zipped(series), max) + 1 + Quotient(c.serialized(series), 2 * c.zipped(series))
  }

  /** How often `b` goes into `a`: what dividing whole numbers gives. */
  function Quotient(a: nat, b: Size): nat {
    if a < b then 0 else 1 + Quotient(a - b, b)
  }

  lemma {:induction false} QuotientOf(a: nat, b: Size, q: nat, r: nat)
    requires r < b && a == Offset(q, b) + r
    ensures Quotient(a, b) == q
  {
    if q > 0 {
      QuotientOf(a - b, b, q - 1, r);
    }
  }

  lemma {:induction false} QuotientTimes(a: nat, b: Size)
    ensures Offset(Quotient(a, b), b) <= a < Offset(Quotient(a, b), b) + b
  {
    if a >= b {
      QuotientTimes(a - b, b);
    }
  }

  method Divide(a: nat, b: Size) returns (q: nat)
    ensures q == Quotient(a, b)
  {
    q := a / b;
    assert a == q * b + a % b;
    OffsetIsProduct(q, b);
    QuotientOf(a, b, q, a % b);
  }

  function ChunkSize(length: nat, n: Size): nat {
    Quotient(length, n) + 1
  }

  /** `q` is `a` by `b`, rounded down. */
  predicate RoundsDown(a: nat, b: Size, q: nat) {
    Offset(q, b) <= a < Offset(q, b) + b
  }

  lemma RoundedDown(a: nat, b: Size, q: nat)
    requires RoundsDown(a, b, q)
    ensures Quotient(a, b) == q
  {
    QuotientOf(a, b, q, a - Offset(q, b));
  }

  /** The chunks as the source counts them: how often the limit goes into the compressed
      size, and one, and half the compression ratio, which is what goes into the
      serialized size of twice the compressed size. Each is one series longer than an even
      share; the divisions round down. */
  lemma ChunksAsCounted<T>(c: Codec<T>, series: seq<T>, max: Size, bySize: nat, byRatio: nat, share: nat)
    requires RoundsDown(c.zipped(series), max, bySize)
    requires RoundsDown(c.serialized(series), 2 * c.zipped(series), byRatio)
    requires RoundsDown(|series|, bySize + 1 + byRatio, share)
    ensures ChunkCount(c, series, max) == bySize + 1 + byRatio
    ensures ChunkSize(|series|, ChunkCount(c, series, max)) == share + 1
  {
    RoundedDown(c.zipped(series), max, bySize);
    RoundedDown(c.serialized(series), 2 * c.zipped(series), byRatio);
    RoundedDown(|series|, bySize + 1 + byRatio, share);
  }

  function Pieces<T>(c: Codec<T>, series: seq<T>, max: Size, depth: nat): seq<Piece<T>>
    decreases if depth <= MAX_SPLIT_DEPTH then MAX_SPLIT_DEPTH + 1 - depth else 0, 0
  {
    if c.zipped(series) < max then [Sent(series, depth)]
    else if depth > MAX_SPLIT_DEPTH then [Dropped(series, depth)]
    else
      var n := ChunkCount(c, series, max);
      Chunks(c, series, max, depth, ChunkSize(|series|, n), n)
  }

  /** The first `k` chunks of `size` series each, split further. */
  function Chunks<T>(c: Codec<T>, series: seq<T>, max: Size, depth: nat, size: nat, k: nat): seq<Piece<T>>
    requires depth <= MAX_SPLIT_DEPTH
    decreases MAX_SPLIT_DEPTH + 1 - depth, 0, k
  {
    if k == 0 then []
    else Chunks(c, series, max, depth, size, k - 1) + Pieces(c, Chunk(series, size, k - 1), max, depth + 1)
  }

  /** What is sent, in order. */
  function Payloads<T>(pieces: seq<Piece<T>>): seq<seq<T>> {
    if pieces == [] then []
    else Payloads(pieces[..|pieces| - 1]) + if pieces[|pieces| - 1].Sent? then [pieces[|pieces| - 1].series] else []
  }

  lemma {:induction false} PayloadsAppend<T>(xs: seq<Piece<T>>, ys: seq<Piece<T>>)
    ensures Payloads(xs + ys) == Payloads(xs) + Payloads(ys)
  {
    if ys == [] {
      assert xs + ys == xs;
    } else {
      var front := ys[..|ys| - 1];
      PayloadsAppend(xs, front);
      assert (xs + ys)[..|xs + ys| - 1] == xs + front;
    }
  }

  method SerializeAndCompress<T>(c: Codec<T>, series: seq<T>, max: Size, depth: nat) returns (payloads: seq<seq<T>>)
    ensures payloads == Payloads(Pieces(c, series, max, depth))
    decreases if depth <= MAX_SPLIT_DEPTH then MAX_SPLIT_DEPTH + 1 - depth else 0, 1
  {
    payloads := [];
    if c.zipped(series) < max {
      payloads := payloads + [series];
    } else {
      if depth > MAX_SPLIT_DEPTH {
        return;
      }
      var nChunks, perChunk := ChunkPlan(c, series, max);
      payloads := SplitChunks(c, series, max, depth, perChunk, nChunks);
    }
  }

  method ChunkPlan<T>(c: Codec<T>, series: seq<T>, max: Size) returns (nChunks: Size, perChunk: nat)
    ensures nChunks == ChunkCount(c, series, max) && perChunk == ChunkSize(|series|, nChunks)
  {
    var zipped, serialized := c.zipped(series), c.serialized(series);
    var bySize := Divide(zipped, max);
    var byRatio := Divide(serialized, 2 * zipped);
    nChunks := bySize + 1 + byRatio;
    var each := Divide(|series|, nChunks);
    perChunk := each + 1;
  }

  method ChunkAt<T>(series: seq<T>, perChunk: nat, i: nat) returns (chunk: seq<T>)
    ensures chunk == Chunk(series, perChunk, i)
  {
    OffsetIsProduct(i, perChunk);
    OffsetIsProduct(i + 1, perChunk);
    chunk := Slice(series, i * perChunk, (i + 1) * perChunk);
  }

  method SplitChunks<T>(c: Codec<T>, series: seq<T>, max: Size, depth: nat, perChunk: nat, nChunks: nat)
    returns (payloads: seq<seq<T>>)
    requires depth <= MAX_SPLIT_DEPTH
    ensures payloads == Payloads(Chunks(c, series, max, depth, perChunk, nChunks))
    decreases MAX_SPLIT_DEPTH + 1 - depth, 0
  {
    payloads := [];
    for i := 0 to nChunks
      invariant payloads == Payloads(Chunks(c, series, max, depth, perChunk, i))
    {
      var chunk := ChunkAt(series, perChunk, i);
      var more := SerializeAndCompress(c, chunk, max, depth + 1);
      PayloadsAppend(Chunks(c, series, max, depth, perChunk, i), Pieces(c, chunk, max, depth + 1));
      payloads := payloads + more;
    }
  }

  // ---- nothing is lost but what is dropped whole ----

  /** What the pieces hold, sent or not. */
  function Stretches<T>(pieces: seq<Piece<T>>): (r: seq<seq<T>>)
    ensures |r| == |pieces| && forall i :: 0 <= i < |pieces| ==> r[i] == pieces[i].series
  {
    seq(|pieces|, i requires 0 <= i < |pieces| => pieces[i].series)
  }

  function Concat<T>(pieces: seq<Piece<T>>): seq<T> {
    Flatten(Stretches(pieces))
  }

  lemma ConcatAppend<T>(xs: seq<Piece<T>>, ys: seq<Piece<T>>)
    ensures Concat(xs + ys) == Concat(xs) + Concat(ys)
  {
    FlattenAppend(Stretches(xs), Stretches(ys));
    assert Stretches(xs + ys) == Stretches(xs) + Stretches(ys);
  }

  lemma ConcatOne<T>(xs: seq<Piece<T>>, p: Piece<T>)
    ensures Concat(xs + [p]) == Concat(xs) + p.series
  {
    FlattenOne(Stretches(xs), p.series);
    assert Stretches(xs + [p]) == Stretches(xs) + [p.series];
  }

  /** `n` times one more than a quotient by `n`, and the quotient the other way around. */
  lemma {:induction false} OffsetSwaps(q: nat, n: nat)
    ensures Offset(n, q + 1) == Offset(q, n) + n
  {
    OffsetIsProduct(n, q + 1);
    OffsetIsProduct(q, n);
  }

  lemma ChunksCover(len: nat, n: Size)
    ensures Offset(n, ChunkSize(len, n)) >= len
  {
    QuotientTimes(len, n);
    OffsetSwaps(Quotient(len, n), n);
  }

  lemma SliceNext<T>(s: seq<T>, from: nat, to: nat)
    requires from <= to
    ensures Slice(s, 0, from) + Slice(s, from, to) == Slice(s, 0, to)
  {
  }

  lemma PartitionStep<T>(before: seq<Piece<T>>, more: seq<Piece<T>>, series: seq<T>, from: nat, to: nat)
    requires from <= to && Concat(before) == Slice(series, 0, from) && Concat(more) == Slice(series, from, to)
    ensures Concat(before + more) == Slice(series, 0, to)
  {
    ConcatAppend(before, more);
    SliceNext(series, from, to);
  }

  lemma {:induction false} ChunksPartition<T>(c: Codec<T>, series: seq<T>, max: Size, depth: nat, size: nat, k: nat)
    requires depth <= MAX_SPLIT_DEPTH
    ensures Concat(Chunks(c, series, max, depth, size, k)) == Slice(series, 0, Offset(k, size))
    decreases MAX_SPLIT_DEPTH + 1 - depth, 0, k
  {
    if k > 0 {
      var chunk := Chunk(series, size, k - 1);
      assert chunk == Slice(series, Offset(k - 1, size), Offset(k, size));
      ChunksPartition(c, series, max, depth, size, k - 1);
      Partition(c, chunk, max, depth + 1);
      PartitionStep(Chunks(c, series, max, depth, size, k - 1), Pieces(c, chunk, max, depth + 1), series,
                    Offset(k - 1, size), Offset(k, size));
    }
  }

  /** The pieces, sent or dropped, make up the input: every series once, in order. */
  lemma {:induction false} Partition<T>(c: Codec<T>, series: seq<T>, max: Size, depth: nat)
    ensures Concat(Pieces(c, series, max, depth)) == series
    decreases if depth <= MAX_SPLIT_DEPTH then MAX_SPLIT_DEPTH + 1 - depth else 0, 0
  {
    if c.zipped(series) >= max && depth <= MAX_SPLIT_DEPTH {
      var n := ChunkCount(c, series, max);
      ChunksPartition(c, series, max, depth, ChunkSize(|series|, n), n);
      ChunksCover(|series|, n);
    } else {
      var piece := Pieces(c, series, max, depth)[0];
      ConcatOne([], piece);
      assert Pieces(c, series, max, depth) == [] + [piece];
    }
  }

  /** Sent below the limit at most three levels down; dropped at the third, and only
      when still too big. */
  predicate Lawful<T>(c: Codec<T>, max: Size, piece: Piece<T>) {
    && piece.depth <= MAX_SPLIT_DEPTH + 1
    && (piece.Sent? ==> c.zipped(piece.series) < max)
    && (piece.Dropped? ==> c.zipped(piece.series) >= max && piece.depth == MAX_SPLIT_DEPTH + 1)
  }

  lemma {:induction false} ChunksLawful<T>(c: Codec<T>, series: seq<T>, max: Size, depth: nat, size: nat, k: nat)
    requires depth <= MAX_SPLIT_DEPTH
    ensures forall p :: p in Chunks(c, series, max, depth, size, k) ==> Lawful(c, max, p)
    decreases MAX_SPLIT_DEPTH + 1 - depth, 0, k
  {
    if k > 0 {
      ChunksLawful(c, series, max, depth, size, k - 1);
      PiecesLawful(c, Chunk(series, size, k - 1), max, depth + 1);
    }
  }

  lemma {:induction false} PiecesLawful<T>(c: Codec<T>, series: seq<T>, max: Size, depth: nat)
    requires depth <= MAX_SPLIT_DEPTH + 1
    ensures forall p :: p in Pieces(c, series, max, depth) ==> Lawful(c, max, p)
    decreases MAX_SPLIT_DEPTH + 1 - depth, 1
  {
    if c.zipped(series) >= max && depth <= MAX_SPLIT_DEPTH {
      var n := ChunkCount(c, series, max);
      ChunksLawful(c, series, max, depth, ChunkSize(|series|, n), n);
    }
  }

  function Lost<T>(pieces: seq<Piece<T>>): nat {
    if pieces == [] then 0
    else
      var last := pieces[|pieces| - 1];
      Lost(pieces[..|pieces| - 1]) + if last.Dropped? then |last.series| else 0
  }

  lemma {:induction false} SentAndLost<T>(pieces: seq<Piece<T>>)
    ensures |Flatten(Payloads(pieces))| + Lost(pieces) == |Concat(pieces)|
    ensures Lost(pieces) == 0 ==> Flatten(Payloads(pieces)) == Concat(pieces)
  {
    if pieces != [] {
      var front, last := pieces[..|pieces| - 1], pieces[|pieces| - 1];
      SentAndLost(front);
      ConcatOne(front, last);
      assert pieces == front + [last];
      if last.Sent? {
        FlattenOne(Payloads(front), last.series);
      } else {
        assert Payloads(front) + [] == Payloads(front);
      }
    }
  }

  /** What is sent, laid end to end, is the input exactly when no series was in a chunk
      dropped past the depth limit; otherwise it is short by just those. */
  lemma SentIsInputUnlessDropped<T>(c: Codec<T>, series: seq<T>, max: Size)
    ensures var pieces := Pieces(c, series, max, 0);
      && (Flatten(Payloads(pieces)) == series <==> Lost(pieces) == 0)
      && |Flatten(Payloads(pieces))| == |series| - Lost(pieces)
      && forall p :: p in pieces ==> Lawful(c, max, p)
  {
    Partition(c, series, max, 0);
    SentAndLost(Pieces(c, series, max, 0));
    PiecesLawful(c, series, max, 0);
  }

  // ---- when nothing is lost ----

  /** The longest chunk there can be: a split makes at least two. */
  function Halve(n: nat): nat {
    n / 2 + 1
  }

  function After(times: nat, n: nat): nat {
    if times == 0 then n else After(times - 1, Halve(n))
  }

  lemma {:induction false} AfterMonotone(times: nat, m: nat, n: nat)
    requires m <= n
    ensures After(times, m) <= After(times, n)
  {
    if times > 0 {
      AfterMonotone(times - 1, Halve(m), Halve(n));
    }
  }

  /** Every stretch of at most `m` of these series is below the limit. */
  ghost predicate StretchesFit<T>(c: Codec<T>, max: Size, s: seq<T>, m: nat) {
    forall from, to :: 0 <= from <= to <= |s| && to - from <= m ==> c.zipped(s[from..to]) < max
  }

  lemma ChunkFits<T>(c: Codec<T>, max: Size, s: seq<T>, m: nat, from: nat, to: nat, k: nat)
    requires StretchesFit(c, max, s, m) && k <= m
    ensures StretchesFit(c, max, Slice(s, from, to), k)
  {
    var t := Slice(s, from, to);
    forall i, j | 0 <= i <= j <= |t| && j - i <= k ensures c.zipped(t[i..j]) < max {
      if i == j {
        assert t[i..j] == s[0..0];
      } else {
        SliceOfSlice(s, from, if to < |s| then to else |s|, i, j);
      }
    }
  }

  lemma SliceOfSlice<T>(s: seq<T>, from: nat, to: nat, i: nat, j: nat)
    requires from <= to <= |s| && i <= j <= to - from
    ensures s[from..to][i..j] == s[from + i..from + j]
  {
    var a, b := s[from..to][i..j], s[from + i..from + j];
    assert |a| == |b| == j - i;
    forall k | 0 <= k < |a| ensures a[k] == b[k] {
      assert a[k] == s[from..to][i + k] == s[from + i + k] == b[k];
    }
  }

  lemma {:induction false} OffsetGrows(i: nat, size: nat, more: nat)
    requires size <= more
    ensures Offset(i, size) <= Offset(i, more)
  {
    if i > 0 {
      OffsetGrows(i - 1, size, more);
    }
  }

  /** A chunk has no more series than half of them and one. */
  lemma ChunkIsShort<T>(c: Codec<T>, series: seq<T>, max: Size, i: nat)
    requires c.zipped(series) >= max
    ensures var n := ChunkCount(c, series, max);
      n >= 2 && |Chunk(series, ChunkSize(|series|, n), i)| <= ChunkSize(|series|, n) <= Halve(|series|)
  {
    var n := ChunkCount(c, series, max);
    var q := Quotient(|series|, n);
    QuotientTimes(|series|, n);
    OffsetGrows(q, 2, n);
    OffsetIsProduct(q, 2);
  }

  ghost predicate AllFit<T>(c: Codec<T>, max: Size, s: seq<T>, left: nat) {
    StretchesFit(c, max, s, After(left, |s|))
  }

  /** What fits of the stretches of the series fits of those of a chunk, one level down. */
  lemma ChunkStretchesFit<T>(c: Codec<T>, series: seq<T>, max: Size, left: nat, i: nat)
    requires c.zipped(series) >= max && AllFit(c, max, series, left + 1)
    ensures AllFit(c, max, Chunk(series, ChunkSize(|series|, ChunkCount(c, series, max)), i), left)
  {
    var size := ChunkSize(|series|, ChunkCount(c, series, max));
    var chunk := Chunk(series, size, i);
    ChunkIsShort(c, series, max, i);
    AfterMonotone(left, |chunk|, Halve(|series|));
    ChunkFits(c, max, series, After(left + 1, |series|), Offset(i, size), Offset(i + 1, size), After(left, |chunk|));
  }

  lemma {:induction false} ChunksLoseNothing<T>(c: Codec<T>, series: seq<T>, max: Size, depth: nat, size: nat, k: nat)
    requires depth <= MAX_SPLIT_DEPTH
    requires forall i: nat :: Lost(Pieces(c, Chunk(series, size, i), max, depth + 1)) == 0
    ensures Lost(Chunks(c, series, max, depth, size, k)) == 0
    decreases k
  {
    if k > 0 {
      ChunksLoseNothing(c, series, max, depth, size, k - 1);
      LostAppend(Chunks(c, series, max, depth, size, k - 1), Pieces(c, Chunk(series, size, k - 1), max, depth + 1));
    }
  }

  lemma FittingLosesNothing<T>(c: Codec<T>, series: seq<T>, max: Size, depth: nat)
    requires c.zipped(series) < max
    ensures Lost(Pieces(c, series, max, depth)) == 0
  {
    assert Pieces(c, series, max, depth)[..0] == [];
  }

  lemma {:induction false} LosesNothing<T>(c: Codec<T>, series: seq<T>, max: Size, depth: nat)
    requires depth <= MAX_SPLIT_DEPTH + 1 && AllFit(c, max, series, MAX_SPLIT_DEPTH + 1 - depth)
    ensures Lost(Pieces(c, series, max, depth)) == 0
    decreases MAX_SPLIT_DEPTH + 1 - depth
  {
    if c.zipped(series) >= max && depth <= MAX_SPLIT_DEPTH {
      var n := ChunkCount(c, series, max);
      var size := ChunkSize(|series|, n);
      forall i: nat ensures Lost(Pieces(c, Chunk(series, size, i), max, depth + 1)) == 0 {
        ChunkStretchesFit(c, series, max, MAX_SPLIT_DEPTH - depth, i);
        LosesNothing(c, Chunk(series, size, i), max, depth + 1);
      }
      ChunksLoseNothing(c, series, max, depth, size, n);
    } else {
      assert series[0..|series|] == series;
      FittingLosesNothing(c, series, max, depth);
    }
  }

  /** Everything is sent, in order, when each stretch of the input of at most a length
      fits: the length of the input halved, and one added, three times over. */
  lemma SmallStretchesAreSent<T>(c: Codec<T>, series: seq<T>, max: Size)
    requires AllFit(c, max, series, MAX_SPLIT_DEPTH + 1)
    ensures Flatten(Payloads(Pieces(c, series, max, 0))) == series
  {
    LosesNothing(c, series, max, 0);
    SentIsInputUnlessDropped(c, series, max);
  }

  /** The length cannot be greater: when the first series that a number of halvings leave
      never fit, and are always cut in two, they are lost. */
  ghost predicate FirstStaysBig<T>(c: Codec<T>, max: Size, series: seq<T>, depth: nat)
    decreases MAX_SPLIT_DEPTH + 1 - depth
  {
    c.zipped(series) >= max
    && (depth <= MAX_SPLIT_DEPTH ==>
          ChunkCount(c, series, max) == 2 && FirstStaysBig(c, max, Slice(series, 0, Halve(|series|)), depth + 1))
  }

  lemma {:induction false} BigStretchIsLost<T>(c: Codec<T>, series: seq<T>, max: Size, depth: nat)
    requires depth <= MAX_SPLIT_DEPTH + 1 && series != [] && FirstStaysBig(c, max, series, depth)
    ensures Lost(Pieces(c, series, max, depth)) >= After(MAX_SPLIT_DEPTH + 1 - depth, |series|)
    decreases MAX_SPLIT_DEPTH + 1 - depth
  {
    var pieces := Pieces(c, series, max, depth);
    if depth > MAX_SPLIT_DEPTH {
      assert pieces[..0] == [];
    } else {
      BigStretchIsLost(c, Slice(series, 0, Halve(|series|)), max, depth + 1);
      HalvesIn(|series|);
      FirstChunk(c, series, max, depth, Halve(|series|), 2);
    }
  }

  lemma HalvesIn(length: nat)
    ensures ChunkSize(length, 2) == Halve(length)
  {
    OffsetIsProduct(length / 2, 2);
    QuotientOf(length, 2, length / 2, length % 2);
  }

  /** At least what the first chunk loses is lost. */
  lemma {:induction false} FirstChunk<T>(c: Codec<T>, series: seq<T>, max: Size, depth: nat, size: nat, k: nat)
    requires depth <= MAX_SPLIT_DEPTH && k > 0
    ensures Lost(Chunks(c, series, max, depth, size, k)) >= Lost(Pieces(c, Slice(series, 0, size), max, depth + 1))
    decreases k
  {
    var before := Chunks(c, series, max, depth, size, k - 1);
    var more := Pieces(c, Chunk(series, size, k - 1), max, depth + 1);
    LostAppend(before, more);
    if k > 1 {
      FirstChunk(c, series, max, depth, size, k - 1);
    } else {
      assert before == [] && Chunk(series, size, 0) == Slice(series, 0, size);
    }
  }

  // ---- the exact condition: the first chunks ----

  function FirstOf<T>(c: Codec<T>, max: Size, series: seq<T>): seq<T> {
    Slice(series, 0, ChunkSize(|series|, ChunkCount(c, series, max)))
  }

  /** The series, its first chunk, the first chunk of that, or once more so, is below the
      limit. */
  predicate FirstFits<T>(c: Codec<T>, max: Size, series: seq<T>, depth: nat)
    decreases if depth <= MAX_SPLIT_DEPTH then MAX_SPLIT_DEPTH + 1 - depth else 0
  {
    c.zipped(series) < max || (depth <= MAX_SPLIT_DEPTH && FirstFits(c, max, FirstOf(c, max, series), depth + 1))
  }

  /** Whatever the sizes: when none of these is, something is lost. */
  lemma {:induction false} FirstThatNeverFitsIsLost<T>(c: Codec<T>, series: seq<T>, max: Size, depth: nat)
    requires depth <= MAX_SPLIT_DEPTH + 1 && series != [] && !FirstFits(c, max, series, depth)
    ensures Lost(Pieces(c, series, max, depth)) > 0
    decreases MAX_SPLIT_DEPTH + 1 - depth
  {
    if depth > MAX_SPLIT_DEPTH {
      assert Pieces(c, series, max, depth)[..0] == [];
    } else {
      var n := ChunkCount(c, series, max);
      FirstThatNeverFitsIsLost(c, FirstOf(c, max, series), max, depth + 1);
      FirstChunk(c, series, max, depth, ChunkSize(|series|, n), n);
    }
  }

  /** Of lists up to a length, a longer one is never smaller when compressed, nor cut
      into shorter chunks when too big. */
  ghost predicate Growing<T(!new)>(c: Codec<T>, max: Size, length: nat) {
    && (forall s, t :: |s| <= |t| <= length ==> c.zipped(s) <= c.zipped(t))
    && (forall s, t :: |s| <= |t| <= length && c.zipped(s) >= max ==>
          ChunkSize(|s|, ChunkCount(c, s, max)) <= ChunkSize(|t|, ChunkCount(c, t, max)))
  }

  lemma {:induction false} ShorterFits<T(!new)>(c: Codec<T>, max: Size, s: seq<T>, t: seq<T>, length: nat, depth: nat)
    requires Growing(c, max, length) && |s| <= |t| <= length && FirstFits(c, max, t, depth)
    ensures FirstFits(c, max, s, depth)
    decreases if depth <= MAX_SPLIT_DEPTH then MAX_SPLIT_DEPTH + 1 - depth else 0
  {
    if c.zipped(s) >= max {
      assert c.zipped(t) >= c.zipped(s);
      ShorterFits(c, max, FirstOf(c, max, s), FirstOf(c, max, t), length, depth + 1);
    }
  }

  lemma ChunkNoLonger<T>(series: seq<T>, size: nat, i: nat)
    ensures |Chunk(series, size, i)| <= |Slice(series, 0, size)| <= |series|
  {
  }

  lemma {:induction false} FirstFitsLosesNothing<T(!new)>(c: Codec<T>, series: seq<T>, max: Size, length: nat,
                                                          depth: nat)
    requires Growing(c, max, length) && |series| <= length && depth <= MAX_SPLIT_DEPTH + 1
    requires FirstFits(c, max, series, depth)
    ensures Lost(Pieces(c, series, max, depth)) == 0
    decreases MAX_SPLIT_DEPTH + 1 - depth
  {
    if c.zipped(series) >= max {
      var n := ChunkCount(c, series, max);
      var size := ChunkSize(|series|, n);
      forall i: nat ensures Lost(Pieces(c, Chunk(series, size, i), max, depth + 1)) == 0 {
        ChunkNoLonger(series, size, i);
        ShorterFits(c, max, Chunk(series, size, i), FirstOf(c, max, series), length, depth + 1);
        FirstFitsLosesNothing(c, Chunk(series, size, i), max, length, depth + 1);
      }
      ChunksLoseNothing(c, series, max, depth, size, n);
    } else {
      FittingLosesNothing(c, series, max, depth);
    }
  }

  /** When longer is not smaller, all is sent if and only if the series, or one of its
      first chunks down to the last level, is below the limit. */
  lemma SentExactlyWhen<T(!new)>(c: Codec<T>, series: seq<T>, max: Size)
    requires Growing(c, max, |series|)
    ensures Flatten(Payloads(Pieces(c, series, max, 0))) == series <==> series == [] || FirstFits(c, max, series, 0)
  {
    SentIsInputUnlessDropped(c, series, max);
    if FirstFits(c, max, series, 0) {
      FirstFitsLosesNothing(c, series, max, |series|, 0);
    } else if series != [] {
      FirstThatNeverFitsIsLost(c, series, max, 0);
    }
  }

  // ---- the exact condition when sizes go by length ----

  ghost predicate ByLength<T(!new)>(c: Codec<T>) {
    forall s, t :: |s| == |t| ==> c.zipped(s) == c.zipped(t) && c.serialized(s) == c.serialized(t)
  }

  /** Of the chunks that are not empty, the last. */
  function LastOf<T>(c: Codec<T>, max: Size, series: seq<T>): seq<T>
    requires series != []
  {
    var size := ChunkSize(|series|, ChunkCount(c, series, max));
    Slice(series, Offset(Quotient(|series| - 1, size), size), |series|)
  }

  /** The series is below the limit, or both its first and its last chunk are, or come to
      be by further cuts. */
  predicate EdgesFit<T>(c: Codec<T>, max: Size, series: seq<T>, depth: nat)
    decreases if depth <= MAX_SPLIT_DEPTH then MAX_SPLIT_DEPTH + 1 - depth else 0
  {
    c.zipped(series) < max || series == []
    || (depth <= MAX_SPLIT_DEPTH && EdgesFit(c, max, FirstOf(c, max, series), depth + 1)
        && EdgesFit(c, max, LastOf(c, max, series), depth + 1))
  }

  lemma SameCuts<T(!new)>(c: Codec<T>, max: Size, s: seq<T>, t: seq<T>)
    requires ByLength(c) && |s| == |t| > 0
    ensures |FirstOf(c, max, s)| == |FirstOf(c, max, t)| && |LastOf(c, max, s)| == |LastOf(c, max, t)|
  {
    assert c.zipped(s) == c.zipped(t) && c.serialized(s) == c.serialized(t);
  }

  lemma {:induction false} SameLengthFits<T(!new)>(c: Codec<T>, max: Size, s: seq<T>, t: seq<T>, depth: nat)
    requires ByLength(c) && |s| == |t| && EdgesFit(c, max, s, depth)
    ensures EdgesFit(c, max, t, depth)
    decreases if depth <= MAX_SPLIT_DEPTH then MAX_SPLIT_DEPTH + 1 - depth else 0
  {
    assert c.zipped(s) == c.zipped(t);
    if s != [] && c.zipped(s) >= max {
      SameCuts(c, max, s, t);
      SameLengthFits(c, max, FirstOf(c, max, s), FirstOf(c, max, t), depth + 1);
      SameLengthFits(c, max, LastOf(c, max, s), LastOf(c, max, t), depth + 1);
    }
  }

  lemma {:induction false} OffsetOrder(i: nat, j: nat, size: nat)
    requires i <= j
    ensures Offset(i, size) <= Offset(j, size)
  {
    if i < j {
      OffsetOrder(i, j - 1, size);
    }
  }

  /** A chunk is full, or it is the last, or it is empty. */
  lemma ChunkShapes<T>(series: seq<T>, size: Size, i: nat)
    requires series != []
    ensures var q := Quotient(|series| - 1, size);
      && (i < q ==> |Chunk(series, size, i)| == size == |Slice(series, 0, size)|)
      && (i == q ==> Chunk(series, size, i) == Slice(series, Offset(q, size), |series|))
      && (i > q ==> Chunk(series, size, i) == [])
  {
    var q := Quotient(|series| - 1, size);
    QuotientTimes(|series| - 1, size);
    if i < q {
      OffsetOrder(i + 1, q, size);
    } else if i > q {
      OffsetOrder(q + 1, i, size);
    }
  }

  lemma EdgesFitChunks<T(!new)>(c: Codec<T>, series: seq<T>, max: Size, depth: nat, i: nat)
    requires ByLength(c) && series != [] && depth <= MAX_SPLIT_DEPTH
    requires c.zipped(series) >= max && EdgesFit(c, max, series, depth)
    ensures EdgesFit(c, max, Chunk(series, ChunkSize(|series|, ChunkCount(c, series, max)), i), depth + 1)
  {
    var size := ChunkSize(|series|, ChunkCount(c, series, max));
    ChunkShapes(series, size, i);
    if i < Quotient(|series| - 1, size) {
      SameLengthFits(c, max, FirstOf(c, max, series), Chunk(series, size, i), depth + 1);
    }
  }

  lemma {:induction false} EdgesFitLosesNothing<T(!new)>(c: Codec<T>, series: seq<T>, max: Size, depth: nat)
    requires ByLength(c) && depth <= MAX_SPLIT_DEPTH + 1 && EdgesFit(c, max, series, depth)
    ensures Lost(Pieces(c, series, max, depth)) == 0
    decreases MAX_SPLIT_DEPTH + 1 - depth
  {
    if series == [] {
      EmptyLosesNothing(c, series, max, depth);
    } else if c.zipped(series) >= max {
      var n := ChunkCount(c, series, max);
      var size := ChunkSize(|series|, n);
      forall i: nat ensures Lost(Pieces(c, Chunk(series, size, i), max, depth + 1)) == 0 {
        EdgesFitChunks(c, series, max, depth, i);
        EdgesFitLosesNothing(c, Chunk(series, size, i), max, depth + 1);
      }
      ChunksLoseNothing(c, series, max, depth, size, n);
    } else {
      FittingLosesNothing(c, series, max, depth);
    }
  }

  lemma EmptyLosesNothing<T>(c: Codec<T>, series: seq<T>, max: Size, depth: nat)
    requires series == []
    ensures Lost(Pieces(c, series, max, depth)) == 0
  {
    Partition(c, series, max, depth);
    SentAndLost(Pieces(c, series, max, depth));
  }

  /** What one of the chunks loses is lost. */
  lemma {:induction false} ChunkIsLost<T>(c: Codec<T>, series: seq<T>, max: Size, depth: nat, size: nat, k: nat, i: nat)
    requires depth <= MAX_SPLIT_DEPTH && i < k && Lost(Pieces(c, Chunk(series, size, i), max, depth + 1)) > 0
    ensures Lost(Chunks(c, series, max, depth, size, k)) > 0
    decreases k
  {
    var before := Chunks(c, series, max, depth, size, k - 1);
    var more := Pieces(c, Chunk(series, size, k - 1), max, depth + 1);
    LostAppend(before, more);
    assert Chunks(c, series, max, depth, size, k) == before + more;
    if i < k - 1 {
      ChunkIsLost(c, series, max, depth, size, k - 1, i);
    }
  }

  /** Whatever the sizes: when they do not fit, something is lost. */
  lemma {:induction false} EdgesThatNeverFitAreLost<T>(c: Codec<T>, series: seq<T>, max: Size, depth: nat)
    requires depth <= MAX_SPLIT_DEPTH + 1 && !EdgesFit(c, max, series, depth)
    ensures Lost(Pieces(c, series, max, depth)) > 0
    decreases MAX_SPLIT_DEPTH + 1 - depth
  {
    if depth > MAX_SPLIT_DEPTH {
      assert Pieces(c, series, max, depth)[..0] == [];
    } else {
      var n := ChunkCount(c, series, max);
      var size := ChunkSize(|series|, n);
      var q := Quotient(|series| - 1, size);
      if !EdgesFit(c, max, FirstOf(c, max, series), depth + 1) {
        EdgesThatNeverFitAreLost(c, FirstOf(c, max, series), max, depth + 1);
        FirstChunk(c, series, max, depth, size, n);
      } else {
        EdgesThatNeverFitAreLost(c, LastOf(c, max, series), max, depth + 1);
        ChunkShapes(series, size, q);
        LastIsCut(|series|, n);
        ChunkIsLost(c, series, max, depth, size, n, q);
      }
    }
  }

  lemma LastIsCut(length: nat, n: Size)
    requires length > 0
    ensures Quotient(length - 1, ChunkSize(length, n)) < n
  {
    var size := ChunkSize(length, n);
    var q := Quotient(length - 1, size);
    ChunksCover(length, n);
    QuotientTimes(length - 1, size);
    if q >= n {
      OffsetOrder(n, q, size);
    }
  }

  /** When sizes go by length, all is sent if and only if the first and the last chunks
      fit. */
  lemma SentExactlyByLength<T(!new)>(c: Codec<T>, series: seq<T>, max: Size)
    requires ByLength(c)
    ensures Flatten(Payloads(Pieces(c, series, max, 0))) == series <==> EdgesFit(c, max, series, 0)
  {
    SentIsInputUnlessDropped(c, series, max);
    if EdgesFit(c, max, series, 0) {
      EdgesFitLosesNothing(c, series, max, 0);
    } else {
      EdgesThatNeverFitAreLost(c, series, max, 0);
    }
  }

  // ---- splitting may make no progress ----

  /** Two series cut in two chunks stay together: the first chunk has room for
      len / 2 + 1. So they are sent together or, even if each would fit, not at all. */
  lemma {:induction false} PairStaysTogether<T>(c: Codec<T>, pair: seq<T>, max: Size, depth: nat)
    requires |pair| == 2 && ChunkCount(c, pair, max) == 2 && depth <= MAX_SPLIT_DEPTH + 1
    ensures var pieces := Pieces(c, pair, max, depth);
      if c.zipped(pair) < max then pieces == [Sent(pair, depth)]
      else Lost(pieces) == 2 && Flatten(Payloads(pieces)) == []
    decreases MAX_SPLIT_DEPTH + 1 - depth
  {
    var pieces := Pieces(c, pair, max, depth);
    if c.zipped(pair) >= max {
      Partition(c, pair, max, depth);
      SentAndLost(pieces);
      if depth > MAX_SPLIT_DEPTH {
        assert pieces[..0] == [];
      } else {
        PairStaysTogether(c, pair, max, depth + 1);
        PairChunks(c, pair, max, depth);
        assert ChunkSize(2, 2) == 2;
        LostAppend(Pieces(c, pair, max, depth + 1), Pieces(c, [], max, depth + 1));
      }
    }
  }

  lemma PairInThree(n: Size)
    requires n >= 3
    ensures ChunkSize(2, n) == 1
  {
  }

  lemma ApartFits<T>(c: Codec<T>, pair: seq<T>, max: Size, i: nat)
    requires |pair| == 2 && c.zipped(pair[..1]) < max && c.zipped(pair[1..]) < max && c.zipped([]) < max
    ensures c.zipped(Chunk(pair, 1, i)) < max
  {
    OffsetIsProduct(i, 1);
    OffsetIsProduct(i + 1, 1);
    assert Chunk(pair, 1, i) == if i == 0 then pair[..1] else if i == 1 then pair[1..] else [];
  }

  /** When each of a pair fits, and so does nothing, a pair that is too big is sent
      exactly when it is cut in three chunks or more. */
  lemma PairSentExactly<T>(c: Codec<T>, pair: seq<T>, max: Size)
    requires |pair| == 2 && c.zipped(pair) >= max
    requires c.zipped(pair[..1]) < max && c.zipped(pair[1..]) < max && c.zipped([]) < max
    ensures Flatten(Payloads(Pieces(c, pair, max, 0))) == pair <==> ChunkCount(c, pair, max) >= 3
  {
    var n := ChunkCount(c, pair, max);
    SentIsInputUnlessDropped(c, pair, max);
    if n >= 3 {
      PairInThree(n);
      forall i: nat ensures Lost(Pieces(c, Chunk(pair, 1, i), max, 1)) == 0 {
        ApartFits(c, pair, max, i);
        FittingLosesNothing(c, Chunk(pair, 1, i), max, 1);
      }
      ChunksLoseNothing(c, pair, max, 0, 1, n);
    } else {
      ChunkIsShort(c, pair, max, 0);
      PairStaysTogether(c, pair, max, 0);
    }
  }

  /** And there are such pairs that are lost. */
  lemma PairMayBeLost(a: int, b: int)
    ensures exists c: Codec<int>, max: Size ::
      && c.zipped([a]) < max && c.zipped([b]) < max && c.zipped([]) < max
      && Flatten(Payloads(Pieces(c, [a, b], max, 0))) == []
  {
    var c := Codec((s: seq<int>) => 2 * |s| + 1, (s: seq<int>) => |s| + 1);
    assert ChunkCount(c, [a, b], 3) == 2;
    PairStaysTogether(c, [a, b], 3, 0);
  }

  /** Of its two chunks the first is the pair and the second is empty. */
  lemma PairChunks<T>(c: Codec<T>, pair: seq<T>, max: Size, depth: nat)
    requires |pair| == 2 && depth <= MAX_SPLIT_DEPTH
    ensures Chunks(c, pair, max, depth, 2, 2) == Pieces(c, pair, max, depth + 1) + Pieces(c, [], max, depth + 1)
  {
    assert Chunk(pair, 2, 0) == pair && Chunk(pair, 2, 1) == [];
    assert Chunks(c, pair, max, depth, 2, 0) == [];
    assert Chunks(c, pair, max, depth, 2, 1) == Pieces(c, pair, max, depth + 1);
  }

  lemma {:induction false} LostAppend<T>(xs: seq<Piece<T>>, ys: seq<Piece<T>>)
    ensures Lost(xs + ys) == Lost(xs) + Lost(ys)
  {
    if ys == [] {
      assert xs + ys == xs;
    } else {
      var front := ys[..|ys| - 1];
      LostAppend(xs, front);
      assert (xs + ys)[..|xs + ys| - 1] == xs + front;
    }
  }
}
