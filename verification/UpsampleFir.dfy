/**
 The polyphase filter that raises call audio from 8 or 16 kHz to 48 kHz. It keeps the last 23 samples
 between calls, so that a stream may be processed in pieces of any size.
 */
module UpsampleFir {
  const TAPS := 24
  const HISTORY := TAPS - 1

  type Sample = x: int | -0x8000 <= x < 0x8000

  /** One row of coefficients per output phase. */
  const COEF_8K: seq<seq<int>> := [
    [64, -311, 210, -320, 363, -407, 410, -356, 196, 191, -1369, 30721, 3861, -2265, 1680, -1321, 1049, -823, 625, -471, 297, -327, 34, 19],
    [72, -254, 75, -117, 46, 58, -256, 583, -1141, 2197, -4866, 28131, 10285, -4611, 2935, -2061, 1489, -1075, 755, -523, 310, -291, -19, 31],
    [65, -175, -73, 84, -245, 457, -786, 1276, -2040, 3377, -6428, 23348, 17094, -6200, 3592, -2347, 1588, -1073, 703, -447, 236, -203, -92, 49],
    [49, -92, -203, 236, -447, 703, -1073, 1588, -2347, 3592, -6200, 17094, 23348, -6428, 3377, -2040, 1276, -786, 457, -245, 84, -73, -175, 65],
    [31, -19, -291, 310, -523, 755, -1075, 1489, -2061, 2935, -4611, 10285, 28131, -4866, 2197, -1141, 583, -256, 58, 46, -117, 75, -254, 72],
    [19, 34, -327, 297, -471, 625, -823, 1049, -1321, 1680, -2265, 3861, 30721, -1369, 191, 196, -356, 410, -407, 363, -320, 210, -311, 64]
  ]

  const COEF_16K: seq<seq<int>> := [
    [1, -291, 248, -327, 383, -405, 362, -212, -129, 875, -2948, 29344, 7324, -3795, 2603, -1913, 1418, -1031, 722, -478, 292, -220, -86, 16],
    [26, -212, 6, 45, -185, 414, -764, 1290, -2099, 3470, -6431, 20320, 20320, -6431, 3470, -2099, 1290, -764, 414, -185, 45, 6, -212, 26],
    [16, -86, -220, 292, -478, 722, -1031, 1418, -1913, 2603, -3795, 7324, 29344, -2948, 875, -129, -212, 362, -405, 383, -327, 248, -291, 1]
  ]

  predicate ValidRatio(ratio: nat) { ratio == 3 || ratio == 6 }

  function Row(ratio: nat, phase: nat): (r: seq<int>)
    requires ValidRatio(ratio) && phase < ratio
    ensures |r| == TAPS
  {
    if ratio == 6 then COEF_8K[phase] else COEF_16K[phase]
  }

  /** The value a 32-bit two's complement accumulator holds. */
  function Wrap32(x: int): (r: int)
    ensures -0x8000_0000 <= r < 0x8000_0000
    ensures -0x8000_0000 <= x < 0x8000_0000 ==> r == x
  {
    (x + 0x8000_0000) % 0x1_0000_0000 - 0x8000_0000
  }

  lemma WrapAbsorbs(x: int, y: int)
    ensures Wrap32(Wrap32(x) + y) == Wrap32(x + y)
  {
    var q := (x + 0x8000_0000) / 0x1_0000_0000;
    assert Wrap32(x) == x - q * 0x1_0000_0000;
  }

  /** The sum over the first `n` taps of the window that starts at `at`. */
  ghost function Sum(xs: seq<Sample>, at: nat, row: seq<int>, n: nat): int
    requires at + n <= |xs| && n <= |row|
  {
    if n == 0 then 0 else Sum(xs, at, row, n - 1) + xs[at + n - 1] * row[n - 1]
  }

  /** The high half of the accumulator. */
  function HighHalf(acc: int): (r: Sample)
    requires -0x8000_0000 <= acc < 0x8000_0000
  {
    acc / 0x1_0000
  }

  ghost function Phase(xs: seq<Sample>, at: nat, ratio: nat, phase: nat): Sample
    requires ValidRatio(ratio) && phase < ratio && at + TAPS <= |xs|
  {
    HighHalf(Wrap32(Sum(xs, at, Row(ratio, phase), TAPS)))
  }

  /** The outputs of the first `n` phases at one input sample. */
  ghost function Phases(xs: seq<Sample>, at: nat, ratio: nat, n: nat): (r: seq<Sample>)
    requires ValidRatio(ratio) && n <= ratio && at + TAPS <= |xs|
    ensures |r| == n
  {
    seq(n, p requires 0 <= p < n => Phase(xs, at, ratio, p))
  }

  /** All outputs for the first `n` windows of `xs`. */
  ghost function Filtered(xs: seq<Sample>, ratio: nat, n: nat): seq<Sample>
    requires ValidRatio(ratio) && n + HISTORY <= |xs|
  {
    if n == 0 then [] else Filtered(xs, ratio, n - 1) + Phases(xs, n - 1, ratio, ratio)
  }

  /** The samples kept for the next call. */
  function Kept(xs: seq<Sample>): (r: seq<Sample>)
    requires |xs| >= HISTORY
    ensures |r| == HISTORY
  {
    xs[|xs| - HISTORY..]
  }

  class Upsampler {
    const ratio: nat
    const history: array<Sample>

    ghost predicate Valid()
      reads this
    {
      ValidRatio(ratio) && history.Length == HISTORY
    }

    constructor (ratio: nat)
      requires ValidRatio(ratio)
      ensures Valid() && this.ratio == ratio && history[..] == seq(HISTORY, _ => 0) && fresh(history)
    {
      this.ratio := ratio;
      history := new Sample[HISTORY](_ => 0);
    }

    /** One tap after the other into a 32-bit accumulator. */
    method Accumulate(src: array<Sample>, n: nat, inIdx: nat, row: seq<int>) returns (acc: int)
      requires Valid() && inIdx < n <= src.Length && |row| == TAPS
      ensures acc == Wrap32(Sum(history[..] + src[..n], inIdx, row, TAPS))
    {
      ghost var xs := history[..] + src[..n];
      acc := 0;
      for k := 0 to TAPS
        invariant acc == Wrap32(Sum(xs, inIdx, row, k))
      {
        var i := k + inIdx;
        var para := if i < HISTORY then history[i] else src[i - HISTORY];
        assert para == xs[i];
        WrapAbsorbs(Sum(xs, inIdx, row, k), para * row[k]);
        acc := Wrap32(acc + para * row[k]);
      }
    }

    /** All phases at input sample `i`, written from `at` on. */
    method FilterOne(src: array<Sample>, n: nat, i: nat, dst: array<Sample>, at: nat) returns (next: nat)
      requires Valid() && i < n <= src.Length && at + ratio <= dst.Length
      requires src != dst && dst != history
      modifies dst
      ensures next == at + ratio
      ensures dst[..next] == old(dst[..at]) + Phases(history[..] + src[..n], i, ratio, ratio)
      ensures dst[next..] == old(dst[next..])
    {
      ghost var xs := history[..] + src[..n];
      next := at;
      for p := 0 to ratio
        invariant next == at + p
        invariant dst[..next] == old(dst[..at]) + Phases(xs, i, ratio, p)
        invariant forall k :: next <= k < dst.Length ==> dst[k] == old(dst[k])
      {
        var acc := Accumulate(src, n, i, Row(ratio, p));
        dst[next] := HighHalf(acc);
        next := next + 1;
        assert dst[..next] == dst[..next - 1] + [Phase(xs, i, ratio, p)];
      }
    }

    /** Filters `n` samples into `dst` and updates the history. */
    method Run(src: array<Sample>, dst: array<Sample>, n: nat) returns (count: nat)
      requires Valid() && n <= src.Length && n * ratio <= dst.Length
      requires src != dst && src != history && dst != history
      modifies dst, history
      ensures Valid() && count == n * ratio
      ensures dst[..count] == Filtered(old(history[..]) + src[..n], ratio, n)
      ensures dst[count..] == old(dst[count..])
      ensures history[..] == Kept(old(history[..]) + src[..n])
    {
      ghost var xs := history[..] + src[..n];
      count := 0;
      for i := 0 to n
        invariant count == i * ratio <= n * ratio && history[..] == old(history[..])
        invariant dst[..count] == Filtered(xs, ratio, i)
        invariant forall k :: count <= k < dst.Length ==> dst[k] == old(dst[k])
      {
        assert (i + 1) * ratio <= n * ratio;
        count := FilterOne(src, n, i, dst, count);
        hide Phases;
      }
      Keep(src, n);
    }

    /** Shifts the newest samples into the history; a short input leaves part of the old one. */
    method Keep(src: array<Sample>, n: nat)
      requires Valid() && n <= src.Length && src != history
      modifies history
      ensures history[..] == Kept(old(history[..]) + src[..n])
    {
      ghost var xs := history[..] + src[..n];
      if n >= HISTORY {
        CopySamples(history, 0, src, n - HISTORY, HISTORY);
      } else {
        var start := HISTORY - n;
        ShiftDown(history, n, start);
        CopySamples(history, start, src, 0, n);
      }
    }
  }

  method CopySamples(dst: array<Sample>, to: nat, src: array<Sample>, from: nat, len: nat)
    requires dst != src && to + len <= dst.Length && from + len <= src.Length
    modifies dst
    ensures dst[..] == old(dst[..to]) + src[from..from + len] + old(dst[to + len..])
  {
    for i := 0 to len
      invariant dst[..] == old(dst[..to]) + src[from..from + i] + old(dst[to + i..])
    {
      dst[to + i] := src[from + i];
    }
  }

  /** Moves `len` samples from index `gap` to the front, in place and in ascending order. */
  method ShiftDown(buf: array<Sample>, gap: nat, len: nat)
    requires gap + len <= buf.Length
    modifies buf
    ensures buf[..] == old(buf[gap..gap + len]) + old(buf[len..])
  {
    for i := 0 to len
      invariant forall k :: 0 <= k < i ==> buf[k] == old(buf[gap + k])
      invariant forall k :: i <= k < buf.Length ==> buf[k] == old(buf[k])
    {
      buf[i] := buf[gap + i];
    }
  }

  // ----- Pieces of a stream give what the whole stream gives. -----

  lemma {:induction false} SumShifted(xs: seq<Sample>, ys: seq<Sample>, gap: nat, at: nat, row: seq<int>, n: nat)
    requires gap + at + n <= |xs| && at + n <= |ys| && n <= |row|
    requires forall k :: at <= k < at + n ==> ys[k] == xs[gap + k]
    ensures Sum(ys, at, row, n) == Sum(xs, gap + at, row, n)
    decreases n
  {
    if n > 0 {
      SumShifted(xs, ys, gap, at, row, n - 1);
      assert ys[at + n - 1] == xs[gap + (at + n - 1)];
    }
  }

  lemma PhasesShifted(xs: seq<Sample>, ys: seq<Sample>, gap: nat, at: nat, ratio: nat)
    requires ValidRatio(ratio) && gap + at + TAPS <= |xs| && at + TAPS <= |ys|
    requires forall k :: at <= k < at + TAPS ==> ys[k] == xs[gap + k]
    ensures Phases(ys, at, ratio, ratio) == Phases(xs, gap + at, ratio, ratio)
  {
    forall p | 0 <= p < ratio ensures Phase(ys, at, ratio, p) == Phase(xs, gap + at, ratio, p) {
      SumShifted(xs, ys, gap, at, Row(ratio, p), TAPS);
    }
  }

  lemma LastWindow(xs: seq<Sample>, ratio: nat, m: nat, n: nat)
    requires ValidRatio(ratio) && m + n + HISTORY <= |xs| && n > 0
    ensures Filtered(xs, ratio, m + n)
         == Filtered(xs, ratio, m + n - 1) + Phases(xs[m..], n - 1, ratio, ratio)
  {
    PhasesShifted(xs, xs[m..], m, n - 1, ratio);
    hide Phases;
  }

  /** The outputs at the first `n` windows, seen from a later start, continue the earlier ones. */
  lemma {:induction false} FilteredSplit(xs: seq<Sample>, ratio: nat, m: nat, n: nat)
    requires ValidRatio(ratio) && m + n + HISTORY <= |xs|
    ensures Filtered(xs, ratio, m + n) == Filtered(xs, ratio, m) + Filtered(xs[m..], ratio, n)
    decreases n
  {
    var ys := xs[m..];
    if n == 0 {
      assert Filtered(ys, ratio, 0) == [];
      hide Filtered;
    } else {
      var last := Phases(ys, n - 1, ratio, ratio);
      assert Filtered(ys, ratio, n) == Filtered(ys, ratio, n - 1) + last;
      hide Filtered, Phases;
      FilteredSplit(xs, ratio, m, n - 1);
      LastWindow(xs, ratio, m, n);
    }
  }

  /** Samples beyond the windows do not matter. */
  lemma {:induction false} FilteredPrefix(xs: seq<Sample>, more: seq<Sample>, ratio: nat, n: nat)
    requires ValidRatio(ratio) && n + HISTORY <= |xs|
    ensures Filtered(xs + more, ratio, n) == Filtered(xs, ratio, n)
    decreases n
  {
    if n > 0 {
      FilteredPrefix(xs, more, ratio, n - 1);
      PhasesShifted(xs + more, xs, 0, n - 1, ratio);
      hide Phases;
    }
  }

  ghost function Flatten(chunks: seq<seq<Sample>>): seq<Sample> {
    if chunks == [] then [] else chunks[0] + Flatten(chunks[1..])
  }

  /** What a sequence of calls puts out, each starting from the history the last one left. */
  ghost function RunAll(history: seq<Sample>, chunks: seq<seq<Sample>>, ratio: nat): seq<Sample>
    requires ValidRatio(ratio) && |history| == HISTORY
    decreases |chunks|
  {
    if chunks == [] then []
    else
      var xs := history + chunks[0];
      Filtered(xs, ratio, |chunks[0]|) + RunAll(Kept(xs), chunks[1..], ratio)
  }

  ghost function HistoryAfter(history: seq<Sample>, chunks: seq<seq<Sample>>): (r: seq<Sample>)
    requires |history| == HISTORY
    ensures |r| == HISTORY
    decreases |chunks|
  {
    if chunks == [] then history else HistoryAfter(Kept(history + chunks[0]), chunks[1..])
  }

  /** However a stream is cut into calls, output and final history are those of one call on the whole. */
  lemma {:induction false} ChunksDoNotMatter(history: seq<Sample>, chunks: seq<seq<Sample>>, ratio: nat)
    requires ValidRatio(ratio) && |history| == HISTORY
    ensures RunAll(history, chunks, ratio) == Filtered(history + Flatten(chunks), ratio, |Flatten(chunks)|)
    ensures HistoryAfter(history, chunks) == Kept(history + Flatten(chunks))
    decreases |chunks|
  {
    if chunks == [] {
      assert history + [] == history;
    } else {
      var a, b := chunks[0], Flatten(chunks[1..]);
      var xs, all := history + a, history + Flatten(chunks);
      assert all == xs + b && all[|a|..] == Kept(xs) + b;
      FilteredSplit(all, ratio, |a|, |b|);
      FilteredPrefix(xs, b, ratio, |a|);
      ChunksDoNotMatter(Kept(xs), chunks[1..], ratio);
      assert Kept(Kept(xs) + b) == Kept(all);
    }
  }

  // ----- When the 32-bit accumulator is exact. -----

  function Abs(x: int): nat { if x < 0 then -x else x }

  ghost function AbsSum(row: seq<int>, n: nat): nat
    requires n <= |row|
  {
    if n == 0 then 0 else AbsSum(row, n - 1) + Abs(row[n - 1])
  }

  const LARGEST_ROW := 71978
  const EXACT_LIMIT := 29835

  lemma {:induction false} AbsSumGrows(row: seq<int>, m: nat, n: nat)
    requires m <= n <= |row|
    ensures AbsSum(row, m) <= AbsSum(row, n)
    decreases n
  {
    if m < n { AbsSumGrows(row, m, n - 1); }
  }

  lemma FourMore(row: seq<int>, n: nat)
    requires n + 4 <= |row|
    ensures AbsSum(row, n + 4) == AbsSum(row, n) + Abs(row[n]) + Abs(row[n + 1]) + Abs(row[n + 2]) + Abs(row[n + 3])
  {
    assert AbsSum(row, n + 2) == AbsSum(row, n) + Abs(row[n]) + Abs(row[n + 1]);
  }

  lemma TwelveMore(row: seq<int>, n: nat)
    requires n + 12 <= |row|
    ensures AbsSum(row, n + 12) == AbsSum(row, n)
      + Abs(row[n]) + Abs(row[n + 1]) + Abs(row[n + 2]) + Abs(row[n + 3]) + Abs(row[n + 4]) + Abs(row[n + 5])
      + Abs(row[n + 6]) + Abs(row[n + 7]) + Abs(row[n + 8]) + Abs(row[n + 9]) + Abs(row[n + 10]) + Abs(row[n + 11])
  {
    FourMore(row, n);
    FourMore(row, n + 4);
    FourMore(row, n + 8);
    hide AbsSum, Abs;
  }

  lemma RowSum(row: seq<int>)
    requires |row| == TAPS
    ensures AbsSum(row, TAPS) ==
      Abs(row[0]) + Abs(row[1]) + Abs(row[2]) + Abs(row[3]) + Abs(row[4]) + Abs(row[5]) + Abs(row[6]) + Abs(row[7])
      + Abs(row[8]) + Abs(row[9]) + Abs(row[10]) + Abs(row[11]) + Abs(row[12]) + Abs(row[13]) + Abs(row[14])
      + Abs(row[15]) + Abs(row[16]) + Abs(row[17]) + Abs(row[18]) + Abs(row[19]) + Abs(row[20]) + Abs(row[21])
      + Abs(row[22]) + Abs(row[23])
  {
    assert AbsSum(row, 0) == 0;
    hide AbsSum, Abs;
    TwelveMore(row, 0);
    TwelveMore(row, 12);
  }

  lemma RowSums8k()
    ensures AbsSum(COEF_8K[0], TAPS) == AbsSum(COEF_8K[5], TAPS) == 47690
    ensures AbsSum(COEF_8K[1], TAPS) == AbsSum(COEF_8K[4], TAPS) == 62181
    ensures AbsSum(COEF_8K[2], TAPS) == AbsSum(COEF_8K[3], TAPS) == LARGEST_ROW
  {
    hide AbsSum;
    RowSum(COEF_8K[0]);
    RowSum(COEF_8K[1]);
    RowSum(COEF_8K[2]);
    RowSum(COEF_8K[3]);
    RowSum(COEF_8K[4]);
    RowSum(COEF_8K[5]);
  }

  lemma RowSums16k()
    ensures AbsSum(COEF_16K[0], TAPS) == AbsSum(COEF_16K[2], TAPS) == 55423
    ensures AbsSum(COEF_16K[1], TAPS) == 70524
  {
    hide AbsSum;
    RowSum(COEF_16K[0]);
    RowSum(COEF_16K[1]);
    RowSum(COEF_16K[2]);
  }

  /** 71978 is the largest absolute coefficient sum of any phase. */
  lemma RowSums(ratio: nat, phase: nat)
    requires ValidRatio(ratio) && phase < ratio
    ensures AbsSum(Row(ratio, phase), TAPS) <= LARGEST_ROW
    ensures ratio == 6 && phase == 2 ==> AbsSum(Row(ratio, phase), TAPS) == LARGEST_ROW
  {
    hide AbsSum;
    RowSums8k();
    RowSums16k();
  }

  lemma ProductBounded(x: int, c: int, limit: nat)
    requires Abs(x) <= limit
    ensures Abs(x * c) <= limit * Abs(c)
  {
    assert Abs(x * c) == Abs(x) * Abs(c);
    assert Abs(x) * Abs(c) <= limit * Abs(c);
  }

  lemma {:induction false} SumBounded(xs: seq<Sample>, at: nat, row: seq<int>, n: nat, limit: nat)
    requires at + n <= |xs| && n <= |row|
    requires forall k :: at <= k < at + n ==> Abs(xs[k]) <= limit
    ensures Abs(Sum(xs, at, row, n)) <= limit * AbsSum(row, n)
    decreases n
  {
    if n > 0 {
      var c := row[n - 1];
      SumBounded(xs, at, row, n - 1, limit);
      ProductBounded(xs[at + n - 1], c, limit);
      assert limit * (AbsSum(row, n - 1) + Abs(c)) == limit * AbsSum(row, n - 1) + limit * Abs(c);
    }
  }

  /** No partial sum of this window leaves the 32-bit range. */
  ghost predicate Exact(xs: seq<Sample>, at: nat, ratio: nat, phase: nat)
    requires ValidRatio(ratio) && phase < ratio && at + TAPS <= |xs|
  {
    forall n :: 0 <= n <= TAPS ==> -0x8000_0000 <= Sum(xs, at, Row(ratio, phase), n) < 0x8000_0000
  }

  /** Every window with samples of magnitude at most `limit` is computed exactly, at either rate. */
  ghost predicate ExactUpTo(limit: nat) {
    forall xs: seq<Sample>, at: nat, ratio: nat, phase: nat {:trigger Exact(xs, at, ratio, phase)} ::
      ValidRatio(ratio) && phase < ratio && at + TAPS <= |xs| && (forall x <- xs :: Abs(x) <= limit) ==>
      Exact(xs, at, ratio, phase)
  }

  /** Full-scale input of magnitude `m` whose signs follow the coefficients of one row. */
  ghost function Worst(m: int, row: seq<int>): (r: seq<Sample>)
    requires 0 <= m < 0x8000
    ensures |r| == |row| && forall x <- r :: Abs(x) <= m
  {
    seq(|row|, k requires 0 <= k < |row| => if row[k] < 0 then -m else m)
  }

  lemma SignedProduct(m: int, sum: int, c: int)
    ensures m * sum + (if c < 0 then -m else m) * c == m * (sum + Abs(c))
  {
    if c < 0 { assert (-m) * c == m * (-c); }
    assert m * (sum + Abs(c)) == m * sum + m * Abs(c);
  }

  lemma {:induction false} WorstSum(m: int, row: seq<int>, n: nat)
    requires 0 <= m < 0x8000 && n <= |row|
    ensures Sum(Worst(m, row), 0, row, n) == m * AbsSum(row, n)
    decreases n
  {
    if n > 0 {
      WorstSum(m, row, n - 1);
      SignedProduct(m, AbsSum(row, n - 1), row[n - 1]);
    }
  }

  /** The accumulator is exact for all input of magnitude up to `limit` exactly for limits up to 29835. */
  lemma ExactIffSmall(limit: nat)
    ensures ExactUpTo(limit) <==> limit <= EXACT_LIMIT
  {
    if limit <= EXACT_LIMIT {
      forall xs: seq<Sample>, at: nat, ratio: nat, phase: nat
        | ValidRatio(ratio) && phase < ratio && at + TAPS <= |xs| && (forall x <- xs :: Abs(x) <= limit)
        ensures Exact(xs, at, ratio, phase)
      {
        SmallIsExact(xs, at, ratio, phase);
      }
    } else {
      var m := EXACT_LIMIT + 1;
      var row := Row(6, 2);
      WorstSum(m, row, TAPS);
      RowSums(6, 2);
      assert !Exact(Worst(m, row), 0, 6, 2);
    }
  }

  lemma SmallIsExact(xs: seq<Sample>, at: nat, ratio: nat, phase: nat)
    requires ValidRatio(ratio) && phase < ratio && at + TAPS <= |xs|
    requires forall x <- xs :: Abs(x) <= EXACT_LIMIT
    ensures Exact(xs, at, ratio, phase)
  {
    var row := Row(ratio, phase);
    RowSums(ratio, phase);
    forall n | 0 <= n <= TAPS ensures -0x8000_0000 <= Sum(xs, at, row, n) < 0x8000_0000 {
      SumBounded(xs, at, row, n, EXACT_LIMIT);
      AbsSumGrows(row, n, TAPS);
    }
  }

  /** Then the output is the exact 24-tap convolution, divided by 65536 and rounded down. */
  lemma ExactOutput(xs: seq<Sample>, at: nat, ratio: nat, phase: nat)
    requires ValidRatio(ratio) && phase < ratio && at + TAPS <= |xs|
    requires forall x <- xs :: Abs(x) <= EXACT_LIMIT
    ensures Phase(xs, at, ratio, phase) == Sum(xs, at, Row(ratio, phase), TAPS) / 0x1_0000
  {
    SmallIsExact(xs, at, ratio, phase);
  }

  // ----- The phases of an input sample are consecutive points of one curve. -----

  /** Point `j` of the response to an impulse, in the order in which the filter puts it out. */
  function Response(ratio: nat, j: nat): int
    requires ValidRatio(ratio) && j < TAPS * ratio
  {
    Row(ratio, j % ratio)[TAPS - 1 - j / ratio]
  }

  /** Two stretches of the response that follow one another differ nowhere by more than `d`. */
  ghost predicate Near(a: seq<int>, b: seq<int>, d: nat) {
    |a| == |b| && forall t :: 0 <= t < |a| ==> Abs(a[t] - b[t]) <= d
  }

  const LARGEST_STEP_8K := 6809
  const LARGEST_STEP_16K := 12996

  function LargestStep(ratio: nat): nat {
    if ratio == 6 then LARGEST_STEP_8K else LARGEST_STEP_16K
  }

  /** The same from the end of one stretch to the beginning of the one that follows it. */
  ghost predicate NearNext(a: seq<int>, b: seq<int>, d: nat) {
    |a| == |b| && forall t :: 0 < t < |a| ==> Abs(a[t] - b[t - 1]) <= d
  }

  lemma Row0Near8k()
    ensures Near(COEF_8K[0], COEF_8K[1], LARGEST_STEP_8K)
  {}

  lemma Row1Near8k()
    ensures Near(COEF_8K[1], COEF_8K[2], LARGEST_STEP_8K)
  {}

  lemma Row2Near8k()
    ensures Near(COEF_8K[2], COEF_8K[3], LARGEST_STEP_8K)
  {}

  lemma Row3Near8k()
    ensures Near(COEF_8K[3], COEF_8K[4], LARGEST_STEP_8K)
  {}

  lemma Row4Near8k()
    ensures Near(COEF_8K[4], COEF_8K[5], LARGEST_STEP_8K)
  {}

  lemma Row5Near8k()
    ensures NearNext(COEF_8K[5], COEF_8K[0], LARGEST_STEP_8K)
  {}

  lemma Row0Near16k()
    ensures Near(COEF_16K[0], COEF_16K[1], LARGEST_STEP_16K)
  {}

  lemma Row1Near16k()
    ensures Near(COEF_16K[1], COEF_16K[2], LARGEST_STEP_16K)
  {}

  lemma Row2Near16k()
    ensures NearNext(COEF_16K[2], COEF_16K[0], LARGEST_STEP_16K)
  {}

  /** Read in output order the response never jumps, from one phase to the next or from the last to the first. */
  lemma ResponseIsSmooth(ratio: nat, j: nat)
    requires ValidRatio(ratio) && j + 1 < TAPS * ratio
    ensures Abs(Response(ratio, j + 1) - Response(ratio, j)) <= LargestStep(ratio)
  {
    var p, t := j % ratio, TAPS - 1 - j / ratio;
    NextPoint(j, ratio);
    if ratio == 6 {
      if p == 0 { Row0Near8k(); } else if p == 1 { Row1Near8k(); } else if p == 2 { Row2Near8k(); }
      else if p == 3 { Row3Near8k(); } else if p == 4 { Row4Near8k(); } else { Row5Near8k(); }
    } else {
      if p == 0 { Row0Near16k(); } else if p == 1 { Row1Near16k(); } else { Row2Near16k(); }
    }
  }

  lemma NextPoint(j: nat, ratio: nat)
    requires ValidRatio(ratio)
    ensures if j % ratio == ratio - 1 then (j + 1) % ratio == 0 && (j + 1) / ratio == j / ratio + 1
      else (j + 1) % ratio == j % ratio + 1 && (j + 1) / ratio == j / ratio
  {}

  ghost predicate AllWithin(row: seq<int>, d: nat) {
    forall t :: 0 <= t < |row| ==> Abs(row[t]) <= d
  }

  const LARGEST_COEF := 30721

  lemma OuterCoefs8k()
    ensures AllWithin(COEF_8K[0], LARGEST_COEF) && AllWithin(COEF_8K[5], LARGEST_COEF)
  {}

  lemma SecondCoefs8k()
    ensures AllWithin(COEF_8K[1], LARGEST_COEF) && AllWithin(COEF_8K[4], LARGEST_COEF)
  {}

  lemma MiddleCoefs8k()
    ensures AllWithin(COEF_8K[2], LARGEST_COEF) && AllWithin(COEF_8K[3], LARGEST_COEF)
  {}

  lemma Coefs16k()
    ensures AllWithin(COEF_16K[0], LARGEST_COEF) && AllWithin(COEF_16K[1], LARGEST_COEF)
    ensures AllWithin(COEF_16K[2], LARGEST_COEF)
  {}

  lemma CoefsWithin(ratio: nat, phase: nat)
    requires ValidRatio(ratio) && phase < ratio
    ensures AllWithin(Row(ratio, phase), LARGEST_COEF)
  {
    hide AllWithin;
    if ratio == 6 {
      OuterCoefs8k();
      SecondCoefs8k();
      MiddleCoefs8k();
    } else {
      Coefs16k();
    }
  }

  /** Silence but for the value `v` at position `m`. */
  ghost predicate Impulse(xs: seq<Sample>, m: nat, v: Sample) {
    m < |xs| && forall i :: 0 <= i < |xs| ==> xs[i] == if i == m then v else 0
  }

  lemma {:induction false} ImpulseSum(xs: seq<Sample>, m: nat, v: Sample, at: nat, row: seq<int>, n: nat)
    requires Impulse(xs, m, v) && at + n <= |xs| && n <= |row|
    ensures Sum(xs, at, row, n) == if at <= m < at + n then v * row[m - at] else 0
    decreases n
  {
    if n > 0 { ImpulseSum(xs, m, v, at, row, n - 1); }
  }

  lemma {:induction false} FilteredAt(xs: seq<Sample>, ratio: nat, n: nat, i: nat, p: nat)
    requires ValidRatio(ratio) && n + HISTORY <= |xs| && i < n && p < ratio
    ensures |Filtered(xs, ratio, n)| == ratio * n && ratio * i + p < ratio * n
    ensures Filtered(xs, ratio, n)[ratio * i + p] == Phase(xs, i, ratio, p)
    decreases n
  {
    hide Phase;
    var before := Filtered(xs, ratio, n - 1);
    FilteredSize(xs, ratio, n);
    FilteredSize(xs, ratio, n - 1);
    Inside(ratio, i, n, p);
    assert Filtered(xs, ratio, n) == before + Phases(xs, n - 1, ratio, ratio);
    hide Filtered;
    if i < n - 1 {
      FilteredAt(xs, ratio, n - 1, i, p);
    }
  }

  lemma Inside(ratio: nat, i: nat, n: nat, p: nat)
    requires ValidRatio(ratio) && i < n && p < ratio
    ensures ratio * i + p < ratio * n && ratio * (n - 1) + ratio == ratio * n
    ensures i == n - 1 || ratio * i + p < ratio * (n - 1)
  {
    if ratio == 3 { assert 3 * i + p < 3 * n; } else { assert 6 * i + p < 6 * n; }
  }

  lemma {:induction false} FilteredSize(xs: seq<Sample>, ratio: nat, n: nat)
    requires ValidRatio(ratio) && n + HISTORY <= |xs|
    ensures |Filtered(xs, ratio, n)| == ratio * n
    decreases n
  {
    if n > 0 { FilteredSize(xs, ratio, n - 1); }
  }

  /**
   The outputs for an impulse are the points of the response, in order, times its height; they begin
   with the first window that contains it.
   */
  lemma ImpulseResponse(xs: seq<Sample>, m: nat, v: Sample, ratio: nat, n: nat, j: nat)
    requires ValidRatio(ratio) && HISTORY <= m < n && n + HISTORY <= |xs| && Impulse(xs, m, v)
    requires j < TAPS * ratio
    ensures var k := ratio * (m - HISTORY) + j;
      && k < |Filtered(xs, ratio, n)| == ratio * n
      && Filtered(xs, ratio, n)[k] == v * Response(ratio, j) / 0x1_0000
  {
    hide Row, Filtered, Wrap32, HighHalf;
    var i, p := m - HISTORY + j / ratio, j % ratio;
    assert ratio * (j / ratio) + p == j && j / ratio < TAPS;
    assert ratio * i + p == ratio * (m - HISTORY) + j;
    FilteredAt(xs, ratio, n, i, p);
    ImpulseSum(xs, m, v, i, Row(ratio, p), TAPS);
    CoefsWithin(ratio, p);
    SmallProduct(v, Row(ratio, p)[m - i]);
  }

  lemma SmallProduct(v: Sample, c: int)
    requires Abs(c) <= LARGEST_COEF
    ensures -0x8000_0000 <= v * c < 0x8000_0000 && HighHalf(Wrap32(v * c)) == v * c / 0x1_0000
  {
    ProductBounded(v, c, 0x8000);
  }

  /**
   An impulse comes out as one peak: the outputs of the input sample before its middle rise from phase to
   phase and those of the sample behind it fall. So the phases of an input sample are in time order.
   */
  lemma PeakRisesAndFalls(xs: seq<Sample>, m: nat, v: Sample, ratio: nat, n: nat, p: nat)
    requires ValidRatio(ratio) && HISTORY <= m < n && n + HISTORY <= |xs| && Impulse(xs, m, v)
    requires 26 <= v && p + 1 < ratio
    ensures var out, before, behind := Filtered(xs, ratio, n), ratio * (m - 12), ratio * (m - 11);
      && |out| == ratio * n && before + ratio == behind && behind + ratio <= |out|
      && out[before + p] < out[before + p + 1]
      && out[behind + p] > out[behind + p + 1]
  {
    hide Filtered, Impulse, Row;
    FilteredSize(xs, ratio, n);
    assert ratio * (m - 11) + ratio <= ratio * n && ratio * (m - 12) + ratio == ratio * (m - 11);
    OutputAt(xs, m, v, ratio, n, 11, p);
    OutputAt(xs, m, v, ratio, n, 11, p + 1);
    OutputAt(xs, m, v, ratio, n, 12, p);
    OutputAt(xs, m, v, ratio, n, 12, p + 1);
    MiddleCoefs(ratio, p);
    Apart(v, Row(ratio, p)[12], Row(ratio, p + 1)[12]);
    Apart(v, Row(ratio, p + 1)[11], Row(ratio, p)[11]);
  }

  lemma OutputAt(xs: seq<Sample>, m: nat, v: Sample, ratio: nat, n: nat, q: nat, p: nat)
    requires ValidRatio(ratio) && HISTORY <= m < n && n + HISTORY <= |xs| && Impulse(xs, m, v)
    requires q < TAPS && p < ratio
    ensures var k := ratio * (m - HISTORY + q) + p;
      k < |Filtered(xs, ratio, n)| && Filtered(xs, ratio, n)[k] == v * Row(ratio, p)[TAPS - 1 - q] / 0x1_0000
  {
    hide Filtered, Impulse, Row;
    var j := q * ratio + p;
    assert j < TAPS * ratio;
    assert j / ratio == q && j % ratio == p;
    assert ratio * (m - HISTORY) + j == ratio * (m - HISTORY + q) + p;
    ImpulseResponse(xs, m, v, ratio, n, j);
  }

  lemma MiddleCoefs(ratio: nat, p: nat)
    requires ValidRatio(ratio) && p + 1 < ratio
    ensures Row(ratio, p + 1)[12] >= Row(ratio, p)[12] + 2590
    ensures Row(ratio, p + 1)[11] <= Row(ratio, p)[11] - 2590
  {
    if ratio == 6 {
      Middle8k(p);
    } else {
      assert COEF_16K[0][11] == 29344 && COEF_16K[1][11] == 20320 && COEF_16K[2][11] == 7324;
      assert COEF_16K[0][12] == 7324 && COEF_16K[1][12] == 20320 && COEF_16K[2][12] == 29344;
    }
  }

  lemma Middle8k(p: nat)
    requires p < 5
    ensures COEF_8K[p + 1][12] >= COEF_8K[p][12] + 2590
    ensures COEF_8K[p + 1][11] <= COEF_8K[p][11] - 2590
  {
    assert COEF_8K[0][11] == 30721 && COEF_8K[1][11] == 28131 && COEF_8K[2][11] == 23348;
    assert COEF_8K[3][11] == 17094 && COEF_8K[4][11] == 10285 && COEF_8K[5][11] == 3861;
    assert COEF_8K[0][12] == 3861 && COEF_8K[1][12] == 10285 && COEF_8K[2][12] == 17094;
    assert COEF_8K[3][12] == 23348 && COEF_8K[4][12] == 28131 && COEF_8K[5][12] == 30721;
  }

  lemma Apart(v: Sample, a: int, b: int)
    requires 26 <= v && a + 2590 <= b
    ensures v * a / 0x1_0000 < v * b / 0x1_0000
  {
    assert v * (b - a) >= 26 * 2590;
    assert v * (b - a) == v * b - v * a;
  }
}
