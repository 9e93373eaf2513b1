/**
 * Exact-arithmetic specification of the averaging done by the downsampling
 * stage: the per-channel sum of a window of Stokes-I vectors, its mean, and
 * the sequence of means that a stream of vectors produces when it is cut into
 * disjoint, back-to-back windows of `k` vectors.
 *
 * The stage accumulates in `f32`. Every partial sum of `u16` samples is an
 * integer, and `f32` represents every integer up to 2^24 exactly, so the
 * accumulation is exact while a channel's sum stays at or below 2^24
 * (see `SumExactInF32`). The final division by the factor is not modelled
 * in `f32`: the mean here is the exact rational value.
 */
module Averaging {

  /** One Stokes-I sample: an unsigned 16-bit intensity. */
  newtype u16 = x: int | 0 <= x < 0x1_0000

  const U16_MAX: int := 0xFFFF

  /**
   * 2^24: every integer from 0 up to and including this value is exact in
   * `f32`; 2^24 + 1 is not.
   */
  const F32_EXACT_LIMIT: int := 0x100_0000

  /**
   * Channel `c` of an intensity vector. Vectors in the stage always have
   * exactly CHANNELS entries; past the end this reads 0 so that the
   * specification functions are total.
   */
  function Cell(row: seq<u16>, c: nat): int
  {
    if c < |row| then row[c] as int else 0
  }

  /** Sum of channel `c` over `rows`, accumulated from the first row to the last. */
  function ColumnSum(rows: seq<seq<u16>>, c: nat): int
  {
    if rows == [] then 0 else ColumnSum(rows[..|rows| - 1], c) + Cell(rows[|rows| - 1], c)
  }

  /** Exact per-channel mean of a non-empty window of intensity vectors. */
  function MeanVector(rows: seq<seq<u16>>, channels: nat): seq<real>
    requires rows != []
  {
    seq(channels, c requires 0 <= c < channels => ColumnSum(rows, c) as real / |rows| as real)
  }

  /** The intensity vector itself, channel by channel, as exact values. */
  function AsReals(v: seq<u16>, channels: nat): seq<real>
  {
    seq(channels, c requires 0 <= c < channels => Cell(v, c) as real)
  }

  /**
   * Reference specification of the stage's output stream: `xs` cut from the
   * front into disjoint, contiguous windows of `k` vectors in arrival order,
   * one mean per complete window; a trailing partial window emits nothing.
   */
  function Windows(xs: seq<seq<u16>>, k: nat, channels: nat): seq<seq<real>>
    requires k >= 1
    decreases |xs|
  {
    if |xs| < k then [] else [MeanVector(xs[..k], channels)] + Windows(xs[k..], k, channels)
  }

  // ---------------------------------------------------------------------------
  // Integer division facts used by the window lemmas.

  lemma DivModUnique(n: int, k: int, q: int, r: int)
    requires k >= 1 && 0 <= r < k && n == k * q + r
    ensures n / k == q && n % k == r
  {
    var d := n / k - q;
    assert k * d == r - n % k;
    if d > 0 {
      MulMonotone(k, d);
    } else if d < 0 {
      MulMonotone(k, -d);
    }
  }

  lemma MulMonotone(k: int, d: int)
    requires k >= 1 && d >= 1
    ensures k * d >= k
  {
    assert k * d == k * (d - 1) + k;
  }

  lemma DivModAfterWindow(n: int, k: int)
    requires k >= 1 && n >= 0
    ensures (n + k) / k == n / k + 1 && (n + k) % k == n % k
  {
    DivModUnique(n + k, k, n / k + 1, n % k);
  }

  lemma DivModBelowWindow(n: int, k: int)
    requires k >= 1 && 0 <= n < k
    ensures n / k == 0 && n % k == n
  {
    DivModUnique(n, k, 0, n);
  }

  // ---------------------------------------------------------------------------
  // Properties of the window stream.

  /** After `|xs|` vectors exactly `floor(|xs| / k)` means have been emitted. */
  lemma {:induction false} WindowsCount(xs: seq<seq<u16>>, k: nat, channels: nat)
    requires k >= 1
    ensures |Windows(xs, k, channels)| == |xs| / k
  {
    if |xs| < k {
      DivModBelowWindow(|xs|, k);
    } else {
      WindowsCount(xs[k..], k, channels);
      DivModAfterWindow(|xs| - k, k);
    }
  }

  /**
   * Window `w` is the mean of exactly the vectors `w * k` up to `(w + 1) * k`
   * in arrival order: windows are disjoint, contiguous and in order.
   */
  lemma {:induction false} WindowsAt(xs: seq<seq<u16>>, k: nat, channels: nat, w: nat)
    requires k >= 1 && w < |xs| / k
    ensures (w + 1) * k <= |xs|
    ensures |Windows(xs, k, channels)| == |xs| / k
    ensures Windows(xs, k, channels)[w] == MeanVector(xs[w * k..(w + 1) * k], channels)
  {
    WindowsCount(xs, k, channels);
    if |xs| < k {
      DivModBelowWindow(|xs|, k);
      assert false;
    }
    DivModAfterWindow(|xs| - k, k);
    if w == 0 {
      assert xs[0 * k..(0 + 1) * k] == xs[..k];
    } else {
      var rest := xs[k..];
      WindowsAt(rest, k, channels, w - 1);
      assert (w - 1 + 1) * k + k == (w + 1) * k;
      assert (w - 1) * k + k == w * k;
      assert rest[(w - 1) * k..(w - 1 + 1) * k] == xs[w * k..(w + 1) * k];
    }
  }

  /**
   * Appending one vector to the stream adds a mean exactly when it completes a
   * window, and that mean is the mean of the last `k` vectors; otherwise the
   * output stream is unchanged.
   */
  lemma {:induction false} WindowsSnoc(xs: seq<seq<u16>>, v: seq<u16>, k: nat, channels: nat)
    requires k >= 1
    ensures (|xs| + 1) % k == 0 ==> |xs| + 1 >= k
    ensures Windows(xs + [v], k, channels) ==
      if (|xs| + 1) % k == 0
      then Windows(xs, k, channels) + [MeanVector((xs + [v])[|xs| + 1 - k..], channels)]
      else Windows(xs, k, channels)
  {
    if |xs| < k {
      WindowsSnocFirst(xs, v, k, channels);
    } else {
      var rest := xs[k..];
      WindowsSnoc(rest, v, k, channels);
      WindowsSnocStep(xs, v, k, channels);
    }
  }

  /** `WindowsSnoc` while the stream has not yet completed its first window. */
  lemma WindowsSnocFirst(xs: seq<seq<u16>>, v: seq<u16>, k: nat, channels: nat)
    requires k >= 1 && |xs| < k
    ensures (|xs| + 1) % k == 0 <==> |xs| + 1 == k
    ensures Windows(xs, k, channels) == []
    ensures Windows(xs + [v], k, channels) ==
      if |xs| + 1 == k then [MeanVector(xs + [v], channels)] else []
  {
    var ys := xs + [v];
    if |xs| + 1 == k {
      DivModUnique(k, k, 1, 0);
      assert ys[..k] == ys;
      assert ys[k..] == [];
    } else {
      DivModBelowWindow(|xs| + 1, k);
    }
  }

  /** Unfolds the first window of `xs + [v]` once `xs` holds a complete window. */
  lemma WindowsSnocStep(xs: seq<seq<u16>>, v: seq<u16>, k: nat, channels: nat)
    requires k >= 1 && |xs| >= k
    ensures (|xs| + 1) % k == (|xs| - k + 1) % k
    ensures Windows(xs + [v], k, channels) ==
      [MeanVector(xs[..k], channels)] + Windows(xs[k..] + [v], k, channels)
    ensures Windows(xs, k, channels) ==
      [MeanVector(xs[..k], channels)] + Windows(xs[k..], k, channels)
    ensures |xs| + 1 >= 2 * k ==>
      (xs[k..] + [v])[|xs| + 1 - 2 * k..] == (xs + [v])[|xs| + 1 - k..]
  {
    var ys := xs + [v];
    assert ys[..k] == xs[..k];
    assert ys[k..] == xs[k..] + [v];
    if |xs| + 1 >= 2 * k {
      assert ys[k..][|xs| + 1 - 2 * k..] == ys[|xs| + 1 - k..];
    }
    DivModAfterWindow(|xs| - k + 1, k);
  }

  /** Adding one row to a window adds that row's sample to each channel's sum. */
  lemma ColumnSumAppend(rows: seq<seq<u16>>, row: seq<u16>, c: nat)
    ensures ColumnSum(rows + [row], c) == ColumnSum(rows, c) + Cell(row, c)
  {
    assert (rows + [row])[..|rows|] == rows;
  }

  /** A window of one vector averages to that vector itself. */
  lemma MeanOfOne(v: seq<u16>, channels: nat)
    ensures MeanVector([v], channels) == AsReals(v, channels)
  {
    assert [v][..0] == [];
    forall c | 0 <= c < channels
      ensures MeanVector([v], channels)[c] == AsReals(v, channels)[c]
    {
      assert ColumnSum([v], c) == Cell(v, c);
    }
  }

  /** With a factor of 1 every vector is emitted as its own mean. */
  lemma {:induction false} IdentityFactor(xs: seq<seq<u16>>, channels: nat)
    ensures |Windows(xs, 1, channels)| == |xs|
    ensures forall i :: 0 <= i < |xs| ==> Windows(xs, 1, channels)[i] == AsReals(xs[i], channels)
  {
    if xs != [] {
      IdentityFactor(xs[1..], channels);
      MeanOfOne(xs[0], channels);
      assert xs[..1] == [xs[0]];
    }
  }

  /** No channel of a window sums to more than `|rows|` times the largest sample. */
  lemma {:induction false} ColumnSumBounds(rows: seq<seq<u16>>, c: nat)
    ensures 0 <= ColumnSum(rows, c) <= |rows| * U16_MAX
  {
    if rows != [] {
      ColumnSumBounds(rows[..|rows| - 1], c);
    }
  }

  /**
   * The `f32` accumulation is exact for windows of up to 256 vectors: every
   * partial sum stays at or below 2^24.
   */
  lemma SumExactInF32(rows: seq<seq<u16>>, c: nat)
    requires |rows| <= 256
    ensures ColumnSum(rows, c) <= F32_EXACT_LIMIT
  {
    ColumnSumBounds(rows, c);
  }

  /** Every mean lies within the range of a `u16` sample. */
  lemma MeanInRange(rows: seq<seq<u16>>, channels: nat, c: nat)
    requires rows != [] && c < channels
    ensures 0.0 <= MeanVector(rows, channels)[c] <= U16_MAX as real
  {
    ColumnSumBounds(rows, c);
    var s, n := ColumnSum(rows, c) as real, |rows| as real;
    assert s <= n * U16_MAX as real;
    assert s / n <= U16_MAX as real;
  }
}
