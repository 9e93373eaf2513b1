/**
 * The downsampling stage of `downsample_thread`: a preallocated buffer of
 * `factor` Stokes-I rows filled through a wrapping window index, one mean per
 * completed window sent downstream, and every raw payload forwarded to the
 * dump output.
 *
 * A successful `try_recv` is the argument of `Step`; a successful `try_send`
 * is an append to `stokesOut` (the averaged output) or `dumpOut` (the dump
 * output). The payload type is a parameter and `stokesI` is the payload's
 * Stokes-I view, supplied by the producing component.
 */
module Processing {
  import opened Averaging

  datatype Option<T> = None | Some(value: T)

  /** One successful send, on the averaged output or on the dump output. */
  datatype Send<P> = MeanSent(mean: seq<real>) | PayloadDumped(payload: P)

  /** The Stokes-I view of every payload in `ps`, in order. */
  function Intensities<P>(stokesI: P -> seq<u16>, ps: seq<P>): seq<seq<u16>>
  {
    seq(|ps|, i requires 0 <= i < |ps| => stokesI(ps[i]))
  }

  /** Receiving one more payload adds exactly its Stokes-I vector at the end. */
  lemma IntensitiesAppend<P>(stokesI: P -> seq<u16>, ps: seq<P>, p: P)
    ensures Intensities(stokesI, ps + [p]) == Intensities(stokesI, ps) + [stokesI(p)]
  {
  }

  /** The Stokes-I view of a suffix of the payloads is that suffix of their views. */
  lemma IntensitiesSuffix<P>(stokesI: P -> seq<u16>, ps: seq<P>, n: nat)
    requires n <= |ps|
    ensures Intensities(stokesI, ps[n..]) == Intensities(stokesI, ps)[n..]
  {
  }

  /** Every row of `rows` holds exactly `channels` samples (the type `[u16; CHANNELS]`). */
  ghost predicate Shaped(rows: seq<seq<u16>>, channels: nat)
  {
    forall j :: 0 <= j < |rows| ==> |rows[j]| == channels
  }

  /** The all-zero row the buffer is preallocated with. */
  function Zeros(channels: nat): seq<u16>
  {
    seq(channels, _ => 0)
  }

  class Downsampler<P> {
    /** CHANNELS: the length of every Stokes-I vector. */
    const channels: nat
    /** `downsample_factor`: the number of payloads averaged into one output. */
    const factor: nat
    /** `Payload::stokes_i`. */
    const stokesI: P -> seq<u16>
    /** `avg_buf`: allocated once with `factor` rows and never replaced. */
    const buf: array<seq<u16>>
    /** The window index: the next row to write. */
    var idx: nat
    /** Every mean sent on the averaged output, in order. */
    var stokesOut: seq<seq<real>>
    /** Every payload sent on the dump output, in order. */
    var dumpOut: seq<P>
    /** Every payload received from the upstream input, in order. */
    ghost var consumed: seq<P>
    /** Every send on either output, in the order the stage made them. */
    ghost var sends: seq<Send<P>>

    /**
     * The stage's invariant: the index stays in `[0, factor)` and counts the
     * payloads of the current window; the rows before it hold the current
     * window's vectors in arrival order; the averaged output is the window
     * stream of everything received; the dump output is everything received.
     */
    ghost predicate Valid()
      reads this, buf
    {
      && factor >= 1
      && buf.Length == factor
      && idx < factor
      && idx <= |consumed|
      && idx == |consumed| % factor
      && Shaped(buf[..], channels)
      && buf[..idx] == Intensities(stokesI, consumed)[|consumed| - idx..]
      && stokesOut == Windows(Intensities(stokesI, consumed), factor, channels)
      && dumpOut == consumed
    }

    constructor (channels: nat, factor: u16, stokesI: P -> seq<u16>)
      requires factor >= 1
      ensures Valid() && fresh(buf)
      ensures this.channels == channels && this.factor == factor as nat && this.stokesI == stokesI
      ensures buf.Length == factor as nat
      ensures forall j :: 0 <= j < buf.Length ==> buf[j] == Zeros(channels)
      ensures idx == 0 && consumed == [] && stokesOut == [] && dumpOut == [] && sends == []
    {
      this.channels := channels;
      this.factor := factor as nat;
      this.stokesI := stokesI;
      buf := new seq<u16>[factor as nat](_ => Zeros(channels));
      idx := 0;
      stokesOut := [];
      dumpOut := [];
      consumed := [];
      sends := [];
    }

    /**
     * Sums every channel over all `factor` rows, channel by channel, then
     * divides each sum by `factor`: the mean of the rows in the buffer.
     */
    method WindowMean() returns (avg: seq<real>)
      requires factor >= 1 && buf.Length == factor
      ensures avg == MeanVector(buf[..], channels)
      ensures forall c :: 0 <= c < channels ==> avg[c] * factor as real == ColumnSum(buf[..], c) as real
    {
      ghost var rows := buf[..];
      var sums := new real[channels](_ => 0.0);
      for chan := 0 to channels
        invariant forall c :: 0 <= c < channels ==>
          sums[c] == if c < chan then ColumnSum(rows, c) as real else 0.0
      {
        for r := 0 to factor
          invariant forall c :: 0 <= c < channels ==>
            sums[c] == if c < chan then ColumnSum(rows, c) as real
                       else if c == chan then ColumnSum(rows[..r], c) as real
                       else 0.0
        {
          assert rows[..r + 1][..r] == rows[..r];
          sums[chan] := sums[chan] + Cell(buf[r], chan) as real;
        }
        assert rows[..factor] == rows;
      }
      for c := 0 to channels
        invariant forall c' :: 0 <= c' < channels ==>
          sums[c'] == if c' < c then ColumnSum(rows, c') as real / factor as real
                      else ColumnSum(rows, c') as real
      {
        sums[c] := sums[c] / factor as real;
      }
      avg := sums[..];
    }

    /**
     * Handles one received payload: writes its Stokes-I vector into row
     * `idx`, emits the window mean when that row was the last one, advances
     * the index modulo `factor` and forwards the payload to the dump output.
     */
    method Step(p: P) returns (emitted: Option<seq<real>>)
      requires Valid() && |stokesI(p)| == channels
      modifies this, buf
      ensures Valid()
      ensures consumed == old(consumed) + [p]
      ensures dumpOut == old(dumpOut) + [p]
      ensures buf[old(idx)] == stokesI(p)
      ensures forall j :: 0 <= j < buf.Length && j != old(idx) ==> buf[j] == old(buf[j])
      ensures idx == (old(idx) + 1) % factor
      ensures emitted.Some? <==> old(idx) == factor - 1
      ensures emitted.Some? ==>
        && buf[..] == Intensities(stokesI, consumed[|consumed| - factor..])
        && emitted.value == MeanVector(buf[..], channels)
      ensures stokesOut == old(stokesOut) + (if emitted.Some? then [emitted.value] else [])
      ensures sends == old(sends) +
        (if emitted.Some? then [MeanSent(emitted.value)] else []) + [PayloadDumped(p)]
    {
      ghost var xs := Intensities(stokesI, consumed);
      ghost var rows := buf[..];
      var v := stokesI(p);
      IntensitiesAppend(stokesI, consumed, p);
      WindowsSnoc(xs, v, factor, channels);
      StepRows(rows, xs, v, idx, factor, channels);

      buf[idx] := v;
      consumed := consumed + [p];
      assert buf[..] == rows[idx := v];
      emitted := None;
      if idx == factor - 1 {
        IntensitiesSuffix(stokesI, consumed, |consumed| - factor);
        var avg := WindowMean();
        stokesOut := stokesOut + [avg];
        sends := sends + [MeanSent(avg)];
        emitted := Some(avg);
      }
      idx := (idx + 1) % factor;
      dumpOut := dumpOut + [p];
      sends := sends + [PayloadDumped(p)];
    }
  }

  /**
   * The buffer after one step, as a sequence: writing `v` into row `idx`
   * keeps every row `channels` long, and afterwards the rows before the new
   * index hold the last vectors received of the current window; a completed
   * window leaves the whole buffer equal to the last `k` vectors.
   */
  lemma StepRows(rows: seq<seq<u16>>, xs: seq<seq<u16>>, v: seq<u16>, idx: nat, k: nat, channels: nat)
    requires k >= 1 && |rows| == k && idx < k && idx <= |xs| && idx == |xs| % k
    requires rows[..idx] == xs[|xs| - idx..]
    requires Shaped(rows, channels) && |v| == channels
    ensures Shaped(rows[idx := v], channels)
    ensures (idx + 1) % k == (|xs| + 1) % k
    ensures (idx + 1) % k == 0 <==> idx == k - 1
    ensures (idx + 1) % k <= |xs| + 1
    ensures rows[idx := v][..(idx + 1) % k] == (xs + [v])[|xs| + 1 - (idx + 1) % k..]
    ensures idx == k - 1 ==> rows[idx := v] == (xs + [v])[|xs| + 1 - k..]
  {
    DivModStep(|xs|, k);
    WriteRow(rows, xs, v, idx);
    if idx == k - 1 {
      assert rows[idx := v] == rows[idx := v][..idx + 1];
    }
  }

  /**
   * Writing the next vector into row `i`, when the rows before it hold the
   * last `i` vectors received, makes the rows up to and including `i` hold the
   * last `i + 1`.
   */
  lemma WriteRow(rows: seq<seq<u16>>, xs: seq<seq<u16>>, v: seq<u16>, i: nat)
    requires i < |rows| && i <= |xs| && rows[..i] == xs[|xs| - i..]
    ensures rows[i := v][..i + 1] == (xs + [v])[|xs| + 1 - (i + 1)..]
  {
    assert rows[i := v][..i + 1] == rows[..i] + [v];
  }

  /** Advancing the window index keeps it equal to the count received modulo `k`. */
  lemma DivModStep(n: nat, k: nat)
    requires k >= 1
    ensures (n + 1) % k == ((n % k) + 1) % k
    ensures (n + 1) % k == 0 <==> n % k == k - 1
    ensures n % k < k - 1 ==> (n + 1) % k == n % k + 1
  {
    var q, r := n / k, n % k;
    if r == k - 1 {
      DivModUnique(n + 1, k, q + 1, 0);
      DivModUnique(r + 1, k, 1, 0);
    } else {
      DivModUnique(n + 1, k, q, r + 1);
      DivModUnique(r + 1, k, 0, r + 1);
    }
  }

  /**
   * The stage over a finite prefix of its input: receives `inputs` one by one
   * and returns everything sent on the averaged output and on the dump output.
   */
  method Run<P>(stokesI: P -> seq<u16>, channels: nat, factor: u16, inputs: seq<P>)
    returns (means: seq<seq<real>>, dump: seq<P>)
    requires factor >= 1
    requires forall i :: 0 <= i < |inputs| ==> |stokesI(inputs[i])| == channels
    ensures means == Windows(Intensities(stokesI, inputs), factor as nat, channels)
    ensures |means| == |inputs| / factor as nat
    ensures dump == inputs
  {
    var stage := new Downsampler(channels, factor, stokesI);
    means := [];
    var i := 0;
    while i < |inputs|
      invariant 0 <= i <= |inputs|
      invariant fresh(stage.buf)
      invariant stage.Valid()
      invariant stage.channels == channels && stage.factor == factor as nat && stage.stokesI == stokesI
      invariant stage.consumed == inputs[..i]
      invariant means == stage.stokesOut
    {
      var emitted := stage.Step(inputs[i]);
      if emitted.Some? {
        means := means + [emitted.value];
      }
      assert inputs[..i + 1] == inputs[..i] + [inputs[i]];
      i := i + 1;
    }
    assert inputs[..i] == inputs;
    dump := stage.dumpOut;
    WindowsCount(Intensities(stokesI, inputs), factor as nat, channels);
  }
}

/**
 * Clients of the stage that run concrete input streams through `Run`,
 * using the Stokes-I vectors themselves as payloads.
 */
module Scenarios {
  import opened Averaging
  import opened Processing

  /** Uses each Stokes-I vector as its own payload. */
  function Identity(v: seq<u16>): seq<u16>
  {
    v
  }

  /** Two channels, factor 2: `[2, 4]` then `[6, 8]` emit the single mean `[4, 6]`. */
  method PairWindow() returns (means: seq<seq<real>>, dump: seq<seq<u16>>)
    ensures means == [[4.0, 6.0]]
    ensures dump == [[2, 4], [6, 8]]
  {
    var inputs: seq<seq<u16>> := [[2, 4], [6, 8]];
    means, dump := Run(Identity, 2, 2, inputs);
    assert Intensities(Identity, inputs) == inputs;
    PairWindows();
  }

  /**
   * Factor 3: the third vector completes a window with mean `[3, 3]`; the
   * fourth begins the next window and emits nothing.
   */
  method TripleWindow() returns (afterThree: seq<seq<real>>, afterFour: seq<seq<real>>)
    ensures afterThree == [[3.0, 3.0]]
    ensures afterFour == afterThree
  {
    var inputs: seq<seq<u16>> := [[0, 0], [3, 3], [6, 6], [9, 9]];
    var dump;
    afterThree, dump := Run(Identity, 2, 3, inputs[..3]);
    assert Intensities(Identity, inputs[..3]) == inputs[..3] == [[0, 0], [3, 3], [6, 6]];
    afterFour, dump := Run(Identity, 2, 3, inputs);
    assert Intensities(Identity, inputs) == inputs;
    TripleWindows();
  }

  lemma PairWindows()
    ensures Windows([[2, 4], [6, 8]], 2, 2) == [[4.0, 6.0]]
  {
    var xs: seq<seq<u16>> := [[2, 4], [6, 8]];
    ColumnSumAppend([], [2, 4], 0);
    ColumnSumAppend([[2, 4]], [6, 8], 0);
    ColumnSumAppend([], [2, 4], 1);
    ColumnSumAppend([[2, 4]], [6, 8], 1);
    assert xs[..2] == xs && xs[2..] == [];
    assert MeanVector(xs, 2) == [4.0, 6.0];
  }

  lemma TripleWindows()
    ensures Windows([[0, 0], [3, 3], [6, 6]], 3, 2) == [[3.0, 3.0]]
    ensures Windows([[0, 0], [3, 3], [6, 6], [9, 9]], 3, 2) == [[3.0, 3.0]]
  {
    var xs: seq<seq<u16>> := [[0, 0], [3, 3], [6, 6]];
    ColumnSumAppend([], [0, 0], 0);
    ColumnSumAppend([[0, 0]], [3, 3], 0);
    ColumnSumAppend([[0, 0], [3, 3]], [6, 6], 0);
    ColumnSumAppend([], [0, 0], 1);
    ColumnSumAppend([[0, 0]], [3, 3], 1);
    ColumnSumAppend([[0, 0], [3, 3]], [6, 6], 1);
    assert [[0, 0]] + [[3, 3]] == [[0, 0], [3, 3]];
    assert [[0, 0], [3, 3]] + [[6, 6]] == xs;
    assert MeanVector(xs, 2) == [3.0, 3.0];
    assert xs[..3] == xs && xs[3..] == [];
    var ys: seq<seq<u16>> := [[0, 0], [3, 3], [6, 6], [9, 9]];
    assert ys[..3] == xs && ys[3..] == [[9, 9]];
    assert Windows(ys[3..], 3, 2) == [];
  }
}
