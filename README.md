# Downsampling stage of T0, modelled in Dafny

This project models `downsample_thread`, the averaging stage of the T0
pipeline. The stage receives payloads and takes each one's Stokes-I vector:
`CHANNELS` unsigned 16-bit intensities. It writes that vector into a
preallocated buffer of `downsample_factor` rows, at the row named by a
wrapping window index. When the last row has just been written, it sums each
channel over all rows, divides by the factor and sends that mean vector
downstream. It then advances the index modulo the factor and forwards the raw
payload to the dump output.

- `averaging.dfy` (module `Averaging`) gives the exact arithmetic. `ColumnSum`
  is a channel's sum over a window and `MeanVector` is the window's mean.
  `Windows` is the reference definition of the whole output stream: the input
  cut from the front into disjoint, back-to-back windows of `k` vectors, with
  one mean per complete window.
- `processing.dfy` (module `Processing`) holds the stage itself. Class
  `Downsampler` has the buffer as a `const` array (allocated once, never
  replaced), the index, the two outputs as sequences, and ghost logs of what
  was received and of every send in order. `Step` handles one received
  payload. `WindowMean` is the nested summation loop followed by the division
  loop. `Run` drives the stage over a finite input stream. Module `Scenarios`
  runs two concrete streams through `Run`.

The payload type is a type parameter. `Payload::stokes_i` is a function value
given to the constructor. `CHANNELS` is a constructor parameter.

## Model

| member | source | states |
|---|---|---|
| `Processing.Downsampler.constructor` | src/processing.rs:15-17 | The buffer is a fresh array of exactly `factor` all-zero rows of `CHANNELS` samples. The index starts at 0. Nothing has been received or sent. |
| `Processing.Downsampler.Step` | src/processing.rs:20-53 | Only row `idx` is overwritten, with the payload's Stokes-I vector; every other row is unchanged. A mean is emitted exactly when the old index was `factor - 1`. That mean is the mean of the whole buffer, which then holds exactly the last `factor` vectors received, in arrival order. The new index is `(idx + 1) % factor`. The payload is appended to the dump output once. The send log gains the mean (if any) and then the payload. The invariant `Valid` is kept: the index stays in `[0, factor)` and equals the count received modulo `factor`; every row has `CHANNELS` samples; the averaged output equals `Windows` of everything received; the dump output equals everything received. |
| `Processing.Downsampler.WindowMean` | src/processing.rs:30-38 | The nested loops and the division loop yield `MeanVector` of the buffer's rows. For each channel, the result times `factor` is that channel's sum over all rows. |
| `Processing.WriteRow` | src/processing.rs:27 | If the rows before `idx` hold the last `idx` vectors received, then writing the new vector at `idx` makes the rows up to `idx` hold the last `idx + 1`. |
| `Processing.StepRows` | src/processing.rs:27-47 | After the write at `idx`, every row still has `CHANNELS` samples. The advanced index equals the new count modulo `factor` and wraps to 0 exactly when it was `factor - 1`. The rows before the new index hold the current window's vectors. A completed window leaves the whole buffer equal to the last `factor` vectors received. |
| `Processing.IntensitiesAppend` | src/processing.rs:20-27 | Receiving one more payload adds exactly its Stokes-I vector at the end of the stream of vectors. |
| `Processing.DivModStep` | src/processing.rs:47 | Advancing the index modulo the factor keeps it equal to the count received modulo the factor. It wraps to 0 exactly when it was `factor - 1`, and otherwise it goes up by one. |
| `Processing.Run` | src/processing.rs:18-54 | For any finite input stream, the averaged output is `Windows` of the inputs' Stokes-I vectors. It holds exactly `floor(N / factor)` means. The dump output equals the input stream. |
| `Averaging.WindowsCount` | src/processing.rs:29-47 | After `N` vectors, exactly `floor(N / k)` means have been emitted. |
| `Averaging.WindowsAt` | src/processing.rs:27-38 | Mean number `w` is the mean of exactly the vectors `w*k` up to `(w+1)*k - 1`. Windows are therefore disjoint, contiguous and in arrival order. |
| `Averaging.WindowsSnoc` | src/processing.rs:27-47 | One more vector adds a mean exactly when the count becomes a multiple of `k`. That mean is the mean of the last `k` vectors. Otherwise the output is unchanged. |
| `Averaging.IdentityFactor` | src/processing.rs:29-38 | With factor 1, every vector is emitted as its own mean, one per input. |
| `Averaging.MeanOfOne` | src/processing.rs:31-38 | The mean of a one-row window is that row. |
| `Averaging.ColumnSumAppend` | src/processing.rs:33-35 | Adding a row to a window adds that row's sample to each channel's sum. |
| `Averaging.ColumnSumBounds` | src/processing.rs:31-36 | A channel's sum over `n` rows lies between 0 and `n * 65535`. |
| `Averaging.SumExactInF32` | src/processing.rs:30-36 | For windows of at most 256 rows, every channel sum stays at or below 2^24. That is the range where `f32` holds every integer exactly. |
| `Averaging.MeanInRange` | src/processing.rs:37-38 | Every mean lies between 0 and 65535. |
| `Scenarios.PairWindow` | src/processing.rs:27-53 | With two channels and factor 2, the inputs `[2,4]`, `[6,8]` emit exactly one mean, `[4,6]`, and dump both inputs in order. |
| `Scenarios.TripleWindow` | src/processing.rs:27-47 | With factor 3, the inputs `[0,0]`, `[3,3]`, `[6,6]` emit exactly one mean, `[3,3]`. A fourth input `[9,9]` adds no further mean. |

## Left out

- The busy-wait `try_recv` and `try_send` retry loops (src/processing.rs:20-25, 40-44, 49-53) are inter-thread plumbing. A successful receive is the argument of `Step`. A successful send is an append to `stokesOut` or `dumpOut`.
- The unbounded outer `loop` (src/processing.rs:18) has no end. `Run` models it over any finite prefix of the input stream.
- `f32` arithmetic is not modelled. Means are exact reals. The accumulation is exact only while a channel's sum stays at or below 2^24, which `SumExactInF32` shows holds for factors up to 256. For larger factors, and for the final division, the source's `f32` result can differ from the exact mean. The source comment calls the `f32` average "lossless"; that holds only within these bounds.
- `Payload::stokes_i` and `CHANNELS` come from a module (`crate::common`) that is not part of this model. `stokes_i` is an arbitrary function on an arbitrary payload type, whose vectors are required to have `CHANNELS` entries (the source type is `[u16; CHANNELS]`). `CHANNELS` is a parameter.
- The `info!` log line (src/processing.rs:14) has no effect on the stage's behaviour.
- `Processing.Downsampler.constructor`: requires `downsample_factor >= 1`. With 0 the source allocates an empty buffer and panics on the first payload, indexing row 0 at line 27. The `downsample_factor as usize - 1` at line 29 and the `% 0` at line 47 are also invalid for 0.
- `Processing.Downsampler.Step`: does not state "a mean is emitted exactly when the count received becomes a multiple of `factor`" directly. This follows from `Valid` (index equals count modulo `factor`) together with the stated "exactly when the old index was `factor - 1`". `WindowsSnoc` and `Run` state it for the output stream.
- A blocking variant of the stage, with no dump output, is not in this source file. Only the polling variant, which always forwards to the dump, is modelled.
- Closed channels (a `try_send` or `try_recv` that can never succeed) make the source spin forever. The model only describes steps that complete.
