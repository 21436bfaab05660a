# Argon2 WebAssembly benchmark — a Dafny model

This project models two parts of a small TypeScript benchmark program for an Argon2i
WebAssembly module, and proves properties of the model:

- **The host binding** (`src/argon2.ts`). `Argon2.hashPassword` drives an opaque guest
  module through a fixed protocol:
  - allocate a salt region and copy the salt in;
  - encode the password, copy it in, and erase the host copy of the encoding;
  - allocate the output region and call `argon2i_hash_raw`;
  - rebuild views over the possibly grown guest memory, then zero and free the password and
    salt regions;
  - zero the caller's salt;
  - copy the hash out, then zero and free the output region;
  - keep the copy in `results` and return the raw status code.
- **The parameter-sweep driver** (`runBenchmark` in `src/benchmark.ts`, and its older
  standalone copy in `src/memory.ts`):
  - fill in defaults;
  - label the output curve;
  - sweep one Argon2 cost parameter from its configured value to `max` in `segments` steps;
  - time, for each sample, a fresh module and two `hashPassword` calls;
  - append one `(elapsed, value)` row per successful sample, and stop at the first failing call.

Modules:

- `Argon2Binding` (`argon2.dfy`): the byte-view helpers `ZeroMemory` and `CopyMemory`, the
  guest module, and `Argon2.HashPassword`.
  - The guest is a class (`Guest`) with three parts:
    - a linear memory that `Malloc` and `HashRaw` may replace by a larger array keeping
      every live region's bytes;
    - a ghost map of live regions;
    - a ghost event log.
  - Each `Free` records the bytes the region held when it was freed, so "zeroed before
    freed" can be stated.
  - A view is a buffer plus a window. A view made before the memory grew names the old
    array, which is how view invalidation is modelled.
- `Curve` (`curve.dfy`): the CSV sink, as an append-only sequence of rows plus a count of
  `save` calls.
- `BenchmarkRunner` (`benchmark.dfy`): `benchmark.ts`. The source's imperative parts are
  methods: `AssignDefaults`, the sweep loop, the two-run loop and `RandomPassword`. Labelling,
  sampling and messages are functions. The sweep is specified by `SweepOutcome`, a
  predicate over the calls made, the rows pushed and the number of saves.
- `MemoryBenchmark` (`memory.dfy`): `memory.ts`. It has the same loop, without defaults and
  with the benchmark's own password, plus lemmas about its top-level call.
- Helpers: `Bytes` (bytes, all-zero sequences), `Decimal` (how a template literal prints an
  integer), `TextEncoding` (UTF-8, as `TextEncoder` produces it), and `Optional`.

These are parameters of the model:

- the random bytes (`RandomBytes`, havoc per byte);
- the clock (`Now`: any reading not before the previous one, and not before the time origin 0);
- the WebAssembly binaries (`Binaries`);
- the status code of the hashing call (`HashRaw`, havoc).

Where the source's own comments and its code disagree, the model follows the code:

- **Salt reuse.** One 16-byte salt array is created per sweep and passed to every call.
  `hashPassword` zeroes it, so only the first call of a sweep sees the random salt and every
  later call sees sixteen zero bytes (`SweepCalls`). The comment at `src/argon2.ts:93` calls
  `options.salt` a value-passed copy, but the driver passes its one shared array.
- **Results never zeroed.** The comment at `src/argon2.ts:104` says the hashes kept in
  `results` are to be zeroed when the benchmark is complete. Nothing in the source does so,
  and the model keeps them as they are.
- **Curve header.** `BenchmarkCurve`'s constructor takes only the file name. The header
  argument passed at `src/benchmark.ts:84` is ignored, and no header row is written.
- **Double save on abort.** On a failing call the curve is saved inside the loop and again
  after it, so `save` runs twice on that path and once otherwise (`SweepOutcome`).
- **Encoding order.** The salt is allocated and copied before the password is encoded. The
  guest never sees the encoding step, so the event log is the same either way; the model
  follows the code.
- **No `segments >= 1` check.** The code computes `floor((max - min) / segments)` without
  checking `segments`. With 0 segments the value is not finite but unused: the only sample
  is `max`. The model computes the increment only when `segments > 0` and is total in
  `segments`. A negative count gives a finite increment in the source, but the loop of
  `src/benchmark.ts:91` does not run, so there are no samples.
- **Time suite.** The time suite sweeps time from 1 to 10 in the default 10 segments, so the
  increment is `floor(9/10) = 0`. Time 1 is measured ten times, then time 10 once
  (`TimeSuiteSamples`).

## Model

| member | source | states |
|---|---|---|
| Argon2Binding.ZeroMemory | src/argon2.ts:12-18 | with at least one pass, the bytes of the view are all zero and every byte outside it is unchanged; with no pass nothing changes |
| Argon2Binding.ZeroedIdempotent | src/argon2.ts:12-18 | zeroing a range twice is the same as once, and zeroing a range that is already zero changes nothing |
| Argon2Binding.CopyMemory | src/argon2.ts:20-24 | the first `len` bytes of the destination view become the first `len` bytes of the source view; every other byte of the destination buffer and the source bytes stay as they were |
| Argon2Binding.Guest.constructor | src/argon2.ts:36-45 | a freshly instantiated module has its own new memory, no live allocation and an empty log |
| Argon2Binding.Guest.Malloc | src/argon2.ts:5 | returns a region of the requested size, in bounds, not live before, disjoint from every live region; the memory may grow but every live region keeps its bytes; the call is logged |
| Argon2Binding.Guest.Free | src/argon2.ts:6 | releases exactly that region without touching memory, and logs the bytes it held |
| Argon2Binding.Guest.HashRaw | src/argon2.ts:7 | returns an arbitrary code, may grow memory and write only the output region (every other live region keeps its bytes), and logs the password and salt bytes it was given and the output region it left |
| Argon2Binding.CopyIn | src/argon2.ts:54-57 | allocates a region of the array's length, not live before, and afterwards the region holds the array's bytes while every other live region keeps its bytes |
| Argon2Binding.CopyInInputs | src/argon2.ts:53-67 | allocates the salt region and then the password region, distinct and not live before; they hold the salt and the UTF-8 encoding of the password; the log gains exactly those two allocations; every region live before keeps its bytes; the encoder made one array, all zeros afterwards |
| Argon2Binding.CopyInPassword | src/argon2.ts:59-67 | allocates a region sized to the UTF-8 encoding of the password, which then holds that encoding. The `TextEncoder` it creates made exactly one array, `encoding`, holding that encoding; the array is new, is not the guest memory, and is all zeros afterwards. Every region live before keeps its bytes |
| Argon2Binding.PlaceInputs | src/argon2.ts:53-71 | three allocations in the order salt, password, hash, sized to the salt, the encoded password and `hashLen`, pairwise distinct; the salt and password regions hold the salt and the encoded password; every region live before keeps its bytes; the encoder's one array (`encoder.made`) is all zeros |
| Argon2Binding.PlaceAndHash | src/argon2.ts:53-84 | the three allocations, then the hashing call with those pointers and lengths, logged with the encoded password and the caller's salt as the guest received them and the output region it left; every region live before keeps its bytes; the encoder's one array (`encoder.made`) is all zeros |
| Argon2Binding.ZeroAndFree | src/argon2.ts:86-92 | zeroes a live region through a view made after the guest call, then frees it; the log shows the region all zeros when freed and every other live region keeps its bytes |
| Argon2Binding.CopyOut | src/argon2.ts:96-102 | the new host array holds the output region's bytes; the region is then zeroed and freed; every other live region keeps its bytes |
| Argon2Binding.ReleaseAll | src/argon2.ts:86-102 | frees password, salt and hash regions in that order, each all zeros when freed; the caller's salt is all zeros; the returned array holds the output region as the guest call left it; every region still live keeps its bytes |
| Argon2Binding.ProtocolTrace | src/argon2.ts:51-107 | a bridge lemma: the seven events in the order hashPassword produces them satisfy `HashTrace`. It unfolds the definition and is not a separate property |
| Argon2Binding.Argon2.constructor | src/argon2.ts:31-33 | keeps the module source, with no instance and no results yet |
| Argon2Binding.Argon2.Instantiate | src/argon2.ts:36-45 | installs a fresh, empty guest module and leaves `results` alone |
| Argon2Binding.HashParams.constructor | src/benchmark.ts:96-103 | a parameter object holding exactly the given password, salt array, costs and hash length |
| Argon2Binding.Argon2.HashPassword | src/argon2.ts:51-107 | the guest sees exactly: salt, password and hash allocations; the hashing call with those pointers and lengths while the regions hold the salt and the encoded password; then frees of the password, salt and hash regions, each all zeros. The returned code is the guest's code. The caller's salt is all zeros whatever the code. The call's `TextEncoder` made exactly one array (`encoder.made`), holding the encoded password, and that array is all zeros afterwards. Every guest region live before the call keeps its bytes, and the live regions are as before. `results` gains one fresh array holding the output. |
| TextEncoding.TextEncoder.constructor | src/argon2.ts:60 | a new encoder has made no array yet |
| TextEncoding.TextEncoder.Encode | src/argon2.ts:60 | returns a new array holding the UTF-8 encoding of the string, and records exactly that array with that encoding in `made` |
| TextEncoding.AsciiEncoding | src/argon2.ts:60-62 | an ASCII password encodes to one byte per character, each equal to its code |
| Curve.BenchmarkCurve.constructor | src/curve.ts:7-9 | a curve on the given file, with no rows and no saves |
| Curve.BenchmarkCurve.Push | src/curve.ts:11-13 | appends one `(time, value)` row after all earlier rows |
| Curve.BenchmarkCurve.Save | src/curve.ts:16-18 | counts one more save and leaves the rows alone |
| BenchmarkRunner.AssignDefaults | src/benchmark.ts:38-45 | fills each missing field in place with its default (time 1, parallelism 1, memory 131072, simd false, segments 10), keeps every given field, and returns the same object |
| BenchmarkRunner.Benchmark.constructor | src/benchmark.ts:20-36 | a benchmark holding exactly the given name, kind, optional parameters, maximum and optional segment count |
| BenchmarkRunner.DefaultedFilled | src/benchmark.ts:38-45 | for a benchmark whose fields are all present, filling in defaults changes nothing |
| BenchmarkRunner.LabelOf | src/benchmark.ts:57-81 | the sweep starts at the configured value of the swept parameter |
| BenchmarkRunner.OutputPathInjective | src/benchmark.ts:57-84 | two benchmarks with non-negative parameters that write to the same path agree on kind, simd flag, maximum and all three parameters |
| BenchmarkRunner.OutputPath | src/benchmark.ts:84 | the curve's file lies under `results/` and ends in `.csv` |
| BenchmarkRunner.Override | src/benchmark.ts:105-115 | the swept parameter becomes `v` and the other two keep their values |
| BenchmarkRunner.SampleParams | src/benchmark.ts:95-115 | a new parameter object with the sample's password, the shared salt, hash length 32 and the parameters of `Override` |
| BenchmarkRunner.Samples | src/benchmark.ts:89-92 | `segments + 1` samples (none for a negative count) |
| BenchmarkRunner.Increment | src/benchmark.ts:89 | the floor of `(max - min) / segments`: `segments` increments fit in `max - min` and one more does not |
| BenchmarkRunner.SampleValue | src/benchmark.ts:92 | the last sample is `max`, and for `min <= max` every sample lies in `[min, max]` |
| BenchmarkRunner.SweepValueAt | src/benchmark.ts:92 | a bridge lemma: sample `i` of `SweepValues` is the value the loop computes (`max` for the last, `min + i * increment` before it). It unfolds the definitions |
| BenchmarkRunner.IncrementBounds | src/benchmark.ts:89 | for `min <= max` the increment is non-negative and `i` increments never pass `max - min` |
| BenchmarkRunner.SamplesRange | src/benchmark.ts:89-92 | the last sample is exactly `max`, the first is `min` when there are two or more, and for `min <= max` every sample lies in `[min, max]` and samples never decrease |
| BenchmarkRunner.SamplesSpacing | src/benchmark.ts:89-92 | consecutive samples are one increment apart, except the last step, which also takes the remainder `(max - min) % segments` |
| BenchmarkRunner.TenToHundred | src/benchmark.ts:89-92 | from 10 to 100 in 9 segments the samples are 10, 20, …, 90, 100 |
| BenchmarkRunner.OneSegment | src/benchmark.ts:89-92 | one segment samples exactly `min` and `max` |
| BenchmarkRunner.BenchmarkMessage | src/benchmark.ts:137-146 | a message of at least five characters |
| BenchmarkRunner.MessageInjective | src/benchmark.ts:137-146 | the message determines both the kind (`m`, `t`, `p`) and the value |
| BenchmarkRunner.Alphanumeric | src/benchmark.ts:150-163 | a table of 62 characters |
| BenchmarkRunner.AlphanumericTable | src/benchmark.ts:150-163 | the table holds each ASCII letter and digit exactly once and nothing else |
| BenchmarkRunner.CharIndex | src/benchmark.ts:169 | the index is below 62, and is 61 (the digit 9) exactly when the byte is 255 |
| BenchmarkRunner.CharIndexMonotone | src/benchmark.ts:169 | larger bytes never draw an earlier index |
| BenchmarkRunner.EveryCharDrawn | src/benchmark.ts:169 | every table index is drawn by some byte |
| BenchmarkRunner.PasswordShape | src/benchmark.ts:165-171 | a password has one character per random byte, each a letter or digit, so it is ASCII and its encoding has one byte per character |
| BenchmarkRunner.RandomBytes | src/benchmark.ts:167 | exactly `n` bytes |
| BenchmarkRunner.RandomPassword | src/benchmark.ts:148-172 | the password has `len` characters, each a letter or digit: the table entry drawn for each of `len` random bytes |
| BenchmarkRunner.SourceFor | src/benchmark.ts:119 | the definition of the build choice: the SIMD binary exactly when the simd flag is set, the baseline one otherwise. Its contract is its body; `RunSample` and `SweepCalls` state their properties over it |
| BenchmarkRunner.Now | src/benchmark.ts:118-129 | a clock reading is never before the given earlier reading (the clock is monotonic) |
| BenchmarkRunner.SampleSucceeded | src/benchmark.ts:121-128 | two successful calls, the first on the sample's salt and the second on zeros, make a successful sample |
| BenchmarkRunner.SampleFailed | src/benchmark.ts:121-127 | a non-zero code after fewer than two successes makes a failed sample ending with that call |
| BenchmarkRunner.HashOnce | src/benchmark.ts:122 | the guest's log grows by exactly one `HashTrace` of the call (`Hashes`), whose hashing event is `call`: module source, parameters, encoded password, the salt as it was before the call, hash length and code; `results` gains one entry; the salt is all zeros afterwards |
| BenchmarkRunner.RunTwice | src/benchmark.ts:121-128 | one or two calls with the same parameters and password. Only the first sees the incoming salt, the second sees zeros. It succeeds exactly when both codes are zero. The module keeps its guest, whose log grows by exactly the protocol runs `traces` of those calls (`Traced`), and `results` gains one entry per call. On a non-zero code the curve is saved once and no row is added. |
| BenchmarkRunner.RunSample | src/benchmark.ts:117-131 | the calls run on a new module `host` built from the build the simd flag chooses, with the swept parameter at `v`; that module's guest logged exactly the protocol runs of those calls and nothing else, and its `results` holds one hash per call (`Logged`). On success exactly one row `(elapsed, v)` is pushed, with `elapsed >= 0`; on failure no row and one save |
| BenchmarkRunner.NextSample | src/benchmark.ts:91-131 | one more successful sample extends the completed prefix with its calls, password and row; a failing sample adds no row, saves once, ends with a non-zero code, and completes a `SweepOutcome` of a stopped sweep. Either way the sample ran on a new module whose guest logged exactly its calls (`Logged`), and it extends `OnHosts` |
| BenchmarkRunner.CompletedStep | src/benchmark.ts:91-132 | a completed prefix plus one successful sample is a completed prefix |
| BenchmarkRunner.SweepCompleted | src/benchmark.ts:132-133 | a sweep whose every sample succeeded, saved once, meets `SweepOutcome` |
| BenchmarkRunner.SweepAborted | src/benchmark.ts:123-133 | a completed prefix followed by a failing sample, saved twice, meets `SweepOutcome` |
| BenchmarkRunner.Sweep | src/benchmark.ts:51-133 | a fresh curve on the labelled path. Every password is 20 letters or digits. Sample `k` made its calls with the swept parameter at the `k`-th sample value, and row `k` holds that value. Either every sample succeeded and the curve was saved once, or the sweep stopped at the first failing sample (no row for it) and saved twice. Sample `k` ran on its own module `hosts[k]`, built from the simd flag's build, and `logs[k]` are the protocol runs of its calls (`OnHosts`) |
| BenchmarkRunner.SampleAll | src/benchmark.ts:89-132 | the sampling loop leaves the sweep one save short of its outcome: `SweepOutcome` holds with one more save; every password was drawn by `randomPassword`; `OnHosts` relates each sample to its module |
| BenchmarkRunner.RunBenchmark | src/benchmark.ts:47-134 | defaults are filled in place, then the outcome of `Sweep` on the filled settings, including its modules (`OnHosts`) |
| BenchmarkRunner.FullSweep | src/benchmark.ts:91-133 | a sweep saved only once produced `segments + 1` rows, the last one at `max` |
| BenchmarkRunner.SweepCalls | src/benchmark.ts:87-115 | every call of a sweep used the module build of the simd flag, hash length 32, the password drawn for its sample and the sample's parameters; only the very first call saw the random salt, every later one sixteen zeros |
| BenchmarkRunner.TimeSuiteSamples | src/benchmarks/main-suite/time.ts:3-25 | with defaults, the time suite sweeps time 1 ten times and then 10: 11 samples |
| BenchmarkRunner.TimeSuiteLabel | src/benchmarks/main-suite/time.ts:4-10 | the first time benchmark writes to `results/time/m32768_p1` / `1-10` under the time header |
| Decimal.IntToString | src/benchmark.ts:60-61 | a non-empty rendering that starts with `-` exactly for negative numbers |
| Decimal.ParseNatToString | src/benchmark.ts:60-61 | reading the digits of a rendered number back gives the number |
| MemoryBenchmark.ConfigOf | src/memory.ts:20-34 | the definition of the settings `memory.ts` uses: every field of the benchmark as given, with no default. Its contract is its body; `RunBenchmark` and `SamePassword` state their properties over it |
| MemoryBenchmark.RunBenchmark | src/memory.ts:36-120 | the same outcome as the benchmark driver's sweep, on the benchmark as given, with every sample using the benchmark's own password and running on its own module (`OnHosts`) |
| MemoryBenchmark.SampleAll | src/memory.ts:75-118 | the sampling loop of `memory.ts` leaves the sweep one save short of its outcome, with every password the benchmark's own and `OnHosts` relating each sample to its module |
| MemoryBenchmark.SamePassword | src/memory.ts:82-89 | every call of a `memory.ts` sweep hashes the benchmark's password |
| MemoryBenchmark.TopLevelNumbers | src/memory.ts:134-145 | the numbers of the top-level call render as `3`, `8`, `1024` and `1048576` |
| MemoryBenchmark.TopLevelLabel | src/memory.ts:134-145 | the top-level call labels its curve `results/memory/t3_p8` / `1024-1048576_simd` under the memory header, starting at 1024 |
| MemoryBenchmark.TopLevelSamples | src/memory.ts:75-78 | the top-level call has increment 52377 and 21 samples, `1024 + 52377 * i` for `i < 20` and then 1048576; the last step is 52389 |
| MemoryBenchmark.TopLevelMessage | src/memory.ts:123-132 | the first sample of the top-level call is announced as `m = 1024` |

## Left out

- WebAssembly instantiation (`src/argon2.ts:36-45`) and the memory-growth callback are left
  out, because the runtime is foreign. `Instantiate` creates an empty guest, and growth
  happens inside `Malloc` and `HashRaw`.
- The Argon2i computation is left out. `HashRaw` returns any code and may write its output
  region.
- The allocator bodies are stand-ins: a bump allocator that never reuses space. Callers rely
  only on the contracts of `Malloc` and `Free`.
- Malloc failure is not modelled, because the source never checks malloc's result: every
  allocation succeeds in the model.
- `Argon2Binding.CopyMemory`: the two views are over different buffers. Every call in the
  source copies between host and guest memory.
- Integer width of the guest interface is not modelled. Pointers and lengths are unbounded
  naturals, and the source's 32-bit argument conversion is not captured.
- Loading the binaries with `readFileSync` is left out as file I/O. They are the `Binaries`
  parameter.
- The random source and the clock are left out. `crypto.getRandomValues` is replaced by
  arbitrary bytes, and `performance.now` by an arbitrary time.
- `BenchmarkRunner.CharIndex`: the floating-point expression `Math.floor((r / 255) * 61)` is
  taken to equal the integer `(r * 61) / 255`. The product `r * 61` is a multiple of 255
  only for `r = 0` and `r = 255`, so the rounding of the division cannot cross an integer.
- Console output is left out: the progress lines, the error message and the formatted
  elapsed time (`toFixed`). `BenchmarkMessage` is modelled, but nothing prints it.
- The CSV file text and the write stream are left out. The curve is its rows and its save
  count.
- `async`/`await` is not modelled, because the calls are sequential in the source.
- JavaScript number formatting is modelled for integers only. Non-integral or non-finite
  values in labels are not captured.
- Every numeric field of a benchmark (`time`, `parallelism`, `memory`, `max`, `segments`) is
  taken to be an integer, as every suite and the top-level call of `src/memory.ts` write
  them. The source types them as JavaScript `number`. With a fractional `segments`, say 2.5,
  the loop of `src/benchmark.ts:91-92` never meets `i === b.segments`, takes 3 samples and
  never samples `max`. `Samples`, `SamplesRange` and `FullSweep` do not cover that case.
- `BenchmarkRunner.Sweep`: the increment is computed only when `segments > 0`. With
  `segments = 0`, `src/benchmark.ts:89` divides by zero and gets a non-finite value. With a
  negative count it gets a finite `Math.floor((max - min) / segments)`. Neither value is
  used: with `segments = 0` the one sample is `max`, and with a negative count the loop of
  `src/benchmark.ts:91` does not run.
- `BenchmarkRunner.Sweep`: `OnHosts` names each sample's module, its build and the protocol
  runs of its calls. What that module's guest logged, and how many hashes it kept, is stated
  when the sample ends (`NextSample`, via `Logged`). It is not restated for the heap at the
  end of the sweep, where the fact would have to be carried across every later sample.
- `MemoryBenchmark.RunBenchmark`: the same as for `BenchmarkRunner.Sweep`. The guest log of
  each sample's module is stated when that sample ends, not at the end of the sweep.
- `BenchmarkRunner.RunBenchmark`: the same as for `BenchmarkRunner.Sweep`. It ensures
  `OnHosts` only, and each module's guest log is stated when its sample ends.
- `BenchmarkRunner.SampleAll`: the same as for `BenchmarkRunner.Sweep`. Its loop carries
  `OnHosts` only, and each module's guest log is stated by `NextSample` when its sample ends.
- `MemoryBenchmark.SampleAll`: the same as for `BenchmarkRunner.Sweep`. Its loop carries
  `OnHosts` only, and each module's guest log is stated by `NextSample` when its sample ends.
- JavaScript strings are UTF-16, and `TextEncoder.encode` turns a lone surrogate into the
  bytes EF BF BD. A Dafny `char` cannot hold a lone surrogate, so passwords containing one
  are not modelled. No password of the benchmarks contains one.
- `src/benchmarks/main-suite/index.ts` is not modelled beyond its data. It runs the time
  suite only, and the memory suite is not run.
- The hashes kept in `Argon2.results` are never cleared (see above). The model keeps them
  too, and nothing reads them.
