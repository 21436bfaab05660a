/**
 * The older standalone sweep of memory.ts: the same labelling, sampling and two-run loop as
 * the benchmark driver, but every field of the benchmark is given (no defaults) and every
 * sample hashes the one password the benchmark carries. It ends with one concrete call, a
 * memory sweep from 1 MiB to 1 GiB.
 */
module MemoryBenchmark {
  import opened Bytes
  import opened Decimal
  import opened Curve
  import opened BenchmarkRunner
  import opened Argon2Binding

  /** A benchmark of memory.ts: every field is required and used as given. */
  datatype Settings = Settings(kind: BenchmarkType, time: int, parallelism: int, memory: int, simd: bool,
                               password: string, max: int, segments: int)

  /** The settings the shared sweep model works from. */
  function ConfigOf(b: Settings): (c: Config)
    ensures c.kind == b.kind && c.time == b.time && c.parallelism == b.parallelism && c.memory == b.memory
    ensures c.simd == b.simd && c.max == b.max && c.segments == b.segments
  {
    Config(b.kind, b.time, b.parallelism, b.memory, b.simd, b.max, b.segments)
  }

  /**
   * runBenchmark of memory.ts: label, a fresh curve and a random salt shared by every sample,
   * then one sample per value with the benchmark's own password, stopping at the first
   * failure; the curve is saved at the end.
   */
  method RunBenchmark(b: Settings, wasm: Binaries)
    returns (curve: BenchmarkCurve, ghost salt0: seq<byte>, ghost passwords: seq<string>, ghost batches: seq<seq<Call>>,
             ghost hosts: seq<Argon2>, ghost logs: seq<seq<seq<Event>>>)
    ensures fresh(curve) && curve.file == OutputPath(ConfigOf(b))
    ensures |salt0| == SaltLength && forall k | 0 <= k < |passwords| :: passwords[k] == b.password
    ensures SweepOutcome(ConfigOf(b), SourceFor(b.simd, wasm), salt0, passwords, batches, curve.rows, curve.saves)
    ensures OnHosts(SourceFor(b.simd, wasm), hosts, batches, logs)
  {
    var c := ConfigOf(b);
    var tag := LabelOf(c);
    curve := new BenchmarkCurve(tag.dir + "/" + tag.file + ".csv");
    var bytes := RandomBytes(SaltLength);
    var salt := new byte[SaltLength](i requires 0 <= i < SaltLength => bytes[i]);
    salt0 := bytes;
    passwords, batches, hosts, logs := SampleAll(c, b.password, wasm, curve, salt, salt0);
    curve.Save();
  }

  /**
   * The sampling loop of runBenchmark: one sample per value of the sweep, all with the
   * benchmark's own `password`, stopping at the first failure. What is left is the final save.
   */
  method SampleAll(c: Config, password: string, wasm: Binaries, curve: BenchmarkCurve, salt: array<byte>,
                   ghost salt0: seq<byte>)
    returns (ghost passwords: seq<string>, ghost batches: seq<seq<Call>>, ghost hosts: seq<Argon2>,
             ghost logs: seq<seq<seq<Event>>>)
    requires curve.rows == [] && curve.saves == 0 && salt[..] == salt0
    modifies salt, curve
    ensures AllOf(passwords, password)
    ensures SweepOutcome(c, SourceFor(c.simd, wasm), salt0, passwords, batches, curve.rows, curve.saves + 1)
    ensures OnHosts(SourceFor(c.simd, wasm), hosts, batches, logs)
  {
    var tag := LabelOf(c);
    ghost var samples := SweepValues(c);
    ghost var source := SourceFor(c.simd, wasm);
    var min, max, segments := tag.min, c.max, c.segments;
    var increment := if segments > 0 then Increment(min, max, segments) else 0;
    passwords, batches, hosts, logs := [], [], [], [];
    var i := 0;
    while i <= segments
      invariant 0 <= i <= |samples| && |curve.rows| == i && curve.saves == 0
      invariant Completed(c, source, salt0, passwords, batches, curve.rows)
      invariant AllOf(passwords, password)
      invariant salt[..] == SaltAt(salt0, i)
      invariant OnHosts(source, hosts, batches, logs)
      modifies salt, curve
      decreases segments + 1 - i
    {
      var v := if i == segments then max else min + i * increment;
      SweepValueAt(c, i);
      var ok, calls, host, traces := NextSample(c, i, v, password, salt, wasm, curve, salt0, passwords, batches, hosts, logs);
      hosts, logs := hosts + [host], logs + [traces];
      if !ok {
        AllOfAppend(passwords, password);
        batches, passwords := batches + [calls], passwords + [password];
        return;
      }
      AllOfAppend(passwords, password);
      batches, passwords := batches + [calls], passwords + [password];
      i := i + 1;
    }
    SweepCompleted(c, source, salt0, passwords, batches, curve.rows);
  }

  /** Every hashPassword call of a memory.ts sweep hashes the benchmark's own password. */
  lemma SamePassword(b: Settings, source: seq<byte>, salt0: seq<byte>, passwords: seq<string>,
                     batches: seq<seq<Call>>, rows: seq<Row>, saves: nat)
    requires SweepOutcome(ConfigOf(b), source, salt0, passwords, batches, rows, saves)
    requires forall k | 0 <= k < |passwords| :: passwords[k] == b.password
    ensures forall k, j | 0 <= k < |batches| && 0 <= j < |batches[k]| ::
      batches[k][j].password == TextEncoding.Utf8Encode(b.password)
  {
    SweepCalls(ConfigOf(b), source, salt0, passwords, batches, rows, saves);
  }

  /** Every password of a memory.ts sweep is the benchmark's own. */
  predicate AllOf(passwords: seq<string>, password: string)
  {
    forall k | 0 <= k < |passwords| :: passwords[k] == password
  }

  lemma AllOfAppend(passwords: seq<string>, password: string)
    requires AllOf(passwords, password)
    ensures AllOf(passwords + [password], password)
  {
    assert forall k | 0 <= k < |passwords| :: (passwords + [password])[k] == passwords[k];
  }

  /** The call at the bottom of memory.ts. */
  const TopLevel: Settings := Settings(Memory, 3, 8, 1024, true, "samplepassword", 1024 * 1024, 20)

  /** The numbers of the top-level call, as a template literal renders them. */
  lemma TopLevelNumbers()
    ensures IntToString(3) == "3" && IntToString(8) == "8"
    ensures IntToString(1024) == "1024" && IntToString(1048576) == "1048576"
  {
    assert NatToString(10) == "10";
    assert NatToString(104) == "104" && NatToString(102) == "102";
    assert NatToString(1048) == "1048" && NatToString(1024) == "1024";
    assert NatToString(10485) == "10485";
    assert NatToString(104857) == "104857";
  }

  /**
   * The top-level call labels its curve `results/memory/t3_p8` / `1024-1048576_simd` under
   * the memory header, starting the sweep at memory 1024.
   */
  lemma TopLevelLabel()
    ensures LabelOf(ConfigOf(TopLevel))
         == Label("results/memory/t3_p8", "1024-1048576_simd", "Memory Parameter (KiB)", 1024)
  {
    TopLevelNumbers();
    assert Range(1024, 1048576, true) == "1024-1048576_simd";
    assert Dir("results/memory/t", 3, "_p", 8) == "results/memory/t3_p8";
  }

  /**
   * The top-level call visits 21 memory costs, 1024 + 52377 * i for i < 20, then 1048576;
   * the last step is longer by the 12 KiB the floor dropped.
   */
  lemma TopLevelSamples()
    ensures Increment(1024, 1048576, 20) == 52377
    ensures var s := SweepValues(ConfigOf(TopLevel));
      && |s| == 21 && s[20] == 1048576
      && (forall i | 0 <= i < 20 :: s[i] == 1024 + 52377 * i)
      && s[20] - s[19] == 52389
  {
    assert Increment(1024, 1048576, 20) == 52377;
  }

  /** The first progress message of the top-level call names the memory cost. */
  lemma TopLevelMessage()
    ensures BenchmarkMessage(SweepValues(ConfigOf(TopLevel))[0], TopLevel.kind) == "m = 1024"
  {
    assert SweepValues(ConfigOf(TopLevel))[0] == 1024 + 0 * Increment(1024, 1048576, 20);
    assert IntToString(1024) == "1024";
  }
}
