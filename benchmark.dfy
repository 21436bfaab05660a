/**
 * The benchmark driver: fill in a benchmark's defaults, label its output curve, sweep one
 * Argon2 parameter from its configured value to `max` in `segments` steps, and for each
 * sample time a fresh module instantiation plus two hashPassword calls, pushing one curve
 * row per sample. A non-zero status code saves the curve and ends the sweep.
 */
module BenchmarkRunner {
  import opened Optional
  import opened Bytes
  import opened Decimal
  import opened TextEncoding
  import opened Argon2Binding
  import opened Curve

  /** The Argon2 parameter a benchmark sweeps. */
  datatype BenchmarkType = Memory | Time | Parallelism

  /** A benchmark as written by a suite; the optional fields are filled by AssignDefaults. */
  class Benchmark {
    const name: string
    const kind: BenchmarkType
    var time: Option<int>
    var parallelism: Option<int>
    var memory: Option<int>
    var simd: Option<bool>
    const max: int
    var segments: Option<int>

    constructor (name: string, kind: BenchmarkType, time: Option<int>, parallelism: Option<int>,
                 memory: Option<int>, simd: Option<bool>, max: int, segments: Option<int>)
      ensures this.name == name && this.kind == kind && this.max == max
      ensures this.time == time && this.parallelism == parallelism && this.memory == memory
      ensures this.simd == simd && this.segments == segments
    {
      this.name := name;
      this.kind := kind;
      this.time := time;
      this.parallelism := parallelism;
      this.memory := memory;
      this.simd := simd;
      this.max := max;
      this.segments := segments;
    }
  }

  const DefaultTime: int := 1
  const DefaultParallelism: int := 1
  const DefaultMemory: int := 1024 * 128
  const DefaultSimd: bool := false
  const DefaultSegments: int := 10

  /** Every optional field of `b` holds a value. */
  predicate Filled(b: Benchmark)
    reads b
  {
    b.time.Some? && b.parallelism.Some? && b.memory.Some? && b.simd.Some? && b.segments.Some?
  }

  /** A benchmark with every field present: the values the sweep works from. */
  datatype Config = Config(kind: BenchmarkType, time: int, parallelism: int, memory: int,
                           simd: bool, max: int, segments: int)

  function FilledConfig(b: Benchmark): (c: Config)
    reads b
    requires Filled(b)
    ensures c.kind == b.kind && c.max == b.max
    ensures Some(c.time) == b.time && Some(c.parallelism) == b.parallelism && Some(c.memory) == b.memory
    ensures Some(c.simd) == b.simd && Some(c.segments) == b.segments
  {
    Config(b.kind, b.time.value, b.parallelism.value, b.memory.value, b.simd.value, b.max, b.segments.value)
  }

  /** The settings `b` stands for once each missing field takes its default. */
  function Defaulted(b: Benchmark): Config
    reads b
  {
    Config(b.kind, b.time.GetOr(DefaultTime), b.parallelism.GetOr(DefaultParallelism),
           b.memory.GetOr(DefaultMemory), b.simd.GetOr(DefaultSimd), b.max, b.segments.GetOr(DefaultSegments))
  }

  /** Filling in defaults leaves a benchmark whose fields are all present unchanged. */
  lemma DefaultedFilled(b: Benchmark)
    requires Filled(b)
    ensures Defaulted(b) == FilledConfig(b)
  {
  }

  /**
   * assignDefaults: fills each missing field of `b` in place with its default, keeps every
   * field that was given, and hands back the same object.
   */
  method AssignDefaults(b: Benchmark) returns (r: Benchmark)
    modifies b
    ensures r == b && Filled(b) && FilledConfig(b) == old(Defaulted(b))
  {
    b.time := Some(b.time.GetOr(DefaultTime));
    b.parallelism := Some(b.parallelism.GetOr(DefaultParallelism));
    b.memory := Some(b.memory.GetOr(DefaultMemory));
    b.simd := Some(b.simd.GetOr(DefaultSimd));
    b.segments := Some(b.segments.GetOr(DefaultSegments));
    r := b;
  }

  // ---------------------------------------------------------------------------------------
  // Parameters

  /** The three Argon2 cost parameters a hashPassword call receives. */
  datatype Params = Params(timeCost: int, memoryCost: int, parallelism: int)

  /** The parameter a benchmark of kind `kind` varies. */
  function Swept(kind: BenchmarkType, p: Params): int
  {
    match kind
    case Memory => p.memoryCost
    case Time => p.timeCost
    case Parallelism => p.parallelism
  }

  /** The parameters every sample starts from, before its swept value is set. */
  function BaseParams(c: Config): Params
  {
    Params(c.time, c.memory, c.parallelism)
  }

  /** The parameters with the swept one set to `v`: that one is `v`, the others are untouched. */
  function Override(kind: BenchmarkType, p: Params, v: int): (r: Params)
    ensures Swept(kind, r) == v
    ensures forall k: BenchmarkType :: k != kind ==> Swept(k, r) == Swept(k, p)
  {
    match kind
    case Memory => p.(memoryCost := v)
    case Time => p.(timeCost := v)
    case Parallelism => p.(parallelism := v)
  }

  // ---------------------------------------------------------------------------------------
  // Labelling

  /** Where a curve goes, what its varying column is called, and where the sweep starts. */
  datatype Label = Label(dir: string, file: string, header: string, min: int)

  /** A directory name: `<prefix><a><sep><b>`, as in `results/memory/t3_p8`. */
  function Dir(prefix: string, a: int, sep: string, b: int): (d: string)
    ensures |d| > |prefix| && d[..|prefix|] == prefix
  {
    prefix + IntToString(a) + sep + IntToString(b)
  }

  /** A file name: `<x>-<max>`, suffixed `_simd` for the SIMD build. */
  function Range(x: int, max: int, simd: bool): string
  {
    if simd then IntToString(x) + "-" + IntToString(max) + "_simd" else IntToString(x) + "-" + IntToString(max)
  }

  /**
   * The directory names the kind and the two fixed parameters, the file names the range of
   * the swept one; the sweep starts at the configured value of the swept parameter.
   */
  function LabelOf(c: Config): (l: Label)
    ensures l.min == Swept(c.kind, BaseParams(c))
    ensures |l.dir| > 8 && l.dir[..8] == "results/"
  {
    match c.kind
    case Memory =>
      Label(Dir("results/memory/t", c.time, "_p", c.parallelism), Range(c.memory, c.max, c.simd),
            "Memory Parameter (KiB)", c.memory)
    case Time =>
      Label(Dir("results/time/m", c.memory, "_p", c.parallelism), Range(c.time, c.max, c.simd),
            "Time Parameter (iterations)", c.time)
    case Parallelism =>
      Label(Dir("results/parallelism/t", c.time, "_m", c.memory), Range(c.parallelism, c.max, c.simd),
            "Parallelism Parameter (threads)", c.parallelism)
  }

  function OutputPath(c: Config): (path: string)
    ensures |path| > 12 && path[..8] == "results/" && path[|path| - 4..] == ".csv"
  {
    var l := LabelOf(c);
    assert (l.dir + "/" + l.file + ".csv")[..8] == l.dir[..8];
    l.dir + "/" + l.file + ".csv"
  }

  /** All parameters non-negative, as every benchmark suite writes them. */
  predicate NonNegative(c: Config)
  {
    c.time >= 0 && c.parallelism >= 0 && c.memory >= 0 && c.max >= 0
  }

  /** Two concatenations with equally long tails split at the same place. */
  lemma SplitEqual(a1: string, b1: string, a2: string, b2: string)
    requires a1 + b1 == a2 + b2 && |b1| == |b2|
    ensures a1 == a2 && b1 == b2
  {
    assert a1 == (a1 + b1)[..|a1|];
    assert a2 == (a2 + b2)[..|a2|];
    assert b1 == (a1 + b1)[|a1|..];
    assert b2 == (a2 + b2)[|a2|..];
  }

  /** In text ending in a non-digit followed by digits, the digits are exactly the tail. */
  lemma DigitTail(r: string, d: string)
    requires AllDigits(d) && r != [] && !IsDigit(r[|r| - 1])
    ensures !IsDigit((r + d)[|r| - 1])
    ensures forall k | |r| <= k < |r + d| :: IsDigit((r + d)[k])
  {
    var s := r + d;
    forall k | |r| <= k < |s|
      ensures IsDigit(s[k])
    {
      assert s[k] == d[k - |r|];
    }
  }

  /** A number that follows text ending in a non-digit is read back in one way only. */
  lemma NumberSuffix(r1: string, n1: nat, r2: string, n2: nat)
    requires r1 + NatToString(n1) == r2 + NatToString(n2)
    requires r1 != [] && !IsDigit(r1[|r1| - 1]) && r2 != [] && !IsDigit(r2[|r2| - 1])
    ensures n1 == n2 && r1 == r2
  {
    var d1, d2 := NatToString(n1), NatToString(n2);
    DigitTail(r1, d1);
    DigitTail(r2, d2);
    SplitEqual(r1, d1, r2, d2);
    NatToStringInjective(n1, n2);
  }

  /** The `/` before a name without `/` is the last one in the text. */
  lemma SlashPosition(d: string, f: string)
    requires forall i | 0 <= i < |f| :: f[i] != '/'
    ensures (d + "/" + f)[|d|] == '/'
    ensures forall k | |d| < k < |d + "/" + f| :: (d + "/" + f)[k] != '/'
  {
    var s := d + "/" + f;
    forall k | |d| < k < |s|
      ensures s[k] != '/'
    {
      assert s[k] == f[k - |d| - 1];
    }
  }

  /** Text followed by `/` and a name without `/` splits at that last `/`. */
  lemma SlashSplit(d1: string, f1: string, d2: string, f2: string)
    requires d1 + "/" + f1 == d2 + "/" + f2
    requires forall i | 0 <= i < |f1| :: f1[i] != '/'
    requires forall i | 0 <= i < |f2| :: f2[i] != '/'
    ensures d1 == d2 && f1 == f2
  {
    SlashPosition(d1, f1);
    SlashPosition(d2, f2);
    SplitEqual(d1 + "/", f1, d2 + "/", f2);
    SplitEqual(d1, "/", d2, "/");
  }

  lemma RangeHasNoSlash(x: nat, max: nat, simd: bool)
    ensures forall i | 0 <= i < |Range(x, max, simd)| :: Range(x, max, simd)[i] != '/'
  {
    var r := Range(x, max, simd);
    var dx, dm := NatToString(x), NatToString(max);
    forall i | 0 <= i < |r|
      ensures r[i] != '/'
    {
      if i < |dx| {
        assert r[i] == dx[i] && IsDigit(dx[i]);
      } else if |dx| < i < |dx| + 1 + |dm| {
        assert r[i] == dm[i - |dx| - 1] && IsDigit(dm[i - |dx| - 1]);
      }
    }
  }

  /** A file name gives back the range and the build it was made from. */
  lemma RangeInjective(x1: nat, m1: nat, s1: bool, x2: nat, m2: nat, s2: bool)
    requires Range(x1, m1, s1) == Range(x2, m2, s2)
    ensures x1 == x2 && m1 == m2 && s1 == s2
  {
    var c1 := NatToString(x1) + "-" + NatToString(m1);
    var c2 := NatToString(x2) + "-" + NatToString(m2);
    var r := Range(x1, m1, s1);
    assert r[|r| - 1] == (if s1 then 'd' else NatToString(m1)[|NatToString(m1)| - 1]);
    assert r[|r| - 1] == (if s2 then 'd' else NatToString(m2)[|NatToString(m2)| - 1]);
    if s1 {
      SplitEqual(c1, "_simd", c2, "_simd");
    }
    NumberSuffix(NatToString(x1) + "-", m1, NatToString(x2) + "-", m2);
    SplitEqual(NatToString(x1), "-", NatToString(x2), "-");
    NatToStringInjective(x1, x2);
  }

  /** A directory name gives back its prefix, separator and both numbers. */
  lemma DirInjective(p1: string, a1: nat, t1: string, b1: nat, p2: string, a2: nat, t2: string, b2: nat)
    requires Dir(p1, a1, t1, b1) == Dir(p2, a2, t2, b2)
    requires |t1| == |t2| == 2 && !IsDigit(t1[1]) && !IsDigit(t2[1])
    requires p1 != [] && !IsDigit(p1[|p1| - 1]) && p2 != [] && !IsDigit(p2[|p2| - 1])
    ensures p1 == p2 && a1 == a2 && t1 == t2 && b1 == b2
  {
    NumberSuffix(p1 + NatToString(a1) + t1, b1, p2 + NatToString(a2) + t2, b2);
    SplitEqual(p1 + NatToString(a1), t1, p2 + NatToString(a2), t2);
    NumberSuffix(p1, a1, p2, a2);
  }

  /** The start of the directory name for each kind. */
  function Prefix(kind: BenchmarkType): string
  {
    match kind
    case Memory => "results/memory/t"
    case Time => "results/time/m"
    case Parallelism => "results/parallelism/t"
  }

  /** The two parameters a benchmark of kind `kind` holds fixed, in directory-name order. */
  function Fixed(c: Config): (int, int)
  {
    match c.kind
    case Memory => (c.time, c.parallelism)
    case Time => (c.memory, c.parallelism)
    case Parallelism => (c.time, c.memory)
  }

  /** The directory records the kind and the fixed parameters, the file the swept range. */
  lemma LabelParts(c: Config)
    ensures LabelOf(c).dir == Dir(Prefix(c.kind), Fixed(c).0, if c.kind == Parallelism then "_m" else "_p", Fixed(c).1)
    ensures LabelOf(c).file == Range(Swept(c.kind, BaseParams(c)), c.max, c.simd)
  {
  }

  /** Path, directory and file determine each other. */
  lemma PathParts(c1: Config, c2: Config)
    requires NonNegative(c1) && NonNegative(c2)
    requires OutputPath(c1) == OutputPath(c2)
    ensures LabelOf(c1).dir == LabelOf(c2).dir && LabelOf(c1).file == LabelOf(c2).file
  {
    var l1, l2 := LabelOf(c1), LabelOf(c2);
    LabelParts(c1);
    LabelParts(c2);
    SplitEqual(l1.dir + "/" + l1.file, ".csv", l2.dir + "/" + l2.file, ".csv");
    RangeHasNoSlash(Swept(c1.kind, BaseParams(c1)), c1.max, c1.simd);
    RangeHasNoSlash(Swept(c2.kind, BaseParams(c2)), c2.max, c2.simd);
    SlashSplit(l1.dir, l1.file, l2.dir, l2.file);
  }

  /**
   * Two benchmarks write the same file only when they agree on everything but `segments`:
   * a rerun with another resolution overwrites the earlier curve.
   */
  lemma OutputPathInjective(c1: Config, c2: Config)
    requires NonNegative(c1) && NonNegative(c2)
    requires OutputPath(c1) == OutputPath(c2)
    ensures c1 == c2.(segments := c1.segments)
  {
    PathParts(c1, c2);
    LabelParts(c1);
    LabelParts(c2);
    DirInjective(Prefix(c1.kind), Fixed(c1).0, if c1.kind == Parallelism then "_m" else "_p", Fixed(c1).1,
                 Prefix(c2.kind), Fixed(c2).0, if c2.kind == Parallelism then "_m" else "_p", Fixed(c2).1);
    RangeInjective(Swept(c1.kind, BaseParams(c1)), c1.max, c1.simd, Swept(c2.kind, BaseParams(c2)), c2.max, c2.simd);
    assert |Prefix(c1.kind)| == |Prefix(c2.kind)|;
  }

  // ---------------------------------------------------------------------------------------
  // Samples

  /** `Math.floor((max - min) / segments)`, the only case the sweep uses (segments > 0). */
  function Increment(min: int, max: int, segments: int): (inc: int)
    requires segments > 0
    ensures inc * segments <= max - min < (inc + 1) * segments
  {
    (max - min) / segments
  }

  /** Sample `i`: `max` for the last one, `min + i * increment` before it. */
  function SampleValue(min: int, max: int, segments: int, i: nat): (v: int)
    requires i <= segments
    ensures i == segments ==> v == max
    ensures min <= max ==> min <= v <= max
  {
    if i == segments then max
    else
      var inc := Increment(min, max, segments);
      assert min <= max ==> 0 <= i * inc <= max - min by {
        if min <= max {
          IncrementBounds(min, max, segments, i);
        }
      }
      min + i * inc
  }

  /** The values the sweep visits, in order (none when `segments` is negative). */
  function Samples(min: int, max: int, segments: int): (s: seq<int>)
    ensures |s| == if segments < 0 then 0 else segments + 1
  {
    if segments < 0 then []
    else seq(segments + 1, i requires 0 <= i <= segments => SampleValue(min, max, segments, i))
  }

  lemma IncrementBounds(min: int, max: int, segments: int, i: nat)
    requires min <= max && 0 <= i <= segments && segments > 0
    ensures 0 <= Increment(min, max, segments)
    ensures i * Increment(min, max, segments) <= segments * Increment(min, max, segments) <= max - min
  {
    var inc := Increment(min, max, segments);
    FloorDivision(max - min, segments);
    ScaleMonotone(i, segments, inc);
  }

  /** Floor division of a non-negative number: a non-negative quotient and what is left over. */
  lemma FloorDivision(a: int, b: int)
    requires a >= 0 && b > 0
    ensures 0 <= a / b && b * (a / b) + a % b == a && 0 <= a % b
  {
  }

  /** Scaling by a non-negative factor keeps the order. */
  lemma ScaleMonotone(i: int, j: int, k: int)
    requires i <= j && k >= 0
    ensures i * k <= j * k
  {
    assert (j - i) * k >= 0;
  }

  /**
   * The sweep ends exactly at `max`, starts at `min` when there is more than one sample, and
   * for `min <= max` never leaves `[min, max]` and never goes down.
   */
  lemma SamplesRange(min: int, max: int, segments: int)
    requires segments >= 0
    ensures Samples(min, max, segments)[segments] == max
    ensures segments > 0 ==> Samples(min, max, segments)[0] == min
    ensures min <= max ==> forall i | 0 <= i <= segments ::
      min <= Samples(min, max, segments)[i] <= max
    ensures min <= max ==> forall i, j | 0 <= i <= j <= segments ::
      Samples(min, max, segments)[i] <= Samples(min, max, segments)[j]
  {
    var s := Samples(min, max, segments);
    if min <= max {
      forall i | 0 <= i <= segments
        ensures min <= s[i] <= max
      {
        if i < segments {
          IncrementBounds(min, max, segments, i);
        }
      }
      forall i, j | 0 <= i <= j <= segments
        ensures s[i] <= s[j]
      {
        if j < segments {
          IncrementBounds(min, max, segments, i);
          assert (j - i) * Increment(min, max, segments) >= 0;
        }
      }
    }
  }

  /**
   * Consecutive samples before the last are one increment apart; the last step takes the
   * increment plus whatever the floor dropped, `(max - min) % segments`.
   */
  lemma SamplesSpacing(min: int, max: int, segments: int, i: nat)
    requires 0 <= i < segments
    ensures i + 1 < segments ==>
      Samples(min, max, segments)[i + 1] - Samples(min, max, segments)[i] == Increment(min, max, segments)
    ensures i + 1 == segments ==>
      Samples(min, max, segments)[i + 1] - Samples(min, max, segments)[i]
        == Increment(min, max, segments) + (max - min) % segments
  {
    var inc := Increment(min, max, segments);
    assert (i + 1) * inc == i * inc + inc;
    assert segments * inc + (max - min) % segments == max - min;
  }

  /** From 10 to 100 in 9 segments: steps of 10, the last sample exactly 100. */
  lemma TenToHundred()
    ensures Samples(10, 100, 9) == [10, 20, 30, 40, 50, 60, 70, 80, 90, 100]
  {
    assert Increment(10, 100, 9) == 10;
  }

  /** A single segment samples just the two ends. */
  lemma OneSegment(min: int, max: int)
    ensures Samples(min, max, 1) == [min, max]
  {
    assert Samples(min, max, 1)[0] == min + 0 * Increment(min, max, 1);
  }

  // ---------------------------------------------------------------------------------------
  // Console messages

  function ParamLetter(kind: BenchmarkType): char
  {
    match kind
    case Memory => 'm'
    case Time => 't'
    case Parallelism => 'p'
  }

  /** benchmarkMessage: `m = v`, `t = v` or `p = v`. */
  function BenchmarkMessage(v: int, kind: BenchmarkType): (m: string)
    ensures |m| >= 5
  {
    [ParamLetter(kind)] + " = " + IntToString(v)
  }

  /** The message names the kind and the value unambiguously. */
  lemma MessageInjective(v1: int, k1: BenchmarkType, v2: int, k2: BenchmarkType)
    requires BenchmarkMessage(v1, k1) == BenchmarkMessage(v2, k2)
    ensures v1 == v2 && k1 == k2
  {
    var m1, m2 := BenchmarkMessage(v1, k1), BenchmarkMessage(v2, k2);
    assert m1[0] == ParamLetter(k1) && m2[0] == ParamLetter(k2);
    assert m1[4..] == IntToString(v1) && m2[4..] == IntToString(v2);
    IntToStringInjective(v1, v2);
  }

  // ---------------------------------------------------------------------------------------
  // Random passwords

  /** The 62 ASCII letters and digits. */
  predicate IsAlnum(c: char)
  {
    'A' <= c <= 'Z' || 'a' <= c <= 'z' || '0' <= c <= '9'
  }

  /** The table randomPassword draws from: upper-case letters, lower-case letters, digits. */
  function Alphanumeric(): (t: string)
    ensures |t| == 62
  {
    seq(26, i requires 0 <= i < 26 => ('A' as int + i) as char)
      + seq(26, i requires 0 <= i < 26 => ('a' as int + i) as char)
      + seq(10, i requires 0 <= i < 10 => DigitChar(i))
  }

  /** The table holds each letter and digit exactly once, and nothing else. */
  lemma AlphanumericTable()
    ensures forall c: char :: IsAlnum(c) <==> c in Alphanumeric()
    ensures forall i, j | 0 <= i < j < 62 :: Alphanumeric()[i] != Alphanumeric()[j]
  {
    var t := Alphanumeric();
    forall c: char
      ensures IsAlnum(c) <==> c in t
    {
      if 'A' <= c <= 'Z' {
        assert t[c as int - 'A' as int] == c;
      } else if 'a' <= c <= 'z' {
        assert t[26 + c as int - 'a' as int] == c;
      } else if '0' <= c <= '9' {
        assert t[52 + c as int - '0' as int] == c;
      }
    }
  }

  /** `Math.floor((r / 255) * 61)`: the table index drawn for the random byte `r`. */
  function CharIndex(r: byte): (k: nat)
    ensures k < 62
    ensures k == 61 <==> r == 255
  {
    (r as int * 61) / 255
  }

  /** Larger bytes never draw an earlier index. */
  lemma CharIndexMonotone(r1: byte, r2: byte)
    requires r1 <= r2
    ensures CharIndex(r1) <= CharIndex(r2)
  {
    assert r1 as int * 61 <= r2 as int * 61;
  }

  /** Every character of the table can be drawn. */
  lemma EveryCharDrawn(k: nat)
    requires k < 62
    ensures exists r: byte :: CharIndex(r) == k
  {
    var r := (255 * k + 60) / 61;
    assert 0 <= r <= 255;
    assert CharIndex(r as byte) == k;
  }

  /** The password drawn from the random bytes `rand`: one table character per byte. */
  function PasswordOf(rand: seq<byte>): string
  {
    seq(|rand|, i requires 0 <= i < |rand| => Alphanumeric()[CharIndex(rand[i])])
  }

  /**
   * A password has one character per random byte, each a letter or digit, so it is ASCII
   * and its UTF-8 encoding is exactly as long as it is.
   */
  lemma PasswordShape(rand: seq<byte>)
    ensures |PasswordOf(rand)| == |rand|
    ensures forall i | 0 <= i < |rand| :: IsAlnum(PasswordOf(rand)[i])
    ensures IsAscii(PasswordOf(rand)) && |Utf8Encode(PasswordOf(rand))| == |rand|
  {
    var p := PasswordOf(rand);
    AlphanumericTable();
    forall i | 0 <= i < |rand|
      ensures IsAlnum(p[i])
    {
      assert p[i] in Alphanumeric();
    }
    AsciiEncoding(p);
  }

  /** crypto.getRandomValues on an n-byte array: n arbitrary bytes. */
  method RandomBytes(n: nat) returns (r: seq<byte>)
    ensures |r| == n
  {
    r := [];
    while |r| < n
      invariant |r| <= n
    {
      var b: byte := *;
      r := r + [b];
    }
  }

  /**
   * randomPassword: fills the 62-entry table with a loop per run of characters, draws `len`
   * random bytes and maps each to a table entry.
   */
  method RandomPassword(len: nat) returns (password: string, ghost rand: seq<byte>)
    ensures |password| == len && forall i | 0 <= i < len :: IsAlnum(password[i])
    ensures |rand| == len && password == PasswordOf(rand)
  {
    var chars := new char[62];
    var upperStart, lowerStart := 'A' as int, 'a' as int;
    for i := 0 to 26
      invariant forall k | 0 <= k < i :: chars[k] == Alphanumeric()[k]
      invariant forall k | 26 <= k < 26 + i :: chars[k] == Alphanumeric()[k]
    {
      chars[i] := (upperStart + i) as char;
      chars[i + 26] := (lowerStart + i) as char;
    }
    for i := 0 to 10
      invariant forall k | 0 <= k < 52 + i :: chars[k] == Alphanumeric()[k]
    {
      chars[i + 52] := NatToString(i)[0];
    }
    assert chars[..] == Alphanumeric();

    password := "";
    var bytes := RandomBytes(len);
    rand := bytes;
    for i := 0 to len
      invariant password == PasswordOf(bytes[..i])
    {
      password := password + [chars[(bytes[i] as int * (chars.Length - 1)) / 255]];
    }
    assert bytes[..len] == bytes;
    PasswordShape(bytes);
  }

  // ---------------------------------------------------------------------------------------
  // The sweep

  /** The two builds of the argon2 module the driver loads at start-up. */
  datatype Binaries = Binaries(baseline: seq<byte>, simd: seq<byte>)

  function SourceFor(simd: bool, wasm: Binaries): (source: seq<byte>)
    ensures simd ==> source == wasm.simd
    ensures !simd ==> source == wasm.baseline
  {
    if simd then wasm.simd else wasm.baseline
  }

  /** What one hashPassword call received, and the code it returned. */
  datatype Call = Call(source: seq<byte>, params: Params, password: seq<byte>, salt: seq<byte>,
                       hashLen: nat, code: int)

  /** The length of every hash the driver asks for. */
  const HashLength: nat := 32

  /**
   * The calls of one sample: one or two, all on the same module build with the same
   * parameters and password; the first sees `salt`, a second sees zeros (the first call
   * zeroed the shared salt) and happens only after a zero code. `ok` holds exactly when
   * both calls ran and succeeded; otherwise the last code is the non-zero one.
   */
  ghost predicate SampleRun(calls: seq<Call>, source: seq<byte>, params: Params, pwd: seq<byte>,
                            salt: seq<byte>, ok: bool)
  {
    && 1 <= |calls| <= 2
    && (forall j | 0 <= j < |calls| ::
          calls[j].source == source && calls[j].params == params && calls[j].password == pwd
          && calls[j].hashLen == HashLength)
    && calls[0].salt == salt
    && (|calls| == 2 ==> calls[0].code == 0 && calls[1].salt == Zeros(|salt|))
    && (ok <==> |calls| == 2 && calls[1].code == 0)
    && (!ok ==> calls[|calls| - 1].code != 0)
  }

  /**
   * The calls of a sample before any failure: each returned 0, the first saw `salt` and
   * later ones saw zeros.
   */
  ghost predicate Succeeded(calls: seq<Call>, source: seq<byte>, params: Params, pwd: seq<byte>, salt: seq<byte>)
  {
    forall j | 0 <= j < |calls| ::
      calls[j] == Call(source, params, pwd, if j == 0 then salt else Zeros(|salt|), HashLength, 0)
  }

  lemma SucceededAppend(calls: seq<Call>, source: seq<byte>, params: Params, pwd: seq<byte>, salt: seq<byte>,
                        call: Call)
    requires Succeeded(calls, source, params, pwd, salt)
    requires call == Call(source, params, pwd, if calls == [] then salt else Zeros(|salt|), HashLength, 0)
    ensures Succeeded(calls + [call], source, params, pwd, salt)
  {
    assert forall j | 0 <= j < |calls| :: (calls + [call])[j] == calls[j];
  }

  /** Two successful calls make a successful sample. */
  lemma SampleSucceeded(calls: seq<Call>, source: seq<byte>, params: Params, pwd: seq<byte>, salt: seq<byte>)
    requires Succeeded(calls, source, params, pwd, salt) && |calls| == 2
    ensures SampleRun(calls, source, params, pwd, salt, true)
  {
    assert calls[0].salt == salt && calls[1].salt == Zeros(|salt|);
  }

  /** A call returning a non-zero code after fewer than two successes makes a failed sample. */
  lemma SampleFailed(calls: seq<Call>, source: seq<byte>, params: Params, pwd: seq<byte>, salt: seq<byte>,
                     call: Call)
    requires Succeeded(calls, source, params, pwd, salt) && |calls| < 2
    requires call == Call(source, params, pwd, if calls == [] then salt else Zeros(|salt|), HashLength, call.code)
    requires call.code != 0
    ensures SampleRun(calls + [call], source, params, pwd, salt, false)
  {
    var all := calls + [call];
    assert all[|calls|] == call;
    assert forall j | 0 <= j < |calls| :: all[j] == calls[j];
  }

  /**
   * performance.now(): any time not before `after`. The clock is monotonic, and no reading
   * precedes the time origin 0.
   */
  method Now(after: real) returns (t: real)
    ensures t >= after
  {
    t := *;
    if t < after {
      t := after;
    }
  }

  /** The call record of a hashing event the guest logged, on the module built from `source`. */
  function CallOf(source: seq<byte>, ev: Event): (call: Call)
    requires ev.Hashed?
    ensures call.source == source && call.code == ev.code && call.hashLen == ev.hashLen
    ensures call.params == Params(ev.timeCost, ev.memoryCost, ev.parallelism)
    ensures call.password == ev.pwdBytes && call.salt == ev.saltBytes
  {
    Call(source, Params(ev.timeCost, ev.memoryCost, ev.parallelism), ev.pwdBytes, ev.saltBytes, ev.hashLen, ev.code)
  }

  /**
   * `trace` is one whole run of the hashPassword protocol for `call`, on the module built from
   * `source`, and `call` is that trace's hashing event.
   */
  ghost predicate Hashes(source: seq<byte>, trace: seq<Event>, call: Call)
  {
    && HashTrace(trace, call.salt, call.password, call.params.timeCost, call.params.memoryCost,
                 call.params.parallelism, call.hashLen, call.code)
    && call == CallOf(source, trace[3])
  }

  /** Call by call, `traces` are the protocol runs behind `calls`. */
  ghost predicate Traced(source: seq<byte>, calls: seq<Call>, traces: seq<seq<Event>>)
  {
    |traces| == |calls| && forall j | 0 <= j < |calls| :: Hashes(source, traces[j], calls[j])
  }

  lemma TracedAppend(source: seq<byte>, calls: seq<Call>, traces: seq<seq<Event>>, call: Call, trace: seq<Event>)
    requires Traced(source, calls, traces) && Hashes(source, trace, call)
    ensures Traced(source, calls + [call], traces + [trace])
  {
    forall j | 0 <= j < |calls| + 1
      ensures Hashes(source, (traces + [trace])[j], (calls + [call])[j])
    {
      if j < |calls| {
        assert (traces + [trace])[j] == traces[j] && (calls + [call])[j] == calls[j];
      }
    }
  }

  /**
   * The guest of `host` logged exactly the calls `calls`, one protocol run after another,
   * and `results` holds one hash per call.
   */
  ghost predicate Logged(host: Argon2, calls: seq<Call>, traces: seq<seq<Event>>)
    reads host, host.argon2
  {
    && host.argon2 != null && host.argon2.log == Concat(traces)
    && |host.results| == |calls| && Traced(host.source, calls, traces)
  }

  /**
   * One hashPassword call, as the sample sees it: the guest logs the call's seven-event
   * trace, `call` is the hashing event of that trace, and the salt is left all zeros.
   */
  method HashOnce(argon2: Argon2, params: HashParams) returns (code: int, ghost call: Call, ghost trace: seq<Event>)
    requires argon2.argon2 != null && argon2.argon2.Valid() && params.salt != argon2.argon2.mem
    modifies argon2, argon2.argon2, argon2.argon2.mem, params.salt
    ensures argon2.argon2 == old(argon2.argon2) && argon2.argon2.Valid()
    ensures argon2.argon2.mem == old(argon2.argon2.mem) || fresh(argon2.argon2.mem)
    ensures argon2.argon2.log == old(argon2.argon2.log) + trace
    ensures HashTrace(trace, old(params.salt[..]), Utf8Encode(params.password),
                      params.timeCost, params.memoryCost, params.parallelism, params.hashLen, code)
    ensures call == Call(argon2.source, Params(params.timeCost, params.memoryCost, params.parallelism),
                         Utf8Encode(params.password), old(params.salt[..]), params.hashLen, code)
    ensures Hashes(argon2.source, trace, call)
    ensures AllZero(params.salt[..])
    ensures |argon2.results| == |old(argon2.results)| + 1
  {
    ghost var encoder, encoding;
    code, trace, encoder, encoding := argon2.HashPassword(params);
    call := CallOf(argon2.source, trace[3]);
  }

  /**
   * The parameter object of one sample: the benchmark's fixed values, hash length 32, and
   * the swept parameter overwritten in place with `v`.
   */
  method SampleParams(c: Config, v: int, password: string, salt: array<byte>) returns (params: HashParams)
    ensures fresh(params) && params.password == password && params.salt == salt && params.hashLen == HashLength
    ensures Params(params.timeCost, params.memoryCost, params.parallelism) == Override(c.kind, BaseParams(c), v)
  {
    params := new HashParams(password, salt, c.time, c.memory, c.parallelism, HashLength);
    match c.kind {
      case Memory => params.memoryCost := v;
      case Time => params.timeCost := v;
      case Parallelism => params.parallelism := v;
    }
  }

  /**
   * The inner loop of a sample: hashPassword twice on one module; on a non-zero code the
   * curve is saved and the sample (and sweep) stops.
   */
  method RunTwice(argon2: Argon2, params: HashParams, curve: BenchmarkCurve)
    returns (ok: bool, ghost calls: seq<Call>, ghost traces: seq<seq<Event>>)
    requires argon2.argon2 != null && argon2.argon2.Valid() && params.salt != argon2.argon2.mem
    requires params.hashLen == HashLength
    modifies argon2, argon2.argon2, argon2.argon2.mem, params.salt, curve
    ensures argon2.argon2 == old(argon2.argon2) && argon2.argon2.log == old(argon2.argon2.log) + Concat(traces)
    ensures |argon2.results| == |old(argon2.results)| + |calls| && Traced(argon2.source, calls, traces)
    ensures SampleRun(calls, argon2.source, Params(params.timeCost, params.memoryCost, params.parallelism),
                      Utf8Encode(params.password), old(params.salt[..]), ok)
    ensures AllZero(params.salt[..])
    ensures ok ==> curve.rows == old(curve.rows) && curve.saves == old(curve.saves)
    ensures !ok ==> curve.rows == old(curve.rows) && curve.saves == old(curve.saves) + 1
  {
    ghost var p := Params(params.timeCost, params.memoryCost, params.parallelism);
    ghost var pwd := Utf8Encode(params.password);
    ghost var salt0 := params.salt[..];
    var guest := argon2.argon2;
    ghost var log0, results0 := guest.log, argon2.results;
    ok := true;
    calls, traces := [], [];
    var run := 0;
    while run < 2
      invariant 0 <= run <= 2 && |calls| == run && ok
      invariant argon2.argon2 == guest && guest.Valid()
      invariant guest.log == log0 + Concat(traces) && |argon2.results| == |results0| + run
      invariant Traced(argon2.source, calls, traces)
      invariant guest.mem == old(guest.mem) || fresh(guest.mem)
      invariant Succeeded(calls, argon2.source, p, pwd, salt0)
      invariant run == 0 ==> params.salt[..] == salt0
      invariant run > 0 ==> AllZero(params.salt[..])
      invariant curve.rows == old(curve.rows) && curve.saves == old(curve.saves)
    {
      ghost var saltIn := params.salt[..];
      var code, call, trace := HashOnce(argon2, params);
      TracedAppend(argon2.source, calls, traces, call, trace);
      ConcatAppend(log0, traces, trace);
      if run > 0 {
        AllZeroIsZeros(saltIn);
      }
      if code != 0 {
        SampleFailed(calls, argon2.source, p, pwd, salt0, call);
        calls, traces := calls + [call], traces + [trace];
        curve.Save();
        ok := false;
        break;
      }
      SucceededAppend(calls, argon2.source, p, pwd, salt0, call);
      calls, traces := calls + [call], traces + [trace];
      run := run + 1;
    }
    if ok {
      SampleSucceeded(calls, argon2.source, p, pwd, salt0);
    }
  }

  /**
   * One sample of the sweep: the parameters with the swept one set to `v`, a fresh module of
   * the chosen build, and up to two hashPassword calls. After two zero codes the elapsed time
   * and `v` are pushed to the curve; on a non-zero code the curve is saved instead.
   */
  method RunSample(c: Config, v: int, password: string, salt: array<byte>, wasm: Binaries, curve: BenchmarkCurve)
    returns (ok: bool, ghost calls: seq<Call>, ghost elapsed: real, ghost host: Argon2, ghost traces: seq<seq<Event>>)
    modifies salt, curve
    ensures fresh(host) && host.source == SourceFor(c.simd, wasm) && Logged(host, calls, traces)
    ensures SampleRun(calls, SourceFor(c.simd, wasm), Override(c.kind, BaseParams(c), v),
                      Utf8Encode(password), old(salt[..]), ok)
    ensures AllZero(salt[..])
    ensures ok ==> curve.rows == old(curve.rows) + [Row(elapsed, v)] && curve.saves == old(curve.saves)
    ensures ok ==> elapsed >= 0.0
    ensures !ok ==> curve.rows == old(curve.rows) && curve.saves == old(curve.saves) + 1
  {
    var params := SampleParams(c, v, password, salt);
    var start := Now(0.0);
    var argon2 := new Argon2(if c.simd then wasm.simd else wasm.baseline);
    argon2.Instantiate();
    ok, calls, traces := RunTwice(argon2, params, curve);
    host := argon2;
    elapsed := 0.0;
    if ok {
      var end := Now(start);
      elapsed := end - start;
      curve.Push(end - start, v);
    }
  }

  /** The length of the password drawn for each sample. */
  const PasswordLength: nat := 20

  /** The length of the random salt. */
  const SaltLength: nat := 16

  /** A password as randomPassword draws it: 20 letters and digits. */
  predicate IsPassword(p: string)
  {
    |p| == PasswordLength && forall i | 0 <= i < |p| :: IsAlnum(p[i])
  }

  /** The salt sample `k` starts with: the random one for the first, zeros afterwards. */
  function SaltAt(salt0: seq<byte>, k: nat): seq<byte>
  {
    if k == 0 then salt0 else Zeros(|salt0|)
  }

  /** The values the sweep of `c` visits. */
  function SweepValues(c: Config): seq<int>
  {
    Samples(Swept(c.kind, BaseParams(c)), c.max, c.segments)
  }

  /** Sample `i` of the sweep of `c` is the value the loop computes for it. */
  lemma SweepValueAt(c: Config, i: nat)
    requires i <= c.segments
    ensures var min := Swept(c.kind, BaseParams(c));
            SweepValues(c)[i] == if i == c.segments then c.max else min + i * Increment(min, c.max, c.segments)
  {
  }

  /**
   * Sample `k` of the sweep of `c` made the calls `calls`, with the swept parameter at its
   * value, the password drawn for it and the salt of that sample, and ended as `ok` says.
   */
  ghost predicate Ran(c: Config, source: seq<byte>, salt0: seq<byte>, password: string, calls: seq<Call>,
                      k: nat, ok: bool)
  {
    k < |SweepValues(c)|
    && SampleRun(calls, source, Override(c.kind, BaseParams(c), SweepValues(c)[k]), Utf8Encode(password),
                 SaltAt(salt0, k), ok)
  }

  /**
   * The first `|rows|` samples of the sweep of `c` all succeeded: `batches[k]` holds the two
   * calls of sample `k`, made with the swept parameter at its value and the password drawn
   * for it, and `rows[k]` holds that value.
   */
  ghost predicate Completed(c: Config, source: seq<byte>, salt0: seq<byte>, passwords: seq<string>,
                            batches: seq<seq<Call>>, rows: seq<Row>)
  {
    && |batches| == |rows| && |passwords| == |rows| && |rows| <= |SweepValues(c)|
    && (forall k: nat | k < |batches| :: Ran(c, source, salt0, passwords[k], batches[k], k, true))
    && (forall k | 0 <= k < |rows| :: rows[k].value == SweepValues(c)[k])
  }

  /**
   * Sample by sample, `hosts[k]` is the module sample `k` ran on: built from `source`, and
   * its calls `batches[k]` were one protocol run each, `logs[k]`. No two samples shared a module.
   * What each module's guest logged is stated where the sample runs (Logged, in NextSample).
   */
  ghost predicate OnHosts(source: seq<byte>, hosts: seq<Argon2>, batches: seq<seq<Call>>, logs: seq<seq<seq<Event>>>)
  {
    && |hosts| == |batches| && |logs| == |batches|
    && (forall k | 0 <= k < |hosts| :: hosts[k].source == source && Traced(source, batches[k], logs[k]))
    && (forall j, k | 0 <= j < k < |hosts| :: hosts[j] != hosts[k])
  }

  /** A sample on a module no earlier sample used extends OnHosts. */
  lemma OnHostsAppend(source: seq<byte>, hosts: seq<Argon2>, batches: seq<seq<Call>>, logs: seq<seq<seq<Event>>>,
                      host: Argon2, calls: seq<Call>, traces: seq<seq<Event>>)
    requires OnHosts(source, hosts, batches, logs) && host !in hosts
    requires host.source == source && Traced(source, calls, traces)
    ensures OnHosts(source, hosts + [host], batches + [calls], logs + [traces])
  {
    var hs, bs, ls := hosts + [host], batches + [calls], logs + [traces];
    forall k | 0 <= k < |hs|
      ensures hs[k].source == source && Traced(source, bs[k], ls[k])
    {
      if k < |hosts| {
        assert hs[k] == hosts[k] && bs[k] == batches[k] && ls[k] == logs[k];
      }
    }
    forall j, k | 0 <= j < k < |hs|
      ensures hs[j] != hs[k]
    {
      if k < |hosts| {
        assert hs[j] == hosts[j] && hs[k] == hosts[k];
      } else {
        assert hs[j] in hosts;
      }
    }
  }

  /** Every password of a sweep was drawn by randomPassword. */
  predicate Drawn(passwords: seq<string>)
  {
    forall k | 0 <= k < |passwords| :: IsPassword(passwords[k])
  }

  lemma DrawnAppend(passwords: seq<string>, password: string)
    requires Drawn(passwords) && IsPassword(password)
    ensures Drawn(passwords + [password])
  {
    assert forall k | 0 <= k < |passwords| :: (passwords + [password])[k] == passwords[k];
  }

  /**
   * What a sweep did, sample by sample. `batches[k]` holds the hashPassword calls of sample
   * `k`, made with the swept parameter at its value and the password drawn for it; only the
   * very first call sees the random salt, every later one sees zeros. Each sample that
   * succeeded pushed one row holding its value. Either every sample succeeded and the curve
   * was saved once, or the sweep stopped at the first failing sample and saved it twice.
   */
  ghost predicate SweepOutcome(c: Config, source: seq<byte>, salt0: seq<byte>, passwords: seq<string>,
                               batches: seq<seq<Call>>, rows: seq<Row>, saves: nat)
  {
    var samples := SweepValues(c);
    && |rows| <= |batches| <= |samples|
    && |passwords| == |batches|
    && (forall k: nat | k < |rows| :: Ran(c, source, salt0, passwords[k], batches[k], k, true))
    && (forall k | 0 <= k < |rows| :: rows[k].value == samples[k])
    && (|rows| == |samples| ==> |batches| == |rows| && saves == 1)
    && (|rows| < |samples| ==> |batches| == |rows| + 1 && saves == 2
                               && Ran(c, source, salt0, passwords[|rows|], batches[|rows|], |rows|, false))
  }

  /** One more successful sample extends a completed prefix. */
  lemma CompletedStep(c: Config, source: seq<byte>, salt0: seq<byte>, passwords: seq<string>,
                      batches: seq<seq<Call>>, rows: seq<Row>, password: string, calls: seq<Call>, row: Row)
    requires Completed(c, source, salt0, passwords, batches, rows)
    requires |rows| < |SweepValues(c)| && row.value == SweepValues(c)[|rows|]
    requires Ran(c, source, salt0, password, calls, |rows|, true)
    ensures Completed(c, source, salt0, passwords + [password], batches + [calls], rows + [row])
  {
    var bs, ps, rs := batches + [calls], passwords + [password], rows + [row];
    assert forall k | 0 <= k < |rs| :: rs[k] == if k < |rows| then rows[k] else row;
    forall k: nat | k < |bs|
      ensures Ran(c, source, salt0, ps[k], bs[k], k, true)
    {
      if k < |batches| {
        assert Ran(c, source, salt0, passwords[k], batches[k], k, true);
        assert bs[k] == batches[k] && ps[k] == passwords[k];
      } else {
        assert bs[k] == calls && ps[k] == password;
      }
    }
  }

  /** A sweep whose every sample succeeded, saved once. */
  lemma SweepCompleted(c: Config, source: seq<byte>, salt0: seq<byte>, passwords: seq<string>,
                       batches: seq<seq<Call>>, rows: seq<Row>)
    requires Completed(c, source, salt0, passwords, batches, rows) && |rows| == |SweepValues(c)|
    ensures SweepOutcome(c, source, salt0, passwords, batches, rows, 1)
  {
  }

  /** A sweep stopped by the failing sample after a completed prefix, saved twice. */
  lemma SweepAborted(c: Config, source: seq<byte>, salt0: seq<byte>, passwords: seq<string>,
                     batches: seq<seq<Call>>, rows: seq<Row>, password: string, calls: seq<Call>)
    requires Completed(c, source, salt0, passwords, batches, rows) && |rows| < |SweepValues(c)|
    requires Ran(c, source, salt0, password, calls, |rows|, false)
    ensures SweepOutcome(c, source, salt0, passwords + [password], batches + [calls], rows, 2)
  {
    var bs, ps := batches + [calls], passwords + [password];
    forall k: nat | k < |rows|
      ensures Ran(c, source, salt0, ps[k], bs[k], k, true)
    {
      assert Ran(c, source, salt0, passwords[k], batches[k], k, true);
      assert bs[k] == batches[k] && ps[k] == passwords[k];
    }
    assert bs[|rows|] == calls && ps[|rows|] == password;
  }

  /** A sweep saved only once ran every sample successfully, and its last row is at `max`. */
  lemma FullSweep(c: Config, source: seq<byte>, salt0: seq<byte>, passwords: seq<string>,
                  batches: seq<seq<Call>>, rows: seq<Row>)
    requires SweepOutcome(c, source, salt0, passwords, batches, rows, 1) && c.segments >= 0
    ensures |rows| == |batches| == c.segments + 1
    ensures rows[c.segments].value == c.max
  {
    SamplesRange(Swept(c.kind, BaseParams(c)), c.max, c.segments);
  }

  /**
   * Every hashPassword call of a sweep hashes the password drawn for its sample, with the
   * parameters of the benchmark except that the swept one is at the sample's value, and a
   * 32-byte output; only the very first call sees the random salt, every later one an
   * all-zero salt of the same length.
   */
  lemma SweepCalls(c: Config, source: seq<byte>, salt0: seq<byte>, passwords: seq<string>,
                   batches: seq<seq<Call>>, rows: seq<Row>, saves: nat)
    requires SweepOutcome(c, source, salt0, passwords, batches, rows, saves)
    ensures forall k, j | 0 <= k < |batches| && 0 <= j < |batches[k]| ::
      && batches[k][j].source == source && batches[k][j].hashLen == HashLength
      && batches[k][j].password == Utf8Encode(passwords[k])
      && batches[k][j].params == Override(c.kind, BaseParams(c), SweepValues(c)[k])
      && batches[k][j].salt == if k == 0 && j == 0 then salt0 else Zeros(|salt0|)
  {
    forall k, j | 0 <= k < |batches| && 0 <= j < |batches[k]|
      ensures batches[k][j].salt == if k == 0 && j == 0 then salt0 else Zeros(|salt0|)
      ensures batches[k][j].source == source && batches[k][j].hashLen == HashLength
      ensures batches[k][j].password == Utf8Encode(passwords[k])
      ensures batches[k][j].params == Override(c.kind, BaseParams(c), SweepValues(c)[k])
    {
      assert Ran(c, source, salt0, passwords[k], batches[k], k, k < |rows|);
    }
  }

  /** A benchmark of the time suite: only the time range and the memory are given. */
  predicate TimeSuiteEntry(b: Benchmark, memory: int)
    reads b
  {
    && b.kind == Time && b.time == Some(1) && b.max == 10 && b.memory == Some(memory)
    && b.parallelism == None && b.simd == None && b.segments == None
  }

  /**
   * The time suite sweeps time from 1 to 10 in the default 10 segments: the increment is
   * floor(9 / 10) = 0, so time 1 is measured ten times before the final sample at 10.
   */
  lemma TimeSuiteSamples(b: Benchmark, memory: int)
    requires TimeSuiteEntry(b, memory)
    ensures Defaulted(b) == Config(Time, 1, 1, memory, false, 10, 10)
    ensures var s := SweepValues(Defaulted(b));
      |s| == 11 && s[10] == 10 && forall i | 0 <= i < 10 :: s[i] == 1
  {
    assert Increment(1, 10, 10) == 0;
  }

  /** The first benchmark of the time suite writes its curve as `results/time/m32768_p1` / `1-10`. */
  lemma TimeSuiteLabel(b: Benchmark)
    requires TimeSuiteEntry(b, 32 * 1024)
    ensures LabelOf(Defaulted(b)) == Label("results/time/m32768_p1", "1-10", "Time Parameter (iterations)", 1)
  {
    assert NatToString(32768) == "32768" && NatToString(1) == "1" && NatToString(10) == "10";
    assert Dir("results/time/m", 32768, "_p", 1) == "results/time/m32768_p1";
  }

  /**
   * runBenchmark: defaults, then the sweep of the resulting settings.
   */
  method RunBenchmark(benchmark: Benchmark, wasm: Binaries)
    returns (curve: BenchmarkCurve, ghost salt0: seq<byte>, ghost passwords: seq<string>, ghost batches: seq<seq<Call>>,
             ghost hosts: seq<Argon2>, ghost logs: seq<seq<seq<Event>>>)
    modifies benchmark
    ensures Filled(benchmark) && FilledConfig(benchmark) == old(Defaulted(benchmark))
    ensures fresh(curve) && curve.file == OutputPath(FilledConfig(benchmark))
    ensures |salt0| == SaltLength && Drawn(passwords)
    ensures SweepOutcome(FilledConfig(benchmark), SourceFor(FilledConfig(benchmark).simd, wasm), salt0, passwords,
                         batches, curve.rows, curve.saves)
    ensures OnHosts(SourceFor(FilledConfig(benchmark).simd, wasm), hosts, batches, logs)
  {
    var b := AssignDefaults(benchmark);
    curve, salt0, passwords, batches, hosts, logs := Sweep(FilledConfig(b), wasm);
  }

  /**
   * The body of runBenchmark once defaults are in place: label, a fresh curve and a random
   * salt shared by every sample, then one sample per value, stopping at the first failure;
   * the curve is saved at the end.
   */
  method Sweep(c: Config, wasm: Binaries)
    returns (curve: BenchmarkCurve, ghost salt0: seq<byte>, ghost passwords: seq<string>, ghost batches: seq<seq<Call>>,
             ghost hosts: seq<Argon2>, ghost logs: seq<seq<seq<Event>>>)
    ensures fresh(curve) && curve.file == OutputPath(c)
    ensures |salt0| == SaltLength && Drawn(passwords)
    ensures SweepOutcome(c, SourceFor(c.simd, wasm), salt0, passwords, batches, curve.rows, curve.saves)
    ensures OnHosts(SourceFor(c.simd, wasm), hosts, batches, logs)
  {
    var tag := LabelOf(c);
    curve := new BenchmarkCurve(tag.dir + "/" + tag.file + ".csv");
    var bytes := RandomBytes(SaltLength);
    var salt := new byte[SaltLength](i requires 0 <= i < SaltLength => bytes[i]);
    salt0 := bytes;
    passwords, batches, hosts, logs := SampleAll(c, wasm, curve, salt, salt0);
    curve.Save();
  }

  /**
   * The sampling loop of runBenchmark: one sample per value of the sweep, each with a fresh
   * random password, stopping at the first failure. What is left is the final save.
   */
  method SampleAll(c: Config, wasm: Binaries, curve: BenchmarkCurve, salt: array<byte>, ghost salt0: seq<byte>)
    returns (ghost passwords: seq<string>, ghost batches: seq<seq<Call>>, ghost hosts: seq<Argon2>,
             ghost logs: seq<seq<seq<Event>>>)
    requires curve.rows == [] && curve.saves == 0 && salt[..] == salt0
    modifies salt, curve
    ensures Drawn(passwords)
    ensures SweepOutcome(c, SourceFor(c.simd, wasm), salt0, passwords, batches, curve.rows, curve.saves + 1)
    ensures OnHosts(SourceFor(c.simd, wasm), hosts, batches, logs)
  {
    var tag := LabelOf(c);
    ghost var samples := SweepValues(c);
    ghost var source := SourceFor(c.simd, wasm);
    var min, max, segments := tag.min, c.max, c.segments;
    var increment := if segments > 0 then Increment(min, max, segments) else 0;
    passwords, batches, hosts, logs := [], [], [], [];
    var i := 0;
    while i <= segments
      invariant 0 <= i <= |samples| && |curve.rows| == i && curve.saves == 0
      invariant Completed(c, source, salt0, passwords, batches, curve.rows) && Drawn(passwords)
      invariant salt[..] == SaltAt(salt0, i)
      invariant OnHosts(source, hosts, batches, logs)
      modifies salt, curve
      decreases segments + 1 - i
    {
      var v := if i == segments then max else min + i * increment;
      SweepValueAt(c, i);
      var password, rand := RandomPassword(PasswordLength);
      var ok, calls, host, traces := NextSample(c, i, v, password, salt, wasm, curve, salt0, passwords, batches, hosts, logs);
      DrawnAppend(passwords, password);
      hosts, logs := hosts + [host], logs + [traces];
      if !ok {
        batches, passwords := batches + [calls], passwords + [password];
        return;
      }
      batches, passwords := batches + [calls], passwords + [password];
      i := i + 1;
    }
    SweepCompleted(c, source, salt0, passwords, batches, curve.rows);
  }

  /**
   * Sample `i` of the sweep, after `i` successful ones: one RunSample with the password
   * for this sample. On success the completed prefix grows by this sample; on failure the curve
   * has been saved and `calls` ends with the failing call.
   */
  method NextSample(c: Config, i: nat, v: int, password: string, salt: array<byte>, wasm: Binaries,
                    curve: BenchmarkCurve, ghost salt0: seq<byte>, ghost passwords: seq<string>,
                    ghost batches: seq<seq<Call>>, ghost hosts: seq<Argon2>, ghost logs: seq<seq<seq<Event>>>)
    returns (ok: bool, ghost calls: seq<Call>, ghost host: Argon2, ghost traces: seq<seq<Event>>)
    requires Completed(c, SourceFor(c.simd, wasm), salt0, passwords, batches, curve.rows)
    requires OnHosts(SourceFor(c.simd, wasm), hosts, batches, logs)
    requires i == |curve.rows| < |SweepValues(c)| && v == SweepValues(c)[i]
    requires salt[..] == SaltAt(salt0, i)
    modifies salt, curve
    ensures salt[..] == SaltAt(salt0, i + 1)
    ensures ok ==> Completed(c, SourceFor(c.simd, wasm), salt0, passwords + [password], batches + [calls], curve.rows)
                   && curve.saves == old(curve.saves)
    ensures !ok ==> curve.rows == old(curve.rows) && curve.saves == old(curve.saves) + 1
    ensures !ok ==> Ran(c, SourceFor(c.simd, wasm), salt0, password, calls, i, false)
    ensures !ok ==> SweepOutcome(c, SourceFor(c.simd, wasm), salt0, passwords + [password], batches + [calls], curve.rows, 2)
    ensures fresh(host) && host.source == SourceFor(c.simd, wasm) && Logged(host, calls, traces)
    ensures OnHosts(SourceFor(c.simd, wasm), hosts + [host], batches + [calls], logs + [traces])
  {
    ghost var rows := curve.rows;
    ghost var elapsed;
    ok, calls, elapsed, host, traces := RunSample(c, v, password, salt, wasm, curve);
    OnHostsAppend(SourceFor(c.simd, wasm), hosts, batches, logs, host, calls, traces);
    AllZeroIsZeros(salt[..]);
    if ok {
      CompletedStep(c, SourceFor(c.simd, wasm), salt0, passwords, batches, rows, password, calls, Row(elapsed, v));
    } else {
      SweepAborted(c, SourceFor(c.simd, wasm), salt0, passwords, batches, curve.rows, password, calls);
    }
  }
}
