/**
 * The host binding to the Argon2 WebAssembly module: byte-view helpers, the guest module
 * (its growable linear memory, allocator and raw hashing entry point) and `Argon2.HashPassword`,
 * which allocates, copies, invokes, copies back, erases and frees in a fixed order.
 */
module Argon2Binding {
  import opened Bytes
  import opened TextEncoding

  /**
   * A `Uint8Array` view: a window of `length` bytes starting at `offset` in `buffer`.
   * A view over guest memory names the array that was the guest's memory when the view
   * was made; once the guest memory grows, that array is no longer the guest's memory.
   */
  datatype View = View(buffer: array<byte>, offset: nat, length: nat)

  predicate InBounds(v: View)
  {
    v.offset + v.length <= v.buffer.Length
  }

  function Contents(v: View): seq<byte>
    requires InBounds(v)
    reads v.buffer
  {
    v.buffer[v.offset..v.offset + v.length]
  }

  /** The ranges [p, p+n) and [q, q+m) do not overlap. */
  predicate Apart(p: nat, n: nat, q: nat, m: nat)
  {
    p + n <= q || q + m <= p
  }

  /** The `n` bytes from `p` on are in bounds of both sequences and the same in both. */
  ghost predicate SameAt(before: seq<byte>, after: seq<byte>, p: nat, n: nat)
  {
    p + n <= |before| && p + n <= |after| && after[p..p + n] == before[p..p + n]
  }

  /** Two distinct live regions of `live` (pointer to size) do not overlap. */
  predicate Disjoint(live: map<nat, nat>, p: nat, q: nat)
  {
    p in live && q in live ==> Apart(p, live[p], q, live[q])
  }

  /** Every region of `regions` (pointer to size) holds the same bytes in `after` as in `before`. */
  ghost predicate Kept(before: seq<byte>, after: seq<byte>, regions: map<nat, nat>)
  {
    forall p {:trigger SameAt(before, after, p, regions[p])} | p in regions :: SameAt(before, after, p, regions[p])
  }

  /** The regions of `live` that do not overlap [lo, lo+n). */
  ghost function ApartFrom(live: map<nat, nat>, lo: nat, n: nat): (r: map<nat, nat>)
    ensures forall p :: p in r <==> p in live && Apart(p, live[p], lo, n)
    ensures forall p | p in r :: r[p] == live[p]
  {
    map p | p in live && Apart(p, live[p], lo, n) :: live[p]
  }

  lemma KeptRegion(before: seq<byte>, after: seq<byte>, regions: map<nat, nat>, p: nat)
    requires Kept(before, after, regions) && p in regions
    ensures p + regions[p] <= |before| && p + regions[p] <= |after|
    ensures after[p..p + regions[p]] == before[p..p + regions[p]]
  {
    assert SameAt(before, after, p, regions[p]);
  }

  lemma KeptTransitive(a: seq<byte>, b: seq<byte>, c: seq<byte>, regions: map<nat, nat>)
    requires Kept(a, b, regions) && Kept(b, c, regions)
    ensures Kept(a, c, regions)
  {
    forall p | p in regions
      ensures SameAt(a, c, p, regions[p])
    {
      assert SameAt(a, b, p, regions[p]) && SameAt(b, c, p, regions[p]);
    }
  }

  /** Every region of `small` is a region of `big`, with the same size. */
  predicate Within(small: map<nat, nat>, big: map<nat, nat>)
  {
    forall p | p in small :: p in big && big[p] == small[p]
  }

  /**
   * Regions kept over two steps, each step keeping a set of regions that includes them,
   * are kept over both.
   */
  lemma KeptThrough(a: seq<byte>, b: seq<byte>, c: seq<byte>, first: map<nat, nat>, second: map<nat, nat>,
                    regions: map<nat, nat>)
    requires Kept(a, b, first) && Kept(b, c, second)
    requires Within(regions, first) && Within(regions, second)
    ensures Kept(a, c, regions)
  {
    forall p | p in regions
      ensures SameAt(a, c, p, regions[p])
    {
      assert SameAt(a, b, p, first[p]) && SameAt(b, c, p, second[p]);
    }
  }

  /** `s` with the `n` bytes from `lo` on set to zero. */
  function Zeroed(s: seq<byte>, lo: nat, n: nat): (r: seq<byte>)
    requires lo + n <= |s|
    ensures |r| == |s| && AllZero(r[lo..lo + n])
    ensures r[..lo] == s[..lo] && r[lo + n..] == s[lo + n..]
  {
    s[..lo] + Zeros(n) + s[lo + n..]
  }

  /** `s` with the bytes from `at` on replaced by `t`. */
  function Spliced(s: seq<byte>, at: nat, t: seq<byte>): (r: seq<byte>)
    requires at + |t| <= |s|
    ensures |r| == |s| && r[at..at + |t|] == t
    ensures r[..at] == s[..at] && r[at + |t|..] == s[at + |t|..]
  {
    s[..at] + t + s[at + |t|..]
  }

  /** Byte by byte, a splice holds `t` inside [at, at+|t|) and `s` elsewhere. */
  lemma SplicedBytes(s: seq<byte>, at: nat, t: seq<byte>)
    requires at + |t| <= |s|
    ensures forall k :: 0 <= k < |s| ==> Spliced(s, at, t)[k] == if at <= k < at + |t| then t[k - at] else s[k]
  {
  }

  /** Splicing over the whole sequence gives the new bytes. */
  lemma SplicedWhole(s: seq<byte>, t: seq<byte>)
    requires |t| == |s|
    ensures Spliced(s, 0, t) == t
  {
    assert Spliced(s, 0, t) == Spliced(s, 0, t)[0..|t|];
  }

  /** Zeroing is idempotent, and zeroing bytes that are already zero changes nothing. */
  lemma ZeroedIdempotent(s: seq<byte>, lo: nat, n: nat)
    requires lo + n <= |s|
    ensures Zeroed(Zeroed(s, lo, n), lo, n) == Zeroed(s, lo, n)
    ensures AllZero(s[lo..lo + n]) ==> Zeroed(s, lo, n) == s
  {
    if AllZero(s[lo..lo + n]) {
      AllZeroIsZeros(s[lo..lo + n]);
      assert s == s[..lo] + s[lo..lo + n] + s[lo + n..];
    }
    var z := Zeroed(s, lo, n);
    AllZeroIsZeros(z[lo..lo + n]);
    assert z == z[..lo] + z[lo..lo + n] + z[lo + n..];
  }

  /** Writing `t` at `at` leaves every range apart from it unchanged. */
  lemma SplicedKeeps(s: seq<byte>, at: nat, t: seq<byte>, p: nat, n: nat)
    requires at + |t| <= |s| && p + n <= |s| && Apart(at, |t|, p, n)
    ensures Spliced(s, at, t)[p..p + n] == s[p..p + n]
  {
    var r := Spliced(s, at, t);
    if p + n <= at {
      assert r[p..p + n] == r[..at][p..p + n];
    } else {
      assert r[p..p + n] == r[at + |t|..][p - (at + |t|)..p + n - (at + |t|)];
    }
  }

  /** Writing `t` at `at` leaves every region apart from it unchanged. */
  lemma SplicedKeepsAll(s: seq<byte>, at: nat, t: seq<byte>, regions: map<nat, nat>)
    requires at + |t| <= |s|
    requires forall p | p in regions :: p + regions[p] <= |s| && Apart(at, |t|, p, regions[p])
    ensures Kept(s, Spliced(s, at, t), regions)
  {
    forall p | p in regions
      ensures Spliced(s, at, t)[p..p + regions[p]] == s[p..p + regions[p]]
    {
      SplicedKeeps(s, at, t, p, regions[p]);
    }
  }

  /** Zeroing a range leaves every range apart from it unchanged. */
  lemma ZeroedKeeps(s: seq<byte>, lo: nat, n: nat, p: nat, m: nat)
    requires lo + n <= |s| && p + m <= |s| && Apart(lo, n, p, m)
    ensures Zeroed(s, lo, n)[p..p + m] == s[p..p + m]
  {
    var r := Zeroed(s, lo, n);
    if p + m <= lo {
      assert r[p..p + m] == r[..lo][p..p + m];
    } else {
      assert r[p..p + m] == r[lo + n..][p - (lo + n)..p + m - (lo + n)];
    }
  }

  /**
   * zeroMemory: overwrite every byte of the view with 0x00, `passes` times. With no pass
   * nothing changes; bytes of the buffer outside the view never change.
   */
  method ZeroMemory(view: View, passes: nat)
    requires InBounds(view)
    modifies view.buffer
    ensures passes == 0 ==> view.buffer[..] == old(view.buffer[..])
    ensures passes >= 1 ==> view.buffer[..] == Zeroed(old(view.buffer[..]), view.offset, view.length)
  {
    var buf, off := view.buffer, view.offset;
    for i := 0 to passes
      invariant i == 0 ==> buf[..] == old(buf[..])
      invariant i >= 1 ==> buf[..] == Zeroed(old(buf[..]), off, view.length)
    {
      ghost var before := buf[..];
      for j := 0 to view.length
        invariant forall k :: 0 <= k < buf.Length && !(off <= k < off + j) ==> buf[k] == before[k]
        invariant forall k :: off <= k < off + j ==> buf[k] == 0
      {
        buf[off + j] := 0x00;
      }
      assert buf[..] == Zeroed(before, off, view.length);
      ZeroedOverZeroed(old(buf[..]), before, off, view.length, i);
    }
  }

  lemma ZeroedOverZeroed(orig: seq<byte>, before: seq<byte>, lo: nat, n: nat, pass: nat)
    requires lo + n <= |orig|
    requires pass == 0 ==> before == orig
    requires pass >= 1 ==> before == Zeroed(orig, lo, n)
    ensures Zeroed(before, lo, n) == Zeroed(orig, lo, n)
  {
    if pass >= 1 {
      ZeroedIdempotent(orig, lo, n);
    } else {
      assert before == orig;
    }
  }

  /**
   * copyMemory: the first `len` bytes of `src` are written to the first `len` bytes of
   * `dest`; nothing else in `dest`'s buffer changes, and `src`'s bytes do not change. The
   * two views are over different buffers.
   */
  method CopyMemory(dest: View, src: View, len: nat)
    requires InBounds(dest) && InBounds(src)
    requires len <= dest.length && len <= src.length
    requires dest.buffer != src.buffer
    modifies dest.buffer
    ensures dest.buffer[..] == Spliced(old(dest.buffer[..]), dest.offset, old(Contents(src))[..len])
    ensures Contents(src)[..len] == old(Contents(src))[..len]
  {
    var d, off := dest.buffer, dest.offset;
    ghost var d0 := d[..];
    ghost var bytes := Contents(src)[..len];
    assert Spliced(d0, off, bytes[..0]) == d0 by {
      assert d0 == d0[..off] + d0[off..];
    }
    for i := 0 to len
      invariant d[..] == Spliced(d0, off, bytes[..i])
    {
      SplicedStep(d0, off, bytes, i);
      d[off + i] := src.buffer[src.offset + i];
    }
    assert bytes[..len] == bytes;
  }

  /** Extending the spliced bytes by one writes that one byte. */
  lemma SplicedStep(s: seq<byte>, at: nat, t: seq<byte>, i: nat)
    requires at + |t| <= |s| && i < |t|
    ensures Spliced(s, at, t[..i + 1]) == Spliced(s, at, t[..i])[at + i := t[i]]
  {
    SplicedBytes(s, at, t[..i + 1]);
    SplicedBytes(s, at, t[..i]);
  }

  /** What the guest module saw, in order: allocations, the hashing call and frees. */
  datatype Event =
    | Allocated(size: nat, ptr: nat)
    | Hashed(timeCost: int, memoryCost: int, parallelism: int,
             pwd: nat, pwdLen: nat, salt: nat, saltLen: nat, hash: nat, hashLen: nat,
             pwdBytes: seq<byte>, saltBytes: seq<byte>, code: int, output: seq<byte>)
    | Freed(ptr: nat, contents: seq<byte>)

  /** Bytes in a freshly instantiated guest memory (one WebAssembly page). */
  const InitialMemory: nat := 0x1_0000

  /**
   * An instantiated guest module. `mem` is its linear memory; `live` maps each allocated
   * pointer to its size; `log` records every call the host makes (for a Free, with the
   * bytes the region held when it was freed). The bodies are one allocator among many
   * that meet the contracts: callers rely on the contracts only.
   */
  class Guest {
    var mem: array<byte>
    var top: nat
    ghost var live: map<nat, nat>
    ghost var log: seq<Event>

    ghost predicate Valid()
      reads this
    {
      && top <= mem.Length
      && (forall p | p in live :: p < top && p + live[p] <= top)
      && (forall p, q {:trigger Disjoint(live, p, q)} | p != q :: Disjoint(live, p, q))
    }

    ghost function Region(p: nat, n: nat): seq<byte>
      requires p + n <= mem.Length
      reads this, mem
    {
      mem[p..p + n]
    }

    /** `WebAssembly.instantiate`: a new module with nothing allocated. */
    constructor ()
      ensures Valid() && fresh(mem)
      ensures live == map[] && log == []
    {
      mem := new byte[InitialMemory];
      top := 0;
      live := map[];
      log := [];
    }

    /**
     * `malloc(size)`: a new in-bounds region, disjoint from every live one. The memory may
     * grow (a fresh, larger array); every live region keeps its contents.
     */
    method Malloc(size: nat) returns (ptr: nat)
      requires Valid()
      modifies this
      ensures Valid()
      ensures ptr !in old(live) && live == old(live)[ptr := size]
      ensures ptr + size <= mem.Length
      ensures mem == old(mem) || (fresh(mem) && old(mem.Length) <= mem.Length)
      ensures Kept(old(mem[..]), mem[..], old(live))
      ensures log == old(log) + [Allocated(size, ptr)]
    {
      var step := if size == 0 then 1 else size;
      if mem.Length < top + step {
        var grown := new byte[top + step];
        forall i | 0 <= i < mem.Length {
          grown[i] := mem[i];
        }
        mem := grown;
      }
      ghost var live0 := live;
      ptr := top;
      top := top + step;
      live := live[ptr := size];
      log := log + [Allocated(size, ptr)];
      forall p, q | p != q
        ensures Disjoint(live, p, q)
      {
        if p != ptr && q != ptr {
          assert Disjoint(live0, p, q);
        }
      }
    }

    /** `free(ptr)`: the region is released; memory is not touched. */
    method Free(ptr: nat)
      requires Valid() && ptr in live
      modifies this
      ensures Valid() && live == old(live) - {ptr}
      ensures mem == old(mem) && ptr + old(live)[ptr] <= mem.Length
      ensures log == old(log) + [Freed(ptr, Region(ptr, old(live)[ptr]))]
    {
      ghost var live0 := live;
      log := log + [Freed(ptr, Region(ptr, live[ptr]))];
      live := live - {ptr};
      forall p, q | p != q
        ensures Disjoint(live, p, q)
      {
        assert Disjoint(live0, p, q);
      }
    }

    /**
     * `argon2i_hash_raw`: an opaque computation. It returns any status code, may grow the
     * memory and write the output region; every live region apart from the output region
     * keeps its contents. The log records the input bytes it was given and the output
     * region right after the call.
     */
    method HashRaw(timeCost: int, memoryCost: int, parallelism: int,
                  pwd: nat, pwdLen: nat, salt: nat, saltLen: nat, hash: nat, hashLen: nat)
      returns (code: int)
      requires Valid()
      requires pwd + pwdLen <= mem.Length && salt + saltLen <= mem.Length && hash + hashLen <= mem.Length
      modifies this, mem
      ensures Valid() && live == old(live)
      ensures mem == old(mem) || (fresh(mem) && old(mem.Length) <= mem.Length)
      ensures hash + hashLen <= mem.Length
      ensures Kept(old(mem[..]), mem[..], ApartFrom(live, hash, hashLen))
      ensures log == old(log) + [Hashed(timeCost, memoryCost, parallelism, pwd, pwdLen, salt, saltLen, hash, hashLen,
                                        old(Region(pwd, pwdLen)), old(Region(salt, saltLen)), code, Region(hash, hashLen))]
    {
      code := *;
      log := log + [Hashed(timeCost, memoryCost, parallelism, pwd, pwdLen, salt, saltLen, hash, hashLen,
                           Region(pwd, pwdLen), Region(salt, saltLen), code, Region(hash, hashLen))];
    }
  }

  /**
   * Allocate a guest region of `src.Length` bytes and copy `src` into it through a view
   * made after the allocation (the allocation may have grown the memory).
   */
  method CopyIn(guest: Guest, src: array<byte>) returns (ptr: nat)
    requires guest.Valid() && src != guest.mem
    modifies guest, guest.mem
    ensures guest.Valid()
    ensures ptr !in old(guest.live) && guest.live == old(guest.live)[ptr := src.Length]
    ensures guest.mem == old(guest.mem) || fresh(guest.mem)
    ensures ptr + src.Length <= guest.mem.Length && guest.Region(ptr, src.Length) == src[..]
    ensures Kept(old(guest.mem[..]), guest.mem[..], old(guest.live))
    ensures guest.log == old(guest.log) + [Allocated(src.Length, ptr)]
    ensures src[..] == old(src[..])
  {
    ptr := guest.Malloc(src.Length);
    ghost var m := guest.mem[..];
    forall p | p in old(guest.live)
      ensures p + old(guest.live)[p] <= |m| && Apart(ptr, src.Length, p, old(guest.live)[p])
    {
      assert p in guest.live && ptr in guest.live && p != ptr && guest.live[p] == old(guest.live)[p];
      assert Disjoint(guest.live, ptr, p);
    }
    ghost var bytes := src[..];
    assert bytes[0..src.Length][..src.Length] == bytes;
    CopyMemory(View(guest.mem, ptr, src.Length), View(src, 0, src.Length), src.Length);
    ghost var after := guest.mem[..];
    assert after == Spliced(m, ptr, bytes);
    SplicedKeepsAll(m, ptr, bytes, old(guest.live));
    KeptTransitive(old(guest.mem[..]), m, after, old(guest.live));
  }

  /**
   * Zero a live guest region through a view made now, then free it. Every other live region
   * keeps its contents, and the log shows the region all zeros when it was freed.
   */
  method ZeroAndFree(guest: Guest, ptr: nat, len: nat)
    requires guest.Valid() && ptr in guest.live && guest.live[ptr] == len
    modifies guest, guest.mem
    ensures guest.Valid() && guest.live == old(guest.live) - {ptr} && guest.mem == old(guest.mem)
    ensures Kept(old(guest.mem[..]), guest.mem[..], guest.live)
    ensures guest.log == old(guest.log) + [Freed(ptr, Zeros(len))]
  {
    var view := View(guest.mem, ptr, len);
    ghost var m := guest.mem[..];
    ghost var live := guest.live;
    ZeroMemory(view, 3);
    AllZeroIsZeros(guest.Region(ptr, len));
    guest.Free(ptr);
    forall p | p in guest.live
      ensures SameAt(m, guest.mem[..], p, guest.live[p])
    {
      assert Disjoint(live, ptr, p);
      ZeroedKeeps(m, ptr, len, p, live[p]);
    }
  }

  /**
   * The steps of hashPassword before the guest call: copy the salt in, encode the password,
   * copy it in and erase the host encoding, then allocate the output region.
   */
  method PlaceInputs(guest: Guest, salt: array<byte>, password: string, hashLen: nat)
    returns (saltPtr: nat, passwordPtr: nat, passwordLen: nat, hashPtr: nat,
             ghost encoder: TextEncoder, ghost encoding: array<byte>)
    requires guest.Valid() && salt != guest.mem
    modifies guest, guest.mem
    ensures guest.Valid() && (guest.mem == old(guest.mem) || fresh(guest.mem))
    ensures saltPtr !in old(guest.live) && passwordPtr !in old(guest.live) && hashPtr !in old(guest.live)
    ensures saltPtr != passwordPtr && saltPtr != hashPtr && passwordPtr != hashPtr
    ensures passwordLen == |Utf8Encode(password)|
    ensures guest.live == old(guest.live)[saltPtr := salt.Length][passwordPtr := passwordLen][hashPtr := hashLen]
    ensures saltPtr + salt.Length <= guest.mem.Length && guest.Region(saltPtr, salt.Length) == old(salt[..])
    ensures passwordPtr + passwordLen <= guest.mem.Length && guest.Region(passwordPtr, passwordLen) == Utf8Encode(password)
    ensures hashPtr + hashLen <= guest.mem.Length
    ensures guest.log == old(guest.log) + [Allocated(salt.Length, saltPtr), Allocated(passwordLen, passwordPtr),
                                           Allocated(hashLen, hashPtr)]
    ensures Kept(old(guest.mem[..]), guest.mem[..], old(guest.live))
    ensures fresh(encoder) && encoder.made == [(encoding, Utf8Encode(password))]
    ensures fresh(encoding) && encoding != guest.mem && encoding.Length == passwordLen && AllZero(encoding[..])
  {
    ghost var log0, live0, mem0 := guest.log, guest.live, guest.mem[..];
    saltPtr, passwordPtr, passwordLen, encoder, encoding := CopyInInputs(guest, salt, password);
    ghost var live2, mem2, log2 := guest.live, guest.mem[..], guest.log;
    ghost var saltBytes, pwd := mem2[saltPtr..saltPtr + salt.Length], mem2[passwordPtr..passwordPtr + passwordLen];

    hashPtr := guest.Malloc(hashLen);
    ghost var mem3 := guest.mem[..];
    KeptRegion(mem2, mem3, live2, saltPtr);
    KeptRegion(mem2, mem3, live2, passwordPtr);
    assert guest.Region(saltPtr, salt.Length) == saltBytes;
    assert guest.Region(passwordPtr, passwordLen) == pwd;
    KeptThrough(mem0, mem2, mem3, live0, live2, live0);
    AppendThree(log0, Allocated(salt.Length, saltPtr), Allocated(passwordLen, passwordPtr), Allocated(hashLen, hashPtr));
  }

  /**
   * The steps of hashPassword up to and including the guest call: place the inputs, then
   * call `argon2i_hash_raw` with the three regions. Every region live before keeps its bytes.
   */
  method PlaceAndHash(guest: Guest, salt: array<byte>, password: string,
                      timeCost: int, memoryCost: int, parallelism: int, hashLen: nat)
    returns (saltPtr: nat, passwordPtr: nat, passwordLen: nat, hashPtr: nat, code: int,
             ghost encoder: TextEncoder, ghost encoding: array<byte>)
    requires guest.Valid() && salt != guest.mem
    modifies guest, guest.mem
    ensures guest.Valid() && (guest.mem == old(guest.mem) || fresh(guest.mem))
    ensures saltPtr !in old(guest.live) && passwordPtr !in old(guest.live) && hashPtr !in old(guest.live)
    ensures saltPtr != passwordPtr && saltPtr != hashPtr && passwordPtr != hashPtr
    ensures passwordLen == |Utf8Encode(password)|
    ensures guest.live == old(guest.live)[saltPtr := salt.Length][passwordPtr := passwordLen][hashPtr := hashLen]
    ensures hashPtr + hashLen <= guest.mem.Length
    ensures guest.log == old(guest.log) + [Allocated(salt.Length, saltPtr), Allocated(passwordLen, passwordPtr),
                                           Allocated(hashLen, hashPtr)]
                                         + [Hashed(timeCost, memoryCost, parallelism, passwordPtr, passwordLen,
                                                   saltPtr, salt.Length, hashPtr, hashLen, Utf8Encode(password),
                                                   old(salt[..]), code, guest.Region(hashPtr, hashLen))]
    ensures Kept(old(guest.mem[..]), guest.mem[..], old(guest.live))
    ensures fresh(encoder) && encoder.made == [(encoding, Utf8Encode(password))]
    ensures fresh(encoding) && encoding != guest.mem && encoding.Length == passwordLen && AllZero(encoding[..])
  {
    ghost var live0, mem0 := guest.live, guest.mem[..];
    saltPtr, passwordPtr, passwordLen, hashPtr, encoder, encoding := PlaceInputs(guest, salt, password, hashLen);
    ghost var live3, mem3 := guest.live, guest.mem[..];
    code := guest.HashRaw(timeCost, memoryCost, parallelism, passwordPtr, passwordLen, saltPtr, salt.Length, hashPtr, hashLen);
    OutsideOutput(live0, live3, hashPtr, hashLen);
    KeptThrough(mem0, mem3, guest.mem[..], live0, ApartFrom(live3, hashPtr, hashLen), live0);
  }

  /** Copy the salt into a new guest region, then the encoded password into another. */
  method CopyInInputs(guest: Guest, salt: array<byte>, password: string)
    returns (saltPtr: nat, passwordPtr: nat, passwordLen: nat, ghost encoder: TextEncoder, ghost encoding: array<byte>)
    requires guest.Valid() && salt != guest.mem
    modifies guest, guest.mem
    ensures guest.Valid() && (guest.mem == old(guest.mem) || fresh(guest.mem))
    ensures saltPtr !in old(guest.live) && passwordPtr !in old(guest.live) && saltPtr != passwordPtr
    ensures passwordLen == |Utf8Encode(password)|
    ensures guest.live == old(guest.live)[saltPtr := salt.Length][passwordPtr := passwordLen]
    ensures saltPtr + salt.Length <= guest.mem.Length && guest.Region(saltPtr, salt.Length) == old(salt[..])
    ensures passwordPtr + passwordLen <= guest.mem.Length && guest.Region(passwordPtr, passwordLen) == Utf8Encode(password)
    ensures guest.log == old(guest.log) + [Allocated(salt.Length, saltPtr)] + [Allocated(passwordLen, passwordPtr)]
    ensures Kept(old(guest.mem[..]), guest.mem[..], old(guest.live))
    ensures fresh(encoder) && encoder.made == [(encoding, Utf8Encode(password))]
    ensures fresh(encoding) && encoding != guest.mem && encoding.Length == passwordLen && AllZero(encoding[..])
  {
    ghost var live0, mem0 := guest.live, guest.mem[..];
    saltPtr := CopyIn(guest, salt);
    ghost var live1, mem1 := guest.live, guest.mem[..];
    ghost var saltBytes := mem1[saltPtr..saltPtr + salt.Length];

    passwordPtr, passwordLen, encoder, encoding := CopyInPassword(guest, password);
    ghost var mem2 := guest.mem[..];
    KeptRegion(mem1, mem2, live1, saltPtr);
    assert guest.Region(saltPtr, salt.Length) == saltBytes;
    KeptThrough(mem0, mem1, mem2, live0, live1, live0);
  }

  /**
   * Encode the password with a new encoder, copy the encoding into a new guest region, then
   * erase the host copy of the encoding: `encoding`, the one array the encoder made, is all
   * zeros afterwards.
   */
  method CopyInPassword(guest: Guest, password: string)
    returns (ptr: nat, len: nat, ghost encoder: TextEncoder, ghost encoding: array<byte>)
    requires guest.Valid()
    modifies guest, guest.mem
    ensures guest.Valid() && (guest.mem == old(guest.mem) || fresh(guest.mem))
    ensures len == |Utf8Encode(password)|
    ensures ptr !in old(guest.live) && guest.live == old(guest.live)[ptr := len]
    ensures ptr + len <= guest.mem.Length && guest.Region(ptr, len) == Utf8Encode(password)
    ensures Kept(old(guest.mem[..]), guest.mem[..], old(guest.live))
    ensures guest.log == old(guest.log) + [Allocated(len, ptr)]
    ensures fresh(encoder) && encoder.made == [(encoding, Utf8Encode(password))]
    ensures fresh(encoding) && encoding != guest.mem && encoding.Length == len && AllZero(encoding[..])
  {
    var textEncoder := new TextEncoder();
    var bytes := textEncoder.Encode(password);
    len := bytes.Length;
    ptr := CopyIn(guest, bytes);
    ghost var m := guest.mem[..];
    assert m[ptr..ptr + len] == Utf8Encode(password);
    assert bytes != guest.mem;
    ZeroMemory(View(bytes, 0, len), 3);
    assert guest.mem[..] == m;
    assert bytes[..] == bytes[..][0..len];
    encoder, encoding := textEncoder, bytes;
  }

  /** Appending three events one at a time appends the three of them. */
  lemma AppendThree(log: seq<Event>, a: Event, b: Event, c: Event)
    ensures log + [a] + [b] + [c] == log + [a, b, c]
  {
  }

  /**
   * The steps of hashPassword after the guest call: zero and free the password and salt
   * regions, zero the caller's salt, copy the output out, then zero and free it.
   */
  method ReleaseAll(guest: Guest, salt: array<byte>, saltPtr: nat, saltLen: nat, passwordPtr: nat, passwordLen: nat,
                    hashPtr: nat, hashLen: nat)
    returns (hash: array<byte>)
    requires guest.Valid() && salt != guest.mem
    requires saltPtr in guest.live && guest.live[saltPtr] == saltLen
    requires passwordPtr in guest.live && guest.live[passwordPtr] == passwordLen
    requires hashPtr in guest.live && guest.live[hashPtr] == hashLen
    requires saltPtr != passwordPtr && saltPtr != hashPtr && passwordPtr != hashPtr
    modifies guest, guest.mem, salt
    ensures guest.Valid() && guest.mem == old(guest.mem)
    ensures guest.live == old(guest.live) - {passwordPtr, saltPtr, hashPtr}
    ensures guest.log == old(guest.log) + [Freed(passwordPtr, Zeros(passwordLen)), Freed(saltPtr, Zeros(saltLen)),
                                           Freed(hashPtr, Zeros(hashLen))]
    ensures fresh(hash) && hashLen <= |old(guest.mem[..])| - hashPtr
    ensures hash[..] == old(guest.Region(hashPtr, hashLen))
    ensures AllZero(salt[..])
    ensures Kept(old(guest.mem[..]), guest.mem[..], guest.live)
  {
    ghost var output := guest.Region(hashPtr, hashLen);
    ghost var live0, log0, mem0 := guest.live, guest.log, guest.mem[..];
    ZeroAndFree(guest, passwordPtr, passwordLen);
    ghost var live1, mem1 := guest.live, guest.mem[..];
    KeptRegion(mem0, mem1, live1, hashPtr);
    ZeroAndFree(guest, saltPtr, saltLen);
    ghost var live2, mem2 := guest.live, guest.mem[..];
    KeptRegion(mem1, mem2, live2, hashPtr);

    ZeroMemory(View(salt, 0, salt.Length), 3);
    assert salt[..] == salt[..][0..salt.Length];

    hash := CopyOut(guest, hashPtr, hashLen);
    KeptThrough(mem0, mem1, mem2, live1, live2, live2);
    KeptThrough(mem0, mem2, guest.mem[..], live2, guest.live, guest.live);
    AppendThree(log0, Freed(passwordPtr, Zeros(passwordLen)), Freed(saltPtr, Zeros(saltLen)), Freed(hashPtr, Zeros(hashLen)));
    RemoveThree(live0, passwordPtr, saltPtr, hashPtr);
  }

  /** Copy a live guest region into a new host array, then zero and free the region. */
  method CopyOut(guest: Guest, ptr: nat, len: nat) returns (hash: array<byte>)
    requires guest.Valid() && ptr in guest.live && guest.live[ptr] == len
    modifies guest, guest.mem
    ensures guest.Valid() && guest.live == old(guest.live) - {ptr} && guest.mem == old(guest.mem)
    ensures fresh(hash) && ptr + len <= guest.mem.Length && hash[..] == old(guest.Region(ptr, len))
    ensures guest.log == old(guest.log) + [Freed(ptr, Zeros(len))]
    ensures Kept(old(guest.mem[..]), guest.mem[..], guest.live)
  {
    hash := new byte[len];
    ghost var h0, region := hash[..], guest.Region(ptr, len);
    assert region[..len] == region;
    CopyMemory(View(hash, 0, len), View(guest.mem, ptr, len), len);
    assert guest.mem[..] == old(guest.mem[..]);
    SplicedWhole(h0, region);
    ZeroAndFree(guest, ptr, len);
  }

  /**
   * The regions live before the output region was allocated, kept as they were, lie apart
   * from the output region.
   */
  lemma OutsideOutput(before: map<nat, nat>, live: map<nat, nat>, hash: nat, hashLen: nat)
    requires Within(before, live) && hash !in before && hash in live && live[hash] == hashLen
    requires forall p, q {:trigger Disjoint(live, p, q)} | p != q :: Disjoint(live, p, q)
    ensures Within(before, ApartFrom(live, hash, hashLen))
  {
    forall p | p in before
      ensures Apart(p, live[p], hash, hashLen)
    {
      assert Disjoint(live, p, hash);
    }
  }

  /** Removing three keys one at a time removes the three of them. */
  lemma RemoveThree(m: map<nat, nat>, a: nat, b: nat, c: nat)
    ensures m - {a} - {b} - {c} == m - {a, b, c}
  {
  }

  /** Three keys added to a map that lacked them, then removed, give the map back. */
  lemma RemoveAdded(m: map<nat, nat>, a: nat, x: nat, b: nat, y: nat, c: nat, z: nat)
    requires a !in m && b !in m && c !in m
    ensures m[a := x][b := y][c := z] - {b, a, c} == m
  {
  }

  /** The hashing parameters object; its `salt` is a host byte array shared by reference. */
  class HashParams {
    var password: string
    var salt: array<byte>
    var timeCost: int
    var memoryCost: int
    var parallelism: int
    var hashLen: nat

    constructor (password: string, salt: array<byte>, timeCost: int, memoryCost: int, parallelism: int, hashLen: nat)
      ensures this.password == password && this.salt == salt && this.hashLen == hashLen
      ensures this.timeCost == timeCost && this.memoryCost == memoryCost && this.parallelism == parallelism
    {
      this.password := password;
      this.salt := salt;
      this.timeCost := timeCost;
      this.memoryCost := memoryCost;
      this.parallelism := parallelism;
      this.hashLen := hashLen;
    }
  }

  /**
   * The guest's view of one `hashPassword` call: three allocations (salt, password, hash,
   * sized to each), the hashing call with those regions holding the salt and the encoded
   * password, then one free per allocation (password, salt, hash), each of a region that
   * holds only zeros at that moment.
   */
  ghost predicate HashTrace(ev: seq<Event>, salt: seq<byte>, pwd: seq<byte>,
                            timeCost: int, memoryCost: int, parallelism: int, hashLen: nat, code: int)
  {
    && |ev| == 7
    && ev[0].Allocated? && ev[0].size == |salt|
    && ev[1].Allocated? && ev[1].size == |pwd|
    && ev[2].Allocated? && ev[2].size == hashLen
    && ev[3].Hashed?
    && ev[3] == Hashed(timeCost, memoryCost, parallelism, ev[1].ptr, |pwd|, ev[0].ptr, |salt|, ev[2].ptr, hashLen,
                       pwd, salt, code, ev[3].output)
    && |ev[3].output| == hashLen
    && ev[4] == Freed(ev[1].ptr, Zeros(|pwd|))
    && ev[5] == Freed(ev[0].ptr, Zeros(|salt|))
    && ev[6] == Freed(ev[2].ptr, Zeros(hashLen))
  }

  /** The events of several calls, one call's events after another. */
  function Concat(traces: seq<seq<Event>>): (log: seq<Event>)
    ensures traces == [] ==> log == []
  {
    if traces == [] then [] else Concat(traces[..|traces| - 1]) + traces[|traces| - 1]
  }

  /** One more call's events after a log that already holds `traces` after `log0`. */
  lemma ConcatAppend(log0: seq<Event>, traces: seq<seq<Event>>, trace: seq<Event>)
    ensures log0 + Concat(traces + [trace]) == (log0 + Concat(traces)) + trace
  {
    assert (traces + [trace])[..|traces|] == traces;
  }

  /** The events hashPassword produces, in order, form a HashTrace. */
  lemma ProtocolTrace(log0: seq<Event>, placed: seq<Event>, hashed: Event, freed: seq<Event>,
                      salt: seq<byte>, pwd: seq<byte>, timeCost: int, memoryCost: int, parallelism: int,
                      saltPtr: nat, passwordPtr: nat, hashPtr: nat, hashLen: nat, code: int, output: seq<byte>)
    requires placed == [Allocated(|salt|, saltPtr), Allocated(|pwd|, passwordPtr), Allocated(hashLen, hashPtr)]
    requires hashed == Hashed(timeCost, memoryCost, parallelism, passwordPtr, |pwd|, saltPtr, |salt|,
                              hashPtr, hashLen, pwd, salt, code, output)
    requires freed == [Freed(passwordPtr, Zeros(|pwd|)), Freed(saltPtr, Zeros(|salt|)), Freed(hashPtr, Zeros(hashLen))]
    requires |output| == hashLen
    ensures HashTrace(placed + [hashed] + freed, salt, pwd, timeCost, memoryCost, parallelism, hashLen, code)
    ensures log0 + placed + [hashed] + freed == log0 + (placed + [hashed] + freed)
  {
  }

  /** The host object: the module source, the instantiated guest and the hashes kept so far. */
  class Argon2 {
    const source: seq<byte>
    var argon2: Guest?
    var results: seq<array<byte>>

    constructor (source: seq<byte>)
      ensures this.source == source && argon2 == null && results == []
    {
      this.source := source;
      argon2 := null;
      results := [];
    }

    /** `instantiate`: a fresh guest module (loading the binary is not modelled). */
    method Instantiate()
      modifies this
      ensures argon2 != null && fresh(argon2) && fresh(argon2.mem) && argon2.Valid()
      ensures argon2.live == map[] && argon2.log == []
      ensures results == old(results)
    {
      argon2 := new Guest();
    }

    /**
     * hashPassword: runs the fixed protocol of HashTrace and returns the guest's status code
     * unchanged. Every region live before the call keeps its bytes. Afterwards the caller's
     * salt is all zeros whatever the code, the one array the call's `TextEncoder` made (`encoding`,
     * the host copy of the encoded password) is all zeros, and `results` has one more entry: a new array holding the output
     * region as the guest left it.
     */
    method HashPassword(options: HashParams)
      returns (code: int, ghost trace: seq<Event>, ghost encoder: TextEncoder, ghost encoding: array<byte>)
      requires argon2 != null && argon2.Valid()
      requires options.salt != argon2.mem
      modifies this, argon2, argon2.mem, options.salt
      ensures argon2 == old(argon2) && argon2.Valid() && argon2.live == old(argon2.live)
      ensures argon2.mem == old(argon2.mem) || fresh(argon2.mem)
      ensures argon2.log == old(argon2.log) + trace
      ensures Kept(old(argon2.mem[..]), argon2.mem[..], old(argon2.live))
      ensures HashTrace(trace, old(options.salt[..]), Utf8Encode(options.password),
                        options.timeCost, options.memoryCost, options.parallelism, options.hashLen, code)
      ensures AllZero(options.salt[..])
      ensures fresh(encoder) && encoder.made == [(encoding, Utf8Encode(options.password))]
      ensures fresh(encoding) && encoding.Length == |Utf8Encode(options.password)| && AllZero(encoding[..])
      ensures |results| == |old(results)| + 1 && results[..|old(results)|] == old(results)
      ensures fresh(results[|old(results)|]) && results[|old(results)|][..] == trace[3].output
    {
      var guest := argon2;
      ghost var log0, live0, mem0 := guest.log, guest.live, guest.mem[..];
      ghost var salt0 := options.salt[..];
      ghost var pwd := Utf8Encode(options.password);
      var timeCost, memoryCost, parallelism := options.timeCost, options.memoryCost, options.parallelism;
      var saltLen, hashLen := options.salt.Length, options.hashLen;
      var saltPtr, passwordPtr, passwordLen, hashPtr;
      saltPtr, passwordPtr, passwordLen, hashPtr, code, encoder, encoding :=
        PlaceAndHash(guest, options.salt, options.password, timeCost, memoryCost, parallelism, hashLen);
      ghost var output, mem4 := guest.Region(hashPtr, hashLen), guest.mem[..];
      ghost var placed := [Allocated(saltLen, saltPtr), Allocated(passwordLen, passwordPtr), Allocated(hashLen, hashPtr)];
      ghost var hashed := Hashed(timeCost, memoryCost, parallelism, passwordPtr, passwordLen, saltPtr, saltLen,
                                 hashPtr, hashLen, pwd, salt0, code, output);
      assert guest.log == log0 + placed + [hashed];

      var hash := ReleaseAll(guest, options.salt, saltPtr, saltLen, passwordPtr, passwordLen, hashPtr, hashLen);
      ghost var freed := [Freed(passwordPtr, Zeros(passwordLen)), Freed(saltPtr, Zeros(saltLen)), Freed(hashPtr, Zeros(hashLen))];
      assert guest.log == log0 + placed + [hashed] + freed;
      results := results + [hash];

      trace := placed + [hashed] + freed;
      ProtocolTrace(log0, placed, hashed, freed, salt0, pwd, timeCost, memoryCost, parallelism,
                    saltPtr, passwordPtr, hashPtr, hashLen, code, output);
      RemoveAdded(live0, saltPtr, saltLen, passwordPtr, passwordLen, hashPtr, hashLen);
      KeptThrough(mem0, mem4, guest.mem[..], live0, live0, live0);
    }
  }
}
