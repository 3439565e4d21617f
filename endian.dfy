/** Byte-order handling of Dicom/IO/Endian.cs: the byte order value, the
    value swaps (pure bit expressions), the in-place group swaps of a byte
    array, and the reader and writer that swap exactly when the requested
    byte order differs from the host's. */
module EndianIO {
  import opened Wrappers
  import opened Ints

  /** `Endian` is a wrapper around one flag; two values are equal exactly
      when their flags are equal, which is datatype equality here. */
  datatype Endian = Endian(isBigEndian: bool)

  const Little: Endian := Endian(false)
  const Big: Endian := Endian(true)

  /** The sequence `s` read back to front. */
  function Reverse<T>(s: seq<T>): (r: seq<T>)
    ensures |r| == |s|
    ensures forall i :: 0 <= i < |s| ==> r[i] == s[|s| - 1 - i]
  {
    seq(|s|, i requires 0 <= i < |s| => s[|s| - 1 - i])
  }

  lemma ReverseReverse<T>(s: seq<T>)
    ensures Reverse(Reverse(s)) == s
  {
  }

  // ---------------------------------------------------------------------
  // Byte layout of fixed-width values (least significant byte first)

  function Bytes16(v: bv16): (r: seq<bv8>)
    ensures |r| == 2
  {
    [(v & 0xFF) as bv8, (v >> 8) as bv8]
  }

  function Bytes32(v: bv32): (r: seq<bv8>)
    ensures |r| == 4
  {
    [(v & 0xFF) as bv8, ((v >> 8) & 0xFF) as bv8, ((v >> 16) & 0xFF) as bv8, (v >> 24) as bv8]
  }

  function Bytes64(v: bv64): (r: seq<bv8>)
    ensures |r| == 8
  {
    [(v & 0xFF) as bv8, ((v >> 8) & 0xFF) as bv8, ((v >> 16) & 0xFF) as bv8, ((v >> 24) & 0xFF) as bv8,
     ((v >> 32) & 0xFF) as bv8, ((v >> 40) & 0xFF) as bv8, ((v >> 48) & 0xFF) as bv8, (v >> 56) as bv8]
  }

  /** The value whose least-significant-first layout is `b`. */
  function FromBytes16(b: seq<bv8>): (v: bv16)
    requires |b| == 2
    ensures Bytes16(v) == b
  {
    (b[0] as bv16) | ((b[1] as bv16) << 8)
  }

  function FromBytes32(b: seq<bv8>): (v: bv32)
    requires |b| == 4
    ensures Bytes32(v) == b
  {
    (b[0] as bv32) | ((b[1] as bv32) << 8) | ((b[2] as bv32) << 16) | ((b[3] as bv32) << 24)
  }

  function FromBytes64(b: seq<bv8>): (v: bv64)
    requires |b| == 8
    ensures Bytes64(v) == b
  {
    (b[0] as bv64) | ((b[1] as bv64) << 8) | ((b[2] as bv64) << 16) | ((b[3] as bv64) << 24)
    | ((b[4] as bv64) << 32) | ((b[5] as bv64) << 40) | ((b[6] as bv64) << 48) | ((b[7] as bv64) << 56)
  }

  /** Reading back a laid-out value gives the value. */
  lemma LayoutRoundTrip(a: bv16, b: bv32, c: bv64)
    ensures FromBytes16(Bytes16(a)) == a
    ensures FromBytes32(Bytes32(b)) == b
    ensures FromBytes64(Bytes64(c)) == c
  {
  }

  // ---------------------------------------------------------------------
  // Value swaps

  /** `Swap(ushort)`: the two bytes of the value change places. */
  function Swap16(v: bv16): (r: bv16)
    ensures r & 0xFF == v >> 8
    ensures r >> 8 == v & 0xFF
  {
    (v >> 8) | (v << 8)
  }

  /** `Swap(uint)`: byte i of the result is byte 3 - i of the value. */
  function Swap32(v: bv32): (r: bv32)
    ensures r & 0xFF == v >> 24
    ensures (r >> 8) & 0xFF == (v >> 16) & 0xFF
    ensures (r >> 16) & 0xFF == (v >> 8) & 0xFF
    ensures r >> 24 == v & 0xFF
  {
    ((v & 0x0000_00FF) << 24) | ((v & 0x0000_FF00) << 8) | ((v & 0x00FF_0000) >> 8) | ((v & 0xFF00_0000) >> 24)
  }

  /** `Swap(ulong)`: byte i of the result is byte 7 - i of the value. */
  function Swap64(v: bv64): (r: bv64)
    ensures r & 0xFF == v >> 56
    ensures (r >> 8) & 0xFF == (v >> 48) & 0xFF
    ensures (r >> 16) & 0xFF == (v >> 40) & 0xFF
    ensures (r >> 24) & 0xFF == (v >> 32) & 0xFF
    ensures (r >> 32) & 0xFF == (v >> 24) & 0xFF
    ensures (r >> 40) & 0xFF == (v >> 16) & 0xFF
    ensures (r >> 48) & 0xFF == (v >> 8) & 0xFF
    ensures r >> 56 == v & 0xFF
  {
    ((v & 0x0000_0000_0000_00FF) << 56) | ((v & 0x0000_0000_0000_FF00) << 40)
    | ((v & 0x0000_0000_00FF_0000) << 24) | ((v & 0x0000_0000_FF00_0000) << 8)
    | ((v & 0x0000_00FF_0000_0000) >> 8) | ((v & 0x0000_FF00_0000_0000) >> 24)
    | ((v & 0x00FF_0000_0000_0000) >> 40) | ((v & 0xFF00_0000_0000_0000) >> 56)
  }

  /** Each swap lays the value out in memory in reverse byte order. */
  lemma SwapsReverseLayout(a: bv16, b: bv32)
    ensures Bytes16(Swap16(a)) == Reverse(Bytes16(a))
    ensures Bytes32(Swap32(b)) == Reverse(Bytes32(b))
  {
  }

  lemma Swap64ReversesLayout(c: bv64)
    ensures Bytes64(Swap64(c)) == Reverse(Bytes64(c))
  {
    var reversed := [(c >> 56) as bv8, ((c >> 48) & 0xFF) as bv8, ((c >> 40) & 0xFF) as bv8, ((c >> 32) & 0xFF) as bv8,
                     ((c >> 24) & 0xFF) as bv8, ((c >> 16) & 0xFF) as bv8, ((c >> 8) & 0xFF) as bv8, (c & 0xFF) as bv8];
    assert Reverse(Bytes64(c)) == reversed;
  }

  /** Applying a swap twice gives the value back. */
  lemma SwapInvolutions(a: bv16, b: bv32, c: bv64)
    ensures Swap16(Swap16(a)) == a
    ensures Swap32(Swap32(b)) == b
    ensures Swap64(Swap64(c)) == c
  {
  }

  /** `(ushort)v`, `(uint)v`, `(ulong)v` for a signed value: its two's
      complement bits. */
  function Bits16(v: int16): bv16 {
    (v % 0x1_0000) as bv16
  }

  function Bits32(v: int32): bv32 {
    (v % TWO_32) as bv32
  }

  function Bits64(v: int64): bv64 {
    (v % 0x1_0000_0000_0000_0000) as bv64
  }

  lemma ModShift(u: int, m: int)
    requires 0 <= u < m
    ensures (u - m) % m == u && u % m == u
  {
  }

  /** `(short)b`, `(int)b`, `(long)b` for an unsigned value: the signed
      value with those bits. */
  function Signed16(b: bv16): int16 {
    var u := b as int;
    if u < 0x8000 then u else u - 0x1_0000
  }

  /** Reading a value's bits back as signed and taking the bits again
      gives the bits. */
  lemma SignedBits16(b: bv16)
    ensures Bits16(Signed16(b)) == b
  {
    var u := b as int;
    ModShift(u, 0x1_0000);
    assert Signed16(b) % 0x1_0000 == u;
  }

  function Signed32(b: bv32): int32 {
    var u := b as int;
    if u < 0x8000_0000 then u else u - TWO_32
  }

  /** Reading a value's bits back as signed and taking the bits again
      gives the bits. */
  lemma SignedBits32(b: bv32)
    ensures Bits32(Signed32(b)) == b
  {
    var u := b as int;
    ModShift(u, TWO_32);
    assert Signed32(b) % TWO_32 == u;
  }

  function Signed64(b: bv64): int64 {
    var u := b as int;
    if u < 0x8000_0000_0000_0000 then u else u - 0x1_0000_0000_0000_0000
  }

  /** Reading a value's bits back as signed and taking the bits again
      gives the bits. */
  lemma SignedBits64(b: bv64)
    ensures Bits64(Signed64(b)) == b
  {
    var u := b as int;
    ModShift(u, 0x1_0000_0000_0000_0000);
    assert Signed64(b) % 0x1_0000_0000_0000_0000 == u;
  }

  /** `Swap(short)`, `Swap(int)` and `Swap(long)`: the result's bits are
      the unsigned swap of the value's bits. */
  function SwapInt16(v: int16): (r: int16)
    ensures Bits16(r) == Swap16(Bits16(v))
  {
    SignedBits16(Swap16(Bits16(v)));
    Signed16(Swap16(Bits16(v)))
  }

  function SwapInt32(v: int32): (r: int32)
    ensures Bits32(r) == Swap32(Bits32(v))
  {
    SignedBits32(Swap32(Bits32(v)));
    Signed32(Swap32(Bits32(v)))
  }

  function SwapInt64(v: int64): (r: int64)
    ensures Bits64(r) == Swap64(Bits64(v))
  {
    SignedBits64(Swap64(Bits64(v)));
    Signed64(Swap64(Bits64(v)))
  }

  // ---------------------------------------------------------------------
  // In-place group swaps of a byte array

  lemma MulAtLeast(d: int, n: int)
    requires d >= 1 && n > 0
    ensures d * n >= n
    decreases d
  {
    if d > 1 {
      MulAtLeast(d - 1, n);
      assert d * n == (d - 1) * n + n;
    }
  }

  lemma MulMono(a: int, b: int, n: int)
    requires n > 0 && a <= b
    ensures a * n <= b * n
  {
    if a < b {
      MulAtLeast(b - a, n);
      assert b * n - a * n == (b - a) * n;
    }
  }

  /** Euclidean division is unique: `q` and `m` are the quotient and remainder. */
  lemma DivModUnique(x: int, n: int, q: int, m: int)
    requires n > 0 && 0 <= m < n && x == q * n + m
    ensures x / n == q && x % n == m
  {
    var q0, m0 := x / n, x % n;
    assert x == q0 * n + m0;
    assert (q - q0) * n == m0 - m;
    if q > q0 {
      MulAtLeast(q - q0, n);
    } else if q < q0 {
      MulAtLeast(q0 - q, n);
    }
  }

  /** The mirrored position of `k` inside its group of `n`, for a `k` inside
      the complete groups of a sequence of length `len`. */
  function Mirror(k: nat, n: nat, len: nat): (j: nat)
    requires n > 0 && k < len - len % n
    ensures j < len - len % n && j / n == k / n && j % n == n - 1 - k % n
  {
    var g := k / n;
    assert k == g * n + k % n;
    DivModUnique(g * n + (n - 1 - k % n), n, g, n - 1 - k % n);
    assert len == (len / n) * n + len % n;
    assert g < len / n by {
      if g >= len / n {
        MulMono(len / n, g, n);
        assert false;
      }
    }
    MulMono(g + 1, len / n, n);
    g * n + (n - 1 - k % n)
  }

  /** `r` is `s` with every complete group of `n` elements reversed and the
      trailing `|s| % n` elements left as they were. */
  ghost predicate GroupsReversed<T>(s: seq<T>, r: seq<T>, n: nat)
    requires n > 0
  {
    && |r| == |s|
    && (forall k :: 0 <= k < |s| - |s| % n ==> r[k] == s[Mirror(k, n, |s|)])
    && (forall k :: |s| - |s| % n <= k < |s| ==> r[k] == s[k])
  }

  /** Mirroring a position twice gives the position back. */
  lemma MirrorTwice(k: nat, n: nat, len: nat)
    requires n > 0 && k < len - len % n
    ensures Mirror(Mirror(k, n, len), n, len) == k
  {
    var j := Mirror(k, n, len);
    var i := Mirror(j, n, len);
    var q, m := k / n, k % n;
    assert k == q * n + m;
    assert i == (i / n) * n + i % n;
  }

  /** Reversing the groups twice restores the original. */
  lemma {:induction false} GroupsReversedTwice<T>(s: seq<T>, r: seq<T>, t: seq<T>, n: nat)
    requires n > 0 && GroupsReversed(s, r, n) && GroupsReversed(r, t, n)
    ensures t == s
  {
    forall k | 0 <= k < |s| - |s| % n
      ensures t[k] == s[k]
    {
      MirrorTwice(k, n, |s|);
    }
  }

  /** Groups of width one are left as they are. */
  lemma {:induction false} GroupsOfOne<T>(s: seq<T>, r: seq<T>)
    requires GroupsReversed(s, r, 1)
    ensures r == s
  {
    forall k | 0 <= k < |s|
      ensures r[k] == s[k]
    {
      var j := Mirror(k, 1, |s|);
      assert j == (j / 1) * 1 + j % 1;
    }
  }

  /** Any sequence is its own group reversal for width one. */
  lemma {:induction false} OneGroupsReversed<T>(s: seq<T>)
    ensures GroupsReversed(s, s, 1)
  {
    forall k | 0 <= k < |s|
      ensures s[k] == s[Mirror(k, 1, |s|)]
    {
      var j := Mirror(k, 1, |s|);
      assert j == (j / 1) * 1 + j % 1;
    }
  }

  /** `SwapBytes2`: exchanges each adjacent pair; a trailing odd byte stays. */
  method SwapBytes2<T>(bytes: array<T>)
    modifies bytes
    ensures GroupsReversed(old(bytes[..]), bytes[..], 2)
  {
    var l := bytes.Length - bytes.Length % 2;
    var i := 0;
    ghost var q := 0;
    while i < l
      invariant 0 <= i <= l && i == 2 * q
      invariant forall k :: 0 <= k < i ==> bytes[k] == old(bytes[k - k % 2 + (1 - k % 2)])
      invariant forall k :: i <= k < bytes.Length ==> bytes[k] == old(bytes[k])
    {
      var b := bytes[i + 1];
      bytes[i + 1] := bytes[i];
      bytes[i] := b;
      forall k | i <= k < i + 2
        ensures k - k % 2 + (1 - k % 2) == 2 * i + 1 - k
      {
        InGroup(i, q, k, 2);
      }
      i, q := i + 2, q + 1;
    }
    forall k | 0 <= k < l
      ensures bytes[k] == old(bytes[Mirror(k, 2, bytes.Length)])
    {
      var j := Mirror(k, 2, bytes.Length);
      assert j == (j / 2) * 2 + j % 2;
    }
  }

  /** `SwapBytes4`: reverses each complete group of four; the trailing
      `Length % 4` bytes stay. */
  method SwapBytes4<T>(bytes: array<T>)
    modifies bytes
    ensures GroupsReversed(old(bytes[..]), bytes[..], 4)
  {
    var l := bytes.Length - bytes.Length % 4;
    var i := 0;
    ghost var q := 0;
    while i < l
      invariant 0 <= i <= l && i == 4 * q
      invariant forall k :: 0 <= k < i ==> bytes[k] == old(bytes[k - k % 4 + (3 - k % 4)])
      invariant forall k :: i <= k < bytes.Length ==> bytes[k] == old(bytes[k])
    {
      var b := bytes[i + 3];
      bytes[i + 3] := bytes[i];
      bytes[i] := b;
      b := bytes[i + 2];
      bytes[i + 2] := bytes[i + 1];
      bytes[i + 1] := b;
      forall k | i <= k < i + 4
        ensures k - k % 4 + (3 - k % 4) == 2 * i + 3 - k
      {
        InGroup(i, q, k, 4);
      }
      i, q := i + 4, q + 1;
    }
    forall k | 0 <= k < l
      ensures bytes[k] == old(bytes[Mirror(k, 4, bytes.Length)])
    {
      var j := Mirror(k, 4, bytes.Length);
      assert j == (j / 4) * 4 + j % 4;
    }
  }

  /** `Array.Reverse(bytes, lo, n)`: reverses the `n` elements from `lo`. */
  method ReverseRange<T>(bytes: array<T>, lo: nat, n: nat)
    requires lo + n <= bytes.Length
    modifies bytes
    ensures forall k :: lo <= k < lo + n ==> bytes[k] == old(bytes[2 * lo + n - 1 - k])
    ensures forall k :: 0 <= k < bytes.Length && !(lo <= k < lo + n) ==> bytes[k] == old(bytes[k])
  {
    var i := 0;
    while i < n / 2
      invariant 0 <= i <= n / 2
      invariant forall k :: lo <= k < lo + i ==> bytes[k] == old(bytes[2 * lo + n - 1 - k])
      invariant forall k :: lo + n - i <= k < lo + n ==> bytes[k] == old(bytes[2 * lo + n - 1 - k])
      invariant forall k ::
        0 <= k < bytes.Length && !(lo <= k < lo + i) && !(lo + n - i <= k < lo + n) ==> bytes[k] == old(bytes[k])
    {
      bytes[lo + i], bytes[lo + n - 1 - i] := bytes[lo + n - 1 - i], bytes[lo + i];
      i := i + 1;
    }
  }

  /** `SwapBytes(n, bytes)`: one is a no-op, two and four use the dedicated
      swaps, any other width reverses each complete group of `n` bytes. */
  method SwapBytes<T>(n: nat, bytes: array<T>)
    requires n > 0
    modifies bytes
    ensures GroupsReversed(old(bytes[..]), bytes[..], n)
    ensures n == 1 ==> bytes[..] == old(bytes[..])
  {
    if n == 1 {
      forall k | 0 <= k < bytes.Length
        ensures bytes[k] == bytes[Mirror(k, 1, bytes.Length)]
      {
        var j := Mirror(k, 1, bytes.Length);
        assert j == (j / 1) * 1 + j % 1;
      }
      return;
    }
    if n == 2 {
      SwapBytes2(bytes);
      return;
    }
    if n == 4 {
      SwapBytes4(bytes);
      return;
    }
    ReverseGroups(n, bytes);
  }

  /** The general case of `SwapBytes`: `Array.Reverse` on each complete
      group of `n`. */
  method ReverseGroups<T>(n: nat, bytes: array<T>)
    requires n > 0
    modifies bytes
    ensures GroupsReversed(old(bytes[..]), bytes[..], n)
  {
    ghost var src := bytes[..];
    var len := bytes.Length;
    var l := len - len % n;
    var i := 0;
    ghost var q := 0;
    while i < l
      invariant 0 <= i <= l && i == n * q && bytes.Length == len
      invariant forall k :: 0 <= k < i ==> bytes[k] == src[Mirror(k, n, len)]
      invariant forall k :: i <= k < len ==> bytes[k] == src[k]
    {
      GroupStep(i, q, n, len);
      ReverseRange(bytes, i, n);
      forall k | i <= k < i + n
        ensures Mirror(k, n, len) == 2 * i + n - 1 - k
      {
        MirrorInGroup(i, q, k, n, len);
      }
      i, q := i + n, q + 1;
    }
  }

  /** Inside the group of `n` that starts at `i`, position `k` is `k - i`
      into its group. */
  lemma InGroup(i: nat, q: nat, k: nat, n: nat)
    requires n > 0 && i == n * q && i <= k < i + n
    ensures k % n == k - i && k - k % n == i && k / n == q
  {
    DivModUnique(k, n, q, k - i);
  }

  /** Mirroring inside the group that starts at `i`. */
  lemma MirrorInGroup(i: nat, q: nat, k: nat, n: nat, len: nat)
    requires n > 0 && i == n * q && i <= k < i + n && k < len - len % n
    ensures Mirror(k, n, len) == 2 * i + n - 1 - k
  {
    InGroup(i, q, k, n);
    var j := Mirror(k, n, len);
    assert j == n * (j / n) + j % n;
  }

  /** A group that starts inside the complete groups ends inside them too. */
  lemma GroupStep(i: int, q: int, n: int, len: int)
    requires n > 0 && 0 <= i < len - len % n && i == n * q
    ensures i + n <= len - len % n
  {
    assert len - len % n == (len / n) * n;
    assert q < len / n by {
      if q >= len / n {
        MulMono(len / n, q, n);
        assert false;
      }
    }
    MulMono(q + 1, len / n, n);
  }

  // ---------------------------------------------------------------------
  // Reader and writer

  /** Both `Create` and the `Endian` setter decide to swap exactly when the
      requested order differs from the host's. */
  function NeedsSwap(requested: Endian, host: Endian): (swap: bool)
    ensures swap <==> requested.isBigEndian != host.isBigEndian
  {
    if host == Little then requested == Big else requested == Little
  }

  /** The `Endian` getter: the host's order, flipped when swapping. */
  function ReportedEndian(swap: bool, host: Endian): (e: Endian)
    ensures NeedsSwap(e, host) == swap
  {
    if host == Little then (if swap then Big else Little) else (if swap then Little else Big)
  }

  /** Bytes a writer produces: the host (little-endian) layout, reversed when swapping. */
  function Encode16(v: bv16, swap: bool): seq<bv8> { if swap then Reverse(Bytes16(v)) else Bytes16(v) }
  function Encode32(v: bv32, swap: bool): seq<bv8> { if swap then Reverse(Bytes32(v)) else Bytes32(v) }
  function Encode64(v: bv64, swap: bool): seq<bv8> { if swap then Reverse(Bytes64(v)) else Bytes64(v) }

  /** Value a reader returns: the host (little-endian) read, swapped when swapping. */
  function Decode16(b: seq<bv8>, swap: bool): bv16
    requires |b| == 2
  {
    if swap then Swap16(FromBytes16(b)) else FromBytes16(b)
  }
  function Decode32(b: seq<bv8>, swap: bool): bv32
    requires |b| == 4
  {
    if swap then Swap32(FromBytes32(b)) else FromBytes32(b)
  }
  function Decode64(b: seq<bv8>, swap: bool): bv64
    requires |b| == 8
  {
    if swap then Swap64(FromBytes64(b)) else FromBytes64(b)
  }

  /** A value written and read back with the same byte order is unchanged,
      whichever order it is. */
  lemma {:induction false} WriteReadRoundTrip(e: Endian, host: Endian, a: bv16, b: bv32, c: bv64)
    ensures Decode16(Encode16(a, NeedsSwap(e, host)), NeedsSwap(e, host)) == a
    ensures Decode32(Encode32(b, NeedsSwap(e, host)), NeedsSwap(e, host)) == b
    ensures Decode64(Encode64(c, NeedsSwap(e, host)), NeedsSwap(e, host)) == c
  {
    SwapsReverseLayout(a, b);
    Swap64ReversesLayout(c);
    SwapInvolutions(a, b, c);
    if NeedsSwap(e, host) {
      LayoutRoundTrip(Swap16(a), Swap32(b), Swap64(c));
    } else {
      LayoutRoundTrip(a, b, c);
    }
  }

  /** On a little-endian host a big-endian writer puts the most significant byte first. */
  lemma BigEndianLayout(v: bv32)
    ensures Encode32(v, NeedsSwap(Big, Little)) == [(v >> 24) as bv8, ((v >> 16) & 0xFF) as bv8, ((v >> 8) & 0xFF) as bv8, (v & 0xFF) as bv8]
  {
  }

  class EndianBinaryWriter {
    var swapBytes: bool
    /** Everything written to the underlying stream so far. */
    var written: seq<bv8>

    /** `Create(s, e)` and the `(Stream, Endian)` constructor. */
    constructor Create(e: Endian, host: Endian)
      ensures swapBytes == NeedsSwap(e, host) && written == []
    {
      swapBytes := NeedsSwap(e, host);
      written := [];
    }

    function Order(host: Endian): (e: Endian)
      reads this
    {
      ReportedEndian(swapBytes, host)
    }

    method SetEndian(e: Endian, host: Endian)
      modifies this
      ensures swapBytes == NeedsSwap(e, host) && Order(host) == e && written == old(written)
    {
      swapBytes := NeedsSwap(e, host);
    }

    method WriteUInt16(v: bv16)
      modifies this
      ensures swapBytes == old(swapBytes) && written == old(written) + Encode16(v, swapBytes)
    {
      written := written + Encode16(v, swapBytes);
    }

    method WriteUInt32(v: bv32)
      modifies this
      ensures swapBytes == old(swapBytes) && written == old(written) + Encode32(v, swapBytes)
    {
      written := written + Encode32(v, swapBytes);
    }

    method WriteUInt64(v: bv64)
      modifies this
      ensures swapBytes == old(swapBytes) && written == old(written) + Encode64(v, swapBytes)
    {
      written := written + Encode64(v, swapBytes);
    }
  }

  datatype ReadError = EndOfStream

  class EndianBinaryReader {
    var swapBytes: bool
    const data: seq<bv8>
    var position: nat

    constructor Create(data: seq<bv8>, e: Endian, host: Endian)
      ensures swapBytes == NeedsSwap(e, host) && this.data == data && position == 0
    {
      swapBytes := NeedsSwap(e, host);
      this.data := data;
      position := 0;
    }

    method ReadUInt16() returns (r: Result<bv16, ReadError>)
      modifies this
      ensures swapBytes == old(swapBytes)
      ensures old(position) + 2 <= |data| ==>
        r == Success(Decode16(data[old(position)..old(position) + 2], swapBytes)) && position == old(position) + 2
      ensures old(position) + 2 > |data| ==> r == Failure(EndOfStream) && position == old(position)
    {
      if position + 2 > |data| {
        return Failure(EndOfStream);
      }
      r := Success(Decode16(data[position..position + 2], swapBytes));
      position := position + 2;
    }

    method ReadUInt32() returns (r: Result<bv32, ReadError>)
      modifies this
      ensures swapBytes == old(swapBytes)
      ensures old(position) + 4 <= |data| ==>
        r == Success(Decode32(data[old(position)..old(position) + 4], swapBytes)) && position == old(position) + 4
      ensures old(position) + 4 > |data| ==> r == Failure(EndOfStream) && position == old(position)
    {
      if position + 4 > |data| {
        return Failure(EndOfStream);
      }
      r := Success(Decode32(data[position..position + 4], swapBytes));
      position := position + 4;
    }

    method ReadUInt64() returns (r: Result<bv64, ReadError>)
      modifies this
      ensures swapBytes == old(swapBytes)
      ensures old(position) + 8 <= |data| ==>
        r == Success(Decode64(data[old(position)..old(position) + 8], swapBytes)) && position == old(position) + 8
      ensures old(position) + 8 > |data| ==> r == Failure(EndOfStream) && position == old(position)
    {
      if position + 8 > |data| {
        return Failure(EndOfStream);
      }
      r := Success(Decode64(data[position..position + 8], swapBytes));
      position := position + 8;
    }
  }
}
