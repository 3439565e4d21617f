/** The value buffer of trunk/Dicom/IO/ByteBuffer.cs. A buffer holds its
    bytes in one of three places, consulted in this order: a memory stream,
    a plain array, or the file segment it was loaded from. Reading through
    the stream moves the bytes into it; the swaps and the word conversions
    move them into the array first. */
module ByteBuffers {
  import opened Wrappers
  import opened Ints
  import EndianIO

  /** A .NET memory stream: its bytes, its position, and whether it can grow.
      A stream opened over an existing array cannot grow beyond that array. */
  datatype MemStream = MemStream(bytes: seq<uint8>, position: nat, expandable: bool, capacity: nat)

  /** `NotExpandable`: a fixed stream cannot grow. `NegativePosition`: a
      stream position below 0, which .NET rejects with an
      ArgumentOutOfRangeException. */
  datatype BufferError = NotExpandable | NegativePosition

  /** `Encoding.ASCII`: characters outside 7-bit ASCII become '?'. */
  function AsciiByte(c: char): (b: uint8)
    ensures (c as int) < 0x80 ==> b == c as int
    ensures (c as int) >= 0x80 ==> b == '?' as int
  {
    if (c as int) < 0x80 then c as int else '?' as int
  }

  function AsciiBytes(s: string): (r: seq<uint8>)
    ensures |r| == |s|
    ensures forall i :: 0 <= i < |s| ==> r[i] == AsciiByte(s[i])
  {
    seq(|s|, i requires 0 <= i < |s| => AsciiByte(s[i]))
  }

  /** The bytes `SetString(val, pad)` stores: the encoded string, and when its
      length is odd one more byte holding `pad`. */
  function PaddedString(val: string, pad: uint8): (r: seq<uint8>)
    ensures |r| % 2 == 0
    ensures |r| == if |val| % 2 == 1 then |val| + 1 else |val|
    ensures r[..|val|] == AsciiBytes(val)
    ensures |val| % 2 == 1 ==> r[|r| - 1] == pad
  {
    if |val| % 2 == 1 then AsciiBytes(val) + [pad] else AsciiBytes(val)
  }

  /** Words read most-significant byte first: `(b[2i] << 8) + b[2i+1]`,
      a trailing odd byte ignored. */
  function BigEndianWords(b: seq<uint8>): (w: seq<uint16>)
    ensures |w| == |b| / 2
  {
    if |b| < 2 then [] else [(b[0] as int) * 0x100 + b[1]] + BigEndianWords(b[2..])
  }

  /** Word `i` is made of bytes `2i` (high) and `2i + 1` (low). */
  lemma {:induction false} BigEndianWordAt(b: seq<uint8>, i: nat)
    requires i < |b| / 2
    ensures BigEndianWords(b)[i] == (b[2 * i] as int) * 0x100 + b[2 * i + 1]
    ensures BigEndianWords(b)[i] / 0x100 == b[2 * i] && BigEndianWords(b)[i] % 0x100 == b[2 * i + 1]
  {
    if i > 0 {
      BigEndianWordAt(b[2..], i - 1);
    }
  }

  /** `(short)` of an unsigned 16-bit value: two's complement reinterpretation. */
  function ToInt16(u: uint16): (r: int)
    ensures -0x8000 <= r < 0x8000
    ensures (r - u) % TWO_16 == 0
  {
    if u < 0x8000 then u else u - TWO_16
  }

  class ByteBuffer {
    var ms: Option<MemStream>
    var data: array?<uint8>
    /** The contents of the file segment backing the buffer, when there is one. */
    var segment: Option<seq<uint8>>
    var endian: EndianIO.Endian
    /** Whether a cached reader or writer is attached (`_br`, `_bw`). */
    var hasReader: bool
    var hasWriter: bool

    ghost predicate Valid()
      reads this
    {
      ms.Some? ==> data == null && (|ms.value.bytes| <= ms.value.capacity || ms.value.expandable)
    }

    /** The bytes the buffer currently stands for. */
    function Contents(): seq<uint8>
      reads this, data
    {
      if ms.Some? then ms.value.bytes
      else if data != null then data[..]
      else if segment.Some? then segment.value
      else []
    }

    /** `Length`: the stream's length, else the array's, else the segment's, else 0. */
    function Length(): (n: nat)
      reads this, data
      ensures n == |Contents()|
      ensures ms.None? && data == null && segment.None? ==> n == 0
    {
      if ms.Some? then |ms.value.bytes|
      else if data != null then data.Length
      else if segment.Some? then |segment.value|
      else 0
    }

    constructor FromArray(bytes: array<uint8>, e: EndianIO.Endian)
      ensures Valid() && data == bytes && ms.None? && segment.None? && endian == e
      ensures !hasReader && !hasWriter
    {
      data := bytes;
      ms := None;
      segment := None;
      endian := e;
      hasReader, hasWriter := false, false;
    }

    constructor FromSegment(file: seq<uint8>, e: EndianIO.Endian)
      ensures Valid() && data == null && ms.None? && segment == Some(file) && endian == e
      ensures !hasReader && !hasWriter
    {
      data := null;
      ms := None;
      segment := Some(file);
      endian := e;
      hasReader, hasWriter := false, false;
    }

    /** The `Stream` getter: opens a memory stream over the array (which is
        then dropped), over a copy of the segment, or an empty growable one. */
    method OpenStream()
      requires Valid()
      modifies this
      ensures Valid() && ms.Some? && Contents() == old(Contents())
      ensures old(ms).Some? ==> ms == old(ms) && data == old(data)
      ensures old(ms).None? && old(data) != null ==>
        ms == Some(MemStream(old(data[..]), 0, false, old(data.Length))) && data == null
      ensures old(ms).None? && old(data) == null && old(segment).Some? ==>
        ms == Some(MemStream(old(segment).value, 0, false, |old(segment).value|)) && data == null
      ensures old(ms).None? && old(data) == null && old(segment).None? ==> ms == Some(MemStream([], 0, true, 0))
      ensures segment == old(segment) && endian == old(endian)
      ensures hasReader == old(hasReader) && hasWriter == old(hasWriter)
    {
      if ms.None? {
        if data != null {
          ms := Some(MemStream(data[..], 0, false, data.Length));
          data := null;
        } else if segment.Some? {
          ms := Some(MemStream(segment.value, 0, false, |segment.value|));
        } else {
          ms := Some(MemStream([], 0, true, 0));
        }
      }
    }

    /** `Unload` drops everything held in memory, but only when the file
        segment can bring it back. */
    method Unload()
      modifies this
      ensures old(segment).Some? ==>
        ms.None? && data == null && !hasReader && !hasWriter && Contents() == old(segment).value
      ensures old(segment).None? ==>
        ms == old(ms) && data == old(data) && hasReader == old(hasReader) && hasWriter == old(hasWriter)
      ensures segment == old(segment) && endian == old(endian)
    {
      if segment.Some? {
        ms := None;
        hasReader, hasWriter := false, false;
        data := null;
      }
    }

    method Clear()
      modifies this
      ensures Valid() && Length() == 0 && Contents() == []
      ensures ms.None? && data == null && segment.None? && !hasReader && !hasWriter
      ensures endian == old(endian)
    {
      ms := None;
      hasReader, hasWriter := false, false;
      data := null;
      segment := None;
    }

    /** The bytes already held in memory (stream or array), ignoring the segment. */
    function InMemory(): seq<uint8>
      reads this, data
    {
      if ms.Some? then ms.value.bytes else if data != null then data[..] else []
    }

    /** `Chop(count)` as written: the segment is dropped before the stream is
        opened, so bytes that were only in the segment are lost; of the bytes
        in memory, the first `count` are dropped (all when `count` reaches
        their number). A negative count reaches `GetChunk`, whose read sets
        the stream position to it and throws, after the segment is gone. */
    method Chop(count: int) returns (r: Result<(), BufferError>)
      requires Valid()
      modifies this
      ensures Valid() && segment.None? && ms.Some? && endian == old(endian)
      ensures r.Failure? <==> count < 0
      ensures r.Failure? ==> r.error == NegativePosition && Contents() == old(InMemory())
      ensures r.Success? ==> Contents() == if count >= |old(InMemory())| then [] else old(InMemory())[count..]
    {
      segment := None;
      OpenStream();
      var s := ms.value;
      var len := |s.bytes|;
      if len <= count {
        ms := Some(s.(bytes := [], position := 0));
        return Success(());
      }
      if count < 0 {
        return Failure(NegativePosition);
      }
      var bytes := s.bytes[count..];
      ms := Some(s.(bytes := bytes, position := |bytes|));
      r := Success(());
    }

    /** `Chop(count)` with the stream opened before the segment is dropped:
        the first `count` bytes go, all of them when `count` reaches the
        length; a negative count fails as in `Chop`. */
    method ChopLoaded(count: int) returns (r: Result<(), BufferError>)
      requires Valid()
      modifies this
      ensures Valid() && segment.None? && ms.Some? && endian == old(endian)
      ensures r.Failure? <==> count < 0
      ensures r.Failure? ==> r.error == NegativePosition && Contents() == old(Contents())
      ensures r.Success? ==> Contents() == if count >= old(Length()) then [] else old(Contents())[count..]
    {
      OpenStream();
      segment := None;
      var s := ms.value;
      var len := |s.bytes|;
      if len <= count {
        ms := Some(s.(bytes := [], position := 0));
        return Success(());
      }
      if count < 0 {
        return Failure(NegativePosition);
      }
      var bytes := s.bytes[count..];
      ms := Some(s.(bytes := bytes, position := |bytes|));
      r := Success(());
    }

    /** `Append`: writes at the end of the stream and puts the position back.
        A stream over a fixed array cannot grow past it and throws. */
    method Append(buffer: seq<uint8>) returns (r: Result<(), BufferError>)
      requires Valid()
      modifies this
      ensures Valid() && ms.Some? && endian == old(endian)
      ensures r.Success? ==> Contents() == old(Contents()) + buffer && Length() == old(Length()) + |buffer|
      ensures r.Success? ==> old(ms).Some? ==> ms.value.position == old(ms).value.position
      ensures r.Success? ==> segment.None?
      ensures r.Failure? <==> !ms.value.expandable && |old(Contents())| + |buffer| > ms.value.capacity
    {
      OpenStream();
      var s := ms.value;
      if !s.expandable && |s.bytes| + |buffer| > s.capacity {
        return Failure(NotExpandable);
      }
      var cap := if |s.bytes| + |buffer| > s.capacity then |s.bytes| + |buffer| else s.capacity;
      ms := Some(s.(bytes := s.bytes + buffer, capacity := cap));
      segment := None;
      r := Success(());
    }

    /** `ToBytes`: the array, else the stream's bytes moved into a new array,
        else the segment's bytes loaded into one, else an empty array that is
        not kept. */
    method ToBytes() returns (b: array<uint8>)
      requires Valid()
      modifies this
      ensures Valid() && b[..] == old(Contents()) && Contents() == old(Contents())
      ensures ms.None?
      ensures old(Length()) > 0 ==> data == b
      ensures old(data) != null ==> b == old(data)
      ensures old(data) == null ==> fresh(b)
      ensures segment == old(segment) && endian == old(endian)
      ensures old(ms).Some? ==> !hasReader && !hasWriter
    {
      if data != null {
        return data;
      }
      if ms.Some? {
        var bytes := ms.value.bytes;
        b := new uint8[|bytes|](i requires 0 <= i < |bytes| => bytes[i]);
        data := b;
        ms := None;
        hasReader, hasWriter := false, false;
        return b;
      }
      if segment.Some? {
        var bytes := segment.value;
        b := new uint8[|bytes|](i requires 0 <= i < |bytes| => bytes[i]);
        data := b;
        return b;
      }
      b := new uint8[0];
    }

    /** `ToUInt16s`: the bytes read as big-endian words, whatever the
        buffer's byte order. */
    method ToUInt16s() returns (words: array<uint16>)
      requires Valid()
      modifies this
      ensures Valid() && Contents() == old(Contents()) && fresh(words)
      ensures words[..] == BigEndianWords(old(Contents()))
      ensures endian == old(endian) && segment == old(segment)
    {
      var bytes := ToBytes();
      var count := bytes.Length / 2;
      words := new uint16[count];
      var i, p := 0, 0;
      while i < count
        modifies words
        invariant 0 <= i <= count && p == 2 * i
        invariant forall k :: 0 <= k < i ==> words[k] == BigEndianWords(bytes[..])[k]
      {
        BigEndianWordAt(bytes[..], i);
        words[i] := ToUInt16((bytes[p] as int) * 0x100 + bytes[p + 1]);
        i, p := i + 1, p + 2;
      }
    }

    /** `ToInt16s`: the same words, reinterpreted as signed. */
    method ToInt16s() returns (words: array<int>)
      requires Valid()
      modifies this
      ensures Valid() && Contents() == old(Contents()) && fresh(words)
      ensures words.Length == |old(Contents())| / 2
      ensures forall k :: 0 <= k < words.Length ==> words[k] == ToInt16(BigEndianWords(old(Contents()))[k])
      ensures endian == old(endian) && segment == old(segment)
    {
      var bytes := ToBytes();
      var count := bytes.Length / 2;
      words := new int[count];
      var i, p := 0, 0;
      while i < count
        modifies words
        invariant 0 <= i <= count && p == 2 * i
        invariant forall k :: 0 <= k < i ==> words[k] == ToInt16(BigEndianWords(bytes[..])[k])
      {
        BigEndianWordAt(bytes[..], i);
        words[i] := ToInt16(ToUInt16((bytes[p] as int) * 0x100 + bytes[p + 1]));
        i, p := i + 1, p + 2;
      }
    }

    /** `SetString(val, pad)`: stores the padded encoding in the array. */
    method SetString(val: string, pad: uint8)
      modifies this
      ensures Valid() && ms.None? && segment.None? && data != null && fresh(data)
      ensures Contents() == PaddedString(val, pad)
      ensures endian == old(endian)
    {
      var count := |val|;
      if count % 2 == 1 {
        count := count + 1;
      }
      var bytes := new uint8[count];
      var i := 0;
      while i < |val|
        modifies bytes
        invariant 0 <= i <= |val|
        invariant forall k :: 0 <= k < i ==> bytes[k] == AsciiByte(val[k])
      {
        bytes[i] := AsciiByte(val[i]);
        i := i + 1;
      }
      if |val| < count {
        bytes[count - 1] := pad;
      }
      data := bytes;
      ms := None;
      segment := None;
    }

    /** `Swap2`: exchanges each byte pair of the (loaded) bytes. */
    method Swap2()
      requires Valid()
      modifies this, data
      ensures Valid() && ms.None? && Length() == old(Length())
      ensures EndianIO.GroupsReversed(old(Contents()), Contents(), 2)
      ensures endian == old(endian) && segment == old(segment)
    {
      var bytes := ToBytes();
      EndianIO.SwapBytes2(bytes);
    }

    /** `Swap4`: reverses each group of four of the (loaded) bytes. */
    method Swap4()
      requires Valid()
      modifies this, data
      ensures Valid() && ms.None? && Length() == old(Length())
      ensures EndianIO.GroupsReversed(old(Contents()), Contents(), 4)
      ensures endian == old(endian) && segment == old(segment)
    {
      var bytes := ToBytes();
      EndianIO.SwapBytes4(bytes);
    }

    /** `Swap(n)`: the group swap for any width. */
    method Swap(n: nat)
      requires Valid() && n > 0
      modifies this, data
      ensures Valid() && Length() == old(Length())
      ensures EndianIO.GroupsReversed(old(Contents()), Contents(), n)
      ensures endian == old(endian) && segment == old(segment)
    {
      if n == 1 {
        EndianIO.OneGroupsReversed(Contents());
        return;
      }
      var bytes := ToBytes();
      EndianIO.SwapBytes(n, bytes);
    }
  }

  /** A buffer whose four bytes are still only in its file segment, chopped
      by one: as written it ends up empty, the loaded variant keeps three. */
  method ChopOfUnloadedSegment() returns (asWritten: seq<uint8>, loaded: seq<uint8>)
    ensures asWritten == [] && loaded == [2, 3, 4]
  {
    var a := new ByteBuffer.FromSegment([1, 2, 3, 4], EndianIO.Little);
    var _ := a.Chop(1);
    asWritten := a.Contents();
    var b := new ByteBuffer.FromSegment([1, 2, 3, 4], EndianIO.Little);
    var _ := b.ChopLoaded(1);
    loaded := b.Contents();
  }
}
