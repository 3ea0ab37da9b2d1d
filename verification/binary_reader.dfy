/**
 `BinaryReader`: a cursor over a received byte buffer. Fixed-width reads are
 bounds-checked first; string and byte-array bodies are not, so a declared
 length larger than what remains yields the available tail and pushes the
 cursor past the end.
 */
module BinaryReader {
  import opened Results
  import opened Bytes

  datatype Reader = Reader(bytes: Bytes, offset: nat, bitOffset: BitIndex)

  /** A value read and the reader after it. */
  datatype Read<+T> = Read(value: T, next: Reader)

  /** `new BinaryReader(bytes)` */
  function New(bytes: Bytes): (r: Reader)
    ensures r.bytes == bytes && Start(r) == 0
    ensures Peek(r) <==> |bytes| > 0
  {
    Reader(bytes, 0, 0)
  }

  /** Where the next whole-byte read starts: a partly read bool byte is skipped. */
  function Start(r: Reader): nat {
    if r.bitOffset > 0 then r.offset + 1 else r.offset
  }

  /** `peek`: some byte remains at the cursor. */
  function Peek(r: Reader): (more: bool)
    ensures more <==> ReadBool(r).Ok?
    ensures r.bitOffset == 0 ==> (more <==> ReadUint8(r).Ok?)
  {
    r.offset < |r.bytes|
  }

  /** `getNextOffset`: skips a partly read bool byte, then demands `k` more bytes. */
  function GetNextOffset(r: Reader, k: nat): (res: Result<Reader>)
    ensures res.Ok? <==> Start(r) + k <= |r.bytes|
    ensures res.Err? ==> res.error == Truncated
    ensures res.Ok? ==> res.value.bytes == r.bytes && res.value.offset == Start(r) && res.value.bitOffset == 0
  {
    var aligned := if r.bitOffset > 0 then Reader(r.bytes, r.offset + 1, 0) else r;
    if aligned.offset + k > |aligned.bytes| then Err(Truncated) else Ok(aligned)
  }

  /** The `k` bytes at the cursor after `getNextOffset(k)`. */
  function ReadFixed(r: Reader, k: nat): (res: Result<Read<Bytes>>)
    ensures res.Ok? <==> Start(r) + k <= |r.bytes|
    ensures res.Err? ==> res.error == Truncated
    ensures res.Ok? ==>
              && res.value.value == r.bytes[Start(r)..Start(r) + k]
              && res.value.next == Reader(r.bytes, Start(r) + k, 0)
  {
    var a :- GetNextOffset(r, k);
    Ok(Read(a.bytes[a.offset..a.offset + k], a.(offset := a.offset + k)))
  }

  /** `readUint8` (and `readByte`) */
  function ReadUint8(r: Reader): (res: Result<Read<int>>)
    ensures res.Ok? <==> Start(r) + 1 <= |r.bytes|
    ensures res.Err? ==> res.error == Truncated
    ensures res.Ok? ==>
              && res.value.value == r.bytes[Start(r)]
              && res.value.next == Reader(r.bytes, Start(r) + 1, 0)
  {
    var b :- ReadFixed(r, 1);
    Ok(Read(FromLE(b.value), b.next))
  }

  /** `readUint16` */
  function ReadUint16(r: Reader): (res: Result<Read<int>>)
    ensures res.Ok? <==> Start(r) + 2 <= |r.bytes|
    ensures res.Err? ==> res.error == Truncated
    ensures res.Ok? ==>
              && 0 <= res.value.value < 0x1_0000
              && res.value.value == FromLE(r.bytes[Start(r)..Start(r) + 2])
              && res.value.next == Reader(r.bytes, Start(r) + 2, 0)
  {
    var b :- ReadFixed(r, 2);
    Ok(Read(FromLE(b.value), b.next))
  }

  /** `readInt16` */
  function ReadInt16(r: Reader): (res: Result<Read<int>>)
    ensures res.Ok? <==> Start(r) + 2 <= |r.bytes|
    ensures res.Err? ==> res.error == Truncated
    ensures res.Ok? ==>
              && -0x8000 <= res.value.value < 0x8000
              && res.value.value == Signed(FromLE(r.bytes[Start(r)..Start(r) + 2]), 2)
              && res.value.next == Reader(r.bytes, Start(r) + 2, 0)
  {
    var b :- ReadFixed(r, 2);
    Ok(Read(Signed(FromLE(b.value), 2), b.next))
  }

  /** `readUint32` */
  function ReadUint32(r: Reader): (res: Result<Read<int>>)
    ensures res.Ok? <==> Start(r) + 4 <= |r.bytes|
    ensures res.Err? ==> res.error == Truncated
    ensures res.Ok? ==>
              && 0 <= res.value.value <= MAX_U32
              && res.value.value == FromLE(r.bytes[Start(r)..Start(r) + 4])
              && res.value.next == Reader(r.bytes, Start(r) + 4, 0)
  {
    var b :- ReadFixed(r, 4);
    Ok(Read(FromLE(b.value), b.next))
  }

  /** `readInt32` */
  function ReadInt32(r: Reader): (res: Result<Read<int>>)
    ensures res.Ok? <==> Start(r) + 4 <= |r.bytes|
    ensures res.Err? ==> res.error == Truncated
    ensures res.Ok? ==>
              && -0x8000_0000 <= res.value.value < 0x8000_0000
              && res.value.value == Signed(FromLE(r.bytes[Start(r)..Start(r) + 4]), 4)
              && res.value.next == Reader(r.bytes, Start(r) + 4, 0)
  {
    var b :- ReadFixed(r, 4);
    Ok(Read(Signed(FromLE(b.value), 4), b.next))
  }

  /** `readFloat`, with the float returned as its four stored bytes. */
  function ReadFloat(r: Reader): (res: Result<Read<Float32>>)
    ensures res.Ok? <==> Start(r) + 4 <= |r.bytes|
    ensures res.Err? ==> res.error == Truncated
    ensures res.Ok? ==>
              && res.value.value == r.bytes[Start(r)..Start(r) + 4]
              && res.value.next == Reader(r.bytes, Start(r) + 4, 0)
  {
    var b :- ReadFixed(r, 4);
    Ok(Read(b.value, b.next))
  }

  /** `readDouble`, with the double returned as its eight stored bytes. */
  function ReadDouble(r: Reader): (res: Result<Read<Float64>>)
    ensures res.Ok? <==> Start(r) + 8 <= |r.bytes|
    ensures res.Err? ==> res.error == Truncated
    ensures res.Ok? ==>
              && res.value.value == r.bytes[Start(r)..Start(r) + 8]
              && res.value.next == Reader(r.bytes, Start(r) + 8, 0)
  {
    var b :- ReadFixed(r, 8);
    Ok(Read(b.value, b.next))
  }

  /**
   `readBool`: the bit at `bitOffset` of the byte at the cursor; the cursor
   moves on after the eighth bit. `DataView.getUint8` past the end is a
   `RangeError`.
   */
  function ReadBool(r: Reader): (res: Result<Read<bool>>)
    ensures res.Ok? <==> r.offset < |r.bytes|
    ensures res.Err? ==> res.error == RangeError
    ensures res.Ok? ==>
              && res.value.value == Bit(r.bytes[r.offset], r.bitOffset)
              && res.value.next.bytes == r.bytes
              && res.value.next.bitOffset == (r.bitOffset + 1) % 8
              && res.value.next.offset == if r.bitOffset == 7 then r.offset + 1 else r.offset
  {
    if r.offset >= |r.bytes| then Err(RangeError)
    else
      var bit := Bit(r.bytes[r.offset], r.bitOffset);
      if r.bitOffset == 7 then Ok(Read(bit, Reader(r.bytes, r.offset + 1, 0)))
      else Ok(Read(bit, Reader(r.bytes, r.offset, r.bitOffset + 1)))
  }

  /**
   The body of a length-prefixed field: the declared number of bytes from
   `from`, clipped to the buffer, and the cursor moved by the declared length.
   */
  function Body(bytes: Bytes, from: nat, length: nat): Read<Bytes> {
    Read(Slice(bytes, from, from + length), Reader(bytes, from + length, 0))
  }

  /** `readBytes`: a u32 length, then that many bytes; the body is not bounds-checked. */
  function ReadBytes(r: Reader): (res: Result<Read<Bytes>>)
    ensures res.Ok? <==> Start(r) + 4 <= |r.bytes|
    ensures res.Err? ==> res.error == Truncated
    ensures res.Ok? ==>
              var length := FromLE(r.bytes[Start(r)..Start(r) + 4]);
              && res.value.value == r.bytes[Start(r) + 4..Min(Start(r) + 4 + length, |r.bytes|)]
              && res.value.next == Reader(r.bytes, Start(r) + 4 + length, 0)
  {
    var length :- ReadUint32(r);
    Ok(Body(r.bytes, length.next.offset, length.value))
  }

  /** `readString`: `getNextOffset(4)`, a u32 length, then the UTF-8 body, not bounds-checked. */
  function ReadString(r: Reader): (res: Result<Read<Bytes>>)
    ensures res.Ok? <==> Start(r) + 4 <= |r.bytes|
    ensures res.Err? ==> res.error == Truncated
    ensures res.Ok? ==>
              var length := FromLE(r.bytes[Start(r)..Start(r) + 4]);
              && res.value.value == r.bytes[Start(r) + 4..Min(Start(r) + 4 + length, |r.bytes|)]
              && res.value.next == Reader(r.bytes, Start(r) + 4 + length, 0)
  {
    var a :- GetNextOffset(r, 4);
    // cannot fail once getNextOffset(4) has passed
    match ReadUint32(a)
    case Err(e) => Err(e)
    case Ok(length) => Ok(Body(a.bytes, length.next.offset, length.value))
  }

  /** The extra `getNextOffset(4)` of `readString` changes nothing: it reads exactly as `readBytes`. */
  lemma ReadStringIsReadBytes(r: Reader)
    ensures ReadString(r) == ReadBytes(r)
  {
  }

  /** With no partly read bool byte, `peek` says exactly whether a byte can be read. */
  lemma PeekMeansByteAvailable(r: Reader)
    requires r.bitOffset == 0
    ensures Peek(r) <==> ReadUint8(r).Ok?
  {
  }

  /** Reading a length-prefixed field laid out at `p` gives back its bytes and moves past it. */
  lemma ReadLp(bytes: Bytes, p: nat, data: Bytes)
    requires |data| <= MAX_U32
    requires p + 4 + |data| <= |bytes|
    requires bytes[p..p + 4 + |data|] == Lp(data)
    ensures ReadString(Reader(bytes, p, 0)) == Ok(Read(data, Reader(bytes, p + 4 + |data|, 0)))
    ensures ReadBytes(Reader(bytes, p, 0)) == Ok(Read(data, Reader(bytes, p + 4 + |data|, 0)))
  {
    assert bytes[p..p + 4] == Lp(data)[..4] == LE(|data|, 4);
    FromLEOfLE(|data|, 4);
    assert bytes[p + 4..p + 4 + |data|] == Lp(data)[4..] == data;
  }

  /** A length-prefixed field whose body is cut short reads back as what is left of the body. */
  lemma ReadLpCut(bytes: Bytes, p: nat, length: nat, body: Bytes)
    requires length <= MAX_U32
    requires p + 4 <= |bytes| && bytes[p..p + 4] == LE(length, 4)
    requires bytes[p + 4..] == body && |body| <= length
    ensures ReadString(Reader(bytes, p, 0)) == Ok(Read(body, Reader(bytes, p + 4 + length, 0)))
  {
    FromLEOfLE(length, 4);
  }

  /**
   A declared length longer than what remains: `readString` still succeeds,
   returns only the available tail, leaves the cursor past the end, and from
   there every read fails.
   */
  lemma StringOverrun(r: Reader)
    requires ReadString(r).Ok?
    requires Start(r) + 4 + FromLE(r.bytes[Start(r)..Start(r) + 4]) > |r.bytes|
    ensures var next := ReadString(r).value.next;
            && |ReadString(r).value.value| < FromLE(r.bytes[Start(r)..Start(r) + 4])
            && next.offset > |r.bytes|
            && !Peek(next)
            && ReadUint8(next) == Err(Truncated)
            && ReadUint16(next) == Err(Truncated)
            && ReadInt16(next) == Err(Truncated)
            && ReadUint32(next) == Err(Truncated)
            && ReadInt32(next) == Err(Truncated)
            && ReadFloat(next) == Err(Truncated)
            && ReadDouble(next) == Err(Truncated)
            && ReadString(next) == Err(Truncated)
            && ReadBytes(next) == Err(Truncated)
            && ReadBool(next) == Err(RangeError)
  {
  }
}
