/**
 The writer and the reader against each other: what a write stores at an
 aligned cursor, a read at the same place gives back, with the same advance.
 The one place they disagree is a bool byte left partly written: the writer
 keeps storing whole bytes at the same offset, the reader skips it.
 */
module ReadWrite {
  import opened Results
  import opened Bytes
  import Utf8
  import W = BinaryWriter
  import R = BinaryReader

  /** A reader over the writer's buffer, at the writer's position before a write. */
  function ReaderAt(w: W.Writer, after: W.Writer): R.Reader {
    R.Reader(after.buffer, w.offset, 0)
  }

  /** A reader over the writer's buffer at `offset`. */
  function Following(after: W.Writer, offset: nat): R.Reader {
    R.Reader(after.buffer, offset, 0)
  }

  lemma UInt8RoundTrip(w: W.Writer, v: int)
    requires W.WriteUInt8(w, v).Ok?
    ensures var after := W.WriteUInt8(w, v).value;
            R.ReadUint8(ReaderAt(w, after)) == Ok(R.Read(v, Following(after, w.offset + 1)))
  {
    var after := W.WriteUInt8(w, v).value;
    assert W.Window(w, after, 1) == [after.buffer[w.offset]];
  }

  lemma UInt16RoundTrip(w: W.Writer, v: int)
    requires W.WriteUInt16(w, v).Ok?
    ensures var after := W.WriteUInt16(w, v).value;
            R.ReadUint16(ReaderAt(w, after)) == Ok(R.Read(v, Following(after, w.offset + 2)))
  {
  }

  lemma Int16RoundTrip(w: W.Writer, v: int)
    requires W.WriteInt16(w, v).Ok?
    ensures var after := W.WriteInt16(w, v).value;
            R.ReadInt16(ReaderAt(w, after)) == Ok(R.Read(v, Following(after, w.offset + 2)))
  {
  }

  /** `readUint32` gives back what `writeUInt32` stored, four bytes further on. */
  lemma UInt32RoundTrip(w: W.Writer, v: int)
    requires W.WriteUInt32(w, v).Ok?
    ensures var after := W.WriteUInt32(w, v).value;
            R.ReadUint32(ReaderAt(w, after)) == Ok(R.Read(v, Following(after, w.offset + 4)))
  {
  }

  lemma Int32RoundTrip(w: W.Writer, v: int)
    requires W.WriteInt32(w, v).Ok?
    ensures var after := W.WriteInt32(w, v).value;
            R.ReadInt32(ReaderAt(w, after)) == Ok(R.Read(v, Following(after, w.offset + 4)))
  {
  }

  lemma FloatRoundTrip(w: W.Writer, bits: Float32)
    requires W.WriteFloat(w, bits).Ok?
    ensures var after := W.WriteFloat(w, bits).value;
            R.ReadFloat(ReaderAt(w, after)) == Ok(R.Read(bits, Following(after, w.offset + 4)))
  {
  }

  lemma DoubleRoundTrip(w: W.Writer, bits: Float64)
    requires W.WriteDouble(w, bits).Ok?
    ensures var after := W.WriteDouble(w, bits).value;
            R.ReadDouble(ReaderAt(w, after)) == Ok(R.Read(bits, Following(after, w.offset + 8)))
  {
  }

  /** `readBytes` gives back what `writeBytes` stored, length prefix included in the advance. */
  lemma BytesRoundTrip(w: W.Writer, data: Bytes)
    requires W.WriteBytes(w, data).Ok?
    ensures var after := W.WriteBytes(w, data).value;
            R.ReadBytes(ReaderAt(w, after)) == Ok(R.Read(data, Following(after, w.offset + 4 + |data|)))
  {
    var after := W.WriteBytes(w, data).value;
    LEOfFromLE(W.Window(w, after, 4));
    assert after.buffer[w.offset..w.offset + 4 + |data|] == W.Window(w, after, 4) + data;
    R.ReadLp(after.buffer, w.offset, data);
  }

  /** `readString` gives back the UTF-8 bytes `writeString` stored. */
  lemma StringRoundTrip(w: W.Writer, s: string)
    requires W.WriteString(w, s).Ok?
    ensures var after := W.WriteString(w, s).value;
            var n := |Utf8.Encode(s)|;
            R.ReadString(ReaderAt(w, after)) == Ok(R.Read(Utf8.Encode(s), Following(after, w.offset + 4 + n)))
  {
    StringWriteIsBytesWrite(w, s);
    StringReadOfBytes(w, Utf8.Encode(s));
  }

  lemma StringWriteIsBytesWrite(w: W.Writer, s: string)
    ensures W.WriteString(w, s) == W.WriteBytes(w, Utf8.Encode(s))
  {
  }

  /** `readString` gives back what `writeBytes` stored. */
  lemma StringReadOfBytes(w: W.Writer, data: Bytes)
    requires W.WriteBytes(w, data).Ok?
    ensures var after := W.WriteBytes(w, data).value;
            R.ReadString(ReaderAt(w, after)) == Ok(R.Read(data, Following(after, w.offset + 4 + |data|)))
  {
    BytesRoundTrip(w, data);
    R.ReadStringIsReadBytes(ReaderAt(w, W.WriteBytes(w, data).value));
  }

  /**
   `readBool` at the writer's bit position gives back what `writeBool` put
   there, as long as the bit was clear (the writer can only OR bits in), and
   both cursors move alike.
   */
  lemma BoolRoundTrip(w: W.Writer, v: bool)
    requires w.offset < |w.buffer|
    requires !Bit(w.buffer[w.offset], w.bitOffset)
    ensures var after := W.WriteBool(w, v);
            R.ReadBool(R.Reader(after.buffer, w.offset, w.bitOffset))
            == Ok(R.Read(v, R.Reader(after.buffer, after.offset, after.bitOffset)))
  {
  }

  /** A set bit cannot be cleared: writing `false` over it reads back `true`. */
  lemma BoolCannotClear(w: W.Writer)
    requires w.offset < |w.buffer|
    requires Bit(w.buffer[w.offset], w.bitOffset)
    ensures var after := W.WriteBool(w, false);
            R.ReadBool(R.Reader(after.buffer, w.offset, w.bitOffset)).Ok?
            && R.ReadBool(R.Reader(after.buffer, w.offset, w.bitOffset)).value.value
  {
  }

  /**
   A bool followed by a byte does not round-trip: the writer stores the byte
   over the partly filled bool byte, while the reader skips that byte and
   reads the next one. Writing `true` then `0x80` into two zero bytes reads
   back `false` then `0`.
   */
  lemma BoolThenByteDisagree()
    ensures var w1 := W.WriteBool(W.New(2), true);
            var w2 := W.WriteUInt8(w1, 0x80);
            && w2.Ok?
            && w2.value.buffer == [0x80, 0]
            && R.ReadBool(R.New(w2.value.buffer)) == Ok(R.Read(false, R.Reader([0x80, 0], 0, 1)))
            && R.ReadUint8(R.Reader([0x80, 0], 0, 1)) == Ok(R.Read(0, R.Reader([0x80, 0], 2, 0)))
  {
    ByteOverBool();
    BitOf0x80();
    var bytes: Bytes := [0x80, 0];
    assert R.ReadBool(R.New(bytes)).value.value == Bit(0x80, 0);
  }

  /** The byte lands on the partly filled bool byte, replacing it. */
  lemma ByteOverBool()
    ensures var w2 := W.WriteUInt8(W.WriteBool(W.New(2), true), 0x80);
            w2.Ok? && w2.value.buffer == [0x80, 0]
  {
    var w1 := W.WriteBool(W.New(2), true);
    FirstBoolOfTwoBytes(w1);
    assert LE(0x80, 1) == [0x80];
    assert W.WriteUInt8(w1, 0x80) == W.Put(w1, [0x80]);
    assert Splice(w1.buffer, 0, [0x80]) == [0x80] + w1.buffer[1..];
    assert w1.buffer[1..] == [0];
  }

  /** One bool into two zero bytes leaves the cursor inside the first byte and the second byte zero. */
  lemma FirstBoolOfTwoBytes(w1: W.Writer)
    requires w1 == W.WriteBool(W.New(2), true)
    ensures |w1.buffer| == 2 && w1.offset == 0 && w1.bitOffset == 1 && w1.buffer[1] == 0
  {
  }

  lemma BitOf0x80()
    ensures !Bit(0x80, 0)
  {
    assert ((0x80 as bv8) >> 0) & 1 == 0;
  }
}
