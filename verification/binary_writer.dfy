/**
 `BinaryWriter`: a cursor over a fixed-size byte buffer. Every write is a
 pure function from the writer to a new writer, or to the error the source
 throws. The buffer never grows: a store that does not fit is the
 `RangeError` that `DataView` and `TypedArray.set` raise.
 */
module BinaryWriter {
  import opened Results
  import opened Bytes
  import Utf8

  datatype Writer = Writer(buffer: Bytes, offset: nat, bitOffset: BitIndex)

  /** `new BinaryWriter(new Uint8Array(size))` */
  function New(size: nat): (w: Writer)
    ensures |w.buffer| == size && w.offset == 0 && w.bitOffset == 0
    ensures forall i | 0 <= i < size :: w.buffer[i] == 0
  {
    Writer(Zeros(size), 0, 0)
  }

  /** The bytes before the cursor: `buffer.slice(0, offset)`. */
  function Written(w: Writer): Bytes {
    Slice(w.buffer, 0, w.offset)
  }

  /**
   `w'` is `w` with the cursor moved `k` bytes forward inside the buffer and
   every byte outside the `k` bytes it passed left as it was.
   */
  ghost predicate Advanced(w: Writer, w': Writer, k: nat) {
    && |w'.buffer| == |w.buffer|
    && w'.offset == w.offset + k <= |w.buffer|
    && w'.bitOffset == w.bitOffset
    && (forall i | 0 <= i < |w.buffer| && !(w.offset <= i < w'.offset) :: w'.buffer[i] == w.buffer[i])
  }

  /** The `k` bytes a write that advanced the cursor stored. */
  function Window(w: Writer, w': Writer, k: nat): Bytes
    requires w.offset + k <= |w'.buffer|
  {
    w'.buffer[w.offset..w.offset + k]
  }

  /** A `DataView` / `TypedArray.set` store of `data` at the cursor, then the cursor moves past it. */
  function Put(w: Writer, data: Bytes): (r: Result<Writer>)
    ensures r.Ok? <==> w.offset + |data| <= |w.buffer|
    ensures r.Err? ==> r.error == RangeError
    ensures r.Ok? ==> Advanced(w, r.value, |data|) && Window(w, r.value, |data|) == data
  {
    if w.offset + |data| <= |w.buffer| then
      Ok(w.(buffer := Splice(w.buffer, w.offset, data), offset := w.offset + |data|))
    else
      Err(RangeError)
  }

  /** `writeBool`: ORs the bit into the current byte; the cursor moves on after the eighth bit. */
  function WriteBool(w: Writer, value: bool): (r: Writer)
    ensures r.bitOffset == (w.bitOffset + 1) % 8
    ensures r.offset == if w.bitOffset == 7 then w.offset + 1 else w.offset
    ensures |r.buffer| == |w.buffer|
    ensures forall i | 0 <= i < |w.buffer| && i != w.offset :: r.buffer[i] == w.buffer[i]
    ensures w.offset < |w.buffer| ==>
              && Bit(r.buffer[w.offset], w.bitOffset) == (value || Bit(w.buffer[w.offset], w.bitOffset))
              && forall j | 0 <= j < 8 && j != w.bitOffset ::
                   Bit(r.buffer[w.offset], j) == Bit(w.buffer[w.offset], j)
    ensures w.offset >= |w.buffer| ==> r.buffer == w.buffer
  {
    // an index past the end of a typed array is silently not written
    var buffer :=
      if value && w.offset < |w.buffer| then w.buffer[w.offset := SetBit(w.buffer[w.offset], w.bitOffset)]
      else w.buffer;
    if w.bitOffset == 7 then Writer(buffer, w.offset + 1, 0)
    else Writer(buffer, w.offset, w.bitOffset + 1)
  }

  /** `writeUInt8` (and `writeByte`): a value in [0, 255], one byte. */
  function WriteUInt8(w: Writer, value: int): (r: Result<Writer>)
    ensures r.Ok? <==> 0 <= value < 0x100 && w.offset + 1 <= |w.buffer|
    ensures !(0 <= value < 0x100) ==> r == Err(Overflow)
    ensures r.Ok? ==> Advanced(w, r.value, 1) && FromLE(Window(w, r.value, 1)) == value
  {
    if 0x100 <= value || value < 0 then Err(Overflow)
    else
      FromLEOfLE(value, 1);
      Put(w, LE(value, 1))
  }

  /** `writeUInt16`: a value in [0, 65535], two little-endian bytes. */
  function WriteUInt16(w: Writer, value: int): (r: Result<Writer>)
    ensures r.Ok? <==> 0 <= value < 0x1_0000 && w.offset + 2 <= |w.buffer|
    ensures !(0 <= value < 0x1_0000) ==> r == Err(Overflow)
    ensures r.Ok? ==> Advanced(w, r.value, 2) && FromLE(Window(w, r.value, 2)) == value
  {
    if 0x1_0000 <= value || value < 0 then Err(Overflow)
    else
      FromLEOfLE(value, 2);
      Put(w, LE(value, 2))
  }

  /** `writeInt16`: a value in [-32768, 32767], two little-endian two's-complement bytes. */
  function WriteInt16(w: Writer, value: int): (r: Result<Writer>)
    ensures r.Ok? <==> -0x8000 <= value < 0x8000 && w.offset + 2 <= |w.buffer|
    ensures !(-0x8000 <= value < 0x8000) ==> r == Err(Overflow)
    ensures r.Ok? ==> Advanced(w, r.value, 2) && Signed(FromLE(Window(w, r.value, 2)), 2) == value
  {
    if 0x8000 <= value || value < -0x8000 then Err(Overflow)
    else
      var u := if value < 0 then value + 0x1_0000 else value;
      FromLEOfLE(u, 2);
      Put(w, LE(u, 2))
  }

  /** `writeUInt32`: a value in [0, 0xffffffff], four little-endian bytes. */
  function WriteUInt32(w: Writer, value: int): (r: Result<Writer>)
    ensures r.Ok? <==> 0 <= value <= MAX_U32 && w.offset + 4 <= |w.buffer|
    ensures !(0 <= value <= MAX_U32) ==> r == Err(Overflow)
    ensures r.Ok? ==> Advanced(w, r.value, 4) && FromLE(Window(w, r.value, 4)) == value
  {
    if MAX_U32 < value || value < 0 then Err(Overflow)
    else
      FromLEOfLE(value, 4);
      Put(w, LE(value, 4))
  }

  /** `writeInt32`: a value in [-2^31, 2^31 - 1], four little-endian two's-complement bytes. */
  function WriteInt32(w: Writer, value: int): (r: Result<Writer>)
    ensures r.Ok? <==> -0x8000_0000 <= value < 0x8000_0000 && w.offset + 4 <= |w.buffer|
    ensures !(-0x8000_0000 <= value < 0x8000_0000) ==> r == Err(Overflow)
    ensures r.Ok? ==> Advanced(w, r.value, 4) && Signed(FromLE(Window(w, r.value, 4)), 4) == value
  {
    if 0x8000_0000 <= value || value < -0x8000_0000 then Err(Overflow)
    else
      var u := if value < 0 then value + 0x1_0000_0000 else value;
      FromLEOfLE(u, 4);
      Put(w, LE(u, 4))
  }

  /** `writeFloat`, with the float taken as its four stored bytes. */
  function WriteFloat(w: Writer, bits: Float32): (r: Result<Writer>)
    ensures r.Ok? <==> w.offset + 4 <= |w.buffer|
    ensures r.Ok? ==> Advanced(w, r.value, 4) && Window(w, r.value, 4) == bits
  {
    Put(w, bits)
  }

  /** `writeDouble`, with the double taken as its eight stored bytes. */
  function WriteDouble(w: Writer, bits: Float64): (r: Result<Writer>)
    ensures r.Ok? <==> w.offset + 8 <= |w.buffer|
    ensures r.Ok? ==> Advanced(w, r.value, 8) && Window(w, r.value, 8) == bits
  {
    Put(w, bits)
  }

  /** `writeBytes`: the u32 byte count, then the bytes. */
  function WriteBytes(w: Writer, data: Bytes): (r: Result<Writer>)
    ensures r.Ok? <==> |data| <= MAX_U32 && w.offset + 4 + |data| <= |w.buffer|
    ensures |data| > MAX_U32 ==> r == Err(Overflow)
    ensures r.Ok? ==>
              && Advanced(w, r.value, 4 + |data|)
              && FromLE(Window(w, r.value, 4)) == |data|
              && r.value.buffer[w.offset + 4..r.value.offset] == data
  {
    var w1 :- WriteUInt32(w, |data|);
    Put(w1, data)
  }

  /** `writeString`: `writeBytes` of the string's UTF-8 encoding. */
  function WriteString(w: Writer, s: string): (r: Result<Writer>)
    ensures r.Ok? <==> |Utf8.Encode(s)| <= MAX_U32 && w.offset + 4 + |Utf8.Encode(s)| <= |w.buffer|
    ensures r.Ok? ==>
              && Advanced(w, r.value, 4 + |Utf8.Encode(s)|)
              && FromLE(Window(w, r.value, 4)) == |Utf8.Encode(s)|
              && r.value.buffer[w.offset + 4..r.value.offset] == Utf8.Encode(s)
  {
    WriteBytes(w, Utf8.Encode(s))
  }

  /** A write as the encoders issue it. */
  datatype Op =
    | U8(v: int)          // writeUInt8
    | Str(data: Bytes)    // writeString of a field, given as its UTF-8 bytes
    | F32(bits: Float32)  // writeFloat

  function Apply(w: Writer, op: Op): Result<Writer> {
    match op
    case U8(v) => WriteUInt8(w, v)
    case Str(data) => WriteBytes(w, data)
    case F32(bits) => WriteFloat(w, bits)
  }

  /** The writes `ops`, in order; the first failure stops the run. */
  function Run(w: Writer, ops: seq<Op>): Result<Writer>
    decreases |ops|
  {
    if |ops| == 0 then Ok(w)
    else
      var w1 :- Apply(w, ops[0]);
      Run(w1, ops[1..])
  }

  predicate Fits(op: Op) {
    match op
    case U8(v) => 0 <= v < 0x100
    case Str(data) => |data| <= MAX_U32
    case F32(_) => true
  }

  predicate AllFit(ops: seq<Op>) {
    forall i | 0 <= i < |ops| :: Fits(ops[i])
  }

  function Size(op: Op): nat {
    match op
    case U8(_) => 1
    case Str(data) => 4 + |data|
    case F32(_) => 4
  }

  function TotalSize(ops: seq<Op>): nat {
    if |ops| == 0 then 0 else Size(ops[0]) + TotalSize(ops[1..])
  }

  /** The bytes a write lays down: the reference layout of each field kind. */
  function Encoding(op: Op): (b: Bytes)
    requires Fits(op)
    ensures |b| == Size(op)
  {
    match op
    case U8(v) => [v]
    case Str(data) => Lp(data)
    case F32(bits) => bits
  }

  function Layout(ops: seq<Op>): (b: Bytes)
    requires AllFit(ops)
    ensures |b| == TotalSize(ops)
  {
    if |ops| == 0 then [] else Encoding(ops[0]) + Layout(ops[1..])
  }

  /** Size, range and layout of a write list, one write at a time. */
  lemma ConsFacts(op: Op, rest: seq<Op>)
    ensures TotalSize([op] + rest) == Size(op) + TotalSize(rest)
    ensures AllFit([op] + rest) <==> Fits(op) && AllFit(rest)
    ensures AllFit([op] + rest) ==> Layout([op] + rest) == Encoding(op) + Layout(rest)
  {
    var ops := [op] + rest;
    assert ops[0] == op && ops[1..] == rest;
    if Fits(op) && AllFit(rest) {
      forall i | 0 <= i < |ops| ensures Fits(ops[i]) {
        if i > 0 {
          assert ops[i] == rest[i - 1];
        }
      }
    }
  }

  lemma {:induction false} TotalSizeAppend(a: seq<Op>, b: seq<Op>)
    ensures TotalSize(a + b) == TotalSize(a) + TotalSize(b)
  {
    if |a| > 0 {
      assert (a + b)[1..] == a[1..] + b;
      TotalSizeAppend(a[1..], b);
    } else {
      assert a + b == b;
    }
  }

  lemma AllFitAppend(a: seq<Op>, b: seq<Op>)
    ensures AllFit(a + b) <==> AllFit(a) && AllFit(b)
  {
    if AllFit(a + b) {
      assert forall i | 0 <= i < |a| :: a[i] == (a + b)[i];
      assert forall i | 0 <= i < |b| :: b[i] == (a + b)[|a| + i];
    }
    if AllFit(a) && AllFit(b) {
      forall i | 0 <= i < |a + b| ensures Fits((a + b)[i]) {
        if i >= |a| {
          assert (a + b)[i] == b[i - |a|];
        }
      }
    }
  }

  lemma {:induction false} LayoutAppend(a: seq<Op>, b: seq<Op>)
    requires AllFit(a) && AllFit(b)
    ensures AllFit(a + b)
    ensures Layout(a + b) == Layout(a) + Layout(b)
  {
    assert AllFit(a + b) by {
      forall i | 0 <= i < |a + b| ensures Fits((a + b)[i]) {
        if i < |a| {
          assert (a + b)[i] == a[i];
        } else {
          assert (a + b)[i] == b[i - |a|];
        }
      }
    }
    if |a| > 0 {
      assert (a + b)[1..] == a[1..] + b;
      assert AllFit(a[1..]) by {
        forall i | 0 <= i < |a| - 1 ensures Fits(a[1..][i]) {
          assert a[1..][i] == a[i + 1];
        }
      }
      LayoutAppend(a[1..], b);
      assert (a + b)[0] == a[0];
    } else {
      assert a + b == b;
    }
  }

  /** One write appends its reference layout to what is already written. */
  lemma ApplyAppends(w: Writer, op: Op)
    requires w.offset <= |w.buffer|
    ensures Apply(w, op).Ok? <==> Fits(op) && w.offset + Size(op) <= |w.buffer|
    ensures Apply(w, op).Ok? ==>
              && |Apply(w, op).value.buffer| == |w.buffer|
              && Apply(w, op).value.offset == w.offset + Size(op)
              && Apply(w, op).value.bitOffset == w.bitOffset
              && Written(Apply(w, op).value) == Written(w) + Encoding(op)
  {
    var r := Apply(w, op);
    if r.Ok? {
      var w' := r.value;
      assert w'.buffer[..w.offset] == w.buffer[..w.offset];
      match op {
        case U8(v) =>
          LEOfFromLE(Window(w, w', 1));
        case Str(data) =>
          var lenBytes := Window(w, w', 4);
          LEOfFromLE(lenBytes);
          assert w'.buffer[w.offset..w'.offset] == lenBytes + data;
        case F32(bits) =>
      }
      assert w'.buffer[..w'.offset] == w'.buffer[..w.offset] + w'.buffer[w.offset..w'.offset];
    }
  }

  lemma AllFitCons(ops: seq<Op>)
    requires |ops| > 0
    ensures AllFit(ops) <==> Fits(ops[0]) && AllFit(ops[1..])
  {
    if Fits(ops[0]) && AllFit(ops[1..]) {
      forall i | 0 <= i < |ops| ensures Fits(ops[i]) {
        if i > 0 {
          assert ops[i] == ops[1..][i - 1];
        }
      }
    }
  }

  /**
   Running writes from a cursor inside the buffer succeeds exactly when every
   value is in range and the whole layout fits; it then appends the layout
   and moves the cursor past it.
   */
  lemma {:induction false} RunAppends(w: Writer, ops: seq<Op>)
    requires w.offset <= |w.buffer|
    ensures Run(w, ops).Ok? <==> AllFit(ops) && w.offset + TotalSize(ops) <= |w.buffer|
    ensures Run(w, ops).Ok? ==>
              && |Run(w, ops).value.buffer| == |w.buffer|
              && Run(w, ops).value.offset == w.offset + TotalSize(ops)
              && Run(w, ops).value.bitOffset == w.bitOffset
              && Written(Run(w, ops).value) == Written(w) + Layout(ops)
    decreases |ops|
  {
    if |ops| == 0 {
      assert Written(w) + Layout(ops) == Written(w);
    } else {
      var op, rest := ops[0], ops[1..];
      AllFitCons(ops);
      ApplyAppends(w, op);
      assert TotalSize(ops) == Size(op) + TotalSize(rest);
      match Apply(w, op) {
        case Err(_) =>
        case Ok(w1) =>
          RunAppends(w1, rest);
          assert Run(w, ops) == Run(w1, rest);
          if Run(w, ops).Ok? {
            var before, head, tail := Written(w), Encoding(op), Layout(rest);
            assert Layout(ops) == head + tail;
            ConcatAssoc(before, head, tail);
          }
      }
    }
  }

  /** A value out of range is an `Overflow`, whatever room is left. */
  lemma ApplyRejects(w: Writer, op: Op)
    ensures !Fits(op) ==> Apply(w, op) == Err(Overflow)
  {
  }

  /** When the whole layout has room, a run can fail only on a value out of range. */
  lemma {:induction false} RunRejects(w: Writer, ops: seq<Op>)
    requires w.offset + TotalSize(ops) <= |w.buffer|
    ensures Run(w, ops).Err? ==> Run(w, ops).error == Overflow
    decreases |ops|
  {
    if |ops| > 0 {
      ApplyRejects(w, ops[0]);
      ApplyAppends(w, ops[0]);
      match Apply(w, ops[0]) {
        case Err(_) =>
        case Ok(w1) => RunRejects(w1, ops[1..]);
      }
    }
  }
}
