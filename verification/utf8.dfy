/**
 The two notions of string length the hub mixes: the byte length of the
 UTF-8 encoding (`TextEncoder.encode(s).length`, used by `writeString`) and
 the UTF-16 code-unit count (`s.length`, used to size the relay buffer).

 A JavaScript string is modelled as a sequence of Unicode scalar values
 (Dafny's `char`); lone surrogates cannot occur.
 */
module Utf8 {
  import opened Bytes

  /** The UTF-8 encoding of one scalar value (1 to 4 bytes). */
  function EncodeChar(c: char): (b: Bytes)
    ensures 1 <= |b| <= 4
    ensures |b| == 1 <==> (c as int) < 0x80
  {
    var cp := c as int;
    if cp < 0x80 then [cp]
    else if cp < 0x800 then [0xC0 + cp / 0x40, 0x80 + cp % 0x40]
    else if cp < 0x1_0000 then [0xE0 + cp / 0x1000, 0x80 + (cp / 0x40) % 0x40, 0x80 + cp % 0x40]
    else [0xF0 + cp / 0x4_0000, 0x80 + (cp / 0x1000) % 0x40, 0x80 + (cp / 0x40) % 0x40, 0x80 + cp % 0x40]
  }

  /** `TextEncoder.encode(s)` */
  function Encode(s: string): (b: Bytes)
  {
    if |s| == 0 then [] else EncodeChar(s[0]) + Encode(s[1..])
  }

  /** UTF-16 code units of one scalar value: a surrogate pair above the BMP. */
  function Utf16Units(c: char): nat {
    if (c as int) < 0x1_0000 then 1 else 2
  }

  /** `s.length` */
  function Utf16Length(s: string): nat {
    if |s| == 0 then 0 else Utf16Units(s[0]) + Utf16Length(s[1..])
  }

  predicate IsAscii(s: string) {
    forall i | 0 <= i < |s| :: (s[i] as int) < 0x80
  }

  /**
   The UTF-8 encoding is never shorter than the UTF-16 length, and the two
   agree exactly on ASCII strings.
   */
  lemma {:induction false} EncodedLengthBounds(s: string)
    ensures |Encode(s)| >= Utf16Length(s)
    ensures |Encode(s)| == Utf16Length(s) <==> IsAscii(s)
    ensures IsAscii(s) ==> |Encode(s)| == |s|
  {
    if |s| > 0 {
      EncodedLengthBounds(s[1..]);
      assert IsAscii(s) <==> (s[0] as int) < 0x80 && IsAscii(s[1..]) by {
        if (s[0] as int) < 0x80 && IsAscii(s[1..]) {
          forall i | 0 <= i < |s| ensures (s[i] as int) < 0x80 {
            if i > 0 {
              assert s[i] == s[1..][i - 1];
            }
          }
        }
      }
    }
  }
}
