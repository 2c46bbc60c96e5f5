/** The byte formatting at the end of `sha256Hex` in
    supabase/functions/send-otp/index.ts:
    `Array.from(bytes).map((b) => b.toString(16).padStart(2, '0')).join('')`,
    with a decoder as its partner. The digest itself is a parameter. */
module Hex {
  import opened Wrappers

  newtype byte = x: int | 0 <= x < 256

  function HexDigit(d: nat): char
    requires d < 16
  {
    if d < 10 then ('0' as int + d) as char else ('a' as int + d - 10) as char
  }

  predicate IsHexChar(c: char)
  {
    '0' <= c <= '9' || 'a' <= c <= 'f'
  }

  function HexValue(c: char): (d: nat)
    requires IsHexChar(c)
    ensures d < 16
  {
    if c <= '9' then c as int - '0' as int else c as int - 'a' as int + 10
  }

  lemma HexDigitValue(d: nat)
    requires d < 16
    ensures IsHexChar(HexDigit(d)) && HexValue(HexDigit(d)) == d
  {
  }

  /** `n.toString(16)` for a non-negative integer: lower-case, no padding. */
  function Radix16(n: nat): (r: string)
    ensures |r| >= 1
  {
    if n < 16 then [HexDigit(n)] else Radix16(n / 16) + [HexDigit(n % 16)]
  }

  /** `s.padStart(width, pad)` for a one-character pad string. */
  function PadStart(s: string, width: nat, pad: char): (r: string)
    ensures |r| == if |s| >= width then |s| else width
    decreases width - |s|
  {
    if |s| >= width then s else PadStart([pad] + s, width, pad)
  }

  /** One byte as two hex characters. */
  function ByteHex(b: byte): string
  {
    PadStart(Radix16(b as nat), 2, '0')
  }

  /** A byte is always exactly its high and its low nibble. */
  lemma ByteHexNibbles(b: byte)
    ensures ByteHex(b) == [HexDigit(b as nat / 16), HexDigit(b as nat % 16)]
  {
    var n := b as nat;
    if n < 16 {
      assert Radix16(n) == [HexDigit(n)];
      assert PadStart([HexDigit(n)], 2, '0') == PadStart(['0', HexDigit(n)], 2, '0');
    } else {
      assert Radix16(n / 16) == [HexDigit(n / 16)];
    }
  }

  /** The hex string of a byte sequence. */
  function ToHex(bs: seq<byte>): (r: string)
    ensures |r| == 2 * |bs|
    ensures forall i :: 0 <= i < |r| ==> IsHexChar(r[i])
    ensures forall i :: 0 <= i < |bs| ==>
      r[2 * i] == HexDigit(bs[i] as nat / 16) && r[2 * i + 1] == HexDigit(bs[i] as nat % 16)
  {
    if bs == [] then ""
    else
      ByteHexNibbles(bs[0]);
      HexDigitValue(bs[0] as nat / 16);
      HexDigitValue(bs[0] as nat % 16);
      var tail := bs[1..];
      var rest := ToHex(tail);
      var r := ByteHex(bs[0]) + rest;
      assert r == [HexDigit(bs[0] as nat / 16), HexDigit(bs[0] as nat % 16)] + rest;
      assert forall i :: 0 <= i < |r| ==> IsHexChar(r[i]) by {
        forall i | 0 <= i < |r| ensures IsHexChar(r[i]) {
          if i >= 2 { assert r[i] == rest[i - 2]; }
        }
      }
      assert forall i :: 1 <= i < |bs| ==>
        r[2 * i] == HexDigit(bs[i] as nat / 16) && r[2 * i + 1] == HexDigit(bs[i] as nat % 16) by {
        forall i | 1 <= i < |bs|
          ensures r[2 * i] == HexDigit(bs[i] as nat / 16) && r[2 * i + 1] == HexDigit(bs[i] as nat % 16)
        {
          assert bs[i] == tail[i - 1];
          assert r[2 * i] == rest[2 * (i - 1)] && r[2 * i + 1] == rest[2 * (i - 1) + 1];
        }
      }
      r
  }

  /** Reads a hex string back into bytes; None on odd length or a bad digit. */
  function FromHex(s: string): Option<seq<byte>>
  {
    if s == [] then Some([])
    else if |s| < 2 || !IsHexChar(s[0]) || !IsHexChar(s[1]) then None
    else match FromHex(s[2..])
      case None => None
      case Some(rest) => Some([(HexValue(s[0]) * 16 + HexValue(s[1])) as byte] + rest)
  }

  /** The hex form loses nothing: decoding gives back the bytes. */
  lemma {:induction false} HexRoundTrip(bs: seq<byte>)
    ensures FromHex(ToHex(bs)) == Some(bs)
  {
    if bs != [] {
      var n := bs[0] as nat;
      var hi, lo := n / 16, n % 16;
      var s := ToHex(bs);
      ByteHexNibbles(bs[0]);
      assert s == [HexDigit(hi), HexDigit(lo)] + ToHex(bs[1..]);
      HexDigitValue(hi);
      HexDigitValue(lo);
      assert s[2..] == ToHex(bs[1..]);
      HexRoundTrip(bs[1..]);
      assert hi * 16 + lo == n;
      assert FromHex(s) == Some([n as byte] + bs[1..]);
      assert bs == [bs[0]] + bs[1..];
    }
  }
}
