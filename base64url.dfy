/** The URL- and filename-safe base64 encoding of section 5 of RFC 4648, as
    Python's `base64.urlsafe_b64encode` produces it (with `=` padding), and
    the decoding that inverts it. */
module Base64Url {

  type byte = x: int | 0 <= x < 256

  /** A character of the URL-safe alphabet: `A`-`Z`, `a`-`z`, `0`-`9`, `-`, `_`. */
  predicate IsUrlSafe(c: char) {
    ('A' <= c <= 'Z') || ('a' <= c <= 'z') || ('0' <= c <= '9') || c == '-' || c == '_'
  }

  /** Table 2 of RFC 4648: the character for a 6-bit value. */
  function EncodeChar(v: int): (c: char)
    requires 0 <= v < 64
    ensures IsUrlSafe(c)
  {
    if v < 26 then ('A' as int + v) as char
    else if v < 52 then ('a' as int + (v - 26)) as char
    else if v < 62 then ('0' as int + (v - 52)) as char
    else if v == 62 then '-'
    else '_'
  }

  /** Table 2 of RFC 4648, written out: value `v` is the `v`-th character. */
  lemma EncodeTable()
    ensures forall v :: 0 <= v < 64 ==>
              EncodeChar(v) == "ABCDEFGHIJKLMNOPQRSTUVWXYZabcdefghijklmnopqrstuvwxyz0123456789-_"[v]
  {
    EncodeUpper();
    EncodeLower();
    EncodeDigits();
    assert "ABCDEFGHIJKLMNOPQRSTUVWXYZabcdefghijklmnopqrstuvwxyz0123456789-_"
        == "ABCDEFGHIJKLMNOPQRSTUVWXYZ" + "abcdefghijklmnopqrstuvwxyz" + "0123456789" + "-_";
  }

  lemma EncodeUpper()
    ensures forall v :: 0 <= v < 26 ==> EncodeChar(v) == "ABCDEFGHIJKLMNOPQRSTUVWXYZ"[v]
  {
  }

  lemma EncodeLower()
    ensures forall v :: 26 <= v < 52 ==> EncodeChar(v) == "abcdefghijklmnopqrstuvwxyz"[v - 26]
  {
  }

  lemma EncodeDigits()
    ensures forall v :: 52 <= v < 62 ==> EncodeChar(v) == "0123456789"[v - 52]
  {
  }

  /** The 6-bit value of an alphabet character (0 for any other character). */
  function DecodeChar(c: char): (v: int)
    ensures 0 <= v < 64
  {
    if 'A' <= c <= 'Z' then c as int - 'A' as int
    else if 'a' <= c <= 'z' then c as int - 'a' as int + 26
    else if '0' <= c <= '9' then c as int - '0' as int + 52
    else if c == '-' then 62
    else if c == '_' then 63
    else 0
  }

  lemma DecodeEncodeChar(v: int)
    requires 0 <= v < 64
    ensures DecodeChar(EncodeChar(v)) == v
  {
  }

  /** The number of `=` characters that pad the encoding of `n` bytes. */
  function PadLength(n: nat): nat {
    if n % 3 == 1 then 2 else if n % 3 == 2 then 1 else 0
  }

  /** Three bytes become four characters; a final group of one or two bytes
      becomes two or three characters followed by `=` padding. */
  function Encode(b: seq<byte>): (s: string)
    decreases |b|
  {
    if |b| == 0 then ""
    else if |b| == 1 then
      [EncodeChar(b[0] / 4), EncodeChar((b[0] % 4) * 16), '=', '=']
    else if |b| == 2 then
      [EncodeChar(b[0] / 4), EncodeChar((b[0] % 4) * 16 + b[1] / 16), EncodeChar((b[1] % 16) * 4), '=']
    else
      [EncodeChar(b[0] / 4), EncodeChar((b[0] % 4) * 16 + b[1] / 16),
       EncodeChar((b[1] % 16) * 4 + b[2] / 64), EncodeChar(b[2] % 64)]
      + Encode(b[3..])
  }

  /** Reads padded groups of four characters back into bytes. */
  function Decode(s: string): (b: seq<byte>)
    decreases |s|
  {
    if |s| < 4 then []
    else
      var v0, v1, v2, v3 := DecodeChar(s[0]), DecodeChar(s[1]), DecodeChar(s[2]), DecodeChar(s[3]);
      if s[2] == '=' then [v0 * 4 + v1 / 16]
      else if s[3] == '=' then [v0 * 4 + v1 / 16, (v1 % 16) * 16 + v2 / 4]
      else [v0 * 4 + v1 / 16, (v1 % 16) * 16 + v2 / 4, (v2 % 4) * 64 + v3] + Decode(s[4..])
  }

  /** Python's `s.rstrip("=")`: every trailing `=` removed. */
  function StripPadding(s: string): (r: string)
    ensures |r| <= |s| && r == s[..|r|]
    ensures forall i :: |r| <= i < |s| ==> s[i] == '='
    ensures r == [] || r[|r| - 1] != '='
  {
    if |s| > 0 && s[|s| - 1] == '=' then StripPadding(s[..|s| - 1]) else s
  }

  /** The shape of an encoding: 4 characters per started group of 3 bytes,
      alphabet characters first and exactly `PadLength(|b|)` `=` at the end. */
  lemma {:induction false} EncodeShape(b: seq<byte>)
    ensures |Encode(b)| == 4 * ((|b| + 2) / 3)
    ensures forall i :: 0 <= i < |Encode(b)| - PadLength(|b|) ==> IsUrlSafe(Encode(b)[i])
    ensures forall i :: |Encode(b)| - PadLength(|b|) <= i < |Encode(b)| ==> Encode(b)[i] == '='
  {
    if |b| >= 3 {
      var t := Encode(b[3..]);
      EncodeShape(b[3..]);
      EncodeFullGroup(b);
      GroupCounts(|b|);
      var s := Encode(b);
      forall i | 0 <= i < |s| - PadLength(|b|) ensures IsUrlSafe(s[i]) {
        if i >= 4 {
          assert s[i] == t[i - 4];
        }
      }
      forall i | |s| - PadLength(|b|) <= i < |s| ensures s[i] == '=' {
        assert s[i] == t[i - 4];
      }
    }
  }

  /** A leading full group adds four characters and leaves the padding. */
  lemma GroupCounts(n: nat)
    requires n >= 3
    ensures 4 * ((n - 3 + 2) / 3) + 4 == 4 * ((n + 2) / 3)
    ensures PadLength(n) == PadLength(n - 3)
  {
  }

  lemma GroupRoundTrip(x: byte, y: byte, z: byte)
    ensures var v0, v1, v2, v3 := x / 4, (x % 4) * 16 + y / 16, (y % 16) * 4 + z / 64, z % 64;
            && v0 * 4 + v1 / 16 == x
            && (v1 % 16) * 16 + v2 / 4 == y
            && (v2 % 4) * 64 + v3 == z
  {
  }

  lemma DecodeFullGroup(x: byte, y: byte, z: byte, t: string)
    ensures Decode([EncodeChar(x / 4), EncodeChar((x % 4) * 16 + y / 16),
                    EncodeChar((y % 16) * 4 + z / 64), EncodeChar(z % 64)] + t)
            == [x, y, z] + Decode(t)
  {
    var g := [EncodeChar(x / 4), EncodeChar((x % 4) * 16 + y / 16),
              EncodeChar((y % 16) * 4 + z / 64), EncodeChar(z % 64)];
    DecodeEncodeChar(x / 4);
    DecodeEncodeChar((x % 4) * 16 + y / 16);
    DecodeEncodeChar((y % 16) * 4 + z / 64);
    DecodeEncodeChar(z % 64);
    GroupRoundTrip(x, y, z);
    assert (g + t)[4..] == t;
  }

  lemma DecodeOneByte(x: byte)
    ensures Decode([EncodeChar(x / 4), EncodeChar((x % 4) * 16), '=', '=']) == [x]
  {
    DecodeEncodeChar(x / 4);
    DecodeEncodeChar((x % 4) * 16);
    GroupRoundTrip(x, 0, 0);
  }

  lemma DecodeTwoBytes(x: byte, y: byte)
    ensures Decode([EncodeChar(x / 4), EncodeChar((x % 4) * 16 + y / 16), EncodeChar((y % 16) * 4), '=']) == [x, y]
  {
    DecodeEncodeChar(x / 4);
    DecodeEncodeChar((x % 4) * 16 + y / 16);
    DecodeEncodeChar((y % 16) * 4);
    GroupRoundTrip(x, y, 0);
  }

  lemma EncodeFullGroup(b: seq<byte>)
    requires |b| >= 3
    ensures Encode(b) == [EncodeChar(b[0] / 4), EncodeChar((b[0] % 4) * 16 + b[1] / 16),
                          EncodeChar((b[1] % 16) * 4 + b[2] / 64), EncodeChar(b[2] % 64)] + Encode(b[3..])
  {
  }

  /** A final group of one byte decodes back. */
  lemma DecodeEncodeOne(b: seq<byte>)
    requires |b| == 1
    ensures Decode(Encode(b)) == b
  {
    var x := b[0];
    assert Encode(b) == [EncodeChar(x / 4), EncodeChar((x % 4) * 16), '=', '='];
    DecodeOneByte(x);
    assert b == [x];
  }

  /** A final group of two bytes decodes back. */
  lemma DecodeEncodeTwo(b: seq<byte>)
    requires |b| == 2
    ensures Decode(Encode(b)) == b
  {
    var x, y := b[0], b[1];
    calc {
      Decode(Encode(b));
      Decode([EncodeChar(x / 4), EncodeChar((x % 4) * 16 + y / 16), EncodeChar((y % 16) * 4), '=']);
    == { DecodeTwoBytes(x, y); }
      [x, y];
    == { assert b == [x, y]; }
      b;
    }
  }

  lemma FirstThree(b: seq<byte>)
    requires |b| >= 3
    ensures b[..3] == [b[0], b[1], b[2]]
  {
  }

  /** A leading full group decodes back ahead of the rest. */
  lemma DecodeEncodeStep(b: seq<byte>)
    requires |b| >= 3
    ensures Decode(Encode(b)) == b[..3] + Decode(Encode(b[3..]))
  {
    var x, y, z, t := b[0], b[1], b[2], Encode(b[3..]);
    calc {
      Decode(Encode(b));
    == { EncodeFullGroup(b); }
      Decode([EncodeChar(x / 4), EncodeChar((x % 4) * 16 + y / 16),
              EncodeChar((y % 16) * 4 + z / 64), EncodeChar(z % 64)] + t);
    == { DecodeFullGroup(x, y, z, t); }
      [x, y, z] + Decode(t);
    == { FirstThree(b); }
      b[..3] + Decode(t);
    }
  }

  /** Decoding inverts encoding, so `Encode` is injective. */
  lemma {:induction false} DecodeEncode(b: seq<byte>)
    ensures Decode(Encode(b)) == b
    decreases |b|
  {
    if |b| == 1 {
      DecodeEncodeOne(b);
    } else if |b| == 2 {
      DecodeEncodeTwo(b);
    } else if |b| >= 3 {
      DecodeEncodeStep(b);
      DecodeEncode(b[3..]);
      assert b == b[..3] + b[3..];
    }
  }

  lemma EncodeInjective(a: seq<byte>, b: seq<byte>)
    requires Encode(a) == Encode(b)
    ensures a == b
  {
    DecodeEncode(a);
    DecodeEncode(b);
  }
}
