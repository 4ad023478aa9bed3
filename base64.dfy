/** Base64 (RFC 4648 section 4): `buffer.toString('base64')`, the standard alphabet
    with '=' padding. */
module Base64 {
  import opened Wrappers
  import opened Utf8

  /** Table 1 of RFC 4648: A-Z, a-z, 0-9, '+', '/'. */
  function IndexChar(i: nat): (c: char)
    requires i < 64
    ensures c != '='
  {
    if i < 26 then ('A' as int + i) as char
    else if i < 52 then ('a' as int + i - 26) as char
    else if i < 62 then ('0' as int + i - 52) as char
    else if i == 62 then '+'
    else '/'
  }

  /** The inverse of the table: the 6-bit value of an alphabet character. */
  function CharIndex(c: char): (r: Option<nat>)
    ensures r.Some? ==> r.value < 64 && IndexChar(r.value) == c
  {
    if 'A' <= c <= 'Z' then Some(c as int - 'A' as int)
    else if 'a' <= c <= 'z' then Some(c as int - 'a' as int + 26)
    else if '0' <= c <= '9' then Some(c as int - '0' as int + 52)
    else if c == '+' then Some(62)
    else if c == '/' then Some(63)
    else None
  }

  lemma {:induction false} CharIndexIndexChar(i: nat)
    requires i < 64
    ensures CharIndex(IndexChar(i)) == Some(i)
  {
  }

  /** Three bytes become four characters of six bits each. */
  function EncodeBlock(b0: byte, b1: byte, b2: byte): (r: string)
    ensures |r| == 4 && '=' !in r
  {
    [IndexChar(b0 as nat / 4), IndexChar(b0 as nat % 4 * 16 + b1 as nat / 16),
     IndexChar(b1 as nat % 16 * 4 + b2 as nat / 64), IndexChar(b2 as nat % 64)]
  }

  /** The last group for two remaining bytes: three characters and one '='. */
  function EncodePair(b0: byte, b1: byte): (r: string)
    ensures |r| == 4 && r[3] == '=' && r[2] != '='
  {
    [IndexChar(b0 as nat / 4), IndexChar(b0 as nat % 4 * 16 + b1 as nat / 16),
     IndexChar(b1 as nat % 16 * 4), '=']
  }

  /** The last group for one remaining byte: two characters and "==". */
  function EncodeSingle(b0: byte): (r: string)
    ensures |r| == 4 && r[2] == '=' && r[3] == '='
  {
    [IndexChar(b0 as nat / 4), IndexChar(b0 as nat % 4 * 16), '=', '=']
  }

  function Encode(b: seq<byte>): (r: string)
    ensures |r| == (|b| + 2) / 3 * 4
    decreases |b|
  {
    if |b| >= 3 then EncodeBlock(b[0], b[1], b[2]) + Encode(b[3..])
    else if |b| == 2 then EncodePair(b[0], b[1])
    else if |b| == 1 then EncodeSingle(b[0])
    else []
  }

  /** Decodes one group of four characters into one to three bytes. */
  function DecodeGroup(c0: char, c1: char, c2: char, c3: char): (r: Option<seq<byte>>)
    ensures r.Some? ==> 1 <= |r.value| <= 3
  {
    var x0, x1, x2, x3 := CharIndex(c0), CharIndex(c1), CharIndex(c2), CharIndex(c3);
    if x0.None? || x1.None? then None
    else
      var i0, i1 := x0.value, x1.value;
      var d0 := (i0 * 4 + i1 / 16) as byte;
      if c2 == '=' && c3 == '=' then Some([d0])
      else if x2.None? then None
      else
        var i2 := x2.value;
        var d1 := (i1 % 16 * 16 + i2 / 4) as byte;
        if c3 == '=' then Some([d0, d1])
        else if x3.None? then None
        else Some([d0, d1, (i2 % 4 * 64 + x3.value) as byte])
  }

  /** Decodes a padded Base64 string; padding may appear only in the last group. */
  function Decode(s: string): Option<seq<byte>>
    decreases |s|
  {
    if s == [] then Some([])
    else if |s| < 4 then None
    else
      var g := DecodeGroup(s[0], s[1], s[2], s[3]);
      var rest := Decode(s[4..]);
      if g.None? || (|g.value| < 3 && |s| > 4) || rest.None? then None
      else Some(g.value + rest.value)
  }

  /** Regrouping six-bit pieces back into bytes recovers the bytes. */
  lemma {:induction false} Regroup(b0: nat, b1: nat, b2: nat)
    requires b0 < 256 && b1 < 256 && b2 < 256
    ensures b0 / 4 * 4 + (b0 % 4 * 16 + b1 / 16) / 16 == b0
    ensures (b0 % 4 * 16 + b1 / 16) % 16 * 16 + (b1 % 16 * 4 + b2 / 64) / 4 == b1
    ensures (b1 % 16 * 4 + b2 / 64) % 4 * 64 + b2 % 64 == b2
  {
    assert (b0 % 4 * 16 + b1 / 16) / 16 == b0 % 4;
    assert (b0 % 4 * 16 + b1 / 16) % 16 == b1 / 16;
    assert (b1 % 16 * 4 + b2 / 64) / 4 == b1 % 16;
    assert (b1 % 16 * 4 + b2 / 64) % 4 == b2 / 64;
  }

  lemma {:induction false} DecodeBlock(b0: byte, b1: byte, b2: byte)
    ensures var e := EncodeBlock(b0, b1, b2); DecodeGroup(e[0], e[1], e[2], e[3]) == Some([b0, b1, b2])
  {
    var e := EncodeBlock(b0, b1, b2);
    Regroup(b0 as nat, b1 as nat, b2 as nat);
    var i0, i1 := b0 as nat / 4, b0 as nat % 4 * 16 + b1 as nat / 16;
    var i2, i3 := b1 as nat % 16 * 4 + b2 as nat / 64, b2 as nat % 64;
    CharIndexIndexChar(i0);
    CharIndexIndexChar(i1);
    CharIndexIndexChar(i2);
    CharIndexIndexChar(i3);
  }

  lemma {:induction false} DecodePair(b0: byte, b1: byte)
    ensures var e := EncodePair(b0, b1); DecodeGroup(e[0], e[1], e[2], e[3]) == Some([b0, b1])
  {
    Regroup(b0 as nat, b1 as nat, 0);
    var i0, i1, i2 := b0 as nat / 4, b0 as nat % 4 * 16 + b1 as nat / 16, b1 as nat % 16 * 4;
    CharIndexIndexChar(i0);
    CharIndexIndexChar(i1);
    CharIndexIndexChar(i2);
  }

  lemma {:induction false} DecodeSingle(b0: byte)
    ensures var e := EncodeSingle(b0); DecodeGroup(e[0], e[1], e[2], e[3]) == Some([b0])
  {
    Regroup(b0 as nat, 0, 0);
    CharIndexIndexChar(b0 as nat / 4);
    CharIndexIndexChar(b0 as nat % 4 * 16);
  }

  /** A final group decodes on its own. */
  lemma {:induction false} DecodeLastGroup(e: string, g: seq<byte>)
    requires |e| == 4 && DecodeGroup(e[0], e[1], e[2], e[3]) == Some(g)
    ensures Decode(e) == Some(g)
  {
    assert e[4..] == [];
    assert g + [] == g;
  }

  /** Round trip for two final bytes. */
  lemma {:induction false} DecodeEncodePair(b: seq<byte>)
    requires |b| == 2
    ensures Decode(Encode(b)) == Some(b)
  {
    var e := EncodePair(b[0], b[1]);
    assert Encode(b) == e;
    DecodePair(b[0], b[1]);
    assert [b[0], b[1]] == b;
    DecodeLastGroup(e, b);
  }

  /** Round trip for one final byte. */
  lemma {:induction false} DecodeEncodeSingle(b: seq<byte>)
    requires |b| == 1
    ensures Decode(Encode(b)) == Some(b)
  {
    var e := EncodeSingle(b[0]);
    assert Encode(b) == e;
    DecodeSingle(b[0]);
    assert [b[0]] == b;
    DecodeLastGroup(e, b);
  }

  /** Base64 round trip: decoding an encoding gives the bytes back. */
  lemma {:induction false} DecodeEncode(b: seq<byte>)
    ensures Decode(Encode(b)) == Some(b)
    decreases |b|
  {
    if |b| == 2 {
      DecodeEncodePair(b);
    } else if |b| == 1 {
      DecodeEncodeSingle(b);
    } else if |b| >= 3 {
      var blk, tail := EncodeBlock(b[0], b[1], b[2]), Encode(b[3..]);
      var e := blk + tail;
      assert Encode(b) == e;
      assert e[0] == blk[0] && e[1] == blk[1] && e[2] == blk[2] && e[3] == blk[3];
      assert e[4..] == tail;
      DecodeBlock(b[0], b[1], b[2]);
      DecodeEncode(b[3..]);
      assert [b[0], b[1], b[2]] + b[3..] == b;
    }
  }

  /** Different byte strings have different Base64 forms. */
  lemma {:induction false} EncodeInjective(a: seq<byte>, b: seq<byte>)
    ensures Encode(a) == Encode(b) ==> a == b
  {
    DecodeEncode(a);
    DecodeEncode(b);
  }

  /** The Base64 form of a string's UTF-8 bytes, as `Buffer.from(s).toString('base64')`. */
  function OfString(s: string): string {
    Encode(Utf8.Encode(s))
  }

  /** Different strings have different Base64 forms of their UTF-8 bytes. */
  lemma {:induction false} OfStringInjective(s: string, t: string)
    ensures OfString(s) == OfString(t) ==> s == t
  {
    EncodeInjective(Utf8.Encode(s), Utf8.Encode(t));
    Utf8.EncodeInjective(s, t);
  }
}
