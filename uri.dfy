/** `encodeURIComponent` (percent-encoding of RFC 3986 section 2.1 over UTF-8 bytes)
    and its inverse `decodeURIComponent`. */
module UriEncoding {
  import opened Wrappers
  import opened Utf8

  /** The characters `encodeURIComponent` leaves as they are. */
  predicate IsUnescaped(c: char) {
    'A' <= c <= 'Z' || 'a' <= c <= 'z' || '0' <= c <= '9'
    || c == '-' || c == '_' || c == '.' || c == '!' || c == '~' || c == '*'
    || c == '\'' || c == '(' || c == ')'
  }

  predicate IsUpperHex(c: char) {
    '0' <= c <= '9' || 'A' <= c <= 'F'
  }

  /** A character that can appear in the output of `encodeURIComponent`. */
  predicate IsEncodedChar(c: char) {
    IsUnescaped(c) || c == '%' || IsUpperHex(c)
  }

  function HexDigit(d: nat): (c: char)
    requires d < 16
    ensures IsUpperHex(c)
  {
    if d < 10 then ('0' as int + d) as char else ('A' as int + d - 10) as char
  }

  function HexValue(c: char): (r: Option<nat>)
    ensures r.Some? ==> r.value < 16
  {
    if '0' <= c <= '9' then Some(c as int - '0' as int)
    else if 'A' <= c <= 'F' then Some(c as int - 'A' as int + 10)
    else if 'a' <= c <= 'f' then Some(c as int - 'a' as int + 10)
    else None
  }

  lemma {:induction false} HexValueHexDigit(d: nat)
    requires d < 16
    ensures HexValue(HexDigit(d)) == Some(d)
  {
  }

  /** Each byte as '%' followed by two upper-case hexadecimal digits. */
  function PercentEncode(b: seq<byte>): (r: string)
    ensures |r| == 3 * |b|
    ensures forall i :: 0 <= i < |r| ==> IsEncodedChar(r[i])
  {
    if b == [] then [] else ['%', HexDigit(b[0] as nat / 16), HexDigit(b[0] as nat % 16)] + PercentEncode(b[1..])
  }

  /** `encodeURIComponent(s)`. The source's strings hold only Unicode scalar values,
      so the `URIError` JavaScript raises for a lone surrogate cannot occur. */
  function EncodeURIComponent(s: string): (r: string)
    ensures forall i :: 0 <= i < |r| ==> IsEncodedChar(r[i])
  {
    if s == [] then []
    else
      (if IsUnescaped(s[0]) then [s[0]] else PercentEncode(Utf8.EncodeChar(s[0])))
      + EncodeURIComponent(s[1..])
  }

  /** The bytes a percent-encoded string stands for; a literal character stands for its
      own UTF-8 bytes. */
  function Unescape(s: string): Option<seq<byte>>
    decreases |s|
  {
    if s == [] then Some([])
    else if s[0] == '%' then
      if |s| < 3 then None
      else match (HexValue(s[1]), HexValue(s[2]), Unescape(s[3..]))
        case (Some(h), Some(l), Some(rest)) => Some([(h * 16 + l) as byte] + rest)
        case _ => None
    else match Unescape(s[1..])
      case None => None
      case Some(rest) => Some(Utf8.EncodeChar(s[0]) + rest)
  }

  /** `decodeURIComponent(s)`: fails (JavaScript's `URIError`) on a malformed escape or
      on bytes that are not UTF-8. */
  function DecodeURIComponent(s: string): Option<string> {
    match Unescape(s)
    case None => None
    case Some(b) => Utf8.Decode(b)
  }

  lemma {:induction false} UnescapePercentEncode(b: seq<byte>, rest: string)
    requires Unescape(rest).Some?
    ensures Unescape(PercentEncode(b) + rest) == Some(b + Unescape(rest).value)
  {
    if b == [] {
      assert PercentEncode(b) + rest == rest && b + Unescape(rest).value == Unescape(rest).value;
    } else {
      var h, l := b[0] as nat / 16, b[0] as nat % 16;
      HexValueHexDigit(h);
      HexValueHexDigit(l);
      var s := PercentEncode(b) + rest;
      assert s == ['%', HexDigit(h), HexDigit(l)] + (PercentEncode(b[1..]) + rest);
      assert s[3..] == PercentEncode(b[1..]) + rest;
      UnescapePercentEncode(b[1..], rest);
      assert HexValue(HexDigit(h)) == Some(h) && HexValue(HexDigit(l)) == Some(l);
      assert (h * 16 + l) as byte == b[0];
      assert [b[0]] + (b[1..] + Unescape(rest).value) == b + Unescape(rest).value;
    }
  }

  lemma {:induction false} UnescapeEncode(s: string)
    ensures Unescape(EncodeURIComponent(s)) == Some(Utf8.Encode(s))
  {
    if s != [] {
      var tail := EncodeURIComponent(s[1..]);
      UnescapeEncode(s[1..]);
      assert Utf8.Encode(s) == Utf8.EncodeChar(s[0]) + Utf8.Encode(s[1..]);
      if IsUnescaped(s[0]) {
        assert EncodeURIComponent(s) == [s[0]] + tail;
        assert ([s[0]] + tail)[1..] == tail;
      } else {
        assert EncodeURIComponent(s) == PercentEncode(Utf8.EncodeChar(s[0])) + tail;
        UnescapePercentEncode(Utf8.EncodeChar(s[0]), tail);
      }
    }
  }

  /** Round trip: `decodeURIComponent(encodeURIComponent(s)) == s`. */
  lemma {:induction false} DecodeEncodeURIComponent(s: string)
    ensures DecodeURIComponent(EncodeURIComponent(s)) == Some(s)
  {
    UnescapeEncode(s);
    Utf8.DecodeEncode(s);
  }

  /** The encoded text never holds a character that delimits a URL query
      ('&', '=', '#', '?', '/', ' '). */
  lemma {:induction false} EncodedHasNoDelimiters(s: string)
    ensures forall i :: 0 <= i < |EncodeURIComponent(s)| ==>
      EncodeURIComponent(s)[i] !in {'&', '=', '#', '?', '/', ' '}
  {
  }

  /** Encoding works character by character. */
  lemma {:induction false} EncodeAppend(a: string, b: string)
    ensures EncodeURIComponent(a + b) == EncodeURIComponent(a) + EncodeURIComponent(b)
  {
    if a == [] {
      assert a + b == b;
    } else {
      assert (a + b)[0] == a[0] && (a + b)[1..] == a[1..] + b;
      EncodeAppend(a[1..], b);
    }
  }

  /** Text made only of unescaped characters is left as it is. */
  lemma {:induction false} EncodeUnescaped(s: string)
    requires forall i :: 0 <= i < |s| ==> IsUnescaped(s[i])
    ensures EncodeURIComponent(s) == s
  {
    if s != [] {
      EncodeUnescaped(s[1..]);
    }
  }

  lemma {:induction false} EncodeSpace()
    ensures EncodeURIComponent(" ") == "%20"
  {
    assert Utf8.EncodeChar(' ') == [32];
    assert PercentEncode([32]) == "%20";
  }

  lemma {:induction false} EncodeTestSpace()
    ensures EncodeURIComponent("test ") == "test%20"
  {
    EncodeUnescaped("test");
    EncodeSpace();
    EncodeAppend("test", " ");
  }

  lemma {:induction false} EncodeQuery()
    ensures EncodeURIComponent("query") == "query"
  {
    EncodeUnescaped("query");
  }

  /** The value the source's tests fix for a query with a space (the empty query
      encodes to the empty string by definition). */
  lemma {:induction false} EncodeExamples()
    ensures EncodeURIComponent("test query") == "test%20query"
  {
    EncodeTestSpace();
    EncodeQuery();
    var x, y := "test ", "query";
    EncodeAppend(x, y);
    assert x + y == "test query";
    assert "test%20" + "query" == "test%20query";
  }
}
