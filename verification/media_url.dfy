/**
 * The `phedit-file://` media URLs of the main process: `get-video-url`
 * builds one with `encodeURIComponent`, and the protocol handler strips the
 * scheme and applies `decodeURIComponent` (percent-encoding as in section 2.1
 * of RFC 3986, over the UTF-8 octets of section 3 of RFC 3629).
 */
module MediaUrl {
  import opened Wrappers

  const Scheme: string := "phedit-file://"

  type Byte = b: int | 0 <= b < 256

  /** The characters `encodeURIComponent` copies unchanged: RFC 3986's unreserved set plus `! * ' ( )`. */
  predicate Unreserved(c: char) {
    || ('A' <= c <= 'Z') || ('a' <= c <= 'z') || ('0' <= c <= '9')
    || c == '-' || c == '_' || c == '.' || c == '~'
    || c == '!' || c == '*' || c == '\'' || c == '(' || c == ')'
  }

  /** A character that may appear in the output of `encodeURIComponent`. */
  predicate UrlSafe(c: char) {
    Unreserved(c) || c == '%' || ('0' <= c <= '9') || ('A' <= c <= 'F')
  }

  function HexDigit(d: nat): (c: char)
    requires d < 16
  {
    ['0', '1', '2', '3', '4', '5', '6', '7', '8', '9', 'A', 'B', 'C', 'D', 'E', 'F'][d]
  }

  /** The value of a hexadecimal digit of either case; `None` for any other character. */
  function HexValue(c: char): (r: Option<nat>)
    ensures r.Some? ==> r.value < 16
  {
    if '0' <= c <= '9' then Some(c as int - '0' as int)
    else if 'A' <= c <= 'F' then Some(c as int - 'A' as int + 10)
    else if 'a' <= c <= 'f' then Some(c as int - 'a' as int + 10)
    else None
  }

  lemma HexDigitValue(d: nat)
    requires d < 16
    ensures HexValue(HexDigit(d)) == Some(d)
  {
  }

  /** The UTF-8 octets of one Unicode scalar value. */
  function Utf8(c: char): (bs: seq<Byte>)
    ensures 1 <= |bs| <= 4
    ensures (|bs| == 1) <==> (c as int < 0x80)
  {
    var cp := c as int;
    if cp < 0x80 then [cp]
    else if cp < 0x800 then [0xC0 + cp / 64, 0x80 + cp % 64]
    else if cp < 0x10000 then [0xE0 + cp / 4096, 0x80 + (cp / 64) % 64, 0x80 + cp % 64]
    else [0xF0 + cp / 262144, 0x80 + (cp / 4096) % 64, 0x80 + (cp / 64) % 64, 0x80 + cp % 64]
  }

  /** `%XX` with upper-case hexadecimal digits. */
  function PercentByte(b: Byte): (r: string)
    ensures |r| == 3 && r[0] == '%'
  {
    ['%', HexDigit(b / 16), HexDigit(b % 16)]
  }

  function PercentBytes(bs: seq<Byte>): (r: string)
    ensures |r| == 3 * |bs|
  {
    if |bs| == 0 then "" else PercentByte(bs[0]) + PercentBytes(bs[1..])
  }

  function EncodeChar(c: char): (r: string)
    ensures 1 <= |r|
  {
    if Unreserved(c) then [c] else PercentBytes(Utf8(c))
  }

  /** `encodeURIComponent(s)`. */
  function EncodeUriComponent(s: string): (r: string)
    ensures |r| >= |s|
  {
    if |s| == 0 then "" else EncodeChar(s[0]) + EncodeUriComponent(s[1..])
  }

  /** The `get-video-url` handler. */
  function VideoUrl(filePath: string): (url: string)
    ensures |url| >= |Scheme| && url[..|Scheme|] == Scheme
    ensures forall k :: |Scheme| <= k < |url| ==> UrlSafe(url[k])
  {
    EncodedIsUrlSafe(filePath);
    Scheme + EncodeUriComponent(filePath)
  }

  lemma {:induction false} EncodedIsUrlSafe(s: string)
    ensures forall k :: 0 <= k < |EncodeUriComponent(s)| ==> UrlSafe(EncodeUriComponent(s)[k])
  {
    if |s| > 0 {
      EncodedIsUrlSafe(s[1..]);
      var e := EncodeChar(s[0]);
      if !Unreserved(s[0]) {
        PercentBytesAreUrlSafe(Utf8(s[0]));
      }
      assert EncodeUriComponent(s) == e + EncodeUriComponent(s[1..]);
    }
  }

  lemma {:induction false} PercentBytesAreUrlSafe(bs: seq<Byte>)
    ensures forall k :: 0 <= k < |PercentBytes(bs)| ==> UrlSafe(PercentBytes(bs)[k])
  {
    if |bs| > 0 {
      PercentBytesAreUrlSafe(bs[1..]);
      assert PercentBytes(bs) == PercentByte(bs[0]) + PercentBytes(bs[1..]);
    }
  }

  /** The octet written as `%XX` at index `k`, if there is one. */
  function ByteAt(s: string, k: nat): (r: Option<Byte>)
  {
    if k + 3 <= |s| && s[k] == '%' then
      match (HexValue(s[k + 1]), HexValue(s[k + 2]))
      case (Some(h), Some(l)) => Some(h * 16 + l)
      case _ => None
    else None
  }

  /** The 6 payload bits of the `i`-th continuation octet of a sequence starting at index 0. */
  function Continuation(s: string, i: nat): (r: Option<nat>)
    ensures r.Some? ==> r.value < 64
  {
    match ByteAt(s, 3 * i)
    case Some(b) => if 0x80 <= b < 0xC0 then Some(b - 0x80) else None
    case None => None
  }

  /** A code point that is a Unicode scalar value, so a Dafny `char`. */
  predicate ScalarValue(cp: int) {
    (0 <= cp < 0xD800) || (0xE000 <= cp < 0x110000)
  }

  /**
   * One step of `decodeURIComponent`: the character at the front of `s` and
   * how many characters of `s` it took. `None` is the `URIError` the
   * function throws for a malformed escape or invalid UTF-8.
   */
  function DecodeOne(s: string): (r: Option<(char, nat)>)
    requires |s| > 0
    ensures r.Some? ==> 1 <= r.value.1 <= |s|
  {
    if s[0] != '%' then Some((s[0], 1))
    else
      match ByteAt(s, 0)
      case None => None
      case Some(b0) =>
        if b0 < 0x80 then Some((b0 as char, 3))
        else if 0xC0 <= b0 < 0xE0 then
          match Continuation(s, 1)
          case Some(c1) =>
            var cp := (b0 - 0xC0) * 64 + c1;
            if 0x80 <= cp then Some((cp as char, 6)) else None
          case None => None
        else if 0xE0 <= b0 < 0xF0 then
          match (Continuation(s, 1), Continuation(s, 2))
          case (Some(c1), Some(c2)) =>
            var cp := (b0 - 0xE0) * 4096 + c1 * 64 + c2;
            if 0x800 <= cp && ScalarValue(cp) then Some((cp as char, 9)) else None
          case _ => None
        else if 0xF0 <= b0 < 0xF8 then
          match (Continuation(s, 1), Continuation(s, 2), Continuation(s, 3))
          case (Some(c1), Some(c2), Some(c3)) =>
            var cp := (b0 - 0xF0) * 262144 + c1 * 4096 + c2 * 64 + c3;
            if 0x10000 <= cp < 0x110000 then Some((cp as char, 12)) else None
          case _ => None
        else None
  }

  /** `decodeURIComponent(s)`; `None` when it throws `URIError`. */
  function DecodeUriComponent(s: string): Option<string>
    decreases |s|
  {
    if |s| == 0 then Some("")
    else
      match DecodeOne(s)
      case None => None
      case Some((c, k)) =>
        match DecodeUriComponent(s[k..])
        case None => None
        case Some(rest) => Some([c] + rest)
  }

  /** `url.substr(n)`: everything from index `n` on, or nothing if the string is shorter. */
  function Substr(url: string, n: nat): string {
    if n <= |url| then url[n..] else ""
  }

  /**
   * The path the `phedit-file` protocol handler resolves a request URL to,
   * before `path.normalize`; `None` when decoding throws.
   */
  function ProtocolPath(url: string): Option<string> {
    DecodeUriComponent(Substr(url, |Scheme|))
  }

  /** The three-octet split recombines to the code point. */
  lemma ThreeOctets(cp: int)
    requires 0 <= cp
    ensures (cp / 4096) * 4096 + ((cp / 64) % 64) * 64 + cp % 64 == cp
  {
    var q, r := cp / 64, cp % 64;
    var a, b := q / 64, q % 64;
    assert cp == 4096 * a + (64 * b + r);
    assert 0 <= 64 * b + r < 4096;
    assert cp / 4096 == a;
  }

  /** The four-octet split recombines to the code point. */
  lemma FourOctets(cp: int)
    requires 0 <= cp
    ensures (cp / 262144) * 262144 + ((cp / 4096) % 64) * 4096 + ((cp / 64) % 64) * 64 + cp % 64 == cp
  {
    var q := cp / 4096;
    var a, b := q / 64, q % 64;
    ThreeOctets(cp);
    var low := ((cp / 64) % 64) * 64 + cp % 64;
    assert cp == q * 4096 + low;
    assert 0 <= low < 4096;
    assert cp == 262144 * a + (b * 4096 + low);
    assert 0 <= b * 4096 + low < 262144;
    assert cp / 262144 == a;
  }

  lemma PercentByteAt(s: string, k: nat, b: Byte)
    requires k + 3 <= |s| && s[k..k + 3] == PercentByte(b)
    ensures ByteAt(s, k) == Some(b)
  {
    assert s[k] == '%' && s[k + 1] == HexDigit(b / 16) && s[k + 2] == HexDigit(b % 16);
    HexDigitValue(b / 16);
    HexDigitValue(b % 16);
  }

  lemma {:induction false} PercentBytesSlice(bs: seq<Byte>, i: nat)
    requires i < |bs|
    ensures PercentBytes(bs)[3 * i..3 * i + 3] == PercentByte(bs[i])
  {
    assert PercentBytes(bs) == PercentByte(bs[0]) + PercentBytes(bs[1..]);
    if i > 0 {
      PercentBytesSlice(bs[1..], i - 1);
      assert PercentBytes(bs)[3 * i..3 * i + 3] == PercentBytes(bs[1..])[3 * (i - 1)..3 * (i - 1) + 3];
    }
  }

  /** A slice inside the front part of a concatenation is a slice of that part. */
  lemma SliceOfAppend(p: string, t: string, k: nat, n: nat)
    requires k + n <= |p|
    ensures (p + t)[k..k + n] == p[k..k + n]
  {
  }

  /** Every octet of a percent-encoded run can be read back at its position. */
  lemma OctetsReadBack(bs: seq<Byte>, t: string, i: nat)
    requires i < |bs|
    ensures ByteAt(PercentBytes(bs) + t, 3 * i) == Some(bs[i])
  {
    var p := PercentBytes(bs);
    var k := 3 * i;
    PercentBytesSlice(bs, i);
    SliceOfAppend(p, t, k, 3);
    PercentByteAt(p + t, k, bs[i]);
  }

  lemma CharCode(c: char)
    ensures ScalarValue(c as int)
    ensures (c as int) as char == c
  {
  }

  /** A two-octet sequence read off the front of any string. */
  lemma DecodeTwoFrom(s: string, b0: Byte, c1: nat)
    requires |s| > 0 && ByteAt(s, 0) == Some(b0) && 0xC0 <= b0 < 0xE0
    requires Continuation(s, 1) == Some(c1)
    requires 0x80 <= (b0 - 0xC0) * 64 + c1 && ScalarValue((b0 - 0xC0) * 64 + c1)
    ensures DecodeOne(s) == Some((((b0 - 0xC0) * 64 + c1) as char, 6))
  {
    assert s[0] == '%';
  }

  lemma DecodeTwoOctets(c: char, t: string)
    requires 0x80 <= c as int < 0x800
    ensures DecodeOne(PercentBytes(Utf8(c)) + t) == Some((c, 6))
  {
    var cp := c as int;
    CharCode(c);
    var bs := Utf8(c);
    var s := PercentBytes(bs) + t;
    OctetsReadBack(bs, t, 0);
    OctetsReadBack(bs, t, 1);
    var c1 := cp % 64;
    assert Continuation(s, 1) == Some(c1);
    assert (bs[0] - 0xC0) * 64 + c1 == cp;
    DecodeTwoFrom(s, bs[0], c1);
  }

  /** A single escaped ASCII octet read off the front of any string. */
  lemma DecodeAsciiFrom(s: string, b0: Byte)
    requires |s| > 0 && ByteAt(s, 0) == Some(b0) && b0 < 0x80
    ensures DecodeOne(s) == Some((b0 as char, 3))
  {
    assert s[0] == '%';
  }

  lemma DecodeAsciiOctet(c: char, t: string)
    requires c as int < 0x80
    ensures DecodeOne(PercentBytes(Utf8(c)) + t) == Some((c, 3))
  {
    CharCode(c);
    var bs := Utf8(c);
    OctetsReadBack(bs, t, 0);
    assert bs[0] == c as int;
    DecodeAsciiFrom(PercentBytes(bs) + t, bs[0]);
  }

  /** A three-octet sequence read off the front of any string. */
  lemma DecodeThreeFrom(s: string, b0: Byte, c1: nat, c2: nat)
    requires |s| > 0 && ByteAt(s, 0) == Some(b0) && 0xE0 <= b0 < 0xF0
    requires Continuation(s, 1) == Some(c1) && Continuation(s, 2) == Some(c2)
    requires 0x800 <= (b0 - 0xE0) * 4096 + c1 * 64 + c2 && ScalarValue((b0 - 0xE0) * 4096 + c1 * 64 + c2)
    ensures DecodeOne(s) == Some((((b0 - 0xE0) * 4096 + c1 * 64 + c2) as char, 9))
  {
    assert s[0] == '%';
  }

  lemma DecodeThreeOctets(c: char, t: string)
    requires 0x800 <= c as int < 0x10000
    ensures DecodeOne(PercentBytes(Utf8(c)) + t) == Some((c, 9))
  {
    var cp := c as int;
    CharCode(c);
    var bs := Utf8(c);
    var s := PercentBytes(bs) + t;
    OctetsReadBack(bs, t, 0);
    OctetsReadBack(bs, t, 1);
    OctetsReadBack(bs, t, 2);
    var c1, c2 := (cp / 64) % 64, cp % 64;
    assert Continuation(s, 1) == Some(c1);
    assert Continuation(s, 2) == Some(c2);
    ThreeOctets(cp);
    assert (bs[0] - 0xE0) * 4096 + c1 * 64 + c2 == cp;
    DecodeThreeFrom(s, bs[0], c1, c2);
  }

  /** A four-octet sequence read off the front of any string. */
  lemma DecodeFourFrom(s: string, b0: Byte, c1: nat, c2: nat, c3: nat)
    requires |s| > 0 && ByteAt(s, 0) == Some(b0) && 0xF0 <= b0 < 0xF8
    requires Continuation(s, 1) == Some(c1) && Continuation(s, 2) == Some(c2) && Continuation(s, 3) == Some(c3)
    requires 0x10000 <= (b0 - 0xF0) * 262144 + c1 * 4096 + c2 * 64 + c3 < 0x110000
    ensures DecodeOne(s) == Some((((b0 - 0xF0) * 262144 + c1 * 4096 + c2 * 64 + c3) as char, 12))
  {
    assert s[0] == '%';
  }

  lemma DecodeFourOctets(c: char, t: string)
    requires 0x10000 <= c as int
    ensures DecodeOne(PercentBytes(Utf8(c)) + t) == Some((c, 12))
  {
    var cp := c as int;
    CharCode(c);
    var bs := Utf8(c);
    var s := PercentBytes(bs) + t;
    OctetsReadBack(bs, t, 0);
    OctetsReadBack(bs, t, 1);
    OctetsReadBack(bs, t, 2);
    OctetsReadBack(bs, t, 3);
    var c1, c2, c3 := (cp / 4096) % 64, (cp / 64) % 64, cp % 64;
    assert Continuation(s, 1) == Some(c1);
    assert Continuation(s, 2) == Some(c2);
    assert Continuation(s, 3) == Some(c3);
    FourOctets(cp);
    assert (bs[0] - 0xF0) * 262144 + c1 * 4096 + c2 * 64 + c3 == cp;
    DecodeFourFrom(s, bs[0], c1, c2, c3);
  }

  /** Decoding the front of an encoded character gives back that character. */
  lemma DecodeOneOfEncodeChar(c: char, t: string)
    ensures DecodeOne(EncodeChar(c) + t) == Some((c, |EncodeChar(c)|))
  {
    var cp := c as int;
    if Unreserved(c) {
    } else if cp < 0x80 {
      DecodeAsciiOctet(c, t);
    } else if cp < 0x800 {
      DecodeTwoOctets(c, t);
    } else if cp < 0x10000 {
      DecodeThreeOctets(c, t);
    } else {
      DecodeFourOctets(c, t);
    }
  }

  /** `decodeURIComponent` inverts `encodeURIComponent` on every string. */
  lemma {:induction false} DecodeEncode(s: string)
    ensures DecodeUriComponent(EncodeUriComponent(s)) == Some(s)
  {
    if |s| > 0 {
      var e := EncodeChar(s[0]);
      var t := EncodeUriComponent(s[1..]);
      assert EncodeUriComponent(s) == e + t;
      DecodeOneOfEncodeChar(s[0], t);
      assert (e + t)[|e|..] == t;
      DecodeEncode(s[1..]);
      assert [s[0]] + s[1..] == s;
    }
  }

  /** The protocol handler resolves the URL `get-video-url` hands out back to the original path. */
  lemma ProtocolPathOfVideoUrl(filePath: string)
    ensures ProtocolPath(VideoUrl(filePath)) == Some(filePath)
  {
    var url := VideoUrl(filePath);
    assert Substr(url, |Scheme|) == EncodeUriComponent(filePath);
    DecodeEncode(filePath);
  }
}
