/**
 * The HTTP vocabulary the middleware works with, as the `http` crate
 * defines it: header maps keyed by lower-case names, `HeaderValue::to_str`
 * and `HeaderValue::from_str`, and status codes with their classes.
 */
module Http {
  import opened Common

  /**
   * A header map: lower-case header name to the (first) value's bytes.
   * `HeaderMap::get` is a lookup and `HeaderMap::insert` a map update.
   */
  type HeaderMap = map<string, seq<byte>>

  /** `http::StatusCode` holds a number from 100 to 999. */
  type StatusCode = s: int | 100 <= s <= 999 witness 200

  predicate IsSuccess(s: StatusCode) { 200 <= s <= 299 }
  predicate IsRedirection(s: StatusCode) { 300 <= s <= 399 }
  predicate IsClientError(s: StatusCode) { 400 <= s <= 499 }
  predicate IsServerError(s: StatusCode) { 500 <= s <= 599 }

  /** An inbound request as the middleware sees it; the body is opaque text. */
  datatype Request = Request(
    verb: string,
    path: string,
    query: Option<string>,
    version: string,
    headers: HeaderMap,
    body: string)

  /** A response; the body is opaque text. */
  datatype Response = Response(status: StatusCode, headers: HeaderMap, body: string)

  const ContentType: string := "content-type"

  /** A byte `to_str` accepts: horizontal tab or a visible ASCII character. */
  predicate IsVisibleAscii(b: byte) {
    b == 9 || 32 <= b < 127
  }

  /** A byte a header value may hold: tab, or anything from space up except DEL. */
  predicate IsValidValueByte(b: byte) {
    b == 9 || (32 <= b && b != 127)
  }

  /**
   * `HeaderValue::to_str`: succeeds exactly when every byte is visible
   * ASCII, and then gives those bytes as characters.
   */
  function ToStr(v: seq<byte>): (r: Option<string>)
    ensures r.Some? <==> forall i :: 0 <= i < |v| ==> IsVisibleAscii(v[i])
    ensures r.Some? ==> |r.value| == |v| && forall i :: 0 <= i < |v| ==> r.value[i] as int == v[i] as int
  {
    if forall i :: 0 <= i < |v| ==> IsVisibleAscii(v[i]) then
      Some(seq(|v|, i requires 0 <= i < |v| => v[i] as char))
    else
      None
  }

  /** The UTF-8 encoding of one Unicode scalar value. */
  function Utf8(c: char): (r: seq<byte>)
    ensures 1 <= |r| <= 4
    ensures c as int < 0x80 ==> r == [c as int as byte]
    ensures c as int >= 0x80 ==> forall i :: 0 <= i < |r| ==> r[i] >= 0x80
  {
    var n := c as int;
    if n < 0x80 then [n as byte]
    else if n < 0x800 then [(0xC0 + n / 64) as byte, (0x80 + n % 64) as byte]
    else if n < 0x10000 then
      [(0xE0 + n / 4096) as byte, (0x80 + (n / 64) % 64) as byte, (0x80 + n % 64) as byte]
    else
      [(0xF0 + n / 262144) as byte, (0x80 + (n / 4096) % 64) as byte,
       (0x80 + (n / 64) % 64) as byte, (0x80 + n % 64) as byte]
  }

  function Utf8String(s: string): seq<byte> {
    if s == [] then [] else Utf8(s[0]) + Utf8String(s[1..])
  }

  /** A character whose encoding `from_str` accepts. */
  predicate IsValidValueChar(c: char) {
    c == '\t' || (c >= ' ' && c as int != 127)
  }

  predicate ValidValueBytes(bs: seq<byte>) {
    forall i :: 0 <= i < |bs| ==> IsValidValueByte(bs[i])
  }

  /**
   * `HeaderValue::from_str`: the UTF-8 bytes of `s`, provided every byte is
   * one a header value may hold.
   */
  function FromStr(s: string): Option<seq<byte>> {
    var bytes := Utf8String(s);
    if ValidValueBytes(bytes) then Some(bytes) else None
  }

  lemma {:induction false} Utf8StringValid(s: string)
    requires forall i :: 0 <= i < |s| ==> IsValidValueChar(s[i])
    ensures ValidValueBytes(Utf8String(s))
  {
    if s != [] {
      Utf8StringValid(s[1..]);
      var head, tail := Utf8(s[0]), Utf8String(s[1..]);
      assert Utf8String(s) == head + tail;
      assert IsValidValueChar(s[0]);
      assert ValidValueBytes(head) by {
        if s[0] as int < 0x80 {
          assert head == [s[0] as int as byte];
        }
      }
      assert ValidValueBytes(tail);
      forall i | 0 <= i < |head + tail| ensures IsValidValueByte((head + tail)[i]) {
        if i < |head| {
          assert (head + tail)[i] == head[i];
        } else {
          assert (head + tail)[i] == tail[i - |head|];
        }
      }
    }
  }

  /**
   * `from_str` accepts every string of tabs and characters from space up
   * other than DEL, non-ASCII ones included.
   */
  lemma FromStrAccepts(s: string)
    requires forall i :: 0 <= i < |s| ==> IsValidValueChar(s[i])
    ensures FromStr(s).Some?
  {
    Utf8StringValid(s);
  }

  lemma {:induction false} Utf8StringAscii(s: string)
    requires forall i :: 0 <= i < |s| ==> s[i] as int < 0x80
    ensures |Utf8String(s)| == |s|
    ensures forall i :: 0 <= i < |s| ==> Utf8String(s)[i] as int == s[i] as int
  {
    if s != [] {
      Utf8StringAscii(s[1..]);
      assert Utf8String(s) == [s[0] as int as byte] + Utf8String(s[1..]);
    }
  }

  /**
   * Text obtained from `to_str` always converts back with `from_str`, and
   * to the very bytes it came from.
   */
  lemma {:induction false} FromStrOfToStr(v: seq<byte>)
    requires ToStr(v).Some?
    ensures FromStr(ToStr(v).value) == Some(v)
  {
    var s := ToStr(v).value;
    Utf8StringAscii(s);
    var bytes := Utf8String(s);
    assert bytes == v;
    assert ValidValueBytes(bytes);
  }

  /**
   * Conversely, printable ASCII text (tab included) survives `from_str`
   * followed by `to_str` unchanged.
   */
  lemma {:induction false} ToStrOfFromStr(s: string)
    requires forall i :: 0 <= i < |s| ==> s[i] == '\t' || ' ' <= s[i] <= '~'
    ensures FromStr(s).Some? && ToStr(FromStr(s).value) == Some(s)
  {
    Utf8StringAscii(s);
    var bytes := Utf8String(s);
    assert ValidValueBytes(bytes) by {
      forall i | 0 <= i < |bytes| ensures IsValidValueByte(bytes[i]) {
        assert bytes[i] as int == s[i] as int;
      }
    }
    assert forall i :: 0 <= i < |bytes| ==> IsVisibleAscii(bytes[i]) by {
      forall i | 0 <= i < |bytes| ensures IsVisibleAscii(bytes[i]) {
        assert bytes[i] as int == s[i] as int;
      }
    }
    assert ToStr(bytes).value == s;
  }

  /** `headers.get(name).and_then(|v| v.to_str().ok())` */
  function HeaderText(headers: HeaderMap, name: string): (r: Option<string>)
    ensures r.Some? ==> name in headers && ToStr(headers[name]) == r
    ensures name in headers && ToStr(headers[name]).Some? ==> r.Some?
  {
    if name in headers then ToStr(headers[name]) else None
  }
}
