/**
 * The `base64` crate's `general_purpose::STANDARD` engine: the standard
 * alphabet of RFC 4648 section 4, `=` padding required, and non-zero
 * trailing bits rejected. Under that configuration the decoder accepts
 * exactly the canonical encodings, which the two round-trip lemmas state.
 */
module Base64 {
  import opened Common

  /** The character of the standard alphabet for a 6-bit value. */
  function AlphabetChar(v: nat): char
    requires v < 64
  {
    if v < 26 then ('A' as int + v) as char
    else if v < 52 then ('a' as int + v - 26) as char
    else if v < 62 then ('0' as int + v - 52) as char
    else if v == 62 then '+'
    else '/'
  }

  /** The 6-bit value of a character of the standard alphabet; `None` otherwise. */
  function SextetOf(c: char): (r: Option<nat>)
    ensures r.Some? ==> r.value < 64 && AlphabetChar(r.value) == c
  {
    if 'A' <= c <= 'Z' then Some(c as int - 'A' as int)
    else if 'a' <= c <= 'z' then Some(c as int - 'a' as int + 26)
    else if '0' <= c <= '9' then Some(c as int - '0' as int + 52)
    else if c == '+' then Some(62)
    else if c == '/' then Some(63)
    else None
  }

  lemma SextetOfAlphabetChar(v: nat)
    requires v < 64
    ensures SextetOf(AlphabetChar(v)) == Some(v)
  {
  }

  /** The four 6-bit values of three bytes, most significant bits first. */
  function Sextets(b0: byte, b1: byte, b2: byte): (v: (nat, nat, nat, nat))
    ensures v.0 < 64 && v.1 < 64 && v.2 < 64 && v.3 < 64
  {
    (b0 as nat / 4, b0 as nat % 4 * 16 + b1 as nat / 16, b1 as nat % 16 * 4 + b2 as nat / 64, b2 as nat % 64)
  }

  /** The three bytes four 6-bit values spell, most significant bits first. */
  function Octets(v0: nat, v1: nat, v2: nat, v3: nat): (b: (byte, byte, byte))
    requires v0 < 64 && v1 < 64 && v2 < 64 && v3 < 64
  {
    ((v0 * 4 + v1 / 16) as byte, (v1 % 16 * 16 + v2 / 4) as byte, (v2 % 4 * 64 + v3) as byte)
  }

  /** `(hi * d + lo) / d == hi` and `% d == lo` for the divisors the groups use. */
  lemma SplitPlace(hi: nat, lo: nat, d: nat)
    requires d == 4 || d == 16 || d == 64
    requires lo < d
    ensures (hi * d + lo) / d == hi && (hi * d + lo) % d == lo
  {
  }

  /** Cutting bytes into sextets and joining them again gives the bytes back. */
  lemma OctetsOfSextets(b0: byte, b1: byte, b2: byte)
    ensures var v := Sextets(b0, b1, b2);
      && Octets(v.0, v.1, v.2, v.3) == (b0, b1, b2)
      && (b1 == 0 && b2 == 0 ==> v.1 % 16 == 0 && v.2 == 0 && v.3 == 0)
      && (b2 == 0 ==> v.2 % 4 == 0 && v.3 == 0)
  {
    var x0, x1, x2 := b0 as nat, b1 as nat, b2 as nat;
    var v1, v2 := x0 % 4 * 16 + x1 / 16, x1 % 16 * 4 + x2 / 64;
    SplitPlace(x0 % 4, x1 / 16, 16);
    SplitPlace(x1 % 16, x2 / 64, 4);
    assert x0 / 4 * 4 + v1 / 16 == x0;
    assert v1 % 16 * 16 + v2 / 4 == x1;
    assert v2 % 4 * 64 + x2 % 64 == x2;
  }

  /**
   * Joining sextets into bytes and cutting them again gives the sextets
   * back; when the bits a padded group drops are zero, so are the bytes
   * the padding stands for.
   */
  lemma SextetsOfOctets(v0: nat, v1: nat, v2: nat, v3: nat)
    requires v0 < 64 && v1 < 64 && v2 < 64 && v3 < 64
    ensures var b := Octets(v0, v1, v2, v3); Sextets(b.0, b.1, b.2) == (v0, v1, v2, v3)
    ensures v1 % 16 == 0 ==> Sextets(Octets(v0, v1, 0, 0).0, 0, 0) == (v0, v1, 0, 0)
    ensures v2 % 4 == 0 ==> var b := Octets(v0, v1, v2, 0); Sextets(b.0, b.1, 0) == (v0, v1, v2, 0)
  {
    var x0, x1, x2 := v0 * 4 + v1 / 16, v1 % 16 * 16 + v2 / 4, v2 % 4 * 64 + v3;
    SplitPlace(v0, v1 / 16, 4);
    SplitPlace(v1 % 16, v2 / 4, 16);
    SplitPlace(v2 % 4, v3, 64);
    assert x0 / 4 == v0 && x0 % 4 == v1 / 16;
    assert x1 / 16 == v1 % 16 && x1 % 16 == v2 / 4;
    assert x2 / 64 == v2 % 4 && x2 % 64 == v3;
  }

  /**
   * One group of one to three bytes as four characters; a short group is
   * completed with `=`.
   */
  function EncodeGroup(g: seq<byte>): (r: string)
    requires 1 <= |g| <= 3
    ensures |r| == 4
  {
    var v := Sextets(g[0], if |g| > 1 then g[1] else 0, if |g| > 2 then g[2] else 0);
    var c0, c1, c2, c3 := AlphabetChar(v.0), AlphabetChar(v.1), AlphabetChar(v.2), AlphabetChar(v.3);
    if |g| == 1 then [c0, c1, '=', '=']
    else if |g| == 2 then [c0, c1, c2, '=']
    else [c0, c1, c2, c3]
  }

  /** `STANDARD.encode(data)` */
  function Encode(data: seq<byte>): (r: string)
    ensures |r| % 4 == 0
    decreases |data|
  {
    if data == [] then ""
    else if |data| <= 3 then EncodeGroup(data)
    else
      var head, tail := EncodeGroup(data[..3]), Encode(data[3..]);
      assert |head + tail| == 4 + |tail|;
      head + tail
  }

  /**
   * Four characters back to bytes. Padding is allowed only in the `last`
   * group, and the bits a padded group leaves over must be zero.
   */
  function DecodeGroup(q: string, last: bool): (r: Option<seq<byte>>)
    requires |q| == 4
    ensures r.Some? ==> 1 <= |r.value| <= 3
    ensures r.Some? && !last ==> |r.value| == 3
  {
    var s0, s1, s2, s3 := SextetOf(q[0]), SextetOf(q[1]), SextetOf(q[2]), SextetOf(q[3]);
    if s0.None? || s1.None? then None
    else if q[2] == '=' && q[3] == '=' then
      if last && s1.value % 16 == 0 then Some([Octets(s0.value, s1.value, 0, 0).0]) else None
    else if s2.None? then None
    else if q[3] == '=' then
      if last && s2.value % 4 == 0 then
        var b := Octets(s0.value, s1.value, s2.value, 0);
        Some([b.0, b.1])
      else None
    else if s3.None? then None
    else
      var b := Octets(s0.value, s1.value, s2.value, s3.value);
      Some([b.0, b.1, b.2])
  }

  /** `STANDARD.decode(s)`, with the crate's error collapsed to `None`. */
  function Decode(s: string): (r: Option<seq<byte>>)
    decreases |s|
  {
    if s == [] then Some([])
    else if |s| < 4 then None
    else if |s| == 4 then DecodeGroup(s, true)
    else
      match DecodeGroup(s[..4], false)
      case None => None
      case Some(head) =>
        match Decode(s[4..])
        case None => None
        case Some(tail) => Some(head + tail)
  }

  lemma DecodeEncodeGroup(g: seq<byte>, last: bool)
    requires 1 <= |g| <= 3
    requires |g| < 3 ==> last
    ensures DecodeGroup(EncodeGroup(g), last) == Some(g)
  {
    var b1: byte := if |g| > 1 then g[1] else 0;
    var b2: byte := if |g| > 2 then g[2] else 0;
    var v := Sextets(g[0], b1, b2);
    OctetsOfSextets(g[0], b1, b2);
    SextetOfAlphabetChar(v.0);
    SextetOfAlphabetChar(v.1);
    SextetOfAlphabetChar(v.2);
    SextetOfAlphabetChar(v.3);
    var q := EncodeGroup(g);
    if |g| == 1 {
      assert q == [AlphabetChar(v.0), AlphabetChar(v.1), '=', '='];
      assert [g[0]] == g;
    } else if |g| == 2 {
      assert q == [AlphabetChar(v.0), AlphabetChar(v.1), AlphabetChar(v.2), '='];
      assert [g[0], g[1]] == g;
    } else {
      assert q == [AlphabetChar(v.0), AlphabetChar(v.1), AlphabetChar(v.2), AlphabetChar(v.3)];
      assert [g[0], g[1], g[2]] == g;
    }
  }

  /** Decoding an encoding gives back the original bytes (RFC 4648 section 4). */
  lemma {:induction false} DecodeEncode(data: seq<byte>)
    ensures Decode(Encode(data)) == Some(data)
    decreases |data|
  {
    if data == [] {
    } else if |data| <= 3 {
      DecodeEncodeGroup(data, true);
    } else {
      var head, rest := EncodeGroup(data[..3]), Encode(data[3..]);
      var s := head + rest;
      assert s[..4] == head && s[4..] == rest;
      DecodeEncodeGroup(data[..3], false);
      DecodeEncode(data[3..]);
      assert data[..3] + data[3..] == data;
    }
  }

  lemma EncodeDecodeGroup(q: string, last: bool)
    requires |q| == 4 && DecodeGroup(q, last).Some?
    ensures EncodeGroup(DecodeGroup(q, last).value) == q
  {
    var g := DecodeGroup(q, last).value;
    var v0, v1 := SextetOf(q[0]).value, SextetOf(q[1]).value;
    var v2 := if q[2] == '=' then 0 else SextetOf(q[2]).value;
    var v3 := if q[3] == '=' then 0 else SextetOf(q[3]).value;
    SextetsOfOctets(v0, v1, v2, v3);
    if |g| == 1 {
      assert g == [Octets(v0, v1, 0, 0).0];
    } else if |g| == 2 {
      assert g == [Octets(v0, v1, v2, 0).0, Octets(v0, v1, v2, 0).1];
    } else {
      assert g == [Octets(v0, v1, v2, v3).0, Octets(v0, v1, v2, v3).1, Octets(v0, v1, v2, v3).2];
    }
  }

  /**
   * The decoder is canonical: whatever it accepts is exactly the encoding
   * of the bytes it returns, so no second spelling of the same bytes exists.
   */
  lemma {:induction false} EncodeDecode(s: string)
    requires Decode(s).Some?
    ensures Encode(Decode(s).value) == s
    decreases |s|
  {
    if s == [] {
    } else if |s| == 4 {
      EncodeDecodeGroup(s, true);
    } else {
      var head := DecodeGroup(s[..4], false).value;
      var tail := Decode(s[4..]).value;
      EncodeDecodeGroup(s[..4], false);
      EncodeDecode(s[4..]);
      var data := head + tail;
      assert data[..3] == head && data[3..] == tail;
      assert s[..4] + s[4..] == s;
    }
  }

  /** The encoding of "hello" used by the service's end-to-end test. */
  lemma DecodeHello()
    ensures Decode("aGVsbG8=") == Some([104, 101, 108, 108, 111])
  {
    var hello: seq<byte> := [104, 101, 108, 108, 111];
    assert Encode(hello) == "aGVsbG8=" by {
      assert hello[..3] == [104, 101, 108] && hello[3..] == [108, 111];
      assert EncodeGroup([104, 101, 108]) == "aGVs";
      assert EncodeGroup([108, 111]) == "bG8=";
    }
    DecodeEncode(hello);
  }

  /** The malformed payload of the service's end-to-end test is rejected. */
  lemma DecodeRejectsNotBase64()
    ensures Decode("not_base64") == None
  {
    assert |"not_base64"| == 10;
    assert |"not_base64"[4..]| == 6;
    assert |"not_base64"[4..][4..]| == 2;
  }
}
