/**
 * `Uuid::new_v4().to_string()`: sixteen random bytes with the version and
 * variant bits forced (RFC 4122 section 4.4), written in the hyphenated
 * lower-case form 8-4-4-4-12. The random bytes are a parameter.
 */
module Uuid {
  import opened Common

  predicate AllLowerHex(s: string) {
    forall i :: 0 <= i < |s| ==> IsLowerHex(s[i])
  }

  /** Two lower-case hex digits per byte, high nibble first. */
  function HexBytes(bs: seq<byte>): (r: string)
    ensures |r| == 2 * |bs| && AllLowerHex(r)
    ensures bs != [] ==> r[0] == HexDigit(bs[0] as int / 16)
  {
    if bs == [] then ""
    else [HexDigit(bs[0] as int / 16), HexDigit(bs[0] as int % 16)] + HexBytes(bs[1..])
  }

  /** Byte `i` is written at positions `2 * i` (high nibble) and `2 * i + 1` (low nibble). */
  lemma {:induction false} HexBytesDigits(bs: seq<byte>)
    ensures forall i :: 0 <= i < |bs| ==>
      HexBytes(bs)[2 * i] == HexDigit(bs[i] as int / 16) && HexBytes(bs)[2 * i + 1] == HexDigit(bs[i] as int % 16)
  {
    if bs != [] {
      HexBytesDigits(bs[1..]);
      var head, tail := [HexDigit(bs[0] as int / 16), HexDigit(bs[0] as int % 16)], HexBytes(bs[1..]);
      assert HexBytes(bs) == head + tail;
      forall i | 1 <= i < |bs|
        ensures HexBytes(bs)[2 * i] == HexDigit(bs[i] as int / 16)
        ensures HexBytes(bs)[2 * i + 1] == HexDigit(bs[i] as int % 16)
      {
        var j := i - 1;
        assert bs[1..][j] == bs[i];
        assert (head + tail)[2 * i] == tail[2 * j];
        assert (head + tail)[2 * i + 1] == tail[2 * j + 1];
      }
    }
  }

  /** The bytes `Builder::from_random_bytes` produces: version 4, RFC 4122 variant. */
  function V4Bytes(random: seq<byte>): (r: seq<byte>)
    requires |random| == 16
    ensures |r| == 16
    ensures r[6] as int / 16 == 4
    ensures 8 <= r[8] as int / 16 <= 11
    ensures forall i :: 0 <= i < 16 && i != 6 && i != 8 ==> r[i] == random[i]
  {
    random[6 := (random[6] % 16 + 0x40)][8 := (random[8] % 64 + 0x80)]
  }

  /** The hyphenated form: groups of 4, 2, 2, 2 and 6 bytes. */
  function Hyphenated(b: seq<byte>): string
    requires |b| == 16
  {
    HexBytes(b[..4]) + "-" + HexBytes(b[4..6]) + "-" + HexBytes(b[6..8]) + "-"
      + HexBytes(b[8..10]) + "-" + HexBytes(b[10..])
  }

  /** A textual version-4 UUID, as `new_v4().to_string()` writes it. */
  predicate IsV4Text(s: string) {
    && |s| == 36
    && (forall i :: 0 <= i < 36 ==> (s[i] == '-' <==> i in {8, 13, 18, 23}))
    && (forall i :: 0 <= i < 36 && s[i] != '-' ==> IsLowerHex(s[i]))
    && s[14] == '4'
    && s[19] in {'8', '9', 'a', 'b'}
  }

  /** Where the hyphens of the hyphenated form fall, and what is between them. */
  lemma HyphenatedShape(b: seq<byte>)
    requires |b| == 16
    ensures var h := Hyphenated(b);
      && |h| == 36
      && (forall i :: 0 <= i < 36 ==> (h[i] == '-' <==> i in {8, 13, 18, 23}))
      && (forall i :: 0 <= i < 36 && h[i] != '-' ==> IsLowerHex(h[i]))
      && h[14] == HexDigit(b[6] as int / 16)
      && h[19] == HexDigit(b[8] as int / 16)
  {
    var p1, p2, p3, p4, p5 := HexBytes(b[..4]), HexBytes(b[4..6]), HexBytes(b[6..8]),
      HexBytes(b[8..10]), HexBytes(b[10..]);
    var h := Hyphenated(b);
    assert h == p1 + "-" + p2 + "-" + p3 + "-" + p4 + "-" + p5;
    forall i | 0 <= i < 36
      ensures (h[i] == '-' <==> i in {8, 13, 18, 23})
      ensures h[i] != '-' ==> IsLowerHex(h[i])
    {
      if i < 8 { assert h[i] == p1[i]; }
      else if i == 8 { }
      else if i < 13 { assert h[i] == p2[i - 9]; }
      else if i == 13 { }
      else if i < 18 { assert h[i] == p3[i - 14]; }
      else if i == 18 { }
      else if i < 23 { assert h[i] == p4[i - 19]; }
      else if i == 23 { }
      else { assert h[i] == p5[i - 24]; }
    }
    assert h[14] == p3[0];
    assert h[19] == p4[0];
  }

  /** `Uuid::new_v4().to_string()` with `random` standing for the random source. */
  function NewV4String(random: seq<byte>): (r: string)
    requires |random| == 16
    ensures IsV4Text(r)
  {
    var b := V4Bytes(random);
    HyphenatedShape(b);
    Hyphenated(b)
  }
}
