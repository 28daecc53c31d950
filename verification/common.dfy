/**
 * Small shared vocabulary: optional values, results, bytes, and the
 * decimal renderings and parsings that Rust's standard library performs
 * for `usize::to_string` and `usize::from_str`.
 */
module Common {

  datatype Option<+T> = None | Some(value: T) {
    /** `Option::unwrap_or` */
    function GetOr(default: T): T {
      if Some? then value else default
    }
  }

  datatype Result<+T, +E> = Ok(value: T) | Err(error: E)

  /** An octet, as Rust's `u8`. */
  newtype byte = b: int | 0 <= b < 256

  /** The largest `usize` on the 64-bit targets the service is built for. */
  const UsizeMax: nat := 0xFFFF_FFFF_FFFF_FFFF

  predicate IsDigit(c: char) {
    '0' <= c <= '9'
  }

  predicate AllDigits(s: string) {
    forall i :: 0 <= i < |s| ==> IsDigit(s[i])
  }

  function DigitChar(d: nat): (c: char)
    requires d < 10
    ensures IsDigit(c) && c as int - '0' as int == d
  {
    ('0' as int + d) as char
  }

  predicate IsLowerHex(c: char) {
    IsDigit(c) || 'a' <= c <= 'f'
  }

  /** One lower-case hexadecimal digit. */
  function HexDigit(d: nat): (c: char)
    requires d < 16
    ensures IsLowerHex(c)
    ensures d < 10 ==> c as int == '0' as int + d
    ensures d >= 10 ==> c as int == 'a' as int + d - 10
  {
    if d < 10 then ('0' as int + d) as char else ('a' as int + d - 10) as char
  }

  /** The value of a string of decimal digits, most significant first. */
  function DigitsValue(s: string): nat
    requires AllDigits(s)
  {
    if s == [] then 0
    else DigitsValue(s[..|s| - 1]) * 10 + (s[|s| - 1] as int - '0' as int)
  }

  /**
   * Decimal rendering of a natural number, as `usize::to_string`:
   * digits only, no leading zero, and reading it back gives the number.
   */
  function DecimalString(n: nat): (s: string)
    ensures s != [] && AllDigits(s)
    ensures DigitsValue(s) == n
    ensures |s| > 1 ==> s[0] != '0'
    decreases n
  {
    if n < 10 then [DigitChar(n)]
    else
      var prefix := DecimalString(n / 10);
      var s := prefix + [DigitChar(n % 10)];
      assert s[..|s| - 1] == prefix;
      s
  }

  /** The digits `usize::from_str` reads: one leading `+` is skipped. */
  function UnsignedDigits(s: string): string {
    if |s| >= 1 && s[0] == '+' then s[1..] else s
  }

  /**
   * `s.parse::<usize>().ok()`: an optional `+`, then at least one decimal
   * digit (leading zeros allowed), and a value that fits in a `usize`.
   */
  function ParseUsize(s: string): (r: Option<nat>)
    ensures r.Some? <==> UnsignedDigits(s) != [] && AllDigits(UnsignedDigits(s)) &&
                         DigitsValue(UnsignedDigits(s)) <= UsizeMax
    ensures r.Some? ==> r.value == DigitsValue(UnsignedDigits(s))
  {
    var digits := UnsignedDigits(s);
    if digits != [] && AllDigits(digits) && DigitsValue(digits) <= UsizeMax then
      Some(DigitsValue(digits))
    else
      None
  }

  /** Whatever `ParseUsize` accepts is a digit string, possibly after `+`. */
  lemma ParseUsizeRejectsNonDigits(s: string, i: nat)
    requires i < |s| && !IsDigit(s[i]) && !(i == 0 && s[i] == '+')
    ensures ParseUsize(s) == None
  {
    var digits := UnsignedDigits(s);
    if |s| >= 1 && s[0] == '+' {
      assert digits[i - 1] == s[i];
    } else {
      assert digits[i] == s[i];
    }
  }

  /** Reading back the decimal rendering of any `usize` gives it back. */
  lemma ParseUsizeOfDecimal(n: nat)
    requires n <= UsizeMax
    ensures ParseUsize(DecimalString(n)) == Some(n)
    ensures ParseUsize("+" + DecimalString(n)) == Some(n)
  {
    var s := DecimalString(n);
    assert UnsignedDigits("+" + s) == s;
  }

  /** Leading zeros are accepted, unlike in the rendering `DecimalString` gives. */
  lemma ParseUsizeAcceptsLeadingZeros()
    ensures ParseUsize("007") == Some(7)
    ensures ParseUsize("+0") == Some(0)
    ensures ParseUsize("") == None && ParseUsize("+") == None && ParseUsize("-1") == None
  {
    assert UnsignedDigits("007") == "007";
    assert DigitsValue("007") == 7 by {
      assert "007"[..2] == "00" && "00"[..1] == "0" && "0"[..0] == "";
    }
    assert UnsignedDigits("+0") == "0";
    assert DigitsValue("0") == 0 by {
      assert "0"[..0] == "";
    }
    assert !IsDigit("-1"[0]);
  }
}
