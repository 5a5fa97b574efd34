/**
 * Reading the `Retry-After` header of a 429 response (section 10.2.3 of
 * RFC 9110), as `create_user_api_call` and `create_auth_method_api_call` do:
 * the header value must pass `HeaderValue::to_str` (visible ASCII or tab only)
 * and then `str::parse::<u64>` (an optional `+`, one or more ASCII digits, and
 * a value that fits in 64 bits). Only the delay-seconds form can pass; an
 * HTTP-date is rejected like any other non-numeric text.
 */
module RetryAfter {
  import opened Wrappers
  import opened Text

  /** One octet of a header value. */
  newtype byte = x: int | 0 <= x < 256

  /** The largest `u64`. */
  const U64Max: nat := 0xFFFF_FFFF_FFFF_FFFF

  /** `HeaderValue::to_str` accepts printable ASCII and horizontal tab. */
  predicate IsVisibleAscii(b: byte) {
    (32 <= b && b < 127) || b == 9
  }

  /** `HeaderValue::to_str`: the value as text if every octet is visible, otherwise an error. */
  function HeaderToStr(v: seq<byte>): (r: Option<string>)
    ensures r.Some? <==> forall k :: 0 <= k < |v| ==> IsVisibleAscii(v[k])
    ensures r.Some? ==> |r.value| == |v| && forall k :: 0 <= k < |v| ==> r.value[k] as int == v[k] as int
    decreases |v|
  {
    if v == [] then Some([])
    else if !IsVisibleAscii(v[0]) then None
    else
      match HeaderToStr(v[1..])
      case None => None
      case Some(t) => Some([v[0] as int as char] + t)
  }

  /** The octets of a text whose characters are all below 256, one octet per character. */
  function Octets(s: string): (r: seq<byte>)
    requires forall k :: 0 <= k < |s| ==> s[k] as int < 256
    ensures |r| == |s| && forall k :: 0 <= k < |s| ==> r[k] as int == s[k] as int
  {
    seq(|s|, k requires 0 <= k < |s| => s[k] as int as byte)
  }

  predicate IsDigit(c: char) {
    '0' <= c <= '9'
  }

  predicate AllDigits(d: string) {
    forall k :: 0 <= k < |d| ==> IsDigit(d[k])
  }

  function DigitValue(c: char): nat
    requires IsDigit(c)
  {
    c as int - '0' as int
  }

  /** The number a string of decimal digits denotes, most significant first. */
  function DigitsValue(d: string): nat
    requires AllDigits(d)
    decreases |d|
  {
    if d == [] then 0 else DigitsValue(d[..|d| - 1]) * 10 + DigitValue(d[|d| - 1])
  }

  /** The digits `from_str` reads: everything after a leading `+`, if there is one. */
  function Unsigned(s: string): string {
    if |s| > 0 && s[0] == '+' then s[1..] else s
  }

  /**
   * `u64::from_str`: an empty text, a lone `+`, any character that is not an
   * ASCII digit (whitespace and `-` included) and a value above 2^64 - 1 are all
   * errors.
   */
  function ParseU64(s: string): (r: Option<nat>)
    ensures r.Some? <==> Unsigned(s) != [] && AllDigits(Unsigned(s)) && DigitsValue(Unsigned(s)) <= U64Max
    ensures r.Some? ==> r.value == DigitsValue(Unsigned(s)) && r.value <= U64Max
  {
    var d := Unsigned(s);
    if d != [] && AllDigits(d) && DigitsValue(d) <= U64Max then Some(DigitsValue(d)) else None
  }

  /** The delay a 429 response asks for: `None` when the header is absent, not visible text, or not a `u64`. */
  function RetryAfterSeconds(header: Option<seq<byte>>): (r: Option<nat>)
    ensures header.None? ==> r.None?
    ensures r.Some? ==> r.value <= U64Max
    ensures r.Some? <==> header.Some? && HeaderToStr(header.value).Some? && ParseU64(HeaderToStr(header.value).value).Some?
  {
    match header
    case None => None
    case Some(v) =>
      match HeaderToStr(v)
      case None => None
      case Some(text) => ParseU64(text)
  }

  /** The canonical decimal form of `n`, as the server would send it. */
  function ToDecimal(n: nat): (r: string)
    ensures r != [] && AllDigits(r)
    decreases n
  {
    if n < 10 then [('0' as int + n) as char] else ToDecimal(n / 10) + [('0' as int + n % 10) as char]
  }

  /** Reading the decimal form of `n` gives `n` back. */
  lemma {:induction false} DigitsOfDecimal(n: nat)
    ensures DigitsValue(ToDecimal(n)) == n
    decreases n
  {
    var d := ToDecimal(n);
    if n >= 10 {
      assert d[..|d| - 1] == ToDecimal(n / 10);
      DigitsOfDecimal(n / 10);
    }
  }

  /** Round trip: every `u64` written in decimal parses back to itself. */
  lemma ParseDecimal(n: nat)
    requires n <= U64Max
    ensures ParseU64(ToDecimal(n)) == Some(n)
  {
    DigitsOfDecimal(n);
  }

  /** The same with the explicit `+` sign that `from_str` also accepts. */
  lemma ParsePlusDecimal(n: nat)
    requires n <= U64Max
    ensures ParseU64("+" + ToDecimal(n)) == Some(n)
  {
    DigitsOfDecimal(n);
    assert Unsigned("+" + ToDecimal(n)) == ToDecimal(n);
  }

  /** One past the largest `u64` is rejected: the parse reports overflow rather than wrapping. */
  lemma OverflowRejected()
    ensures ParseU64(ToDecimal(U64Max + 1)) == None
  {
    DigitsOfDecimal(U64Max + 1);
  }

  /** A text whose first character is neither `+` nor a digit is never a delay. */
  lemma NonDigitRejected(s: string)
    requires |s| > 0 && s[0] != '+' && !IsDigit(s[0])
    ensures ParseU64(s) == None
  {
    assert Unsigned(s)[0] == s[0];
  }

  /** Visible text survives `to_str` unchanged. */
  lemma {:induction false} VisibleRoundTrip(s: string)
    requires forall k :: 0 <= k < |s| ==> 32 <= s[k] as int < 127
    ensures HeaderToStr(Octets(s)) == Some(s)
  {
    var v := Octets(s);
    assert forall k :: 0 <= k < |v| ==> IsVisibleAscii(v[k]);
    var t := HeaderToStr(v).value;
    assert |t| == |s|;
    forall k | 0 <= k < |s| ensures t[k] == s[k] {
      assert t[k] as int == v[k] as int == s[k] as int;
    }
    assert t == s;
  }

  /** A header that holds a non-visible octet (a line feed, say) gives no delay, whatever the rest says. */
  lemma InvisibleRejected(v: seq<byte>, k: nat)
    requires k < |v| && !IsVisibleAscii(v[k])
    ensures RetryAfterSeconds(Some(v)) == None
  {
  }

  /** `Retry-After: 1`, the value the retry test sends, asks for one second. */
  lemma OneSecondExample()
    ensures RetryAfterSeconds(Some([0x31])) == Some(1)
  {
    assert HeaderToStr([0x31]) == Some("1") by {
      VisibleRoundTrip("1");
      assert Octets("1") == [0x31];
    }
    assert DigitsValue("1") == 1 by {
      assert "1"[..0] == [];
    }
  }

  /** `Retry-After: invalid_value`, as in the invalid-header test, gives no delay. */
  lemma InvalidValueExample(s: string)
    requires s == "invalid" + "_value"
    ensures RetryAfterSeconds(Some(Octets(s))) == None
  {
    VisibleRoundTrip(s);
    NonDigitRejected(s);
  }

  /** The HTTP-date form of the header is rejected too: only delay-seconds can be read. */
  lemma HttpDateExample(s: string)
    requires s == "Wed, 21 Oct 2015" + " 07:28:00 GMT"
    ensures RetryAfterSeconds(Some(Octets(s))) == None
  {
    VisibleRoundTrip(s);
    NonDigitRejected(s);
  }

  /** Leading or trailing whitespace of any kind makes the header unusable: there is no trimming. */
  lemma PaddedRejected(n: nat, w: string)
    requires w != [] && AllWhitespace(w)
    ensures ParseU64(w + ToDecimal(n)) == None
    ensures ParseU64(ToDecimal(n) + w) == None
  {
    var d := ToDecimal(n);
    assert IsWhitespace(w[0]) && IsWhitespace(w[|w| - 1]);
    NonDigitRejected(w + d);
    var t := d + w;
    assert Unsigned(t) == t by {
      assert t[0] == d[0];
    }
    assert !IsDigit(t[|t| - 1]);
  }
}
