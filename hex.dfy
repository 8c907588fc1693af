/** Hexadecimal digits and fixed-width hexadecimal numerals, as they appear in
    the JSON-RPC results of `eth_call` (an Ethereum contract ABI word is 64
    hex digits). */
module Hex {

  function Pow16(n: nat): (p: nat)
    ensures p > 0
  {
    if n == 0 then 1 else 16 * Pow16(n - 1)
  }

  predicate IsHexDigit(c: char) {
    ('0' <= c <= '9') || ('a' <= c <= 'f') || ('A' <= c <= 'F')
  }

  predicate AllHex(s: string) {
    forall i :: 0 <= i < |s| ==> IsHexDigit(s[i])
  }

  /** The value of a hex digit, either case; 0 for any other character. */
  function DigitValue(c: char): (d: nat)
    ensures d < 16
  {
    if '0' <= c <= '9' then c as int - '0' as int
    else if 'a' <= c <= 'f' then c as int - 'a' as int + 10
    else if 'A' <= c <= 'F' then c as int - 'A' as int + 10
    else 0
  }

  /** The lower-case digit for `d`. */
  function DigitChar(d: nat): (c: char)
    requires d < 16
    ensures IsHexDigit(c) && DigitValue(c) == d
  {
    if d < 10 then ('0' as int + d) as char else ('a' as int + d - 10) as char
  }

  /** The number a string of hex digits denotes, most significant first. */
  function HexValue(s: string): (v: nat)
    ensures v < Pow16(|s|)
    decreases |s|
  {
    if s == [] then 0 else 16 * HexValue(s[..|s| - 1]) + DigitValue(s[|s| - 1])
  }

  /** `n` as exactly `w` lower-case hex digits, zero-padded on the left (the
      digits above `w` are dropped). */
  function NatToHex(n: nat, w: nat): (s: string)
    ensures |s| == w && AllHex(s)
    decreases w
  {
    if w == 0 then "" else NatToHex(n / 16, w - 1) + [DigitChar(n % 16)]
  }

  /** Reading a `w`-digit numeral back gives the number, when it fits. */
  lemma {:induction false} HexValueOfNatToHex(n: nat, w: nat)
    requires n < Pow16(w)
    ensures HexValue(NatToHex(n, w)) == n
    decreases w
  {
    if w > 0 {
      var s := NatToHex(n, w);
      assert s[..w - 1] == NatToHex(n / 16, w - 1);
      HexValueOfNatToHex(n / 16, w - 1);
    }
  }

  /** A number below `16^(w-k)` written in `w` digits starts with `k` zeros. */
  lemma {:induction false} LeadingZeros(n: nat, w: nat, k: nat)
    requires k <= w && n < Pow16(w - k)
    ensures forall i :: 0 <= i < k ==> NatToHex(n, w)[i] == '0'
    decreases w
  {
    if k > 0 {
      var s := NatToHex(n, w);
      if k < w {
        LeadingZeros(n / 16, w - 1, k);
      } else {
        assert n == 0;
        LeadingZeros(n / 16, w - 1, k - 1);
        assert s[w - 1] == DigitChar(0) == '0';
      }
      assert s[..w - 1] == NatToHex(n / 16, w - 1);
    }
  }
}
