/** Encoded lengths of JSON text, as section 5 and section 7 of RFC 8259 frame it. */
module Json {
  /** Bytes of one character inside a JSON string: escapes, then UTF-8. */
  function CharBytes(c: char): (n: nat)
    ensures 1 <= n <= 6
  {
    if c == '\"' || c == '\\' then 2
    else if c in {'\n', '\r', '\t', '\U{0c}', '\U{08}'} then 2
    else if c < ' ' then 6
    else if c < '\U{80}' then 1
    else if c < '\U{800}' then 2
    else if c < '\U{10000}' then 3
    else 4
  }

  /** Bytes of a string's characters, without the surrounding quotes. */
  function StringBytes(s: string): nat {
    if s == [] then 0 else CharBytes(s[0]) + StringBytes(s[1..])
  }

  /** Bytes of an array of items with the given encoded lengths: brackets and commas. */
  function ArrayBytes(lengths: seq<nat>): nat {
    if lengths == [] then 2 else Sum(lengths) + (|lengths| - 1) + 2
  }

  function Sum(lengths: seq<nat>): nat {
    if lengths == [] then 0 else Sum(lengths[..|lengths| - 1]) + lengths[|lengths| - 1]
  }

  function Digits(n: nat): nat {
    if n < 10 then 1 else 1 + Digits(n / 10)
  }

  function Pow10(k: nat): nat {
    if k == 0 then 1 else 10 * Pow10(k - 1)
  }

  lemma {:induction false} DigitsBound(n: nat, k: nat)
    requires 1 <= k && n < Pow10(k)
    ensures Digits(n) <= k
  {
    if 10 <= n {
      DigitsBound(n / 10, k - 1);
    }
  }

  const USIZE_MAX: nat := 0xFFFF_FFFF_FFFF_FFFF

  /** A machine word prints in at most twenty digits. */
  lemma WordDigits(n: nat)
    requires n <= USIZE_MAX
    ensures Digits(n) <= 20
  {
    assert Pow10(4) == 10000;
    assert Pow10(8) == 100000000;
    assert Pow10(12) == 1000000000000;
    assert Pow10(16) == 10000000000000000;
    assert Pow10(20) == 100000000000000000000;
    DigitsBound(n, 20);
  }
}
