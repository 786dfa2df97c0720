/** Bytes, and the UTF-8 length of text. */
module ByteText {
  type Byte = b: int | 0 <= b < 256

  function CharLength(c: char): (n: nat)
    ensures 1 <= n <= 4
  {
    if c < '\U{80}' then 1 else if c < '\U{800}' then 2 else if c < '\U{10000}' then 3 else 4
  }

  function Utf8(s: string): nat { if s == [] then 0 else CharLength(s[0]) + Utf8(s[1..]) }
}
