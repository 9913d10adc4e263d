/** Rendering of numbers and Guids into the text of error messages. */
module TextFormat {
  import opened Entities

  function DecimalDigit(d: nat): char
    requires d < 10
  {
    ('0' as int + d) as char
  }

  function HexDigit(d: nat): char
    requires d < 16
  {
    if d < 10 then ('0' as int + d) as char else ('a' as int + d - 10) as char
  }

  /** The decimal text of a natural number, without leading zeros. */
  function NatText(n: nat): (s: string)
    ensures |s| >= 1
    decreases n
  {
    if n < 10 then [DecimalDigit(n)] else NatText(n / 10) + [DecimalDigit(n % 10)]
  }

  /** Int32.ToString(): an optional minus sign and the decimal digits. */
  function IntText(n: int): string
  {
    if n < 0 then "-" + NatText(-n) else NatText(n)
  }

  /** The lowest `width` hexadecimal digits of `n`, most significant first. */
  function Hex(n: nat, width: nat): (s: string)
    ensures |s| == width
    decreases width
  {
    if width == 0 then "" else Hex(n / 16, width - 1) + [HexDigit(n % 16)]
  }

  /** Guid.ToString(): 32 lower-case hex digits grouped 8-4-4-4-12. */
  function GuidText(g: Guid): (s: string)
    ensures |s| == 36
  {
    var h := Hex(g as nat, 32);
    h[..8] + "-" + h[8..12] + "-" + h[12..16] + "-" + h[16..20] + "-" + h[20..]
  }
}
