/**
 * String arithmetic shared by both table drafts: Python's `str * n`, `abs`,
 * `max`, `sep.join(parts)` and the `cell_padding` lambda both drafts define.
 */
module Text {
  function Max(a: int, b: int): int { if a >= b then a else b }

  function Abs(x: int): nat { if x < 0 then -x else x }

  /** Python's `c * n`: n copies of c, and the empty string when n is zero or negative. */
  function Repeat(c: char, n: int): (r: string)
    ensures |r| == Max(n, 0)
    ensures forall k :: 0 <= k < |r| ==> r[k] == c
    decreases Max(n, 0)
  {
    if n <= 0 then "" else [c] + Repeat(c, n - 1)
  }

  /**
   * `cell_padding(s, abs(len(s) - width))`: a cell that fits is padded with
   * trailing spaces to exactly `width`; an over-long one is not cut but grows
   * by its own excess, because the padding count is an absolute value.
   */
  function Pad(s: string, width: int): (r: string)
    ensures |s| <= width ==> |r| == width
    ensures |s| > width ==> |r| == 2 * |s| - width
    ensures r[..|s|] == s
    ensures forall k :: |s| <= k < |r| ==> r[k] == ' '
  {
    s + Repeat(' ', Abs(|s| - width))
  }

  /** Python's `sep.join(parts)`. */
  function Join(sep: string, parts: seq<string>): string
  {
    if parts == [] then ""
    else if |parts| == 1 then parts[0]
    else parts[0] + sep + Join(sep, parts[1..])
  }
}
