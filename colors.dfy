/** `rgbToHex`: the `#rrggbb` serialiser used for blob colours, and its inverse. */
module Colors {
  import opened Types
  import Js

  /** `to255`: scale a [0, 1] channel to 0..255, rounding with `Math.round` and clamping. */
  function To255(v: real): (n: int)
    ensures 0 <= n <= 255
    ensures v <= 0.0 ==> n == 0
    ensures 1.0 <= v ==> n == 255
    ensures 0 < n < 255 ==> n as real - 0.5 <= v * 255.0 < n as real + 0.5
  {
    var r := Js.Round(v * 255.0);
    if r < 255 then (if 0 < r then r else 0) else 255
  }

  /** The lower-case hex digit for 0..15, as `toString(16)` writes it. */
  function HexDigit(d: int): (ch: char)
    requires 0 <= d < 16
    ensures IsHexDigit(ch)
  {
    if d < 10 then ('0' as int + d) as char else ('a' as int + d - 10) as char
  }

  predicate IsHexDigit(ch: char)
  {
    '0' <= ch <= '9' || 'a' <= ch <= 'f'
  }

  /** `n.toString(16)` for a non-negative integer: lower-case hex digits, no leading zero. */
  function HexString(n: nat): (s: string)
    ensures 1 <= |s|
    ensures n < 16 <==> |s| == 1
  {
    if n < 16 then [HexDigit(n)] else HexString(n / 16) + [HexDigit(n % 16)]
  }

  /** `s.padStart(len, fill)` with a one-character fill. */
  function PadStart(s: string, len: nat, fill: char): (r: string)
    ensures |r| == if |s| < len then len else |s|
    ensures forall i :: 0 <= i < |s| ==> r[|r| - |s| + i] == s[i]
    ensures forall i :: 0 <= i < |r| - |s| ==> r[i] == fill
  {
    if len <= |s| then s else seq(len - |s|, _ => fill) + s
  }

  /** One channel as exactly two hex digits: high nibble, then low nibble. */
  function Channel(n: int): (s: string)
    requires 0 <= n <= 255
    ensures s == [HexDigit(n / 16), HexDigit(n % 16)]
    ensures HexPair(s)
  {
    var h := HexString(n);
    if n < 16 then
      assert h == [HexDigit(n)];
      PadStart(h, 2, '0')
    else
      assert HexString(n / 16) == [HexDigit(n / 16)];
      PadStart(h, 2, '0')
  }

  predicate HexPair(s: string)
  {
    |s| == 2 && IsHexDigit(s[0]) && IsHexDigit(s[1])
  }

  /** `#` followed by the three two-digit channels. */
  function HexTriple(cr: string, cg: string, cb: string): (s: string)
    requires HexPair(cr) && HexPair(cg) && HexPair(cb)
    ensures |s| == 7 && s[0] == '#'
    ensures forall i :: 1 <= i < 7 ==> IsHexDigit(s[i])
    ensures s[1..3] == cr && s[3..5] == cg && s[5..7] == cb
  {
    ['#'] + cr + cg + cb
  }

  /** `rgbToHex([r, g, b])` */
  function RgbToHex(c: Rgb): (s: string)
    ensures |s| == 7 && s[0] == '#'
    ensures forall i :: 1 <= i < 7 ==> IsHexDigit(s[i])
  {
    HexTriple(Channel(To255(c.r)), Channel(To255(c.g)), Channel(To255(c.b)))
  }

  /** The value of one lower-case hex digit, or -1 for any other character. */
  function HexDigitValue(ch: char): (d: int)
    ensures -1 <= d < 16
    ensures 0 <= d <==> IsHexDigit(ch)
    ensures 0 <= d ==> HexDigit(d) == ch
  {
    if '0' <= ch <= '9' then ch as int - '0' as int
    else if 'a' <= ch <= 'f' then ch as int - 'a' as int + 10
    else -1
  }

  lemma HexDigitValueOf(d: int)
    requires 0 <= d < 16
    ensures HexDigitValue(HexDigit(d)) == d
  {
  }

  function ParsePair(hi: char, lo: char): Option<int>
  {
    var h := HexDigitValue(hi);
    var l := HexDigitValue(lo);
    if h < 0 || l < 0 then None else Some(16 * h + l)
  }

  /** Reads a `#rrggbb` string back into its three channel values; anything else is None. */
  function ParseHex(s: string): Option<(int, int, int)>
  {
    if |s| != 7 || s[0] != '#' then None
    else
      match (ParsePair(s[1], s[2]), ParsePair(s[3], s[4]), ParsePair(s[5], s[6]))
      case (Some(r), Some(g), Some(b)) => Some((r, g, b))
      case _ => None
  }

  lemma ChannelRoundTrip(n: int)
    requires 0 <= n <= 255
    ensures ParsePair(Channel(n)[0], Channel(n)[1]) == Some(n)
  {
    HexDigitValueOf(n / 16);
    HexDigitValueOf(n % 16);
  }

  /** Parsing three serialised channels gives back the three channel values. */
  lemma TripleRoundTrip(r: int, g: int, b: int)
    requires 0 <= r <= 255 && 0 <= g <= 255 && 0 <= b <= 255
    ensures ParseHex(HexTriple(Channel(r), Channel(g), Channel(b))) == Some((r, g, b))
  {
    var s := HexTriple(Channel(r), Channel(g), Channel(b));
    ChannelRoundTrip(r);
    ChannelRoundTrip(g);
    ChannelRoundTrip(b);
    assert s[1] == Channel(r)[0] && s[2] == Channel(r)[1];
    assert s[3] == Channel(g)[0] && s[4] == Channel(g)[1];
    assert s[5] == Channel(b)[0] && s[6] == Channel(b)[1];
  }

  /** Parsing the serialised colour gives back exactly the three clamped, rounded channels. */
  lemma RgbToHexRoundTrip(c: Rgb)
    ensures ParseHex(RgbToHex(c)) == Some((To255(c.r), To255(c.g), To255(c.b)))
  {
    TripleRoundTrip(To255(c.r), To255(c.g), To255(c.b));
  }
}
