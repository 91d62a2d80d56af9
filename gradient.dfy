/** The window's gradient background: two `#rrggbb` stops parsed channel by channel,
    each canvas row blended linearly between them and written back as `#%02x%02x%02x`. */
module Gradient {
  import opened Wrappers
  import opened Numerals
  import opened PyText

  /** One colour, channel by channel. */
  datatype Rgb = Rgb(red: nat, green: nat, blue: nat)

  /** A horizontal line drawn on the canvas from (x0, y) to (x1, y). */
  datatype Line = Line(x0: int, y0: int, x1: int, y1: int, fill: string)

  /** The two stops of the dark background, top then bottom. */
  const Colors: seq<string> := ["#2d2d2d", "#434343"]

  /** The channels of the two stops. */
  const Top := Rgb(0x2d, 0x2d, 0x2d)
  const Bottom := Rgb(0x43, 0x43, 0x43)

  /** A colour read the way the gradient reads it: `int(c[1:3], 16)`, `int(c[3:5], 16)`,
      `int(c[5:7], 16)`. The first character is not looked at and anything after the
      seventh is ignored; a slice that is empty or not hexadecimal is a ValueError (`None`). */
  function ParseColor(c: string): Option<Rgb>
  {
    var r := ParseHex(Slice(c, 1, 3));
    var g := ParseHex(Slice(c, 3, 5));
    var b := ParseHex(Slice(c, 5, 7));
    if r.Some? && g.Some? && b.Some? then Some(Rgb(r.value, g.value, b.value)) else None
  }

  /** `"#%02x%02x%02x" % (red, green, blue)`. */
  function FormatColor(c: Rgb): string
  {
    "#" + Hex02(c.red) + Hex02(c.green) + Hex02(c.blue)
  }

  /** Every channel fits in a byte. */
  predicate IsByteColor(c: Rgb)
  {
    c.red < 256 && c.green < 256 && c.blue < 256
  }

  /** `#` followed by six lower-case hexadecimal digits. */
  predicate IsHexColor(s: string)
  {
    |s| == 7 && s[0] == '#' && forall k :: 1 <= k < 7 ==> '0' <= s[k] <= '9' || 'a' <= s[k] <= 'f'
  }

  /** A byte colour is formatted as `#` and six lower-case hex digits that parse back to it. */
  lemma FormatParse(c: Rgb)
    requires IsByteColor(c)
    ensures IsHexColor(FormatColor(c))
    ensures ParseColor(FormatColor(c)) == Some(c)
  {
    var r, g, b := Hex02(c.red), Hex02(c.green), Hex02(c.blue);
    ParseHex02(c.red);
    ParseHex02(c.green);
    ParseHex02(c.blue);
    var s := FormatColor(c);
    assert s == "#" + r + g + b;
    assert s[1..3] == r;
    assert s[3..5] == g;
    assert s[5..7] == b;
    forall k | 1 <= k < 7 ensures '0' <= s[k] <= '9' || 'a' <= s[k] <= 'f' {
      if k < 3 { assert s[k] == r[k - 1]; }
      else if k < 5 { assert s[k] == g[k - 3]; }
      else { assert s[k] == b[k - 5]; }
    }
  }

  /** The value of two digits. */
  lemma TwoDigitValue(d0: nat, d1: nat, base: nat)
    ensures FromDigits([d0, d1], base) == d0 * base + d1
  {
    assert [d0, d1][..1] == [d0];
    assert [d0][..0] == [];
    assert FromDigits([d0], base) == d0;
  }

  /** The two stops of the background parse, channel by channel, to 0x2d and 0x43. */
  lemma ColorsParse()
    ensures ParseHex(Slice(Colors[0], 1, 3)) == Some(0x2d)
    ensures ParseHex(Slice(Colors[0], 3, 5)) == Some(0x2d)
    ensures ParseHex(Slice(Colors[0], 5, 7)) == Some(0x2d)
    ensures ParseHex(Slice(Colors[1], 1, 3)) == Some(0x43)
    ensures ParseHex(Slice(Colors[1], 3, 5)) == Some(0x43)
    ensures ParseHex(Slice(Colors[1], 5, 7)) == Some(0x43)
    ensures ParseColor(Colors[0]) == Some(Top) && ParseColor(Colors[1]) == Some(Bottom)
  {
    assert Slice(Colors[0], 1, 3) == Slice(Colors[0], 3, 5) == Slice(Colors[0], 5, 7) == "2d";
    assert Slice(Colors[1], 1, 3) == Slice(Colors[1], 3, 5) == Slice(Colors[1], 5, 7) == "43";
    assert seq(2, k requires 0 <= k < 2 => HexValue("2d"[k]).value) == [2, 13];
    assert seq(2, k requires 0 <= k < 2 => HexValue("43"[k]).value) == [4, 3];
    TwoDigitValue(2, 13, 16);
    TwoDigitValue(4, 3, 16);
  }

  /** The channel of row `i` of `height`: `(c0 * (height - i) + c1 * i) / height`. */
  function Blend(c0: nat, c1: nat, i: nat, height: nat): nat
    requires i < height
  {
    Weighted(c0, c1, i, height) / height
  }

  /** `c0 * (height - i) + c1 * i`: the two stops weighted by the row's distance from each end. */
  function Weighted(c0: nat, c1: nat, i: nat, height: nat): nat
    requires i <= height
  {
    var above: nat := c0 * (height - i);
    var below: nat := c1 * i;
    above + below
  }

  /** The colour of row `i` of `height`, channel by channel. */
  function RowColor(top: Rgb, bottom: Rgb, i: nat, height: nat): Rgb
    requires i < height
  {
    Rgb(Blend(top.red, bottom.red, i, height),
        Blend(top.green, bottom.green, i, height),
        Blend(top.blue, bottom.blue, i, height))
  }

  /** A positive multiple of `h` is at least `h`. */
  lemma {:induction false} MulAtLeast(x: int, h: nat)
    ensures x >= 1 ==> x * h >= h
  {
    if x > 1 {
      MulAtLeast(x - 1, h);
      assert x * h == (x - 1) * h + h;
    }
  }

  /** Multiplying by a natural number keeps the order. */
  lemma {:induction false} MulMonotone(x: nat, y: nat, m: nat)
    requires x <= y
    ensures x * m <= y * m
  {
    if m > 0 {
      MulMonotone(x, y, m - 1);
      assert x * m == x * (m - 1) + x;
      assert y * m == y * (m - 1) + y;
    }
  }

  /** The quotient of Euclidean division is the unique `q` with `a == q * h + r`, `0 <= r < h`. */
  lemma DivUnique(a: nat, h: nat, q: nat, r: nat)
    requires h > 0 && r < h && a == q * h + r
    ensures a / h == q
  {
    var q', r' := a / h, a % h;
    assert a == q' * h + r';
    MulAtLeast(q' - q, h);
    MulAtLeast(q - q', h);
    assert (q' - q) * h == q' * h - q * h;
  }

  /** Dividing by a positive number keeps the order of the dividends. */
  lemma DivMonotone(a: nat, b: nat, h: nat)
    requires h > 0 && a <= b
    ensures a / h <= b / h
  {
    var qa, qb := a / h, b / h;
    assert a == qa * h + a % h;
    assert b == qb * h + b % h;
    MulAtLeast(qa - qb, h);
    assert (qa - qb) * h == qa * h - qb * h;
  }

  /** A multiple of `h` divided by `h`. */
  lemma MulDiv(c: nat, h: nat)
    requires h > 0
    ensures (c * h) / h == c
  {
    DivUnique(c * h, h, c, 0);
  }

  /** The first row is the top colour exactly. */
  lemma BlendFirst(c0: nat, c1: nat, height: nat)
    requires height > 0
    ensures Blend(c0, c1, 0, height) == c0
  {
    MulDiv(c0, height);
  }

  /** Every row's channel lies between the two stops' channels. */
  lemma BlendBetween(c0: nat, c1: nat, i: nat, height: nat)
    requires i < height
    ensures c0 <= c1 ==> c0 <= Blend(c0, c1, i, height) <= c1
    ensures c1 <= c0 ==> c1 <= Blend(c0, c1, i, height) <= c0
  {
    var lo := if c0 <= c1 then c0 else c1;
    var hi := if c0 <= c1 then c1 else c0;
    var n := Weighted(c0, c1, i, height);
    MulMonotone(lo, c0, height - i);
    MulMonotone(c0, hi, height - i);
    MulMonotone(lo, c1, i);
    MulMonotone(c1, hi, i);
    assert lo * height == lo * (height - i) + lo * i;
    assert hi * height == hi * (height - i) + hi * i;
    DivMonotone(lo * height, n, height);
    DivMonotone(n, hi * height, height);
    MulDiv(lo, height);
    MulDiv(hi, height);
  }

  /** From row `i` to row `j` the weighted sum trades `j - i` shares of `c0` for as many of `c1`. */
  lemma WeightedStep(c0: nat, c1: nat, i: nat, j: nat, height: nat)
    requires i <= j <= height
    ensures Weighted(c0, c1, j, height) + c0 * (j - i) == Weighted(c0, c1, i, height) + c1 * (j - i)
  {
    assert c0 * (height - i) == c0 * (height - j) + c0 * (j - i);
    assert c1 * j == c1 * i + c1 * (j - i);
  }

  /** Down the canvas the channel moves monotonically from the top stop towards the bottom one. */
  lemma BlendMonotone(c0: nat, c1: nat, i: nat, j: nat, height: nat)
    requires i <= j < height
    ensures c0 <= c1 ==> Blend(c0, c1, i, height) <= Blend(c0, c1, j, height)
    ensures c1 <= c0 ==> Blend(c0, c1, j, height) <= Blend(c0, c1, i, height)
  {
    var wi, wj := Weighted(c0, c1, i, height), Weighted(c0, c1, j, height);
    WeightedStep(c0, c1, i, j, height);
    if c0 <= c1 {
      MulMonotone(c0, c1, j - i);
      DivMonotone(wi, wj, height);
    }
    if c1 <= c0 {
      MulMonotone(c1, c0, j - i);
      DivMonotone(wj, wi, height);
    }
  }

  /** `draw_gradient(canvas, width, height)`: one full-width line per row `i` in
      `range(height)`, filled with the row's blend of the two stops. A height of zero
      or less draws nothing. */
  method DrawGradient(width: int, height: int) returns (lines: seq<Line>)
    ensures |lines| == if height > 0 then height else 0
    ensures forall i :: 0 <= i < |lines| ==>
      lines[i] == Line(0, i, width, i, FormatColor(RowColor(Top, Bottom, i, height)))
  {
    var colors := Colors;
    ColorsParse();
    lines := [];
    var i := 0;
    while i < height
      invariant 0 <= i && (height > 0 ==> i <= height) && (height <= 0 ==> i == 0)
      invariant |lines| == i
      invariant forall k :: 0 <= k < i ==>
        lines[k] == Line(0, k, width, k, FormatColor(RowColor(Top, Bottom, k, height)))
    {
      var r0, r1 := ParseHex(Slice(colors[0], 1, 3)).value, ParseHex(Slice(colors[1], 1, 3)).value;
      var g0, g1 := ParseHex(Slice(colors[0], 3, 5)).value, ParseHex(Slice(colors[1], 3, 5)).value;
      var b0, b1 := ParseHex(Slice(colors[0], 5, 7)).value, ParseHex(Slice(colors[1], 5, 7)).value;
      var red := Blend(r0, r1, i, height);
      var green := Blend(g0, g1, i, height);
      var blue := Blend(b0, b1, i, height);
      var color := "#" + Hex02(red) + Hex02(green) + Hex02(blue);
      lines := lines + [Line(0, i, width, i, color)];
      i := i + 1;
    }
  }

  /** Every line the gradient draws is filled with `#` and six lower-case hex digits that
      parse back to that row's colour, every channel of which lies between 0x2d and 0x43. */
  lemma GradientFill(i: nat, height: nat)
    requires i < height
    ensures IsHexColor(FormatColor(RowColor(Top, Bottom, i, height)))
    ensures ParseColor(FormatColor(RowColor(Top, Bottom, i, height))) == Some(RowColor(Top, Bottom, i, height))
    ensures 0x2d <= RowColor(Top, Bottom, i, height).red <= 0x43
    ensures RowColor(Top, Bottom, i, height).green == RowColor(Top, Bottom, i, height).red
    ensures RowColor(Top, Bottom, i, height).blue == RowColor(Top, Bottom, i, height).red
  {
    BlendBetween(0x2d, 0x43, i, height);
    FormatParse(RowColor(Top, Bottom, i, height));
  }

  /** Going down the canvas, rows get lighter, never darker. */
  lemma GradientLightens(i: nat, j: nat, height: nat)
    requires i <= j < height
    ensures RowColor(Top, Bottom, i, height).red <= RowColor(Top, Bottom, j, height).red
  {
    BlendMonotone(0x2d, 0x43, i, j, height);
  }

  /** The first line is drawn in the top stop's own colour string. */
  lemma GradientFirstRow(height: nat)
    requires height > 0
    ensures FormatColor(RowColor(Top, Bottom, 0, height)) == Colors[0]
  {
    BlendFirst(0x2d, 0x2d, height);
    BlendFirst(0x2d, 0x43, height);
    assert RowColor(Top, Bottom, 0, height) == Top;
    TwoDigitValue(2, 13, 16);
    assert ToDigits(0x2d, 16) == [2, 13];
    assert Hex02(0x2d) == "2d";
  }
}
