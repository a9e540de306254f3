/**
  The LED grid on screen: the rasteriser that paints 64 discs over a background, and the
  click test that finds the LED under the pointer.
*/
module LedRender {
  import opened RingArith

  const LED_NR := 64
  const LED_COLS := 8
  const LED_ROWS := 8

  /** A pixel of the frame buffer, in memory order. */
  datatype Pixel = Pixel(blue: nat, green: nat, red: nat, alpha: nat)

  datatype Color = Color(r: nat, g: nat, b: nat, a: nat)

  datatype Led = Led(on: bool, color: Color)

  datatype Grid = Grid(leds: seq<Led>, offColor: Color)

  datatype Circle = Circle(x: int, y: int, radius: int, color: Color)

  const BACKGROUND := Color(30, 40, 35, 255)

  predicate GridOk(g: Grid) {
    |g.leds| == LED_NR
  }

  function PixelOf(c: Color): Pixel {
    Pixel(c.b, c.g, c.r, c.a)
  }

  /** The colour LED `i` shows. */
  function Shown(g: Grid, i: nat): Color
    requires GridOk(g) && i < LED_NR
  {
    if g.leds[i].on then g.leds[i].color else g.offColor
  }

  /** The centre of cell `c` along an axis with cells `s` pixels long. */
  function Center(c: nat, s: nat): int {
    c * s + s / 2
  }

  /** Within distance `r` of the origin. */
  predicate Near(dx: int, dy: int, r: int) {
    dx * dx + dy * dy <= r * r
  }

  /** The disc drawn for LED `i` in a window `w` by `h`. */
  function Disc(g: Grid, w: nat, h: nat, i: nat): Circle
    requires GridOk(g) && i < LED_NR
  {
    var sx, sy := w / LED_COLS, h / LED_ROWS;
    Circle(Center(i % LED_COLS, sx), Center(i / LED_COLS, sy), w / (LED_COLS * 2), Shown(g, i))
  }

  predicate Inside(c: Circle, x: int, y: int) {
    Near(x - c.x, y - c.y, c.radius)
  }

  /** Where pixel (x, y) is in the buffer. */
  function Index(x: nat, y: nat, w: nat): nat {
    y * w + x
  }

  predicate InFrame(x: int, y: int, w: nat, h: nat) {
    0 <= x < w && 0 <= y < h
  }

  lemma IndexInBounds(x: nat, y: nat, w: nat, h: nat)
    requires InFrame(x, y, w, h)
    ensures Index(x, y, w) < w * h
  {
    MulMonotone(w, y + 1, h);
    assert w * (y + 1) == y * w + w;
  }

  lemma IndexDiffers(x: nat, y: nat, x': nat, y': nat, w: nat)
    requires x < w && x' < w && Index(x, y, w) == Index(x', y', w)
    ensures x == x' && y == y'
  {
    ModUnique(Index(x, y, w), w, y, x);
    ModUnique(Index(x', y', w), w, y', x');
  }

  lemma OthersDiffer(x: nat, y: nat, w: nat, h: nat)
    requires InFrame(x, y, w, h)
    ensures forall x': nat, y': nat | InFrame(x', y', w, h) && (x' != x || y' != y) ::
              Index(x', y', w) != Index(x, y, w)
  {
    forall x': nat, y': nat | InFrame(x', y', w, h) && (x' != x || y' != y)
      ensures Index(x', y', w) != Index(x, y, w)
    {
      if Index(x', y', w) == Index(x, y, w) {
        IndexDiffers(x, y, x', y', w);
      }
    }
  }

  /** Row by row, left to right: is pixel (x', y') drawn before (x, y)? */
  predicate Before(x': nat, y': nat, x: nat, y: nat) {
    y' < y || (y' == y && x' < x)
  }

  lemma FrameBounds(w: nat, h: nat)
    ensures forall x: nat, y: nat | InFrame(x, y, w, h) :: Index(x, y, w) < w * h
  {
    forall x: nat, y: nat | InFrame(x, y, w, h)
      ensures Index(x, y, w) < w * h
    {
      IndexInBounds(x, y, w, h);
    }
  }

  // ---- The rasteriser ------------------------------------------------------------------

  method ClearScreen(buf: array<Pixel>, w: nat, h: nat, color: Color)
    requires buf.Length == w * h
    modifies buf
    ensures forall x: nat, y: nat | InFrame(x, y, w, h) ::
              Index(x, y, w) < buf.Length && buf[Index(x, y, w)] == PixelOf(color)
  {
    FrameBounds(w, h);
    for y := 0 to h
      invariant forall x': nat, y': nat | InFrame(x', y', w, h) && y' < y ::
                  buf[Index(x', y', w)] == PixelOf(color)
    {
      for x := 0 to w
        invariant forall x': nat, y': nat | InFrame(x', y', w, h) && Before(x', y', x, y) ::
                    buf[Index(x', y', w)] == PixelOf(color)
      {
        OthersDiffer(x, y, w, h);
        buf[Index(x, y, w)] := PixelOf(color);
      }
    }
  }

  /** `draw_circle`: pixels no farther from the centre than the radius are painted over. */
  method DrawCircle(buf: array<Pixel>, w: nat, h: nat, circle: Circle)
    requires buf.Length == w * h
    modifies buf
    ensures forall x: nat, y: nat | InFrame(x, y, w, h) ::
              Index(x, y, w) < buf.Length
              && buf[Index(x, y, w)]
                 == if Inside(circle, x, y) then PixelOf(circle.color) else old(buf[Index(x, y, w)])
  {
    FrameBounds(w, h);
    hide Inside, Index;
    for y := 0 to h
      invariant forall x': nat, y': nat | InFrame(x', y', w, h) ::
                  buf[Index(x', y', w)]
                  == if y' < y && Inside(circle, x', y') then PixelOf(circle.color) else old(buf[Index(x', y', w)])
    {
      for x := 0 to w
        invariant forall x': nat, y': nat | InFrame(x', y', w, h) ::
                    buf[Index(x', y', w)]
                    == if Before(x', y', x, y) && Inside(circle, x', y') then PixelOf(circle.color)
                       else old(buf[Index(x', y', w)])
      {
        OthersDiffer(x, y, w, h);
        if !Inside(circle, x, y) {
          continue;
        }
        buf[Index(x, y, w)] := PixelOf(circle.color);
      }
    }
  }

  /** What pixel (x, y) holds after the first `n` discs have been painted over `under`. */
  function Painted(g: Grid, w: nat, h: nat, under: Pixel, x: int, y: int, n: nat): Pixel
    requires GridOk(g) && n <= LED_NR
  {
    if n == 0 then under
    else if Inside(Disc(g, w, h, n - 1), x, y) then PixelOf(Shown(g, n - 1))
    else Painted(g, w, h, under, x, y, n - 1)
  }

  method RenderLedGrid(buf: array<Pixel>, w: nat, h: nat, g: Grid)
    requires buf.Length == w * h && GridOk(g)
    modifies buf
    ensures forall x: nat, y: nat | InFrame(x, y, w, h) ::
              Index(x, y, w) < buf.Length
              && buf[Index(x, y, w)] == Painted(g, w, h, old(buf[Index(x, y, w)]), x, y, LED_NR)
  {
    FrameBounds(w, h);
    hide Near, Index;
    var ledRadius := w / (LED_COLS * 2);
    var spacingX := w / LED_COLS;
    var spacingY := h / LED_ROWS;
    for i := 0 to LED_NR
      invariant forall x: nat, y: nat | InFrame(x, y, w, h) ::
                  buf[Index(x, y, w)] == Painted(g, w, h, old(buf[Index(x, y, w)]), x, y, i)
    {
      var row, col := i / LED_COLS, i % LED_COLS;
      var centerX := col * spacingX + spacingX / 2;
      var centerY := row * spacingY + spacingY / 2;
      var color := if g.leds[i].on then g.leds[i].color else g.offColor;
      DrawCircle(buf, w, h, Circle(centerX, centerY, ledRadius, color));
    }
  }

  /** The final colour of pixel (x, y). */
  function Final(g: Grid, w: nat, h: nat, x: int, y: int): Pixel
    requires GridOk(g)
  {
    Painted(g, w, h, PixelOf(BACKGROUND), x, y, LED_NR)
  }

  /** `render_draw`, once it has a free buffer. */
  method RenderDraw(buf: array<Pixel>, w: nat, h: nat, g: Grid)
    requires buf.Length == w * h && GridOk(g)
    modifies buf
    ensures forall x: nat, y: nat | InFrame(x, y, w, h) ::
              Index(x, y, w) < buf.Length && buf[Index(x, y, w)] == Final(g, w, h, x, y)
  {
    ClearScreen(buf, w, h, BACKGROUND);
    RenderLedGrid(buf, w, h, g);
  }

  // ---- The click test ------------------------------------------------------------------

  /** `get_underlying_led`: the LED under a click at (x, y), or -1. */
  function LedAt(w: nat, h: nat, x: nat, y: nat, button: bool): int
    requires w >= LED_COLS && h >= LED_ROWS
  {
    if !button then -1 else
    var radius, sx, sy := w / (LED_COLS * 2), w / LED_COLS, h / LED_ROWS;
    var col, row := x / sx, y / sy;
    if !Near(x - Center(col, sx), y - Center(row, sy), radius) then -1 else
    var index := LED_COLS * row + col;
    if index >= LED_NR then -1 else index
  }

  /** The pixels of the 8 by 8 cells. */
  predicate InCells(w: nat, h: nat, x: nat, y: nat) {
    x < LED_COLS * (w / LED_COLS) && y < LED_ROWS * (h / LED_ROWS)
  }

  /** What a click at (x, y) ought to see. */
  function Expected(g: Grid, w: nat, h: nat, x: nat, y: nat): Pixel
    requires GridOk(g) && w >= LED_COLS && h >= LED_ROWS
  {
    var i := LedAt(w, h, x, y, true);
    if 0 <= i < LED_NR then PixelOf(Shown(g, i)) else PixelOf(BACKGROUND)
  }

  // ---- Geometry ------------------------------------------------------------------------

  /** Disc `i` covers (x, y), whatever it shows. */
  predicate Covers(w: nat, h: nat, i: nat, x: nat, y: nat) {
    Near(x - Center(i % LED_COLS, w / LED_COLS), y - Center(i / LED_COLS, h / LED_ROWS), w / (LED_COLS * 2))
  }

  lemma NearSpan(a: int, b: int, r: int)
    requires r >= 0 && Near(a, b, r)
    ensures -r <= a <= r && -r <= b <= r
    ensures a == r || a == -r ==> b == 0
    ensures b == r || b == -r ==> a == 0
  {
    NearAlong(a, b, r);
    NearAlong(b, a, r);
  }

  lemma NearAlong(a: int, b: int, r: int)
    requires r >= 0 && a * a + b * b <= r * r
    ensures -r <= a <= r
    ensures a == r || a == -r ==> b == 0
  {
    var m, k := if a < 0 then -a else a, if b < 0 then -b else b;
    assert a * a == m * m && b * b == k * k;
    if r < m {
      SquareGrows(r, m);
    } else if 0 < k && m == r {
      SquareGrows(0, k);
    }
  }

  lemma SquareGrows(a: int, b: int)
    requires 0 <= a < b
    ensures a * a < b * b
  {
    MulMonotone(a, a, b);
    MulMonotone(b, a + 1, b);
    assert b * (a + 1) == a * b + b;
  }

  lemma NearOnAxis(d: int, r: int)
    requires -r <= d <= r
    ensures Near(0, d, r) && Near(d, 0, r)
  {
    var m := if d < 0 then -d else d;
    assert d * d == m * m;
    assert m * m <= r * m <= r * r;
  }

  /** The cell of a coordinate is the only one whose span contains it. */
  lemma CellIs(x: nat, s: nat, c: nat)
    requires s > 0 && c * s <= x < c * s + s
    ensures x / s == c
  {
    assert x == s * c + (x - c * s);
    ModUnique(x, s, c, x - c * s);
  }

  /**
    Along one axis: a coordinate within `r` of the centre of cell `c` lies in that cell, or
    is the first of the next one, and then at distance exactly `r`.
  */
  lemma OneAxis(x: nat, s: nat, c: nat, r: int)
    requires s > 0 && 0 <= r <= s / 2
    requires -r <= x - Center(c, s) <= r
    ensures x / s == c
            || (x / s == c + 1 && x - Center(c, s) == r > 0 && x - Center(c + 1, s) == -r)
  {
    assert (c + 1) * s == c * s + s;
    if x < c * s + s {
      CellIs(x, s, c);
    } else {
      CellIs(x, s, c + 1);
    }
  }

  lemma CellOfPixel(x: nat, s: nat)
    requires s > 0 && x < 8 * s
    ensures x / s < 8
  {
    var q := x / s;
    assert x == s * q + x % s;
    if q >= 8 {
      MulMonotone(s, 8, q);
    }
  }

  /** The LED whose cell contains (x, y). */
  function CellLed(w: nat, h: nat, x: nat, y: nat): nat
    requires w >= LED_COLS && h >= LED_ROWS
  {
    LED_COLS * (y / (h / LED_ROWS)) + x / (w / LED_COLS)
  }

  /**
    If the window is at least as tall, in sixteenths, as it is wide, a disc that covers a
    pixel belongs to the pixel's cell, or touches it from the cell before, whose own disc
    is painted first and covers it too.
  */
  lemma OnlyOwnDisc(w: nat, h: nat, x: nat, y: nat, i: nat)
    requires w >= LED_COLS && h >= LED_ROWS && w / 16 <= h / 16
    requires InCells(w, h, x, y) && i < LED_NR && Covers(w, h, i, x, y)
    ensures CellLed(w, h, x, y) < LED_NR
    ensures i == CellLed(w, h, x, y)
            || (i < CellLed(w, h, x, y) && Covers(w, h, CellLed(w, h, x, y), x, y))
  {
    hide Near, Center;
    var sx, sy, r := w / LED_COLS, h / LED_ROWS, w / 16;
    var col, row, k := i % LED_COLS, i / LED_COLS, CellLed(w, h, x, y);
    CellOfPixel(x, sx);
    CellOfPixel(y, sy);
    NearSpan(x - Center(col, sx), y - Center(row, sy), r);
    OneAxis(x, sx, col, r);
    OneAxis(y, sy, row, r);
    NearOnAxis(-r, r);
    if x / sx == col + 1 {
      assert y / sy == row;
      assert k % LED_COLS == col + 1 && k / LED_COLS == row;
    } else if y / sy == row + 1 {
      assert k % LED_COLS == col && k / LED_COLS == row + 1;
    }
  }

  lemma CellParts(row: nat, col: nat)
    requires row < LED_ROWS && col < LED_COLS
    ensures var k := LED_COLS * row + col;
            k < LED_NR && k % LED_COLS == col && k / LED_COLS == row
  {
  }

  /** The click test answers with the pixel's cell exactly when that cell's disc covers it. */
  lemma LedAtIs(w: nat, h: nat, x: nat, y: nat)
    requires w >= LED_COLS && h >= LED_ROWS && InCells(w, h, x, y)
    ensures CellLed(w, h, x, y) < LED_NR
    ensures LedAt(w, h, x, y, true)
            == if Covers(w, h, CellLed(w, h, x, y), x, y) then CellLed(w, h, x, y) else -1
  {
    hide Near, Center;
    var sx, sy, k := w / LED_COLS, h / LED_ROWS, CellLed(w, h, x, y);
    CellOfPixel(x, sx);
    CellOfPixel(y, sy);
    CellParts(y / sy, x / sx);
    assert k == LED_COLS * (y / sy) + x / sx;
    hide CellLed;
  }

  lemma {:induction false} PaintedNothing(g: Grid, w: nat, h: nat, under: Pixel, x: nat, y: nat, n: nat)
    requires GridOk(g) && n <= LED_NR
    requires forall i: nat | i < n :: !Covers(w, h, i, x, y)
    ensures Painted(g, w, h, under, x, y, n) == under
  {
    if n > 0 {
      assert !Covers(w, h, n - 1, x, y);
      PaintedNothing(g, w, h, under, x, y, n - 1);
    }
  }

  /** The last disc over a pixel decides it. */
  lemma {:induction false} PaintedLast(g: Grid, w: nat, h: nat, under: Pixel, x: nat, y: nat, k: nat, n: nat)
    requires GridOk(g) && k < n <= LED_NR && Covers(w, h, k, x, y)
    requires forall i: nat | k < i < n :: !Covers(w, h, i, x, y)
    ensures Painted(g, w, h, under, x, y, n) == PixelOf(Shown(g, k))
  {
    if k < n - 1 {
      assert !Covers(w, h, n - 1, x, y);
      PaintedLast(g, w, h, under, x, y, k, n - 1);
    }
  }

  /** Whatever disc covers a pixel, its colour comes from that one or one painted later. */
  lemma {:induction false} PaintedFrom(g: Grid, w: nat, h: nat, under: Pixel, x: nat, y: nat, j: nat, n: nat)
    requires GridOk(g) && j < n <= LED_NR && Covers(w, h, j, x, y)
    ensures exists k: nat :: j <= k < n && Painted(g, w, h, under, x, y, n) == PixelOf(Shown(g, k))
  {
    if Covers(w, h, n - 1, x, y) {
      assert Painted(g, w, h, under, x, y, n) == PixelOf(Shown(g, n - 1));
    } else {
      PaintedFrom(g, w, h, under, x, y, j, n - 1);
      var k: nat :| j <= k < n - 1 && Painted(g, w, h, under, x, y, n - 1) == PixelOf(Shown(g, k));
      assert Painted(g, w, h, under, x, y, n) == PixelOf(Shown(g, k));
    }
  }

  /** The screen and the click test agree on every pixel, whatever the LEDs show. */
  lemma ClickSeesPixel(g: Grid, w: nat, h: nat, x: nat, y: nat)
    requires GridOk(g) && w >= LED_COLS && h >= LED_ROWS && w / 16 <= h / 16
    requires InCells(w, h, x, y)
    ensures Final(g, w, h, x, y) == Expected(g, w, h, x, y)
  {
    var k := CellLed(w, h, x, y);
    LedAtIs(w, h, x, y);
    forall i: nat | i < LED_NR && Covers(w, h, i, x, y)
      ensures i == k || (i < k && Covers(w, h, k, x, y))
    {
      OnlyOwnDisc(w, h, x, y, i);
    }
    if Covers(w, h, k, x, y) {
      PaintedLast(g, w, h, PixelOf(BACKGROUND), x, y, k, LED_NR);
    } else {
      PaintedNothing(g, w, h, PixelOf(BACKGROUND), x, y, LED_NR);
    }
  }

  /** A pixel in memory order: blue, green, red, alpha. */
  predicate HasColor(p: Pixel, c: Color) {
    p.blue == c.b && p.green == c.g && p.red == c.r && p.alpha == c.a
  }

  /** Along one axis: coordinate `x` is the i-th of cell `c`. */
  predicate InCell(x: nat, s: nat, c: nat, i: nat) {
    i < s && x == c * s + i
  }

  lemma InCellIs(x: nat, s: nat, c: nat, i: nat)
    requires InCell(x, s, c, i) && c < 8
    ensures s > 0 && x / s == c && x < 8 * s && x - Center(c, s) == i - s / 2
  {
    CellIs(x, s, c);
    MulMonotone(s, c + 1, 8);
    assert s * (c + 1) == c * s + s;
  }

  /**
    Screen and click test, from the numbers of the window alone: the pixel i to the right and
    j down in the cell of row and column shows LED 8 * row + column, in its own colour if that
    is on and in the common one if it is off, within w / 16 of the middle of the cell, and the
    background elsewhere; and that LED, or none, is what a click there hits.
  */
  lemma ScreenIs(g: Grid, w: nat, h: nat, x: nat, y: nat, row: nat, col: nat, i: nat, j: nat)
    requires GridOk(g) && w >= 8 && h >= 8 && w / 16 <= h / 16
    requires row < 8 && col < 8 && InCell(x, w / 8, col, i) && InCell(y, h / 8, row, j)
    ensures var led, dx, dy, r := 8 * row + col, i - w / 8 / 2, j - h / 8 / 2, w / 16;
      if dx * dx + dy * dy <= r * r
      then HasColor(Final(g, w, h, x, y), if g.leds[led].on then g.leds[led].color else g.offColor)
           && LedAt(w, h, x, y, true) == led
      else Final(g, w, h, x, y) == Pixel(35, 40, 30, 255) && LedAt(w, h, x, y, true) == -1
  {
    InCellIs(x, w / 8, col, i);
    InCellIs(y, h / 8, row, j);
    CellParts(row, col);
    hide InCell;
    LedAtIs(w, h, x, y);
    ClickSeesPixel(g, w, h, x, y);
    assert CellLed(w, h, x, y) == 8 * row + col;
    assert Covers(w, h, 8 * row + col, x, y) <==> Near(i - w / 8 / 2, j - h / 8 / 2, w / 16);
    hide Final, LedAt, Center, Covers, CellLed;
  }

  /** The screen and the click test agree everywhere, for all LED colours. */
  ghost predicate AgreeEverywhere(w: nat, h: nat)
    requires w >= LED_COLS && h >= LED_ROWS
  {
    forall g: Grid, x: nat, y: nat | GridOk(g) && InCells(w, h, x, y) ::
      Final(g, w, h, x, y) == Expected(g, w, h, x, y)
  }

  /** A grid whose first LED is white and whose others are black. */
  function FirstWhite(): (g: Grid)
    ensures GridOk(g)
  {
    Grid([Led(true, Color(255, 255, 255, 255))] + seq(LED_NR - 1, i => Led(true, Color(0, 0, 0, 255))),
         Color(0, 0, 0, 255))
  }

  /** In a window too wide for its height, the bottom of the first cell shows the disc below it. */
  lemma WideWindowDisagrees(w: nat, h: nat)
    requires w >= LED_COLS && h >= LED_ROWS && w / 16 > h / 16
    ensures var x, y := w / LED_COLS / 2, h / LED_ROWS - 1;
      && InCells(w, h, x, y)
      && Final(FirstWhite(), w, h, x, y) != Expected(FirstWhite(), w, h, x, y)
  {
    var sx, sy := w / LED_COLS, h / LED_ROWS;
    var x, y := sx / 2, sy - 1;
    CellIs(x, sx, 0);
    CellIs(y, sy, 0);
    LedAtIs(w, h, x, y);
    NearOnAxis(sy - 1 - sy / 2, w / 16);
    NearOnAxis(-1 - sy / 2, w / 16);
    assert CellLed(w, h, x, y) == 0;
    assert Covers(w, h, 0, x, y);
    assert Covers(w, h, 8, x, y);
    PaintedFrom(FirstWhite(), w, h, PixelOf(BACKGROUND), x, y, 8, LED_NR);
  }

  /** Screen and click test agree exactly when the window is at least as tall as wide, in sixteenths. */
  lemma AgreeWhen(w: nat, h: nat)
    requires w >= LED_COLS && h >= LED_ROWS
    ensures AgreeEverywhere(w, h) <==> w / 16 <= h / 16
  {
    if w / 16 <= h / 16 {
      forall g: Grid, x: nat, y: nat | GridOk(g) && InCells(w, h, x, y)
        ensures Final(g, w, h, x, y) == Expected(g, w, h, x, y)
      {
        ClickSeesPixel(g, w, h, x, y);
      }
    } else {
      WideWindowDisagrees(w, h);
    }
  }
}
