/** The hue shared by every lit cell, advanced once per tick
    (src/App.jsx:21, 42). */
module Hue {

  /** Degrees the hue moves per tick. */
  const HUE_STEP := 5

  /** Degrees in a full turn of the colour wheel. */
  const HUE_CIRCLE := 360

  /** Ticks per full turn: HUE_CIRCLE / HUE_STEP. */
  const TICKS_PER_TURN := 72

  /** The hue one tick later: five degrees on, wrapping at 360. */
  function NextHue(h: nat): (r: nat)
    ensures r < HUE_CIRCLE
    ensures h + HUE_STEP < HUE_CIRCLE ==> r == h + HUE_STEP
    ensures HUE_CIRCLE <= h + HUE_STEP < 2 * HUE_CIRCLE ==> r == h + HUE_STEP - HUE_CIRCLE
  {
    (h + HUE_STEP) % HUE_CIRCLE
  }

  /** The hue after n ticks. */
  function HueAfter(h: nat, n: nat): nat {
    if n == 0 then h else NextHue(HueAfter(h, n - 1))
  }

  /** Adding to a remainder and reducing again is reducing the sum. */
  lemma ModAdd(a: nat, s: nat)
    ensures (a % HUE_CIRCLE + s) % HUE_CIRCLE == (a + s) % HUE_CIRCLE
  {
    var q := a / HUE_CIRCLE;
    assert a == q * HUE_CIRCLE + a % HUE_CIRCLE;
    assert a + s == (a % HUE_CIRCLE + s) + q * HUE_CIRCLE;
    ModShift(a % HUE_CIRCLE + s, q);
  }

  lemma {:induction false} ModShift(x: nat, q: nat)
    ensures (x + q * HUE_CIRCLE) % HUE_CIRCLE == x % HUE_CIRCLE
  {
    if q > 0 {
      ModShift(x, q - 1);
      assert x + q * HUE_CIRCLE == (x + (q - 1) * HUE_CIRCLE) + HUE_CIRCLE;
    }
  }

  /** After n ticks a hue that started on the wheel has moved 5n degrees
      round it. */
  lemma {:induction false} HueAfterOffset(h: nat, n: nat)
    requires h < HUE_CIRCLE
    ensures HueAfter(h, n) == (h + HUE_STEP * n) % HUE_CIRCLE
  {
    if n > 0 {
      HueAfterOffset(h, n - 1);
      ModAdd(h + HUE_STEP * (n - 1), HUE_STEP);
    }
  }

  /** 72 ticks bring the hue back to where it started, and no fewer do. */
  lemma HueCycle(h: nat, n: nat)
    requires h < HUE_CIRCLE
    requires 0 < n <= TICKS_PER_TURN
    ensures HueAfter(h, n) == h <==> n == TICKS_PER_TURN
  {
    HueAfterOffset(h, n);
    if n == TICKS_PER_TURN {
      ModShift(h, 1);
    }
  }
}

/** How a cell is painted (src/App.jsx:138-141). */
module Colour {
  import RainGrid

  /** Either unlit, or an HSL colour (hue in degrees, saturation and
      lightness in percent). */
  datatype Colour = Black | Hsl(hue: nat, saturation: nat, lightness: int)

  /** Lightness of a cell: a base of 15% plus 15% per unit of intensity. */
  function Lightness(cell: int): int {
    15 + cell * 15
  }

  /** The colour of a cell under the current hue: black when unlit, full
      saturation at the cell's lightness otherwise. */
  function CellColour(cell: int, hue: nat): (c: Colour)
    ensures c == Black <==> cell <= 0
    ensures c.Hsl? ==> c.hue == hue && c.saturation == 100 && c.lightness == Lightness(cell)
  {
    if cell > 0 then Hsl(hue, 100, Lightness(cell)) else Black
  }

  /** An unlit cell is black; a lit cell in bounds is painted with the
      current hue at a lightness between 30% and 90%. */
  lemma CellColourRange(cell: int, hue: nat)
    requires 0 <= cell <= RainGrid.MAX_INTENSITY
    ensures cell == 0 <==> CellColour(cell, hue) == Black
    ensures cell > 0 ==>
      && CellColour(cell, hue).Hsl?
      && CellColour(cell, hue).hue == hue
      && 30 <= CellColour(cell, hue).lightness <= 90
  {
  }

  /** Brighter intensities are painted lighter, so every fade stage of a
      streak shows as a distinct colour. */
  lemma BrighterIsLighter(c1: int, c2: int, hue: nat)
    requires 0 <= c1 < c2 <= RainGrid.MAX_INTENSITY
    ensures CellColour(c1, hue) != CellColour(c2, hue)
    ensures c1 > 0 ==> CellColour(c1, hue).lightness < CellColour(c2, hue).lightness
  {
  }
}
