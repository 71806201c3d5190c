/**
 * What a report renderer hands to the page-drawing library: each drawString
 * call as a line placed on a page, at a position, in the font in effect.
 * The library itself (PDF encoding, glyph metrics) is not part of this model.
 */
module Canvas {
  import opened Analysis

  datatype Face = Helvetica | HelveticaBold

  datatype Font = Font(face: Face, size: nat)

  /** The font a canvas starts with, and starts every new page with after showPage: Helvetica 12. */
  const InitialFont := Font(Helvetica, 12)

  /** A vertical position: absolute from the page bottom, or an offset below the page's top edge. */
  datatype Y = At(y: int) | BelowTop(offset: int)

  /** A value interpolated into an f-string; how Python renders it as text is not modelled. */
  datatype Shown =
    | ShowNat(n: nat)
    | ShowMean(m: Mean)
    | ShowCell(c: Cell)
    | ShowStr(s: string)
    | ShowTime(t: nat)
    | ShowAverages(a: Averages)
    | ShowDistribution(d: TypeDistribution)

  /** The text of a line: a literal, a literal followed by a value, or "key: value". */
  datatype Text = Plain(s: string) | Labelled(prefix: string, value: Shown) | Pair(key: Shown, value: Shown)

  /** One drawString call: the page it lands on (0 is the first), x, y, font and text. */
  datatype Line = Line(page: nat, x: int, y: Y, font: Font, text: Text)
}
