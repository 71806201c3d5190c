/**
 * `generate_pdf` (backend/equipment/utils_pdf.py): a single page with nine
 * fixed lines and then one line per entry of the type distribution's `raw`
 * dict, 18 units apart.  Heights are offsets below the top of the A4 page;
 * nothing ever starts a second page.
 */
module Pdf {
  import opened Analysis
  import opened Canvas
  import opened Datasets

  const TitleFont := Font(HelveticaBold, 16)
  const SectionFont := Font(HelveticaBold, 12)
  const BodyFont := Font(Helvetica, 11)

  /** Where the first distribution entry is drawn, below the top edge. */
  const FirstEntryOffset := 290
  /** The gap between distribution entries. */
  const EntryStep := 18

  /** The nine lines drawn before the distribution entries. */
  function FixedLines(d: Dataset): seq<Line> {
    var s := d.summary;
    [ Line(0, 50, BelowTop(50), TitleFont, Plain("Chemical Equipment Report")),
      Line(0, 50, BelowTop(90), BodyFont, Plain("Filename: " + d.filename)),
      Line(0, 50, BelowTop(110), BodyFont, Labelled("Uploaded At: ", ShowTime(d.uploadedAt))),
      Line(0, 50, BelowTop(150), SectionFont, Plain("Summary")),
      Line(0, 50, BelowTop(175), BodyFont, Labelled("Total Equipment: ", ShowNat(s.totalEquipment))),
      Line(0, 50, BelowTop(195), BodyFont, Labelled("Average Flowrate: ", ShowMean(s.averages.flowrate))),
      Line(0, 50, BelowTop(215), BodyFont, Labelled("Average Pressure: ", ShowMean(s.averages.pressure))),
      Line(0, 50, BelowTop(235), BodyFont, Labelled("Average Temperature: ", ShowMean(s.averages.temperature))),
      Line(0, 50, BelowTop(265), SectionFont, Plain("Equipment Type Distribution")) ]
  }

  /** `f"{k}: {v}"` for one entry of `raw`. */
  function EntryText(e: TypeCount): Text {
    Pair(ShowCell(e.kind), ShowNat(e.count))
  }

  /** The entry lines, the first one at the given offset. */
  function EntryLines(raw: seq<TypeCount>, offset: int): seq<Line>
    decreases |raw|
  {
    if raw == [] then []
    else [Line(0, 70, BelowTop(offset), BodyFont, EntryText(raw[0]))] + EntryLines(raw[1..], offset + EntryStep)
  }

  function PdfLines(d: Dataset): seq<Line> {
    FixedLines(d) + EntryLines(d.summary.typeDistribution.raw, FirstEntryOffset)
  }

  /** `generate_pdf`: the lines drawn and the number of showPage calls. */
  method GeneratePdf(d: Dataset) returns (lines: seq<Line>, showPages: nat)
    ensures lines == PdfLines(d)
    ensures showPages == 1
  {
    var s := d.summary;
    var font := TitleFont;
    lines := [Line(0, 50, BelowTop(50), font, Plain("Chemical Equipment Report"))];
    font := BodyFont;
    lines := lines + [Line(0, 50, BelowTop(90), font, Plain("Filename: " + d.filename))];
    lines := lines + [Line(0, 50, BelowTop(110), font, Labelled("Uploaded At: ", ShowTime(d.uploadedAt)))];
    var y := 150;
    font := SectionFont;
    lines := lines + [Line(0, 50, BelowTop(y), font, Plain("Summary"))];
    y := y + 25;
    font := BodyFont;
    lines := lines + [Line(0, 50, BelowTop(y), font, Labelled("Total Equipment: ", ShowNat(s.totalEquipment)))];
    y := y + 20;
    lines := lines + [Line(0, 50, BelowTop(y), font, Labelled("Average Flowrate: ", ShowMean(s.averages.flowrate)))];
    y := y + 20;
    lines := lines + [Line(0, 50, BelowTop(y), font, Labelled("Average Pressure: ", ShowMean(s.averages.pressure)))];
    y := y + 20;
    lines := lines + [Line(0, 50, BelowTop(y), font, Labelled("Average Temperature: ", ShowMean(s.averages.temperature)))];
    y := y + 30;
    font := SectionFont;
    lines := lines + [Line(0, 50, BelowTop(y), font, Plain("Equipment Type Distribution"))];
    y := y + 25;
    font := BodyFont;
    assert lines == FixedLines(d);

    var raw := s.typeDistribution.raw;
    var i := 0;
    while i < |raw|
      invariant 0 <= i <= |raw|
      invariant y == FirstEntryOffset + EntryStep * i && font == BodyFont
      invariant PdfLines(d) == lines + EntryLines(raw[i..], y)
    {
      assert raw[i..][1..] == raw[i + 1..];
      lines := lines + [Line(0, 70, BelowTop(y), font, EntryText(raw[i]))];
      y := y + EntryStep;
      i := i + 1;
    }
    showPages := 1;
  }

  /** Entry i sits at offset + 18 i, at x = 70, in the body font, in `raw` order. */
  lemma {:induction false} EntryLinesLayout(raw: seq<TypeCount>, offset: int)
    ensures |EntryLines(raw, offset)| == |raw|
    ensures forall i :: 0 <= i < |raw| ==>
              EntryLines(raw, offset)[i] == Line(0, 70, BelowTop(offset + EntryStep * i), BodyFont, EntryText(raw[i]))
    decreases |raw|
  {
    if raw != [] {
      EntryLinesLayout(raw[1..], offset + EntryStep);
    }
  }

  /**
   * The page: nine fixed lines at x = 50 and then one line per distribution
   * entry at x = 70, all on the first page, each strictly below the one before.
   */
  lemma PdfLayout(d: Dataset)
    ensures var lines := PdfLines(d);
            var raw := d.summary.typeDistribution.raw;
            && |lines| == 9 + |raw|
            && (forall i :: 0 <= i < |lines| ==> lines[i].page == 0 && lines[i].y.BelowTop?)
            && (forall i, j :: 0 <= i < j < |lines| ==> lines[i].y.offset < lines[j].y.offset)
            && (forall i :: 0 <= i < 9 ==> lines[i].x == 50)
            && (forall i :: 0 <= i < |raw| ==>
                  lines[9 + i] == Line(0, 70, BelowTop(290 + 18 * i), BodyFont, EntryText(raw[i])))
  {
    EntryLinesLayout(d.summary.typeDistribution.raw, FirstEntryOffset);
  }

  /** Fonts: bold 16 for the title, bold 12 for the two section headers, regular 11 for every other line. */
  lemma PdfFonts(d: Dataset)
    ensures var lines := PdfLines(d);
            && lines[0].font == Font(HelveticaBold, 16)
            && lines[3].font == Font(HelveticaBold, 12) && lines[8].font == Font(HelveticaBold, 12)
            && (forall i :: 0 <= i < |lines| && i != 0 && i != 3 && i != 8 ==> lines[i].font == Font(Helvetica, 11))
  {
    EntryLinesLayout(d.summary.typeDistribution.raw, FirstEntryOffset);
  }
}
