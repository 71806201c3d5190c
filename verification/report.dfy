/**
 * The report that `download_report` (backend/equipment/views.py) draws for a
 * stored dataset: four header lines at fixed heights, then one line per
 * summary item, 20 units apart, starting a new page whenever the cursor
 * drops below 100.
 */
module Report {
  import opened Analysis
  import opened Canvas
  import opened Datasets

  /** The cursor after a page break, and where the title is drawn. */
  const Top := 800
  /** The cursor may not stay below this; an item is never drawn lower. */
  const Margin := 100
  /** The drop after each summary item. */
  const Step := 20
  /** Where the first summary item is drawn. */
  const FirstItemY := 670

  const BodyFont := Font(Helvetica, 11)

  /** One entry of the summary dict. */
  datatype Item = Item(key: string, value: Shown)

  /** `dataset.summary.items()`: the summary's keys in the order analyze_csv writes them. */
  function SummaryItems(s: Summary): seq<Item> {
    [ Item("total_equipment", ShowNat(s.totalEquipment)),
      Item("averages", ShowAverages(s.averages)),
      Item("type_distribution", ShowDistribution(s.typeDistribution)) ]
  }

  /** `f"{key}: {value}"` */
  function ItemText(item: Item): Text {
    Pair(ShowStr(item.key), item.value)
  }

  /**
   * The item lines, the cursor starting at y on the given page in the given
   * font. The loop never sets the font again, so after a page break the
   * items are drawn in the font the new page starts with.
   */
  function ItemLines(items: seq<Item>, y: int, page: nat, font: Font): seq<Line>
    requires Margin <= y <= Top
    decreases |items|
  {
    if items == [] then []
    else
      var line := Line(page, 70, At(y), font, ItemText(items[0]));
      if y - Step < Margin then [line] + ItemLines(items[1..], Top, page + 1, InitialFont)
      else [line] + ItemLines(items[1..], y - Step, page, font)
  }

  /** The number of page breaks (showPage calls) the item loop makes. */
  function ItemBreaks(items: seq<Item>, y: int): nat
    requires Margin <= y <= Top
    decreases |items|
  {
    if items == [] then 0
    else if y - Step < Margin then 1 + ItemBreaks(items[1..], Top)
    else ItemBreaks(items[1..], y - Step)
  }

  function HeaderLines(d: Dataset): seq<Line> {
    [ Line(0, 50, At(800), Font(HelveticaBold, 16), Plain("Dataset Report")),
      Line(0, 50, At(760), Font(Helvetica, 12), Plain("Filename: " + d.filename)),
      Line(0, 50, At(735), Font(Helvetica, 12), Labelled("Uploaded: ", ShowTime(d.uploadedAt))),
      Line(0, 50, At(695), Font(HelveticaBold, 14), Plain("Summary Statistics")) ]
  }

  /** The whole report for one dataset. */
  function ReportLines(d: Dataset): seq<Line> {
    HeaderLines(d) + ItemLines(SummaryItems(d.summary), FirstItemY, 0, BodyFont)
  }

  /** The title and the three header lines of `download_report`, with the cursor and font they leave. */
  method DrawHeader(d: Dataset) returns (lines: seq<Line>, y: int, font: Font)
    ensures lines == HeaderLines(d)
    ensures y == FirstItemY && font == BodyFont
  {
    y := 800;
    font := Font(HelveticaBold, 16);
    lines := [Line(0, 50, At(y), font, Plain("Dataset Report"))];
    y := y - 40;
    font := Font(Helvetica, 12);
    lines := lines + [Line(0, 50, At(y), font, Plain("Filename: " + d.filename))];
    y := y - 25;
    lines := lines + [Line(0, 50, At(y), font, Labelled("Uploaded: ", ShowTime(d.uploadedAt)))];
    y := y - 40;
    font := Font(HelveticaBold, 14);
    lines := lines + [Line(0, 50, At(y), font, Plain("Summary Statistics"))];
    y := y - 25;
    font := Font(Helvetica, 11);
  }

  /** The item loop of `download_report`: one line per item, a new page when the cursor drops below the margin. */
  method DrawItems(items: seq<Item>, y0: int, font0: Font) returns (lines: seq<Line>, breaks: nat)
    requires Margin <= y0 <= Top
    ensures lines == ItemLines(items, y0, 0, font0)
    ensures breaks == ItemBreaks(items, y0)
  {
    var y := y0;
    var font := font0;
    var page := 0;
    lines := [];
    breaks := 0;
    var i := 0;
    while i < |items|
      invariant 0 <= i <= |items|
      invariant Margin <= y <= Top && breaks == page
      invariant ItemLines(items, y0, 0, font0) == lines + ItemLines(items[i..], y, page, font)
      invariant ItemBreaks(items, y0) == breaks + ItemBreaks(items[i..], y)
    {
      assert items[i..][1..] == items[i + 1..];
      lines := lines + [Line(page, 70, At(y), font, ItemText(items[i]))];
      y := y - Step;
      if y < Margin {
        page := page + 1;
        breaks := breaks + 1;
        font := InitialFont;
        y := Top;
      }
      i := i + 1;
    }
  }

  /** The body of `download_report` after the lookup: draws the report, returns its lines and page breaks. */
  method RenderReport(d: Dataset) returns (lines: seq<Line>, breaks: nat)
    ensures lines == ReportLines(d)
    ensures breaks == ItemBreaks(SummaryItems(d.summary), FirstItemY)
  {
    var header, y, font := DrawHeader(d);
    var body;
    body, breaks := DrawItems(SummaryItems(d.summary), y, font);
    lines := header + body;
  }

  /** The page an item lands on: y0 is the cursor at the first item, page0 its page. */
  function SlotPage(y0: int, page0: nat, i: nat): nat
    requires Margin <= y0 <= Top
  {
    var fit := (y0 - Margin) / Step + 1;
    if i < fit then page0 else page0 + 1 + (i - fit) / 36
  }

  /** The height an item is drawn at: never below the margin, never above the top. */
  function SlotY(y0: int, i: nat): (y: int)
    requires Margin <= y0 <= Top
    ensures Margin <= y <= Top
  {
    var fit := (y0 - Margin) / Step + 1;
    if i < fit then y0 - Step * i else Top - Step * ((i - fit) % 36)
  }

  /** The font an item is drawn in: the starting font on the starting page, the initial font after a break. */
  function SlotFont(y0: int, font0: Font, i: nat): Font
    requires Margin <= y0 <= Top
  {
    var fit := (y0 - Margin) / Step + 1;
    if i < fit then font0 else InitialFont
  }

  /** After a step within the page, item i's slot is item i - 1's slot from the lower cursor. */
  lemma SlotAfterStep(y: int, page: nat, font: Font, i: nat)
    requires Margin <= y - Step && y <= Top && 1 <= i
    ensures SlotPage(y - Step, page, i - 1) == SlotPage(y, page, i)
    ensures SlotY(y - Step, i - 1) == SlotY(y, i)
    ensures SlotFont(y - Step, font, i - 1) == SlotFont(y, font, i)
  {
    assert (y - Step - Margin) / Step + 1 == (y - Margin) / Step;
  }

  /** After a page break, item i's slot is item i - 1's slot from the top of the next page. */
  lemma SlotAfterBreak(y: int, page: nat, font: Font, i: nat)
    requires Margin <= y < Margin + Step && 1 <= i
    ensures SlotPage(Top, page + 1, i - 1) == SlotPage(y, page, i)
    ensures SlotY(Top, i - 1) == SlotY(y, i)
    ensures SlotFont(Top, InitialFont, i - 1) == SlotFont(y, font, i)
  {
    assert (y - Margin) / Step == 0;
    assert (Top - Margin) / Step + 1 == 36;
    var j := i - 1;
    if j >= 36 {
      assert (j - 36) / 36 == j / 36 - 1;
      assert (j - 36) % 36 == j % 36;
    }
  }

  /** The loop's page breaks, counted: the page the next item would land on. */
  lemma {:induction false} ItemBreaksCount(items: seq<Item>, y: int, page: nat)
    requires Margin <= y <= Top
    ensures page + ItemBreaks(items, y) == SlotPage(y, page, |items|)
    decreases |items|
  {
    if items != [] {
      var n := |items|;
      if y - Step < Margin {
        ItemBreaksCount(items[1..], Top, page + 1);
        SlotAfterBreak(y, page, BodyFont, n);
      } else {
        ItemBreaksCount(items[1..], y - Step, page);
        SlotAfterStep(y, page, BodyFont, n);
      }
    }
  }

  /**
   * Pagination in closed form: the first (y0 - 100) / 20 + 1 items fill the
   * starting page 20 apart in the starting font; after that, full pages of 36
   * items from 800 down to 100, in the initial font.
   */
  lemma {:induction false} ItemLinesLayout(items: seq<Item>, y: int, page: nat, font: Font)
    requires Margin <= y <= Top
    ensures |ItemLines(items, y, page, font)| == |items|
    ensures forall i :: 0 <= i < |items| ==>
              ItemLines(items, y, page, font)[i]
                == Line(SlotPage(y, page, i), 70, At(SlotY(y, i)), SlotFont(y, font, i), ItemText(items[i]))
    decreases |items|
  {
    if items != [] {
      var rest := items[1..];
      var lines := ItemLines(items, y, page, font);
      var breaking := y - Step < Margin;
      var y' := if breaking then Top else y - Step;
      var page' := if breaking then page + 1 else page;
      var font' := if breaking then InitialFont else font;
      assert lines == [Line(page, 70, At(y), font, ItemText(items[0]))] + ItemLines(rest, y', page', font');
      ItemLinesLayout(rest, y', page', font');
      forall i | 1 <= i < |items|
        ensures lines[i] == Line(SlotPage(y, page, i), 70, At(SlotY(y, i)), SlotFont(y, font, i), ItemText(items[i]))
      {
        assert lines[i] == ItemLines(rest, y', page', font')[i - 1];
        if breaking {
          SlotAfterBreak(y, page, font, i);
        } else {
          SlotAfterStep(y, page, font, i);
        }
      }
    }
  }

  /** The report's header is fixed; the summary's three items follow 20 apart from 670 on the first page, with no page break. */
  lemma ReportLayout(d: Dataset)
    ensures var lines := ReportLines(d);
            && |lines| == 7
            && lines[0] == Line(0, 50, At(800), Font(HelveticaBold, 16), Plain("Dataset Report"))
            && lines[1] == Line(0, 50, At(760), Font(Helvetica, 12), Plain("Filename: " + d.filename))
            && lines[2] == Line(0, 50, At(735), Font(Helvetica, 12), Labelled("Uploaded: ", ShowTime(d.uploadedAt)))
            && lines[3] == Line(0, 50, At(695), Font(HelveticaBold, 14), Plain("Summary Statistics"))
            && (forall i :: 0 <= i < 3 ==>
                  lines[4 + i] == Line(0, 70, At(670 - 20 * i), BodyFont, ItemText(SummaryItems(d.summary)[i])))
    ensures ItemBreaks(SummaryItems(d.summary), FirstItemY) == 0
  {
    ItemLinesLayout(SummaryItems(d.summary), FirstItemY, 0, BodyFont);
    var items := SummaryItems(d.summary);
    assert items[1..][1..][1..] == [];
    assert ItemBreaks(items[1..][1..], 630) == ItemBreaks([], 610) == 0;
    assert ItemBreaks(items[1..], 650) == 0;
  }
}
