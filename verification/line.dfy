/**
 * The segment renderer: colours and separators are prepared once by
 * `UpdateStyle`; `Create` lays out the timezone, date and time against the
 * column count, padding with spaces on the side the alignment asks for.
 */
module Line {
  import opened Text
  import opened Palette

  datatype TextAlign = Right | Left | Center

  /** Columns taken by the separators and spaces, counting every character as one column. */
  const BaseWidth: int := 9

  /** The `text_align` setting: "right", "left" or "center", anything else meaning right. */
  function ParseTextAlign(s: string): (a: TextAlign)
    ensures a == Left <==> s == "left"
    ensures a == Center <==> s == "center"
    ensures a == Right <==> s != "left" && s != "center"
  {
    if s == "right" then Right
    else if s == "left" then Left
    else if s == "center" then Center
    else Right
  }

  /** The approximate display width: one column per ASCII character, two for any other. */
  function DisplayWidth(s: string): nat {
    if s == [] then 0 else (if IsAscii(s[0]) then 1 else 2) + DisplayWidth(s[1..])
  }

  /** Each character takes one or two columns, and one exactly when the text is ASCII. */
  lemma {:induction false} DisplayWidthBounds(s: string)
    ensures |s| <= DisplayWidth(s) <= 2 * |s|
    ensures DisplayWidth(s) == |s| <==> AllAscii(s)
  {
    if s != [] {
      DisplayWidthBounds(s[1..]);
      assert AllAscii(s) <==> IsAscii(s[0]) && AllAscii(s[1..]);
    }
  }

  lemma {:induction false} DisplayWidthConcat(a: string, b: string)
    ensures DisplayWidth(a + b) == DisplayWidth(a) + DisplayWidth(b)
  {
    if a == [] {
      assert a + b == b;
    } else {
      assert (a + b)[1..] == a[1..] + b;
      DisplayWidthConcat(a[1..], b);
    }
  }

  /** The width a row needs before padding: label, date, time and the budget for separators. */
  function OccupiedWidth(timezone: string, date: string, time: string, budget: int): int {
    DisplayWidth(timezone) + Utf8Len(date) + Utf8Len(time) + budget
  }

  /**
   * The size of one padding run for a positive surplus of columns: all of
   * it on one side, or half of it (rounded down) on each side when centred.
   */
  function PaddingSize(align: TextAlign, surplus: int): (n: nat)
    requires surplus > 0
    ensures align != Center ==> n == surplus
    ensures align == Center ==> n + n <= surplus <= n + n + 1
  {
    if align == Center then surplus / 2 else surplus
  }

  /** The space cell that separates fields, painted in the background colour. */
  function SpaceCell(paint: Painter, background: PaletteColor): string {
    paint(background, background, false, " ")
  }

  /**
   * The three pre-painted separators (lead, middle, tail). The lead glyph is
   * followed by a space for right and centre alignment and preceded by one
   * for left alignment; the two others sit between two spaces.
   */
  function Separators(paint: Painter, background: PaletteColor, pane: PaletteColor,
                      glyphs: (string, string, string), align: TextAlign): (r: (string, string, string))
    ensures Plain(paint) ==> DisplayWidth(r.0) == DisplayWidth(glyphs.0) + 1
    ensures Plain(paint) ==> DisplayWidth(r.1) == DisplayWidth(glyphs.1) + 2
    ensures Plain(paint) ==> DisplayWidth(r.2) == DisplayWidth(glyphs.2) + 2
  {
    var space := SpaceCell(paint, background);
    var lead := paint(background, pane, true, glyphs.0);
    var middle := paint(pane, background, true, glyphs.1);
    var tail := paint(pane, background, true, glyphs.2);
    DisplayWidthConcat(space, lead);
    DisplayWidthConcat(lead, space);
    DisplayWidthConcat(space, middle);
    DisplayWidthConcat(space + middle, space);
    DisplayWidthConcat(space, tail);
    DisplayWidthConcat(space + tail, space);
    (if align == Left then space + lead else lead + space,
     space + middle + space,
     space + tail + space)
  }

  /**
   * With single-character ASCII glyphs, the separators and the trailing
   * space take exactly the unadjusted width budget of 9 columns.
   */
  lemma SeparatorsFitBudget(paint: Painter, background: PaletteColor, pane: PaletteColor,
                            glyphs: (string, string, string), align: TextAlign)
    requires Plain(paint)
    requires |glyphs.0| == 1 && |glyphs.1| == 1 && |glyphs.2| == 1
    requires AllAscii(glyphs.0) && AllAscii(glyphs.1) && AllAscii(glyphs.2)
    ensures var r := Separators(paint, background, pane, glyphs, align);
      DisplayWidth(r.0) + DisplayWidth(r.1) + DisplayWidth(r.2)
        + DisplayWidth(SpaceCell(paint, background)) == BaseWidth
  {
    assert SpaceCell(paint, background) == " ";
    DisplayWidthBounds(" ");
    DisplayWidthBounds(glyphs.0);
    DisplayWidthBounds(glyphs.1);
    DisplayWidthBounds(glyphs.2);
  }

  class Line {
    var backgroundColor: PaletteColor
    var foregroundColor: PaletteColor
    var paneColor: PaletteColor
    var separator: (string, string, string)
    var space: string
    var padding: int
    var textAlign: TextAlign

    /** `Line::default`. */
    constructor ()
      ensures backgroundColor == DefaultColor && foregroundColor == DefaultColor && paneColor == DefaultColor
      ensures separator == ("", "", "") && space == "" && padding == 0 && textAlign == Right
    {
      backgroundColor, foregroundColor, paneColor := DefaultColor, DefaultColor, DefaultColor;
      separator := ("", "", "");
      space := "";
      padding := 0;
      textAlign := Right;
    }

    /**
     * `update_style`: stores the colours and the alignment, pre-paints the
     * separators and the trailing space, and sets the width budget to
     * `9 + paddingAdjust`.
     */
    method UpdateStyle(paint: Painter, background: RgbTriple, foreground: RgbTriple, pane: RgbTriple,
                       glyphs: (string, string, string), paddingAdjust: int, align: string)
      modifies this
      ensures backgroundColor == Rgb(background)
      ensures foregroundColor == Rgb(foreground)
      ensures paneColor == Rgb(pane)
      ensures textAlign == ParseTextAlign(align)
      ensures space == SpaceCell(paint, backgroundColor)
      ensures separator == Separators(paint, backgroundColor, paneColor, glyphs, textAlign)
      ensures padding == BaseWidth + paddingAdjust
    {
      backgroundColor := Rgb(background);
      foregroundColor := Rgb(foreground);
      paneColor := Rgb(pane);
      if align == "right" {
        textAlign := Right;
      } else if align == "left" {
        textAlign := Left;
      } else if align == "center" {
        textAlign := Center;
      } else {
        textAlign := Right;
      }
      var bg1 := paneColor;
      var bg2 := backgroundColor;
      var cell := paint(bg2, bg2, false, " ");
      var sep1 := paint(bg2, bg1, true, glyphs.0);
      var sep2 := paint(bg1, bg2, true, glyphs.1);
      var sep3 := paint(bg1, bg2, true, glyphs.2);
      var sp0 := "";
      match textAlign {
        case Right =>
          sp0 := sp0 + sep1;
          sp0 := sp0 + cell;
        case Center =>
          sp0 := sp0 + sep1;
          sp0 := sp0 + cell;
        case Left =>
          sp0 := sp0 + cell;
          sp0 := sp0 + sep1;
      }
      var sp1 := "";
      sp1 := sp1 + cell;
      sp1 := sp1 + sep2;
      sp1 := sp1 + cell;
      var sp2 := "";
      sp2 := sp2 + cell;
      sp2 := sp2 + sep3;
      sp2 := sp2 + cell;
      assert sp0 == if textAlign == Left then cell + sep1 else sep1 + cell;
      assert sp1 == cell + sep2 + cell;
      assert sp2 == cell + sep3 + cell;
      separator := (sp0, sp1, sp2);
      space := cell;
      padding := BaseWidth + paddingAdjust;
    }

    /**
     * `create`: pads to the column count when there is room, then lays the
     * painted fields out in the order of the alignment. Under a painter that
     * adds nothing, the row is the plain concatenation of the padding run,
     * the separators and the fields in that order.
     */
    function Create(paint: Painter, cols: nat, timezone: string, date: string, time: string): (row: string)
      reads this
      ensures Plain(paint) ==>
        var pad := PlainPadding(this, cols, OccupiedWidth(timezone, date, time, padding));
        row == match textAlign
          case Right => pad + separator.0 + timezone + separator.1 + date + separator.2 + time + space
          case Left => space + timezone + separator.1 + date + separator.2 + time + separator.0 + pad
          case Center => pad + separator.0 + timezone + separator.1 + date + separator.2 + time + pad
    {
      var width := OccupiedWidth(timezone, date, time, padding);
      var pad := if cols - width > 0
        then paint(foregroundColor, paneColor, false, Spaces(PaddingSize(textAlign, cols - width)))
        else "";
      var tz := paint(foregroundColor, backgroundColor, false, timezone);
      var d := paint(foregroundColor, backgroundColor, false, date);
      var t := paint(foregroundColor, backgroundColor, false, time);
      match textAlign
      case Right => pad + separator.0 + tz + separator.1 + d + separator.2 + t + space
      case Left => space + tz + separator.1 + d + separator.2 + t + separator.0 + pad
      case Center => pad + separator.0 + tz + separator.1 + d + separator.2 + t + pad
    }

    /** The separators and the trailing space take exactly the width budget. */
    ghost predicate BudgetExact()
      reads this
    {
      DisplayWidth(separator.0) + DisplayWidth(separator.1) + DisplayWidth(separator.2)
        + DisplayWidth(space) == padding
    }
  }

  /**
   * When the budget matches the separators, a row without colour codes
   * fills the columns exactly for right and left alignment and is never
   * padded when the columns are too few. A centred row has no trailing
   * space although the budget counts one, and its two half paddings lose
   * the odd column of the surplus.
   */
  lemma CreateWidth(line: Line, paint: Painter, cols: nat, timezone: string, date: string, time: string)
    requires Plain(paint)
    requires line.BudgetExact()
    requires AllAscii(date) && AllAscii(time)
    ensures var width := OccupiedWidth(timezone, date, time, line.padding);
      var w := DisplayWidth(line.Create(paint, cols, timezone, date, time));
      && (cols <= width && line.textAlign != Center ==> w == width)
      && (cols > width && line.textAlign != Center ==> w == cols)
      && (cols <= width && line.textAlign == Center ==> w == width - DisplayWidth(line.space))
      && (cols > width && line.textAlign == Center ==>
            w == width - DisplayWidth(line.space) + 2 * ((cols - width) / 2))
  {
    var width := OccupiedWidth(timezone, date, time, line.padding);
    var pad := PlainPadding(line, cols, width);
    var s := line.separator;
    var wPad := DisplayWidth(pad);
    var fields := DisplayWidth(timezone) + DisplayWidth(date) + DisplayWidth(time);
    var seps := DisplayWidth(s.0) + DisplayWidth(s.1) + DisplayWidth(s.2) + DisplayWidth(line.space);
    assert seps == line.padding;
    DisplayWidthBounds(date);
    DisplayWidthBounds(time);
    DisplayWidthBounds(pad);
    assert AllAscii(pad);
    assert width == fields + seps;
    assert wPad == if cols > width then PaddingSize(line.textAlign, cols - width) else 0;
    RowWidth(line, paint, cols, timezone, date, time);
  }

  /** The width of a row is its padding runs plus its fields plus its separators. */
  lemma RowWidth(line: Line, paint: Painter, cols: nat, timezone: string, date: string, time: string)
    requires Plain(paint)
    ensures var pad := PlainPadding(line, cols, OccupiedWidth(timezone, date, time, line.padding));
      var s := line.separator;
      var rest := DisplayWidth(timezone) + DisplayWidth(date) + DisplayWidth(time)
        + DisplayWidth(s.0) + DisplayWidth(s.1) + DisplayWidth(s.2);
      DisplayWidth(line.Create(paint, cols, timezone, date, time))
        == if line.textAlign == Center then 2 * DisplayWidth(pad) + rest
           else DisplayWidth(pad) + rest + DisplayWidth(line.space)
  {
    var pad := PlainPadding(line, cols, OccupiedWidth(timezone, date, time, line.padding));
    var s := line.separator;
    match line.textAlign {
      case Right => ConcatWidth8(pad, s.0, timezone, s.1, date, s.2, time, line.space);
      case Left => ConcatWidth8(line.space, timezone, s.1, date, s.2, time, s.0, pad);
      case Center =>
        ConcatWidth8(pad, s.0, timezone, s.1, date, s.2, time, pad);
        assert line.Create(paint, cols, timezone, date, time)
          == pad + s.0 + timezone + s.1 + date + s.2 + time + pad;
    }
  }

  /** The padding run `Create` emits, before painting. */
  function PlainPadding(line: Line, cols: nat, width: int): string
    reads line
  {
    if cols - width > 0 then Spaces(PaddingSize(line.textAlign, cols - width)) else ""
  }

  lemma ConcatWidth8(a: string, b: string, c: string, d: string, e: string, f: string, g: string, h: string)
    ensures DisplayWidth(a + b + c + d + e + f + g + h)
      == DisplayWidth(a) + DisplayWidth(b) + DisplayWidth(c) + DisplayWidth(d)
       + DisplayWidth(e) + DisplayWidth(f) + DisplayWidth(g) + DisplayWidth(h)
  {
    DisplayWidthConcat(a, b);
    DisplayWidthConcat(a + b, c);
    DisplayWidthConcat(a + b + c, d);
    DisplayWidthConcat(a + b + c + d, e);
    DisplayWidthConcat(a + b + c + d + e, f);
    DisplayWidthConcat(a + b + c + d + e + f, g);
    DisplayWidthConcat(a + b + c + d + e + f + g, h);
  }

  /**
   * The configuration used in practice: after `UpdateStyle` with a painter
   * that adds nothing, one ASCII character per separator and no adjustment,
   * an ASCII row has exactly `cols` characters for right and left alignment
   * whenever it is narrower than `cols`.
   */
  lemma StyledRowFillsColumns(line: Line, paint: Painter, glyphs: (string, string, string),
                              cols: nat, timezone: string, date: string, time: string)
    requires Plain(paint)
    requires |glyphs.0| == 1 && |glyphs.1| == 1 && |glyphs.2| == 1
    requires AllAscii(glyphs.0) && AllAscii(glyphs.1) && AllAscii(glyphs.2)
    requires line.separator == Separators(paint, line.backgroundColor, line.paneColor, glyphs, line.textAlign)
    requires line.space == SpaceCell(paint, line.backgroundColor)
    requires line.padding == BaseWidth
    requires line.textAlign != Center
    requires AllAscii(timezone) && AllAscii(date) && AllAscii(time)
    requires cols > |timezone| + |date| + |time| + BaseWidth
    ensures |line.Create(paint, cols, timezone, date, time)| == cols
  {
    SeparatorsFitBudget(paint, line.backgroundColor, line.paneColor, glyphs, line.textAlign);
    var row := line.Create(paint, cols, timezone, date, time);
    var width := OccupiedWidth(timezone, date, time, line.padding);
    DisplayWidthBounds(timezone);
    assert width == |timezone| + |date| + |time| + BaseWidth;
    var pad := PlainPadding(line, cols, width);
    assert |pad| == cols - width;
    var s := line.separator;
    assert SpaceCell(paint, line.backgroundColor) == " ";
    assert |s.0| == 2 && |s.1| == 3 && |s.2| == 3 && |line.space| == 1;
  }
}
