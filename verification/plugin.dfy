/**
 * The plugin object the host drives: it loads the configuration, reacts to
 * host events (visibility, timer ticks, mode changes, mouse input) and
 * prints the segment. The clock and the host calls are inputs and results:
 * `Clock` gives the current local time at an offset, a requested timer is
 * returned as a timeout, and the printed text is returned as an output.
 */
module Plugin {
  import opened Wrappers
  import opened Text
  import opened Palette
  import opened TimezoneTable
  import Cfg = Config

  const U32_MAX: int := 0xFFFF_FFFF
  type u32 = x: int | 0 <= x <= U32_MAX

  /** Seconds between timer ticks while the plugin is visible. */
  const IntervalTime: real := 1.0

  const DatetimeBgColor: RgbTriple := (32, 32, 32)
  const ArrowSeparator1: string := "\U{E0B2}"
  const ArrowSeparator2: string := "\U{E0B3}"
  const ArrowSpace: string := " "

  /** Columns taken by the separators and spaces of a row. */
  const SeparatorWidth: nat := 9

  datatype Weekday = Mon | Tue | Wed | Thu | Fri | Sat | Sun

  type Month = m: int | 1 <= m <= 12 witness 1
  type Day = d: int | 1 <= d <= 31 witness 1
  type Hour = h: int | 0 <= h < 24
  type Minute = m: int | 0 <= m < 60

  /** The fields of a local date and time that the plugin reads. */
  datatype Instant = Instant(year: int, month: Month, day: Day, weekday: Weekday, hour: Hour, minute: Minute)

  /** The wall clock: the current local time at a whole-hour UTC offset. */
  type Clock = int -> Instant

  /** The host's colour theme; only the foreground and background are used. */
  datatype Style = Style(fg: PaletteColor, bg: PaletteColor, otherColors: seq<PaletteColor>, roundedCorners: bool)

  const DefaultStyle: Style := Style(DefaultColor, DefaultColor, [], false)

  datatype MouseEvent =
    | ScrollUp(lines: nat)
    | ScrollDown(lines: nat)
    | LeftClick(row: int, column: nat)
    | RightClick(row: int, column: nat)
    | Hold(row: int, column: nat)
    | Release(row: int, column: nat)

  /** The host events the plugin subscribes to; any other event is `OtherEvent`. */
  datatype Event =
    | Visible(visible: bool)
    | Timer(elapsed: real)
    | ModeUpdate(style: Style)
    | Mouse(mouse: MouseEvent)
    | OtherEvent

  /** The part of the plugin state that events change. */
  datatype Snapshot = Snapshot(
    now: Option<Instant>,
    timezone: Label,
    timezoneOffset: int,
    beforeMinute: u32,
    visible: bool,
    style: Style,
    styleUpdate: bool)

  /** What handling an event yields: the new state, whether to render, and a timer request. */
  datatype Outcome = Outcome(state: Snapshot, render: bool, timeout: Option<real>)

  /** The colours and pre-painted separators `render` caches between style changes. */
  datatype Glyphs = Glyphs(fg: PaletteColor, bg: PaletteColor, datetimeBg: PaletteColor,
                           sp1: string, sp2: string, sp3: string)

  /** `change_timezone`: show `zone`, with its offset and the time there. */
  function SwitchTo(s: Snapshot, table: Table, zone: Label, clock: Clock): Snapshot {
    var offset := OffsetOf(table, zone);
    s.(timezone := zone, timezoneOffset := offset, now := Some(clock(offset)))
  }

  /** `update`: the effect of one host event on the state. */
  function Step(s: Snapshot, table: Table, event: Event, clock: Clock): Outcome
    requires |table| > 0
  {
    match event
    case Visible(b) => Outcome(s.(visible := b), false, if b then Some(0.0) else None)
    case Timer(_) =>
      var current := clock(s.timezoneOffset);
      var newMinute := s.beforeMinute != current.minute;
      var s' := if newMinute then s.(beforeMinute := current.minute, now := Some(current)) else s;
      Outcome(s', newMinute, if s.visible then Some(IntervalTime) else None)
    case ModeUpdate(style) =>
      if s.style != style then Outcome(s.(styleUpdate := true, style := style), false, None)
      else Outcome(s, false, None)
    case Mouse(m) =>
      (match m
       case LeftClick(_, _) => Outcome(SwitchTo(s, table, Next(table, s.timezone), clock), true, None)
       case ScrollDown(_) => Outcome(SwitchTo(s, table, Next(table, s.timezone), clock), true, None)
       case ScrollUp(_) => Outcome(SwitchTo(s, table, Prev(table, s.timezone), clock), true, None)
       case _ => Outcome(s, false, None))
    case OtherEvent => Outcome(s, false, None)
  }

  /** The displayed offset is the one the table gives for the displayed label. */
  predicate OffsetConsistent(s: Snapshot, table: Table) {
    s.timezoneOffset == OffsetOf(table, s.timezone)
  }

  /**
   * A tick renders exactly when the minute differs from the last one
   * rendered, re-arms the timer exactly while visible, and changes nothing
   * but the remembered minute and time.
   */
  lemma TimerStep(s: Snapshot, table: Table, clock: Clock, elapsed: real)
    requires |table| > 0
    ensures var o := Step(s, table, Timer(elapsed), clock);
      var current := clock(s.timezoneOffset);
      && (o.render <==> current.minute != s.beforeMinute)
      && (o.timeout.Some? <==> s.visible)
      && o.state.(now := s.now, beforeMinute := s.beforeMinute) == s
      && (o.render ==> o.state.beforeMinute == current.minute && o.state.now == Some(current))
      && (!o.render ==> o.state == s)
  {
  }

  /**
   * A second tick that reads the same minute as the first, whatever else
   * the clock moved on to, neither renders nor changes anything.
   */
  lemma TimerOncePerMinute(s: Snapshot, table: Table, c1: Clock, c2: Clock, first: real, second: real)
    requires |table| > 0
    requires c2(Step(s, table, Timer(first), c1).state.timezoneOffset).minute == c1(s.timezoneOffset).minute
    ensures var o1 := Step(s, table, Timer(first), c1);
      var o2 := Step(o1.state, table, Timer(second), c2);
      !o2.render && o2.state == o1.state
  {
  }

  /** After a load (`beforeMinute` is `u32::MAX`) the first tick always renders. */
  lemma FirstTimerRenders(s: Snapshot, table: Table, clock: Clock, elapsed: real)
    requires |table| > 0 && s.beforeMinute == U32_MAX
    ensures Step(s, table, Timer(elapsed), clock).render
    ensures Step(s, table, Timer(elapsed), clock).state.now == Some(clock(s.timezoneOffset))
  {
  }

  /** A visibility change only sets the flag; becoming visible asks for an immediate tick. */
  lemma VisibleOnlySetsFlag(s: Snapshot, table: Table, clock: Clock, b: bool)
    requires |table| > 0
    ensures var o := Step(s, table, Visible(b), clock);
      o.state == s.(visible := b) && !o.render && (o.timeout == if b then Some(0.0) else None)
  {
  }

  /** A mode change never renders; it marks the style changed only when it differs. */
  lemma ModeUpdateNeverRenders(s: Snapshot, table: Table, clock: Clock, style: Style)
    requires |table| > 0
    ensures var o := Step(s, table, ModeUpdate(style), clock);
      && !o.render && o.timeout.None?
      && o.state.style == style
      && o.state.styleUpdate == (s.styleUpdate || s.style != style)
      && o.state.(style := s.style, styleUpdate := s.styleUpdate) == s
  {
  }

  /**
   * Left click and scroll down move to the next label, scroll up to the
   * previous one, each rendering; other mouse input changes nothing.
   */
  lemma MouseNavigation(s: Snapshot, table: Table, clock: Clock, m: MouseEvent)
    requires |table| > 0
    ensures var o := Step(s, table, Mouse(m), clock);
      && ((m.LeftClick? || m.ScrollDown?) ==> o.state.timezone == Next(table, s.timezone) && o.render)
      && (m.ScrollUp? ==> o.state.timezone == Prev(table, s.timezone) && o.render)
      && ((m.RightClick? || m.Hold? || m.Release?) ==> o.state == s && !o.render)
      && o.timeout.None?
  {
  }

  /** Every event keeps the displayed offset in step with the displayed label. */
  lemma StepKeepsOffsetConsistent(s: Snapshot, table: Table, event: Event, clock: Clock)
    requires |table| > 0 && OffsetConsistent(s, table)
    ensures OffsetConsistent(Step(s, table, event, clock).state, table)
  {
  }

  /**
   * A displayed label stays in the table, and a navigation brings any
   * label, even an unknown one, into the table.
   */
  lemma StepKeepsLabelInTable(s: Snapshot, table: Table, event: Event, clock: Clock)
    requires |table| > 0
    ensures HasKey(table, s.timezone) ==> HasKey(table, Step(s, table, event, clock).state.timezone)
    ensures event.Mouse? && Step(s, table, event, clock).render ==>
      HasKey(table, Step(s, table, event, clock).state.timezone)
  {
  }

  /** A left click followed by a scroll up shows the label and offset shown before. */
  lemma ClickThenScrollUpRestores(s: Snapshot, table: Table, clock: Clock, row: int, column: nat, lines: nat)
    requires WellFormed(table) && HasKey(table, s.timezone) && OffsetConsistent(s, table)
    ensures var o1 := Step(s, table, Mouse(LeftClick(row, column)), clock);
      var o2 := Step(o1.state, table, Mouse(ScrollUp(lines)), clock);
      o2.state.timezone == s.timezone && o2.state.timezoneOffset == s.timezoneOffset
  {
    NextPrevInverse(table, s.timezone);
  }

  function WeekdayName(d: Weekday): string {
    match d
    case Mon => "Mon"
    case Tue => "Tue"
    case Wed => "Wed"
    case Thu => "Thu"
    case Fri => "Fri"
    case Sat => "Sat"
    case Sun => "Sun"
  }

  /** `{:02}` for a value below 100. */
  function TwoDigits(n: nat): (s: string)
    requires n < 100
    ensures |s| == 2 && AllDigits(s) && DigitsValue(s) == n
  {
    var s := [Digit(n / 10), Digit(n % 10)];
    assert DigitValue(s[0]) == n / 10 && DigitValue(s[1]) == n % 10;
    assert s[..1] == [s[0]] && s[..1][..0] == [];
    assert DigitsValue(s[..1]) == n / 10;
    s
  }

  /** `{year}-{month:02}-{day:02} {weekday}`. */
  function FormatDate(t: Instant): string {
    IntToString(t.year) + "-" + TwoDigits(t.month) + "-" + TwoDigits(t.day) + " " + WeekdayName(t.weekday)
  }

  /** `{hour:02}:{minute:02}`. */
  function FormatTime(t: Instant): string {
    TwoDigits(t.hour) + ":" + TwoDigits(t.minute)
  }

  lemma NatToStringAscii(n: nat)
    ensures AllAscii(NatToString(n))
  {
    var s := NatToString(n);
    assert forall i :: 0 <= i < |s| ==> IsDigit(s[i]);
  }

  lemma FourDigitYear(n: nat)
    requires 1000 <= n <= 9999
    ensures |NatToString(n)| == 4
  {
    assert NatToString(n) == NatToString(n / 10) + [Digit(n % 10)];
    assert NatToString(n / 10) == NatToString(n / 100) + [Digit((n / 10) % 10)];
    assert NatToString(n / 100) == NatToString(n / 1000) + [Digit((n / 100) % 10)];
  }

  /** Dates and times are ASCII; a time takes 5 characters and a date with a four-digit year 14. */
  lemma FormatWidths(t: Instant)
    ensures AllAscii(FormatDate(t)) && AllAscii(FormatTime(t))
    ensures |FormatTime(t)| == 5
    ensures 1000 <= t.year <= 9999 ==> |FormatDate(t)| == 14
  {
    var y := IntToString(t.year);
    if t.year < 0 {
      NatToStringAscii(-t.year);
      assert AllAscii(y);
    } else {
      NatToStringAscii(t.year);
      if t.year >= 1000 && t.year <= 9999 {
        FourDigitYear(t.year);
      }
    }
    var w := WeekdayName(t.weekday);
    assert |w| == 3 && AllAscii(w);
    var d := FormatDate(t);
    assert d == y + "-" + TwoDigits(t.month) + "-" + TwoDigits(t.day) + " " + w;
    assert forall i :: 0 <= i < |d| ==> IsAscii(d[i]) by {
      forall i | 0 <= i < |d| ensures IsAscii(d[i]) {
        if i < |y| {
          assert d[i] == y[i];
        } else if i < |y| + 1 {
          assert d[i] == '-';
        } else if i < |y| + 3 {
          assert d[i] == TwoDigits(t.month)[i - |y| - 1];
        } else if i < |y| + 4 {
          assert d[i] == '-';
        } else if i < |y| + 6 {
          assert d[i] == TwoDigits(t.day)[i - |y| - 4];
        } else if i < |y| + 7 {
          assert d[i] == ' ';
        } else {
          assert d[i] == w[i - |y| - 7];
        }
      }
    }
  }

  /** The `style_update` branch of `render`: colours taken from the theme and the separators re-painted. */
  function BuildGlyphs(paint: Painter, style: Style): Glyphs {
    var fg := style.fg;
    var bg := style.bg;
    var datetimeBg := Rgb(DatetimeBgColor);
    var arrow := paint(datetimeBg, datetimeBg, true, ArrowSpace);
    var sep1 := paint(datetimeBg, bg, true, ArrowSeparator1);
    var sep2 := paint(bg, datetimeBg, true, ArrowSeparator2);
    Glyphs(fg, bg, datetimeBg, sep1 + arrow, arrow + sep2 + arrow, arrow)
  }

  /** The width `render` reserves: byte lengths of the three fields plus the separators. */
  function ReservedWidth(timezone: string, date: string, time: string): nat {
    Utf8Len(timezone) + Utf8Len(date) + Utf8Len(time) + SeparatorWidth
  }

  /** The spaces that right-align a row of `width` columns in `cols` columns; none when it does not fit. */
  function Padding(paint: Painter, g: Glyphs, cols: nat, width: nat): string {
    if cols - width > 0 then paint(g.fg, g.bg, false, Spaces(cols - width)) else ""
  }

  /** The separators and painted fields of a row, in print order. */
  function Cells(paint: Painter, g: Glyphs, timezone: string, date: string, time: string): string {
    g.sp1 + paint(g.fg, g.datetimeBg, false, timezone) + g.sp2
      + paint(g.fg, g.datetimeBg, false, date) + g.sp2
      + paint(g.fg, g.datetimeBg, false, time) + g.sp3
  }

  /** The text `render` prints for the three fields: right-aligned, padded when there is room. */
  function PaintedRow(paint: Painter, g: Glyphs, cols: nat, timezone: string, date: string, time: string): string {
    Padding(paint, g, cols, ReservedWidth(timezone, date, time)) + Cells(paint, g, timezone, date, time)
  }

  /** The text `render` prints for a known time. */
  function RenderedRow(paint: Painter, g: Glyphs, cols: nat, timezone: string, t: Instant): string {
    PaintedRow(paint, g, cols, timezone, FormatDate(t), FormatTime(t))
  }

  /**
   * Without colour codes and with an ASCII label, a row has exactly `cols`
   * characters when there is room, and is unpadded otherwise.
   */
  lemma RenderedRowFillsColumns(paint: Painter, style: Style, cols: nat, timezone: string, t: Instant)
    requires Plain(paint) && AllAscii(timezone)
    ensures var width := |timezone| + |FormatDate(t)| + |FormatTime(t)| + SeparatorWidth;
      var row := RenderedRow(paint, BuildGlyphs(paint, style), cols, timezone, t);
      |row| == if cols > width then cols else width
  {
    var g := BuildGlyphs(paint, style);
    FormatWidths(t);
    var date := FormatDate(t);
    var time := FormatTime(t);
    assert |g.sp1| == 2 && |g.sp2| == 3 && |g.sp3| == 1;
    assert paint(g.fg, g.datetimeBg, false, timezone) == timezone;
    assert paint(g.fg, g.datetimeBg, false, date) == date;
    assert paint(g.fg, g.datetimeBg, false, time) == time;
    var width := ReservedWidth(timezone, date, time);
    if cols - width > 0 {
      assert paint(g.fg, g.bg, false, Spaces(cols - width)) == Spaces(cols - width);
    }
  }

  class State {
    var now: Option<Instant>
    var timezone: Label
    var timezoneOffset: int
    var beforeMinute: u32
    var visible: bool
    var style: Style
    var styleUpdate: bool
    var fgColor: PaletteColor
    var bgColor: PaletteColor
    var datetimeBgColor: PaletteColor
    var sp1: string
    var sp2: string
    var sp3: string
    var config: Cfg.Config

    ghost predicate Valid()
      reads this, config
    {
      config.Valid()
    }

    function Current(): Snapshot
      reads this
    {
      Snapshot(now, timezone, timezoneOffset, beforeMinute, visible, style, styleUpdate)
    }

    function CachedGlyphs(): Glyphs
      reads this
    {
      Glyphs(fgColor, bgColor, datetimeBgColor, sp1, sp2, sp3)
    }

    /** `State::default`. */
    constructor ()
      ensures Valid() && fresh(config)
      ensures Current() == Snapshot(None, "", 0, 0, false, DefaultStyle, false)
      ensures CachedGlyphs() == Glyphs(DefaultColor, DefaultColor, DefaultColor, "", "", "")
      ensures config.timezone == Cfg.DefaultTable && config.defaultTimezone == Cfg.DefaultTimezone
      ensures config.backgroundColor == Cfg.DefaultBackgroundColor
    {
      now := None;
      timezone := "";
      timezoneOffset := 0;
      beforeMinute := 0;
      visible := false;
      style := DefaultStyle;
      styleUpdate := false;
      fgColor, bgColor, datetimeBgColor := DefaultColor, DefaultColor, DefaultColor;
      sp1, sp2, sp3 := "", "", "";
      config := new Cfg.Config();
    }

    /**
     * `load`: applies the configuration document (None when the file is
     * missing or does not parse), shows the default label with its offset,
     * and forgets the last rendered minute.
     */
    method Load(doc: Option<Cfg.Document>)
      requires Valid()
      modifies this, config
      ensures Valid() && config == old(config)
      ensures config.timezone == Cfg.LoadedTable(old(config.timezone), doc)
      ensures config.defaultTimezone == Cfg.LoadedDefault(config.timezone, old(config.defaultTimezone), doc)
      ensures config.backgroundColor == Cfg.LoadedBackground(old(config.backgroundColor), doc)
      ensures timezone == config.defaultTimezone
      ensures OffsetConsistent(Current(), config.timezone)
      ensures beforeMinute == U32_MAX
      ensures Current().(timezone := old(timezone), timezoneOffset := old(timezoneOffset),
                         beforeMinute := old(beforeMinute)) == old(Current())
      ensures CachedGlyphs() == old(CachedGlyphs())
    {
      config.LoadConfig(doc);
      timezone := config.GetDefaultTimezone();
      timezoneOffset := config.GetTimezoneOffset(timezone);
      beforeMinute := U32_MAX;
    }

    /** `change_timezone`: show `zone`, with its offset and the current time there. */
    method ChangeTimezone(zone: Label, clock: Clock)
      requires Valid()
      modifies this
      ensures Valid() && config == old(config)
      ensures Current() == SwitchTo(old(Current()), config.timezone, zone, clock)
      ensures CachedGlyphs() == old(CachedGlyphs())
    {
      timezone := zone;
      timezoneOffset := config.GetTimezoneOffset(timezone);
      now := Some(clock(timezoneOffset));
    }

    method ChangeTimezoneNext(clock: Clock)
      requires Valid()
      modifies this
      ensures Valid() && config == old(config)
      ensures Current() == SwitchTo(old(Current()), config.timezone, Next(config.timezone, old(timezone)), clock)
      ensures CachedGlyphs() == old(CachedGlyphs())
    {
      var next := config.GetNextTimezone(timezone);
      ChangeTimezone(next, clock);
    }

    method ChangeTimezonePrev(clock: Clock)
      requires Valid()
      modifies this
      ensures Valid() && config == old(config)
      ensures Current() == SwitchTo(old(Current()), config.timezone, Prev(config.timezone, old(timezone)), clock)
      ensures CachedGlyphs() == old(CachedGlyphs())
    {
      var prev := config.GetPrevTimezone(timezone);
      ChangeTimezone(prev, clock);
    }

    /** `update`: handles one event; returns whether to render and the timer it re-arms, if any. */
    method Update(event: Event, clock: Clock) returns (render: bool, timeout: Option<real>)
      requires Valid()
      modifies this
      ensures Valid() && config == old(config)
      ensures Outcome(Current(), render, timeout) == Step(old(Current()), config.timezone, event, clock)
      ensures CachedGlyphs() == old(CachedGlyphs())
    {
      render := false;
      timeout := None;
      match event {
        case Visible(b) =>
          if b {
            timeout := Some(0.0);
            visible := true;
          } else {
            visible := false;
          }
        case Timer(_) =>
          var current := clock(timezoneOffset);
          var nowMinute := current.minute;
          if beforeMinute != nowMinute {
            render := true;
            beforeMinute := nowMinute;
            now := Some(current);
          }
          if visible {
            timeout := Some(IntervalTime);
          }
        case ModeUpdate(s) =>
          if style != s {
            styleUpdate := true;
            style := s;
          }
        case Mouse(m) =>
          match m {
            case LeftClick(_, _) =>
              ChangeTimezoneNext(clock);
              render := true;
            case RightClick(_, _) =>
            case ScrollUp(_) =>
              ChangeTimezonePrev(clock);
              render := true;
            case ScrollDown(_) =>
              ChangeTimezoneNext(clock);
              render := true;
            case Hold(_, _) =>
            case Release(_, _) =>
          }
        case OtherEvent =>
      }
    }

    /** The `style_update` branch of `render`: takes the theme's colours and re-paints the separators. */
    method RefreshGlyphs(paint: Painter)
      modifies this
      ensures CachedGlyphs() == BuildGlyphs(paint, style)
      ensures now == old(now) && timezone == old(timezone) && timezoneOffset == old(timezoneOffset)
      ensures beforeMinute == old(beforeMinute) && visible == old(visible)
      ensures style == old(style) && styleUpdate == old(styleUpdate) && config == old(config)
    {
      fgColor := style.fg;
      bgColor := style.bg;
      datetimeBgColor := Rgb(DatetimeBgColor);
      var bg1 := bgColor;
      var bg2 := datetimeBgColor;
      var arrow := paint(bg2, bg2, true, ArrowSpace);
      var sep1 := paint(bg2, bg1, true, ArrowSeparator1);
      var sep2 := paint(bg1, bg2, true, ArrowSeparator2);
      var s1 := "";
      s1 := s1 + sep1;
      s1 := s1 + arrow;
      var s2 := "";
      s2 := s2 + arrow;
      s2 := s2 + sep2;
      s2 := s2 + arrow;
      var s3 := "";
      s3 := s3 + arrow;
      assert s1 == sep1 + arrow && s2 == arrow + sep2 + arrow && s3 == arrow;
      sp1, sp2, sp3 := s1, s2, s3;
    }

    /** The printing part of `render`: the row for the known time, if any. */
    method PrintRow(paint: Painter, cols: nat) returns (output: Option<string>)
      ensures output == if now.None? then None
                        else Some(RenderedRow(paint, CachedGlyphs(), cols, timezone, now.value))
    {
      output := None;
      if now.Some? {
        var g := CachedGlyphs();
        var date := FormatDate(now.value);
        var time := FormatTime(now.value);
        var width := ReservedWidth(timezone, date, time);
        var padding := Padding(paint, g, cols, width);
        var paintedZone := paint(g.fg, g.datetimeBg, false, timezone);
        var paintedDate := paint(g.fg, g.datetimeBg, false, date);
        var paintedTime := paint(g.fg, g.datetimeBg, false, time);
        var cells := g.sp1 + paintedZone + g.sp2 + paintedDate + g.sp2 + paintedTime + g.sp3;
        assert cells == Cells(paint, g, timezone, date, time);
        output := Some(padding + cells);
      }
    }

    /**
     * `render`: rebuilds the cached separators when the style changed, then
     * prints the row when a time is known (the printed text is the result;
     * the row count is unused).
     */
    method Render(paint: Painter, rows: nat, cols: nat) returns (output: Option<string>)
      requires Valid()
      modifies this
      ensures Valid() && config == old(config)
      ensures Current() == old(Current()).(styleUpdate := false)
      ensures CachedGlyphs() == if old(styleUpdate) then BuildGlyphs(paint, style) else old(CachedGlyphs())
      ensures output == if now.None? then None
                        else Some(RenderedRow(paint, CachedGlyphs(), cols, timezone, now.value))
    {
      if styleUpdate {
        RefreshGlyphs(paint);
        styleUpdate := false;
      }
      output := PrintRow(paint, cols);
    }
  }
}
