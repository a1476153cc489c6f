# zellij-datetime, modelled in Dafny

zellij-datetime is a Zellij status-bar plugin. It shows a timezone label, the
date and the time in that timezone. A click or scroll cycles through the
configured timezones. This project models its core in Dafny and proves the
properties below. The core has three parts:

- **The timezone table and its configuration** (`src/config.rs`).
  - The table is an insertion-ordered map from labels to whole-hour UTC
    offsets. The default table is UTC, PDT and JST, and the default label is
    UTC.
  - The offset lookup returns 0 for an unknown label.
  - Next/previous navigation is cyclic. An unknown label falls back to the
    first key (next) or the last key (previous).
  - The loader builds a candidate table from the `define <label> <offset>`
    children of the `timezone` node. It swaps that table in only when it is
    non-empty. It then resolves the `defalut_timezone` argument, spelled that
    way in the configuration file, and applies a parsed `background_color`.
- **The line layout** (`src/line.rs`).
  - `update_style` maps the alignment string to an enum. It pre-paints the
    three separators and the trailing space, and sets the width budget to
    `9 + padding_adjust`.
  - `create` works out an approximate display width: non-ASCII label
    characters count two columns. It pads when there is room, halving the
    padding when centred, and lays the fields out in the order the alignment
    asks for.
- **The plugin state machine** (`src/main.rs`).
  - `load` applies the configuration and selects the default label.
  - `update` handles visibility, timer ticks (at most one render per
    minute), theme changes and mouse navigation.
  - `render` rebuilds the cached separators after a theme change and prints
    the right-aligned row.

Files:

| file | module | contents |
|---|---|---|
| `wrappers.dfy` | `Wrappers` | `Option` |
| `text.dfy` | `Text` | the Rust string operations the core relies on: `trim`, `replace('"', "")`, `parse::<i32>`, integer `Display`, `str::len` (UTF-8 byte length), `is_ascii`, `" ".repeat(n)` |
| `palette.dfy` | `Palette` | `PaletteColor` and the `Painter` type that stands for `style!(fg, bg)[.bold()].paint(s)` |
| `timezone_table.dfy` | `TimezoneTable` | the table as `seq<(string, int)>` with unique keys: lookup, next/previous, insert, and their laws |
| `config.dfy` | `Config` | the parsed document, the loader's specification functions, and `class Config` |
| `line.dfy` | `Line` | `TextAlign`, the separators, `class Line` with `UpdateStyle` and `Create`, and the width lemmas |
| `plugin.dfy` | `Plugin` | the event types, the `Step` transition function, date/time formatting, and `class State` with `Load`, `Update`, `Render` and `ChangeTimezone*` |

How the model is specified:

- Methods that change a state (`Config.LoadConfig`, `Line.UpdateStyle`,
  `State.Update`, `State.Render`, `State.Load`) say in their `ensures` what
  the new state is. They do this in terms of specification functions:
  `LoadedTable`, `LoadedDefault`, `Separators`, `Step` and `RenderedRow`.
- The behaviour the source promises is proved as lemmas about those
  functions.
- The loops of `get_next_timezone` and `get_prev_timezone` are methods
  proved equal to `Next` and `Prev`.

Three outside facilities become parameters:

- `Clock` maps an offset in hours to the local date and time there.
- `Painter` stands for the styling library.
- `Document` is the configuration file after KDL parsing.

## Model

| member | source | states |
|---|---|---|
| Config.Config.constructor | src/config.rs:13-26 | the default table is exactly [("UTC",0),("PDT",-7),("JST",9)] in that order, the default label is "UTC", the background (32,32,32), and the table is a non-empty map |
| Config.Config.GetTimezoneOffset | src/config.rs:64-69 | the result is the offset stored with the label when the label is present and 0 when it is absent |
| TimezoneTable.OffsetOf | src/config.rs:64-69 | a present label's offset is an entry of the table, and an absent label gives 0 |
| TimezoneTable.OffsetOfStored | src/config.rs:64-69 | in a table with unique keys the lookup returns exactly the stored offset |
| TimezoneTable.IndexOf | src/config.rs:34-41 | the position found holds the label and no earlier entry does; there is no position exactly when the label is absent |
| TimezoneTable.Next | src/config.rs:34-47 | the result is always a key of the table, and the first key when the label is absent |
| TimezoneTable.Prev | src/config.rs:49-62 | the result is always a key of the table, and the last key when the label is absent |
| TimezoneTable.NextFollows | src/config.rs:34-47 | the label at position i (not last) is followed by the label at position i+1 |
| TimezoneTable.NextWraps | src/config.rs:42-45 | the last label is followed by the first |
| TimezoneTable.PrevFollows | src/config.rs:49-62 | the label at position i > 0 is preceded by the label at position i-1 |
| TimezoneTable.PrevWraps | src/config.rs:57-60 | the first label is preceded by the last |
| TimezoneTable.NextPrevInverse | src/config.rs:34-62 | for a label of a non-empty map, next(prev(L)) == L and prev(next(L)) == L |
| TimezoneTable.SingleEntryNavigation | src/config.rs:34-62 | in a one-entry table both directions return the only label, whatever the label asked about |
| Config.Config.GetNextTimezone | src/config.rs:34-47 | the iterator loop, which takes the key after a match and falls back to the first key, returns exactly `Next` |
| Config.Config.GetPrevTimezone | src/config.rs:49-62 | the loop, which remembers the last key before a match (with `break`) and falls back to the last key, returns exactly `Prev` |
| TimezoneTable.Remove | src/config.rs:84-87 | helper for insert: the label is gone, every other entry is kept, unique keys are preserved, and removing an absent label leaves the table exactly as it was |
| TimezoneTable.Insert | src/config.rs:84-87 | `LinkedHashMap::insert`: the table holds (label, value) plus the old entries of the other labels, is non-empty, and keeps unique keys; a new label is appended after the existing entries, which keep their order |
| TimezoneTable.InsertLookup | src/config.rs:84-87 | after an insert the label reads back the new offset (last write wins), other labels keep their offsets, and the key set gains exactly the label |
| Config.CleanLabel | src/config.rs:85 | a label cleaned by trim and quote removal contains no double quote |
| Config.DefineEntryContributes | src/config.rs:82-88 | a node contributes iff it is named `define`, has at least two entries and its trimmed second entry parses as an i32; the entry is (cleaned first entry, parsed offset), quote-free and in i32 range |
| Config.CollectUnique | src/config.rs:76-91 | the candidate table never holds a label twice |
| Config.CollectEmpty | src/config.rs:76-94 | the candidate is empty exactly when no node contributes |
| Config.CollectFromNodes | src/config.rs:81-90 | every candidate entry is the contribution of some node |
| Config.CollectAppendsNew | src/config.rs:81-90 | a `define` of a label not yet collected appends its entry to the end of the candidate |
| Config.CollectInDocumentOrder | src/config.rs:81-90 | when no label is defined twice, the candidate is exactly the defined entries in document order, which becomes the navigation order |
| Config.CollectLastWins | src/config.rs:81-90 | the last node that defines a label decides its offset |
| Config.CollectCandidate | src/config.rs:76-91 | the loop over the children builds exactly the candidate `CollectDefines` |
| Config.LoadKeepsTableWellFormed | src/config.rs:94-96 | loading keeps the table a non-empty map, which the `unwrap()` calls at lines 44, 59 and 104 rely on |
| Config.LoadReplacesOnlyWithDefines | src/config.rs:93-96 | the table is replaced, by a non-empty candidate, exactly when some node contributes; otherwise it is unchanged |
| Config.LoadDefaultResolution | src/config.rs:98-106 | a requested default becomes the default when the table has it and the first key otherwise, so it always ends in the table; without the argument the default is left as it was |
| Config.LoadDefaultMayLeaveTable | src/config.rs:93-106 | a document that defines only JST and names no default keeps "UTC" as default although the new table lacks it |
| Config.Config.LoadConfig | src/config.rs:75-120 | the new table, default label and background are those given by `LoadedTable`, `LoadedDefault` and `LoadedBackground`; an unparsable document (None) changes nothing; the table stays a non-empty map |
| Text.TrimStartDropsLeadingWhitespace | src/config.rs:83 | `trim` drops exactly the leading Unicode white space: the result is a suffix that is empty or starts with a non-space |
| Text.TrimEndDropsTrailingWhitespace | src/config.rs:83 | `trim` drops exactly the trailing white space: the result is a prefix that is empty or ends with a non-space |
| Text.RemoveQuotes | src/config.rs:85 | `replace('"', "")` leaves no quote, keeps every other character, and never lengthens the text |
| Text.RemoveQuotesCounts | src/config.rs:85 | every character other than a quote is kept exactly as often as it occurs, and every quote is dropped |
| Text.RemoveQuotesConcat | src/config.rs:85 | quote removal works piece by piece, so the kept characters stay in their original order |
| Text.ParseI32 | src/config.rs:83 | `parse::<i32>` succeeds only with a value in i32 range, on a string that starts with a sign or digit and continues with digits only |
| Text.ParseIntToString | src/config.rs:83 | every i32 written in decimal parses back to itself |
| Text.NatToStringValue | src/main.rs:136-148 | the decimal digits of n denote n |
| Text.Utf8Len | src/main.rs:151 | the byte length lies between the character count and four times it, and equals the character count exactly for ASCII text |
| Line.ParseTextAlign | src/line.rs:42-47 | "left" gives Left, "center" gives Center, and every other string (including "right") gives Right |
| Line.DisplayWidthBounds | src/line.rs:86-89 | each label character takes one or two columns, one exactly when the label is ASCII |
| Line.DisplayWidthConcat | src/line.rs:86-89 | the width of a concatenation is the sum of the widths |
| Line.PaddingSize | src/line.rs:93-98 | for a positive surplus, Right and Left pad by the whole surplus and Center by half of it rounded down |
| Line.Separators | src/line.rs:49-74 | without colour codes the lead separator is one glyph plus one space and the two others one glyph plus two spaces |
| Line.SeparatorsFitBudget | src/line.rs:51-81 | with one-character ASCII glyphs, the separators and the trailing space take exactly the unadjusted budget of 9 |
| Line.Line.constructor | src/line.rs:4-25 | the default line: default colours, empty separators and space, padding 0, right alignment |
| Line.Line.UpdateStyle | src/line.rs:28-82 | the colours are stored as RGB, the alignment is `ParseTextAlign`, the space and separators are those of `SpaceCell` and `Separators` (lead order depending on alignment), and the budget is `9 + padding_adjust` |
| Line.Line.Create | src/line.rs:84-151 | without colour codes the row is built from the padding run (`PaddingSize` spaces when the width leaves room, none otherwise) as pad, sep0, tz, sep1, date, sep2, time, space for Right; space, tz, sep1, date, sep2, time, sep0, pad for Left; and pad, sep0, tz, sep1, date, sep2, time, pad for Center |
| Line.RowWidth | src/line.rs:84-151 | the row's width is its padding (twice when centred) plus the fields and separators, plus the trailing space except when centred |
| Line.CreateWidth | src/line.rs:84-151 | when the budget matches the separators, a Right or Left row is exactly `cols` wide when there is room and unpadded otherwise; a centred row falls short of `cols` by the space's width and the odd column of the surplus |
| Line.StyledRowFillsColumns | src/line.rs:51-81 | after `update_style` with one-character ASCII separators, no adjustment and ASCII text, a Right or Left row narrower than `cols` has exactly `cols` characters |
| Plugin.TimerStep | src/main.rs:63-76 | a tick renders iff its minute differs from `before_minute`, and then records that minute and the time; a tick that does not render leaves the state exactly as it was; the timer is re-armed iff visible; nothing but the minute and the time ever changes |
| Plugin.TimerOncePerMinute | src/main.rs:63-72 | a second tick whose clock reading falls in the same minute as the first, whatever the rest of that reading, neither renders nor changes the state |
| Plugin.FirstTimerRenders | src/main.rs:50-72 | with `before_minute == u32::MAX`, as `load` leaves it, the first tick always renders and stores the time |
| Plugin.VisibleOnlySetsFlag | src/main.rs:56-62 | `Visible(b)` only sets the flag, never renders, and asks for an immediate tick exactly when b is true |
| Plugin.ModeUpdateNeverRenders | src/main.rs:77-82 | a mode change never renders; it replaces the style, and sets the changed flag only when the style differs |
| Plugin.MouseNavigation | src/main.rs:83-100 | left click and scroll down go to the next label, scroll up to the previous one, each rendering; right click, hold and release change nothing and do not render |
| Plugin.StepKeepsOffsetConsistent | src/main.rs:183-187 | every event keeps the displayed offset equal to the table's offset for the displayed label |
| Plugin.StepKeepsLabelInTable | src/main.rs:83-100 | a label in the table stays in the table, and any navigation lands on a label of the table |
| Plugin.ClickThenScrollUpRestores | src/main.rs:85-93 | a left click then a scroll up shows the original label and offset again |
| Plugin.TwoDigits | src/main.rs:136-148 | `{:02}` gives two digits denoting the value |
| Plugin.FormatWidths | src/main.rs:136-148 | date and time are ASCII; the time has 5 characters, and a date with a four-digit year 14 |
| Plugin.RenderedRowFillsColumns | src/main.rs:150-177 | without colour codes and with an ASCII label, a rendered row has `cols` characters when it fits and is unpadded otherwise |
| Plugin.State.constructor | src/main.rs:19-35 | the default state: no time, empty label, minute 0, hidden, default style, nothing cached, and the default configuration (the UTC/PDT/JST table, default label "UTC", background (32,32,32)) |
| Plugin.State.Load | src/main.rs:39-51 | the configuration is loaded as `LoadConfig` says, the label becomes the default with its offset, `before_minute` becomes u32::MAX, and nothing else changes |
| Plugin.State.ChangeTimezone | src/main.rs:183-187 | the label is set, the offset is looked up in the table, and the time is read at that offset |
| Plugin.State.ChangeTimezoneNext | src/main.rs:189-191 | switches to `Next` of the current label |
| Plugin.State.ChangeTimezonePrev | src/main.rs:193-195 | switches to `Prev` of the current label |
| Plugin.State.Update | src/main.rs:53-105 | the new state, the render flag and the requested timer are exactly the transition `Step` |
| Plugin.State.RefreshGlyphs | src/main.rs:109-130 | the colours come from the theme and the separators are rebuilt as `BuildGlyphs`; nothing else changes |
| Plugin.State.PrintRow | src/main.rs:132-177 | nothing is printed without a time, otherwise exactly `RenderedRow` |
| Plugin.State.Render | src/main.rs:107-179 | the cache is rebuilt iff the style changed, the flag is cleared, and the output is the row for the current time (none without one) |

## Left out

- KDL parsing is not part of this model. The loader receives the document
  already parsed (`Config.Document`): the children of `timezone` as
  (name, entry texts), and the raw `defalut_timezone` argument. `None`
  stands for a file that is missing or does not parse.
- CSS colour parsing (`csscolorparser`) is not part of this model. The
  `background_color` argument arrives as an optional RGB triple and is
  applied only when present. The stored background is never read by the
  modelled code.
- ANSI styling (`style!`, `.bold()`, `.paint()`) is the `Painter` parameter.
  The width lemmas assume a painter that adds nothing (`Plain`).
- The clock is the `Clock` parameter. The chrono arithmetic behind it
  (`Utc::now`, `FixedOffset::east`) is not part of this model. That includes
  the panic of `FixedOffset::east` for offsets of 24 hours or more, which a
  configured `define` can request.
- Host calls are not modelled as side effects:
  - `set_timeout` is returned as the `timeout` result;
  - `print!` is returned as the `output` result;
  - `subscribe`, `set_selectable`, `register_plugin!` and
    `fs::read_to_string` are left out.
- Only the foreground and background of the theme's `Style` are read. The
  rest of the palette is an opaque sequence.
- The `rows` argument of `render` is unused in the source and ignored here.
- `Config.Config.GetDefaultTimezone` and `Config.Config.GetBackgroundColor`
  are plain field reads and carry no contract.
- The table is a sequence with unique keys. No lemma depends on where
  `LinkedHashMap::insert` puts a label that is defined twice; the model
  places it last.
- `i32` parsing is modelled for strings of sign and digits. The `as i32`
  cast of an overlong byte length in `src/line.rs:90` is not modelled.
- Widths are mathematical integers. A width made negative by
  `padding_adjust < -9` therefore gives `cols + |width|` columns of padding
  (half that when centred), which is what release-mode wrapping of the
  `usize` subtraction `cols - width` in `src/line.rs:95-97` also yields; a
  debug build panics there instead, which is not modelled.
- Line.CreateWidth: the exact-width claim is stated for ASCII date and time.
  The source measures them in bytes but prints them as characters.
- Plugin.RenderedRowFillsColumns: stated for an ASCII label only. `render`
  measures the label in bytes, so a non-ASCII label gets too little padding.

Behaviour of the code that a reader may not expect:

- `src/main.rs` refers to `PluginConfig`, `get_timezone_next` and
  `get_timezone_prev`. `src/config.rs` declares `Config`,
  `get_next_timezone` and `get_prev_timezone`. The model maps these names
  one to one.
- `src/main.rs` never uses `src/line.rs`. It has its own padding rule: byte
  lengths plus 9, always right-aligned.
- The default label is re-resolved only when the `defalut_timezone`
  argument is present. A document that replaces the table without naming a
  default keeps the old default, which may no longer be in the table
  (`Config.LoadDefaultMayLeaveTable`).
- Offsets are `i32` whole hours, not fractional.
- Centred rows lose a column when the surplus is odd. They also lack the
  trailing space that the width budget counts (`Line.CreateWidth`).
