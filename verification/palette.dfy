/**
 * Colours as the host terminal multiplexer hands them to a plugin, and the
 * colour-painting capability the plugin calls. Painting (`style!(fg, bg)`,
 * `.bold()`, `.paint(s)`) is a foreign call: it is taken as a parameter of
 * type `Painter`, so nothing here depends on what escape codes it emits.
 */
module Palette {

  type u8 = x: int | 0 <= x < 256

  type RgbTriple = (u8, u8, u8)

  /** A colour of the host's palette: a true colour or an index into the 256-colour table. */
  datatype PaletteColor = Rgb(rgb: RgbTriple) | EightBit(index: u8)

  /** The colour a `#[derive(Default)]` struct starts with. */
  const DefaultColor: PaletteColor := EightBit(0)

  /** `style!(fg, bg)` with `.bold()` when `bold`, then `.paint(text)`. */
  type Painter = (PaletteColor, PaletteColor, bool, string) -> string

  /** A painter that adds no escape codes; the one under which widths are counted. */
  ghost predicate Plain(paint: Painter) {
    forall fg, bg, bold, s :: paint(fg, bg, bold, s) == s
  }
}
