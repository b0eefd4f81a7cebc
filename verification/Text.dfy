// Text as JavaScript holds it.
module Text {
  // JavaScript strings are sequences of UTF-16 code units.
  newtype CodeUnit = u: int | 0 <= u < 0x1_0000
  type Text = seq<CodeUnit>

  const LF: CodeUnit := 10
  const CR: CodeUnit := 13
  const CRLF: Text := [CR, LF]
}
