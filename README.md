# hexplay, modelled in Dafny

hexplay renders a byte slice the way a hex editor shows it. Each row has three parts:
- an eight-digit upper-case hexadecimal address;
- the bytes as two-digit hex values separated by blanks;
- the bytes as glyphs between `| ` and ` |`.

The view is described by a `HexView`. It carries an address offset, a codepage (a table from byte values to characters), the data, a row width and a replacement character. A `HexViewBuilder` creates a view with defaults, and its setters change one setting at a time. When the address offset is not a multiple of the row width, the first row is padded with blank slots so that every printed address is aligned. The last row is padded up to the full width.

The model has four modules, one per source file plus a shared one:

- `Wrappers` holds `Option`, `Result` and the two error values: a formatting error and an I/O error.
- `ByteMapping` (src/byte_mapping.rs) holds:
  - the three codepages (ASCII, 850 and 1252) as 256-entry `seq<char>` tables;
  - the lookup predicates;
  - `AsChar`, the byte-to-glyph lookup with a fallback to the replacement character.
- `Color` (src/color.rs) holds:
  - `ColorRange`, a class with a style table and a mutable offset, whose `Get` scans the table for the first range containing `offset + idx`;
  - `FirstStyle`, the specification function `Get` is proved against;
  - `ColorlessString`, a write sink that collects text and ignores colours.
- `Format` (src/format.rs) holds:
  - the view and its builder;
  - the padding computations;
  - the slot sequence (begin padding, data, end padding) and its chunking into rows;
  - the text of one row, and `Render`, the text of a whole view;
  - the imperative writers `Fmt`, `FmtRow`, `FmtHexColumn` and `FmtCharColumn`, each proved to produce exactly that text.

How the model settles points where the source snapshot is unfinished:

- **The rows are never written.** `Display::fmt` computes the paddings and the chunks and advances the address per row, but its per-byte loop is empty (src/format.rs:123-129). The row writer is commented out (src/format.rs:72-90).
  - `Fmt` writes what the unit tests expect (src/format.rs:148-201, src/lib.rs:27-29): rows joined by line breaks, and hex slots separated by single blanks.
  - The commented-out writer puts no blank between hex slots. That disagrees with every test string, so the model follows the tests.
- **The replacement character.**
  - The snapshot's `HexView` has no replacement-character field, and its `fmt_byte_as_char` calls `as_char` with two arguments (src/format.rs:67), although `as_char` takes three (src/byte_mapping.rs:90).
  - `examples/example.rs:31` calls a `replacement_character` setter.
  - The model therefore gives the view a `replacementCharacter` field, defaulting to `.`, with a setter. The glyph of a byte is always `AsChar(byte, codepage, replacementCharacter)`.
- **Padding slots in the glyph column.** `fmt_byte_as_char` writes two blanks for a padding slot (src/format.rs:68). Every test string has one blank there. The model uses one blank; see Findings.
- **Colour lookup.** `ColorRange::get` scans from the first entry on every call (src/color.rs:65-77). The model does the same; it keeps no cursor between calls.

All integers are unbounded. Addresses of 2^32 or more print with more than eight digits, as eight-digit zero-padded hex formatting does.

## Model

| member | source | states |
|---|---|---|
| ByteMapping.Contains | src/byte_mapping.rs:77-79 | true exactly when the byte indexes an entry of the codepage |
| ByteMapping.IsNil | src/byte_mapping.rs:81-83 | for a byte with an entry, true exactly when that entry is NIL |
| ByteMapping.IsPrintable | src/byte_mapping.rs:85-87 | true exactly when the byte has an entry and it is not NIL; the bounds test guards the entry test |
| ByteMapping.AsChar | src/byte_mapping.rs:77-96 | a byte outside the codepage, or one mapped to NIL, yields the replacement character; any other byte yields its table entry; the result is the replacement or a codepage character, and is never NIL unless the replacement is |
| ByteMapping.EmptyCodepageAlwaysReplaces | src/byte_mapping.rs:77-79 | with an empty codepage every byte shows as the replacement character |
| ByteMapping.AsciiTableMatchesGenerated | src/byte_mapping.rs:10-28 | the hard-coded ASCII table has 256 entries, maps 32..126 to themselves and everything else to NIL, and equals the generated table of the test at src/byte_mapping.rs:104-113 |
| ByteMapping.Cp850Properties | src/byte_mapping.rs:34-52 | codepage 850 has 256 entries, bytes 0x00 and 0xFF are NIL, and 0x20..0x7E agree with ASCII |
| ByteMapping.Cp1252Properties | src/byte_mapping.rs:57-75 | codepage 1252 has 256 entries, bytes 0x00 and 0x7F are NIL, and 0x20..0x7E agree with ASCII |
| Color.EmptyRangeContainsNothing | src/color.rs:70 | a range whose end does not exceed its start contains no index |
| Color.FirstStyle | src/color.rs:65-77 | no style exactly when no range contains the position; otherwise the style of the first entry whose range contains it |
| Color.EarlierEntryWins | src/color.rs:68-74 | once entry k contains the position, some entry at or before k is the first match, and the lookup succeeds with its style |
| Color.ColorRange.constructor | src/color.rs:56-61 | a new range keeps the table and starts at offset 0 |
| Color.ColorRange.Clone | src/color.rs:46-53 | the clone is a new object with the same table and offset |
| Color.ColorRange.UpdateOffset | src/color.rs:62-64 | the offset becomes the given one |
| Color.ColorRange.Get | src/color.rs:65-77 | the scan returns the style of the first entry containing offset + idx, and nothing when no entry does |
| Color.ColorlessString.constructor | src/color.rs:15 | the sink starts with the given text |
| Color.ColorlessString.Write | src/color.rs:18-23 | the text grows by the written characters and the result is their count |
| Color.ColorlessString.Flush | src/color.rs:24-26 | always succeeds |
| Color.ColorlessString.SupportsColor | src/color.rs:30-32 | always false |
| Color.ColorlessString.SetColor | src/color.rs:33-35 | always succeeds |
| Color.ColorlessString.Reset | src/color.rs:36-38 | always succeeds |
| Format.HexDigits | src/format.rs:225-258 | a non-empty string of upper-case hex digits whose value is the number, with no leading zero unless the number is 0 |
| Format.HexDigitsLength | src/format.rs:74 | a number below 16^m needs at most m digits |
| Format.LeadingZerosAreIgnored | src/format.rs:74 | leading zeros do not change the value of a hex string |
| Format.ZeroPadKeepsValue | src/format.rs:74 | zero-padding keeps a hex string's digits and value |
| Format.AddressText | src/format.rs:74 | at least eight upper-case hex digits, exactly eight below 2^32, whose value is the address; a text longer than eight digits has no leading zero |
| Format.HexSlot | src/format.rs:58-63 | two characters; two blanks exactly for padding; otherwise two upper-case digits whose value is the byte |
| Format.CharSlot | src/format.rs:65-70 | a blank for padding, otherwise the byte's glyph |
| Format.HexColumn | src/format.rs:58-63 | empty for no slots, 3n - 1 characters for n slots |
| Format.HexColumnLayout | src/format.rs:58-63 | slot k's two digits sit at 3k and 3k + 1, with a blank between neighbouring slots |
| Format.CharColumn | src/format.rs:65-70 | one character per slot, slot k's glyph at position k |
| Format.RowLayout | src/format.rs:72-90 | a row of n slots below address 2^32 is 4n + 15 characters: the eight address digits, two blanks, the hex column at 10 .. 3n + 9, two blanks and the opening bar, the glyph column at 3n + 13 .. 4n + 13, the closing bar |
| Format.RowSlotsAligned | src/format.rs:72-90 | in such a row slot k's hex digits sit at 10 + 3k, a blank at 12 + 3k separates them from slot k + 1, and its glyph sits at 3n + 13 + k, so both columns of a slot show the same byte |
| Format.RowText | src/format.rs:72-90 | the text of one row: the address text, two blanks, the hex column, two blanks and the opening bar, the glyph column, the closing bar; its layout is stated by RowLayout and RowSlotsAligned |
| Format.HexView | src/format.rs:8-13 | the view's configuration: address offset, codepage, data and row width, plus the replacement character |
| Format.NewHexView | src/format.rs:16-23 | offset 0, codepage 850, row width 16, replacement `.`, and the given data |
| Format.HexViewBuilder.constructor | src/format.rs:32-36 | the builder starts from the default view of the data |
| Format.HexViewBuilder.AddressOffset | src/format.rs:38-41 | only the address offset changes |
| Format.HexViewBuilder.Codepage | src/format.rs:43-46 | only the codepage changes |
| Format.HexViewBuilder.RowWidth | src/format.rs:48-51 | only the row width changes |
| Format.HexViewBuilder.ReplacementCharacter | examples/example.rs:31 | only the replacement character changes |
| Format.HexViewBuilder.Finish | src/format.rs:53-55 | returns the configured view |
| Format.BeginPadding | src/format.rs:91-94 | less than the row width, at most the offset, and the offset minus it is a multiple of the width |
| Format.BeginPaddingExamples | src/format.rs:140-145 | the paddings 0, 0 and 6 of the padding test |
| Format.EndPadding | src/format.rs:96-99 | less than the row width, and completes the data size to a multiple of the width |
| Format.PaddedSlots | src/format.rs:114-121 | begin-padding blanks, then each data byte in order, then end-padding blanks |
| Format.PaddedSlotsKeepData | src/format.rs:114-121 | the filled slots are exactly the data, in order |
| Format.DataOfAppend | src/format.rs:114-121 | the filled slots of a concatenation are those of its parts, in order |
| Format.Chunks | src/format.rs:123 | the chunks concatenate back to the input; each has between 1 and width elements; all but the last have exactly width |
| Format.ChunksOfMultiple | src/format.rs:123 | when the length is a multiple of the width, every chunk is full and there are length / width of them |
| Format.ChunkElementsComeFromInput | src/format.rs:123 | every element of every chunk comes from the input |
| Format.ChunksOfFullRows | src/format.rs:123 | a sequence of width times count elements splits into count full chunks |
| Format.Slots | src/format.rs:110-121 | the padded slot sequence: begin padding, the data, end padding; its properties are stated by PaddedSlotsKeepData and RowsAreFull |
| Format.Rows | src/format.rs:123 | the slot sequence cut into chunks of the row width; RowsAreFull states that every row is full and holds the data in order |
| Format.RowsAreFull | src/format.rs:110-123 | every row of a view is full; the rows hold the data in order; the row count is the least that holds the begin padding and the data |
| Format.PaddedSlotHoldsData | src/format.rs:114-121 | a filled slot among the padded slots holds a byte of the data |
| Format.RowSlotsHoldData | src/format.rs:114-123 | a filled slot of any row holds a byte of the data |
| Format.Lines | src/format.rs:123-129 | one row text per row, at that row's address |
| Format.JoinLines | src/format.rs:123-129 | lines joined by single line breaks, with no trailing one; JoinedLineCount and LineOccursInJoin state its properties |
| Format.Render | src/format.rs:102-133 | the text `Display::fmt` produces: no text when there are no rows, otherwise one row text per chunk, at the address of that row, joined by line breaks |
| Format.FirstAddress | src/format.rs:112 | the first address is aligned to the row width and lies within one row width below the offset |
| Format.RowAddress | src/format.rs:112-128 | the address of row k: the first address plus k times the row width; RowAddressesStep and AlignedRowAddress state its properties |
| Format.RowAddressesStep | src/format.rs:128 | each row's address is the previous one plus the row width, and is aligned |
| Format.HexColumnCharacters | src/format.rs:58-63 | the hex column holds only hex digits and blanks |
| Format.RowHasNoLineBreak | src/format.rs:72-90 | a row contains no line break when none of its glyphs is one |
| Format.JoinedLineCount | src/format.rs:265-276 | joining non-empty lines without breaks gives a text with that many lines |
| Format.RenderLineCount | src/format.rs:123-129 | a rendered view has one line per row when no data byte shows as a line break |
| Format.DefaultRowWidthLineCounts | src/format.rs:265-276 | with the default width, 16 bytes render as one line and 17 as two |
| Format.ZeroIsReplaced | src/byte_mapping.rs:34-36 | under codepage 850 with replacement `.`, byte 0 shows as `.` |
| Format.FmtHexColumn | src/format.rs:77-79 | appends exactly the row's hex column |
| Format.FmtCharColumn | src/format.rs:83-85 | appends exactly the row's glyph column |
| Format.FmtRow | src/format.rs:72-90 | appends exactly the row text: address, hex column, glyph column |
| Format.Fmt | src/format.rs:102-133 | width 0 writes `Invalid HexView::width` and fails; otherwise succeeds and writes exactly the rendered view, one row per chunk, the address growing by the width from row to row |
| Format.LineOccursInJoin | src/format.rs:123-129 | every row's line occurs in the joined text |
| Format.OccursTransitive | src/format.rs:216-262 | text occurring in a line that occurs in a text occurs in that text |
| Format.DigitsOccurInAddress | src/format.rs:74 | an address's unpadded hex digits occur in its eight-digit text |
| Format.AddressOccursInRow | src/format.rs:72-90 | a row begins with its address text, so the address's hex digits occur in the row |
| Format.RowAddressOccurs | src/format.rs:123-129 | the hex digits of every row's address occur in the rendered view |
| Format.AlignedRowAddress | src/format.rs:110-128 | with an aligned offset the first row starts at the offset and row k at offset + k times the width |
| Format.HexDigitsExamples | src/format.rs:216-262 | the unpadded digits the address tests search for are `0`, `A0`, `340` and `360` |
| Format.DefaultOffsetExample | src/format.rs:216-228 | with no offset set, the digits of address 0 occur in the rendered view |
| Format.GivenOffsetExample | src/format.rs:230-244 | with offset 160, its digits occur in the rendered view |
| Format.RowOffsetExample | src/format.rs:246-262 | 80 bytes at offset 800 give five rows, and the digits of rows 2 and 4 (offset plus 2 and 4 widths) occur in the rendered view |
| Format.RenderNonEmpty | src/format.rs:278-291 | a view with a non-zero width and some data renders as a non-empty text |
| Format.CharSlotAsWritten | src/format.rs:65-70 | one glyph for a byte, two blanks for padding |
| Format.AsWrittenGlyphColumnIsWider | src/format.rs:68 | the as-written glyph column is one character wider than the row per padding slot |
| Format.RightPaddedRowAsWritten | src/format.rs:161-171 | the one row of the right-padding test has a 22-character as-written glyph column against the 16 of the expected line |

## Left out

- Rust `Formatter` and `io::Write` plumbing is not modelled. The writers build a `string`, so a sink's own write failures (the `?` after each `write!`) are not modelled.
- Color.ColorlessString.Write: takes already decoded characters and returns their count. It does not model UTF-8 decoding, the panic on invalid UTF-8, or a byte count that differs from the character count.
- Color.ColorRange.Get: `offset + idx` and the `usize` address arithmetic are unbounded here. Rust overflow is not modelled.
- Colour specifications are an opaque type parameter. The termcolor types and the `make_color` helper macros (src/color.rs:80-100) depend on an external crate.
- Terminal detection, coloured printing and `print` are left out. They are I/O, and the snapshot's format.rs has no colour support at all.
- The builder is a class with setters that update its view in place. Rust's by-value chaining of the builder is not modelled.
- The row-width-0 test (src/format.rs:204-214) relies on Rust's `Display` panicking when `fmt` reports an error. The model has only `Fmt`'s error result.
- Codepages 850 and 1252 appear as full tables. The properties stated are both tables' lengths, their NIL entries at 0x00 and at 0xFF (850) or 0x7F (1252), and their agreement with ASCII on 0x20..0x7E. Their other entries are not stated as properties.
- The test strings (src/format.rs:157, 170, 185, 200 and src/lib.rs:27-29) are not compared character by character. Their layout follows from `RowLayout` (where the columns and separators sit), `HexColumnLayout` and `RowSlotsAligned` (where each slot's digits, its following blank and its glyph sit), `RowsAreFull` and `FirstAddress`.
- `Occurs` is a substring test on `string`. It stands for Rust's `str::contains`.
- Format.LineCount: counts line breaks, plus one for a final line that lacks one. It stands for Rust's `str::lines().count()`. That count splits at `\n` and drops one empty final line, just as this function counts. The lines themselves are not modelled.
- examples/example.rs and benches/bench.rs are programs that print. Only the setter they call is modelled.

## Findings

| source | as written | input that shows it | evidently intended | confidence | as-written member | corrected member |
|---|---|---|---|---|---|---|
| src/format.rs:68 | a padding slot in the glyph column is written as two blanks | ten bytes `a` at width 16 (the test at src/format.rs:161-171): six padding slots give a 22-character glyph column | one blank per padding slot, so the glyph column is as wide as the row, as the expected string at src/format.rs:170 shows | not executed | Format.AsWrittenGlyphColumnIsWider | Format.CharColumn |
