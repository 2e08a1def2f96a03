/** Byte-to-glyph mapping: codepage tables and the lookup with a replacement character. */
module ByteMapping {

  /** An unsigned 8-bit value. */
  type Byte = b: int | 0 <= b < 256

  /** A codepage maps a byte to the glyph at that index; it may be shorter than 256 entries. */
  type Codepage = seq<char>

  /** The sentinel entry meaning "this byte has no glyph" (U+FFFD, the Unicode replacement character). */
  const NIL: char := '\U{FFFD}'

  /** 7-bit ASCII: control characters and DEL have no glyph, nor does any byte with the 8th bit set. */
  const CODEPAGE_ASCII: Codepage :=
     ((([NIL,  NIL,  NIL,  NIL,  NIL,  NIL,  NIL,  NIL,  NIL,  NIL,  NIL,  NIL,  NIL,  NIL,  NIL,  NIL] + // 0x00
        [NIL,  NIL,  NIL,  NIL,  NIL,  NIL,  NIL,  NIL,  NIL,  NIL,  NIL,  NIL,  NIL,  NIL,  NIL,  NIL]) + // 0x10
       ([' ',  '!',  '"',  '#',  '$',  '%',  '&', '\'',  '(',  ')',  '*',  '+',  ',',  '-',  '.',  '/'] + // 0x20
        ['0',  '1',  '2',  '3',  '4',  '5',  '6',  '7',  '8',  '9',  ':',  ';',  '<',  '=',  '>',  '?'])) + // 0x30
      ((['@',  'A',  'B',  'C',  'D',  'E',  'F',  'G',  'H',  'I',  'J',  'K',  'L',  'M',  'N',  'O'] + // 0x40
        ['P',  'Q',  'R',  'S',  'T',  'U',  'V',  'W',  'X',  'Y',  'Z',  '[', '\\',  ']',  '^',  '_']) + // 0x50
       (['`',  'a',  'b',  'c',  'd',  'e',  'f',  'g',  'h',  'i',  'j',  'k',  'l',  'm',  'n',  'o'] + // 0x60
        ['p',  'q',  'r',  's',  't',  'u',  'v',  'w',  'x',  'y',  'z',  '{',  '|',  '}',  '~',  NIL]))) + // 0x70
     ((([NIL,  NIL,  NIL,  NIL,  NIL,  NIL,  NIL,  NIL,  NIL,  NIL,  NIL,  NIL,  NIL,  NIL,  NIL,  NIL] + // 0x80
        [NIL,  NIL,  NIL,  NIL,  NIL,  NIL,  NIL,  NIL,  NIL,  NIL,  NIL,  NIL,  NIL,  NIL,  NIL,  NIL]) + // 0x90
       ([NIL,  NIL,  NIL,  NIL,  NIL,  NIL,  NIL,  NIL,  NIL,  NIL,  NIL,  NIL,  NIL,  NIL,  NIL,  NIL] + // 0xA0
        [NIL,  NIL,  NIL,  NIL,  NIL,  NIL,  NIL,  NIL,  NIL,  NIL,  NIL,  NIL,  NIL,  NIL,  NIL,  NIL])) + // 0xB0
      (([NIL,  NIL,  NIL,  NIL,  NIL,  NIL,  NIL,  NIL,  NIL,  NIL,  NIL,  NIL,  NIL,  NIL,  NIL,  NIL] + // 0xC0
        [NIL,  NIL,  NIL,  NIL,  NIL,  NIL,  NIL,  NIL,  NIL,  NIL,  NIL,  NIL,  NIL,  NIL,  NIL,  NIL]) + // 0xD0
       ([NIL,  NIL,  NIL,  NIL,  NIL,  NIL,  NIL,  NIL,  NIL,  NIL,  NIL,  NIL,  NIL,  NIL,  NIL,  NIL] + // 0xE0
        [NIL,  NIL,  NIL,  NIL,  NIL,  NIL,  NIL,  NIL,  NIL,  NIL,  NIL,  NIL,  NIL,  NIL,  NIL,  NIL]))) // 0xF0

  /** Code page 850 (DOS/IBM-ASCII), the default codepage of a view. */
  const CODEPAGE_0850: Codepage :=
     ((([NIL,  '☺',  '☻',  '♥',  '♦',  '♣',  '♠',  '•',  '◘',  '○',  '◙',  '♂',  '♀',  '♪',  '♫',  '☼'] + // 0x00
        ['►',  '◄',  '↕',  '‼',  '¶',  '§',  '▬',  '↨',  '↑',  '↓',  '→',  '←',  '∟',  '↔',  '▲',  '▼']) + // 0x10
       ([' ',  '!',  '"',  '#',  '$',  '%',  '&', '\'',  '(',  ')',  '*',  '+',  ',',  '-',  '.',  '/'] + // 0x20
        ['0',  '1',  '2',  '3',  '4',  '5',  '6',  '7',  '8',  '9',  ':',  ';',  '<',  '=',  '>',  '?'])) + // 0x30
      ((['@',  'A',  'B',  'C',  'D',  'E',  'F',  'G',  'H',  'I',  'J',  'K',  'L',  'M',  'N',  'O'] + // 0x40
        ['P',  'Q',  'R',  'S',  'T',  'U',  'V',  'W',  'X',  'Y',  'Z',  '[', '\\',  ']',  '^',  '_']) + // 0x50
       (['`',  'a',  'b',  'c',  'd',  'e',  'f',  'g',  'h',  'i',  'j',  'k',  'l',  'm',  'n',  'o'] + // 0x60
        ['p',  'q',  'r',  's',  't',  'u',  'v',  'w',  'x',  'y',  'z',  '{',  '|',  '}',  '~',  '⌂']))) + // 0x70
     (((['Ç',  'ü',  'é',  'â',  'ä',  'à',  'å',  'ç',  'ê',  'ë',  'è',  'ï',  'î',  'ì',  'Ä',  'Å'] + // 0x80
        ['É',  'æ',  'Æ',  'ô',  'ö',  'ò',  'û',  'ù',  'ÿ',  'Ö',  'Ü',  'ø',  '£',  'Ø',  '×',  'ƒ']) + // 0x90
       (['á',  'í',  'ó',  'ú',  'ñ',  'Ñ',  'ª',  'º',  '¿',  '⌐',  '¬',  '½',  '¼',  '¡',  '«',  '»'] + // 0xA0
        ['░',  '▒',  '▓',  '│',  '┤',  '╡',  '╢',  '╖',  '╕',  '╣',  '║',  '╗',  '╝',  '╜',  '╛',  '┐'])) + // 0xB0
      ((['└',  '┴',  '┬',  '├',  '─',  '┼',  '╞',  '╟',  '╚',  '╔',  '╩',  '╦',  '╠',  '═',  '╬',  '╧'] + // 0xC0
        ['╨',  '╤',  '╥',  '╙',  '╘',  '╒',  '╕',  '╫',  '╪',  '┘',  '┌',  '█',  '▄',  '▌',  '▐',  '▀']) + // 0xD0
       (['α',  'ß',  'Γ',  '∏',  '∑',  'σ',  'µ',  'τ',  'Φ',  'θ',  'Ω',  'δ',  '∞',  'Ø',  'ε',  '∩'] + // 0xE0
        ['≡',  '±',  '≥',  '≤',  '⌠',  '⌡',  '÷',  '≈',  '▫',  '¨',  '·',  '√',  'ⁿ',  '²',  '■',  NIL]))) // 0xF0

  /** Code page 1252 (Latin 1 Windows, ANSI). */
  const CODEPAGE_1252: Codepage :=
     ((([NIL,  NIL,  NIL,  NIL,  NIL,  NIL,  NIL,  NIL,  NIL,  NIL,  NIL,  NIL,  NIL,  NIL,  NIL,  NIL] + // 0x00
        [NIL,  NIL,  NIL,  NIL,  NIL,  NIL,  NIL,  NIL,  NIL,  NIL,  NIL,  NIL,  NIL,  NIL,  NIL,  NIL]) + // 0x10
       ([' ',  '!',  '"',  '#',  '$',  '%',  '&', '\'',  '(',  ')',  '*',  '+',  ',',  '-',  '.',  '/'] + // 0x20
        ['0',  '1',  '2',  '3',  '4',  '5',  '6',  '7',  '8',  '9',  ':',  ';',  '<',  '=',  '>',  '?'])) + // 0x30
      ((['@',  'A',  'B',  'C',  'D',  'E',  'F',  'G',  'H',  'I',  'J',  'K',  'L',  'M',  'N',  'O'] + // 0x40
        ['P',  'Q',  'R',  'S',  'T',  'U',  'V',  'W',  'X',  'Y',  'Z',  '[', '\\',  ']',  '^',  '_']) + // 0x50
       (['`',  'a',  'b',  'c',  'd',  'e',  'f',  'g',  'h',  'i',  'j',  'k',  'l',  'm',  'n',  'o'] + // 0x60
        ['p',  'q',  'r',  's',  't',  'u',  'v',  'w',  'x',  'y',  'z',  '{',  '|',  '}',  '~',  NIL]))) + // 0x70
     (((['€',  NIL,  '‚',  'ƒ',  '„',  '…',  '†',  '‡',  'ˆ',  '‰',  'Š',  '‹',  'Œ',  NIL,  'Ž',  NIL] + // 0x80
        [NIL,  '‘',  '’',  '“',  '”',  '•',  '–',  '—',  '˜',  '™',  'Š',  '›',  'œ',  NIL,  'ž',  'Ÿ']) + // 0x90
       ([' ',  '¡',  '¢',  '£',  '¤',  '¥',  '¦',  '§',  '¨',  '©',  'ª',  '«',  '¬',  NIL,  '®',  '¯'] + // 0xA0
        ['°',  '±',  '²',  '³',  '´',  'µ',  '¶',  '·',  '¸',  '¹',  'º',  '»',  '¼',  '½',  '¾',  '¿'])) + // 0xB0
      ((['À',  'Á',  'Â',  'Ã',  'Ä',  'Å',  'Æ',  'Ç',  'È',  'É',  'Ê',  'Ë',  'Ì',  'Í',  'Î',  'Ï'] + // 0xC0
        ['Ð',  'Ñ',  'Ò',  'Ó',  'Ô',  'Õ',  'Ö',  '×',  'Ø',  'Ù',  'Ú',  'Û',  'Ü',  'Ý',  'Þ',  'ß']) + // 0xD0
       (['à',  'á',  'â',  'ã',  'ä',  'å',  'æ',  'ç',  'è',  'é',  'ê',  'ë',  'ì',  'í',  'î',  'ï'] + // 0xE0
        ['ð',  'ñ',  'ò',  'ó',  'ô',  'õ',  'ö',  '÷',  'ø',  'ù',  'ú',  'û',  'ü',  'ý',  'þ',  'ÿ']))) // 0xF0

  /** True when the codepage has an entry for `byte`. */
  predicate Contains(byte: Byte, codepage: Codepage)
  {
    byte < |codepage|
  }

  /** True when the codepage's entry for `byte` is the no-glyph sentinel. */
  predicate IsNil(byte: Byte, codepage: Codepage)
    requires Contains(byte, codepage)
  {
    codepage[byte] == NIL
  }

  /** True when the codepage has a real glyph for `byte`; the bounds test guards the entry test. */
  predicate IsPrintable(byte: Byte, codepage: Codepage)
  {
    Contains(byte, codepage) && !IsNil(byte, codepage)
  }

  /** The glyph shown for `byte`: the codepage entry, or `replacement` when there is none. */
  function AsChar(byte: Byte, codepage: Codepage, replacement: char): (c: char)
    ensures byte >= |codepage| ==> c == replacement
    ensures byte < |codepage| && codepage[byte] == NIL ==> c == replacement
    ensures byte < |codepage| && codepage[byte] != NIL ==> c == codepage[byte]
    ensures c == replacement || c in codepage
    ensures replacement != NIL ==> c != NIL
  {
    if !IsPrintable(byte, codepage) then replacement else codepage[byte]
  }

  /** An empty codepage maps every byte to the replacement character. */
  lemma EmptyCodepageAlwaysReplaces(byte: Byte, replacement: char)
    ensures AsChar(byte, [], replacement) == replacement
  {
  }

  /**
   * The ASCII table described by construction: 32 control characters without a glyph,
   * the 95 printable characters with codes 32..126, DEL, then 128 bytes with the 8th bit set.
   */
  function GeneratedAscii(): (cp: Codepage)
    ensures |cp| == 256
  {
    seq(32, _ => NIL) + seq(95, i requires 0 <= i < 95 => (32 + i) as char) + [NIL] + seq(128, _ => NIL)
  }

  // The table proofs below are split by rows: each helper covers a few rows of one table.

  lemma AsciiControlRows()
    ensures forall i | 0x00 <= i < 0x20 :: CODEPAGE_ASCII[i] == NIL
  {
  }

  lemma AsciiPrintableRowsLow()
    ensures forall i | 0x20 <= i < 0x50 :: CODEPAGE_ASCII[i] == i as char
  {
  }

  lemma AsciiPrintableRowsHigh()
    ensures forall i | 0x50 <= i < 0x7F :: CODEPAGE_ASCII[i] == i as char
  {
  }

  lemma AsciiUpperRowsLow()
    ensures forall i | 0x7F <= i < 0xC0 :: CODEPAGE_ASCII[i] == NIL
  {
  }

  lemma AsciiUpperRowsHigh()
    ensures forall i | 0xC0 <= i < 0x100 :: CODEPAGE_ASCII[i] == NIL
  {
  }

  /**
   * The ASCII table has 256 entries: no glyph for the control characters 0..31, the character
   * with that code for 32..126, and no glyph for DEL and every byte with the 8th bit set;
   * it is exactly the table built from those segments.
   */
  lemma AsciiTableMatchesGenerated()
    ensures |CODEPAGE_ASCII| == 256
    ensures forall i | 0 <= i < 256 :: CODEPAGE_ASCII[i] == if 32 <= i < 127 then i as char else NIL
    ensures CODEPAGE_ASCII == GeneratedAscii()
  {
    AsciiControlRows();
    AsciiPrintableRowsLow();
    AsciiPrintableRowsHigh();
    AsciiUpperRowsLow();
    AsciiUpperRowsHigh();
    var generated := GeneratedAscii();
    forall i | 0 <= i < 256 ensures CODEPAGE_ASCII[i] == generated[i] {
    }
  }

  lemma Cp850PrintableRowsLow()
    ensures forall i | 0x20 <= i < 0x40 :: CODEPAGE_0850[i] == i as char
  {
  }

  lemma Cp850PrintableRowsMiddle()
    ensures forall i | 0x40 <= i < 0x60 :: CODEPAGE_0850[i] == i as char
  {
  }

  lemma Cp850PrintableRowsHigh()
    ensures forall i | 0x60 <= i < 0x7F :: CODEPAGE_0850[i] == i as char
  {
  }

  /**
   * Code page 850 has 256 entries, no glyph for 0x00 and 0xFF, and the ASCII glyph for
   * every printable ASCII code 0x20..0x7E.
   */
  lemma Cp850Properties()
    ensures |CODEPAGE_0850| == 256
    ensures CODEPAGE_0850[0x00] == NIL && CODEPAGE_0850[0xFF] == NIL
    ensures forall i | 0x20 <= i < 0x7F :: CODEPAGE_0850[i] == CODEPAGE_ASCII[i] == i as char
  {
    AsciiPrintableRowsLow();
    AsciiPrintableRowsHigh();
    Cp850PrintableRowsLow();
    Cp850PrintableRowsMiddle();
    Cp850PrintableRowsHigh();
  }

  lemma Cp1252PrintableRowsLow()
    ensures forall i | 0x20 <= i < 0x40 :: CODEPAGE_1252[i] == i as char
  {
  }

  lemma Cp1252PrintableRowsMiddle()
    ensures forall i | 0x40 <= i < 0x60 :: CODEPAGE_1252[i] == i as char
  {
  }

  lemma Cp1252PrintableRowsHigh()
    ensures forall i | 0x60 <= i < 0x7F :: CODEPAGE_1252[i] == i as char
  {
  }

  /**
   * Code page 1252 has 256 entries, so every byte is looked up in it; it has no glyph for
   * 0x00 and 0x7F, and the ASCII glyph for every printable ASCII code 0x20..0x7E.
   */
  lemma Cp1252Properties()
    ensures |CODEPAGE_1252| == 256
    ensures CODEPAGE_1252[0x00] == NIL && CODEPAGE_1252[0x7F] == NIL
    ensures forall i | 0x20 <= i < 0x7F :: CODEPAGE_1252[i] == CODEPAGE_ASCII[i] == i as char
  {
    AsciiPrintableRowsLow();
    AsciiPrintableRowsHigh();
    Cp1252PrintableRowsLow();
    Cp1252PrintableRowsMiddle();
    Cp1252PrintableRowsHigh();
  }
}
