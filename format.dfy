/**
 * The hex view: its configuration, the builder that sets it up, and the rendering of a byte
 * slice as rows of `address  hex column  | glyph column |`.
 */
module Format {
  import opened Wrappers
  import opened ByteMapping

  // ---------------------------------------------------------------------------------------
  // Hexadecimal text
  // ---------------------------------------------------------------------------------------

  predicate IsUpperHexDigit(c: char)
  {
    '0' <= c <= '9' || 'A' <= c <= 'F'
  }

  /** The value of an upper-case hexadecimal digit. */
  function HexValue(c: char): (n: nat)
    requires IsUpperHexDigit(c)
    ensures n < 16
  {
    if c <= '9' then c as int - '0' as int else c as int - 'A' as int + 10
  }

  /** The upper-case hexadecimal digit of a value below 16. */
  function HexDigit(n: nat): (c: char)
    requires n < 16
    ensures IsUpperHexDigit(c) && HexValue(c) == n
  {
    if n < 10 then ('0' as int + n) as char else ('A' as int + n - 10) as char
  }

  /** The value of a string of upper-case hexadecimal digits, most significant first. */
  function HexNumber(s: string): nat
    requires forall i | 0 <= i < |s| :: IsUpperHexDigit(s[i])
  {
    if |s| == 0 then 0 else 16 * HexNumber(s[..|s| - 1]) + HexValue(s[|s| - 1])
  }

  function Pow16(k: nat): (p: nat)
    ensures p >= 1
  {
    if k == 0 then 1 else 16 * Pow16(k - 1)
  }

  /** The digits of `n` in upper-case hexadecimal, without leading zeros. */
  function HexDigits(n: nat): (s: string)
    ensures 1 <= |s|
    ensures forall i | 0 <= i < |s| :: IsUpperHexDigit(s[i])
    ensures HexNumber(s) == n
    ensures |s| > 1 ==> s[0] != '0'
  {
    if n < 16 then
      [HexDigit(n)]
    else
      var high := HexDigits(n / 16);
      var s := high + [HexDigit(n % 16)];
      assert s[..|s| - 1] == high;
      assert s[0] == high[0];
      assert |high| == 1 ==> high[0] != '0' by {
        if |high| == 1 {
          assert high == [HexDigit(n / 16)];
          assert HexValue(high[0]) == n / 16 >= 1;
        }
      }
      s
  }

  /** A value below 16^m has at most m hexadecimal digits (for m >= 1). */
  lemma {:induction false} HexDigitsLength(n: nat, m: nat)
    requires 1 <= m && n < Pow16(m)
    ensures |HexDigits(n)| <= m
  {
    if n >= 16 {
      assert Pow16(1) == 16;
      assert n / 16 < Pow16(m - 1);
      HexDigitsLength(n / 16, m - 1);
    }
  }

  /** `s` preceded by as many '0' as it takes to make it at least `width` long. */
  function ZeroPad(s: string, width: nat): (r: string)
    ensures |r| == if |s| >= width then |s| else width
    ensures r[|r| - |s|..] == s
    ensures forall i | 0 <= i < |r| - |s| :: r[i] == '0'
  {
    if |s| >= width then s else seq(width - |s|, _ => '0') + s
  }

  /** Leading zeros do not change the value of a hexadecimal string. */
  lemma {:induction false} LeadingZerosAreIgnored(zeros: string, s: string)
    requires forall i | 0 <= i < |zeros| :: zeros[i] == '0'
    requires forall i | 0 <= i < |s| :: IsUpperHexDigit(s[i])
    ensures HexNumber(zeros + s) == HexNumber(s)
    decreases |s|, |zeros|
  {
    if |s| == 0 {
      assert zeros + s == zeros;
      if |zeros| > 0 {
        LeadingZerosAreIgnored(zeros[..|zeros| - 1], []);
        assert zeros[..|zeros| - 1] + [] == zeros[..|zeros| - 1];
      }
    } else {
      var t := zeros + s;
      assert t[..|t| - 1] == zeros + s[..|s| - 1];
      assert t[|t| - 1] == s[|s| - 1];
      LeadingZerosAreIgnored(zeros, s[..|s| - 1]);
    }
  }

  /** Zero-padding a hexadecimal string keeps it hexadecimal and keeps its value. */
  lemma ZeroPadKeepsValue(s: string, width: nat)
    requires forall i | 0 <= i < |s| :: IsUpperHexDigit(s[i])
    ensures forall i | 0 <= i < |ZeroPad(s, width)| :: IsUpperHexDigit(ZeroPad(s, width)[i])
    ensures HexNumber(ZeroPad(s, width)) == HexNumber(s)
  {
    var r := ZeroPad(s, width);
    var zeros := r[..|r| - |s|];
    assert r == zeros + s;
    LeadingZerosAreIgnored(zeros, s);
  }

  lemma Pow16Of8()
    ensures Pow16(8) == 0x1_0000_0000
  {
  }

  /**
   * The address column: the address in upper-case hexadecimal, zero-padded to
   * eight digits; an address of 2^32 or more keeps all its digits.
   */
  function AddressText(address: nat): (s: string)
    ensures |s| >= 8
    ensures address < 0x1_0000_0000 ==> |s| == 8
    ensures forall i | 0 <= i < |s| :: IsUpperHexDigit(s[i])
    ensures HexNumber(s) == address
    ensures |s| > 8 ==> s[0] != '0'
  {
    var digits := HexDigits(address);
    ZeroPadKeepsValue(digits, 8);
    assert |ZeroPad(digits, 8)| > 8 ==> ZeroPad(digits, 8) == digits;
    assert address < 0x1_0000_0000 ==> |digits| <= 8 by {
      if address < 0x1_0000_0000 {
        Pow16Of8();
        HexDigitsLength(address, 8);
      }
    }
    ZeroPad(digits, 8)
  }

  // ---------------------------------------------------------------------------------------
  // Slots and columns
  // ---------------------------------------------------------------------------------------

  /** One position of a row: a data byte, or `None` for padding. */
  type Slot = Option<Byte>

  /** The data bytes of a slot sequence, in order, with the padding dropped. */
  function DataOf(slots: seq<Slot>): (data: seq<Byte>)
    ensures |data| <= |slots|
  {
    if |slots| == 0 then []
    else (match slots[0] case Some(b) => [b] case None => []) + DataOf(slots[1..])
  }

  lemma {:induction false} DataOfAppend(a: seq<Slot>, b: seq<Slot>)
    ensures DataOf(a + b) == DataOf(a) + DataOf(b)
    decreases |a|
  {
    if |a| == 0 {
      assert a + b == b;
    } else {
      assert (a + b)[1..] == a[1..] + b;
      DataOfAppend(a[1..], b);
    }
  }

  /** A slot in the hex column: two upper-case digits, or two blanks for padding. */
  function HexSlot(slot: Slot): (s: string)
    ensures |s| == 2
    ensures slot.None? <==> s == "  "
    ensures slot.Some? ==>
      && IsUpperHexDigit(s[0]) && IsUpperHexDigit(s[1])
      && 16 * HexValue(s[0]) + HexValue(s[1]) == slot.value
  {
    match slot
    case Some(b) => [HexDigit(b / 16), HexDigit(b % 16)]
    case None => "  "
  }

  /** A slot in the glyph column: the byte's glyph, or one blank for padding. */
  function CharSlot(codepage: Codepage, replacement: char, slot: Slot): (c: char)
    ensures slot.None? ==> c == ' '
    ensures slot.Some? ==> c == AsChar(slot.value, codepage, replacement)
  {
    match slot
    case Some(b) => AsChar(b, codepage, replacement)
    case None => ' '
  }

  /** The hex column of a row: the hex slots joined by single blanks, no leading blank. */
  function HexColumn(row: seq<Slot>): (s: string)
    ensures |row| == 0 ==> s == ""
    ensures |row| > 0 ==> |s| == 3 * |row| - 1
  {
    if |row| == 0 then ""
    else if |row| == 1 then HexSlot(row[0])
    else HexColumn(row[..|row| - 1]) + " " + HexSlot(row[|row| - 1])
  }

  /**
   * In the hex column slot k's two digits sit at 3k and 3k + 1, and a blank at 3k + 2
   * separates slot k from slot k + 1.
   */
  lemma {:induction false} HexColumnLayout(row: seq<Slot>)
    ensures forall k | 0 <= k < |row| ::
      HexColumn(row)[3 * k] == HexSlot(row[k])[0] && HexColumn(row)[3 * k + 1] == HexSlot(row[k])[1]
    ensures forall k | 0 <= k < |row| - 1 :: HexColumn(row)[3 * k + 2] == ' '
  {
    if |row| > 1 {
      var init := row[..|row| - 1];
      HexColumnLayout(init);
      var last := HexSlot(row[|row| - 1]);
      var h := HexColumn(init);
      var s := HexColumn(row);
      assert s == h + " " + last;
      forall k | 0 <= k < |row|
        ensures s[3 * k] == HexSlot(row[k])[0] && s[3 * k + 1] == HexSlot(row[k])[1]
      {
        if k < |row| - 1 {
          assert init[k] == row[k];
          assert s[3 * k] == h[3 * k] && s[3 * k + 1] == h[3 * k + 1];
        } else {
          assert s[3 * k] == last[0] && s[3 * k + 1] == last[1];
        }
      }
      forall k | 0 <= k < |row| - 1 ensures s[3 * k + 2] == ' ' {
        if k < |row| - 2 {
          assert s[3 * k + 2] == h[3 * k + 2];
        }
      }
    }
  }

  /** The glyph column of a row: one glyph per slot, no separators. */
  function CharColumn(codepage: Codepage, replacement: char, row: seq<Slot>): (s: string)
    ensures |s| == |row|
    ensures forall k | 0 <= k < |row| :: s[k] == CharSlot(codepage, replacement, row[k])
  {
    if |row| == 0 then ""
    else CharColumn(codepage, replacement, row[..|row| - 1]) + [CharSlot(codepage, replacement, row[|row| - 1])]
  }

  /** One rendered row: `AAAAAAAA  HH HH .. HH  | cc..c |`. */
  function RowText(address: nat, codepage: Codepage, replacement: char, row: seq<Slot>): string
  {
    (AddressText(address) + "  " + HexColumn(row)) + ("  " + "| " + CharColumn(codepage, replacement, row) + " |")
  }

  /**
   * Where the separators of a row land, for any address text `a` of eight characters, hex
   * column `h` of 3n - 1 characters and glyph column `c` of n characters.
   */
  lemma RowSeparators(a: string, h: string, c: string, n: nat)
    requires |a| == 8 && n > 0 && |h| == 3 * n - 1 && |c| == n
    ensures var s := (a + "  " + h) + ("  " + "| " + c + " |");
      && |s| == 4 * n + 15
      && s[..8] == a && s[8..10] == "  "
      && s[3 * n + 9 .. 3 * n + 13] == "  | " && s[|s| - 2..] == " |"
  {
  }

  /** Where the two columns of a row land, for the same `a`, `h` and `c`. */
  lemma RowColumnSlices(a: string, h: string, c: string, n: nat)
    requires |a| == 8 && n > 0 && |h| == 3 * n - 1 && |c| == n
    ensures var s := (a + "  " + h) + ("  " + "| " + c + " |");
      s[10 .. 3 * n + 9] == h && s[3 * n + 13 .. 4 * n + 13] == c
  {
  }

  /** Where the characters of the two columns of a row land. */
  lemma RowColumns(a: string, h: string, c: string, n: nat)
    requires |a| == 8 && n > 0 && |h| == 3 * n - 1 && |c| == n
    ensures var s := (a + "  " + h) + ("  " + "| " + c + " |");
      && (forall k | 0 <= k < n :: s[10 + 3 * k] == h[3 * k] && s[11 + 3 * k] == h[3 * k + 1])
      && (forall k | 0 <= k < n - 1 :: s[12 + 3 * k] == h[3 * k + 2])
      && (forall k | 0 <= k < n :: s[3 * n + 13 + k] == c[k])
  {
    var s := (a + "  " + h) + ("  " + "| " + c + " |");
    forall k | 0 <= k < n ensures s[10 + 3 * k] == h[3 * k] && s[11 + 3 * k] == h[3 * k + 1] {
    }
    forall k | 0 <= k < n - 1 ensures s[12 + 3 * k] == h[3 * k + 2] {
    }
  }

  /**
   * The layout of a row of n > 0 slots at an address below 2^32: 4n + 15 characters, the
   * eight address digits, two blanks, the hex column (at 10 .. 3n + 9), two blanks and the
   * opening bar, the glyph column (at 3n + 13 .. 4n + 13) and the closing bar.
   */
  lemma RowLayout(address: nat, codepage: Codepage, replacement: char, row: seq<Slot>)
    requires address < 0x1_0000_0000 && |row| > 0
    ensures var s := RowText(address, codepage, replacement, row);
      && |s| == 4 * |row| + 15
      && s[..8] == AddressText(address)
      && s[8..10] == "  " && s[3 * |row| + 9 .. 3 * |row| + 13] == "  | " && s[|s| - 2..] == " |"
      && s[10 .. 3 * |row| + 9] == HexColumn(row)
      && s[3 * |row| + 13 .. 4 * |row| + 13] == CharColumn(codepage, replacement, row)
  {
    var h := HexColumn(row);
    var c := CharColumn(codepage, replacement, row);
    RowSeparators(AddressText(address), h, c, |row|);
    RowColumnSlices(AddressText(address), h, c, |row|);
  }

  /**
   * In a row of n > 0 slots at an address below 2^32, slot k's hex digits sit at 10 + 3k,
   * a blank at 12 + 3k separates it from slot k + 1, and its glyph sits at 3n + 13 + k, so
   * that both columns of a slot show the same byte.
   */
  lemma RowSlotsAligned(address: nat, codepage: Codepage, replacement: char, row: seq<Slot>)
    requires address < 0x1_0000_0000 && |row| > 0
    ensures var s := RowText(address, codepage, replacement, row);
      && (forall k | 0 <= k < |row| :: s[10 + 3 * k] == HexSlot(row[k])[0] && s[11 + 3 * k] == HexSlot(row[k])[1])
      && (forall k | 0 <= k < |row| - 1 :: s[12 + 3 * k] == ' ')
      && (forall k | 0 <= k < |row| :: s[3 * |row| + 13 + k] == CharSlot(codepage, replacement, row[k]))
  {
    HexColumnLayout(row);
    var h := HexColumn(row);
    var c := CharColumn(codepage, replacement, row);
    RowColumns(AddressText(address), h, c, |row|);
  }

  // ---------------------------------------------------------------------------------------
  // Arithmetic helpers
  // ---------------------------------------------------------------------------------------

  lemma {:induction false} MulAtLeast(w: nat, d: nat)
    requires d >= 1
    ensures w * d >= w
  {
    if d > 1 {
      MulAtLeast(w, d - 1);
      assert w * d == w * (d - 1) + w;
    }
  }

  /** Quotient and remainder are the only ones with `a == w * q + r` and `0 <= r < w`. */
  lemma ModUnique(a: int, w: nat, q: int, r: int)
    requires 0 <= r < w && a == w * q + r
    ensures a % w == r && a / w == q
  {
    var q', r' := a / w, a % w;
    assert a == w * (a / w) + a % w;
    assert w * q - w * q' == w * (q - q');
    if q > q' {
      MulAtLeast(w, q - q');
    } else if q < q' {
      assert w * q' - w * q == w * (q' - q);
      MulAtLeast(w, q' - q);
    }
  }

  // ---------------------------------------------------------------------------------------
  // Configuration and builder
  // ---------------------------------------------------------------------------------------

  /** How a byte slice is displayed. */
  datatype HexView = HexView(
    addressOffset: nat,           // the address shown for the first data byte
    codepage: Codepage,           // the glyph table of the glyph column
    data: seq<Byte>,              // the bytes to display
    rowWidth: nat,                // slots per row; zero is rejected when rendering
    replacementCharacter: char)   // the glyph for a byte the codepage does not map

  const DEFAULT_ROW_WIDTH: nat := 16
  const DEFAULT_REPLACEMENT_CHARACTER: char := '.'

  /** A view of `data` with the defaults: address offset 0, code page 850, 16 bytes per row. */
  function NewHexView(data: seq<Byte>): (v: HexView)
    ensures v.data == data && v.addressOffset == 0 && v.rowWidth == 16
    ensures v.codepage == CODEPAGE_0850 && v.replacementCharacter == '.'
  {
    HexView(0, CODEPAGE_0850, data, DEFAULT_ROW_WIDTH, DEFAULT_REPLACEMENT_CHARACTER)
  }

  /** Builds a view step by step; each setter changes only its own field. */
  class HexViewBuilder {
    var hexView: HexView

    constructor (data: seq<Byte>)
      ensures hexView == NewHexView(data)
    {
      hexView := NewHexView(data);
    }

    method AddressOffset(offset: nat)
      modifies this
      ensures hexView == old(hexView).(addressOffset := offset)
    {
      hexView := hexView.(addressOffset := offset);
    }

    method Codepage(codepage: Codepage)
      modifies this
      ensures hexView == old(hexView).(codepage := codepage)
    {
      hexView := hexView.(codepage := codepage);
    }

    method RowWidth(width: nat)
      modifies this
      ensures hexView == old(hexView).(rowWidth := width)
    {
      hexView := hexView.(rowWidth := width);
    }

    method ReplacementCharacter(c: char)
      modifies this
      ensures hexView == old(hexView).(replacementCharacter := c)
    {
      hexView := hexView.(replacementCharacter := c);
    }

    method Finish() returns (v: HexView)
      ensures v == hexView
    {
      v := hexView;
    }
  }

  // ---------------------------------------------------------------------------------------
  // Padding and rows
  // ---------------------------------------------------------------------------------------

  /**
   * The number of blank slots before the first byte: the column of `addressOffset` in a row
   * of `rowWidth` slots, so that the first row starts at an aligned address.
   */
  function BeginPadding(addressOffset: nat, rowWidth: nat): (r: nat)
    requires rowWidth != 0
    ensures r < rowWidth && r <= addressOffset
    ensures (addressOffset - r) % rowWidth == 0
  {
    var r := addressOffset % rowWidth;
    assert addressOffset == rowWidth * (addressOffset / rowWidth) + addressOffset % rowWidth;
    ModUnique(addressOffset - r, rowWidth, addressOffset / rowWidth, 0);
    r
  }

  lemma BeginPaddingExamples()
    ensures BeginPadding(0, 16) == 0 && BeginPadding(16, 16) == 0 && BeginPadding(54, 16) == 6
  {
  }

  /** The number of blank slots after the last byte that completes the last row. */
  function EndPadding(dataSize: nat, rowWidth: nat): (r: nat)
    requires rowWidth != 0
    ensures r < rowWidth
    ensures (dataSize + r) % rowWidth == 0
  {
    var m := dataSize % rowWidth;
    assert dataSize == rowWidth * (dataSize / rowWidth) + dataSize % rowWidth;
    if m == 0 then
      ModUnique(rowWidth, rowWidth, 1, 0);
      ModUnique(dataSize, rowWidth, dataSize / rowWidth, 0);
      (rowWidth - m) % rowWidth
    else
      ModUnique(rowWidth - m, rowWidth, 0, rowWidth - m);
      ModUnique(dataSize + (rowWidth - m), rowWidth, dataSize / rowWidth + 1, 0);
      (rowWidth - m) % rowWidth
  }

  /** `n` padding slots. */
  function Blanks(n: nat): (s: seq<Slot>)
    ensures |s| == n && forall k | 0 <= k < n :: s[k] == None
  {
    seq(n, _ => None)
  }

  /** Every data byte as a slot, in order. */
  function ByteSlots(data: seq<Byte>): (s: seq<Slot>)
    ensures |s| == |data| && forall i | 0 <= i < |data| :: s[i] == Some(data[i])
  {
    seq(|data|, i requires 0 <= i < |data| => Some(data[i]))
  }

  /** `beginPadding` blank slots, every data byte in order, then `endPadding` blank slots. */
  function PaddedSlots(beginPadding: nat, data: seq<Byte>, endPadding: nat): (s: seq<Slot>)
    ensures |s| == beginPadding + |data| + endPadding
    ensures forall k | 0 <= k < beginPadding :: s[k] == None
    ensures forall i | 0 <= i < |data| :: s[beginPadding + i] == Some(data[i])
    ensures forall k | beginPadding + |data| <= k < |s| :: s[k] == None
  {
    Blanks(beginPadding) + ByteSlots(data) + Blanks(endPadding)
  }

  lemma {:induction false} DataOfBlanks(n: nat)
    ensures DataOf(Blanks(n)) == []
  {
    if n > 0 {
      assert Blanks(n)[1..] == Blanks(n - 1);
      DataOfBlanks(n - 1);
    }
  }

  lemma {:induction false} DataOfByteSlots(data: seq<Byte>)
    ensures DataOf(ByteSlots(data)) == data
  {
    if |data| > 0 {
      assert ByteSlots(data)[1..] == ByteSlots(data[1..]);
      DataOfByteSlots(data[1..]);
    }
  }

  /** The padded slot sequence holds every data byte exactly once, in order. */
  lemma PaddedSlotsKeepData(beginPadding: nat, data: seq<Byte>, endPadding: nat)
    ensures DataOf(PaddedSlots(beginPadding, data, endPadding)) == data
  {
    DataOfAppend(Blanks(beginPadding) + ByteSlots(data), Blanks(endPadding));
    DataOfAppend(Blanks(beginPadding), ByteSlots(data));
    DataOfBlanks(beginPadding);
    DataOfByteSlots(data);
    DataOfBlanks(endPadding);
  }

  /** The concatenation of a sequence of rows. */
  function Flatten<T>(rows: seq<seq<T>>): seq<T>
  {
    if |rows| == 0 then [] else rows[0] + Flatten(rows[1..])
  }

  /**
   * Consecutive chunks of `width` elements; only the last may be shorter, and none is empty
   * (the chunking of an iterator).
   */
  function Chunks<T>(s: seq<T>, width: nat): (rows: seq<seq<T>>)
    requires width != 0
    ensures Flatten(rows) == s
    ensures forall k | 0 <= k < |rows| :: 0 < |rows[k]| <= width
    ensures forall k | 0 <= k < |rows| - 1 :: |rows[k]| == width
    decreases |s|
  {
    if |s| == 0 then []
    else if |s| <= width then
      assert Flatten([s]) == s + Flatten([]);
      [s]
    else
      var rest := Chunks(s[width..], width);
      var rows := [s[..width]] + rest;
      assert rows[1..] == rest;
      assert s == s[..width] + s[width..];
      rows
  }

  /** A sequence of `count` full rows' worth of elements cuts into `count` full chunks. */
  lemma {:induction false} ChunksOfFullRows<T>(s: seq<T>, width: nat, count: nat)
    requires width != 0 && |s| == width * count
    ensures |Chunks(s, width)| == count
    ensures forall k | 0 <= k < count :: |Chunks(s, width)[k]| == width
    decreases count
  {
    if count == 1 {
      assert Chunks(s, width) == [s];
    } else if count > 1 {
      assert width * count - width == width * (count - 1);
      assert |s[width..]| == width * (count - 1);
      ChunksOfFullRows(s[width..], width, count - 1);
      var rows := Chunks(s, width);
      assert rows == [s[..width]] + Chunks(s[width..], width);
      forall k | 0 < k < count ensures |rows[k]| == width {
        assert rows[k] == Chunks(s[width..], width)[k - 1];
      }
    }
  }

  /** When the length is a multiple of the width, every chunk is full. */
  lemma ChunksOfMultiple<T>(s: seq<T>, width: nat)
    requires width != 0 && |s| % width == 0
    ensures |Chunks(s, width)| * width == |s|
    ensures forall k | 0 <= k < |Chunks(s, width)| :: |Chunks(s, width)[k]| == width
  {
    var count := |s| / width;
    assert |s| == width * count;
    ChunksOfFullRows(s, width, count);
    assert count * width == width * count;
  }

  // ---------------------------------------------------------------------------------------
  // The rendered view
  // ---------------------------------------------------------------------------------------

  /** The slot sequence of a view: begin padding, the data, end padding. */
  function Slots(v: HexView): seq<Slot>
    requires v.rowWidth != 0
  {
    var begin := BeginPadding(v.addressOffset, v.rowWidth);
    PaddedSlots(begin, v.data, EndPadding(begin + |v.data|, v.rowWidth))
  }

  /** The rows of a view: its slot sequence cut into chunks of `rowWidth`. */
  function Rows(v: HexView): seq<seq<Slot>>
    requires v.rowWidth != 0
  {
    Chunks(Slots(v), v.rowWidth)
  }

  /**
   * Every row has exactly `rowWidth` slots, the rows hold every data byte exactly once and in
   * order, and there are as many rows as it takes to hold the begin padding and the data.
   */
  lemma RowsAreFull(v: HexView)
    requires v.rowWidth != 0
    ensures forall k | 0 <= k < |Rows(v)| :: |Rows(v)[k]| == v.rowWidth
    ensures DataOf(Flatten(Rows(v))) == v.data
    ensures var used := BeginPadding(v.addressOffset, v.rowWidth) + |v.data|;
      used <= |Rows(v)| * v.rowWidth < used + v.rowWidth
  {
    var begin := BeginPadding(v.addressOffset, v.rowWidth);
    var end := EndPadding(begin + |v.data|, v.rowWidth);
    var slots := PaddedSlots(begin, v.data, end);
    assert Slots(v) == slots;
    assert |slots| == begin + |v.data| + end;
    ChunksOfMultiple(slots, v.rowWidth);
    assert Rows(v) == Chunks(slots, v.rowWidth);
    PaddedSlotsKeepData(begin, v.data, end);
  }

  /**
   * The address printed on the first row: the address offset rounded down to a multiple of
   * the row width (never below zero).
   */
  function FirstAddress(v: HexView): (a: nat)
    requires v.rowWidth != 0
    ensures a % v.rowWidth == 0
    ensures a <= v.addressOffset < a + v.rowWidth
  {
    v.addressOffset - BeginPadding(v.addressOffset, v.rowWidth)
  }

  /** The address printed on row `k`. */
  function RowAddress(v: HexView, k: nat): nat
    requires v.rowWidth != 0
  {
    FirstAddress(v) + k * v.rowWidth
  }

  /** Each row's address is the previous one plus the row width, and stays aligned. */
  lemma {:induction false} RowAddressesStep(v: HexView, k: nat)
    requires v.rowWidth != 0
    ensures RowAddress(v, k + 1) == RowAddress(v, k) + v.rowWidth
    ensures RowAddress(v, k) % v.rowWidth == 0
  {
    var w := v.rowWidth;
    var q := FirstAddress(v) / w;
    assert FirstAddress(v) == w * (FirstAddress(v) / w) + FirstAddress(v) % w;
    ModUnique(RowAddress(v, k), w, q + k, 0);
  }

  /** The rendered rows of a view, one string per row. */
  function Lines(v: HexView): (lines: seq<string>)
    requires v.rowWidth != 0
    ensures |lines| == |Rows(v)|
  {
    var rows := Rows(v);
    seq(|rows|, k requires 0 <= k < |rows| =>
      RowText(RowAddress(v, k), v.codepage, v.replacementCharacter, rows[k]))
  }

  /** Lines joined by line breaks, without a trailing one. */
  function JoinLines(lines: seq<string>): string
  {
    if |lines| == 0 then ""
    else if |lines| == 1 then lines[0]
    else JoinLines(lines[..|lines| - 1]) + "\n" + lines[|lines| - 1]
  }

  /** The text a valid view renders to. */
  function Render(v: HexView): string
    requires v.rowWidth != 0
  {
    JoinLines(Lines(v))
  }

  // ---------------------------------------------------------------------------------------
  // Counting lines
  // ---------------------------------------------------------------------------------------

  function Count(c: char, s: string): nat
  {
    if |s| == 0 then 0 else Count(c, s[..|s| - 1]) + (if s[|s| - 1] == c then 1 else 0)
  }

  lemma {:induction false} CountAppend(c: char, a: string, b: string)
    ensures Count(c, a + b) == Count(c, a) + Count(c, b)
    decreases |b|
  {
    if |b| == 0 {
      assert a + b == a;
    } else {
      assert (a + b)[..|a + b| - 1] == a + b[..|b| - 1];
      CountAppend(c, a, b[..|b| - 1]);
    }
  }

  lemma {:induction false} CountAbsent(c: char, s: string)
    requires forall i | 0 <= i < |s| :: s[i] != c
    ensures Count(c, s) == 0
  {
    if |s| > 0 {
      CountAbsent(c, s[..|s| - 1]);
    }
  }

  /**
   * The number of lines a text splits into, as a line iterator counts them: one per line
   * break, plus one for a last line that does not end in a break.
   */
  function LineCount(s: string): nat
  {
    if |s| == 0 then 0 else Count('\n', s) + (if s[|s| - 1] == '\n' then 0 else 1)
  }

  /** Non-empty lines without line breaks, once joined, count as that many lines again. */
  lemma {:induction false} JoinedLineCount(lines: seq<string>)
    requires forall k | 0 <= k < |lines| :: |lines[k]| > 0
    requires forall k, i | 0 <= k < |lines| && 0 <= i < |lines[k]| :: lines[k][i] != '\n'
    ensures LineCount(JoinLines(lines)) == |lines|
  {
    if |lines| == 1 {
      CountAbsent('\n', lines[0]);
    } else if |lines| > 1 {
      var init := lines[..|lines| - 1];
      var last := lines[|lines| - 1];
      JoinedLineCount(init);
      CountAppend('\n', JoinLines(init) + "\n", last);
      CountAppend('\n', JoinLines(init), "\n");
      CountAbsent('\n', last);
      assert Count('\n', "\n") == 1 by {
        assert "\n"[..0] == "";
      }
      var joined := JoinLines(init) + "\n" + last;
      assert joined[|joined| - 1] == last[|last| - 1];
      assert JoinLines(init)[|JoinLines(init)| - 1] != '\n';
    }
  }

  /** Every element of a chunk comes from the chunked sequence. */
  lemma {:induction false} ChunkElementsComeFromInput<T>(s: seq<T>, width: nat)
    requires width != 0
    ensures forall k, j | 0 <= k < |Chunks(s, width)| && 0 <= j < |Chunks(s, width)[k]| ::
      Chunks(s, width)[k][j] in s
    decreases |s|
  {
    if |s| > width {
      ChunkElementsComeFromInput(s[width..], width);
      forall k, j | 0 <= k < |Chunks(s, width)| && 0 <= j < |Chunks(s, width)[k]|
        ensures Chunks(s, width)[k][j] in s
      {
        if k > 0 {
          assert Chunks(s, width)[k] == Chunks(s[width..], width)[k - 1];
          var x := Chunks(s, width)[k][j];
          assert x in s[width..];
          var i :| 0 <= i < |s[width..]| && s[width..][i] == x;
          assert s[width + i] == x;
        } else {
          assert Chunks(s, width)[0][j] == s[j];
        }
      }
    }
  }

  /** A filled slot of a padded slot sequence holds one of the data bytes. */
  lemma PaddedSlotHoldsData(beginPadding: nat, data: seq<Byte>, endPadding: nat, x: Slot)
    requires x in PaddedSlots(beginPadding, data, endPadding) && x.Some?
    ensures x.value in data
  {
    var s := PaddedSlots(beginPadding, data, endPadding);
    var i :| 0 <= i < |s| && s[i] == x;
    assert beginPadding <= i < beginPadding + |data|;
    assert s[beginPadding + (i - beginPadding)] == Some(data[i - beginPadding]);
  }

  /** A filled slot of a view holds one of the view's data bytes. */
  lemma RowSlotsHoldData(v: HexView, k: nat, j: nat)
    requires v.rowWidth != 0 && k < |Rows(v)| && j < |Rows(v)[k]| && Rows(v)[k][j].Some?
    ensures Rows(v)[k][j].value in v.data
  {
    var begin := BeginPadding(v.addressOffset, v.rowWidth);
    var end := EndPadding(begin + |v.data|, v.rowWidth);
    ChunkElementsComeFromInput(PaddedSlots(begin, v.data, end), v.rowWidth);
    PaddedSlotHoldsData(begin, v.data, end, Rows(v)[k][j]);
  }

  /** The hex column holds nothing but hex digits and blanks. */
  lemma HexColumnCharacters(row: seq<Slot>)
    ensures forall i | 0 <= i < |HexColumn(row)| :: IsUpperHexDigit(HexColumn(row)[i]) || HexColumn(row)[i] == ' '
  {
    HexColumnLayout(row);
    var h := HexColumn(row);
    forall i | 0 <= i < |h| ensures IsUpperHexDigit(h[i]) || h[i] == ' ' {
      var k := i / 3;
      assert i == 3 * (i / 3) + i % 3;
      assert k < |row|;
      var hs := HexSlot(row[k]);
      if row[k].None? {
        assert hs[0] == ' ' && hs[1] == ' ';
      }
      if i % 3 == 0 {
        assert i == 3 * k;
      } else if i % 3 == 1 {
        assert i == 3 * k + 1;
      } else {
        assert i == 3 * k + 2 && k < |row| - 1;
      }
    }
  }

  /** A row assembled from parts without `x` has no `x`, unless `x` is one of its separators. */
  lemma RowPartsLack(a: string, h: string, c: string, x: char)
    requires x !in a && x !in h && x !in c && x != ' ' && x != '|'
    ensures x !in (a + "  " + h) + ("  " + "| " + c + " |")
  {
  }

  /** A string of hex digits is free of any character that is not one. */
  lemma HexDigitsLack(s: string, x: char)
    requires !IsUpperHexDigit(x) && x != ' '
    requires forall i | 0 <= i < |s| :: IsUpperHexDigit(s[i]) || s[i] == ' '
    ensures x !in s
  {
  }

  /** A rendered row contains no line break, as long as no glyph it shows is one. */
  lemma RowHasNoLineBreak(address: nat, codepage: Codepage, replacement: char, row: seq<Slot>)
    requires forall k | 0 <= k < |row| && row[k].Some? :: AsChar(row[k].value, codepage, replacement) != '\n'
    ensures '\n' !in RowText(address, codepage, replacement, row)
  {
    HexColumnCharacters(row);
    var a := AddressText(address);
    var c := CharColumn(codepage, replacement, row);
    HexDigitsLack(a, '\n');
    HexDigitsLack(HexColumn(row), '\n');
    RowPartsLack(a, HexColumn(row), c, '\n');
  }

  /**
   * A rendered view has one line per row, as long as the codepage shows no data byte as a
   * line break.
   */
  lemma RenderLineCount(v: HexView)
    requires v.rowWidth != 0
    requires forall i | 0 <= i < |v.data| :: AsChar(v.data[i], v.codepage, v.replacementCharacter) != '\n'
    ensures LineCount(Render(v)) == |Rows(v)|
  {
    var lines := Lines(v);
    forall k | 0 <= k < |lines|
      ensures |lines[k]| > 0 && '\n' !in lines[k]
    {
      var row := Rows(v)[k];
      forall j | 0 <= j < |row| && row[j].Some?
        ensures AsChar(row[j].value, v.codepage, v.replacementCharacter) != '\n'
      {
        RowSlotsHoldData(v, k, j);
      }
      RowHasNoLineBreak(RowAddress(v, k), v.codepage, v.replacementCharacter, row);
      assert |AddressText(RowAddress(v, k))| >= 8;
    }
    JoinedLineCount(lines);
  }

  /**
   * With the default row width, sixteen bytes render as one line and seventeen as two.
   */
  lemma DefaultRowWidthLineCounts()
    ensures LineCount(Render(NewHexView(seq(16, _ => 0)))) == 1
    ensures LineCount(Render(NewHexView(seq(17, _ => 0)))) == 2
  {
    ZeroIsReplaced();
    var v16 := NewHexView(seq(16, _ => 0));
    var v17 := NewHexView(seq(17, _ => 0));
    RowsAreFull(v16);
    RowsAreFull(v17);
    RenderLineCount(v16);
    RenderLineCount(v17);
  }

  lemma ZeroIsReplaced()
    ensures AsChar(0, CODEPAGE_0850, '.') == '.'
  {
    Cp850Properties();
  }

  // ---------------------------------------------------------------------------------------
  // The writer
  // ---------------------------------------------------------------------------------------

  /** Extending a row prefix by one slot extends its hex column by a blank and that slot. */
  lemma HexColumnStep(row: seq<Slot>, i: nat)
    requires i < |row|
    ensures HexColumn(row[..i + 1]) == HexColumn(row[..i]) + (if i == 0 then "" else " ") + HexSlot(row[i])
  {
    assert row[..i + 1][..i] == row[..i];
    if i == 0 {
      assert HexColumn(row[..0]) + "" + HexSlot(row[0]) == HexSlot(row[0]);
    }
  }

  /** Extending a row prefix by one slot extends its glyph column by that slot's glyph. */
  lemma CharColumnStep(codepage: Codepage, replacement: char, row: seq<Slot>, i: nat)
    requires i < |row|
    ensures CharColumn(codepage, replacement, row[..i + 1])
      == CharColumn(codepage, replacement, row[..i]) + [CharSlot(codepage, replacement, row[i])]
  {
    assert row[..i + 1][..i] == row[..i];
  }

  /** Joining one more line adds a line break (unless it is the first) and the line. */
  lemma JoinLinesStep(lines: seq<string>, k: nat)
    requires k < |lines|
    ensures JoinLines(lines[..k + 1]) == JoinLines(lines[..k]) + (if k == 0 then "" else "\n") + lines[k]
  {
    assert lines[..k + 1][..k] == lines[..k];
    if k == 0 {
      assert JoinLines(lines[..0]) + "" + lines[0] == lines[0];
    }
  }

  /** Appends a row's hex column to `out`: a blank before every slot but the first. */
  method FmtHexColumn(out: string, row: seq<Slot>) returns (result: string)
    ensures result == out + HexColumn(row)
  {
    result := out;
    for i := 0 to |row|
      invariant result == out + HexColumn(row[..i])
    {
      HexColumnStep(row, i);
      var separator := if i > 0 then " " else "";
      var prefix, slot := HexColumn(row[..i]), HexSlot(row[i]);
      assert out + prefix + separator + slot == out + (prefix + separator + slot);
      result := result + separator + slot;
    }
    assert row[..|row|] == row;
  }

  /** Appends a row's glyph column to `out`: one glyph per slot. */
  method FmtCharColumn(out: string, codepage: Codepage, replacement: char, row: seq<Slot>)
    returns (result: string)
    ensures result == out + CharColumn(codepage, replacement, row)
  {
    result := out;
    for i := 0 to |row|
      invariant result == out + CharColumn(codepage, replacement, row[..i])
    {
      CharColumnStep(codepage, replacement, row, i);
      var prefix, glyph := CharColumn(codepage, replacement, row[..i]), [CharSlot(codepage, replacement, row[i])];
      assert out + prefix + glyph == out + (prefix + glyph);
      result := result + glyph;
    }
    assert row[..|row|] == row;
  }

  /** Appends one row to `out`: the address, the hex column and the glyph column between bars. */
  method FmtRow(out: string, address: nat, codepage: Codepage, replacement: char, row: seq<Slot>)
    returns (result: string)
    ensures result == out + RowText(address, codepage, replacement, row)
  {
    var left := FmtHexColumn(AddressText(address) + "  ", row);
    var right := FmtCharColumn("  " + "| ", codepage, replacement, row);
    result := out + (left + (right + " |"));
  }

  /**
   * Formats a view. A row width of zero is refused with an error after the message
   * `Invalid HexView::width`; otherwise the rows are written one after another, separated by
   * line breaks, the address growing by the row width from row to row.
   */
  method Fmt(v: HexView) returns (out: string, r: Result<(), FmtError>)
    ensures v.rowWidth == 0 ==> out == "Invalid HexView::width" && r == Err(FmtError)
    ensures v.rowWidth != 0 ==> out == Render(v) && r == Ok(())
  {
    if v.rowWidth == 0 {
      out := "Invalid HexView::width";
      r := Err(FmtError);
      return;
    }
    var beginPadding := BeginPadding(v.addressOffset, v.rowWidth);
    var endPadding := EndPadding(beginPadding + |v.data|, v.rowWidth);
    var address := v.addressOffset - beginPadding;
    var chunks := Chunks(PaddedSlots(beginPadding, v.data, endPadding), v.rowWidth);
    assert chunks == Rows(v);
    ghost var lines := Lines(v);
    out := "";
    for k := 0 to |chunks|
      invariant address == RowAddress(v, k)
      invariant out == JoinLines(lines[..k])
    {
      JoinLinesStep(lines, k);
      RowAddressesStep(v, k);
      var separator := if k > 0 then "\n" else "";
      out := FmtRow(out + separator, address, v.codepage, v.replacementCharacter, chunks[k]);
      address := address + v.rowWidth;
    }
    assert lines[..|chunks|] == lines;
    r := Ok(());
  }

  // ---------------------------------------------------------------------------------------
  // The glyph of a padding slot, as written
  // ---------------------------------------------------------------------------------------

  /**
   * The glyph slot as format.rs writes it: the byte's glyph, or two blanks for a padding
   * slot, which is the width of a hex slot rather than of a glyph.
   */
  function CharSlotAsWritten(codepage: Codepage, replacement: char, slot: Slot): (s: string)
    ensures |s| == if slot.None? then 2 else 1
    ensures slot.Some? ==> s[0] == CharSlot(codepage, replacement, slot)
    ensures slot.None? ==> s[0] == s[1] == CharSlot(codepage, replacement, slot)
  {
    match slot
    case Some(b) => [AsChar(b, codepage, replacement)]
    case None => "  "
  }

  /** The glyph column built from the as-written glyph slots. */
  function CharColumnAsWritten(codepage: Codepage, replacement: char, row: seq<Slot>): string
  {
    if |row| == 0 then ""
    else
      CharColumnAsWritten(codepage, replacement, row[..|row| - 1])
      + CharSlotAsWritten(codepage, replacement, row[|row| - 1])
  }

  /**
   * The as-written glyph column is wider than the row by one character per padding slot, so
   * on a padded row the closing bar no longer lines up with that of a full row.
   */
  lemma {:induction false} AsWrittenGlyphColumnIsWider(codepage: Codepage, replacement: char, row: seq<Slot>)
    ensures |CharColumnAsWritten(codepage, replacement, row)|
      == |CharColumn(codepage, replacement, row)| + (|row| - |DataOf(row)|)
  {
    if |row| > 0 {
      var init := row[..|row| - 1];
      AsWrittenGlyphColumnIsWider(codepage, replacement, init);
      assert row == init + [row[|row| - 1]];
      DataOfAppend(init, [row[|row| - 1]]);
      assert DataOf([row[|row| - 1]]) == if row[|row| - 1].None? then [] else [row[|row| - 1].value] by {
        var rest: seq<Slot> := [row[|row| - 1]][1..];
        assert rest == [];
      }
    }
  }

  /**
   * On the right-padded row of ten bytes `a` at width 16 the as-written glyph column is 22
   * characters wide, while the expected line keeps it at 16, one per slot, as `CharColumn`
   * does.
   */
  lemma RightPaddedRowAsWritten()
    ensures var row := ByteSlots(seq(10, _ => 0x61)) + Blanks(6);
      && Rows(NewHexView(seq(10, _ => 0x61))) == [row]
      && |CharColumnAsWritten(CODEPAGE_0850, '.', row)| == 22
      && |CharColumn(CODEPAGE_0850, '.', row)| == 16
  {
    var data: seq<Byte> := seq(10, _ => 0x61);
    var v := NewHexView(data);
    var row := ByteSlots(data) + Blanks(6);
    assert BeginPadding(0, 16) == 0;
    assert EndPadding(10, 16) == 6;
    assert Slots(v) == row by {
      assert PaddedSlots(0, data, 6) == Blanks(0) + ByteSlots(data) + Blanks(6);
      assert Blanks(0) + ByteSlots(data) == ByteSlots(data);
    }
    assert |row| == 16;
    PaddedSlotsKeepData(0, data, 6);
    assert DataOf(row) == data by {
      assert PaddedSlots(0, data, 6) == row;
    }
    AsWrittenGlyphColumnIsWider(CODEPAGE_0850, '.', row);
  }

  // ---------------------------------------------------------------------------------------
  // Where the addresses show up
  // ---------------------------------------------------------------------------------------

  /** The `n` characters of `s` from position `i` on. */
  function Window(s: string, i: nat, n: nat): (w: string)
    requires i + n <= |s|
    ensures |w| == n
  {
    s[i..i + n]
  }

  /** `d` occurs in `s` as a contiguous piece. */
  predicate Occurs(d: string, s: string)
  {
    exists i: nat | i + |d| <= |s| :: Window(s, i, |d|) == d
  }

  lemma OccursAt(d: string, s: string, i: nat)
    requires i + |d| <= |s| && s[i..i + |d|] == d
    ensures Occurs(d, s)
  {
    assert Window(s, i, |d|) == d;
  }

  lemma SuffixOccurs(d: string, s: string)
    requires |d| <= |s| && s[|s| - |d|..] == d
    ensures Occurs(d, s)
  {
    assert s[|s| - |d|..|s|] == s[|s| - |d|..];
    OccursAt(d, s, |s| - |d|);
  }

  lemma WindowOfWindow(s: string, j: nat, m: nat, i: nat, n: nat)
    requires j + m <= |s| && i + n <= m
    ensures Window(Window(s, j, m), i, n) == Window(s, j + i, n)
  {
    var w := Window(Window(s, j, m), i, n);
    forall k | 0 <= k < n ensures w[k] == s[j + i + k] {
      assert w[k] == Window(s, j, m)[i + k];
    }
  }

  lemma OccursTransitive(d: string, m: string, s: string)
    requires Occurs(d, m) && Occurs(m, s)
    ensures Occurs(d, s)
  {
    var i: nat :| i + |d| <= |m| && Window(m, i, |d|) == d;
    var j: nat :| j + |m| <= |s| && Window(s, j, |m|) == m;
    WindowOfWindow(s, j, |m|, i, |d|);
    assert Window(s, j + i, |d|) == d;
  }

  /** Each line occurs in the joined text. */
  lemma {:induction false} LineOccursInJoin(lines: seq<string>, k: nat)
    requires k < |lines|
    ensures Occurs(lines[k], JoinLines(lines))
  {
    var joined := JoinLines(lines);
    if |lines| == 1 {
      assert joined[0..|lines[0]|] == lines[0];
      OccursAt(lines[k], joined, 0);
    } else if k == |lines| - 1 {
      assert joined[|joined| - |lines[k]|..|joined|] == lines[k];
      OccursAt(lines[k], joined, |joined| - |lines[k]|);
    } else {
      var init := lines[..|lines| - 1];
      LineOccursInJoin(init, k);
      assert joined[0..|JoinLines(init)|] == JoinLines(init);
      OccursAt(JoinLines(init), joined, 0);
      OccursTransitive(lines[k], JoinLines(init), joined);
    }
  }

  /** A row assembled from an address text starts with that text. */
  lemma RowStartsWithAddress(a: string, h: string, c: string)
    ensures Occurs(a, (a + "  " + h) + ("  " + "| " + c + " |"))
  {
    var s := (a + "  " + h) + ("  " + "| " + c + " |");
    assert s[0..|a|] == a;
    OccursAt(a, s, 0);
  }

  /** The address text ends with the address's hex digits. */
  lemma DigitsOccurInAddress(address: nat)
    ensures Occurs(HexDigits(address), AddressText(address))
  {
    var digits := HexDigits(address);
    assert AddressText(address) == ZeroPad(digits, 8);
    SuffixOccurs(digits, ZeroPad(digits, 8));
  }

  /** A row shows its address's hex digits, with or without the zero padding. */
  lemma AddressOccursInRow(address: nat, codepage: Codepage, replacement: char, row: seq<Slot>)
    ensures Occurs(HexDigits(address), RowText(address, codepage, replacement, row))
  {
    DigitsOccurInAddress(address);
    RowStartsWithAddress(AddressText(address), HexColumn(row), CharColumn(codepage, replacement, row));
    OccursTransitive(HexDigits(address), AddressText(address), RowText(address, codepage, replacement, row));
  }

  /** The rendered view shows the hex digits of every row's address. */
  lemma RowAddressOccurs(v: HexView, k: nat)
    requires v.rowWidth != 0 && k < |Rows(v)|
    ensures Occurs(HexDigits(RowAddress(v, k)), Render(v))
  {
    AddressOccursInRow(RowAddress(v, k), v.codepage, v.replacementCharacter, Rows(v)[k]);
    LineOccursInJoin(Lines(v), k);
    OccursTransitive(HexDigits(RowAddress(v, k)), Lines(v)[k], Render(v));
  }

  /** With an aligned address offset the rows are numbered from the offset itself. */
  lemma AlignedRowAddress(v: HexView, k: nat)
    requires v.rowWidth != 0 && v.addressOffset % v.rowWidth == 0
    ensures RowAddress(v, k) == v.addressOffset + k * v.rowWidth
  {
  }

  /** Sixteen bytes at the default offset show the address digit 0. */
  lemma DefaultOffsetExample()
    ensures Occurs(HexDigits(0), Render(NewHexView(seq(16, _ => 99))))
  {
    var v := NewHexView(seq(16, _ => 99));
    RowsAreFull(v);
    AlignedRowAddress(v, 0);
    RowAddressOccurs(v, 0);
  }

  /** Sixteen bytes at offset 160 show the digits of 160. */
  lemma GivenOffsetExample()
    ensures Occurs(HexDigits(160), Render(NewHexView(seq(16, _ => 0)).(addressOffset := 160)))
  {
    var v := NewHexView(seq(16, _ => 0)).(addressOffset := 160);
    RowsAreFull(v);
    AlignedRowAddress(v, 0);
    RowAddressOccurs(v, 0);
  }

  /** Eighty bytes at offset 800 show the addresses of rows 2 and 4: 800 + 2 * 16, 800 + 4 * 16. */
  lemma RowOffsetExample()
    ensures var v := NewHexView(seq(80, _ => 0)).(addressOffset := 800);
      && |Rows(v)| == 5
      && Occurs(HexDigits(800 + 2 * 16), Render(v)) && Occurs(HexDigits(800 + 4 * 16), Render(v))
  {
    var v := NewHexView(seq(80, _ => 0)).(addressOffset := 800);
    RowsAreFull(v);
    assert |Rows(v)| == 5;
    AlignedRowAddress(v, 2);
    AlignedRowAddress(v, 4);
    RowAddressOccurs(v, 2);
    RowAddressOccurs(v, 4);
  }

  /** A view with data renders to a non-empty text, whatever its bytes. */
  lemma RenderNonEmpty(v: HexView)
    requires v.rowWidth != 0 && |v.data| > 0
    ensures |Render(v)| > 0
  {
    RowsAreFull(v);
    AddressOccursInRow(RowAddress(v, 0), v.codepage, v.replacementCharacter, Rows(v)[0]);
    LineOccursInJoin(Lines(v), 0);
  }

  /** The digits the address tests look for: 0, A0, 340 and 360. */
  lemma HexDigitsExamples()
    ensures HexDigits(0) == "0" && HexDigits(160) == "A0"
    ensures HexDigits(800 + 2 * 16) == "340" && HexDigits(800 + 4 * 16) == "360"
  {
    assert HexDigits(160 / 16) == "A";
    assert HexDigits(832 / 16 / 16) == "3";
    assert HexDigits(832 / 16) == "34";
    assert HexDigits(864 / 16) == "36";
  }
}
