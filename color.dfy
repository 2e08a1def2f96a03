/**
 * Colour support: a style-discarding text sink and the lookup of the colour range that
 * covers a byte. Colour styles come from a terminal library and are opaque here: every
 * entity takes the style type as a type parameter `S`.
 */
module Color {
  import opened Wrappers

  /** A half-open range `[start, end)` of byte indices. */
  datatype Range = Range(start: nat, end: nat) {
    predicate Contains(i: nat) {
      start <= i < end
    }
  }

  /** A range that is empty (`start >= end`) contains no index. */
  lemma EmptyRangeContainsNothing(r: Range, i: nat)
    requires r.start >= r.end
    ensures !r.Contains(i)
  {
  }

  /** True when `k` is the first entry, in list order, whose range contains `pos`. */
  ghost predicate IsFirstMatch<S>(colors: seq<(S, Range)>, pos: nat, k: nat)
  {
    && k < |colors|
    && colors[k].1.Contains(pos)
    && forall j | 0 <= j < k :: !colors[j].1.Contains(pos)
  }

  /**
   * The style of the first entry, in list order, whose range contains `pos`, or `None`
   * when no entry does: the specification of `ColorRange.Get`.
   */
  function FirstStyle<S>(colors: seq<(S, Range)>, pos: nat): (r: Option<S>)
    ensures r.None? <==> forall j | 0 <= j < |colors| :: !colors[j].1.Contains(pos)
    ensures forall k: nat | IsFirstMatch(colors, pos, k) :: r == Some(colors[k].0)
  {
    if |colors| == 0 then None
    else if colors[0].1.Contains(pos) then Some(colors[0].0)
    else
      var rest := FirstStyle(colors[1..], pos);
      assert forall j | 1 <= j < |colors| :: colors[j] == colors[1..][j - 1];
      assert forall k: nat | IsFirstMatch(colors, pos, k) :: k >= 1 && IsFirstMatch(colors[1..], pos, k - 1);
      rest
  }

  /**
   * An entry whose range contains `pos` shadows every later entry: some entry at or before it
   * is the first match, and the lookup yields that entry's style.
   */
  lemma {:induction false} EarlierEntryWins<S>(colors: seq<(S, Range)>, pos: nat, k: nat)
    requires k < |colors| && colors[k].1.Contains(pos)
    ensures FirstStyle(colors, pos).Some?
    ensures exists j: nat | j <= k :: IsFirstMatch(colors, pos, j) && FirstStyle(colors, pos) == Some(colors[j].0)
  {
    var j: nat := 0;
    while !colors[j].1.Contains(pos)
      invariant j <= k
      invariant forall i | 0 <= i < j :: !colors[i].1.Contains(pos)
      decreases k - j
    {
      j := j + 1;
    }
    assert IsFirstMatch(colors, pos, j);
  }

  /**
   * A cursor over a list of (style, range) pairs, with a base offset that the renderer moves
   * to the data index of each row's first byte. The list is borrowed and never changes.
   */
  class ColorRange<S> {
    const colors: seq<(S, Range)>
    var offset: nat

    /** A cursor over `colors` at offset 0. */
    constructor (colors: seq<(S, Range)>)
      ensures this.colors == colors && offset == 0
    {
      this.colors := colors;
      offset := 0;
    }

    /** A new cursor over the same list at the same offset. */
    method Clone() returns (c: ColorRange<S>)
      ensures fresh(c)
      ensures c.colors == colors && c.offset == offset
    {
      c := new ColorRange(colors);
      c.offset := offset;
    }

    /** Moves the base offset; the list is a constant field and cannot change. */
    method UpdateOffset(offset: nat)
      modifies this
      ensures this.offset == offset
    {
      this.offset := offset;
    }

    /**
     * The style at `offset + idx`: a linear scan from the first entry that stops at the first
     * entry whose range contains that index. The cursor is not changed.
     */
    method Get(idx: nat) returns (style: Option<S>)
      ensures style == FirstStyle(colors, offset + idx)
      ensures style.None? <==> forall j | 0 <= j < |colors| :: !colors[j].1.Contains(offset + idx)
      ensures forall k: nat | IsFirstMatch(colors, offset + idx, k) :: style == Some(colors[k].0)
    {
      var i := 0;
      var pos := offset + idx;
      while i < |colors|
        invariant 0 <= i <= |colors|
        invariant forall j | 0 <= j < i :: !colors[j].1.Contains(pos)
        decreases |colors| - i
      {
        var (spec, range) := colors[i];
        if pos >= range.start && pos < range.end {
          assert IsFirstMatch(colors, pos, i);
          return Some(spec);
        } else {
          i := i + 1;
        }
      }
      return None;
    }
  }

  /**
   * A text sink that keeps the text written to it and ignores every colour directive; it is
   * how plain text is obtained from the colour-aware rendering path.
   */
  class ColorlessString {
    var text: string

    constructor (text: string)
      ensures this.text == text
    {
      this.text := text;
    }

    /** Appends the (already decoded) buffer and reports the whole buffer as written. */
    method Write(buf: string) returns (r: Result<nat, IoError>)
      modifies this
      ensures text == old(text) + buf
      ensures r == Ok(|buf|)
    {
      text := text + buf;
      r := Ok(|buf|);
    }

    /** Nothing is buffered, so flushing succeeds and changes nothing. */
    method Flush() returns (r: Result<(), IoError>)
      ensures r == Ok(())
    {
      r := Ok(());
    }

    /** The sink never renders colour. */
    method SupportsColor() returns (b: bool)
      ensures !b
    {
      b := false;
    }

    /** Accepts a style directive and drops it; the text is unchanged. */
    method SetColor<T>(spec: T) returns (r: Result<(), IoError>)
      ensures r == Ok(())
    {
      r := Ok(());
    }

    /** Accepts a reset directive and drops it; the text is unchanged. */
    method Reset() returns (r: Result<(), IoError>)
      ensures r == Ok(())
    {
      r := Ok(());
    }
  }
}
