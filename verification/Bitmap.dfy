/** Rendering tool output as bitmap pages: which bytes go on which row, and where they are painted. */
module Bitmap {
  import opened Options
  import opened ByteText

  type Text = seq<Byte>

  const CELL_HEIGHT: nat := 16
  const FONT_HEIGHT: nat := 13
  const MARGIN_BYTES: nat := 2
  const COLUMNS: nat := 192
  const ROW_BYTES: nat := 196
  const WIDTH: nat := 1568
  const MAX_HEIGHT: nat := 1568
  const HEADER_ROWS: nat := 3
  const FOOTER_ROWS: nat := 1
  const TAB_COLUMNS: nat := 8
  const PATCH_PIXELS: nat := 32

  const TAB: Byte := 9
  const LF: Byte := 10
  const CR: Byte := 13

  predicate Printable(b: Byte) { 32 <= b <= 126 }

  /** What the renderer accepts at one offset: printable ASCII, tab, newline, or CR before LF. */
  predicate SupportedAt(text: Text, i: nat)
    requires i < |text|
  {
    Printable(text[i]) || text[i] == LF || text[i] == TAB
    || (text[i] == CR && i + 1 < |text| && text[i + 1] == LF)
  }

  predicate Supported(text: Text) { forall i :: 0 <= i < |text| ==> SupportedAt(text, i) }

  // ----- Rows -----

  function TabStop(column: nat): (c: nat)
    ensures column < c <= column + TAB_COLUMNS && c % TAB_COLUMNS == 0
  {
    column + (TAB_COLUMNS - column % TAB_COLUMNS)
  }

  /** Where the row that has reached `end` at `column` stops. */
  function RowScan(text: Text, end: nat, column: nat): nat
    requires end <= |text|
    decreases |text| - end
  {
    if end == |text| then end
    else if text[end] == LF then end + 1
    else if text[end] == CR then end + 2
    else if column == COLUMNS then end
    else RowScan(text, end + 1, Advance(column, text[end]))
  }

  method RowEnd(text: Text, start: nat) returns (end: nat)
    requires start <= |text|
    ensures end == RowScan(text, start, 0)
  {
    end := start;
    var column := 0;
    while end < |text|
      invariant start <= end <= |text| && 0 <= column
      invariant RowScan(text, end, column) == RowScan(text, start, 0)
    {
      if text[end] == LF { return end + 1; }
      if text[end] == CR { return end + 2; }
      if column == COLUMNS { break; }
      if text[end] == TAB {
        column := column + (TAB_COLUMNS - column % TAB_COLUMNS);
      } else {
        column := column + 1;
      }
      end := end + 1;
    }
  }

  /** The column a painter has reached before byte `i` of a row; it stops counting at CR or LF. */
  function Column(row: Text, i: nat): nat
    requires i <= |row|
  {
    if i == 0 then 0
    else if Ended(row, i - 1) || row[i - 1] == CR || row[i - 1] == LF then Column(row, i - 1)
    else if row[i - 1] == TAB then TabStop(Column(row, i - 1))
    else Column(row, i - 1) + 1
  }

  /** A line ending occurs before byte `i`. */
  predicate Ended(row: Text, i: nat)
    requires i <= |row|
  {
    exists j :: 0 <= j < i && (row[j] == CR || row[j] == LF)
  }

  /** Byte `i` is drawn: it is not a tab or line ending and none ended the row before it. */
  predicate Drawn(row: Text, i: nat)
    requires i < |row|
  {
    !Ended(row, i) && row[i] != CR && row[i] != LF && row[i] != TAB
  }

  /** A row can be painted: every drawn byte has a glyph and a column on the page. */
  ghost predicate Paintable(row: Text) {
    && (forall i :: 0 <= i < |row| && Drawn(row, i) ==> Printable(row[i]) && Column(row, i) < COLUMNS)
    && Column(row, |row|) <= COLUMNS
  }

  lemma {:induction false} ColumnFrame(a: Text, b: Text, i: nat)
    requires a <= b && i <= |a|
    ensures Column(a, i) == Column(b, i) && (Ended(a, i) <==> Ended(b, i))
    decreases i
  {
    if i > 0 { ColumnFrame(a, b, i - 1); }
  }

  /** The bytes of a paintable prefix stay paintable in a longer row. */
  lemma PrefixPaints(a: Text, b: Text, i: nat)
    requires a <= b && Paintable(a) && i < |a| && Drawn(b, i)
    ensures Printable(b[i]) && Column(b, i) < COLUMNS
  {
    ColumnFrame(a, b, i);
    assert Drawn(a, i);
  }

  /** One more byte keeps a row paintable, as long as a drawn byte finds room. */
  lemma PushByte(row: Text, b: Byte)
    requires Paintable(row) && !Ended(row, |row|)
    requires b == CR || b == LF || (Column(row, |row|) < COLUMNS && (b == TAB || Printable(b)))
    ensures Paintable(row + [b])
    ensures Column(row + [b], |row| + 1)
            == if b == CR || b == LF then Column(row, |row|) else Advance(Column(row, |row|), b)
    ensures b != CR && b != LF ==> !Ended(row + [b], |row| + 1)
  {
    var all := row + [b];
    ColumnFrame(row, all, |row|);
    if Column(row, |row|) < COLUMNS { TabFits(Column(row, |row|)); }
    forall i | 0 <= i < |all| && Drawn(all, i) ensures Printable(all[i]) && Column(all, i) < COLUMNS {
      if i < |row| { PrefixPaints(row, all, i); }
    }
  }

  /** A LF that follows the row's CR is skipped by the painter. */
  lemma PushAfterEnd(row: Text, b: Byte)
    requires Paintable(row) && Ended(row, |row|)
    ensures Paintable(row + [b])
  {
    var all := row + [b];
    ColumnFrame(row, all, |row|);
    forall i | 0 <= i < |all| && Drawn(all, i) ensures Printable(all[i]) && Column(all, i) < COLUMNS {
      if i < |row| { PrefixPaints(row, all, i); }
    }
  }

  lemma TabFits(column: nat)
    requires column < COLUMNS
    ensures TabStop(column) <= COLUMNS
  {
  }

  function Advance(column: nat, b: Byte): nat { if b == TAB then TabStop(column) else column + 1 }

  lemma PushCrLf(row: Text)
    requires Paintable(row) && !Ended(row, |row|)
    ensures Paintable(row + [CR, LF])
  {
    PushByte(row, CR);
    var cr := row + [CR];
    assert cr[|row|] == CR && Ended(cr, |cr|);
    PushAfterEnd(cr, LF);
    assert cr + [LF] == row + [CR, LF];
  }

  lemma SliceOne(text: Text, start: nat, end: nat)
    requires start <= end < |text|
    ensures text[start..end] + [text[end]] == text[start..end + 1]
  {
  }

  lemma SliceTwo(text: Text, start: nat, end: nat)
    requires start <= end && end + 1 < |text|
    ensures text[start..end] + [text[end], text[end + 1]] == text[start..end + 2]
  {
  }

  lemma {:induction false} RowScanFits(text: Text, start: nat, end: nat, column: nat, row: Text) returns (full: Text)
    requires Supported(text) && start <= end <= |text| && row == text[start..end]
    requires Paintable(row) && !Ended(row, |row|) && column == Column(row, |row|)
    ensures end <= RowScan(text, end, column) <= |text|
    ensures end < |text| && column < COLUMNS ==> end < RowScan(text, end, column)
    ensures full == text[start..RowScan(text, end, column)]
    ensures Paintable(full)
    decreases |text| - end
  {
    full := row;
    if end < |text| {
      var b := text[end];
      assert SupportedAt(text, end);
      SliceOne(text, start, end);
      if b == LF {
        PushByte(row, LF);
        full := row + [LF];
        assert RowScan(text, end, column) == end + 1;
      } else if b == CR {
        PushCrLf(row);
        SliceTwo(text, start, end);
        full := row + [CR, LF];
        assert RowScan(text, end, column) == end + 2;
      } else if column < COLUMNS {
        PushByte(row, b);
        full := RowScanFits(text, start, end + 1, Advance(column, b), row + [b]);
        assert RowScan(text, end, column) == RowScan(text, end + 1, Advance(column, b));
      } else {
        assert RowScan(text, end, column) == end;
      }
    }
  }

  /** Every row makes progress, stays in the text, and fits its 192 columns. */
  lemma RowFits(text: Text, start: nat)
    requires Supported(text) && start < |text|
    ensures start < RowScan(text, start, 0) <= |text|
    ensures Paintable(text[start..RowScan(text, start, 0)])
  {
    var full := RowScanFits(text, start, start, 0, []);
  }

  /** Where row `k` of a page that begins at `start` begins. */
  function RowsEnd(text: Text, start: nat, k: nat): (end: nat)
    requires Supported(text) && start <= |text|
    ensures start <= end <= |text|
  {
    if k == 0 then start else
      var before := RowsEnd(text, start, k - 1);
      if before == |text| then before else
        RowFits(text, before);
        RowScan(text, before, 0)
  }

  // ----- Painting -----

  /** The byte drawn at `column` by the first `n` bytes of a row. */
  function DrawnAt(row: Text, n: nat, column: nat): Option<Byte>
    requires n <= |row|
  {
    if n == 0 then None
    else if Drawn(row, n - 1) && Column(row, n - 1) == column then Some(row[n - 1])
    else DrawnAt(row, n - 1, column)
  }

  type Font = f: seq<bv8> | |f| == 95 * 13 witness seq(95 * 13, _ => 0)

  /** A pixel byte after a glyph's ink is cleared; cells are one blank line, thirteen glyph lines, two blank. */
  function Shade(font: Font, pixel: bv8, glyph: Option<Byte>, line: int): bv8 {
    match glyph
    case Some(b) =>
      if Printable(b) && 1 <= line <= FONT_HEIGHT then pixel & !font[(b - 32) * FONT_HEIGHT + (line - 1)] else pixel
    case None => pixel
  }

  lemma {:induction false} ColumnsIncrease(row: Text, i: nat, n: nat)
    requires i < n <= |row| && Drawn(row, i)
    ensures Column(row, i) < Column(row, n)
    decreases n
  {
    if i < n - 1 { ColumnsIncrease(row, i, n - 1); }
  }

  /** A column not yet reached has nothing drawn in it. */
  lemma {:induction false} NotYetDrawn(row: Text, n: nat, column: nat)
    requires n <= |row| && Column(row, n) <= column
    ensures DrawnAt(row, n, column) == None
    decreases n
  {
    if n > 0 {
      if Drawn(row, n - 1) { ColumnsIncrease(row, n - 1, n); }
      assert Column(row, n - 1) <= Column(row, n);
      NotYetDrawn(row, n - 1, column);
    }
  }

  lemma {:induction false} EndedStays(row: Text, i: nat, n: nat, column: nat)
    requires i <= n <= |row| && Ended(row, i)
    ensures DrawnAt(row, n, column) == DrawnAt(row, i, column)
    decreases n
  {
    if i < n {
      assert Ended(row, n - 1);
      EndedStays(row, i, n - 1, column);
    }
  }

  /** What painting the first `n` bytes of `row` on text line `line` makes of a pixel byte at `y`, `x`. */
  function RowShade(font: Font, row: Text, n: nat, line: nat, pixel: bv8, y: int, x: int): bv8
    requires n <= |row|
  {
    if x < MARGIN_BYTES then pixel else Shade(font, pixel, DrawnAt(row, n, x - MARGIN_BYTES), y - line * CELL_HEIGHT)
  }

  /** What character `i` does to a pixel byte. */
  function CharShade(font: Font, row: Text, i: nat, line: nat, pixel: bv8, y: int, x: int): bv8
    requires i < |row|
  {
    if Drawn(row, i) && x == MARGIN_BYTES + Column(row, i) then Shade(font, pixel, Some(row[i]), y - line * CELL_HEIGHT) else pixel
  }

  lemma RowShadeStep(font: Font, row: Text, i: nat, line: nat, pixel: bv8, y: int, x: int)
    requires i < |row|
    ensures RowShade(font, row, i + 1, line, pixel, y, x) == CharShade(font, row, i, line, RowShade(font, row, i, line, pixel, y, x), y, x)
  {
    NotYetDrawn(row, i, Column(row, i));
    if x >= MARGIN_BYTES {
      assert DrawnAt(row, i + 1, x - MARGIN_BYTES) ==
             if Drawn(row, i) && Column(row, i) == x - MARGIN_BYTES then Some(row[i]) else DrawnAt(row, i, x - MARGIN_BYTES);
    }
  }

  lemma RowShadeEnds(font: Font, row: Text, i: nat, line: nat, pixel: bv8, y: int, x: int)
    requires i == |row| || (i < |row| && (row[i] == CR || row[i] == LF))
    ensures RowShade(font, row, |row|, line, pixel, y, x) == RowShade(font, row, i, line, pixel, y, x)
  {
    if i < |row| {
      assert Ended(row, i + 1);
      if x >= MARGIN_BYTES { EndedStays(row, i + 1, |row|, x - MARGIN_BYTES); }
    }
  }

  lemma StillGoing(row: Text, i: nat)
    requires i < |row| && !Ended(row, i) && row[i] != CR && row[i] != LF
    ensures !Ended(row, i + 1) && Column(row, i + 1) == Advance(Column(row, i), row[i])
  {
  }

  /** Clear the ink bits of one row of text; every write lands inside the row's own cell line. */
  method PaintRow(pixels: array2<bv8>, row: Text, line: nat, font: Font)
    requires pixels.Length1 == ROW_BYTES && (line + 1) * CELL_HEIGHT <= pixels.Length0
    requires Paintable(row)
    modifies pixels
    ensures forall y, x :: 0 <= y < pixels.Length0 && 0 <= x < ROW_BYTES ==>
              pixels[y, x] == RowShade(font, row, |row|, line, old(pixels[y, x]), y, x)
  {
    var i, column := 0, 0;
    while i < |row| && row[i] != CR && row[i] != LF
      invariant 0 <= i <= |row| && column == Column(row, i) && !Ended(row, i)
      invariant forall y, x :: 0 <= y < pixels.Length0 && 0 <= x < ROW_BYTES ==>
                  pixels[y, x] == RowShade(font, row, i, line, old(pixels[y, x]), y, x)
    {
      PaintChar(pixels, row, i, column, line, font);
      forall y, x | 0 <= y < pixels.Length0 && 0 <= x < ROW_BYTES
        ensures pixels[y, x] == RowShade(font, row, i + 1, line, old(pixels[y, x]), y, x)
      {
        RowShadeStep(font, row, i, line, old(pixels[y, x]), y, x);
      }
      StillGoing(row, i);
      column := Advance(column, row[i]);
      i := i + 1;
    }
    forall y, x | 0 <= y < pixels.Length0 && 0 <= x < ROW_BYTES
      ensures pixels[y, x] == RowShade(font, row, |row|, line, old(pixels[y, x]), y, x)
    {
      RowShadeEnds(font, row, i, line, old(pixels[y, x]), y, x);
    }
  }

  method PaintChar(pixels: array2<bv8>, row: Text, i: nat, column: nat, line: nat, font: Font)
    requires pixels.Length1 == ROW_BYTES && (line + 1) * CELL_HEIGHT <= pixels.Length0
    requires Paintable(row) && i < |row| && column == Column(row, i) && !Ended(row, i) && row[i] != CR && row[i] != LF
    modifies pixels
    ensures forall y, x :: 0 <= y < pixels.Length0 && 0 <= x < ROW_BYTES ==>
              pixels[y, x] == CharShade(font, row, i, line, old(pixels[y, x]), y, x)
  {
    if row[i] != TAB {
      assert Drawn(row, i);
      PaintGlyph(pixels, row[i], column, line, font);
    }
  }

  method PaintGlyph(pixels: array2<bv8>, b: Byte, column: nat, line: nat, font: Font)
    requires pixels.Length1 == ROW_BYTES && (line + 1) * CELL_HEIGHT <= pixels.Length0
    requires Printable(b) && column < COLUMNS
    modifies pixels
    ensures forall y, x :: 0 <= y < pixels.Length0 && 0 <= x < ROW_BYTES ==>
              pixels[y, x] == if x == MARGIN_BYTES + column
                              then Shade(font, old(pixels[y, x]), Some(b), y - line * CELL_HEIGHT)
                              else old(pixels[y, x])
  {
    var top, x := line * CELL_HEIGHT + 1, MARGIN_BYTES + column;
    for g := 0 to FONT_HEIGHT
      invariant forall y, z :: 0 <= y < pixels.Length0 && 0 <= z < ROW_BYTES ==>
                  pixels[y, z] == if z == x && top <= y < top + g
                                  then Shade(font, old(pixels[y, z]), Some(b), y - line * CELL_HEIGHT)
                                  else old(pixels[y, z])
    {
      pixels[top + g, x] := pixels[top + g, x] & !font[(b - 32) * FONT_HEIGHT + g];
    }
  }
}
