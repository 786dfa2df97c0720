/** Cutting a text into pages and painting each: the pages tile the text and show every row of it. */
module BitmapPages {
  import opened Options
  import opened Bitmap
  import Json

  datatype Profile = PatchAligned8On16 | PatchAligned8On16Repeated

  function LineRepeat(p: Profile): (n: nat)
    ensures n == 1 || n == 2
  {
    if p.PatchAligned8On16? then 1 else 2
  }

  function BodyRows(p: Profile): nat {
    (MAX_HEIGHT / CELL_HEIGHT - HEADER_ROWS - FOOTER_ROWS) / LineRepeat(p)
  }

  datatype Limits = Limits(maxPages: nat, maxPngBytes: nat)

  datatype Ineligible = Unsupported | Limit | Cancelled

  datatype Page = Page(start: nat, end: nat, width: nat, height: nat, pngBytes: nat)

  // ----- Headers -----

  predicate AllPrintable(row: Text) { forall i :: 0 <= i < |row| ==> Printable(row[i]) }

  predicate Ascii(s: string) { forall i :: 0 <= i < |s| ==> ' ' <= s[i] <= '~' }

  function Bytes(s: string): (r: Text)
    requires Ascii(s)
    ensures |r| == |s| && AllPrintable(r)
  {
    seq(|s|, i requires 0 <= i < |s| => s[i] as int)
  }

  function Decimal(n: nat): (r: Text)
    ensures |r| == Json.Digits(n) && AllPrintable(r)
  {
    if n < 10 then [48 + n] else Decimal(n / 10) + [48 + n % 10]
  }

  /** The 64 hexadecimal digits of a digest, most significant first. */
  function Hex(d: nat, k: nat): (r: Text)
    ensures |r| == k && AllPrintable(r)
  {
    if k == 0 then [] else
      var digit := d % 16;
      Hex(d / 16, k - 1) + [if digit < 10 then 48 + digit else 87 + digit]
  }

  function ProfileId(p: Profile): (s: string)
    ensures Ascii(s) && |s| <= 28
  {
    if p.PatchAligned8On16? then "ascii-8on16-patch-v1" else "ascii-8on16-patch-repeat2-v1"
  }

  function Heading(source: nat): (r: Text)
    ensures AllPrintable(r) && |r| == 71
  {
    Bytes("SOURCE ") + Hex(source, 64)
  }

  function Locator(p: Profile, page: nat, start: nat, end: nat): (r: Text)
    ensures AllPrintable(r)
    ensures |r| <= 55 + Json.Digits(page) + Json.Digits(start) + Json.Digits(end)
  {
    Bytes("PROFILE ") + Bytes(ProfileId(p)) + Bytes(" | PAGE ") + Decimal(page)
    + Bytes(" | BYTES ") + Decimal(start) + Bytes("..") + Decimal(end)
  }

  lemma {:induction false} PrintableColumns(row: Text, i: nat)
    requires AllPrintable(row) && i <= |row|
    ensures Column(row, i) == i && !Ended(row, i)
  {
    if i > 0 { PrintableColumns(row, i - 1); }
  }

  lemma PrintablePaints(row: Text)
    requires AllPrintable(row) && |row| <= COLUMNS
    ensures Paintable(row)
  {
    forall i | 0 <= i <= |row| ensures Column(row, i) == i { PrintableColumns(row, i); }
  }

  // ----- One page -----

  /** The bytes on text row `k` of the page that begins at `start`. */
  function RowText(text: Text, start: nat, k: nat): Text
    requires Supported(text) && start <= |text|
  {
    if RowsEnd(text, start, k) <= RowsEnd(text, start, k + 1)
    then text[RowsEnd(text, start, k)..RowsEnd(text, start, k + 1)] else []
  }

  /** The text row shown on page line `line`; a repeating profile shows each row twice. */
  function RowOf(line: nat, repeat: nat): nat
    requires line >= HEADER_ROWS
  {
    if repeat == 2 then (line - HEADER_ROWS) / 2 else line - HEADER_ROWS
  }

  function LineOf(row: nat, copy: nat, repeat: nat): nat {
    HEADER_ROWS + (if repeat == 2 then 2 * row else row) + copy
  }

  /** What a page shows at pixel row `y` of its body: its row's glyphs on white. */
  function BodyPixel(font: Font, text: Text, start: nat, repeat: nat, y: nat, x: int): bv8
    requires Supported(text) && start <= |text| && y >= HEADER_ROWS * CELL_HEIGHT
  {
    var line := y / CELL_HEIGHT;
    var row := RowText(text, start, RowOf(line, repeat));
    RowShade(font, row, |row|, line, 0xff, y, x)
  }

  lemma RowTextPaints(text: Text, start: nat, k: nat)
    requires Supported(text) && start <= |text|
    ensures Paintable(RowText(text, start, k))
  {
    var at := RowsEnd(text, start, k);
    if at < |text| {
      RowFits(text, at);
    } else {
      assert RowText(text, start, k) == [];
      PrintablePaints([]);
    }
  }

  /** Painting on another line leaves a pixel as it was. */
  lemma OtherLine(font: Font, row: Text, line: nat, pixel: bv8, y: nat, x: int)
    requires y / CELL_HEIGHT != line
    ensures RowShade(font, row, |row|, line, pixel, y, x) == pixel
  {
  }

  const SEPARATOR: nat := 2 * CELL_HEIGHT + CELL_HEIGHT / 2

  /** A pixel byte of the two header lines, with the rule below them drawn as far as `upTo`. */
  function HeaderPixel(font: Font, h: Header, upTo: nat, y: nat, x: int): bv8 {
    if y == SEPARATOR && MARGIN_BYTES <= x < upTo then 0
    else if y / CELL_HEIGHT == 0 then RowShade(font, h.heading, |h.heading|, 0, 0xff, y, x)
    else if y / CELL_HEIGHT == 1 then RowShade(font, h.locator, |h.locator|, 1, 0xff, y, x)
    else 0xff
  }

  datatype Header = Header(heading: Text, locator: Text)

  /** What a page shows once its lines below `lines` are painted: header, body, and white below. */
  function PagePixel(font: Font, h: Header, text: Text, start: nat, repeat: nat, lines: nat, y: nat, x: int): bv8
    requires Supported(text) && start <= |text|
  {
    if y < HEADER_ROWS * CELL_HEIGHT then HeaderPixel(font, h, ROW_BYTES - MARGIN_BYTES, y, x)
    else if y < lines * CELL_HEIGHT then BodyPixel(font, text, start, repeat, y, x)
    else 0xff
  }

  ghost predicate PagePainted(pixels: array2<bv8>, font: Font, h: Header, text: Text, start: nat, repeat: nat, lines: nat)
    requires Supported(text) && start <= |text| && pixels.Length1 == ROW_BYTES
    reads pixels
  {
    forall y, x :: 0 <= y < pixels.Length0 && 0 <= x < ROW_BYTES ==>
      pixels[y, x] == PagePixel(font, h, text, start, repeat, lines, y, x)
  }

  /** Painting its row on the next line paints that line and leaves the others as they were. */
  lemma NextLine(font: Font, h: Header, text: Text, start: nat, repeat: nat, row: Text, line: nat, y: nat, x: int)
    requires Supported(text) && start <= |text| && line >= HEADER_ROWS && row == RowText(text, start, RowOf(line, repeat))
    ensures RowShade(font, row, |row|, line, PagePixel(font, h, text, start, repeat, line, y, x), y, x)
            == PagePixel(font, h, text, start, repeat, line + 1, y, x)
  {
    if y / CELL_HEIGHT != line { OtherLine(font, row, line, PagePixel(font, h, text, start, repeat, line, y, x), y, x); }
  }

  method PaintLine(pixels: array2<bv8>, font: Font, ghost h: Header, text: Text, start: nat, repeat: nat, row: Text, line: nat)
    requires Supported(text) && start <= |text| && pixels.Length1 == ROW_BYTES
    requires HEADER_ROWS <= line && (line + 1) * CELL_HEIGHT <= pixels.Length0
    requires row == RowText(text, start, RowOf(line, repeat))
    requires PagePainted(pixels, font, h, text, start, repeat, line)
    modifies pixels
    ensures PagePainted(pixels, font, h, text, start, repeat, line + 1)
  {
    RowTextPaints(text, start, RowOf(line, repeat));
    PaintRow(pixels, row, line, font);
    forall y, x | 0 <= y < pixels.Length0 && 0 <= x < ROW_BYTES
      ensures pixels[y, x] == PagePixel(font, h, text, start, repeat, line + 1, y, x)
    {
      NextLine(font, h, text, start, repeat, row, line, y, x);
    }
  }

  method PaintCopies(pixels: array2<bv8>, font: Font, ghost h: Header, text: Text, start: nat, repeat: nat, line: Text, row: nat)
    requires Supported(text) && start <= |text| && pixels.Length1 == ROW_BYTES && (repeat == 1 || repeat == 2)
    requires LineOf(row + 1, 0, repeat) * CELL_HEIGHT <= pixels.Length0
    requires line == RowText(text, start, row)
    requires PagePainted(pixels, font, h, text, start, repeat, LineOf(row, 0, repeat))
    modifies pixels
    ensures PagePainted(pixels, font, h, text, start, repeat, LineOf(row + 1, 0, repeat))
  {
    for copy := 0 to repeat
      invariant PagePainted(pixels, font, h, text, start, repeat, LineOf(row, copy, repeat))
    {
      PaintLine(pixels, font, h, text, start, repeat, line, LineOf(row, copy, repeat));
    }
  }

  /** Paint a page's rows, re-walking the text; it ends exactly where the page was cut. */
  method PaintBody(pixels: array2<bv8>, font: Font, ghost h: Header, text: Text, start: nat, end: nat, rows: nat, repeat: nat)
    requires Supported(text) && start <= |text| && pixels.Length1 == ROW_BYTES && (repeat == 1 || repeat == 2)
    requires LineOf(rows, 0, repeat) * CELL_HEIGHT <= pixels.Length0
    requires forall k :: 0 <= k < rows ==> RowsEnd(text, start, k) < |text|
    requires end == RowsEnd(text, start, rows)
    requires PagePainted(pixels, font, h, text, start, repeat, HEADER_ROWS)
    modifies pixels
    ensures PagePainted(pixels, font, h, text, start, repeat, LineOf(rows, 0, repeat))
  {
    var offset := start;
    for row := 0 to rows
      invariant offset == RowsEnd(text, start, row)
      invariant PagePainted(pixels, font, h, text, start, repeat, LineOf(row, 0, repeat))
    {
      RowFits(text, offset);
      var next := RowEnd(text, offset);
      PaintCopies(pixels, font, h, text, start, repeat, text[offset..next], row);
      offset := next;
    }
    assert offset == end;
  }

  /** The page height: header, rows and footer, rounded up to whole patches, at most the maximum. */
  function Height(rows: nat, repeat: nat): (h: nat)
    ensures h <= MAX_HEIGHT && h % PATCH_PIXELS == 0
  {
    Min((HEADER_ROWS + rows * repeat + FOOTER_ROWS) * CELL_HEIGHT + 31 - ((HEADER_ROWS + rows * repeat + FOOTER_ROWS) * CELL_HEIGHT + 31) % PATCH_PIXELS,
        MAX_HEIGHT)
  }

  /** Every painted line, header and body, lies inside the page buffer. */
  lemma BodyFits(p: Profile, rows: nat)
    requires rows <= BodyRows(p)
    ensures (LineOf(rows, 0, LineRepeat(p)) + FOOTER_ROWS) * CELL_HEIGHT <= Height(rows, LineRepeat(p))
  {
    var repeat := LineRepeat(p);
    assert rows * repeat == if repeat == 2 then 2 * rows else rows;
  }

  lemma TwoLines(font: Font, h: Header, y: nat, x: int)
    ensures RowShade(font, h.locator, |h.locator|, 1, RowShade(font, h.heading, |h.heading|, 0, 0xff, y, x), y, x)
            == HeaderPixel(font, h, MARGIN_BYTES, y, x)
  {
    if y / CELL_HEIGHT != 0 { OtherLine(font, h.heading, 0, 0xff, y, x); }
    if y / CELL_HEIGHT != 1 { OtherLine(font, h.locator, 1, RowShade(font, h.heading, |h.heading|, 0, 0xff, y, x), y, x); }
  }

  /** The two header lines on a white page. */
  method PaintHeading(font: Font, h: Header, height: nat) returns (pixels: array2<bv8>)
    requires AllPrintable(h.heading) && AllPrintable(h.locator) && |h.heading| <= COLUMNS && |h.locator| <= COLUMNS
    requires HEADER_ROWS * CELL_HEIGHT <= height
    ensures fresh(pixels) && pixels.Length0 == height && pixels.Length1 == ROW_BYTES
    ensures forall y, x :: 0 <= y < height && 0 <= x < ROW_BYTES ==> pixels[y, x] == HeaderPixel(font, h, MARGIN_BYTES, y, x)
  {
    pixels := new bv8[height, ROW_BYTES]((y, x) => 0xff);
    PrintablePaints(h.heading);
    PrintablePaints(h.locator);
    PaintRow(pixels, h.heading, 0, font);
    PaintRow(pixels, h.locator, 1, font);
    forall y, x | 0 <= y < height && 0 <= x < ROW_BYTES ensures pixels[y, x] == HeaderPixel(font, h, MARGIN_BYTES, y, x) {
      TwoLines(font, h, y, x);
    }
  }

  /** Paint the two header lines and the separator on a white page. */
  method PaintHeader(font: Font, h: Header, height: nat, ghost text: Text, ghost start: nat, ghost repeat: nat) returns (pixels: array2<bv8>)
    requires AllPrintable(h.heading) && AllPrintable(h.locator) && |h.heading| <= COLUMNS && |h.locator| <= COLUMNS
    requires HEADER_ROWS * CELL_HEIGHT <= height && Supported(text) && start <= |text|
    ensures fresh(pixels) && pixels.Length0 == height && pixels.Length1 == ROW_BYTES
    ensures PagePainted(pixels, font, h, text, start, repeat, HEADER_ROWS)
  {
    pixels := PaintHeading(font, h, height);
    for x := MARGIN_BYTES to ROW_BYTES - MARGIN_BYTES
      invariant forall y, z :: 0 <= y < height && 0 <= z < ROW_BYTES ==> pixels[y, z] == HeaderPixel(font, h, x, y, z)
    {
      pixels[SEPARATOR, x] := 0;
    }
    forall y, x | 0 <= y < height && 0 <= x < ROW_BYTES
      ensures pixels[y, x] == PagePixel(font, h, text, start, repeat, HEADER_ROWS, y, x)
    {
      assert y >= HEADER_ROWS * CELL_HEIGHT ==> HeaderPixel(font, h, ROW_BYTES - MARGIN_BYTES, y, x) == 0xff;
    }
  }

  /** A page's pixel rows, as the encoder reads them. */
  type Image = seq<seq<bv8>>

  function ImageOf(font: Font, h: Header, text: Text, start: nat, repeat: nat, lines: nat, height: nat): (image: Image)
    requires Supported(text) && start <= |text|
    ensures |image| == height
  {
    seq(height, y requires 0 <= y < height => ImageRow(font, h, text, start, repeat, lines, y))
  }

  function ImageRow(font: Font, h: Header, text: Text, start: nat, repeat: nat, lines: nat, y: nat): (row: seq<bv8>)
    requires Supported(text) && start <= |text|
    ensures |row| == ROW_BYTES
  {
    seq(ROW_BYTES, x requires 0 <= x < ROW_BYTES => PagePixel(font, h, text, start, repeat, lines, y, x))
  }

  method ReadRow(pixels: array2<bv8>, y: nat) returns (row: seq<bv8>)
    requires y < pixels.Length0 && pixels.Length1 == ROW_BYTES
    ensures |row| == ROW_BYTES && forall x :: 0 <= x < ROW_BYTES ==> row[x] == pixels[y, x]
  {
    row := [];
    for x := 0 to ROW_BYTES
      invariant |row| == x && forall k :: 0 <= k < x ==> row[k] == pixels[y, k]
    {
      row := row + [pixels[y, x]];
    }
  }

  method ReadPageRow(pixels: array2<bv8>, y: nat, font: Font, ghost h: Header, ghost text: Text, ghost start: nat,
                     ghost repeat: nat, ghost lines: nat)
    returns (row: seq<bv8>)
    requires Supported(text) && start <= |text| && pixels.Length1 == ROW_BYTES && y < pixels.Length0
    requires PagePainted(pixels, font, h, text, start, repeat, lines)
    ensures row == ImageOf(font, h, text, start, repeat, lines, pixels.Length0)[y]
  {
    row := ReadRow(pixels, y);
    assert row == ImageRow(font, h, text, start, repeat, lines, y);
  }

  /** What the encoder reads of a painted page is the specified image. */
  method ReadImage(pixels: array2<bv8>, font: Font, ghost h: Header, ghost text: Text, ghost start: nat, ghost repeat: nat, ghost lines: nat)
    returns (image: Image)
    requires Supported(text) && start <= |text| && pixels.Length1 == ROW_BYTES
    requires PagePainted(pixels, font, h, text, start, repeat, lines)
    ensures image == ImageOf(font, h, text, start, repeat, lines, pixels.Length0)
  {
    ghost var whole := ImageOf(font, h, text, start, repeat, lines, pixels.Length0);
    image := [];
    for y := 0 to pixels.Length0
      invariant image == whole[..y]
    {
      var row := ReadPageRow(pixels, y, font, h, text, start, repeat, lines);
      image := image + [row];
    }
  }

  // ----- All pages -----

  /** Pages are contiguous from `start` to the end of the text, each a whole number of rows and none of them empty. */
  ghost predicate Tiles(pages: seq<Page>, text: Text, p: Profile, start: nat) {
    if pages == [] then start == |text|
    else start == pages[0].start && PageOk(pages[0], text, p) && Tiles(pages[1..], text, p, pages[0].end)
  }

  ghost predicate PageOk(page: Page, text: Text, p: Profile) {
    && page.start < page.end <= |text|
    && page.width == WIDTH && 0 < page.height <= MAX_HEIGHT && page.height % PATCH_PIXELS == 0
    && exists rows :: 0 < rows <= BodyRows(p) && IsCut(text, page, rows)
  }

  predicate IsCut(text: Text, page: Page, rows: nat) {
    page.start <= |text| && Supported(text) && page.end == RowsEnd(text, page.start, rows)
  }

  function PngUpTo(pages: seq<Page>, k: nat): nat
    requires k <= |pages|
  {
    if k == 0 then 0 else PngUpTo(pages, k - 1) + pages[k - 1].pngBytes
  }

  function PngTotal(pages: seq<Page>): nat { PngUpTo(pages, |pages|) }

  /** How many rows a page takes from `rows` on: to a full body or the end of the text. */
  function PageRows(text: Text, start: nat, rows: nat, bodyRows: nat): (n: nat)
    requires Supported(text) && start <= |text| && rows <= bodyRows
    ensures rows <= n <= bodyRows
    ensures n == bodyRows || RowsEnd(text, start, n) == |text|
    decreases bodyRows - rows
  {
    if rows == bodyRows || RowsEnd(text, start, rows) == |text| then rows else PageRows(text, start, rows + 1, bodyRows)
  }

  lemma {:induction false} RowsProgress(text: Text, start: nat, k: nat)
    requires Supported(text) && start < |text| && k > 0
    ensures start < RowsEnd(text, start, k)
    decreases k
  {
    var before := RowsEnd(text, start, k - 1);
    if before < |text| { RowFits(text, before); }
  }

  /** Cut the next page: whole rows until the body is full or the text ends. */
  method CutPage(text: Text, start: nat, bodyRows: nat) returns (end: nat, rows: nat)
    requires Supported(text) && start < |text| && bodyRows > 0
    ensures 0 < rows == PageRows(text, start, 0, bodyRows) && end == RowsEnd(text, start, rows) && start < end
    ensures forall k :: 0 <= k < rows ==> RowsEnd(text, start, k) < |text|
  {
    end, rows := start, 0;
    while end < |text| && rows < bodyRows
      invariant 0 <= rows <= bodyRows && end == RowsEnd(text, start, rows) && start <= end <= |text|
      invariant rows > 0 ==> start < end
      invariant forall k :: 0 <= k < rows ==> RowsEnd(text, start, k) < |text|
      invariant PageRows(text, start, rows, bodyRows) == PageRows(text, start, 0, bodyRows)
    {
      RowFits(text, end);
      end := RowEnd(text, end);
      rows := rows + 1;
    }
  }

  /** The page that begins at `start`. */
  function PageAt(text: Text, p: Profile, start: nat, size: nat): (page: Page)
    requires Supported(text) && start < |text|
    ensures page.start == start < page.end <= |text|
  {
    var rows := PageRows(text, start, 0, BodyRows(p));
    RowsProgress(text, start, rows);
    Page(start, RowsEnd(text, start, rows), WIDTH, Height(rows, LineRepeat(p)), size)
  }

  /** Every page from `start` on; `number` pages come before it. */
  function Plan(text: Text, p: Profile, start: nat, number: nat, png: (nat, nat) -> nat): seq<Page>
    requires Supported(text) && start <= |text|
    decreases |text| - start
  {
    if start == |text| then []
    else
      var page := PageAt(text, p, start, png(start, number));
      [page] + Plan(text, p, page.end, number + 1, png)
  }

  lemma {:induction false} PngPrefix(pages: seq<Page>, whole: seq<Page>, k: nat)
    requires pages <= whole && k <= |pages|
    ensures PngUpTo(pages, k) == PngUpTo(whole, k)
    decreases k
  {
    if k > 0 { PngPrefix(pages, whole, k - 1); }
  }

  lemma {:induction false} PngMonotone(pages: seq<Page>, i: nat, j: nat)
    requires i <= j <= |pages|
    ensures PngUpTo(pages, i) <= PngUpTo(pages, j)
    decreases j
  {
    if i < j { PngMonotone(pages, i, j - 1); }
  }

  lemma PngGrows(pages: seq<Page>, whole: seq<Page>)
    requires pages <= whole
    ensures PngTotal(pages) <= PngTotal(whole)
  {
    PngPrefix(pages, whole, |pages|);
    PngMonotone(whole, |pages|, |whole|);
  }

  lemma PngPush(pages: seq<Page>, page: Page)
    ensures PngTotal(pages + [page]) == PngTotal(pages) + page.pngBytes
  {
    PngPrefix(pages, pages + [page], |pages|);
  }

  /** A text that renders within limits: supported, not empty, and its pages not too many or too large. */
  predicate Renderable(text: Text, p: Profile, limits: Limits, png: (nat, nat) -> nat) {
    && text != [] && limits.maxPngBytes > 0 && Supported(text)
    && var plan := Plan(text, p, 0, 0, png);
       |plan| <= limits.maxPages && PngTotal(plan) <= limits.maxPngBytes
  }

  /** Reject any byte the font cannot show, polling for cancellation every 1024 bytes. */
  method CheckSupported(text: Text, cancelled: nat -> bool) returns (r: Result<(), Ineligible>)
    ensures r.Ok? ==> Supported(text)
    ensures r == Err(Unsupported) ==> !Supported(text)
    ensures r == Err(Cancelled) ==> exists k :: cancelled(k)
    ensures r != Err(Limit)
  {
    for offset := 0 to |text|
      invariant forall i :: 0 <= i < offset ==> SupportedAt(text, i)
    {
      if offset % 1024 == 0 && cancelled(offset / 1024) { return Err(Cancelled); }
      if !SupportedAt(text, offset) { return Err(Unsupported); }
    }
    r := Ok(());
  }

  lemma LocatorFits(p: Profile, page: nat, start: nat, end: nat)
    requires page <= Json.USIZE_MAX && start <= Json.USIZE_MAX && end <= Json.USIZE_MAX
    ensures |Locator(p, page, start, end)| <= COLUMNS
  {
    Json.WordDigits(page);
    Json.WordDigits(start);
    Json.WordDigits(end);
  }

  function HeaderOf(source: nat, p: Profile, number: nat, start: nat, end: nat): Header {
    Header(Heading(source), Locator(p, number, start, end))
  }

  /** The specified image of the page that begins at `start`. */
  function PageImage(font: Font, source: nat, text: Text, p: Profile, start: nat, number: nat): Image
    requires Supported(text) && start < |text|
  {
    var rows := PageRows(text, start, 0, BodyRows(p));
    ImageOf(font, HeaderOf(source, p, number, start, RowsEnd(text, start, rows)), text, start, LineRepeat(p),
            LineOf(rows, 0, LineRepeat(p)), Height(rows, LineRepeat(p)))
  }

  function PageSize(encode: Image -> nat, font: Font, source: nat, text: Text, p: Profile, start: nat, before: nat): nat {
    if Supported(text) && start < |text| then encode(PageImage(font, source, text, p, start, before + 1)) else 0
  }

  /** The encoded size of each page, by its start and the number of pages before it. */
  function PageSizes(encode: Image -> nat, font: Font, source: nat, text: Text, p: Profile): (nat, nat) -> nat {
    (start, before) => PageSize(encode, font, source, text, p, start, before)
  }

  /** Paint one page: header, body and white, exactly as specified; the encoder reads these pixels. */
  method PaintPage(text: Text, source: nat, p: Profile, font: Font, number: nat, start: nat, end: nat, rows: nat) returns (image: Image)
    requires Supported(text) && start < |text| <= Json.USIZE_MAX && number <= Json.USIZE_MAX
    requires 0 < rows == PageRows(text, start, 0, BodyRows(p)) && end == RowsEnd(text, start, rows)
    requires forall k :: 0 <= k < rows ==> RowsEnd(text, start, k) < |text|
    ensures image == PageImage(font, source, text, p, start, number)
  {
    var repeat := LineRepeat(p);
    var h := HeaderOf(source, p, number, start, end);
    LocatorFits(p, number, start, end);
    BodyFits(p, rows);
    var pixels := PaintHeader(font, h, Height(rows, repeat), text, start, repeat);
    PaintBody(pixels, font, h, text, start, end, rows, repeat);
    image := ReadImage(pixels, font, h, text, start, repeat, LineOf(rows, 0, repeat));
  }

  /** Where page `i` of a plan begins: where the one before ends. */
  function PageStart(plan: seq<Page>, start: nat, i: nat): nat
    requires i <= |plan|
  {
    if i == 0 then start else plan[i - 1].end
  }

  /** Page `i` of a plan is the page at its start. */
  ghost predicate Planned(plan: seq<Page>, text: Text, p: Profile, start: nat, number: nat, png: (nat, nat) -> nat, i: nat)
    requires i < |plan| && Supported(text)
  {
    var at := PageStart(plan, start, i);
    at < |text| && plan[i] == PageAt(text, p, at, png(at, number + i))
  }

  /** Every page of a plan, by its index; the plan ends with the text. */
  ghost predicate IsPlan(plan: seq<Page>, text: Text, p: Profile, start: nat, number: nat, png: (nat, nat) -> nat) {
    && Supported(text) && PageStart(plan, start, |plan|) == |text|
    && forall i :: 0 <= i < |plan| ==> Planned(plan, text, p, start, number, png, i)
  }

  lemma {:induction false} PlanIs(text: Text, p: Profile, start: nat, number: nat, png: (nat, nat) -> nat) returns (plan: seq<Page>)
    requires Supported(text) && start <= |text|
    ensures plan == Plan(text, p, start, number, png) && IsPlan(plan, text, p, start, number, png)
    decreases |text| - start
  {
    if start == |text| {
      plan := [];
    } else {
      var page := PageAt(text, p, start, png(start, number));
      var rest := PlanIs(text, p, page.end, number + 1, png);
      plan := [page] + rest;
      forall i | 0 <= i < |plan| ensures Planned(plan, text, p, start, number, png, i) {
        if i > 0 { PlannedShift(page, rest, plan, text, p, start, number, png, i - 1); }
      }
    }
  }

  lemma PlannedShift(page: Page, rest: seq<Page>, plan: seq<Page>, text: Text, p: Profile, start: nat, number: nat, png: (nat, nat) -> nat, i: nat)
    requires plan == [page] + rest && i < |rest| && Supported(text) && Planned(rest, text, p, page.end, number + 1, png, i)
    ensures Planned(plan, text, p, start, number, png, i + 1)
  {
    assert plan[i + 1] == rest[i] && number + (i + 1) == number + 1 + i;
    assert PageStart(plan, start, i + 1) == PageStart(rest, page.end, i);
  }

  lemma PageAtOk(text: Text, p: Profile, start: nat, size: nat)
    requires Supported(text) && start < |text|
    ensures PageOk(PageAt(text, p, start, size), text, p)
  {
    var rows := PageRows(text, start, 0, BodyRows(p));
    BodyFits(p, rows);
    assert IsCut(text, PageAt(text, p, start, size), rows);
  }

  lemma {:induction false} PlanTiles(text: Text, p: Profile, start: nat, number: nat, png: (nat, nat) -> nat) returns (plan: seq<Page>)
    requires Supported(text) && start <= |text|
    ensures plan == Plan(text, p, start, number, png) && Tiles(plan, text, p, start)
    decreases |text| - start
  {
    if start == |text| {
      plan := [];
    } else {
      var page := PageAt(text, p, start, png(start, number));
      PageAtOk(text, p, start, png(start, number));
      var rest := PlanTiles(text, p, page.end, number + 1, png);
      plan := [page] + rest;
      assert plan[1..] == rest;
    }
  }

  /**
   Render a text as pages. `encode` gives the encoded size of an image and `cancelled` the answer of
   each poll. Whatever they say, the pages of a successful render are the plan and tile the text;
   and a render that is not cancelled succeeds exactly on a renderable text.
   */
  method Render(text: Text, source: nat, p: Profile, limits: Limits, font: Font, encode: Image -> nat, cancelled: nat -> bool)
    returns (r: Result<seq<Page>, Ineligible>)
    requires |text| <= Json.USIZE_MAX
    ensures var png := PageSizes(encode, font, source, text, p);
            && (r.Ok? ==> Renderable(text, p, limits, png) && r.value == Plan(text, p, 0, 0, png) && Tiles(r.value, text, p, 0))
            && (r.Err? && r.error != Cancelled ==> !Renderable(text, p, limits, png))
    ensures r == Err(Cancelled) ==> exists k :: cancelled(k)
  {
    ghost var png := PageSizes(encode, font, source, text, p);
    if text == [] || limits.maxPages == 0 || limits.maxPngBytes == 0 {
      if text != [] && Supported(text) { ghost var _ := PlanIs(text, p, 0, 0, png); }
      return Err(Limit);
    }
    var checked := CheckSupported(text, cancelled);
    if checked.Err? { return Err(checked.error); }
    ghost var tiling := PlanTiles(text, p, 0, 0, png);
    ghost var plan := PlanIs(text, p, 0, 0, png);
    r := RenderPages(text, source, p, limits, font, encode, cancelled, |text| / 1024 + 1, plan);
  }

  /** The page loop of a render, from poll number `polls` on. */
  method RenderPages(text: Text, source: nat, p: Profile, limits: Limits, font: Font, encode: Image -> nat, cancelled: nat -> bool,
                     polls: nat, ghost plan: seq<Page>)
    returns (r: Result<seq<Page>, Ineligible>)
    requires Supported(text) && |text| <= Json.USIZE_MAX && IsPlan(plan, text, p, 0, 0, PageSizes(encode, font, source, text, p))
    ensures r.Ok? ==> r.value == plan && |plan| <= limits.maxPages && PngTotal(plan) <= limits.maxPngBytes
    ensures r.Err? && r.error != Cancelled ==> |plan| > limits.maxPages || PngTotal(plan) > limits.maxPngBytes
    ensures r == Err(Cancelled) ==> exists k :: cancelled(k)
  {
    ghost var png := PageSizes(encode, font, source, text, p);
    var pages: seq<Page> := [];
    var start, pngBytes := 0, 0;
    while start < |text|
      invariant |pages| <= |plan| && pages == plan[..|pages|] && start == PageStart(plan, 0, |pages|) <= |text|
      invariant |pages| <= start && |pages| <= limits.maxPages && pngBytes == PngTotal(pages) <= limits.maxPngBytes
      decreases |text| - start
    {
      var k := |pages|;
      assert k < |plan| && Planned(plan, text, p, 0, 0, png, k);
      PngNext(plan, pages, k);
      var made := MakePage(text, source, p, font, limits, k, start, pngBytes, encode, cancelled(polls + k));
      if made.Err? { return Err(made.error); }
      pngBytes := pngBytes + made.value.pngBytes;
      pages := pages + [made.value];
      start := made.value.end;
    }
    assert |pages| < |plan| ==> !Planned(plan, text, p, 0, 0, png, |pages|);
    r := Ok(pages);
  }

  lemma PngNext(plan: seq<Page>, pages: seq<Page>, k: nat)
    requires k < |plan| && pages == plan[..k]
    ensures pages + [plan[k]] == plan[..k + 1]
    ensures PngTotal(pages + [plan[k]]) == PngTotal(pages) + plan[k].pngBytes <= PngTotal(plan)
  {
    PngPush(pages, plan[k]);
    PngGrows(plan[..k + 1], plan);
  }

  /** Cut and paint the page at `start`; its size is not known yet. */
  method CutAndPaint(text: Text, source: nat, p: Profile, font: Font, number: nat, start: nat) returns (page: Page, image: Image)
    requires Supported(text) && start < |text| <= Json.USIZE_MAX && number <= Json.USIZE_MAX
    ensures page == PageAt(text, p, start, 0) && image == PageImage(font, source, text, p, start, number)
  {
    var end, rows := CutPage(text, start, BodyRows(p));
    image := PaintPage(text, source, p, font, number, start, end, rows);
    page := Page(start, end, WIDTH, Height(rows, LineRepeat(p)), 0);
  }

  lemma SizeIs(encode: Image -> nat, font: Font, source: nat, text: Text, p: Profile, start: nat, before: nat, image: Image, size: nat)
    requires Supported(text) && start < |text| && image == PageImage(font, source, text, p, start, before + 1) && size == encode(image)
    ensures PageSizes(encode, font, source, text, p)(start, before) == size
    ensures PageAt(text, p, start, 0).(pngBytes := size) == PageAt(text, p, start, size)
  {
  }

  /** Encode the page at `start`, whatever its size. */
  method EncodePage(text: Text, source: nat, p: Profile, font: Font, before: nat, start: nat, encode: Image -> nat)
    returns (page: Page, size: nat)
    requires Supported(text) && start < |text| <= Json.USIZE_MAX && before < Json.USIZE_MAX
    ensures size == PageSizes(encode, font, source, text, p)(start, before) && page == PageAt(text, p, start, size)
  {
    var image;
    page, image := CutAndPaint(text, source, p, font, before + 1, start);
    size := encode(image);
    page := page.(pngBytes := size);
    SizeIs(encode, font, source, text, p, start, before, image, size);
  }

  /** Unless stopped, cut and paint a page, and encode it within what is left of the limits. */
  method MakePage(text: Text, source: nat, p: Profile, font: Font, limits: Limits, before: nat, start: nat, pngBytes: nat,
                  encode: Image -> nat, stop: bool)
    returns (r: Result<Page, Ineligible>)
    requires Supported(text) && start < |text| <= Json.USIZE_MAX && before < Json.USIZE_MAX
    requires before <= limits.maxPages && pngBytes <= limits.maxPngBytes
    ensures var size := PageSizes(encode, font, source, text, p)(start, before);
            r == if stop then Err(Cancelled)
                 else if before == limits.maxPages || pngBytes + size > limits.maxPngBytes then Err(Limit)
                 else Ok(PageAt(text, p, start, size))
  {
    if stop { return Err(Cancelled); }
    if before == limits.maxPages { return Err(Limit); }
    var page, size := EncodePage(text, source, p, font, before, start, encode);
    r := if size > SatSub(limits.maxPngBytes, pngBytes) then Err(Limit) else Ok(page);
  }
}
