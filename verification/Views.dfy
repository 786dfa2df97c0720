/** Replacing native text by bitmaps never changes which view is accepted or what the model is sent. */
module Views {
  import opened Options
  import opened Projection
  import opened Bitmap
  import opened BitmapPages
  import opened ProjectionBytes
  import Pairs = ProjectionPairs
  import Json

  datatype BitmapPage = BitmapPage(source: Range, width: nat, height: nat, digest: Digest, artifact: Digest)

  datatype BitmapManifest = BitmapManifest(
    renderer: Digest, profile: Profile, source: Digest, sourceArtifact: Digest, pages: seq<BitmapPage>)

  datatype Representation = NativeText(byteLimit: nat) | Rendered(bitmap: BitmapManifest)

  /**
   Everything foreign: the two digests, the renderer's identity, and the successful tool output held
   by a history item (`None` when it is not one, does not parse, or reports an error).
   */
  datatype World = World(
    hash: Hash,
    digest: Text -> Digest,
    rendererOf: Profile -> Digest,
    output: Value -> Option<Text>)

  ghost function Native(s: Session, limit: nat, w: World): Result<View<Representation>, ContextError> {
    Project(s, limit, NativeText(limit), w.hash)
  }

  // ----- Bitmaps against their source -----

  /** Pages cover `[0, n)` in order, none empty, each stored under its own digest. */
  predicate PagesTile(pages: seq<BitmapPage>, n: nat) {
    && pages != [] && pages[0].source.start == 0 && pages[|pages| - 1].source.end == n
    && (forall i :: 0 <= i < |pages| ==> PageHolds(pages[i], n))
    && (forall i :: 0 < i < |pages| ==> pages[i].source.start == pages[i - 1].source.end)
  }

  predicate PageHolds(page: BitmapPage, n: nat) {
    page.source.start < page.source.end <= n && page.digest == page.artifact && page.width > 0 && page.height > 0
  }

  /** The tool output a bitmap of this segment must show. */
  function SegmentOutput(seg: Segment<Representation>, s: Session, w: World): Option<Text> {
    if seg.role == StableHistory && seg.range.end == seg.range.start + 1 && seg.range.start < |s.history|
    then w.output(s.history[seg.range.start]) else None
  }

  predicate BitmapMatches(bitmap: BitmapManifest, seg: Segment<Representation>, s: Session, w: World) {
    match SegmentOutput(seg, s, w)
    case None => false
    case Some(text) =>
      bitmap.source == w.digest(text) && bitmap.sourceArtifact == bitmap.source && PagesTile(bitmap.pages, |text|)
  }

  method BitmapMatchesSource(bitmap: BitmapManifest, seg: Segment<Representation>, s: Session, w: World) returns (ok: bool)
    ensures ok == BitmapMatches(bitmap, seg, s, w)
  {
    var output := SegmentOutput(seg, s, w);
    if output.None? { return false; }
    var text := output.value;
    if bitmap.source != w.digest(text) || bitmap.sourceArtifact != bitmap.source { return false; }
    var next := 0;
    for i := 0 to |bitmap.pages|
      invariant next == if i == 0 then 0 else bitmap.pages[i - 1].source.end
      invariant i > 0 ==> bitmap.pages[0].source.start == 0
      invariant forall k :: 0 <= k < i ==> PageHolds(bitmap.pages[k], |text|)
      invariant forall k :: 0 < k < i ==> bitmap.pages[k].source.start == bitmap.pages[k - 1].source.end
    {
      var page := bitmap.pages[i];
      if page.source.start != next || page.source.end < page.source.start { return false; }
      if page.source.end > |text| { return false; }
      if page.source.start == page.source.end || page.digest != page.artifact || page.width == 0 || page.height == 0 {
        return false;
      }
      next := page.source.end;
    }
    ok := next == |text| && bitmap.pages != [];
  }

  // ----- Validity -----

  /** One segment is what the source regenerates, up to its representation. */
  predicate SegmentValid(expected: Segment<Representation>, actual: Segment<Representation>, s: Session, w: World) {
    && expected.(representation := actual.representation) == actual
    && (actual.representation.Rendered? ==> BitmapMatches(actual.representation.bitmap, actual, s, w))
  }

  /** A manifest is the regenerated one, with bitmaps only where they match. */
  predicate ManifestValid(expected: Manifest<Representation>, actual: Manifest<Representation>, s: Session, w: World) {
    && |expected.segments| == |actual.segments|
    && expected.(segments := actual.segments) == actual
    && (forall i :: 0 <= i < |actual.segments| ==> SegmentValid(expected.segments[i], actual.segments[i], s, w))
  }

  /** `valid_for`. */
  ghost predicate ValidFor(v: View<Representation>, s: Session, w: World) {
    var native := Native(s, v.manifest.byteLimit, w);
    native.Ok? && ManifestValid(native.value.manifest, v.manifest, s, w)
  }

  method CheckManifest(expected: Manifest<Representation>, actual: Manifest<Representation>, s: Session, w: World) returns (ok: bool)
    ensures ok == ManifestValid(expected, actual, s, w)
  {
    if expected.input != actual.input || |expected.segments| != |actual.segments| { return false; }
    for i := 0 to |actual.segments|
      invariant forall k :: 0 <= k < i ==> SegmentValid(expected.segments[k], actual.segments[k], s, w)
    {
      var seg := actual.segments[i];
      if expected.segments[i].(representation := seg.representation) != seg { return false; }
      if seg.representation.Rendered? {
        var matches := BitmapMatchesSource(seg.representation.bitmap, seg, s, w);
        if !matches { return false; }
      }
    }
    ok := expected.(segments := actual.segments) == actual;
  }

  lemma NativeManifestValid(m: Manifest<Representation>, s: Session, w: World)
    requires forall seg :: seg in m.segments ==> seg.representation.NativeText?
    ensures ManifestValid(m, m, s, w)
  {
  }

  /** What the model is sent: the regenerated items of a valid view, or the whole history. */
  ghost function InputOrNative(v: View<Representation>, s: Session, w: World): seq<Value> {
    if !ValidFor(v, s, w) then s.history
    else match Native(s, v.manifest.byteLimit, w) case Ok(n) => n.input case Err(_) => s.history
  }

  /** `v'` is `v` with some segments re-represented by bitmaps that match their source. */
  ghost predicate Rerepresents(v: View<Representation>, v': View<Representation>, s: Session, w: World) {
    && v' == v.(manifest := v.manifest.(segments := v'.manifest.segments))
    && |v'.manifest.segments| == |v.manifest.segments|
    && (forall i :: 0 <= i < |v.manifest.segments| ==>
          SegmentKept(v.manifest.segments[i], v'.manifest.segments[i], s, w))
  }

  predicate SegmentKept(old': Segment<Representation>, new': Segment<Representation>, s: Session, w: World) {
    old' == new' || (new' == old'.(representation := new'.representation) && new'.representation.Rendered?
                     && BitmapMatches(new'.representation.bitmap, old', s, w))
  }

  lemma NativeIsValid(s: Session, limit: nat, w: World)
    requires Native(s, limit, w).Ok?
    ensures ValidFor(Native(s, limit, w).value, s, w)
  {
    var v := Native(s, limit, w).value;
    var items := Repaired(s).items;
    NativeSegments(s, items, CutsOf(items, limit), limit, w);
    NativeManifestValid(v.manifest, s, w);
  }

  lemma NativeSegments(s: Session, items: seq<ProjectedItem>, c: Cuts, limit: nat, w: World)
    requires c.base <= c.epoch <= c.live <= |items|
    ensures forall seg :: seg in SegmentsOf(s, items, c, InputOf(s, items, c, w.hash), NativeText(limit), w.hash) ==>
              seg.representation == NativeText(limit)
  {
    StableNative(s, items, c, InputOf(s, items, c, w.hash), Kept(c), limit, w);
  }

  lemma {:induction false} StableNative(s: Session, items: seq<ProjectedItem>, c: Cuts, input: seq<Value>, k: nat, limit: nat, w: World)
    requires Laid(items, c, input) && k <= Kept(c)
    ensures forall seg :: seg in StableSegments(s, items, c, input, k, NativeText(limit), w.hash) ==>
              seg.representation == NativeText(limit)
  {
    if k > 0 { StableNative(s, items, c, input, k - 1, limit, w); }
  }

  lemma SegmentStaysValid(expected: Segment<Representation>, before: Segment<Representation>, after: Segment<Representation>, s: Session, w: World)
    requires SegmentValid(expected, before, s, w) && SegmentKept(before, after, s, w)
    ensures SegmentValid(expected, after, s, w)
  {
  }

  /** Re-representing keeps a view valid, and the model is sent the same items. */
  lemma RerepresentingIsTransparent(v: View<Representation>, v': View<Representation>, s: Session, w: World)
    requires ValidFor(v, s, w) && Rerepresents(v, v', s, w)
    ensures ValidFor(v', s, w)
    ensures InputOrNative(v', s, w) == InputOrNative(v, s, w)
  {
    var native := Native(s, v.manifest.byteLimit, w).value;
    forall i | 0 <= i < |v'.manifest.segments|
      ensures SegmentValid(native.manifest.segments[i], v'.manifest.segments[i], s, w)
    {
      SegmentStaysValid(native.manifest.segments[i], v.manifest.segments[i], v'.manifest.segments[i], s, w);
    }
  }

  // ----- Reusing and rendering -----

  predicate Reusable(candidate: Segment<Representation>, seg: Segment<Representation>) {
    candidate.role == seg.role && candidate.range == seg.range && candidate.sourceDigest == seg.sourceDigest
    && candidate.representation.Rendered?
  }

  /** The segment with the bitmap of the first reusable one cached, from index `j` on, if that bitmap matches. */
  function Reused(seg: Segment<Representation>, cached: seq<Segment<Representation>>, j: nat, s: Session, w: World): (r: Segment<Representation>)
    requires j <= |cached|
    ensures SegmentKept(seg, r, s, w)
    decreases |cached| - j
  {
    if j == |cached| then seg
    else if !Reusable(cached[j], seg) then Reused(seg, cached, j + 1, s, w)
    else if BitmapMatches(cached[j].representation.bitmap, seg, s, w) then seg.(representation := cached[j].representation)
    else seg
  }

  method ReuseRepresentations(v: View<Representation>, cached: seq<Segment<Representation>>, s: Session, w: World)
    returns (v': View<Representation>)
    ensures Rerepresents(v, v', s, w)
    ensures forall i :: 0 <= i < |v.manifest.segments| ==> v'.manifest.segments[i] == Reused(v.manifest.segments[i], cached, 0, s, w)
  {
    var segments := v.manifest.segments;
    for i := 0 to |segments|
      invariant |segments| == |v.manifest.segments|
      invariant forall k :: i <= k < |segments| ==> segments[k] == v.manifest.segments[k]
      invariant forall k :: 0 <= k < i ==> segments[k] == Reused(v.manifest.segments[k], cached, 0, s, w)
    {
      var seg, j := segments[i], 0;
      while j < |cached| && !Reusable(cached[j], seg)
        invariant 0 <= j <= |cached| && Reused(seg, cached, j, s, w) == Reused(seg, cached, 0, s, w)
      {
        j := j + 1;
      }
      if j < |cached| {
        var matches := BitmapMatchesSource(cached[j].representation.bitmap, seg, s, w);
        if matches { segments := segments[i := seg.(representation := cached[j].representation)]; }
      }
    }
    v' := v.(manifest := v.manifest.(segments := segments));
  }

  /** What the outside decides while one text is rendered and stored: sizes, digests, polls and writes. */
  datatype Outside = Outside(encode: Image -> nat, pngDigest: nat -> Digest, cancelled: nat -> bool, stopped: nat -> bool, stored: nat -> bool)

  datatype RenderError = RenderCancelled | StoreFailed

  lemma {:induction false} TileAt(pages: seq<Page>, text: Text, p: Profile, start: nat, i: nat)
    requires Tiles(pages, text, p, start) && i < |pages|
    ensures pages[i].start < pages[i].end <= |text| && pages[i].width == WIDTH && pages[i].height > 0
    ensures pages[i].start == if i == 0 then start else pages[i - 1].end
    ensures i == |pages| - 1 ==> pages[i].end == |text|
    decreases |pages|
  {
    if i > 0 { TileAt(pages[1..], text, p, pages[0].end, i - 1); }
  }

  function StoredPage(page: Page, digest: Digest): BitmapPage {
    BitmapPage(Range(page.start, page.end), page.width, page.height, digest, digest)
  }

  function StoredPages(pages: seq<Page>, o: Outside): (r: seq<BitmapPage>)
    ensures |r| == |pages| && forall i :: 0 <= i < |r| ==> r[i] == StoredPage(pages[i], o.pngDigest(i))
  {
    seq(|pages|, i requires 0 <= i < |pages| => StoredPage(pages[i], o.pngDigest(i)))
  }

  /** The sizes its pages encode to. */
  function Sizes(text: Text, p: Profile, font: Font, o: Outside, w: World): (nat, nat) -> nat {
    PageSizes(o.encode, font, w.digest(text), text, p)
  }

  /** The bitmap a text renders to. */
  function BitmapOf(text: Text, p: Profile, font: Font, o: Outside, w: World): BitmapManifest
    requires Supported(text)
  {
    BitmapManifest(w.rendererOf(p), p, w.digest(text), w.digest(text), StoredPages(Plan(text, p, 0, 0, Sizes(text, p, font, o, w)), o))
  }

  /** The text renders within the limits. */
  predicate Fits(text: Text, p: Profile, limits: Limits, font: Font, o: Outside, w: World) {
    Renderable(text, p, limits, Sizes(text, p, font, o, w))
  }

  lemma StoredTile(pages: seq<Page>, text: Text, p: Profile, o: Outside)
    requires Tiles(pages, text, p, 0) && text != []
    ensures PagesTile(StoredPages(pages, o), |text|)
  {
    var stored := StoredPages(pages, o);
    forall k | 0 <= k < |pages| ensures PageHolds(stored[k], |text|) && stored[k].source.start == if k == 0 then 0 else stored[k - 1].source.end {
      TileAt(pages, text, p, 0, k);
      assert stored[k] == StoredPage(pages[k], o.pngDigest(k));
    }
    TileAt(pages, text, p, 0, |pages| - 1);
  }

  /** Nothing is cancelled and every write succeeds. */
  ghost predicate Undisturbed(o: Outside) { forall k :: !o.cancelled(k) && !o.stopped(k) && o.stored(k) }

  /** Render a text and store its pages: unsupported text and exceeded limits select native text, without an error. */
  method RenderToArtifacts(text: Text, p: Profile, limits: Limits, font: Font, o: Outside, w: World)
    returns (r: Result<Option<BitmapManifest>, RenderError>)
    requires |text| <= Json.USIZE_MAX
    ensures r.Ok? && r.value.Some? ==>
              Fits(text, p, limits, font, o, w) && r.value.value == BitmapOf(text, p, font, o, w) && PagesTile(r.value.value.pages, |text|)
    ensures r.Ok? && r.value.None? ==> !Fits(text, p, limits, font, o, w)
    ensures Undisturbed(o) ==> r.Ok?
  {
    var rendered := Render(text, w.digest(text), p, limits, font, o.encode, o.cancelled);
    if rendered == Err(Cancelled) { return Err(RenderCancelled); }
    if rendered.Err? { return Ok(None); }
    var stored := StorePages(rendered.value, o);
    if stored.Err? { return Err(stored.error); }
    StoredTile(rendered.value, text, p, o);
    r := Ok(Some(BitmapManifest(w.rendererOf(p), p, w.digest(text), w.digest(text), stored.value)));
  }

  /** Store the source and each page, polling before each. */
  method StorePages(pages: seq<Page>, o: Outside) returns (r: Result<seq<BitmapPage>, RenderError>)
    ensures r.Ok? ==> r.value == StoredPages(pages, o)
    ensures Undisturbed(o) ==> r.Ok?
  {
    if o.stopped(0) { return Err(RenderCancelled); }
    if !o.stored(0) { return Err(StoreFailed); }
    var stored: seq<BitmapPage> := [];
    for i := 0 to |pages|
      invariant |stored| == i && forall k :: 0 <= k < i ==> stored[k] == StoredPage(pages[k], o.pngDigest(k))
    {
      if o.stopped(i + 1) { return Err(RenderCancelled); }
      if !o.stored(i + 1) { return Err(StoreFailed); }
      stored := stored + [StoredPage(pages[i], o.pngDigest(i))];
    }
    r := Ok(stored);
  }

  const RENDER_LIMITS: Limits := Limits(256, 64 * 1024 * 1024)

  /** Settled successful tool output, still native. */
  predicate Eligible(seg: Segment<Representation>, s: Session, w: World) {
    seg.representation.NativeText? && SegmentOutput(seg, s, w).Some?
  }

  /** A segment after rendering: the bitmap of its own output, or untouched. */
  ghost predicate RenderedFrom(seg: Segment<Representation>, r: Segment<Representation>, s: Session, w: World, font: Font, o: Outside) {
    || r == seg
    || (Eligible(seg, s, w)
        && var text := SegmentOutput(seg, s, w).value;
           Fits(text, PatchAligned8On16, RENDER_LIMITS, font, o, w)
           && r == seg.(representation := Rendered(BitmapOf(text, PatchAligned8On16, font, o, w))))
  }

  /** An eligible segment whose output renders within the limits. */
  predicate WillRender(seg: Segment<Representation>, s: Session, w: World, font: Font, o: Outside) {
    Eligible(seg, s, w) && Fits(SegmentOutput(seg, s, w).value, PatchAligned8On16, RENDER_LIMITS, font, o, w)
  }

  /** Every output is a string in memory. */
  ghost predicate InMemory(s: Session, w: World) {
    forall i :: 0 <= i < |s.history| && w.output(s.history[i]).Some? ==> |w.output(s.history[i]).value| <= Json.USIZE_MAX
  }

  /** Render one segment; a failure leaves it native. */
  method RenderSegment(seg: Segment<Representation>, s: Session, w: World, font: Font, o: Outside) returns (r: Segment<Representation>)
    requires InMemory(s, w)
    ensures SegmentKept(seg, r, s, w) && RenderedFrom(seg, r, s, w, font, o)
    ensures Undisturbed(o) && WillRender(seg, s, w, font, o) ==> r.representation.Rendered?
  {
    r := seg;
    if !Eligible(seg, s, w) { return; }
    var text := SegmentOutput(seg, s, w).value;
    var bitmap := RenderToArtifacts(text, PatchAligned8On16, RENDER_LIMITS, font, o, w);
    if bitmap.Ok? && bitmap.value.Some? { r := seg.(representation := Rendered(bitmap.value.value)); }
  }

  /** Render every eligible segment of a view until cancelled; each failure is local to its segment. */
  method RenderEligible(v: View<Representation>, s: Session, w: World, font: Font, cancelled: nat -> bool, outside: nat -> Outside)
    returns (v': View<Representation>)
    requires InMemory(s, w)
    ensures Rerepresents(v, v', s, w)
    ensures forall i :: 0 <= i < |v.manifest.segments| ==> RenderedFrom(v.manifest.segments[i], v'.manifest.segments[i], s, w, font, outside(i))
    ensures (forall k :: !cancelled(k)) ==> forall i :: 0 <= i < |v.manifest.segments| ==>
              Undisturbed(outside(i)) && WillRender(v.manifest.segments[i], s, w, font, outside(i)) ==> v'.manifest.segments[i].representation.Rendered?
  {
    var segments, n := v.manifest.segments, |v.manifest.segments|;
    var i := 0;
    while i < n && !cancelled(i)
      invariant 0 <= i <= |segments| == n
      invariant forall k :: i <= k < n ==> segments[k] == v.manifest.segments[k]
      invariant forall k :: 0 <= k < i ==> SegmentKept(v.manifest.segments[k], segments[k], s, w)
      invariant forall k :: 0 <= k < i ==> RenderedFrom(v.manifest.segments[k], segments[k], s, w, font, outside(k))
      invariant forall k :: 0 <= k < i ==>
                  Undisturbed(outside(k)) && WillRender(v.manifest.segments[k], s, w, font, outside(k)) ==> segments[k].representation.Rendered?
    {
      var rendered := RenderSegment(segments[i], s, w, font, outside(i));
      segments := segments[i := rendered];
      i := i + 1;
    }
    v' := v.(manifest := v.manifest.(segments := segments));
  }

  /**
   Rendering is transparent: reuse cached bitmaps, then render what is left of a fresh projection,
   with any cancellations, sizes and storage failures. The view stays valid and the model is sent
   exactly the native projection.
   */
  lemma RenderingIsTransparent(s: Session, limit: nat, w: World, reused: View<Representation>, rendered: View<Representation>)
    requires Native(s, limit, w).Ok?
    requires Rerepresents(Native(s, limit, w).value, reused, s, w) && Rerepresents(reused, rendered, s, w)
    ensures ValidFor(rendered, s, w)
    ensures InputOrNative(rendered, s, w) == Native(s, limit, w).value.input
  {
    NativeIsValid(s, limit, w);
    RerepresentingIsTransparent(Native(s, limit, w).value, reused, s, w);
    RerepresentingIsTransparent(reused, rendered, s, w);
  }

  /**
   No view, however altered, can hurt: what is sent for it is the history itself, or an input that
   fits the limit it claims and in which every call has its output and every output its call.
   */
  lemma AlteredViewsAreHarmless(v: View<Representation>, s: Session, w: World)
    requires Addressable(s) && Pairs.WellFormed(s.history) && Pairs.SettledBetweenTurns(s)
    ensures var sent := InputOrNative(v, s, w);
            sent == s.history || (InputBytes(sent) <= v.manifest.byteLimit && Pairs.Whole(sent))
  {
    var limit := v.manifest.byteLimit;
    if Native(s, limit, w).Ok? {
      ProjectionFits(s, limit, NativeText(limit), w.hash);
      Pairs.PairAtomicity(s, limit, NativeText(limit), w.hash);
    }
  }
}
