/** Recreating a listed tree entry by entry, and streaming it to the host. */
module TreeCopy {
  import opened Options
  import opened ByteText
  import opened Tree
  import IdOrder

  // ----- Copying into the workspace -----

  /** What the copy has created; a folder's mode is set only at the end. */
  datatype Object = Folder(settled: Option<nat>) | Regular(mode: nat, bytes: nat) | Link(target: string)

  type Workspace = map<Path, Object>

  datatype CopyError = Unlistable | Stopped | SourceChanged | CannotCreate | CannotSettle

  /** Creating at a path needs its parent to be a folder (the root always is) and nothing there yet. */
  predicate CanCreate(ws: Workspace, path: Path) {
    path != [] && path !in ws
    && var parent := path[..|path| - 1];
       parent == [] || (parent in ws && ws[parent].Folder?)
  }

  /** An entry's object, before or after its folder mode is set. */
  function ObjectOf(e: Entry, settled: bool): Object {
    match e
    case DirectoryEntry(_, mode) => Folder(if settled then Some(mode) else None)
    case FileEntry(_, mode, bytes) => Regular(mode, bytes)
    case SymlinkEntry(_, target) => Link(target)
  }

  /** Made so far: folders and files among the first `files` entries, links among the first `links`. */
  predicate Made(e: Entry, i: nat, files: nat, links: nat) {
    if e.SymlinkEntry? then i < links else i < files
  }

  /** The workspace holds exactly the entries made so far; folders from index `settled` on have their mode. */
  ghost predicate Holds(ws: Workspace, entries: seq<Entry>, files: nat, links: nat, settled: nat) {
    && (forall i :: 0 <= i < |entries| && Made(entries[i], i, files, links) ==>
          entries[i].path in ws && ws[entries[i].path] == ObjectOf(entries[i], i >= settled))
    && (forall p :: p in ws ==> exists i :: 0 <= i < |entries| && Made(entries[i], i, files, links) && entries[i].path == p)
  }

  /** Once the folders before it are made, the next entry can be created. */
  lemma ParentReady(ws: Workspace, entries: seq<Entry>, files: nat, links: nat, settled: nat, i: nat)
    requires PreOrder(entries, []) && Holds(ws, entries, files, links, settled) && i < |entries|
    requires i <= files && !Made(entries[i], i, files, links)
    ensures CanCreate(ws, entries[i].path)
  {
    assert HasParent(entries, [], i);
    var path := entries[i].path;
    if path in ws {
      var j :| 0 <= j < |entries| && Made(entries[j], j, files, links) && entries[j].path == path;
      assert i != j;
    }
  }

  /** Creating entry `i` extends what is held by exactly that entry. */
  lemma MakeOne(ws: Workspace, entries: seq<Entry>, files: nat, links: nat, files': nat, links': nat, i: nat)
    requires PreOrder(entries, []) && Holds(ws, entries, files, links, |entries|) && i < |entries|
    requires forall j :: 0 <= j < |entries| ==> (Made(entries[j], j, files', links') <==> j == i || Made(entries[j], j, files, links))
    ensures Holds(ws[entries[i].path := ObjectOf(entries[i], false)], entries, files', links', |entries|)
  {
    var ws' := ws[entries[i].path := ObjectOf(entries[i], false)];
    forall p | p in ws'
      ensures exists j :: 0 <= j < |entries| && Made(entries[j], j, files', links') && entries[j].path == p
    {
      if p != entries[i].path {
        var j :| 0 <= j < |entries| && Made(entries[j], j, files, links) && entries[j].path == p;
        assert Made(entries[j], j, files', links');
      } else {
        assert Made(entries[i], i, files', links');
      }
    }
  }

  /** Passing over an entry of the other kind changes nothing. */
  lemma MakeNone(ws: Workspace, entries: seq<Entry>, files: nat, links: nat, files': nat, links': nat)
    requires Holds(ws, entries, files, links, |entries|)
    requires forall j :: 0 <= j < |entries| ==> (Made(entries[j], j, files', links') <==> Made(entries[j], j, files, links))
    ensures Holds(ws, entries, files', links', |entries|)
  {
    forall p | p in ws
      ensures exists j :: 0 <= j < |entries| && Made(entries[j], j, files', links') && entries[j].path == p
    {
      var j :| 0 <= j < |entries| && Made(entries[j], j, files, links) && entries[j].path == p;
      assert Made(entries[j], j, files', links');
    }
  }

  /** Create one folder or file; a link is left for later. */
  method CopyEntry(ws: Workspace, entries: seq<Entry>, i: nat, copied: nat) returns (r: Result<Workspace, CopyError>)
    requires PreOrder(entries, []) && i < |entries| && Holds(ws, entries, i, 0, |entries|)
    ensures r.Ok? ==> Holds(r.value, entries, i + 1, 0, |entries|)
    ensures r.Ok? <==> (entries[i].FileEntry? ==> copied == entries[i].bytes)
    ensures r.Err? ==> r.error == SourceChanged
  {
    var e := entries[i];
    if e.SymlinkEntry? {
      MakeNone(ws, entries, i, 0, i + 1, 0);
      return Ok(ws);
    }
    ParentReady(ws, entries, i, 0, |entries|, i);
    if !CanCreate(ws, e.path) { return Err(CannotCreate); }
    if e.FileEntry? && copied != e.bytes { return Err(SourceChanged); }
    MakeOne(ws, entries, i, 0, i + 1, 0, i);
    r := Ok(ws[e.path := ObjectOf(e, false)]);
  }

  /** Folders and files, in listing order. `stop` answers the poll before each entry. */
  method CopyFiles(entries: seq<Entry>, stop: nat -> bool, copied: nat -> nat) returns (r: Result<Workspace, CopyError>)
    requires PreOrder(entries, [])
    ensures r.Ok? ==> Holds(r.value, entries, |entries|, 0, |entries|)
    ensures r.Ok? <==> forall i :: 0 <= i < |entries| ==> !stop(i) && (entries[i].FileEntry? ==> copied(i) == entries[i].bytes)
    ensures r.Err? ==> r.error == Stopped || r.error == SourceChanged
  {
    var ws: Workspace := map[];
    for i := 0 to |entries|
      invariant Holds(ws, entries, i, 0, |entries|)
      invariant forall k :: 0 <= k < i ==> !stop(k) && (entries[k].FileEntry? ==> copied(k) == entries[k].bytes)
    {
      if stop(i) { return Err(Stopped); }
      var next := CopyEntry(ws, entries, i, copied(i));
      if next.Err? { return next; }
      ws := next.value;
    }
    r := Ok(ws);
  }

  /** The links made so far grow by entry `i` if it is one. */
  lemma LinkMade(ws: Workspace, entries: seq<Entry>, i: nat)
    requires PreOrder(entries, []) && Holds(ws, entries, |entries|, i, |entries|) && i < |entries|
    ensures entries[i].SymlinkEntry? ==> CanCreate(ws, entries[i].path)
    ensures var ws' := if entries[i].SymlinkEntry? then ws[entries[i].path := ObjectOf(entries[i], false)] else ws;
            Holds(ws', entries, |entries|, i + 1, |entries|)
  {
    var n := |entries|;
    if entries[i].SymlinkEntry? {
      ParentReady(ws, entries, n, i, n, i);
      forall j | 0 <= j < n ensures Made(entries[j], j, n, i + 1) <==> j == i || Made(entries[j], j, n, i) {}
      MakeOne(ws, entries, n, i, n, i + 1, i);
    } else {
      forall j | 0 <= j < n ensures Made(entries[j], j, n, i + 1) <==> Made(entries[j], j, n, i) {}
      MakeNone(ws, entries, n, i, n, i + 1);
    }
  }

  /** Links, once every folder exists. */
  method CopyLinks(entries: seq<Entry>, ws0: Workspace) returns (r: Result<Workspace, CopyError>)
    requires PreOrder(entries, []) && Holds(ws0, entries, |entries|, 0, |entries|)
    ensures r.Ok? && Holds(r.value, entries, |entries|, |entries|, |entries|)
  {
    var ws := ws0;
    for i := 0 to |entries|
      invariant Holds(ws, entries, |entries|, i, |entries|)
    {
      var e := entries[i];
      LinkMade(ws, entries, i);
      if e.SymlinkEntry? {
        if !CanCreate(ws, e.path) { return Err(CannotCreate); }
        ws := ws[e.path := ObjectOf(e, false)];
      }
    }
    r := Ok(ws);
  }

  /** A folder's mode may be set while every folder above it is still as created. */
  predicate CanSettle(ws: Workspace, path: Path) {
    path in ws && ws[path] == Folder(None) && forall p :: p in ws && p < path ==> ws[p] == Folder(None)
  }

  lemma SettleReady(ws: Workspace, entries: seq<Entry>, k: nat)
    requires PreOrder(entries, []) && Holds(ws, entries, |entries|, |entries|, k + 1) && k < |entries| && entries[k].DirectoryEntry?
    ensures CanSettle(ws, entries[k].path)
  {
    assert Made(entries[k], k, |entries|, |entries|);
    forall p | p in ws && p < entries[k].path ensures ws[p] == Folder(None) {
      var i :| 0 <= i < |entries| && Made(entries[i], i, |entries|, |entries|) && entries[i].path == p;
      AncestorsFirst(entries, [], i, k);
    }
  }

  lemma SettleOne(ws: Workspace, entries: seq<Entry>, k: nat)
    requires PreOrder(entries, []) && Holds(ws, entries, |entries|, |entries|, k + 1) && k < |entries|
    ensures Holds(ws[entries[k].path := ObjectOf(entries[k], true)], entries, |entries|, |entries|, k)
  {
    var ws', n := ws[entries[k].path := ObjectOf(entries[k], true)], |entries|;
    forall p | p in ws' ensures exists j :: 0 <= j < |entries| && Made(entries[j], j, n, n) && entries[j].path == p {
      assert Made(entries[k], k, n, n);
    }
  }

  /** Folder modes from the last entry back: every folder is settled while those above it still are not. */
  method SettleModes(entries: seq<Entry>, ws0: Workspace) returns (r: Result<Workspace, CopyError>)
    requires PreOrder(entries, []) && Holds(ws0, entries, |entries|, |entries|, |entries|)
    ensures r.Ok? && Holds(r.value, entries, |entries|, |entries|, 0)
  {
    var ws, k := ws0, |entries|;
    while k > 0
      invariant 0 <= k <= |entries| && Holds(ws, entries, |entries|, |entries|, k)
    {
      k := k - 1;
      var e := entries[k];
      SettleOne(ws, entries, k);
      if e.DirectoryEntry? {
        SettleReady(ws, entries, k);
        if !CanSettle(ws, e.path) { return Err(CannotSettle); }
        ws := ws[e.path := ObjectOf(e, true)];
      } else {
        assert Made(e, k, |entries|, |entries|);
        assert ws == ws[e.path := ObjectOf(e, true)];
      }
    }
    r := Ok(ws);
  }

  /**
   Copying a listed tree: nothing ever fails to be created or settled, and a copy that is
   not stopped, of files that did not change, is exactly the listed tree with its modes.
   */
  method CopySource(entries: seq<Entry>, stop: nat -> bool, copied: nat -> nat) returns (r: Result<Workspace, CopyError>)
    requires PreOrder(entries, [])
    ensures r.Err? ==> r.error == Stopped || r.error == SourceChanged
    ensures r.Ok? <==> forall i :: 0 <= i < |entries| ==> !stop(i) && (entries[i].FileEntry? ==> copied(i) == entries[i].bytes)
    ensures r.Ok? ==> Recreates(r.value, entries)
  {
    r := CopyFiles(entries, stop, copied);
    if r.Err? { return; }
    r := CopyLinks(entries, r.value);
    r := SettleModes(entries, r.value);
    HoldsAll(r.value, entries);
  }

  /** The workspace holds the listed entries, with their modes, and nothing else. */
  ghost predicate Recreates(ws: Workspace, entries: seq<Entry>) {
    && ws.Keys == (set e | e in entries :: e.path)
    && forall e :: e in entries ==> e.path in ws && ws[e.path] == ObjectOf(e, true)
  }

  lemma HoldsAll(ws: Workspace, entries: seq<Entry>)
    requires Holds(ws, entries, |entries|, |entries|, 0)
    ensures Recreates(ws, entries)
  {
    forall e | e in entries ensures e.path in ws && ws[e.path] == ObjectOf(e, true) {
      var i :| 0 <= i < |entries| && entries[i] == e;
      assert Made(entries[i], i, |entries|, |entries|);
    }
  }

  /**
   `copy_source`: a tree that can be listed within the limits is recreated in full, unless the copy is
   stopped or a file changes under it; creating and settling in listing order never fails.
   */
  method CopyTree(source: Node, maxBytes: nat, maxInodes: nat, stop: nat -> bool, copied: nat -> nat) returns (r: Result<Workspace, CopyError>)
    requires source.Directory?
    ensures r != Err(CannotCreate) && r != Err(CannotSettle)
    ensures r == Err(Unlistable) <==> !Within(source, maxBytes, maxInodes)
    ensures r.Ok? ==> Recreates(r.value, Listing(source, IdOrder.Sorted(source.children.Keys), []))
  {
    var listed := ListTree(source, maxBytes, maxInodes);
    if listed.Err? { return Err(Unlistable); }
    r := CopySource(listed.value, stop, copied);
  }

  /** The source can be listed within the limits. */
  ghost predicate Within(source: Node, maxBytes: nat, maxInodes: nat)
    requires source.Directory?
  {
    var listing := Listing(source, IdOrder.Sorted(source.children.Keys), []);
    Listable(source, source.children.Keys, [], 0) && |listing| <= maxInodes && TotalBytes(listing) <= maxBytes
  }

  // ----- Streaming out -----

  datatype Frame = EntryFrame(entry: Entry) | FileData(bytes: seq<Byte>)

  datatype Complete = Complete(exported: bool, entries: nat, bytes: nat)

  datatype ExportError = ShortFile | FileGrew

  /** What a reader of the stream puts together: each entry with the data frames that follow it. */
  function Received(frames: seq<Frame>): seq<(Entry, seq<Byte>)> {
    if frames == [] then []
    else Receive(Received(frames[..|frames| - 1]), frames[|frames| - 1])
  }

  function Receive(before: seq<(Entry, seq<Byte>)>, f: Frame): seq<(Entry, seq<Byte>)> {
    match f
    case EntryFrame(e) => before + [(e, [])]
    case FileData(bytes) => if before == [] then [] else before[..|before| - 1] + [(before[|before| - 1].0, before[|before| - 1].1 + bytes)]
  }

  lemma PushFrame(frames: seq<Frame>, f: Frame)
    ensures Received(frames + [f]) == Receive(Received(frames), f)
  {
    assert (frames + [f])[..|frames|] == frames;
  }

  lemma PushData(frames: seq<Frame>, before: seq<(Entry, seq<Byte>)>, e: Entry, got: seq<Byte>, bytes: seq<Byte>)
    requires Received(frames) == before + [(e, got)]
    ensures Received(frames + [FileData(bytes)]) == before + [(e, got + bytes)]
  {
    PushFrame(frames, FileData(bytes));
    assert (before + [(e, got)])[..|before|] == before;
  }

  /** The receiver has what came before, then the entry with the content's first `at` bytes. */
  ghost predicate ReceivedTo(frames: seq<Frame>, before: seq<(Entry, seq<Byte>)>, e: Entry, content: seq<Byte>, at: nat) {
    at <= |content| && Received(frames) == before + [(e, content[..at])]
  }

  lemma NextChunk(frames: seq<Frame>, before: seq<(Entry, seq<Byte>)>, e: Entry, content: seq<Byte>, at: nat, count: nat)
    requires at + count <= |content| && ReceivedTo(frames, before, e, content, at)
    ensures ReceivedTo(frames + [FileData(content[at..at + count])], before, e, content, at + count)
  {
    PushData(frames, before, e, content[..at], content[at..at + count]);
    assert content[..at] + content[at..at + count] == content[..at + count];
  }

  /** Bytes carried by a received stream. */
  function Carried(received: seq<(Entry, seq<Byte>)>): nat {
    if received == [] then 0 else Carried(received[..|received| - 1]) + |received[|received| - 1].1|
  }

  lemma CarriedPush(before: seq<(Entry, seq<Byte>)>, e: Entry, bytes: seq<Byte>)
    ensures Carried(before + [(e, bytes)]) == Carried(before) + |bytes|
  {
    assert (before + [(e, bytes)])[..|before|] == before;
  }

  /** What should be received of the first `k` entries. */
  ghost function Sent(entries: seq<Entry>, contents: seq<seq<Byte>>, k: nat): seq<(Entry, seq<Byte>)>
    requires k <= |entries| == |contents|
  {
    seq(k, i requires 0 <= i < k => (entries[i], DataOf(entries[i], contents[i])))
  }

  function DataOf(e: Entry, content: seq<Byte>): seq<Byte> { if e.FileEntry? then content else [] }

  /** A file holds exactly the bytes it was listed with. */
  predicate Unchanged(e: Entry, content: seq<Byte>) { e.FileEntry? ==> |content| == e.bytes }

  lemma SentStep(entries: seq<Entry>, contents: seq<seq<Byte>>, k: nat)
    requires k < |entries| == |contents|
    ensures Sent(entries, contents, k + 1) == Sent(entries, contents, k) + [(entries[k], DataOf(entries[k], contents[k]))]
  {
  }

  /** One read: up to `room` bytes from `at`, as many as the system call gives (`short` shortens it). */
  method ReadSome(content: seq<Byte>, at: nat, room: nat, short: nat -> nat) returns (count: nat)
    requires at <= |content|
    ensures count <= room && at + count <= |content|
    ensures count == 0 <==> room == 0 || at == |content|
  {
    var most := Min(room, |content| - at);
    count := if most == 0 then 0 else most - short(at) % most;
  }

  /** Stream one file in chunks; the file must hold exactly the listed bytes, no fewer and no more. */
  method StreamFile(e: Entry, content: seq<Byte>, short: nat -> nat, chunk: nat, frames0: seq<Frame>, ghost before: seq<(Entry, seq<Byte>)>)
    returns (r: Result<seq<Frame>, ExportError>)
    requires chunk > 0 && e.FileEntry? && Received(frames0) == before + [(e, [])]
    ensures r.Ok? <==> |content| == e.bytes
    ensures r.Err? ==> (r.error == ShortFile <==> |content| < e.bytes)
    ensures r.Ok? ==> Received(r.value) == before + [(e, content)]
  {
    var frames, left := frames0, e.bytes;
    while left > 0
      invariant 0 <= left <= e.bytes && ReceivedTo(frames, before, e, content, e.bytes - left)
    {
      var at := e.bytes - left;
      var count := ReadSome(content, at, Min(left, chunk), short);
      if count == 0 { return Err(ShortFile); }
      NextChunk(frames, before, e, content, at, count);
      frames := frames + [FileData(content[at..at + count])];
      left := left - count;
    }
    if |content| > e.bytes { return Err(FileGrew); }
    assert content[..e.bytes] == content;
    r := Ok(frames);
  }

  /** An entry's frame, and a file's data after it. */
  method StreamEntry(e: Entry, content: seq<Byte>, short: nat -> nat, chunk: nat, frames0: seq<Frame>)
    returns (r: Result<seq<Frame>, ExportError>)
    requires chunk > 0
    ensures r.Ok? <==> Unchanged(e, content)
    ensures r.Ok? ==> Received(r.value) == Received(frames0) + [(e, DataOf(e, content))]
  {
    PushFrame(frames0, EntryFrame(e));
    r := Ok(frames0 + [EntryFrame(e)]);
    if e.FileEntry? { r := StreamFile(e, content, short, chunk, r.value, Received(frames0)); }
  }

  /**
   The export loop: it fails exactly when a file does not hold its listed bytes; otherwise the stream
   carries every listed entry in order with its whole content, and COMPLETE counts exactly what was sent.
   */
  method Export(entries: seq<Entry>, contents: seq<seq<Byte>>, short: (nat, nat) -> nat, chunk: nat)
    returns (r: Result<(seq<Frame>, Complete), ExportError>)
    requires chunk > 0 && |contents| == |entries|
    ensures r.Ok? <==> forall i :: 0 <= i < |entries| ==> Unchanged(entries[i], contents[i])
    ensures r.Ok? ==> Received(r.value.0) == Sent(entries, contents, |entries|)
    ensures r.Ok? ==> r.value.1 == Complete(true, |Received(r.value.0)|, Carried(Received(r.value.0)))
  {
    var frames: seq<Frame>, total := [], 0;
    for i := 0 to |entries|
      invariant Received(frames) == Sent(entries, contents, i) && total == Carried(Received(frames))
      invariant forall k :: 0 <= k < i ==> Unchanged(entries[k], contents[k])
    {
      var e := entries[i];
      var streamed := StreamEntry(e, contents[i], at => short(i, at), chunk, frames);
      if streamed.Err? { return Err(streamed.error); }
      SentStep(entries, contents, i);
      CarriedPush(Received(frames), e, DataOf(e, contents[i]));
      frames := streamed.value;
      if e.FileEntry? { total := total + e.bytes; }
    }
    r := Ok((frames, Complete(true, |entries|, total)));
  }
}
