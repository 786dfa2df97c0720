/** Listing a directory tree within limits. */
module Tree {
  import opened Options
  import opened ByteText
  import IdOrder

  /** A path is its components; the wire form joins them with slashes. */
  type Path = seq<string>

  const MAX_DEPTH: nat := 64
  const MAX_PATH: nat := 4096

  /**
   What the file system holds at a path. A directory whose listing fails or holds a name that is not
   UTF-8 is `unreadable`; so is a link whose target is not UTF-8.
   */
  datatype Node =
    | File(mode: nat, length: nat, links: nat)
    | Symlink(target: string, unreadable: bool)
    | Directory(mode: nat, children: map<string, Node>, unreadable: bool)
    | Special

  datatype Entry =
    | DirectoryEntry(path: Path, mode: nat)
    | FileEntry(path: Path, mode: nat, bytes: nat)
    | SymlinkEntry(path: Path, target: string)

  // ----- What is acceptable -----

  /** Length of the joined path. */
  function PathBytes(p: Path): nat {
    if p == [] then 0 else if |p| == 1 then Utf8(p[0]) else PathBytes(p[..|p| - 1]) + 1 + Utf8(p[|p| - 1])
  }

  predicate SafeName(name: string) {
    name != [] && name != "." && name != ".." && forall i :: 0 <= i < |name| ==> name[i] != '\0' && name[i] != '/'
  }

  predicate Safe(p: Path) {
    p != [] && PathBytes(p) <= MAX_PATH && forall i :: 0 <= i < |p| ==> SafeName(p[i])
  }

  // Octal mode bits, as the checks read them.
  predicate Special7000(mode: nat) { mode / 512 % 8 != 0 }
  predicate OwnerReads(mode: nat) { mode / 256 % 2 == 1 }
  predicate OwnerEnters(mode: nat) { mode / 64 % 2 == 1 }

  predicate DirectoryOk(mode: nat) { !Special7000(mode) && OwnerReads(mode) && OwnerEnters(mode) }
  predicate FileOk(mode: nat, links: nat) { !Special7000(mode) && OwnerReads(mode) && links == 1 }

  /** Everything below a directory can be listed; limits on totals aside. */
  ghost predicate Listable(dir: Node, names: set<string>, prefix: Path, depth: nat)
    requires dir.Directory? && names <= dir.children.Keys
    decreases dir, |names|
  {
    depth <= MAX_DEPTH && !dir.unreadable && forall name :: name in names ==> NodeOk(dir.children[name], prefix + [name], depth)
  }

  ghost predicate NodeOk(node: Node, path: Path, depth: nat)
    decreases node
  {
    Safe(path) &&
    match node
    case File(mode, _, links) => FileOk(mode, links)
    case Symlink(target, unreadable) => !unreadable && Utf8(target) <= MAX_PATH
    case Directory(mode, children, _) => DirectoryOk(mode) && Listable(node, children.Keys, path, depth + 1)
    case Special => false
  }

  // ----- The listing -----

  /** Pre-order: each name in order, a directory followed by its own listing. */
  ghost function Listing(dir: Node, names: seq<string>, prefix: Path): seq<Entry>
    requires dir.Directory? && forall name :: name in names ==> name in dir.children
    decreases dir, |names|
  {
    if names == [] then []
    else NodeListing(dir.children[names[0]], prefix + [names[0]]) + Listing(dir, names[1..], prefix)
  }

  ghost function NodeListing(node: Node, path: Path): seq<Entry>
    decreases node
  {
    match node
    case File(mode, length, _) => [FileEntry(path, mode, length)]
    case Symlink(target, _) => [SymlinkEntry(path, target)]
    case Directory(mode, children, _) =>
      [DirectoryEntry(path, mode)] + Listing(node, IdOrder.Sorted(children.Keys), path)
    case Special => []
  }

  function EntryBytes(e: Entry): nat { if e.FileEntry? then e.bytes else 0 }

  /** File bytes of the first `k` entries. */
  function BytesUpTo(entries: seq<Entry>, k: nat): nat
    requires k <= |entries|
  {
    if k == 0 then 0 else BytesUpTo(entries, k - 1) + EntryBytes(entries[k - 1])
  }

  function TotalBytes(entries: seq<Entry>): nat { BytesUpTo(entries, |entries|) }

  lemma {:induction false} BytesFrame(a: seq<Entry>, b: seq<Entry>, k: nat)
    requires k <= |b|
    ensures BytesUpTo(a + b, |a| + k) == TotalBytes(a) + BytesUpTo(b, k)
    decreases k
  {
    if k > 0 { BytesFrame(a, b, k - 1); } else { BytesPrefix(a, b, |a|); }
  }

  lemma {:induction false} BytesPrefix(a: seq<Entry>, b: seq<Entry>, k: nat)
    requires k <= |a|
    ensures BytesUpTo(a + b, k) == BytesUpTo(a, k)
    decreases k
  {
    if k > 0 { BytesPrefix(a, b, k - 1); }
  }

  lemma TotalConcat(a: seq<Entry>, b: seq<Entry>)
    ensures TotalBytes(a + b) == TotalBytes(a) + TotalBytes(b)
  {
    BytesFrame(a, b, |b|);
  }

  // ----- Pre-order -----

  /** Every entry lies strictly below `prefix`. */
  ghost predicate Below(entries: seq<Entry>, prefix: Path) {
    forall i :: 0 <= i < |entries| ==> prefix < entries[i].path
  }

  /** Every entry's parent is `prefix` itself or a directory listed before it. */
  ghost predicate ParentsFirst(entries: seq<Entry>, prefix: Path) {
    forall i :: 0 <= i < |entries| ==> HasParent(entries, prefix, i)
  }

  ghost predicate HasParent(entries: seq<Entry>, prefix: Path, i: nat)
    requires i < |entries|
  {
    var path := entries[i].path;
    path != [] && (path[..|path| - 1] == prefix
                   || exists j :: 0 <= j < i && entries[j].DirectoryEntry? && entries[j].path == path[..|path| - 1])
  }

  ghost predicate DistinctPaths(entries: seq<Entry>) {
    forall i, j :: 0 <= i < j < |entries| ==> entries[i].path != entries[j].path
  }

  /** A listing's entries are below its prefix, distinct, and each after its parent. */
  ghost predicate PreOrder(entries: seq<Entry>, prefix: Path) {
    Below(entries, prefix) && ParentsFirst(entries, prefix) && DistinctPaths(entries)
  }

  /** Two listings below the same prefix, with no name in common, join into one. */
  lemma JoinSiblings(a: seq<Entry>, b: seq<Entry>, prefix: Path)
    requires PreOrder(a, prefix) && PreOrder(b, prefix)
    requires forall i, j :: 0 <= i < |a| && 0 <= j < |b| ==> a[i].path[|prefix|] != b[j].path[|prefix|]
    ensures PreOrder(a + b, prefix)
  {
    var all := a + b;
    forall i | 0 <= i < |all| ensures HasParent(all, prefix, i) {
      if i < |a| {
        assert HasParent(a, prefix, i);
        var path := all[i].path;
        if path[..|path| - 1] != prefix {
          var j :| 0 <= j < i && a[j].DirectoryEntry? && a[j].path == path[..|path| - 1];
          assert all[j] == a[j];
        }
      } else {
        assert HasParent(b, prefix, i - |a|);
        var path := all[i].path;
        if path[..|path| - 1] != prefix {
          var j :| 0 <= j < i - |a| && b[j].DirectoryEntry? && b[j].path == path[..|path| - 1];
          assert all[|a| + j] == b[j];
        }
      }
    }
  }

  /** A directory's own entry in front of its listing, seen from its parent. */
  lemma PrependDirectory(path: Path, mode: nat, inside: seq<Entry>)
    requires path != [] && PreOrder(inside, path)
    ensures PreOrder([DirectoryEntry(path, mode)] + inside, path[..|path| - 1])
  {
    var prefix := path[..|path| - 1];
    var all := [DirectoryEntry(path, mode)] + inside;
    forall i | 0 <= i < |all| ensures HasParent(all, prefix, i) && prefix < all[i].path {
      if i > 0 {
        assert HasParent(inside, path, i - 1) && all[i] == inside[i - 1];
        var p := all[i].path;
        if p[..|p| - 1] == path {
          assert all[0].DirectoryEntry? && all[0].path == path;
        } else {
          var j :| 0 <= j < i - 1 && inside[j].DirectoryEntry? && inside[j].path == p[..|p| - 1];
          assert all[j + 1] == inside[j];
        }
      }
    }
  }

  lemma {:induction false} ListingPreOrder(dir: Node, names: seq<string>, prefix: Path)
    requires dir.Directory? && forall name :: name in names ==> name in dir.children
    requires forall i, j :: 0 <= i < j < |names| ==> names[i] != names[j]
    ensures PreOrder(Listing(dir, names, prefix), prefix)
    ensures forall i :: 0 <= i < |Listing(dir, names, prefix)| ==> Listing(dir, names, prefix)[i].path[|prefix|] in names
    decreases dir, |names|
  {
    if names != [] {
      var path := prefix + [names[0]];
      var a := NodePreOrder(dir.children[names[0]], path);
      ListingPreOrder(dir, names[1..], prefix);
      var b := Listing(dir, names[1..], prefix);
      assert path[..|path| - 1] == prefix;
      forall i | 0 <= i < |a| ensures a[i].path[|prefix|] == names[0] {
        assert a[i].path[..|path|] == path;
      }
      forall j | 0 <= j < |b| ensures b[j].path[|prefix|] != names[0] {
        var k :| 0 <= k < |names[1..]| && names[1..][k] == b[j].path[|prefix|];
        assert names[k + 1] == b[j].path[|prefix|];
      }
      JoinSiblings(a, b, prefix);
    }
  }

  lemma LeafPreOrder(e: Entry)
    requires e.path != []
    ensures PreOrder([e], e.path[..|e.path| - 1])
  {
    assert HasParent([e], e.path[..|e.path| - 1], 0);
  }

  lemma {:induction false} NodePreOrder(node: Node, path: Path) returns (listing: seq<Entry>)
    requires path != []
    ensures listing == NodeListing(node, path) && PreOrder(listing, path[..|path| - 1])
    ensures forall i :: 0 <= i < |listing| ==> path <= listing[i].path
    decreases node
  {
    listing := NodeListing(node, path);
    if node.Directory? {
      var names := IdOrder.Sorted(node.children.Keys);
      IdOrder.SortedDistinct(names, node.children.Keys);
      ListingPreOrder(node, names, path);
      listing := DirectoryPreOrder(path, node.mode, Listing(node, names, path));
    } else if !node.Special? {
      LeafPreOrder(listing[0]);
      assert listing == [listing[0]];
    }
  }

  lemma DirectoryPreOrder(path: Path, mode: nat, inside: seq<Entry>) returns (listing: seq<Entry>)
    requires path != [] && PreOrder(inside, path)
    ensures listing == [DirectoryEntry(path, mode)] + inside && PreOrder(listing, path[..|path| - 1])
    ensures forall i :: 0 <= i < |listing| ==> path <= listing[i].path
  {
    listing := [DirectoryEntry(path, mode)] + inside;
    PrependDirectory(path, mode, inside);
  }

  /** Every ancestor of an entry is a directory listed before it. */
  lemma {:induction false} AncestorsFirst(entries: seq<Entry>, prefix: Path, i: nat, j: nat)
    requires PreOrder(entries, prefix) && i < |entries| && j < |entries| && entries[i].path < entries[j].path
    ensures i < j && entries[i].DirectoryEntry?
    decreases |entries[j].path|
  {
    var parent := entries[j].path[..|entries[j].path| - 1];
    assert HasParent(entries, prefix, j);
    assert prefix < entries[i].path <= parent;
    var k :| 0 <= k < j && entries[k].DirectoryEntry? && entries[k].path == parent;
    if entries[i].path == parent {
      assert i == k;
    } else {
      AncestorsFirst(entries, prefix, i, k);
    }
  }

  // ----- The walk -----

  datatype WalkError = WalkFailed

  lemma ListingStep(dir: Node, names: seq<string>, prefix: Path, name: string)
    requires dir.Directory? && names != [] && names[0] == name && forall n :: n in names ==> n in dir.children
    ensures Listing(dir, names, prefix) == NodeListing(dir.children[name], prefix + [name]) + Listing(dir, names[1..], prefix)
  {
  }

  /** The totals a walk may reach. */
  predicate Room(count: nat, bytes: nat, maxBytes: nat, maxInodes: nat) {
    count <= maxInodes && bytes <= maxBytes
  }

  /** The walk has listed everything from a state with the given entries and byte count. */
  ghost predicate Walked(r: Result<(seq<Entry>, nat), WalkError>, entries: seq<Entry>, bytes: nat, listing: seq<Entry>,
                         ok: bool, maxBytes: nat, maxInodes: nat) {
    && (r.Ok? <==> ok && Room(|entries| + |listing|, bytes + TotalBytes(listing), maxBytes, maxInodes))
    && (r.Ok? ==> r.value == (entries + listing, bytes + TotalBytes(listing)))
  }

  /** A leaf adds one entry when it is acceptable and there is room for it. */
  function Leaf(ok: bool, e: Entry, entries: seq<Entry>, bytes: nat, maxBytes: nat, maxInodes: nat): Result<(seq<Entry>, nat), WalkError> {
    if !ok || |entries| >= maxInodes || bytes + EntryBytes(e) > maxBytes then Err(WalkFailed)
    else Ok((entries + [e], bytes + EntryBytes(e)))
  }

  lemma LeafWalked(ok: bool, e: Entry, entries: seq<Entry>, bytes: nat, maxBytes: nat, maxInodes: nat)
    requires Room(|entries|, bytes, maxBytes, maxInodes)
    ensures Walked(Leaf(ok, e, entries, bytes, maxBytes, maxInodes), entries, bytes, [e], ok, maxBytes, maxInodes)
  {
    SingleTotal(e);
  }

  lemma DirectoryWalked(r: Result<(seq<Entry>, nat), WalkError>, e: Entry, inside: seq<Entry>, ok: bool,
                        entries: seq<Entry>, bytes: nat, maxBytes: nat, maxInodes: nat)
    requires EntryBytes(e) == 0 && Walked(r, entries + [e], bytes, inside, ok, maxBytes, maxInodes)
    ensures Walked(r, entries, bytes, [e] + inside, ok, maxBytes, maxInodes)
  {
    SingleTotal(e);
    TotalConcat([e], inside);
    assert entries + [e] + inside == entries + ([e] + inside);
  }

  /** Visit one node: refuse what cannot be listed, charge it, and descend. */
  method Visit(node: Node, path: Path, depth: nat, entries: seq<Entry>, bytes: nat, maxBytes: nat, maxInodes: nat)
    returns (r: Result<(seq<Entry>, nat), WalkError>)
    requires Room(|entries|, bytes, maxBytes, maxInodes) && depth <= MAX_DEPTH
    ensures Walked(r, entries, bytes, NodeListing(node, path), NodeOk(node, path, depth), maxBytes, maxInodes)
    decreases node
  {
    if !Safe(path) { return Err(WalkFailed); }
    if |entries| >= maxInodes {
      AtLeastOne(node, path, depth);
      return Err(WalkFailed);
    }
    match node {
      case File(mode, length, links) =>
        var e := FileEntry(path, mode, length);
        LeafWalked(FileOk(mode, links), e, entries, bytes, maxBytes, maxInodes);
        r := Leaf(FileOk(mode, links), e, entries, bytes, maxBytes, maxInodes);
      case Symlink(target, unreadable) =>
        var e, ok := SymlinkEntry(path, target), !unreadable && Utf8(target) <= MAX_PATH;
        LeafWalked(ok, e, entries, bytes, maxBytes, maxInodes);
        r := Leaf(ok, e, entries, bytes, maxBytes, maxInodes);
      case Directory(mode, children, _) =>
        if !DirectoryOk(mode) { return Err(WalkFailed); }
        var e := DirectoryEntry(path, mode);
        r := Walk(node, path, depth + 1, entries + [e], bytes, maxBytes, maxInodes);
        DirectoryWalked(r, e, Listing(node, IdOrder.Sorted(children.Keys), path),
                        Listable(node, children.Keys, path, depth + 1), entries, bytes, maxBytes, maxInodes);
      case Special => return Err(WalkFailed);
    }
  }

  lemma SingleTotal(e: Entry)
    ensures TotalBytes([e]) == EntryBytes(e)
  {
    assert BytesUpTo([e], 1) == BytesUpTo([e], 0) + EntryBytes(e);
  }

  lemma AtLeastOne(node: Node, path: Path, depth: nat)
    ensures NodeOk(node, path, depth) ==> |NodeListing(node, path)| >= 1
  {
  }

  lemma ListingFirst(dir: Node, rest: set<string>, prefix: Path, name: string)
    requires dir.Directory? && rest <= dir.children.Keys && name in rest
    requires IdOrder.Sorted(rest) == [name] + IdOrder.Sorted(rest - {name})
    ensures Listing(dir, IdOrder.Sorted(rest), prefix)
            == NodeListing(dir.children[name], prefix + [name]) + Listing(dir, IdOrder.Sorted(rest - {name}), prefix)
  {
    var names := IdOrder.Sorted(rest);
    assert names[1..] == IdOrder.Sorted(rest - {name});
    ListingStep(dir, names, prefix, name);
  }

  /** Part way through a directory: the names before `rest` are listed, and the rest still to be. */
  ghost predicate Progress(listing: seq<Entry>, later: seq<Entry>, entries0: seq<Entry>, bytes0: nat, entries: seq<Entry>, bytes: nat) {
    && |entries0| <= |entries| && entries0 == entries[..|entries0|]
    && entries[|entries0|..] + later == listing
    && bytes == bytes0 + TotalBytes(entries[|entries0|..])
  }

  lemma ProgressStep(listing: seq<Entry>, here: seq<Entry>, later: seq<Entry>, entries0: seq<Entry>, bytes0: nat, entries: seq<Entry>, bytes: nat)
    requires Progress(listing, here + later, entries0, bytes0, entries, bytes)
    ensures Progress(listing, later, entries0, bytes0, entries + here, bytes + TotalBytes(here))
    ensures |listing| == (|entries| - |entries0|) + |here| + |later|
    ensures TotalBytes(listing) == (bytes - bytes0) + TotalBytes(here) + TotalBytes(later)
  {
    var done := entries[|entries0|..];
    ThreeTotals(done, here, later, listing);
    SliceAppend(entries, here, |entries0|);
  }

  lemma ThreeTotals(done: seq<Entry>, here: seq<Entry>, later: seq<Entry>, listing: seq<Entry>)
    requires done + (here + later) == listing
    ensures done + here + later == listing && |listing| == |done| + |here| + |later|
    ensures TotalBytes(done + here) == TotalBytes(done) + TotalBytes(here)
    ensures TotalBytes(listing) == TotalBytes(done) + TotalBytes(here) + TotalBytes(later)
  {
    assert done + here + later == listing;
    TotalConcat(done, here);
    TotalConcat(done + here, later);
  }

  lemma SliceAppend(entries: seq<Entry>, here: seq<Entry>, k: nat)
    requires k <= |entries|
    ensures (entries + here)[k..] == entries[k..] + here && (entries + here)[..k] == entries[..k]
  {
  }

  /** A node refused, or out of room, makes the whole directory fail. */
  lemma WalkRefused(r: Result<(seq<Entry>, nat), WalkError>, listable: bool, nodeOk: bool, entries0: seq<Entry>, bytes0: nat,
                    entries: seq<Entry>, bytes: nat, here: seq<Entry>, later: seq<Entry>, listing: seq<Entry>, maxBytes: nat, maxInodes: nat)
    requires Progress(listing, here + later, entries0, bytes0, entries, bytes)
    requires r.Err? && Walked(r, entries, bytes, here, nodeOk, maxBytes, maxInodes) && (listable ==> nodeOk)
    ensures Walked(r, entries0, bytes0, listing, listable, maxBytes, maxInodes)
  {
    ProgressStep(listing, here, later, entries0, bytes0, entries, bytes);
  }

  lemma WalkEnded(listable: bool, entries0: seq<Entry>, bytes0: nat, entries: seq<Entry>, bytes: nat, listing: seq<Entry>,
                  maxBytes: nat, maxInodes: nat)
    requires Progress(listing, [], entries0, bytes0, entries, bytes) && listable && Room(|entries|, bytes, maxBytes, maxInodes)
    ensures Walked(Ok((entries, bytes)), entries0, bytes0, listing, listable, maxBytes, maxInodes)
  {
    assert entries[|entries0|..] == listing;
    assert entries == entries0 + listing;
  }

  lemma ListableChild(dir: Node, name: string, prefix: Path, depth: nat)
    requires dir.Directory? && name in dir.children
    ensures Listable(dir, dir.children.Keys, prefix, depth) ==> NodeOk(dir.children[name], prefix + [name], depth)
  {
  }

  lemma ListableIff(dir: Node, prefix: Path, depth: nat)
    requires dir.Directory?
    ensures Listable(dir, dir.children.Keys, prefix, depth) <==>
            depth <= MAX_DEPTH && !dir.unreadable
            && forall n :: n in dir.children ==> NodeOk(dir.children[n], prefix + [n], depth)
  {
  }

  lemma NothingLeft(dir: Node, prefix: Path)
    requires dir.Directory?
    ensures Listing(dir, IdOrder.Sorted({}), prefix) == []
  {
  }

  /** Visit a directory's names in order. */
  method Walk(dir: Node, prefix: Path, depth: nat, entries0: seq<Entry>, bytes0: nat, maxBytes: nat, maxInodes: nat)
    returns (r: Result<(seq<Entry>, nat), WalkError>)
    requires dir.Directory? && Room(|entries0|, bytes0, maxBytes, maxInodes)
    ensures Walked(r, entries0, bytes0, Listing(dir, IdOrder.Sorted(dir.children.Keys), prefix),
                   Listable(dir, dir.children.Keys, prefix, depth), maxBytes, maxInodes)
    decreases dir, 0
  {
    ListableIff(dir, prefix, depth);
    if depth > MAX_DEPTH || dir.unreadable { return Err(WalkFailed); }
    ghost var listing := Listing(dir, IdOrder.Sorted(dir.children.Keys), prefix);
    ghost var listable := Listable(dir, dir.children.Keys, prefix, depth);
    var entries, bytes, rest := entries0, bytes0, dir.children.Keys;
    while rest != {}
      invariant rest <= dir.children.Keys
      invariant Progress(listing, Listing(dir, IdOrder.Sorted(rest), prefix), entries0, bytes0, entries, bytes)
      invariant Room(|entries|, bytes, maxBytes, maxInodes)
      invariant forall n :: n in dir.children && n !in rest ==> NodeOk(dir.children[n], prefix + [n], depth)
      decreases |rest|
    {
      var name := IdOrder.Next(rest);
      ListingFirst(dir, rest, prefix, name);
      ListableChild(dir, name, prefix, depth);
      ghost var nodeOk := NodeOk(dir.children[name], prefix + [name], depth);
      ghost var here, later := NodeListing(dir.children[name], prefix + [name]), Listing(dir, IdOrder.Sorted(rest - {name}), prefix);
      var visited := Visit(dir.children[name], prefix + [name], depth, entries, bytes, maxBytes, maxInodes);
      if visited.Err? {
        WalkRefused(visited, listable, nodeOk, entries0, bytes0, entries, bytes, here, later, listing, maxBytes, maxInodes);
        return visited;
      }
      ProgressStep(listing, here, later, entries0, bytes0, entries, bytes);
      entries, bytes := visited.value.0, visited.value.1;
      rest := rest - {name};
    }
    NothingLeft(dir, prefix);
    WalkEnded(listable, entries0, bytes0, entries, bytes, listing, maxBytes, maxInodes);
    r := Ok((entries, bytes));
  }

  // ----- What a successful walk guarantees -----

  ghost predicate AllSafe(entries: seq<Entry>) {
    forall i :: 0 <= i < |entries| ==> Safe(entries[i].path) && |entries[i].path| <= MAX_DEPTH + 1
  }

  lemma SafeJoin(a: seq<Entry>, b: seq<Entry>)
    requires AllSafe(a) && AllSafe(b)
    ensures AllSafe(a + b)
  {
  }

  lemma SafeOne(e: Entry)
    requires Safe(e.path) && |e.path| <= MAX_DEPTH + 1
    ensures AllSafe([e])
  {
  }

  lemma NodeOkPath(node: Node, path: Path, depth: nat)
    requires NodeOk(node, path, depth)
    ensures Safe(path)
    ensures node.Directory? ==> Listable(node, node.children.Keys, path, depth + 1)
  {
  }

  lemma {:induction false} ListingSafe(dir: Node, names: seq<string>, prefix: Path, depth: nat)
    requires dir.Directory? && (forall name :: name in names ==> name in dir.children) && |prefix| == depth <= MAX_DEPTH
    requires Listable(dir, dir.children.Keys, prefix, depth)
    ensures AllSafe(Listing(dir, names, prefix))
    decreases dir, |names|
  {
    if names != [] {
      ListableChild(dir, names[0], prefix, depth);
      NodeSafe(dir.children[names[0]], prefix + [names[0]], depth);
      ListingSafe(dir, names[1..], prefix, depth);
      SafeJoin(NodeListing(dir.children[names[0]], prefix + [names[0]]), Listing(dir, names[1..], prefix));
    }
  }

  lemma {:induction false} NodeSafe(node: Node, path: Path, depth: nat)
    requires NodeOk(node, path, depth) && |path| == depth + 1 <= MAX_DEPTH + 1
    ensures AllSafe(NodeListing(node, path))
    decreases node
  {
    NodeOkPath(node, path, depth);
    if node.Directory? {
      ListableIff(node, path, depth + 1);
      DirectorySafe(node, IdOrder.Sorted(node.children.Keys), path, depth + 1);
    } else if !node.Special? {
      SafeOne(NodeListing(node, path)[0]);
    }
  }

  lemma {:induction false} DirectorySafe(node: Node, names: seq<string>, path: Path, depth: nat)
    requires node.Directory? && names == IdOrder.Sorted(node.children.Keys) && |path| == depth <= MAX_DEPTH && Safe(path)
    requires Listable(node, node.children.Keys, path, depth)
    ensures AllSafe(NodeListing(node, path))
    decreases node, |names| + 1
  {
    ListingSafe(node, names, path, depth);
    SafeOne(DirectoryEntry(path, node.mode));
    SafeJoin([DirectoryEntry(path, node.mode)], Listing(node, names, path));
  }

  /**
   `tree`: succeeds exactly when everything can be listed within the limits; the entries are then
   distinct safe paths in pre-order, each parent before its children.
   */
  method ListTree(root: Node, maxBytes: nat, maxInodes: nat) returns (r: Result<seq<Entry>, WalkError>)
    requires root.Directory?
    ensures var listing := Listing(root, IdOrder.Sorted(root.children.Keys), []);
            && (r.Ok? <==> Listable(root, root.children.Keys, [], 0) && |listing| <= maxInodes && TotalBytes(listing) <= maxBytes)
            && (r.Ok? ==> r.value == listing)
    ensures r.Ok? ==> PreOrder(r.value, []) && AllSafe(r.value)
  {
    ghost var names := IdOrder.Sorted(root.children.Keys);
    var walked := Walk(root, [], 0, [], 0, maxBytes, maxInodes);
    if walked.Err? { return Err(WalkFailed); }
    assert [] + Listing(root, names, []) == Listing(root, names, []);
    IdOrder.SortedDistinct(names, root.children.Keys);
    ListingPreOrder(root, names, []);
    ListableIff(root, [], 0);
    ListingSafe(root, names, [], 0);
    r := Ok(walked.value.0);
  }
}
