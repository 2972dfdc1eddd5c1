/**
 * The in-memory node table of the virtual file system: a dense sequence of
 * directory and file nodes, each linked to its parent, with directories
 * listing their children by id. Paths are resolved by walking children by
 * name from the root; a project-relative path is recovered by walking
 * parents back to the root.
 */
module VirtualFs {
  import opened Common
  import opened SourcePositions

  datatype DirKind = Normal | Src | Build | Examples | Tests | Docs

  datatype FileKind = Normal | Main | Mod | PackageConfig | Other

  /** What a node holds besides its name and parent: a directory's kind and children, or a file's kind and source file. */
  datatype NodeData =
    | Directory(dirKind: DirKind, children: seq<nat>)
    | File(fileKind: FileKind, sourceFileId: Option<FileId>)

  datatype VfsNode = VfsNode(name: string, parent: Option<nat>, data: NodeData)

  /** Every parent was added before its child, so walking parents reaches the root. */
  ghost predicate ParentsBefore(nodes: seq<VfsNode>) {
    forall i :: 0 <= i < |nodes| && nodes[i].parent.Some? ==> nodes[i].parent.value < i
  }

  // ---------------------------------------------------------------------
  // Lookups over a node table
  // ---------------------------------------------------------------------

  /** `get_node`: the node with an id, absent past the end of the table. */
  function NodeAt(nodes: seq<VfsNode>, id: nat): (r: Option<VfsNode>)
    ensures r.None? <==> id >= |nodes|
    ensures r.Some? ==> r.value == nodes[id]
  {
    if id >= |nodes| then None else Some(nodes[id])
  }

  predicate IsDirectory(nodes: seq<VfsNode>, id: nat) {
    id < |nodes| && nodes[id].data.Directory?
  }

  predicate IsFile(nodes: seq<VfsNode>, id: nat) {
    id < |nodes| && nodes[id].data.File?
  }

  /** The first child from position `k` on that exists and has the name. */
  function ChildNamed(nodes: seq<VfsNode>, children: seq<nat>, name: string, k: nat): (r: Option<nat>)
    decreases |children| - k
    ensures r.Some? ==> r.value < |nodes| && nodes[r.value].name == name
    ensures r.Some? <==> exists j :: k <= j < |children| && children[j] < |nodes| && nodes[children[j]].name == name
    ensures r.Some? ==> exists j :: (k <= j < |children| && children[j] == r.value &&
      forall i :: k <= i < j ==> !(children[i] < |nodes| && nodes[children[i]].name == name))
  {
    if k >= |children| then None
    else if children[k] < |nodes| && nodes[children[k]].name == name then Some(children[k])
    else ChildNamed(nodes, children, name, k + 1)
  }

  /** One step of `resolve`: from a directory to its first child with the name. */
  function Step(nodes: seq<VfsNode>, current: nat, component: string): Option<nat> {
    if !IsDirectory(nodes, current) then None
    else ChildNamed(nodes, nodes[current].data.children, component, 0)
  }

  /** `resolve` on components, starting from a node. */
  function ResolveFrom(nodes: seq<VfsNode>, current: nat, path: seq<string>): Option<nat>
    decreases |path|
  {
    if path == [] then Some(current)
    else match Step(nodes, current, path[0])
      case None => None
      case Some(child) => ResolveFrom(nodes, child, path[1..])
  }

  /** A non-empty path resolves to an existing node named like its last component. */
  lemma {:induction false} ResolveEndsAtName(nodes: seq<VfsNode>, current: nat, path: seq<string>)
    requires path != [] && ResolveFrom(nodes, current, path).Some?
    ensures ResolveFrom(nodes, current, path).value < |nodes|
    ensures nodes[ResolveFrom(nodes, current, path).value].name == path[|path| - 1]
    decreases |path|
  {
    var child := Step(nodes, current, path[0]).value;
    if |path| > 1 {
      ResolveEndsAtName(nodes, child, path[1..]);
      assert path[1..][|path[1..]| - 1] == path[|path| - 1];
    }
  }

  /** Resolving `p + q` resolves `p`, then `q` from where `p` ended. */
  lemma {:induction false} ResolveConcat(nodes: seq<VfsNode>, current: nat, p: seq<string>, q: seq<string>)
    ensures ResolveFrom(nodes, current, p + q) ==
      match ResolveFrom(nodes, current, p)
      case None => None
      case Some(m) => ResolveFrom(nodes, m, q)
    decreases |p|
  {
    if p != [] {
      assert (p + q)[0] == p[0] && (p + q)[1..] == p[1..] + q;
      match Step(nodes, current, p[0])
      case None =>
      case Some(child) => ResolveConcat(nodes, child, p[1..], q);
    } else {
      assert p + q == q;
    }
  }

  // ---------------------------------------------------------------------
  // Splitting a path string
  // ---------------------------------------------------------------------

  /** The first '/' at or after `start`, or the length when there is none (`find`'s `npos`). */
  function FindSlash(path: string, start: nat): (r: nat)
    requires start <= |path|
    decreases |path| - start
    ensures start <= r <= |path|
    ensures forall k :: start <= k < r ==> path[k] != '/'
    ensures r < |path| ==> path[r] == '/'
  {
    if start == |path| || path[start] == '/' then start else FindSlash(path, start + 1)
  }

  /** The components found from `start` on, as the splitting loop of `resolve` collects them. */
  function SplitFrom(path: string, start: nat): seq<string>
    requires start <= |path|
    decreases |path| - start
  {
    var pos := FindSlash(path, start);
    if pos == |path| then (if start < |path| then [path[start..]] else [])
    else (if pos > start then [path[start..pos]] else []) + SplitFrom(path, pos + 1)
  }

  /** `path` with every '/' removed. */
  function WithoutSlashes(path: string): string {
    if path == [] then []
    else (if path[0] == '/' then [] else [path[0]]) + WithoutSlashes(path[1..])
  }

  function Flatten(parts: seq<string>): string {
    if parts == [] then [] else parts[0] + Flatten(parts[1..])
  }

  lemma {:induction false} FlattenConcat(a: seq<string>, b: seq<string>)
    ensures Flatten(a + b) == Flatten(a) + Flatten(b)
    decreases |a|
  {
    if a == [] {
      assert a + b == b;
    } else {
      assert (a + b)[1..] == a[1..] + b;
      FlattenConcat(a[1..], b);
    }
  }

  lemma {:induction false} WithoutSlashesConcat(a: string, b: string)
    ensures WithoutSlashes(a + b) == WithoutSlashes(a) + WithoutSlashes(b)
    decreases |a|
  {
    if a == [] {
      assert a + b == b;
    } else {
      assert (a + b)[1..] == a[1..] + b;
      WithoutSlashesConcat(a[1..], b);
    }
  }

  lemma {:induction false} WithoutSlashesPlain(s: string)
    requires forall k :: 0 <= k < |s| ==> s[k] != '/'
    ensures WithoutSlashes(s) == s
    decreases |s|
  {
    if s != [] {
      WithoutSlashesPlain(s[1..]);
    }
  }

  /** The split drops empty components: none is empty or holds a '/'. */
  lemma {:induction false} SplitFromComponents(path: string, start: nat)
    requires start <= |path|
    ensures forall c :: c in SplitFrom(path, start) ==> c != [] && '/' !in c
    decreases |path| - start
  {
    var pos := FindSlash(path, start);
    if pos < |path| {
      SplitFromComponents(path, pos + 1);
      if pos > start {
        var c := path[start..pos];
        assert forall k :: 0 <= k < |c| ==> c[k] == path[start + k];
      }
    } else if start < |path| {
      var c := path[start..];
      assert forall k :: 0 <= k < |c| ==> c[k] == path[start + k];
    }
  }

  /** Removing slashes from a slash-free piece, a '/', and the rest keeps the piece and the rest's characters. */
  lemma WithoutSlashesAtSlash(path: string, start: nat, pos: nat)
    requires start <= pos < |path| && path[pos] == '/'
    requires forall k :: start <= k < pos ==> path[k] != '/'
    ensures WithoutSlashes(path[start..]) == path[start..pos] + WithoutSlashes(path[pos + 1..])
  {
    var piece := path[start..pos];
    var tail := [path[pos]] + path[pos + 1..];
    assert path[start..] == piece + tail;
    assert forall k :: 0 <= k < |piece| ==> piece[k] == path[start + k];
    WithoutSlashesPlain(piece);
    WithoutSlashesConcat(piece, tail);
    assert tail[1..] == path[pos + 1..];
  }

  /** A component kept only when non-empty adds exactly its characters. */
  lemma FlattenKeptPiece(piece: string, rest: seq<string>)
    ensures Flatten((if piece != [] then [piece] else []) + rest) == piece + Flatten(rest)
  {
    if piece != [] {
      assert ([piece] + rest)[1..] == rest;
    } else {
      assert [] + rest == rest;
    }
  }

  /** Without a further '/', the split is the rest of the path, if any. */
  lemma SplitFromLastPiece(path: string, start: nat)
    requires start <= |path| && FindSlash(path, start) == |path|
    ensures Flatten(SplitFrom(path, start)) == WithoutSlashes(path[start..])
  {
    var piece := path[start..];
    assert forall k :: 0 <= k < |piece| ==> piece[k] == path[start + k];
    WithoutSlashesPlain(piece);
    FlattenKeptPiece(piece, []);
  }

  /** The split keeps every character other than '/', in order. */
  lemma {:induction false} SplitFromKeepsCharacters(path: string, start: nat)
    requires start <= |path|
    ensures Flatten(SplitFrom(path, start)) == WithoutSlashes(path[start..])
    decreases |path| - start
  {
    var pos := FindSlash(path, start);
    if pos == |path| {
      SplitFromLastPiece(path, start);
    } else {
      SplitFromKeepsCharacters(path, pos + 1);
      WithoutSlashesAtSlash(path, start, pos);
      FlattenKeptPiece(path[start..pos], SplitFrom(path, pos + 1));
      assert (path[start..pos] != []) == (pos > start);
    }
  }

  /** The example of the splitting loop: "a//b/" splits like ["a", "b"]. */
  lemma SplitDropsEmptyComponents()
    ensures SplitFrom("a//b/", 0) == ["a", "b"]
  {
    var p := "a//b/";
    assert FindSlash(p, 0) == 1;
    assert FindSlash(p, 2) == 2;
    assert FindSlash(p, 3) == 4;
    assert SplitFrom(p, 5) == [];
    assert p[3..4] == "b";
    assert SplitFrom(p, 3) == ["b"];
    assert SplitFrom(p, 2) == ["b"];
    assert p[0..1] == "a";
  }

  /** Searching in `b` behind a prefix `a` finds the same '/', shifted by `|a|`. */
  lemma {:induction false} FindSlashShift(a: string, b: string, i: nat)
    requires i <= |b|
    ensures FindSlash(a + b, |a| + i) == |a| + FindSlash(b, i)
    decreases |b| - i
  {
    if i < |b| {
      assert (a + b)[|a| + i] == b[i];
      if b[i] != '/' {
        FindSlashShift(a, b, i + 1);
      }
    }
  }

  /** With no further '/', the split behind a prefix is the same last piece. */
  lemma SplitFromShiftAtEnd(a: string, b: string, i: nat)
    requires i <= |b| && FindSlash(b, i) == |b|
    ensures SplitFrom(a + b, |a| + i) == SplitFrom(b, i)
  {
    FindSlashShift(a, b, i);
    assert (a + b)[|a| + i..] == b[i..];
  }

  /** At a '/', the split behind a prefix takes the same piece, and goes on alike if the rest does. */
  lemma SplitFromShiftAtSlash(a: string, b: string, i: nat)
    requires i <= |b| && FindSlash(b, i) < |b|
    requires SplitFrom(a + b, |a| + FindSlash(b, i) + 1) == SplitFrom(b, FindSlash(b, i) + 1)
    ensures SplitFrom(a + b, |a| + i) == SplitFrom(b, i)
  {
    var pos := FindSlash(b, i);
    FindSlashShift(a, b, i);
    assert (a + b)[|a| + i..|a| + pos] == b[i..pos];
  }

  /** Splitting behind a prefix `a` sees only `b`. */
  lemma {:induction false} SplitFromShift(a: string, b: string, i: nat)
    requires i <= |b|
    ensures SplitFrom(a + b, |a| + i) == SplitFrom(b, i)
    decreases |b| - i
  {
    var pos := FindSlash(b, i);
    if pos == |b| {
      SplitFromShiftAtEnd(a, b, i);
    } else {
      SplitFromShift(a, b, pos + 1);
      SplitFromShiftAtSlash(a, b, i);
    }
  }

  /** The first '/' ends the first component: a slash-free `p` before it is kept whole, if non-empty. */
  lemma SplitAtFirstSlash(p: string, q: string)
    requires '/' !in p
    ensures SplitFrom(p + "/" + q, 0) == (if p == [] then [] else [p]) + SplitFrom(q, 0)
  {
    var path := p + "/" + q;
    assert path[|p|] == '/';
    assert forall k :: 0 <= k < |p| ==> path[k] == p[k];
    assert FindSlash(path, 0) == |p|;
    assert path[0..|p|] == p;
    SplitFromShift(p + "/", q, 0);
  }

  /** Components joined with '/' between them. */
  function JoinPath(parts: seq<string>): string
    decreases |parts|
  {
    if parts == [] then [] else if |parts| == 1 then parts[0] else parts[0] + "/" + JoinPath(parts[1..])
  }

  /** Splitting undoes joining: non-empty components without '/' come back exactly. */
  lemma {:induction false} SplitJoinRoundTrip(parts: seq<string>)
    requires forall k :: 0 <= k < |parts| ==> parts[k] != [] && '/' !in parts[k]
    ensures SplitFrom(JoinPath(parts), 0) == parts
    decreases |parts|
  {
    if |parts| == 1 {
      var c := parts[0];
      assert forall k :: 0 <= k < |c| ==> c[k] != '/';
      assert FindSlash(c, 0) == |c|;
      assert c[0..] == c;
    } else if |parts| > 1 {
      SplitAtFirstSlash(parts[0], JoinPath(parts[1..]));
      SplitJoinRoundTrip(parts[1..]);
      assert [parts[0]] + parts[1..] == parts;
    }
  }

  // ---------------------------------------------------------------------
  // Source files and entry files
  // ---------------------------------------------------------------------

  /** `get_source_file_id`: a file node's source file; nothing for directories and missing ids. */
  function SourceFileIdOf(nodes: seq<VfsNode>, id: nat): (r: Option<FileId>)
    ensures !IsFile(nodes, id) ==> r.None?
    ensures IsFile(nodes, id) ==> r == nodes[id].data.sourceFileId
  {
    if !IsFile(nodes, id) then None else nodes[id].data.sourceFileId
  }

  /** The table after `set_source_file_id` succeeds on a file node. */
  function WithSourceFileId(nodes: seq<VfsNode>, id: nat, fileId: FileId): seq<VfsNode>
    requires IsFile(nodes, id)
  {
    nodes[id := nodes[id].(data := nodes[id].data.(sourceFileId := Some(fileId)))]
  }

  /** After setting a file's source file it reads back; every other node's source file is as before. */
  lemma SetThenGetSourceFileId(nodes: seq<VfsNode>, id: nat, fileId: FileId, other: nat)
    requires IsFile(nodes, id)
    ensures SourceFileIdOf(WithSourceFileId(nodes, id, fileId), id) == Some(fileId)
    ensures other != id ==> SourceFileIdOf(WithSourceFileId(nodes, id, fileId), other) == SourceFileIdOf(nodes, other)
  {
  }

  /** Setting a source file changes no name, parent or child list, so no path resolves differently. */
  lemma {:induction false} SetSourceFileIdKeepsResolve(nodes: seq<VfsNode>, id: nat, fileId: FileId, current: nat, path: seq<string>)
    requires IsFile(nodes, id)
    ensures ResolveFrom(WithSourceFileId(nodes, id, fileId), current, path) == ResolveFrom(nodes, current, path)
    decreases |path|
  {
    var updated := WithSourceFileId(nodes, id, fileId);
    if path != [] {
      if IsDirectory(nodes, current) {
        assert updated[current] == nodes[current];
        ChildNamedSameNames(nodes, updated, nodes[current].data.children, path[0], 0);
        match Step(nodes, current, path[0])
        case None =>
        case Some(child) => SetSourceFileIdKeepsResolve(nodes, id, fileId, child, path[1..]);
      }
    }
  }

  /** Child lookup depends only on the names in the table. */
  lemma {:induction false} ChildNamedSameNames(a: seq<VfsNode>, b: seq<VfsNode>, children: seq<nat>, name: string, k: nat)
    requires |a| == |b| && forall i :: 0 <= i < |a| ==> a[i].name == b[i].name
    ensures ChildNamed(a, children, name, k) == ChildNamed(b, children, name, k)
    decreases |children| - k
  {
    if k < |children| {
      ChildNamedSameNames(a, b, children, name, k + 1);
    }
  }

  /** The entry file name a directory kind looks for: `main.bl` in `Src`, `mod.bl` in `Normal`. */
  function EntryName(kind: DirKind): Option<string> {
    match kind
    case Src => Some("main.bl")
    case Normal => Some("mod.bl")
    case _ => None
  }

  /** The first child from position `k` on that is a file and has the name. */
  function FileChildNamed(nodes: seq<VfsNode>, children: seq<nat>, name: string, k: nat): (r: Option<nat>)
    decreases |children| - k
    ensures r.Some? ==> IsFile(nodes, r.value) && nodes[r.value].name == name
    ensures r.Some? <==> exists j :: k <= j < |children| && IsFile(nodes, children[j]) && nodes[children[j]].name == name
    ensures r.Some? ==> exists j :: (k <= j < |children| && children[j] == r.value &&
      forall i :: k <= i < j ==> !(IsFile(nodes, children[i]) && nodes[children[i]].name == name))
  {
    if k >= |children| then None
    else if IsFile(nodes, children[k]) && nodes[children[k]].name == name then Some(children[k])
    else FileChildNamed(nodes, children, name, k + 1)
  }

  /** `get_entry_file`. */
  function EntryFileOf(nodes: seq<VfsNode>, dirId: nat): Option<nat> {
    if !IsDirectory(nodes, dirId) then None
    else match EntryName(nodes[dirId].data.dirKind)
      case None => None
      case Some(name) => FileChildNamed(nodes, nodes[dirId].data.children, name, 0)
  }

  /**
   * A directory's entry file is a file child with the name its kind asks
   * for; there is none for a non-directory, for a kind other than `Src` or
   * `Normal`, or when no file child has that name.
   */
  lemma EntryFileMeaning(nodes: seq<VfsNode>, dirId: nat)
    ensures EntryFileOf(nodes, dirId).Some? <==>
      IsDirectory(nodes, dirId) && EntryName(nodes[dirId].data.dirKind).Some? &&
      exists j :: 0 <= j < |nodes[dirId].data.children| &&
        IsFile(nodes, nodes[dirId].data.children[j]) &&
        nodes[nodes[dirId].data.children[j]].name == EntryName(nodes[dirId].data.dirKind).value
    ensures EntryFileOf(nodes, dirId).Some? ==>
      var e := EntryFileOf(nodes, dirId).value;
      IsFile(nodes, e) && e in nodes[dirId].data.children &&
      nodes[e].name == EntryName(nodes[dirId].data.dirKind).value
  {
    if IsDirectory(nodes, dirId) && EntryName(nodes[dirId].data.dirKind).Some? {
      var name := EntryName(nodes[dirId].data.dirKind).value;
      var r := FileChildNamed(nodes, nodes[dirId].data.children, name, 0);
      if r.Some? {
        FileChildIsChild(nodes, nodes[dirId].data.children, name, 0);
      }
    }
  }

  lemma {:induction false} FileChildIsChild(nodes: seq<VfsNode>, children: seq<nat>, name: string, k: nat)
    requires FileChildNamed(nodes, children, name, k).Some?
    ensures FileChildNamed(nodes, children, name, k).value in children
    decreases |children| - k
  {
    if !(IsFile(nodes, children[k]) && nodes[children[k]].name == name) {
      FileChildIsChild(nodes, children, name, k + 1);
    }
  }

  /** `get_children`: a directory's child ids; nothing for a file or a missing id. */
  function ChildrenOf(nodes: seq<VfsNode>, id: nat): (r: Option<seq<nat>>)
    ensures r.Some? <==> IsDirectory(nodes, id)
    ensures r.Some? ==> r.value == nodes[id].data.children
  {
    if !IsDirectory(nodes, id) then None else Some(nodes[id].data.children)
  }

  // ---------------------------------------------------------------------
  // Project paths
  // ---------------------------------------------------------------------

  /** The names met walking from a node up through its parents, the node's own name first. */
  ghost function AncestorNames(nodes: seq<VfsNode>, id: nat): seq<string>
    requires ParentsBefore(nodes)
    decreases id
  {
    if id >= |nodes| then []
    else [nodes[id].name] + match nodes[id].parent
      case None => []
      case Some(p) => AncestorNames(nodes, p)
  }

  function Reverse<T>(s: seq<T>): (r: seq<T>)
    ensures |r| == |s|
  {
    if s == [] then [] else Reverse(s[1..]) + [s[0]]
  }

  /** The components after the first (the root's name), as the path-building loop skips it. */
  function AfterRoot(components: seq<string>): seq<string> {
    if |components| == 0 then [] else components[1..]
  }

  /** `get_project_path`: the names from below the root down to the node; nothing for a missing id. */
  ghost function ProjectPathOf(nodes: seq<VfsNode>, id: nat): Option<seq<string>>
    requires ParentsBefore(nodes)
  {
    if id >= |nodes| then None else Some(AfterRoot(Reverse(AncestorNames(nodes, id))))
  }

  /** Parent walks depend only on names and parents. */
  lemma {:induction false} AncestorNamesStable(a: seq<VfsNode>, b: seq<VfsNode>, id: nat)
    requires ParentsBefore(a) && ParentsBefore(b) && |a| <= |b| && id < |a|
    requires forall i :: 0 <= i < |a| ==> a[i].name == b[i].name && a[i].parent == b[i].parent
    ensures AncestorNames(a, id) == AncestorNames(b, id)
    decreases id
  {
    match a[id].parent
    case None =>
    case Some(p) => AncestorNamesStable(a, b, p);
  }

  lemma ReverseCons<T>(x: T, s: seq<T>)
    ensures Reverse([x] + s) == Reverse(s) + [x]
  {
    assert ([x] + s)[1..] == s;
  }

  // ---------------------------------------------------------------------
  // Adding nodes
  // ---------------------------------------------------------------------

  /**
   * The table after the scanner adds one entry under a parent: the new node
   * is appended, and listed among the parent's children when the parent is
   * a directory.
   */
  function WithEntry(nodes: seq<VfsNode>, parentId: nat, name: string, data: NodeData): (r: seq<VfsNode>)
    requires parentId < |nodes|
    ensures |r| == |nodes| + 1 && r[|nodes|] == VfsNode(name, Some(parentId), data)
    ensures forall i :: 0 <= i < |nodes| ==> r[i].name == nodes[i].name && r[i].parent == nodes[i].parent
  {
    var grown := nodes + [VfsNode(name, Some(parentId), data)];
    if nodes[parentId].data.Directory? then
      var d := nodes[parentId].data;
      grown[parentId := nodes[parentId].(data := d.(children := d.children + [|nodes|]))]
    else grown
  }

  /** Adding an entry keeps parents before children. */
  lemma WithEntryKeepsParents(nodes: seq<VfsNode>, parentId: nat, name: string, data: NodeData)
    requires ParentsBefore(nodes) && parentId < |nodes|
    ensures ParentsBefore(WithEntry(nodes, parentId, name, data))
  {
  }

  /** A new entry's project path is its parent's with its own name appended. */
  lemma ProjectPathOfEntry(nodes: seq<VfsNode>, parentId: nat, name: string, data: NodeData)
    requires ParentsBefore(nodes) && parentId < |nodes|
    ensures ParentsBefore(WithEntry(nodes, parentId, name, data))
    ensures ProjectPathOf(WithEntry(nodes, parentId, name, data), |nodes|) ==
            Some(ProjectPathOf(nodes, parentId).value + [name])
  {
    var r := WithEntry(nodes, parentId, name, data);
    WithEntryKeepsParents(nodes, parentId, name, data);
    AncestorNamesStable(nodes, r, parentId);
    var up := AncestorNames(nodes, parentId);
    assert AncestorNames(r, |nodes|) == [name] + up;
    ReverseCons(name, up);
    AncestorsEndAtRoot(nodes, parentId);
    assert |Reverse(up)| >= 1;
    assert AfterRoot(Reverse(up) + [name]) == AfterRoot(Reverse(up)) + [name];
  }

  /** Every parent walk of a valid node ends at a name, so the reversed walk has a first component to skip. */
  lemma AncestorsEndAtRoot(nodes: seq<VfsNode>, id: nat)
    requires ParentsBefore(nodes) && id < |nodes|
    ensures |AncestorNames(nodes, id)| >= 1
  {
  }

  // ---------------------------------------------------------------------
  // Classifying entries
  // ---------------------------------------------------------------------

  /** The last component of a path (`filename()`), empty for the empty path. */
  function FileName(path: seq<string>): string {
    if |path| == 0 then "" else path[|path| - 1]
  }

  /** A path without its last component (`parent_path()`). */
  function ParentPath(path: seq<string>): seq<string> {
    if |path| == 0 then [] else path[..|path| - 1]
  }

  /** The position of the last '.' before `k`. */
  function LastDot(name: string, k: nat): (r: Option<nat>)
    requires k <= |name|
    ensures r.Some? ==> r.value < k && name[r.value] == '.' && forall j :: r.value < j < k ==> name[j] != '.'
    ensures r.None? ==> forall j :: 0 <= j < k ==> name[j] != '.'
  {
    if k == 0 then None else if name[k - 1] == '.' then Some(k - 1) else LastDot(name, k - 1)
  }

  /**
   * `extension()`: from the last '.' of a file name to its end; empty for
   * "." and "..", for a name without '.', and for a name whose only '.'
   * that could start it is its first character.
   */
  function Extension(name: string): (r: string)
    ensures r != [] ==> r[0] == '.' && '.' !in r[1..]
    ensures r != [] ==> HasStem(name, r)
  {
    if name == "." || name == ".." then ""
    else match LastDot(name, |name|)
      case None => ""
      case Some(k) => if k == 0 then "" else name[k..]
  }

  /** `name` is a non-empty stem followed by `ext`. */
  predicate HasStem(name: string, ext: string) {
    |name| > |ext| && name[|name| - |ext|..] == ext
  }

  /** A name made of a stem and a dot-led suffix without a further '.' has that suffix as its extension. */
  lemma ExtensionOfStem(name: string, ext: string)
    requires |ext| > 1 && ext[0] == '.' && '.' !in ext[1..]
    ensures HasStem(name, ext) ==> Extension(name) == ext
  {
    if HasStem(name, ext) {
      var k := |name| - |ext|;
      assert name[k] == ext[0];
      assert forall j :: k < j < |name| ==> name[j] == ext[1..][j - k - 1];
      match LastDot(name, |name|)
      case None =>
      case Some(m) => assert m == k;
    }
  }

  /**
   * `is_beleg_source_file`: the extension is ".bl" or ".beleg", that is,
   * the file name is a non-empty stem followed by one of them.
   */
  predicate IsBelegSourceFile(path: seq<string>)
    ensures IsBelegSourceFile(path) <==> HasStem(FileName(path), ".bl") || HasStem(FileName(path), ".beleg")
  {
    ExtensionOfStem(FileName(path), ".bl");
    ExtensionOfStem(FileName(path), ".beleg");
    var ext := Extension(FileName(path));
    ext == ".bl" || ext == ".beleg"
  }

  /** A non-empty stem with ".bl" or ".beleg" appended names a source file. */
  lemma SourceFileExtensions(stem: string)
    requires stem != []
    ensures IsBelegSourceFile([stem + ".bl"])
    ensures IsBelegSourceFile([stem + ".beleg"])
  {
    var a := stem + ".bl";
    assert a[|a| - 1] == 'l' && a[|a| - 2] == 'b' && a[|a| - 3] == '.';
    assert LastDot(a, |a|) == Some(|stem|);
    assert a[|stem|..] == ".bl";
    var b := stem + ".beleg";
    assert b[|b| - 1] == 'g' && b[|b| - 2] == 'e' && b[|b| - 3] == 'l' && b[|b| - 4] == 'e';
    assert b[|b| - 5] == 'b' && b[|b| - 6] == '.';
    assert LastDot(b, |b|) == Some(|stem|);
    assert b[|stem|..] == ".beleg";
  }

  /** A hidden file named ".bl" has no extension, so it is not a source file. */
  lemma HiddenFileIsNotSource()
    ensures !IsBelegSourceFile([".bl"])
  {
    assert LastDot(".bl", 3) == Some(0);
  }

  /** `get_file_kind`: the kind of a file from its name and its place relative to the project root. */
  function GetFileKind(path: seq<string>, relativePath: seq<string>): (r: FileKind)
    ensures r == FileKind.Normal <==> (IsBelegSourceFile(path) && FileName(path) != "mod.bl" &&
      !(FileName(path) == "main.bl" && ParentPath(relativePath) == ["src"]))
  {
    assert !HasStem("package.toml", ".bl") && !HasStem("package.toml", ".beleg");
    var fileName := FileName(path);
    if fileName == "package.toml" && ParentPath(relativePath) == [] then FileKind.PackageConfig
    else if fileName == "main.bl" && ParentPath(relativePath) == ["src"] then FileKind.Main
    else if fileName == "mod.bl" then FileKind.Mod
    else if IsBelegSourceFile(path) then FileKind.Normal
    else FileKind.Other
  }

  /**
   * Each special kind is given exactly to its name in its place: the
   * manifest at the root, `main.bl` directly in `src`, and `mod.bl` anywhere.
   */
  lemma FileKindMeaning(path: seq<string>, relativePath: seq<string>)
    ensures GetFileKind(path, relativePath) == FileKind.PackageConfig <==>
      FileName(path) == "package.toml" && ParentPath(relativePath) == []
    ensures GetFileKind(path, relativePath) == FileKind.Main <==>
      FileName(path) == "main.bl" && ParentPath(relativePath) == ["src"]
    ensures GetFileKind(path, relativePath) == FileKind.Mod <==> FileName(path) == "mod.bl"
    ensures GetFileKind(path, relativePath) == FileKind.Other ==> !IsBelegSourceFile(path)
  {
    var n := FileName(path);
    if n == "main.bl" {
      assert n != "package.toml" && n != "mod.bl";
    } else if n == "mod.bl" {
      assert n != "package.toml";
    }
  }

  /** `get_dir_kind`: the project root and `src` are `Src`; the four top-level names have their own kinds. */
  function GetDirKind(path: seq<string>, relativePath: seq<string>): (r: DirKind)
    ensures |relativePath| > 1 ==> r == DirKind.Normal
  {
    if relativePath == [] then Src
    else if relativePath == ["src"] then Src
    else if relativePath == ["build"] then Build
    else if relativePath == ["examples"] then Examples
    else if relativePath == ["tests"] then Tests
    else if relativePath == ["docs"] then Docs
    else DirKind.Normal
  }

  /** Every directory that is not the root and not one of the five top-level names is `Normal`. */
  lemma DirKindMeaning(path: seq<string>, relativePath: seq<string>)
    ensures GetDirKind(path, relativePath) == Src <==> relativePath == [] || relativePath == ["src"]
    ensures GetDirKind(path, relativePath) == DirKind.Normal <==>
      relativePath != [] && relativePath != ["src"] && relativePath != ["build"] &&
      relativePath != ["examples"] && relativePath != ["tests"] && relativePath != ["docs"]
  {
  }

  /** A Src directory's entry is its `main.bl`, a Normal one's its `mod.bl`; the other kinds have none. */
  lemma EntryNames()
    ensures EntryName(Src) == Some("main.bl") && EntryName(DirKind.Normal) == Some("mod.bl")
    ensures EntryName(Build).None? && EntryName(Examples).None? && EntryName(Tests).None? && EntryName(Docs).None?
  {
  }

  // ---------------------------------------------------------------------
  // The node table
  // ---------------------------------------------------------------------

  /** The splitting loop of `resolve` on a string: components between '/', empty ones dropped. */
  method SplitComponents(path: string) returns (components: seq<string>)
    ensures components == SplitFrom(path, 0)
  {
    components := [];
    var start: nat := 0;
    var pos := FindSlash(path, start);
    ghost var all := SplitFrom(path, 0);
    while pos < |path|
      invariant start <= pos <= |path| && pos == FindSlash(path, start)
      invariant components + SplitFrom(path, start) == all
      decreases |path| - start
    {
      ghost var before := components;
      ghost var rest := SplitFrom(path, pos + 1);
      SplitFromAtSlash(path, start);
      var piece: seq<string> := if pos > start then [path[start..pos]] else [];
      assert SplitFrom(path, start) == piece + rest;
      components := components + piece;
      ConcatAssociates(before, piece, rest);
      start := pos + 1;
      pos := FindSlash(path, start);
    }
    SplitFromAtEnd(path, start);
    if start < |path| {
      components := components + [path[start..]];
    }
  }

  lemma ConcatAssociates(a: seq<string>, b: seq<string>, c: seq<string>)
    ensures (a + b) + c == a + (b + c)
  {
  }

  /** One slash-terminated piece of the split. */
  lemma SplitFromAtSlash(path: string, start: nat)
    requires start <= |path| && FindSlash(path, start) < |path|
    ensures var pos := FindSlash(path, start);
      SplitFrom(path, start) == (if pos > start then [path[start..pos]] else []) + SplitFrom(path, pos + 1)
  {
  }

  /** The last piece of the split, or nothing when the path ends at `start`. */
  lemma SplitFromAtEnd(path: string, start: nat)
    requires start <= |path| && FindSlash(path, start) == |path|
    ensures SplitFrom(path, start) == if start < |path| then [path[start..]] else []
  {
  }

  class Vfs {
    var nodes: seq<VfsNode>
    var rootNodeId: nat
    var nextNodeId: nat

    /** Ids are dense, the root comes first and is a directory, and every parent precedes its children. */
    ghost predicate Valid()
      reads this
    {
      && |nodes| >= 1
      && nextNodeId == |nodes|
      && rootNodeId == 0
      && nodes[0].parent.None?
      && nodes[0].data.Directory?
      && ParentsBefore(nodes)
    }

    /** `Vfs(root_path)`: a table holding only the root, a `Src` directory named like the root path. */
    constructor (rootName: string)
      ensures Valid()
      ensures nodes == [VfsNode(rootName, None, Directory(Src, []))]
    {
      nodes := [];
      nextNodeId := 0;
      rootNodeId := 0;
      new;
      rootNodeId := AddNode(VfsNode(rootName, None, Directory(Src, [])));
    }

    /** `add_node`: the node gets the next id, which is its position in the table. */
    method AddNode(node: VfsNode) returns (id: nat)
      requires nextNodeId == |nodes|
      modifies this
      ensures id == old(nextNodeId) && nextNodeId == |nodes|
      ensures nodes == old(nodes) + [node] && rootNodeId == old(rootNodeId)
    {
      id := nextNodeId;
      nextNodeId := nextNodeId + 1;
      nodes := nodes + [node];
    }

    /** The table changes of the directory scan for one entry: add the node and list it under its parent. */
    method AddEntry(parentId: nat, name: string, data: NodeData) returns (id: nat)
      requires Valid() && parentId < |nodes|
      modifies this
      ensures Valid()
      ensures id == |old(nodes)| && nodes == WithEntry(old(nodes), parentId, name, data)
    {
      ghost var before := nodes;
      id := AddNode(VfsNode(name, Some(parentId), data));
      var parent := nodes[parentId];
      if parent.data.Directory? {
        var d := parent.data;
        nodes := nodes[parentId := parent.(data := d.(children := d.children + [id]))];
      }
      WithEntryKeepsParents(before, parentId, name, data);
    }

    function GetNode(id: nat): (r: Option<VfsNode>)
      reads this
      ensures r == NodeAt(nodes, id)
    {
      if id >= |nodes| then None else Some(nodes[id])
    }

    /** The search of one `resolve` step: the first child that exists and has the name. */
    method FindChild(children: seq<nat>, name: string) returns (r: Option<nat>)
      ensures r == ChildNamed(nodes, children, name, 0)
    {
      var j := 0;
      while j < |children|
        invariant 0 <= j <= |children|
        invariant ChildNamed(nodes, children, name, j) == ChildNamed(nodes, children, name, 0)
      {
        var child := GetNode(children[j]);
        if child.Some? && child.value.name == name {
          return Some(children[j]);
        }
        j := j + 1;
      }
      return None;
    }

    /** `resolve` on components: walk children by name from the root. */
    method Resolve(path: seq<string>) returns (r: Option<nat>)
      requires Valid()
      ensures r == ResolveFrom(nodes, rootNodeId, path)
    {
      if |path| == 0 {
        return Some(rootNodeId);
      }
      var current := rootNodeId;
      var i := 0;
      while i < |path|
        invariant 0 <= i <= |path|
        invariant ResolveFrom(nodes, current, path[i..]) == ResolveFrom(nodes, rootNodeId, path)
      {
        assert path[i..][0] == path[i] && path[i..][1..] == path[i + 1..];
        var node := GetNode(current);
        if node.None? || !node.value.data.Directory? {
          return None;
        }
        var next := FindChild(node.value.data.children, path[i]);
        if next.None? {
          return None;
        }
        current := next.value;
        i := i + 1;
      }
      assert path[i..] == [];
      return Some(current);
    }

    /** `resolve` on a string: split on '/', dropping empty components, then resolve those. */
    method ResolvePath(path: string) returns (r: Option<nat>)
      requires Valid()
      ensures r == ResolveFrom(nodes, rootNodeId, SplitFrom(path, 0))
    {
      if |path| == 0 {
        return Some(rootNodeId);
      }
      var components := SplitComponents(path);
      r := Resolve(components);
    }

    function GetSourceFileId(id: nat): (r: Option<FileId>)
      reads this
      ensures r == SourceFileIdOf(nodes, id)
    {
      match GetNode(id)
      case None => None
      case Some(node) => if node.data.File? then node.data.sourceFileId else None
    }

    /** `set_source_file_id`: only a file node accepts a source file. */
    method SetSourceFileId(id: nat, fileId: FileId) returns (ok: bool)
      requires Valid()
      modifies this
      ensures Valid()
      ensures ok <==> IsFile(old(nodes), id)
      ensures ok ==> nodes == WithSourceFileId(old(nodes), id, fileId)
      ensures !ok ==> nodes == old(nodes)
      ensures rootNodeId == old(rootNodeId) && nextNodeId == old(nextNodeId)
    {
      var node := GetNode(id);
      if node.None? || !node.value.data.File? {
        return false;
      }
      var n := node.value;
      nodes := nodes[id := n.(data := n.data.(sourceFileId := Some(fileId)))];
      return true;
    }

    /** `get_entry_file`: the first file child named as the directory's kind asks. */
    method GetEntryFile(dirId: nat) returns (r: Option<nat>)
      ensures r == EntryFileOf(nodes, dirId)
    {
      var dir := GetNode(dirId);
      if dir.None? || !dir.value.data.Directory? {
        return None;
      }
      var entryName: string;
      match dir.value.data.dirKind {
        case Src => entryName := "main.bl";
        case Normal => entryName := "mod.bl";
        case _ => return None;
      }
      var children := dir.value.data.children;
      var j := 0;
      while j < |children|
        invariant 0 <= j <= |children|
        invariant FileChildNamed(nodes, children, entryName, j) == FileChildNamed(nodes, children, entryName, 0)
      {
        var child := GetNode(children[j]);
        if child.Some? && child.value.data.File? && child.value.name == entryName {
          return Some(children[j]);
        }
        j := j + 1;
      }
      return None;
    }

    function GetChildren(id: nat): (r: Option<seq<nat>>)
      reads this
      ensures r == ChildrenOf(nodes, id)
    {
      match GetNode(id)
      case None => None
      case Some(node) => if node.data.Directory? then Some(node.data.children) else None
    }

    /** `get_project_path`: walk the parents collecting names, reverse them, and skip the root's. */
    method GetProjectPath(id: nat) returns (r: Option<seq<string>>)
      requires Valid()
      ensures r == ProjectPathOf(nodes, id)
    {
      if GetNode(id).None? {
        return None;
      }
      var components: seq<string> := [];
      var current: nat := id;
      while true
        invariant current < |nodes|
        invariant components + AncestorNames(nodes, current) == AncestorNames(nodes, id)
        decreases current
      {
        var node := GetNode(current);
        if node.None? {
          break;
        }
        ghost var walked := components;
        components := components + [node.value.name];
        match node.value.parent {
          case None =>
            assert AncestorNames(nodes, current) == [node.value.name];
            assert components == AncestorNames(nodes, id);
            break;
          case Some(p) =>
            assert AncestorNames(nodes, current) == [node.value.name] + AncestorNames(nodes, p);
            assert components + AncestorNames(nodes, p) == walked + AncestorNames(nodes, current);
            current := p;
        }
      }
      var reversed := Reverse(components);
      r := Some(AfterRoot(reversed));
    }
  }

  // ---------------------------------------------------------------------
  // The PathGeneration and SourceFileAndAstManagement tests
  // ---------------------------------------------------------------------

  /** The root, its `src` directory (a `Src` directory by `get_dir_kind`), and `src/main.bl` (a `Main` file). */
  const PROJECT_ROOT := VfsNode("proj", None, Directory(Src, []))
  const SRC_DIR := VfsNode("src", Some(0), Directory(Src, []))
  const MAIN_FILE := VfsNode("main.bl", Some(1), File(Main, None))

  /** The table the scan builds for a project holding only `src/main.bl`. */
  function ProjectTable(): (r: seq<VfsNode>)
    ensures |r| == 3 && r[0].name == "proj" && r[1].name == "src" && r[2] == MAIN_FILE
  {
    [PROJECT_ROOT.(data := Directory(Src, [1])), SRC_DIR.(data := Directory(Src, [2])), MAIN_FILE]
  }

  /** Adding `src` under the root and `main.bl` under `src` gives that table. */
  lemma ProjectTableBuilt()
    ensures WithEntry(WithEntry([PROJECT_ROOT], 0, SRC_DIR.name, SRC_DIR.data), 1, MAIN_FILE.name, MAIN_FILE.data)
            == ProjectTable()
  {
    assert PROJECT_ROOT.data.children + [1] == [1] && SRC_DIR.data.children + [2] == [2];
    var t1 := WithEntry([PROJECT_ROOT], 0, SRC_DIR.name, SRC_DIR.data);
    assert |t1| == 2 && t1[0] == PROJECT_ROOT.(data := Directory(Src, [1])) && t1[1] == SRC_DIR;
    var t2 := WithEntry(t1, 1, MAIN_FILE.name, MAIN_FILE.data);
    assert |t2| == 3 && t2[0] == t1[0] && t2[1] == SRC_DIR.(data := Directory(Src, [2])) && t2[2] == MAIN_FILE;
  }

  /** The kinds the scan gives the two entries are those of the classifiers. */
  lemma ProjectKinds()
    ensures GetDirKind(["proj", "src"], ["src"]) == SRC_DIR.data.dirKind
    ensures GetFileKind(["proj", "src", "main.bl"], ["src", "main.bl"]) == MAIN_FILE.data.fileKind
  {
  }

  /** `"src/main.bl"` splits into its two components. */
  lemma MainPathSplits()
    ensures SplitFrom("src/main.bl", 0) == ["src", "main.bl"]
  {
    var p := "src/main.bl";
    assert FindSlash(p, 0) == 3;
    assert FindSlash(p, 4) == |p|;
    assert p[0..3] == "src" && p[4..] == "main.bl";
  }

  /** `src/main.bl` resolves to the file. */
  lemma MainPathResolves()
    ensures ResolveFrom(ProjectTable(), 0, ["src", "main.bl"]) == Some(2)
  {
    var t := ProjectTable();
    assert Step(t, 0, "src") == Some(1);
    assert Step(t, 1, "main.bl") == Some(2);
    assert ["src", "main.bl"][1..] == ["main.bl"];
  }

  /** The file's project path leaves out the root's name. */
  lemma MainProjectPath()
    ensures ProjectPathOf(ProjectTable(), 2) == Some(["src", "main.bl"])
  {
    var t := ProjectTable();
    assert AncestorNames(t, 0) == ["proj"];
    assert AncestorNames(t, 1) == ["src", "proj"];
    assert AncestorNames(t, 2) == ["main.bl", "src", "proj"];
    assert Reverse(["main.bl", "src", "proj"]) == ["proj", "src", "main.bl"] by {
      assert ["main.bl", "src", "proj"][1..] == ["src", "proj"];
      assert ["src", "proj"][1..] == ["proj"];
      assert ["proj"][1..] == [];
    }
  }

  /** `main.bl` is the entry file of the `Src` directory `src`. */
  lemma MainIsEntryFile()
    ensures EntryFileOf(ProjectTable(), 1) == Some(2)
  {
    var t := ProjectTable();
    assert FileChildNamed(t, [2], "main.bl", 0) == Some(2);
  }

  /** A table built through the class's own operations: the root, then the two scanned entries. */
  method BuildProject() returns (vfs: Vfs)
    ensures fresh(vfs) && vfs.Valid() && vfs.nodes == ProjectTable()
  {
    vfs := new Vfs(PROJECT_ROOT.name);
    var src := vfs.AddEntry(0, SRC_DIR.name, SRC_DIR.data);
    var main := vfs.AddEntry(src, MAIN_FILE.name, MAIN_FILE.data);
    ProjectTableBuilt();
  }

  /**
   * The PathGeneration and SourceFileAndAstManagement tests over that
   * table: the file resolves and has project path `src/main.bl`, it is the
   * entry file of `src`, it starts without a source file, and a source file
   * set on it reads back.
   */
  method PathGeneration() returns (mainId: Option<nat>, path: Option<seq<string>>, entry: Option<nat>,
                                   before: Option<FileId>, ok: bool, after: Option<FileId>)
    ensures mainId == Some(2) && path == Some(["src", "main.bl"]) && entry == Some(2)
    ensures before == None && ok && after == Some(FileId(42))
  {
    var vfs := BuildProject();
    MainPathSplits();
    MainPathResolves();
    MainProjectPath();
    MainIsEntryFile();
    mainId := vfs.ResolvePath("src/main.bl");
    path := vfs.GetProjectPath(2);
    entry := vfs.GetEntryFile(1);
    before := vfs.GetSourceFileId(2);
    ok := vfs.SetSourceFileId(2, FileId(42));
    after := vfs.GetSourceFileId(2);
  }
}
