/**
 * Output directories: how a worker turns one into a Tree message (uploadDirectory and uploadTree in
 * local_build_executor.go), and how the browser finds its way in that message and makes a tarball of
 * it (handleTree and generateTarballDirectory in browser_service.go).
 *
 * The digest of a directory message, which is the hash of its marshalled form, is an arbitrary
 * function. Paths are sequences of names.
 */
module TreeCodec {
  import opened Wrappers

  type Name = string
  type Path = seq<Name>
  type Key = nat

  // ---------------------------------------------------------------------------------------------
  // Directories and messages
  // ---------------------------------------------------------------------------------------------

  /**
   * What a directory can hold. An entry fails that is neither file, directory nor symbolic link, and one
   * that cannot be stored, entered, listed or read at this time.
   */
  datatype Node =
    | File(digest: Key, executable: bool)
    | Symlink(target: string)
    | Dir(entries: seq<Entry>)
    | Failing

  datatype Entry = Entry(name: Name, node: Node)

  datatype FileNode = FileNode(name: Name, digest: Key, executable: bool)
  datatype DirectoryNode = DirectoryNode(name: Name, digest: Key)
  datatype SymlinkNode = SymlinkNode(name: Name, target: string)

  datatype Message = Message(files: seq<FileNode>, directories: seq<DirectoryNode>, symlinks: seq<SymlinkNode>)

  type DigestOf = Message -> Key
  type Children = map<Key, Message>

  const EMPTY: Message := Message([], [], [])

  /** The message of a directory. */
  function Encode(d: DigestOf, entries: seq<Entry>): Message
    decreases entries
  {
    if entries == [] then EMPTY
    else
      var last := entries[|entries| - 1];
      var m := Encode(d, entries[..|entries| - 1]);
      match last.node
      case File(digest, executable) => m.(files := m.files + [FileNode(last.name, digest, executable)])
      case Symlink(target) => m.(symlinks := m.symlinks + [SymlinkNode(last.name, target)])
      case Dir(sub) => m.(directories := m.directories + [DirectoryNode(last.name, d(Encode(d, sub)))])
      case Failing => m
  }

  /** Only files, symbolic links and directories, at every level. */
  predicate Regular(entries: seq<Entry>)
    decreases entries
  {
    forall e | e in entries :: !e.node.Failing? && (e.node.Dir? ==> Regular(e.node.entries))
  }

  /** In addition names are unique in every directory. */
  predicate Tidy(entries: seq<Entry>)
    decreases entries
  {
    (forall i, j | 0 <= i < j < |entries| :: entries[i].name != entries[j].name) &&
    forall e | e in entries :: !e.node.Failing? && (e.node.Dir? ==> Tidy(e.node.entries))
  }

  /** The digests of all directories below this one. */
  function SubKeys(d: DigestOf, entries: seq<Entry>): set<Key>
    decreases entries
  {
    if entries == [] then {}
    else
      var last := entries[|entries| - 1].node;
      SubKeys(d, entries[..|entries| - 1]) +
      (if last.Dir? then SubKeys(d, last.entries) + {d(Encode(d, last.entries))} else {})
  }

  /** Messages are kept under their own digest. */
  predicate Keyed(d: DigestOf, children: Children) {
    forall k | k in children :: d(children[k]) == k
  }

  /** No listed child has the digest of another directory of this tree. */
  predicate NoCollision(d: DigestOf, children: Children, entries: seq<Entry>)
    decreases entries
  {
    forall e | e in entries && e.node.Dir? ::
      (forall k | k in children :: d(children[k]) == d(Encode(d, e.node.entries)) ==>
         children[k] == Encode(d, e.node.entries)) &&
      NoCollision(d, children, e.node.entries)
  }

  /** Every directory below is found under its digest. */
  predicate Holds(d: DigestOf, children: Children, entries: seq<Entry>)
    decreases entries
  {
    forall e | e in entries && e.node.Dir? ::
      d(Encode(d, e.node.entries)) in children &&
      children[d(Encode(d, e.node.entries))] == Encode(d, e.node.entries) &&
      Holds(d, children, e.node.entries)
  }

  lemma FrontAndLast(entries: seq<Entry>, e: Entry)
    requires entries != []
    ensures var n := |entries| - 1; e in entries <==> e in entries[..n] || e == entries[n]
  {
    assert entries == entries[..|entries| - 1] + [entries[|entries| - 1]];
  }

  lemma {:induction false} SubKeysOf(d: DigestOf, entries: seq<Entry>, e: Entry)
    requires e in entries && e.node.Dir?
    ensures SubKeys(d, e.node.entries) + {d(Encode(d, e.node.entries))} <= SubKeys(d, entries)
    decreases |entries|
  {
    FrontAndLast(entries, e);
    if e != entries[|entries| - 1] {
      SubKeysOf(d, entries[..|entries| - 1], e);
    }
  }

  /** Without collisions, having all the digests means having all the directories. */
  lemma {:induction false} KeysHold(d: DigestOf, children: Children, entries: seq<Entry>)
    requires NoCollision(d, children, entries) && Keyed(d, children) && SubKeys(d, entries) <= children.Keys
    ensures Holds(d, children, entries)
    decreases entries
  {
    forall e | e in entries && e.node.Dir?
      ensures var k := d(Encode(d, e.node.entries));
              k in children && children[k] == Encode(d, e.node.entries) && Holds(d, children, e.node.entries)
    {
      SubKeysOf(d, entries, e);
      KeysHold(d, children, e.node.entries);
    }
  }

  /**
   * uploadDirectory. It fails exactly for directories that hold something failing somewhere. What
   * it adds to the children are the directories below, each under its digest, and shared ones once.
   */
  method UploadDirectory(d: DigestOf, entries: seq<Entry>, children: Children)
    returns (directory: Option<Message>, children': Children)
    requires Keyed(d, children)
    ensures directory == if Regular(entries) then Some(Encode(d, entries)) else None
    ensures Keyed(d, children')
    ensures Regular(entries) ==> children'.Keys == children.Keys + SubKeys(d, entries)
    decreases entries
  {
    var m := EMPTY;
    children' := children;
    for i := 0 to |entries|
      invariant Keyed(d, children') && m == Encode(d, entries[..i]) && Regular(entries[..i])
      invariant children'.Keys == children.Keys + SubKeys(d, entries[..i])
    {
      var e := entries[i];
      assert entries[..i + 1][..i] == entries[..i];
      assert forall x | x in entries[..i + 1] :: x in entries[..i] || x == e;
      match e.node
      case File(digest, executable) =>
        m := m.(files := m.files + [FileNode(e.name, digest, executable)]);
      case Dir(sub) =>
        var child;
        child, children' := UploadDirectory(d, sub, children');
        if child.None? {
          return None, children';
        }
        children' := children'[d(child.value) := child.value];
        m := m.(directories := m.directories + [DirectoryNode(e.name, d(child.value))]);
      case Symlink(target) =>
        m := m.(symlinks := m.symlinks + [SymlinkNode(e.name, target)]);
      case Failing =>
        return None, children';
    }
    assert entries[..|entries|] == entries;
    directory := Some(m);
  }

  // ---------------------------------------------------------------------------------------------
  // The browser: walking a path
  // ---------------------------------------------------------------------------------------------

  /** The children of a Tree message, in whatever order the worker listed its map. */
  predicate Lists(messages: seq<Message>, children: Children) {
    (forall m | m in messages :: m in children.Values) && (forall k | k in children :: children[k] in messages)
  }

  /** The listed messages under their digests. */
  function Decoded(d: DigestOf, messages: seq<Message>): Children
    decreases |messages|
  {
    if messages == [] then map[]
    else
      var last := messages[|messages| - 1];
      Decoded(d, messages[..|messages| - 1])[d(last) := last]
  }

  lemma {:induction false} DecodedKeys(d: DigestOf, messages: seq<Message>)
    ensures Keyed(d, Decoded(d, messages))
    ensures forall m | m in messages :: d(m) in Decoded(d, messages)
    ensures forall k | k in Decoded(d, messages) :: Decoded(d, messages)[k] in messages
    decreases |messages|
  {
    if messages != [] {
      DecodedKeys(d, messages[..|messages| - 1]);
      assert messages == messages[..|messages| - 1] + [messages[|messages| - 1]];
    }
  }

  /** Digesting the listed messages again restores the worker's map, whatever their order. */
  lemma DecodedIsOriginal(d: DigestOf, messages: seq<Message>, original: Children)
    requires Keyed(d, original) && Lists(messages, original)
    ensures Decoded(d, messages) == original
  {
    DecodedKeys(d, messages);
    var children := Decoded(d, messages);
    forall k | k in children ensures k in original && children[k] == original[k] {
      assert children[k] in original.Values;
    }
    forall k | k in original ensures k in children {
      assert original[k] in messages;
    }
  }

  /** The loop over the children of the Tree message. */
  method DecodeChildren(d: DigestOf, messages: seq<Message>) returns (children: Children)
    ensures children == Decoded(d, messages)
  {
    children := map[];
    for i := 0 to |messages|
      invariant children == Decoded(d, messages[..i])
    {
      assert messages[..i + 1][..i] == messages[..i];
      children := children[d(messages[i]) := messages[i]];
    }
    assert messages[..|messages|] == messages;
  }

  datatype WalkResult = Found(directory: Message) | NoSuchName | NoSuchChild

  /** The first directory node with this name. */
  function FindNode(nodes: seq<DirectoryNode>, name: Name): Option<DirectoryNode> {
    if nodes == [] then None else if nodes[0].name == name then Some(nodes[0]) else FindNode(nodes[1..], name)
  }

  function WalkFrom(children: Children, directory: Message, path: Path): WalkResult
    decreases |path|
  {
    if path == [] then Found(directory)
    else
      var node := FindNode(directory.directories, path[0]);
      if node.None? then NoSuchName
      else if node.value.digest !in children then NoSuchChild
      else WalkFrom(children, children[node.value.digest], path[1..])
  }

  /** The path walk of handleTree. */
  method Walk(children: Children, root: Message, path: Path) returns (result: WalkResult)
    ensures result == WalkFrom(children, root, path)
  {
    var directory := root;
    var i := 0;
    while i < |path|
      invariant i <= |path| && WalkFrom(children, directory, path[i..]) == WalkFrom(children, root, path)
    {
      assert path[i..][1..] == path[i + 1..];
      var j := 0;
      while j < |directory.directories| && directory.directories[j].name != path[i]
        invariant j <= |directory.directories|
        invariant FindNode(directory.directories[j..], path[i]) == FindNode(directory.directories, path[i])
      {
        assert directory.directories[j..][1..] == directory.directories[j + 1..];
        j := j + 1;
      }
      if j == |directory.directories| {
        return NoSuchName;
      }
      var digest := directory.directories[j].digest;
      if digest !in children {
        return NoSuchChild;
      }
      directory := children[digest];
      i := i + 1;
    }
    result := Found(directory);
  }

  /** The entry of this name. */
  function FindEntry(entries: seq<Entry>, name: Name): (e: Option<Entry>)
    ensures e.Some? ==> e.value in entries && e.value.name == name
    ensures e.None? ==> forall x | x in entries :: x.name != name
    decreases |entries|
  {
    if entries == [] then None
    else
      var last := entries[|entries| - 1];
      FrontAndLastAll(entries);
      if last.name == name then Some(last) else FindEntry(entries[..|entries| - 1], name)
  }

  lemma FrontAndLastAll(entries: seq<Entry>)
    requires entries != []
    ensures forall e :: e in entries <==> e in entries[..|entries| - 1] || e == entries[|entries| - 1]
  {
    assert entries == entries[..|entries| - 1] + [entries[|entries| - 1]];
  }

  /** The directory that a path leads to. */
  function Resolve(entries: seq<Entry>, path: Path): Option<seq<Entry>>
    decreases |path|
  {
    if path == [] then Some(entries)
    else
      var e := FindEntry(entries, path[0]);
      if e.None? || !e.value.node.Dir? then None else Resolve(e.value.node.entries, path[1..])
  }

  lemma {:induction false} FindNodeAppend(nodes: seq<DirectoryNode>, x: DirectoryNode, name: Name)
    ensures FindNode(nodes + [x], name)
         == if FindNode(nodes, name).Some? then FindNode(nodes, name) else if x.name == name then Some(x) else None
    decreases |nodes|
  {
    if nodes == [] {
      assert nodes + [x] == [x];
    } else {
      assert (nodes + [x])[1..] == nodes[1..] + [x];
      FindNodeAppend(nodes[1..], x, name);
    }
  }

  /** The part of tidiness that concerns one directory only. */
  predicate UniqueNames(entries: seq<Entry>) {
    forall i, j | 0 <= i < j < |entries| :: entries[i].name != entries[j].name
  }

  /** A message has a directory node for exactly those names that are directories. */
  lemma {:induction false} FindNodeIsFindEntry(d: DigestOf, entries: seq<Entry>, name: Name)
    requires UniqueNames(entries)
    ensures FindNode(Encode(d, entries).directories, name) ==
            var e := FindEntry(entries, name);
            if e.Some? && e.value.node.Dir? then Some(DirectoryNode(name, d(Encode(d, e.value.node.entries)))) else None
    decreases |entries|
  {
    if entries != [] {
      var front, last := entries[..|entries| - 1], entries[|entries| - 1];
      FindNodeIsFindEntry(d, front, name);
      if last.node.Dir? {
        FindNodeAppend(Encode(d, front).directories, DirectoryNode(last.name, d(Encode(d, last.node.entries))), name);
      }
      if last.name == name {
        assert FindEntry(front, name).None?;
      }
    }
  }

  /** Every path leads in the Tree message where it leads in the original, or nowhere as it does there. */
  lemma {:induction false} WalkIsResolve(d: DigestOf, children: Children, entries: seq<Entry>, path: Path)
    requires Tidy(entries) && Holds(d, children, entries)
    ensures WalkFrom(children, Encode(d, entries), path) ==
            var sub := Resolve(entries, path); if sub.Some? then Found(Encode(d, sub.value)) else NoSuchName
    decreases |path|
  {
    if path != [] {
      FindNodeIsFindEntry(d, entries, path[0]);
      var e := FindEntry(entries, path[0]);
      if e.Some? && e.value.node.Dir? {
        WalkIsResolve(d, children, e.value.node.entries, path[1..]);
      }
    }
  }

  // ---------------------------------------------------------------------------------------------
  // The browser: making a tarball
  // ---------------------------------------------------------------------------------------------

  datatype TarEntry =
    | TarDir(path: Path)
    | TarSymlink(path: Path, target: string)
    | TarFile(path: Path, digest: Key, mode: nat)

  const MODE_FILE: nat := 438       // octal 0666
  const MODE_EXECUTABLE: nat := 511 // octal 0777

  datatype TarError = ChildNotFound | OutOfFuel

  function LinkEntries(nodes: seq<SymlinkNode>, path: Path): seq<TarEntry> {
    seq(|nodes|, i requires 0 <= i < |nodes| => TarSymlink(path + [nodes[i].name], nodes[i].target))
  }

  function FileEntries(nodes: seq<FileNode>, path: Path): seq<TarEntry> {
    seq(|nodes|, i requires 0 <= i < |nodes| =>
          TarFile(path + [nodes[i].name], nodes[i].digest, if nodes[i].executable then MODE_EXECUTABLE else MODE_FILE))
  }

  /** Child directories with all they contain, for nodes in order. */
  function DirEntries(children: Children, nodes: seq<DirectoryNode>, path: Path, fuel: nat)
    : Result<seq<TarEntry>, TarError>
    decreases fuel, |nodes|
  {
    if nodes == [] then Ok([])
    else
      var before := DirEntries(children, nodes[..|nodes| - 1], path, fuel);
      var last := nodes[|nodes| - 1];
      if before.Err? then before
      else if last.digest !in children then Err(ChildNotFound)
      else if fuel == 0 then Err(OutOfFuel)
      else
        var below := Tarball(children, children[last.digest], path + [last.name], fuel - 1);
        if below.Err? then below else Ok(before.value + [TarDir(path + [last.name])] + below.value)
  }

  /** generateTarballDirectory: child directories first, then symbolic links, then files. */
  function Tarball(children: Children, directory: Message, path: Path, fuel: nat): Result<seq<TarEntry>, TarError>
    decreases fuel, |directory.directories| + 1
  {
    var dirs := DirEntries(children, directory.directories, path, fuel);
    if dirs.Err? then dirs
    else Ok(dirs.value + LinkEntries(directory.symlinks, path) + FileEntries(directory.files, path))
  }

  /** An error stays the result, whatever nodes follow. */
  lemma {:induction false} DirEntriesFail(children: Children, nodes: seq<DirectoryNode>, path: Path, fuel: nat, i: nat)
    requires i <= |nodes| && DirEntries(children, nodes[..i], path, fuel).Err?
    ensures DirEntries(children, nodes, path, fuel) == DirEntries(children, nodes[..i], path, fuel)
    decreases |nodes| - i
  {
    if i == |nodes| {
      assert nodes[..i] == nodes;
    } else {
      assert nodes[..i + 1][..i] == nodes[..i];
      DirEntriesFail(children, nodes, path, fuel, i + 1);
    }
  }

  /** What the next node adds. */
  lemma DirEntriesNext(children: Children, nodes: seq<DirectoryNode>, path: Path, fuel: nat, i: nat)
    requires i < |nodes| && DirEntries(children, nodes[..i], path, fuel).Ok?
    ensures var next := DirEntries(children, nodes[..i + 1], path, fuel);
            if nodes[i].digest !in children then next == Err(ChildNotFound)
            else if fuel == 0 then next == Err(OutOfFuel)
            else
              var childPath := path + [nodes[i].name];
              var below := Tarball(children, children[nodes[i].digest], childPath, fuel - 1);
              if below.Err? then next == below
              else next == Ok(DirEntries(children, nodes[..i], path, fuel).value + [TarDir(childPath)] + below.value)
    ensures DirEntries(children, nodes[..i + 1], path, fuel).Err? ==>
              DirEntries(children, nodes, path, fuel) == DirEntries(children, nodes[..i + 1], path, fuel)
  {
    hide Tarball;
    assert nodes[..i + 1][..i] == nodes[..i];
    if DirEntries(children, nodes[..i + 1], path, fuel).Err? {
      DirEntriesFail(children, nodes, path, fuel, i + 1);
    }
  }

  class TarWriter {
    var written: seq<TarEntry>

    constructor ()
      ensures written == []
    {
      written := [];
    }

    /** What was written before an error is of no use to the client. */
    method GenerateDirectory(children: Children, directory: Message, path: Path, fuel: nat)
      returns (error: Option<TarError>)
      modifies this
      ensures var r := Tarball(children, directory, path, fuel);
              if r.Ok? then error == None && written == old(written) + r.value else error == Some(r.error)
      decreases fuel
    {
      hide LinkEntries, FileEntries, DirEntries;
      var nodes := directory.directories;
      NoDirEntries(children, path, fuel);
      for i := 0 to |nodes|
        invariant DirEntries(children, nodes[..i], path, fuel).Ok?
        invariant written == old(written) + DirEntries(children, nodes[..i], path, fuel).value
      {
        DirEntriesNext(children, nodes, path, fuel, i);
        var childPath := path + [nodes[i].name];
        if nodes[i].digest !in children {
          return Some(ChildNotFound);
        }
        if fuel == 0 {
          return Some(OutOfFuel);
        }
        written := written + [TarDir(childPath)];
        error := GenerateDirectory(children, children[nodes[i].digest], childPath, fuel - 1);
        if error.Some? {
          return;
        }
      }
      assert nodes[..|nodes|] == nodes;
      written := written + LinkEntries(directory.symlinks, path) + FileEntries(directory.files, path);
      error := None;
    }
  }

  lemma NoDirEntries(children: Children, path: Path, fuel: nat)
    ensures DirEntries(children, [], path, fuel) == Ok([])
  {
  }

  // ---------------------------------------------------------------------------------------------
  // The tarball is the tree
  // ---------------------------------------------------------------------------------------------

  function Depth(entries: seq<Entry>): nat
    decreases entries
  {
    if entries == [] then 0
    else
      var last := entries[|entries| - 1].node;
      var front := Depth(entries[..|entries| - 1]);
      if last.Dir? && front < Depth(last.entries) + 1 then Depth(last.entries) + 1 else front
  }

  /** What the original has under a path. */
  function At(entries: seq<Entry>, path: Path): Option<Node>
    requires path != []
    decreases |path|
  {
    var e := FindEntry(entries, path[0]);
    if e.None? then None
    else if |path| == 1 then Some(e.value.node)
    else if e.value.node.Dir? then At(e.value.node.entries, path[1..])
    else None
  }

  /** The tar entry that stands for this node. */
  predicate StandsFor(t: TarEntry, node: Node) {
    match node
    case File(digest, executable) =>
      t == TarFile(t.path, digest, if executable then MODE_EXECUTABLE else MODE_FILE)
    case Symlink(target) => t == TarSymlink(t.path, target)
    case Dir(_) => t == TarDir(t.path)
    case Failing => false
  }

  /** The entry describes what the original, put at `path`, has in its place. */
  predicate Means(entries: seq<Entry>, path: Path, t: TarEntry) {
    |path| < |t.path| && t.path[..|path|] == path &&
    var node := At(entries, t.path[|path|..]);
    node.Some? && StandsFor(t, node.value)
  }

  /** The entry concerns a name for which `p` holds. */
  predicate Concerns(entries: seq<Entry>, path: Path, t: TarEntry, p: Node -> bool) {
    Means(entries, path, t) && p(FindEntry(entries, t.path[|path|]).value.node)
  }

  predicate Distinct(ts: seq<TarEntry>) {
    forall i, j | 0 <= i < j < |ts| :: ts[i].path != ts[j].path
  }

  lemma DistinctConcat(a: seq<TarEntry>, b: seq<TarEntry>)
    requires Distinct(a) && Distinct(b)
    requires forall x, y | x in a && y in b :: x.path != y.path
    ensures Distinct(a + b)
  {
  }

  const IS_DIR: Node -> bool := (n: Node) => n.Dir?
  const IS_LINK: Node -> bool := (n: Node) => n.Symlink?
  const IS_FILE: Node -> bool := (n: Node) => n.File?

  /** Adding a last entry adds what concerns its name. */
  lemma ConcernsLast(entries: seq<Entry>, path: Path, t: TarEntry, p: Node -> bool)
    requires UniqueNames(entries) && entries != []
    ensures var front, last := entries[..|entries| - 1], entries[|entries| - 1];
            Concerns(entries, path, t, p) <==>
            Concerns(front, path, t, p) ||
            (p(last.node) && Means(entries, path, t) && t.path[|path|] == last.name)
  {
    var front, last := entries[..|entries| - 1], entries[|entries| - 1];
    if |path| < |t.path| && t.path[|path|] == last.name {
      assert FindEntry(front, last.name).None?;
    }
  }

  /** What is below the last entry. */
  lemma MeansBelow(entries: seq<Entry>, path: Path, t: TarEntry)
    requires entries != []
    ensures var last := entries[|entries| - 1];
            var below := path + [last.name];
            last.node.Dir? ==>
              (Means(entries, path, t) && t.path[|path|] == last.name
               <==> t == TarDir(below) || Means(last.node.entries, below, t))
  {
    var last := entries[|entries| - 1];
    var below := path + [last.name];
    if |path| < |t.path| {
      var rest := t.path[|path|..];
      assert rest[1..] == t.path[|path| + 1..];
      assert t.path[..|path| + 1] == t.path[..|path|] + [t.path[|path|]];
      if |rest| == 1 {
        assert t.path == t.path[..|path| + 1];
      }
    }
  }

  lemma MeansLeaf(entries: seq<Entry>, path: Path, t: TarEntry)
    requires entries != []
    ensures var last := entries[|entries| - 1];
            !last.node.Dir? ==>
              (Means(entries, path, t) && t.path[|path|] == last.name
               <==> t.path == path + [last.name] && StandsFor(t, last.node))
  {
    var last := entries[|entries| - 1];
    if |path| < |t.path| && t.path[|path|] == last.name {
      var rest := t.path[|path|..];
      if |rest| == 1 {
        assert t.path == t.path[..|path|] + rest;
      }
    }
  }

  lemma FrontIsFine(d: DigestOf, children: Children, entries: seq<Entry>)
    requires Tidy(entries) && Holds(d, children, entries) && entries != []
    ensures var front, last := entries[..|entries| - 1], entries[|entries| - 1];
            Tidy(front) && Holds(d, children, front) && Depth(front) <= Depth(entries) && UniqueNames(entries) &&
            (last.node.Dir? ==> Tidy(last.node.entries) && Holds(d, children, last.node.entries))
  {
    FrontAndLastAll(entries);
  }

  /** The tar entries describe what concerns the names chosen by p, each once. */
  ghost predicate Tells(ts: seq<TarEntry>, entries: seq<Entry>, path: Path, p: Node -> bool) {
    (forall t :: t in ts <==> Concerns(entries, path, t, p)) && Distinct(ts)
  }

  /** The tar entries describe all of a directory, each thing once. */
  ghost predicate TellsAll(ts: seq<TarEntry>, entries: seq<Entry>, path: Path) {
    Distinct(ts) && forall t :: t in ts <==> Means(entries, path, t)
  }

  lemma TellsNothing(path: Path, p: Node -> bool)
    ensures Tells([], [], path, p)
  {
  }

  /** A last entry that p does not choose adds nothing. */
  lemma TellsSkip(ts: seq<TarEntry>, entries: seq<Entry>, path: Path, p: Node -> bool)
    requires UniqueNames(entries) && entries != [] && !p(entries[|entries| - 1].node)
    requires Tells(ts, entries[..|entries| - 1], path, p)
    ensures Tells(ts, entries, path, p)
  {
    forall t ensures t in ts <==> Concerns(entries, path, t, p) {
      ConcernsLast(entries, path, t, p);
    }
  }

  /** A last entry that p chooses adds the tar entries for it. */
  lemma TellsMore(ts: seq<TarEntry>, entries: seq<Entry>, path: Path, p: Node -> bool, more: seq<TarEntry>)
    requires UniqueNames(entries) && entries != [] && p(entries[|entries| - 1].node)
    requires Tells(ts, entries[..|entries| - 1], path, p) && Distinct(more)
    requires forall t :: t in more <==> Means(entries, path, t) && t.path[|path|] == entries[|entries| - 1].name
    ensures Tells(ts + more, entries, path, p)
  {
    forall t ensures t in ts + more <==> Concerns(entries, path, t, p) {
      ConcernsLast(entries, path, t, p);
    }
    forall x, y | x in ts && y in more ensures x.path != y.path {
      assert Concerns(entries[..|entries| - 1], path, x, p);
      LastIsNew(entries, x.path[|path|]);
    }
    DistinctConcat(ts, more);
  }

  lemma LastIsNew(entries: seq<Entry>, name: Name)
    requires UniqueNames(entries) && entries != [] && FindEntry(entries[..|entries| - 1], name).Some?
    ensures name != entries[|entries| - 1].name
  {
  }

  lemma {:induction false} LinksTell(d: DigestOf, entries: seq<Entry>, path: Path)
    requires UniqueNames(entries)
    ensures Tells(LinkEntries(Encode(d, entries).symlinks, path), entries, path, IS_LINK)
    decreases |entries|
  {
    hide Tells;
    if entries == [] {
      TellsNothing(path, IS_LINK);
      assert LinkEntries([], path) == [];
    } else {
      var front, last := entries[..|entries| - 1], entries[|entries| - 1];
      LinksTell(d, front, path);
      var ts := LinkEntries(Encode(d, front).symlinks, path);
      if last.node.Symlink? {
        var t := TarSymlink(path + [last.name], last.node.target);
        forall x ensures x in [t] <==> Means(entries, path, x) && x.path[|path|] == last.name {
          MeansLeaf(entries, path, x);
        }
        TellsMore(ts, entries, path, IS_LINK, [t]);
        assert LinkEntries(Encode(d, entries).symlinks, path) == ts + [t];
      } else {
        TellsSkip(ts, entries, path, IS_LINK);
      }
    }
  }

  lemma {:induction false} FilesTell(d: DigestOf, entries: seq<Entry>, path: Path)
    requires UniqueNames(entries)
    ensures Tells(FileEntries(Encode(d, entries).files, path), entries, path, IS_FILE)
    decreases |entries|
  {
    hide Tells;
    if entries == [] {
      TellsNothing(path, IS_FILE);
      assert FileEntries([], path) == [];
    } else {
      var front, last := entries[..|entries| - 1], entries[|entries| - 1];
      FilesTell(d, front, path);
      var ts := FileEntries(Encode(d, front).files, path);
      if last.node.File? {
        var mode := if last.node.executable then MODE_EXECUTABLE else MODE_FILE;
        var t := TarFile(path + [last.name], last.node.digest, mode);
        forall x ensures x in [t] <==> Means(entries, path, x) && x.path[|path|] == last.name {
          MeansLeaf(entries, path, x);
        }
        TellsMore(ts, entries, path, IS_FILE, [t]);
        assert FileEntries(Encode(d, entries).files, path) == ts + [t];
      } else {
        TellsSkip(ts, entries, path, IS_FILE);
      }
    }
  }

  /** The tarball of the last directory, with the entry for itself, tells all about it. */
  lemma BelowTells(entries: seq<Entry>, path: Path, inner: seq<TarEntry>)
    requires entries != [] && entries[|entries| - 1].node.Dir?
    requires var last := entries[|entries| - 1]; TellsAll(inner, last.node.entries, path + [last.name])
    ensures var last := entries[|entries| - 1];
            var more := [TarDir(path + [last.name])] + inner;
            Distinct(more) && forall t :: t in more <==> Means(entries, path, t) && t.path[|path|] == last.name
  {
    var last := entries[|entries| - 1];
    var below := path + [last.name];
    var more := [TarDir(below)] + inner;
    forall t ensures t in more <==> Means(entries, path, t) && t.path[|path|] == last.name {
      MeansBelow(entries, path, t);
    }
    forall y | y in inner ensures y.path != below {
      assert Means(last.node.entries, below, y);
    }
    DistinctConcat([TarDir(below)], inner);
  }

  /** What DirEntries does for the last of several entries. */
  lemma DirsUnfold(d: DigestOf, children: Children, entries: seq<Entry>, path: Path, fuel: nat)
    requires entries != [] && Holds(d, children, entries) && Depth(entries) <= fuel
    ensures var front, last := entries[..|entries| - 1], entries[|entries| - 1];
            var all := DirEntries(children, Encode(d, entries).directories, path, fuel);
            var before := DirEntries(children, Encode(d, front).directories, path, fuel);
            if last.node.Dir? then
              0 < fuel && Depth(last.node.entries) <= fuel - 1 && last in entries &&
              var below := Tarball(children, Encode(d, last.node.entries), path + [last.name], fuel - 1);
              (before.Ok? && below.Ok? ==> all == Ok(before.value + [TarDir(path + [last.name])] + below.value))
            else all == before
  {
    hide Tarball;
    var front, last := entries[..|entries| - 1], entries[|entries| - 1];
    if last.node.Dir? {
      var nodes := Encode(d, entries).directories;
      assert nodes[..|nodes| - 1] == Encode(d, front).directories;
    }
  }

  lemma DirsCombine(entries: seq<Entry>, path: Path, ts: seq<TarEntry>, inner: seq<TarEntry>)
    requires UniqueNames(entries) && entries != [] && entries[|entries| - 1].node.Dir?
    requires Tells(ts, entries[..|entries| - 1], path, IS_DIR)
    requires var last := entries[|entries| - 1]; TellsAll(inner, last.node.entries, path + [last.name])
    ensures Tells(ts + [TarDir(path + [entries[|entries| - 1].name])] + inner, entries, path, IS_DIR)
  {
    hide Tells, TellsAll;
    var below := path + [entries[|entries| - 1].name];
    BelowTells(entries, path, inner);
    TellsMore(ts, entries, path, IS_DIR, [TarDir(below)] + inner);
    assert ts + [TarDir(below)] + inner == ts + ([TarDir(below)] + inner);
  }

  lemma DirsOfNone(d: DigestOf, children: Children, path: Path, fuel: nat)
    ensures DirEntries(children, Encode(d, []).directories, path, fuel) == Ok([])
  {
  }

  lemma {:induction false} DirsTell(d: DigestOf, children: Children, entries: seq<Entry>, path: Path, fuel: nat)
    requires Tidy(entries) && Holds(d, children, entries) && Depth(entries) <= fuel
    ensures var r := DirEntries(children, Encode(d, entries).directories, path, fuel);
            r.Ok? && Tells(r.value, entries, path, IS_DIR)
    decreases entries, 0
  {
    hide Tells, TellsAll, Tarball, DirEntries, Encode, Tidy, Holds, Depth, UniqueNames;
    if entries == [] {
      TellsNothing(path, IS_DIR);
      DirsOfNone(d, children, path, fuel);
    } else {
      var front, last := entries[..|entries| - 1], entries[|entries| - 1];
      FrontIsFine(d, children, entries);
      DirsUnfold(d, children, entries, path, fuel);
      DirsTell(d, children, front, path, fuel);
      var ts := DirEntries(children, Encode(d, front).directories, path, fuel).value;
      if last.node.Dir? {
        var sub, below := last.node.entries, path + [last.name];
        TarballIsTree(d, children, sub, below, fuel - 1);
        DirsCombine(entries, path, ts, Tarball(children, Encode(d, sub), below, fuel - 1).value);
      } else {
        TellsSkip(ts, entries, path, IS_DIR);
      }
    }
  }

  /**
   * The tarball of an uploaded directory contains, each exactly once, an entry for every directory,
   * symbolic link and file of the original, at its path, with its target, digest and executable bit,
   * and nothing else.
   */
  lemma {:induction false} TarballIsTree(d: DigestOf, children: Children, entries: seq<Entry>, path: Path, fuel: nat)
    requires Tidy(entries) && Holds(d, children, entries) && Depth(entries) <= fuel
    ensures var r := Tarball(children, Encode(d, entries), path, fuel);
            r.Ok? && TellsAll(r.value, entries, path)
    decreases entries, 1
  {
    DirsTell(d, children, entries, path, fuel);
    LinksTell(d, entries, path);
    FilesTell(d, entries, path);
    var m := Encode(d, entries);
    Together(entries, path, DirEntries(children, m.directories, path, fuel).value,
             LinkEntries(m.symlinks, path), FileEntries(m.files, path));
  }

  lemma Together(entries: seq<Entry>, path: Path, dirs: seq<TarEntry>, links: seq<TarEntry>, files: seq<TarEntry>)
    requires Tidy(entries) && Tells(dirs, entries, path, IS_DIR) && Tells(links, entries, path, IS_LINK)
    requires Tells(files, entries, path, IS_FILE)
    ensures TellsAll(dirs + links + files, entries, path)
  {
    forall t ensures t in dirs + links + files <==> Means(entries, path, t) {
    }
    forall x, y | x in dirs && y in links ensures x.path != y.path {
      assert Concerns(entries, path, x, IS_DIR) && Concerns(entries, path, y, IS_LINK);
    }
    DistinctConcat(dirs, links);
    forall x, y | x in dirs + links && y in files ensures x.path != y.path {
      assert Concerns(entries, path, x, IS_DIR) || Concerns(entries, path, x, IS_LINK);
      assert Concerns(entries, path, y, IS_FILE);
    }
    DistinctConcat(dirs + links, files);
  }

  /** What a path leads to is as tidy, and as complete, as the whole. */
  lemma {:induction false} ResolveIsFine(d: DigestOf, children: Children, entries: seq<Entry>, path: Path)
    requires Tidy(entries) && Holds(d, children, entries)
    ensures var sub := Resolve(entries, path);
            sub.Some? ==> Tidy(sub.value) && Holds(d, children, sub.value)
    decreases |path|
  {
    if path != [] {
      var e := FindEntry(entries, path[0]);
      if e.Some? && e.value.node.Dir? {
        ResolveIsFine(d, children, e.value.node.entries, path[1..]);
      }
    }
  }

  /**
   * Upload, transfer in any order, decoding, walk and tarball together, for every tidy directory whose
   * own directories do not collide: the browser finds under a path what the worker had there, and serves the
   * tarball of exactly that.
   */
  lemma TreeRoundTrip(d: DigestOf, children: Children, messages: seq<Message>, entries: seq<Entry>, path: Path,
                      fuel: nat)
    requires Tidy(entries) && Keyed(d, children) && children.Keys == SubKeys(d, entries)
    requires NoCollision(d, children, entries) && Lists(messages, children)
    ensures var decoded, sub := Decoded(d, messages), Resolve(entries, path);
            var found := WalkFrom(decoded, Encode(d, entries), path);
            if sub.None? then found == NoSuchName
            else
              found == Found(Encode(d, sub.value)) &&
              (Depth(sub.value) <= fuel ==>
                 var r := Tarball(decoded, found.directory, [], fuel); r.Ok? && TellsAll(r.value, sub.value, []))
  {
    hide Tidy, Holds, TellsAll, Encode, Tarball, Lists;
    DecodedIsOriginal(d, messages, children);
    KeysHold(d, children, entries);
    WalkIsResolve(d, children, entries, path);
    ResolveIsFine(d, children, entries, path);
    if sub: seq<Entry> :| Resolve(entries, path) == Some(sub) && Depth(sub) <= fuel {
      TarballIsTree(d, children, sub, [], fuel);
    }
  }
}
