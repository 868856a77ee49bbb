// The file tree of src-tauri/src/file_watcher.rs: `read_dir_recursive` over
// an abstract file system, the zero-byte test of `read_file_content`, and
// the slot holding the active watcher. Paths use '/' as the separator.

module FileTree {
  import opened Wrappers
  import opened Sorting

  /** What the file system holds at a path: a file, a directory with its
      entries (or the error reading them stops at), or an error from
      `fs::metadata`. */
  datatype Fs =
    | FsFile(len: nat, modified: Option<string>)
    | FsDir(entries: seq<FsEntry>, listError: Option<string>, modified: Option<string>)
    | FsMissing(error: string)

  /** A directory entry: its file name and what is there. */
  datatype FsEntry = FsEntry(name: string, node: Fs)

  /** `Option<Vec<FileNode>>`: a file has no children, a directory a list. */
  datatype Children = NoChildren | Listed(nodes: seq<FileNode>)

  /** `FileNode`; `modified` is the modification time in seconds, as text. */
  datatype FileNode = FileNode(
    name: string,
    path: string,
    isDirectory: bool,
    children: Children,
    size: Option<nat>,
    modified: Option<string>)

  // ---- paths ----

  function StripTrailingSlashes(p: string): string {
    if |p| > 0 && p[|p| - 1] == '/' then StripTrailingSlashes(p[..|p| - 1]) else p
  }

  /** Stripping leaves a prefix of the path that does not end in '/'. */
  lemma {:induction false} StrippedPrefix(p: string)
    ensures var r := StripTrailingSlashes(p);
      |r| <= |p| && r == p[..|r|] && (r == [] || r[|r| - 1] != '/')
  {
    if |p| > 0 && p[|p| - 1] == '/' {
      StrippedPrefix(p[..|p| - 1]);
    }
  }

  /** The text after the last '/'. */
  function LastSegment(p: string): string {
    if p == [] || p[|p| - 1] == '/' then [] else LastSegment(p[..|p| - 1]) + [p[|p| - 1]]
  }

  /** The last segment holds no '/'. */
  lemma {:induction false} LastSegmentNoSlash(p: string)
    ensures '/' !in LastSegment(p)
  {
    if p != [] && p[|p| - 1] != '/' {
      LastSegmentNoSlash(p[..|p| - 1]);
    }
  }

  /** `Path::file_name(..).unwrap_or_default()`: the last component, or ""
      when it is ".." or there is none. */
  function BaseName(path: string): string {
    var seg := LastSegment(StripTrailingSlashes(path));
    if seg == ".." || seg == "." then "" else seg
  }

  /** `entry.path()`: the directory joined with the entry's name. */
  function ChildPath(dir: string, name: string): string {
    if dir == [] then name
    else if dir[|dir| - 1] == '/' then dir + name
    else dir + "/" + name
  }

  lemma {:induction false} LastSegmentOf(prefix: string, name: string)
    requires '/' !in name
    requires prefix == [] || prefix[|prefix| - 1] == '/'
    ensures LastSegment(prefix + name) == name
  {
    if name != [] {
      var p := prefix + name;
      assert p[..|p| - 1] == prefix + name[..|name| - 1];
      LastSegmentOf(prefix, name[..|name| - 1]);
    } else {
      assert prefix + name == prefix;
    }
  }

  /** A child node is named after its directory entry. */
  lemma ChildName(dir: string, name: string)
    requires name != "" && name != "." && name != ".." && '/' !in name
    ensures BaseName(ChildPath(dir, name)) == name
  {
    var p := ChildPath(dir, name);
    var prefix := if dir == [] then [] else if dir[|dir| - 1] == '/' then dir else dir + "/";
    assert p == prefix + name;
    assert p[|p| - 1] == name[|name| - 1];
    assert StripTrailingSlashes(p) == p;
    LastSegmentOf(prefix, name);
  }

  // ---- reading the tree ----

  /** Directories before files, then by name (byte order). */
  function ChildKey(n: FileNode): Key {
    Key(if n.isDirectory then 0 else 1, 0, n.name)
  }

  /** The specification of `read_dir_recursive`. */
  function ReadTree(fs: Fs, path: string): Result<FileNode>
    decreases fs, 1
  {
    match fs
    case FsMissing(e) => Err(e)
    case FsFile(len, m) => Ok(FileNode(BaseName(path), path, false, NoChildren, Some(len), m))
    case FsDir(entries, listError, m) =>
      if listError.Some? then Err(listError.value)
      else Ok(DirNode(fs, path))
  }

  /** The node of a readable directory: its entries read, then sorted. */
  function DirNode(fs: Fs, path: string): FileNode
    requires fs.FsDir?
    decreases fs, 0, |fs.entries| + 2
  {
    FileNode(BaseName(path), path, true, Listed(SortBy(ReadChildren(fs, path, 0), ChildKey)), None, fs.modified)
  }

  /** The read of the `k`th entry of directory `fs`. */
  function EntryRead(fs: Fs, path: string, k: nat): Result<FileNode>
    requires fs.FsDir? && k < |fs.entries|
    decreases fs, 0, 0
  {
    ReadTree(fs.entries[k].node, ChildPath(path, fs.entries[k].name))
  }

  /** The nodes read from the entries of directory `fs` from the `k`th on,
      in listing order, leaving out the entries whose read fails. */
  function ReadChildren(fs: Fs, path: string, k: nat): seq<FileNode>
    requires fs.FsDir? && k <= |fs.entries|
    decreases fs, 0, |fs.entries| - k + 1
  {
    if k == |fs.entries| then []
    else
      var child := EntryRead(fs, path, k);
      (if child.Ok? then [child.value] else []) + ReadChildren(fs, path, k + 1)
  }

  /** `read_dir_recursive`: a file or an error is answered at once; a
      directory's children are read by the entry loop, then sorted. */
  method ReadDirRecursive(fs: Fs, path: string) returns (r: Result<FileNode>)
    ensures r == ReadTree(fs, path)
    decreases fs, 1
  {
    match fs
    case FsMissing(e) =>
      return Err(e);
    case FsFile(len, m) =>
      return Ok(FileNode(BaseName(path), path, false, NoChildren, Some(len), m));
    case FsDir(entries, listError, m) =>
      if listError.Some? {
        return Err(listError.value);
      }
      var children := ReadEntries(fs, path);
      children := Sort(children, ChildKey);
      return Ok(FileNode(BaseName(path), path, true, Listed(children), None, m));
  }

  /** The entry loop: each entry is read, and the nodes that read are pushed. */
  method ReadEntries(fs: Fs, path: string) returns (children: seq<FileNode>)
    requires fs.FsDir?
    ensures children == ReadChildren(fs, path, 0)
    decreases fs, 0
  {
    ghost var answers := EntryReads(fs, path, 0);
    children := [];
    var k := 0;
    while k < |fs.entries|
      invariant 0 <= k <= |fs.entries|
      invariant children == Oks(answers[..k])
    {
      var e := fs.entries[k];
      var child := ReadDirRecursive(e.node, ChildPath(path, e.name));
      assert child == answers[k];
      OksSnoc(answers[..k], child);
      assert answers[..k] + [child] == answers[..k + 1];
      if child.Ok? {
        children := children + [child.value];
      }
      k := k + 1;
    }
    assert answers[..k] == answers;
    ReadChildrenOks(fs, path, 0);
  }

  // ---- the nodes of the reads that succeed ----

  /** The nodes of the reads in `rs` that succeed, in order. */
  function Oks(rs: seq<Result<FileNode>>): seq<FileNode> {
    if rs == [] then [] else (if rs[0].Ok? then [rs[0].value] else []) + Oks(rs[1..])
  }

  lemma {:induction false} OksSnoc(rs: seq<Result<FileNode>>, x: Result<FileNode>)
    ensures Oks(rs + [x]) == Oks(rs) + (if x.Ok? then [x.value] else [])
  {
    if rs != [] {
      assert (rs + [x])[1..] == rs[1..] + [x];
      OksSnoc(rs[1..], x);
    }
  }

  lemma {:induction false} OksHas(rs: seq<Result<FileNode>>, j: nat)
    requires j < |rs| && rs[j].Ok?
    ensures rs[j].value in Oks(rs)
  {
    if j > 0 {
      OksHas(rs[1..], j - 1);
    }
  }

  /** The reads of the entries of directory `fs` from the `k`th on. */
  function EntryReads(fs: Fs, path: string, k: nat): (r: seq<Result<FileNode>>)
    requires fs.FsDir? && k <= |fs.entries|
    ensures |r| == |fs.entries| - k
    ensures forall i :: 0 <= i < |r| ==> r[i] == EntryRead(fs, path, k + i)
  {
    seq(|fs.entries| - k, i requires 0 <= i < |fs.entries| - k => EntryRead(fs, path, k + i))
  }

  /** The children are the nodes of the entry reads that succeed. */
  lemma {:induction false} ReadChildrenOks(fs: Fs, path: string, k: nat)
    requires fs.FsDir? && k <= |fs.entries|
    ensures ReadChildren(fs, path, k) == Oks(EntryReads(fs, path, k))
    decreases |fs.entries| - k
  {
    if k < |fs.entries| {
      ReadChildrenOks(fs, path, k + 1);
      var rs := EntryReads(fs, path, k);
      assert rs[1..] == EntryReads(fs, path, k + 1);
    }
  }

  /** The node of a path: its name is the last component and its path is
      the input; a file has its length and no children, a directory has
      children and no size. */
  lemma ReadTreeShape(fs: Fs, path: string)
    requires ReadTree(fs, path).Ok?
    ensures var n := ReadTree(fs, path).value;
      n.name == BaseName(path) && n.path == path && n.modified == fs.modified
      && (n.isDirectory <==> fs.FsDir?)
      && (!n.isDirectory ==> n.children.NoChildren? && n.size == Some(fs.len))
      && (n.isDirectory ==> n.children.Listed? && n.size.None?)
  {
  }

  /** Only the node's own read can fail: a failing child is left out and the
      directory still reads. */
  lemma ReadTreeFails(fs: Fs, path: string)
    ensures ReadTree(fs, path).Err? <==> fs.FsMissing? || (fs.FsDir? && fs.listError.Some?)
  {
  }

  /** Every entry that reads gives a child ... */
  lemma ReadChildrenHas(fs: Fs, path: string, k: nat, j: nat)
    requires fs.FsDir? && k <= j < |fs.entries| && EntryRead(fs, path, j).Ok?
    ensures EntryRead(fs, path, j).value in ReadChildren(fs, path, k)
  {
    ReadChildrenOks(fs, path, k);
    var rs := EntryReads(fs, path, k);
    assert rs[j - k] == EntryRead(fs, path, j);
    OksHas(rs, j - k);
  }

  /** ... and every child is the read of some entry. */
  lemma {:induction false} ReadChildrenFrom(fs: Fs, path: string, k: nat, c: FileNode) returns (j: nat)
    requires fs.FsDir? && k <= |fs.entries| && c in ReadChildren(fs, path, k)
    ensures k <= j < |fs.entries| && EntryRead(fs, path, j).Ok? && EntryRead(fs, path, j).value == c
    decreases |fs.entries| - k
  {
    var r := EntryRead(fs, path, k);
    if r.Ok? && r.value == c {
      j := k;
    } else {
      assert c in ReadChildren(fs, path, k + 1);
      j := ReadChildrenFrom(fs, path, k + 1, c);
    }
  }

  /** The number of children is the number of entries that read. */
  function CountReadable(fs: Fs, path: string, k: nat): nat
    requires fs.FsDir? && k <= |fs.entries|
    decreases |fs.entries| - k
  {
    if k == |fs.entries| then 0
    else
      (if EntryRead(fs, path, k).Ok? then 1 else 0) + CountReadable(fs, path, k + 1)
  }

  lemma {:induction false} ReadChildrenCount(fs: Fs, path: string, k: nat)
    requires fs.FsDir? && k <= |fs.entries|
    ensures |ReadChildren(fs, path, k)| == CountReadable(fs, path, k)
    decreases |fs.entries| - k
  {
    if k < |fs.entries| {
      ReadChildrenCount(fs, path, k + 1);
    }
  }

  /** The children of a directory node are the readable entries' nodes,
      reordered: every directory comes before every file, and nodes of the
      same kind ascend by name. */
  lemma ChildrenOrder(fs: Fs, path: string)
    requires fs.FsDir? && fs.listError.None?
    ensures ReadTree(fs, path).Ok? && ReadTree(fs, path).value.children.Listed?
    ensures var cs := ReadTree(fs, path).value.children.nodes;
      multiset(cs) == multiset(ReadChildren(fs, path, 0))
      && (forall i, j :: 0 <= i < j < |cs| && !cs[i].isDirectory ==> !cs[j].isDirectory)
      && (forall i, j :: 0 <= i < j < |cs| && cs[i].isDirectory == cs[j].isDirectory ==> StrLe(cs[i].name, cs[j].name))
  {
    assert ReadTree(fs, path) == Ok(DirNode(fs, path));
    var cs := ReadTree(fs, path).value.children.nodes;
    SortBySorted(ReadChildren(fs, path, 0), ChildKey);
    forall i, j | 0 <= i < j < |cs|
      ensures !cs[i].isDirectory ==> !cs[j].isDirectory
      ensures cs[i].isDirectory == cs[j].isDirectory ==> StrLe(cs[i].name, cs[j].name)
    {
      assert KeyLe(ChildKey(cs[i]), ChildKey(cs[j]));
    }
  }

  /** The nodes `read_dir_recursive` builds: files have no children. */
  predicate WellFormed(n: FileNode)
    decreases n
  {
    (!n.isDirectory ==> n.children.NoChildren?)
    && match n.children
      case NoChildren => true
      case Listed(cs) => forall c :: c in cs ==> WellFormed(c)
  }

  lemma {:induction false} ReadTreeWellFormed(fs: Fs, path: string)
    requires ReadTree(fs, path).Ok?
    ensures WellFormed(ReadTree(fs, path).value)
    decreases fs, 1
  {
    if fs.FsDir? {
      var raw := ReadChildren(fs, path, 0);
      ReadChildrenWellFormed(fs, path, 0);
      var cs := SortBy(raw, ChildKey);
      forall c | c in cs ensures WellFormed(c) {
        assert c in multiset(cs);
      }
    }
  }

  lemma {:induction false} ReadChildrenWellFormed(fs: Fs, path: string, k: nat)
    requires fs.FsDir? && k <= |fs.entries|
    ensures forall c :: c in ReadChildren(fs, path, k) ==> WellFormed(c)
    decreases fs, 0, |fs.entries| - k
  {
    if k < |fs.entries| {
      var e := fs.entries[k];
      if EntryRead(fs, path, k).Ok? {
        ReadTreeWellFormed(e.node, ChildPath(path, e.name));
      }
      ReadChildrenWellFormed(fs, path, k + 1);
    }
  }

  // ---- reading a file as text ----

  const BinaryMessage := "Binary file cannot be displayed as text"

  /** The first read fills at most 1024 bytes. */
  function FirstChunk(bytes: seq<bv8>): (r: seq<bv8>)
    ensures |r| <= 1024 && |r| <= |bytes| && r == bytes[..|r|]
    ensures |r| == |bytes| || |r| == 1024
  {
    if |bytes| <= 1024 then bytes else bytes[..1024]
  }

  /** `read_file_content`: `file` is the file's bytes or the error opening
      or reading it, `decode` is `read_to_string`'s UTF-8 decoding. */
  function ReadFileContent(file: Result<seq<bv8>>, decode: seq<bv8> -> Result<string>): Result<string> {
    match file
    case Err(e) => Err(e)
    case Ok(bytes) => if 0 in FirstChunk(bytes) then Err(BinaryMessage) else decode(bytes)
  }

  /** A zero byte among the first 1024 makes the file binary; without one
      the content is decoded, even when a zero byte comes later. */
  lemma BinaryCheck(bytes: seq<bv8>, decode: seq<bv8> -> Result<string>)
    ensures (exists i :: 0 <= i < |bytes| && i < 1024 && bytes[i] == 0) ==>
      ReadFileContent(Ok(bytes), decode) == Err(BinaryMessage)
    ensures (forall i :: 0 <= i < |bytes| && i < 1024 ==> bytes[i] != 0) ==>
      ReadFileContent(Ok(bytes), decode) == decode(bytes)
  {
    var chunk := FirstChunk(bytes);
    if exists i :: 0 <= i < |bytes| && i < 1024 && bytes[i] == 0 {
      var i :| 0 <= i < |bytes| && i < 1024 && bytes[i] == 0;
      assert chunk[i] == 0;
    }
  }

  // ---- the watcher slot ----

  /** The shared slot holding the active watcher, identified by a number. */
  class WatcherSlot {
    var watcher: Option<nat>

    constructor()
      ensures watcher == None
    {
      watcher := None;
    }

    /** `stop_watching`: the slot is emptied. */
    method StopWatching() returns (r: Result<()>)
      modifies this
      ensures watcher == None && r == Ok(())
    {
      watcher := None;
      return Ok(());
    }

    /** `start_watching`: the slot is emptied first; `create` is the outcome
        of creating the watcher and `watchError` the error of watching the
        path, if any. Only a watcher that watches is installed. */
    method StartWatching(create: Result<nat>, watchError: Option<string>) returns (r: Result<()>)
      modifies this
      ensures create.Err? ==> r == Err(create.error) && watcher == None
      ensures create.Ok? && watchError.Some? ==> r == Err(watchError.value) && watcher == None
      ensures create.Ok? && watchError.None? ==> r == Ok(()) && watcher == Some(create.value)
    {
      var _ := StopWatching();
      if create.Err? {
        return Err(create.error);
      }
      if watchError.Some? {
        return Err(watchError.value);
      }
      watcher := Some(create.value);
      return Ok(());
    }
  }
}
