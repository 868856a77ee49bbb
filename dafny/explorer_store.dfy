// The file explorer store of src/store/fileExplorer/store.ts: the root path,
// the tree read from it, the watching flag, the error text and the aggregate
// statistics of the tree. The answers of the remote calls `check_path_exists`
// and `get_file_tree` are parameters, as is the clock; `Fetch` says what
// they are for a file system of the FileTree model.

module ExplorerStore {
  import opened Wrappers
  import opened Text
  import opened FileTree

  /** What `calculateStats` returns: files, directories and bytes. */
  datatype Counts = Counts(files: nat, dirs: nat, size: nat)

  /** `FileExplorerStats`. */
  datatype Stats = Stats(totalFiles: int, totalDirectories: int, totalSize: int)

  function Plus(a: Counts, b: Counts): Counts {
    Counts(a.files + b.files, a.dirs + b.dirs, a.size + b.size)
  }

  const Zero := Counts(0, 0, 0)

  /** What a node counts for by itself: one file or one directory, and its
      size, 0 when it has none (`node.size || 0`). */
  function Own(n: FileNode): (r: Counts)
    ensures r.files + r.dirs == 1
    ensures r.dirs == 1 <==> n.isDirectory
    ensures r.size == n.size.GetOr(0)
  {
    Counts(if n.isDirectory then 0 else 1, if n.isDirectory then 1 else 0, n.size.GetOr(0))
  }

  // ---- the fold ----

  /** The specification of `calculateStats`: the node's own count plus the
      counts of its children's subtrees. */
  function TreeCounts(n: FileNode): Counts
    decreases n, 1
  {
    if n.children.Listed? then Plus(Own(n), ChildCounts(n, 0)) else Own(n)
  }

  /** The counts of the subtrees of `n`'s children from the `k`th on. */
  function ChildCounts(n: FileNode, k: nat): Counts
    requires n.children.Listed? && k <= |n.children.nodes|
    decreases n, 0, |n.children.nodes| - k
  {
    if k == |n.children.nodes| then Zero
    else Plus(TreeCounts(n.children.nodes[k]), ChildCounts(n, k + 1))
  }

  /** `calculateStats`: the node's own count, then each child's subtree
      added in turn. */
  method CalculateStats(node: FileNode) returns (c: Counts)
    ensures c == TreeCounts(node)
    decreases node
  {
    c := Own(node);
    if node.children.Listed? {
      var k := 0;
      while k < |node.children.nodes|
        invariant 0 <= k <= |node.children.nodes|
        invariant Plus(c, ChildCounts(node, k)) == TreeCounts(node)
      {
        var child := CalculateStats(node.children.nodes[k]);
        c := Plus(c, child);
        k := k + 1;
      }
    }
  }

  // ---- the fold against the list of all nodes ----

  /** Every node of the tree, the root first, then each child's subtree. */
  function Nodes(n: FileNode): seq<FileNode>
    decreases n, 1
  {
    [n] + (if n.children.Listed? then ChildNodes(n, 0) else [])
  }

  function ChildNodes(n: FileNode, k: nat): seq<FileNode>
    requires n.children.Listed? && k <= |n.children.nodes|
    decreases n, 0, |n.children.nodes| - k
  {
    if k == |n.children.nodes| then [] else Nodes(n.children.nodes[k]) + ChildNodes(n, k + 1)
  }

  /** The counts of a list of nodes, each counted by itself. */
  function Tally(ns: seq<FileNode>): (r: Counts)
  {
    if ns == [] then Zero else Plus(Own(ns[0]), Tally(ns[1..]))
  }

  lemma {:induction false} TallyAppend(a: seq<FileNode>, b: seq<FileNode>)
    ensures Tally(a + b) == Plus(Tally(a), Tally(b))
  {
    if a != [] {
      assert (a + b)[1..] == a[1..] + b;
      TallyAppend(a[1..], b);
    } else {
      assert a + b == b;
    }
  }

  /** Every node is a file or a directory, never both. */
  lemma {:induction false} TallyTotal(ns: seq<FileNode>)
    ensures Tally(ns).files + Tally(ns).dirs == |ns|
  {
    if ns != [] {
      TallyTotal(ns[1..]);
    }
  }

  /** The fold counts each node of the tree once: `files` is the number of
      nodes that are not directories, `dirs` the number of directories and
      `size` the sum of all sizes. */
  lemma {:induction false} TreeCountsNodes(n: FileNode)
    ensures TreeCounts(n) == Tally(Nodes(n))
    decreases n, 1
  {
    assert Tally([n]) == Own(n);
    if n.children.Listed? {
      ChildCountsNodes(n, 0);
      TallyAppend([n], ChildNodes(n, 0));
    } else {
      assert Nodes(n) == [n];
    }
  }

  lemma {:induction false} ChildCountsNodes(n: FileNode, k: nat)
    requires n.children.Listed? && k <= |n.children.nodes|
    ensures ChildCounts(n, k) == Tally(ChildNodes(n, k))
    decreases n, 0, |n.children.nodes| - k
  {
    if k < |n.children.nodes| {
      TreeCountsNodes(n.children.nodes[k]);
      ChildCountsNodes(n, k + 1);
      TallyAppend(Nodes(n.children.nodes[k]), ChildNodes(n, k + 1));
    }
  }

  // ---- the statistics ----

  /** `updateStats`: the root directory is not counted among the directories. */
  function StatsOf(tree: FileNode): Stats {
    var c := TreeCounts(tree);
    Stats(c.files, c.dirs - 1, c.size)
  }

  /** Files and directories other than the root add up to the number of
      nodes below the root; a directory root gives no negative count. */
  lemma StatsCount(tree: FileNode)
    ensures StatsOf(tree).totalFiles + StatsOf(tree).totalDirectories + 1 == |Nodes(tree)|
    ensures StatsOf(tree).totalFiles == Tally(Nodes(tree)).files
    ensures StatsOf(tree).totalSize == Tally(Nodes(tree)).size
    ensures tree.isDirectory ==> StatsOf(tree).totalDirectories >= 0
  {
    TreeCountsNodes(tree);
    TallyTotal(Nodes(tree));
    if tree.isDirectory {
      assert Nodes(tree)[0] == tree;
      TallyAppend([tree], Nodes(tree)[1..]);
      assert [tree] + Nodes(tree)[1..] == Nodes(tree);
    }
  }

  /** A tree that is a single file (the path was a regular file) reports one
      file, its size, and -1 directories. */
  lemma FileRootStats(tree: FileNode)
    requires !tree.isDirectory && tree.children.NoChildren?
    ensures StatsOf(tree) == Stats(1, -1, tree.size.GetOr(0))
  {
  }

  // ---- the remote calls ----

  const PathMissing := "Path does not exist"

  /** What `loadDirectory` makes of the answers of its two remote calls:
      the missing-path message when `check_path_exists` says no, otherwise
      whatever `get_file_tree` answered. */
  function Answer(found: bool, tree: Result<FileNode>): Result<FileNode> {
    if found then tree else Err(PathMissing)
  }

  /** `Answer` when `check_path_exists` and `get_file_tree` both read the
      file system `fs`: the load fails exactly when the path is missing
      or a directory listing fails, and otherwise it yields the tree
      `read_dir_recursive` builds. */
  function Fetch(fs: Fs, path: string): (r: Result<FileNode>)
    ensures r.Err? <==> fs.FsMissing? || (fs.FsDir? && fs.listError.Some?)
    ensures fs.FsMissing? ==> r == Err(PathMissing)
    ensures r.Ok? ==> r == ReadTree(fs, path) && r.value.path == path && (r.value.isDirectory <==> fs.FsDir?)
  {
    ReadTreeFails(fs, path);
    var t := ReadTree(fs, path);
    if t.Ok? then ReadTreeShape(fs, path); Answer(!fs.FsMissing?, t)
    else Answer(!fs.FsMissing?, t)
  }

  const LoadPrefix := "Failed to read directory: "
  const StartPrefix := "Failed to start watching: "
  const StopPrefix := "Failed to stop watching: "

  class Explorer {
    var rootPath: string
    var fileTree: Option<FileNode>
    var isWatching: bool
    var selectedPath: string
    var loading: bool
    var error: string
    var lastUpdate: int
    var stats: Stats

    /** Between actions nothing is loading and the statistics are those of
        the tree shown. */
    predicate Valid()
      reads this
    {
      !loading && (fileTree.Some? ==> stats == StatsOf(fileTree.value))
    }

    /** The initial state, created at time `now`. */
    constructor(now: int)
      ensures rootPath == "" && fileTree == None && !isWatching && selectedPath == ""
      ensures !loading && error == "" && lastUpdate == now && stats == Stats(0, 0, 0)
      ensures Valid()
    {
      rootPath := "";
      fileTree := None;
      isWatching := false;
      selectedPath := "";
      loading := false;
      error := "";
      lastUpdate := now;
      stats := Stats(0, 0, 0);
    }

    method SetRootPath(path: string)
      modifies this
      ensures rootPath == path
      ensures fileTree == old(fileTree) && isWatching == old(isWatching) && selectedPath == old(selectedPath)
      ensures loading == old(loading) && error == old(error) && lastUpdate == old(lastUpdate) && stats == old(stats)
    {
      rootPath := path;
    }

    method SetSelectedPath(path: string)
      modifies this
      ensures selectedPath == path
      ensures rootPath == old(rootPath) && fileTree == old(fileTree) && isWatching == old(isWatching)
      ensures loading == old(loading) && error == old(error) && lastUpdate == old(lastUpdate) && stats == old(stats)
    {
      selectedPath := path;
    }

    method ClearError()
      modifies this
      ensures error == ""
      ensures rootPath == old(rootPath) && fileTree == old(fileTree) && isWatching == old(isWatching)
      ensures selectedPath == old(selectedPath) && loading == old(loading)
      ensures lastUpdate == old(lastUpdate) && stats == old(stats)
    {
      error := "";
    }

    /** `updateStats`. */
    method UpdateStats(tree: FileNode)
      modifies this
      ensures stats == StatsOf(tree)
      ensures rootPath == old(rootPath) && fileTree == old(fileTree) && isWatching == old(isWatching)
      ensures selectedPath == old(selectedPath) && loading == old(loading)
      ensures error == old(error) && lastUpdate == old(lastUpdate)
    {
      var c := CalculateStats(tree);
      stats := Stats(c.files, c.dirs - 1, c.size);
    }

    /** The state `loadDirectory` leaves once the back end has answered
        `outcome`. */
    twostate predicate Settled(path: string, outcome: Result<FileNode>, now: int)
      reads this
    {
      isWatching == old(isWatching) && selectedPath == old(selectedPath) &&
      !loading &&
      match outcome
      case Ok(tree) =>
        fileTree == Some(tree) && rootPath == path && lastUpdate == now
        && stats == StatsOf(tree) && error == ""
      case Err(e) =>
        error == LoadPrefix + e && fileTree == old(fileTree) && rootPath == old(rootPath)
        && lastUpdate == old(lastUpdate) && stats == old(stats)
    }

    /** What `loadDirectory(path)` leaves behind: a blank path changes
        nothing; otherwise loading is over, and either the tree, the path,
        the time and the statistics are replaced and the error is cleared,
        or only the error is set. */
    twostate predicate Loaded(path: string, found: bool, tree: Result<FileNode>, now: int)
      reads this
    {
      isWatching == old(isWatching) && selectedPath == old(selectedPath)
      && if IsBlank(path, Js) then
        rootPath == old(rootPath) && fileTree == old(fileTree) && loading == old(loading)
        && error == old(error) && lastUpdate == old(lastUpdate) && stats == old(stats)
      else
        Settled(path, Answer(found, tree), now)
    }

    /** `loadDirectory`: `found` and `tree` are the answers of
        `check_path_exists` and `get_file_tree` for `path`, `now` is the time
        of the answer. */
    method LoadDirectory(path: string, found: bool, tree: Result<FileNode>, now: int)
      modifies this
      ensures Loaded(path, found, tree, now)
      ensures old(Valid()) ==> Valid()
    {
      if IsBlank(path, Js) {
        return;
      }
      loading := true;
      error := "";
      if !found {
        Settle(path, Err(PathMissing), now);
      } else {
        Settle(path, tree, now);
      }
    }

    /** The end of `loadDirectory` once the back end has answered
        `outcome`: a tree is installed, or the error is recorded. */
    method Settle(path: string, outcome: Result<FileNode>, now: int)
      modifies this
      ensures isWatching == old(isWatching) && selectedPath == old(selectedPath) && !loading
      ensures outcome.Ok? ==>
        fileTree == Some(outcome.value) && rootPath == path && lastUpdate == now
        && stats == StatsOf(outcome.value) && error == old(error)
      ensures outcome.Err? ==>
        error == LoadPrefix + outcome.error && fileTree == old(fileTree) && rootPath == old(rootPath)
        && lastUpdate == old(lastUpdate) && stats == old(stats)
    {
      match outcome {
        case Err(e) =>
          error := LoadPrefix + e;
        case Ok(t) =>
          fileTree := Some(t);
          rootPath := path;
          lastUpdate := now;
          UpdateStats(t);
      }
      loading := false;
    }

    /** `refreshDirectory`: reloads the root path unless it is empty. */
    method RefreshDirectory(found: bool, tree: Result<FileNode>, now: int)
      modifies this
      ensures old(rootPath) == "" ==> unchanged(this)
      ensures old(rootPath) != "" ==> Loaded(old(rootPath), found, tree, now)
      ensures old(Valid()) ==> Valid()
    {
      if rootPath != "" {
        LoadDirectory(rootPath, found, tree, now);
      }
    }

    /** `startWatching`: `started` is the outcome of `start_watching` on the
        root path; a blank root path changes nothing. */
    method StartWatching(started: Result<()>)
      modifies this
      ensures IsBlank(old(rootPath), Js) ==> unchanged(this)
      ensures !IsBlank(old(rootPath), Js) && started.Ok? ==> isWatching && error == old(error)
      ensures !IsBlank(old(rootPath), Js) && started.Err? ==>
        isWatching == old(isWatching) && error == StartPrefix + started.error
      ensures rootPath == old(rootPath) && fileTree == old(fileTree) && selectedPath == old(selectedPath)
      ensures loading == old(loading) && lastUpdate == old(lastUpdate) && stats == old(stats)
    {
      if IsBlank(rootPath, Js) {
        return;
      }
      match started
      case Ok(_) =>
        isWatching := true;
      case Err(e) =>
        error := StartPrefix + e;
    }

    /** `stopWatching`: `stopped` is the outcome of `stop_watching`. */
    method StopWatching(stopped: Result<()>)
      modifies this
      ensures stopped.Ok? ==> !isWatching && error == old(error)
      ensures stopped.Err? ==> isWatching == old(isWatching) && error == StopPrefix + stopped.error
      ensures rootPath == old(rootPath) && fileTree == old(fileTree) && selectedPath == old(selectedPath)
      ensures loading == old(loading) && lastUpdate == old(lastUpdate) && stats == old(stats)
    {
      match stopped
      case Ok(_) =>
        isWatching := false;
      case Err(e) =>
        error := StopPrefix + e;
    }
  }
}
