// The file explorer hook of src/hooks/useFileExplorer.ts: the same state as
// the explorer store, held in React state variables, with three differences
// in the transitions: a load does not record the path it read, a watcher
// that starts clears the error, and a watcher that fails to stop leaves the
// state alone. It also takes a new tree from an `fs-changed` event.

module ExplorerHook {
  import opened Wrappers
  import opened Text
  import opened FileTree
  import opened ExplorerStore

  class FileExplorer {
    var rootPath: string
    var fileTree: Option<FileNode>
    var isWatching: bool
    var selectedPath: string
    var loading: bool
    var error: string
    var lastUpdate: int
    var stats: Stats

    /** Between actions nothing is loading and the statistics are those of
        the tree shown. */
    predicate Valid()
      reads this
    {
      !loading && (fileTree.Some? ==> stats == StatsOf(fileTree.value))
    }

    /** The state after mounting at time `now` (the mount effect leaves
        `isWatching` false). */
    constructor(now: int)
      ensures rootPath == "" && fileTree == None && !isWatching && selectedPath == ""
      ensures !loading && error == "" && lastUpdate == now && stats == Stats(0, 0, 0)
      ensures Valid()
    {
      rootPath := "";
      fileTree := None;
      isWatching := false;
      selectedPath := "";
      loading := false;
      error := "";
      lastUpdate := now;
      stats := Stats(0, 0, 0);
    }

    method SetRootPath(path: string)
      modifies this
      ensures rootPath == path
      ensures fileTree == old(fileTree) && isWatching == old(isWatching) && selectedPath == old(selectedPath)
      ensures loading == old(loading) && error == old(error) && lastUpdate == old(lastUpdate) && stats == old(stats)
    {
      rootPath := path;
    }

    method SetSelectedPath(path: string)
      modifies this
      ensures selectedPath == path
      ensures rootPath == old(rootPath) && fileTree == old(fileTree) && isWatching == old(isWatching)
      ensures loading == old(loading) && error == old(error) && lastUpdate == old(lastUpdate) && stats == old(stats)
    {
      selectedPath := path;
    }

    method ClearError()
      modifies this
      ensures error == ""
      ensures rootPath == old(rootPath) && fileTree == old(fileTree) && isWatching == old(isWatching)
      ensures selectedPath == old(selectedPath) && loading == old(loading)
      ensures lastUpdate == old(lastUpdate) && stats == old(stats)
    {
      error := "";
    }

    /** `updateStats`. */
    method UpdateStats(tree: FileNode)
      modifies this
      ensures stats == StatsOf(tree)
      ensures rootPath == old(rootPath) && fileTree == old(fileTree) && isWatching == old(isWatching)
      ensures selectedPath == old(selectedPath) && loading == old(loading)
      ensures error == old(error) && lastUpdate == old(lastUpdate)
    {
      var c := CalculateStats(tree);
      stats := Stats(c.files, c.dirs - 1, c.size);
    }

    /** The state `loadDirectory` leaves once the back end has answered
        `outcome`. */
    twostate predicate Settled(path: string, outcome: Result<FileNode>, now: int)
      reads this
    {
      isWatching == old(isWatching) && selectedPath == old(selectedPath) && rootPath == old(rootPath) &&
      !loading &&
      match outcome
      case Ok(tree) =>
        fileTree == Some(tree) && lastUpdate == now && stats == StatsOf(tree) && error == ""
      case Err(e) =>
        error == LoadPrefix + e && fileTree == old(fileTree)
        && lastUpdate == old(lastUpdate) && stats == old(stats)
    }

    /** What `loadDirectory(path)` leaves behind: as in the store, except
        that the root path is never changed. */
    twostate predicate Loaded(path: string, found: bool, tree: Result<FileNode>, now: int)
      reads this
    {
      isWatching == old(isWatching) && selectedPath == old(selectedPath) && rootPath == old(rootPath)
      && if IsBlank(path, Js) then
        fileTree == old(fileTree) && loading == old(loading)
        && error == old(error) && lastUpdate == old(lastUpdate) && stats == old(stats)
      else
        Settled(path, Answer(found, tree), now)
    }

    /** `loadDirectory`: `found` and `tree` are the answers of
        `check_path_exists` and `get_file_tree` for `path`, `now` is the time
        of the answer. */
    method LoadDirectory(path: string, found: bool, tree: Result<FileNode>, now: int)
      modifies this
      ensures Loaded(path, found, tree, now)
      ensures old(Valid()) ==> Valid()
    {
      if IsBlank(path, Js) {
        return;
      }
      loading := true;
      error := "";
      if !found {
        Settle(path, Err(PathMissing), now);
      } else {
        Settle(path, tree, now);
      }
    }

    /** The end of `loadDirectory` once the back end has answered
        `outcome`: a tree is installed, or the error is recorded. */
    method Settle(path: string, outcome: Result<FileNode>, now: int)
      modifies this
      ensures isWatching == old(isWatching) && selectedPath == old(selectedPath) && !loading
      ensures outcome.Ok? ==>
        fileTree == Some(outcome.value) && lastUpdate == now
        && stats == StatsOf(outcome.value) && error == old(error)
      ensures outcome.Err? ==>
        error == LoadPrefix + outcome.error && fileTree == old(fileTree)
        && lastUpdate == old(lastUpdate) && stats == old(stats)
      ensures rootPath == old(rootPath)
    {
      match outcome {
        case Err(e) =>
          error := LoadPrefix + e;
        case Ok(t) =>
          fileTree := Some(t);
          lastUpdate := now;
          UpdateStats(t);
      }
      loading := false;
    }

    /** `refreshDirectory`: reloads the root path unless it is empty. */
    method RefreshDirectory(found: bool, tree: Result<FileNode>, now: int)
      modifies this
      ensures rootPath == "" ==> unchanged(this)
      ensures rootPath != "" ==> Loaded(rootPath, found, tree, now)
      ensures old(Valid()) ==> Valid()
    {
      if rootPath != "" {
        LoadDirectory(rootPath, found, tree, now);
      }
    }

    /** `startWatching`: `started` is the outcome of `start_watching` on the
        root path; a blank root path changes nothing. */
    method StartWatching(started: Result<()>)
      modifies this
      ensures IsBlank(old(rootPath), Js) ==> unchanged(this)
      ensures !IsBlank(old(rootPath), Js) && started.Ok? ==> isWatching && error == ""
      ensures !IsBlank(old(rootPath), Js) && started.Err? ==>
        isWatching == old(isWatching) && error == StartPrefix + started.error
      ensures rootPath == old(rootPath) && fileTree == old(fileTree) && selectedPath == old(selectedPath)
      ensures loading == old(loading) && lastUpdate == old(lastUpdate) && stats == old(stats)
    {
      if IsBlank(rootPath, Js) {
        return;
      }
      match started
      case Ok(_) =>
        isWatching := true;
        error := "";
      case Err(e) =>
        error := StartPrefix + e;
    }

    /** `stopWatching`: `stopped` is the outcome of `stop_watching`; a
        failure is only logged. */
    method StopWatching(stopped: Result<()>)
      modifies this
      ensures stopped.Ok? ==> !isWatching
      ensures stopped.Err? ==> unchanged(this)
      ensures rootPath == old(rootPath) && fileTree == old(fileTree) && selectedPath == old(selectedPath)
      ensures loading == old(loading) && error == old(error) && lastUpdate == old(lastUpdate) && stats == old(stats)
    {
      if stopped.Ok? {
        isWatching := false;
      }
    }

    /** The `fs-changed` handler: the event's tree is shown, stamped with
        `now`, and the statistics are recomputed. */
    method OnFsChanged(tree: FileNode, now: int)
      modifies this
      ensures fileTree == Some(tree) && lastUpdate == now && stats == StatsOf(tree)
      ensures rootPath == old(rootPath) && isWatching == old(isWatching) && selectedPath == old(selectedPath)
      ensures loading == old(loading) && error == old(error)
      ensures old(Valid()) ==> Valid()
    {
      fileTree := Some(tree);
      lastUpdate := now;
      UpdateStats(tree);
    }
  }
}
