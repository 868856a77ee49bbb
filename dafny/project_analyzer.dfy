// The Unity editor tool of csharp/Editor/ProjectAnalyzer.cs: a snapshot of
// the project's assets, the comparison of two snapshots by asset guid into
// added, removed and modified assets, and the text report of a comparison.
// The asset database, the JSON files and the dialogs are parameters or are
// left out.

module ProjectAnalyzer {
  import opened Wrappers
  import opened Text

  /** `AssetInfo`. */
  datatype AssetInfo = AssetInfo(path: string, guid: string, kind: string, fileSize: int)

  // ---- exporting a snapshot ----

  const AssetsPrefix := "Assets/"

  /** The asset paths the export keeps, in database order. */
  function ExportedPaths(all: seq<string>): (r: seq<string>)
    ensures |r| <= |all|
  {
    if all == [] then []
    else
      var last := all[|all| - 1];
      ExportedPaths(all[..|all| - 1]) + (if IsPrefix(AssetsPrefix, last) then [last] else [])
  }

  /** The export keeps exactly the paths under `Assets/`. */
  lemma {:induction false} ExportedIff(all: seq<string>, p: string)
    ensures p in ExportedPaths(all) <==> p in all && IsPrefix(AssetsPrefix, p)
  {
    if all != [] {
      var init := all[..|all| - 1];
      ExportedIff(init, p);
      assert all == init + [all[|all| - 1]];
    }
  }

  /** The record of one path: its guid, the name of its main asset type
      ("Unknown" when there is none) and its size (0 when the file is
      missing). */
  function Describe(path: string, guidOf: string -> string, typeOf: string -> Option<string>,
                    sizeOf: string -> Option<int>): (a: AssetInfo)
    ensures a.path == path && a.guid == guidOf(path)
    ensures typeOf(path).Some? ==> a.kind == typeOf(path).value
    ensures typeOf(path).None? ==> a.kind == "Unknown"
    ensures sizeOf(path).Some? ==> a.fileSize == sizeOf(path).value
    ensures sizeOf(path).None? ==> a.fileSize == 0
  {
    AssetInfo(path, guidOf(path), typeOf(path).GetOr("Unknown"), sizeOf(path).GetOr(0))
  }

  /** `ExportProjectToJson` up to the JSON text: the assets of the snapshot. */
  method ExportProject(all: seq<string>, guidOf: string -> string, typeOf: string -> Option<string>,
                       sizeOf: string -> Option<int>)
    returns (assets: seq<AssetInfo>)
    ensures |assets| == |ExportedPaths(all)|
    ensures forall k :: 0 <= k < |assets| ==> assets[k] == Describe(ExportedPaths(all)[k], guidOf, typeOf, sizeOf)
  {
    var paths := ExportedPaths(all);
    assets := [];
    for i := 0 to |paths|
      invariant |assets| == i
      invariant forall k :: 0 <= k < i ==> assets[k] == Describe(paths[k], guidOf, typeOf, sizeOf)
    {
      var path := paths[i];
      var kind := typeOf(path);
      var size := sizeOf(path);
      assets := assets + [AssetInfo(path, guidOf(path), if kind.Some? then kind.value else "Unknown",
                                    if size.Some? then size.value else 0)];
    }
  }

  /** Every asset of an export lies under `Assets/`. */
  lemma ExportUnderAssets(all: seq<string>, guidOf: string -> string, typeOf: string -> Option<string>,
                          sizeOf: string -> Option<int>, assets: seq<AssetInfo>, k: nat)
    requires |assets| == |ExportedPaths(all)| && k < |assets|
    requires assets[k] == Describe(ExportedPaths(all)[k], guidOf, typeOf, sizeOf)
    ensures IsPrefix(AssetsPrefix, assets[k].path) && assets[k].path in all
  {
    ExportedIff(all, ExportedPaths(all)[k]);
  }

  // ---- the guid dictionaries ----

  const DuplicateKey := "An item with the same key has already been added."

  /** No two assets share a guid. */
  predicate UniqueGuids(assets: seq<AssetInfo>) {
    forall i, j :: 0 <= i < j < |assets| ==> assets[i].guid != assets[j].guid
  }

  /** `ToDictionary(a => a.guid)`, which throws on a repeated guid. */
  function ToDictionary(assets: seq<AssetInfo>): Result<map<string, AssetInfo>> {
    if assets == [] then Ok(map[])
    else
      var last := assets[|assets| - 1];
      match ToDictionary(assets[..|assets| - 1])
      case Err(e) => Err(e)
      case Ok(m) => if last.guid in m then Err(DuplicateKey) else Ok(m[last.guid := last])
  }

  /** The dictionary exists exactly when the guids are unique, and then maps
      each guid to its asset and holds no other key. */
  lemma Dictionary(assets: seq<AssetInfo>)
    ensures ToDictionary(assets).Ok? <==> UniqueGuids(assets)
    ensures ToDictionary(assets).Ok? ==>
      var m := ToDictionary(assets).value;
      (forall k :: 0 <= k < |assets| ==> assets[k].guid in m && m[assets[k].guid] == assets[k])
      && (forall g :: g in m ==> exists k :: 0 <= k < |assets| && assets[k].guid == g)
  {
    DictionaryOk(assets);
    if ToDictionary(assets).Ok? {
      DictionaryMaps(assets);
    }
  }

  lemma {:induction false} DictionaryMaps(assets: seq<AssetInfo>)
    requires ToDictionary(assets).Ok?
    ensures var m := ToDictionary(assets).value;
      (forall k :: 0 <= k < |assets| ==> assets[k].guid in m && m[assets[k].guid] == assets[k])
      && (forall g :: g in m ==> exists k :: 0 <= k < |assets| && assets[k].guid == g)
  {
    if assets != [] {
      var n := |assets| - 1;
      var init := assets[..n];
      DictionaryMaps(init);
      assert forall k :: 0 <= k < n ==> assets[k] == init[k];
      var m := ToDictionary(init).value;
      assert ToDictionary(assets).value == m[assets[n].guid := assets[n]];
    }
  }

  lemma {:induction false} DictionaryOk(assets: seq<AssetInfo>)
    ensures ToDictionary(assets).Ok? <==> UniqueGuids(assets)
  {
    if assets != [] {
      var n := |assets| - 1;
      var init := assets[..n];
      DictionaryOk(init);
      UniqueSnoc(init, assets[n]);
      assert assets == init + [assets[n]];
      if ToDictionary(init).Ok? {
        DictionaryMaps(init);
      }
    }
  }

  lemma UniqueSnoc(init: seq<AssetInfo>, a: AssetInfo)
    ensures UniqueGuids(init + [a]) <==>
      UniqueGuids(init) && forall k :: 0 <= k < |init| ==> init[k].guid != a.guid
  {
    var s := init + [a];
    assert forall k :: 0 <= k < |init| ==> s[k] == init[k];
    assert s[|init|] == a;
  }

  // ---- comparing snapshots ----

  /** The assets of `s` that pass `p`, in order. */
  function Keep(s: seq<AssetInfo>, p: AssetInfo -> bool): (r: seq<AssetInfo>)
    ensures |r| <= |s|
  {
    if s == [] then []
    else Keep(s[..|s| - 1], p) + (if p(s[|s| - 1]) then [s[|s| - 1]] else [])
  }

  lemma {:induction false} KeepIff(s: seq<AssetInfo>, p: AssetInfo -> bool, a: AssetInfo)
    ensures a in Keep(s, p) <==> a in s && p(a)
  {
    if s != [] {
      KeepIff(s[..|s| - 1], p, a);
      assert s == s[..|s| - 1] + [s[|s| - 1]];
    }
  }

  /** Two tests that never both hold keep at most the whole sequence. */
  lemma {:induction false} KeepBoth(s: seq<AssetInfo>, p: AssetInfo -> bool, q: AssetInfo -> bool)
    requires forall a :: !(p(a) && q(a))
    ensures |Keep(s, p)| + |Keep(s, q)| <= |s|
  {
    if s != [] {
      KeepBoth(s[..|s| - 1], p, q);
    }
  }

  function IsAdded(oldDict: map<string, AssetInfo>): AssetInfo -> bool {
    (a: AssetInfo) => a.guid !in oldDict
  }

  function IsRemoved(currentDict: map<string, AssetInfo>): AssetInfo -> bool {
    (a: AssetInfo) => a.guid !in currentDict
  }

  function IsModified(oldDict: map<string, AssetInfo>): AssetInfo -> bool {
    (a: AssetInfo) => a.guid in oldDict && (a.fileSize != oldDict[a.guid].fileSize || a.path != oldDict[a.guid].path)
  }

  /** `ComparisonResult`. */
  datatype Comparison = Comparison(added: seq<AssetInfo>, removed: seq<AssetInfo>, modified: seq<AssetInfo>)

  /** What `CompareSnapshots` computes, or the exception of `ToDictionary`. */
  function CompareOf(previous: seq<AssetInfo>, current: seq<AssetInfo>): Result<Comparison> {
    match ToDictionary(previous)
    case Err(e) => Err(e)
    case Ok(od) =>
      match ToDictionary(current)
      case Err(e) => Err(e)
      case Ok(cd) => Ok(Comparison(Keep(current, IsAdded(od)), Keep(previous, IsRemoved(cd)), Keep(current, IsModified(od))))
  }

  /** One of the three loops: the assets of `s` that pass `p`. */
  method Select(s: seq<AssetInfo>, p: AssetInfo -> bool) returns (r: seq<AssetInfo>)
    ensures r == Keep(s, p)
  {
    r := [];
    for i := 0 to |s|
      invariant r == Keep(s[..i], p)
    {
      assert s[..i + 1][..i] == s[..i];
      if p(s[i]) {
        r := r + [s[i]];
      }
    }
    assert s[..|s|] == s;
  }

  /** `CompareSnapshots(previous, current)`. */
  method CompareSnapshots(previous: seq<AssetInfo>, current: seq<AssetInfo>) returns (r: Result<Comparison>)
    ensures r == CompareOf(previous, current)
  {
    var oldDict := ToDictionary(previous);
    if oldDict.Err? {
      return Err(oldDict.error);
    }
    var currentDict := ToDictionary(current);
    if currentDict.Err? {
      return Err(currentDict.error);
    }
    var added := Select(current, IsAdded(oldDict.value));
    var removed := Select(previous, IsRemoved(currentDict.value));
    var modified := Select(current, IsModified(oldDict.value));
    r := Ok(Comparison(added, removed, modified));
  }

  /** An asset of `s` with guid `g`. */
  predicate HasGuid(s: seq<AssetInfo>, g: string) {
    exists k :: 0 <= k < |s| && s[k].guid == g
  }

  /** The comparison in terms of the snapshots: it succeeds exactly when
      both have unique guids; added are the current assets whose guid is
      new, removed the previous assets whose guid is gone, modified the current
      assets whose previous namesake differs in size or path. */
  lemma CompareMeaning(previous: seq<AssetInfo>, current: seq<AssetInfo>, a: AssetInfo)
    ensures CompareOf(previous, current).Ok? <==> UniqueGuids(previous) && UniqueGuids(current)
    ensures CompareOf(previous, current).Ok? ==>
      var c := CompareOf(previous, current).value;
      (a in c.added <==> a in current && !HasGuid(previous, a.guid))
      && (a in c.removed <==> a in previous && !HasGuid(current, a.guid))
      && (a in c.modified <==>
            a in current &&
            exists k :: 0 <= k < |previous| && previous[k].guid == a.guid && (previous[k].fileSize != a.fileSize || previous[k].path != a.path))
  {
    Dictionary(previous);
    Dictionary(current);
    if CompareOf(previous, current).Ok? {
      var od, cd := ToDictionary(previous).value, ToDictionary(current).value;
      KeepIff(current, IsAdded(od), a);
      KeepIff(previous, IsRemoved(cd), a);
      KeepIff(current, IsModified(od), a);
      if a.guid in od {
        var k :| 0 <= k < |previous| && previous[k].guid == a.guid;
        assert od[a.guid] == previous[k];
      }
    }
  }

  /** No asset is both added and modified, and together they are no more
      than the current snapshot. */
  lemma AddedModifiedDisjoint(previous: seq<AssetInfo>, current: seq<AssetInfo>)
    requires CompareOf(previous, current).Ok?
    ensures var c := CompareOf(previous, current).value;
      (forall a :: a in c.added ==> a !in c.modified)
      && |c.added| + |c.modified| <= |current|
  {
    var od := ToDictionary(previous).value;
    forall a | a in CompareOf(previous, current).value.added ensures a !in CompareOf(previous, current).value.modified {
      KeepIff(current, IsAdded(od), a);
      KeepIff(current, IsModified(od), a);
    }
    KeepBoth(current, IsAdded(od), IsModified(od));
  }

  /** An asset present in both snapshots with the same guid, size and path
      is in none of the three lists. */
  lemma UnchangedUnlisted(previous: seq<AssetInfo>, current: seq<AssetInfo>, i: nat, j: nat)
    requires CompareOf(previous, current).Ok?
    requires i < |previous| && j < |current|
    requires previous[i].guid == current[j].guid && previous[i].fileSize == current[j].fileSize && previous[i].path == current[j].path
    ensures var c := CompareOf(previous, current).value;
      current[j] !in c.added && current[j] !in c.modified && previous[i] !in c.removed
  {
    CompareMeaning(previous, current, current[j]);
    CompareMeaning(previous, current, previous[i]);
    Dictionary(previous);
    var c := CompareOf(previous, current).value;
  }

  // ---- the report ----

  const ReportTitle := "=== PROJECT COMPARISON REPORT ===\n"
  const Shown := 10

  /** One listed asset: its sign, its path, and its type when asked. */
  function EntryLine(a: AssetInfo, sign: string, withType: bool): string {
    "  " + sign + " " + a.path + (if withType then " (" + a.kind + ")" else "")
  }

  function MoreLine(n: nat): string {
    "  ... and " + IntToString(n) + " more"
  }

  /** The entry lines of `assets`, one per asset. */
  function EntryLines(assets: seq<AssetInfo>, sign: string, withType: bool): (r: seq<string>)
    ensures |r| == |assets|
  {
    if assets == [] then []
    else EntryLines(assets[..|assets| - 1], sign, withType) + [EntryLine(assets[|assets| - 1], sign, withType)]
  }

  lemma {:induction false} EntryLinesAt(assets: seq<AssetInfo>, sign: string, withType: bool, k: nat)
    requires k < |assets|
    ensures EntryLines(assets, sign, withType)[k] == EntryLine(assets[k], sign, withType)
  {
    if k < |assets| - 1 {
      EntryLinesAt(assets[..|assets| - 1], sign, withType, k);
    }
  }

  /** The lines of one section: nothing for an empty list; otherwise its
      title, its first ten assets, the count of the rest when there are
      more than ten, and an empty line when `trailer`. */
  function Section(title: string, sign: string, assets: seq<AssetInfo>, withType: bool, trailer: bool): seq<string> {
    if |assets| == 0 then []
    else
      [title]
        + EntryLines(ShownOf(assets), sign, withType)
        + (if |assets| > Shown then [MoreLine(|assets| - Shown)] else [])
        + (if trailer then [""] else [])
  }

  /** A section lists the first ten assets of its list and states how many
      more there are, and an empty list has no section at all. */
  lemma SectionShape(title: string, sign: string, assets: seq<AssetInfo>, withType: bool, trailer: bool, k: nat)
    ensures var r := Section(title, sign, assets, withType, trailer);
      && (|assets| == 0 ==> r == [])
      && (|assets| > 0 ==>
            |r| == 1 + (if |assets| < Shown then |assets| else Shown)
                     + (if |assets| > Shown then 1 else 0) + (if trailer then 1 else 0)
            && r[0] == title)
      && (k < |assets| && k < Shown ==> r[1 + k] == EntryLine(assets[k], sign, withType))
      && (|assets| > Shown ==> r[1 + Shown] == MoreLine(|assets| - Shown))
  {
    if |assets| > 0 {
      SectionSize(title, sign, assets, withType, trailer);
      if k < |assets| && k < Shown {
        SectionEntry(title, sign, assets, withType, trailer, k);
      }
      if |assets| > Shown {
        SectionMore(title, sign, assets, withType, trailer);
      }
    }
  }

  function ShownOf(assets: seq<AssetInfo>): seq<AssetInfo> {
    if |assets| < Shown then assets else assets[..Shown]
  }

  lemma SectionSize(title: string, sign: string, assets: seq<AssetInfo>, withType: bool, trailer: bool)
    requires |assets| > 0
    ensures var r := Section(title, sign, assets, withType, trailer);
      |r| == 1 + |ShownOf(assets)| + (if |assets| > Shown then 1 else 0) + (if trailer then 1 else 0)
      && r[0] == title
  {
  }

  lemma SectionEntry(title: string, sign: string, assets: seq<AssetInfo>, withType: bool, trailer: bool, k: nat)
    requires k < |assets| && k < Shown
    ensures Section(title, sign, assets, withType, trailer)[1 + k] == EntryLine(assets[k], sign, withType)
  {
    var shown := ShownOf(assets);
    var lines := EntryLines(shown, sign, withType);
    var rest := (if |assets| > Shown then [MoreLine(|assets| - Shown)] else []) + (if trailer then [""] else []);
    assert Section(title, sign, assets, withType, trailer) == [title] + lines + rest;
    EntryLinesAt(shown, sign, withType, k);
    assert ([title] + lines)[1 + k] == lines[k];
  }

  lemma SectionMore(title: string, sign: string, assets: seq<AssetInfo>, withType: bool, trailer: bool)
    requires |assets| > Shown
    ensures Section(title, sign, assets, withType, trailer)[1 + Shown] == MoreLine(|assets| - Shown)
  {
    var head := [title] + EntryLines(assets[..Shown], sign, withType);
    var more := [MoreLine(|assets| - Shown)];
    var tail := if trailer then [""] else [];
    assert Section(title, sign, assets, withType, trailer) == head + more + tail;
    assert (head + more)[|head|] == more[0];
  }

  /** The title and the three counts. */
  function ReportHeader(c: Comparison): seq<string> {
    [ReportTitle,
     "Added Assets: " + IntToString(|c.added|),
     "Removed Assets: " + IntToString(|c.removed|),
     "Modified Assets: " + IntToString(|c.modified|) + "\n"]
  }

  /** The lines `CompareProjects` appends to its report. */
  function ReportLines(c: Comparison): seq<string> {
    ReportHeader(c)
      + Section("--- ADDED ---", "+", c.added, true, true)
      + Section("--- REMOVED ---", "-", c.removed, true, true)
      + Section("--- MODIFIED ---", "*", c.modified, false, false)
  }

  /** Appending the entry lines of `assets`. */
  method AppendEntries(lines: seq<string>, assets: seq<AssetInfo>, sign: string, withType: bool)
    returns (out: seq<string>)
    ensures out == lines + EntryLines(assets, sign, withType)
  {
    out := lines;
    for k := 0 to |assets|
      invariant out == lines + EntryLines(assets[..k], sign, withType)
    {
      assert assets[..k + 1][..k] == assets[..k];
      out := out + [EntryLine(assets[k], sign, withType)];
    }
    assert assets[..|assets|] == assets;
  }

  /** Appending one section. */
  method AppendSection(lines: seq<string>, title: string, sign: string, assets: seq<AssetInfo>, withType: bool, trailer: bool)
    returns (out: seq<string>)
    ensures out == lines + Section(title, sign, assets, withType, trailer)
  {
    out := lines;
    if |assets| > 0 {
      var shown := if |assets| < Shown then assets else assets[..Shown];
      out := AppendEntries(out + [title], shown, sign, withType);
      var more: seq<string> := [];
      if |assets| > Shown {
        more := [MoreLine(|assets| - Shown)];
        out := out + more;
      }
      var blank: seq<string> := [];
      if trailer {
        blank := [""];
        out := out + blank;
      }
      Regroup(lines, [title], EntryLines(shown, sign, withType), more, blank);
    }
  }

  lemma Regroup(a: seq<string>, b: seq<string>, c: seq<string>, d: seq<string>, e: seq<string>)
    ensures a + b + c + d + e == a + (b + c + d + e)
  {
  }

  /** Building the report of a comparison. */
  method BuildReport(c: Comparison) returns (lines: seq<string>)
    ensures lines == ReportLines(c)
  {
    lines := [ReportTitle];
    lines := lines + ["Added Assets: " + IntToString(|c.added|)];
    lines := lines + ["Removed Assets: " + IntToString(|c.removed|)];
    lines := lines + ["Modified Assets: " + IntToString(|c.modified|) + "\n"];
    assert lines == ReportHeader(c);
    lines := AppendSection(lines, "--- ADDED ---", "+", c.added, true, true);
    lines := AppendSection(lines, "--- REMOVED ---", "-", c.removed, true, true);
    lines := AppendSection(lines, "--- MODIFIED ---", "*", c.modified, false, false);
  }

  const NotFound := "Previous JSON file not found!"

  /** `CompareProjects`: the report of comparing the previous snapshot with
      the current one, the dialog when the previous file is missing, or the
      exception of a repeated guid. */
  method CompareProjects(previousExists: bool, previous: seq<AssetInfo>, current: seq<AssetInfo>)
    returns (r: Result<seq<string>>)
    ensures !previousExists ==> r == Err(NotFound)
    ensures previousExists ==>
      match CompareOf(previous, current)
      case Err(e) => r == Err(e)
      case Ok(c) => r == Ok(ReportLines(c))
  {
    if !previousExists {
      return Err(NotFound);
    }
    var result := CompareSnapshots(previous, current);
    if result.Err? {
      return Err(result.error);
    }
    var lines := BuildReport(result.value);
    r := Ok(lines);
  }
}
