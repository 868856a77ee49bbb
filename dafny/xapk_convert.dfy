// The XAPK conversion of src-tauri/src/c2u.rs: the version taken from the
// file name, the output directory, the classification of the extracted APK
// files, the clean-up of the temporary directory, and the merging of each
// configuration APK's `lib` directory into the base assets. Directories are
// trees of values; extracting an archive is a parameter that yields its tree.

module XapkConvert {
  import opened Wrappers
  import opened Text

  // ---- file trees ----

  /** A file with its contents, or a directory with its entries in listing order. */
  datatype Node = File(content: string) | Dir(entries: seq<Entry>)
  datatype Entry = Entry(name: string, node: Node)

  /** The node named `name` in a directory listing. */
  function Find(es: seq<Entry>, name: string): (r: Option<Node>)
    ensures r.None? <==> forall i :: 0 <= i < |es| ==> es[i].name != name
  {
    if es == [] then None
    else if es[0].name == name then Some(es[0].node)
    else Find(es[1..], name)
  }

  /** The listing after writing `n` under `name`: it replaces the entry of
      that name, or is added at the end. */
  function Put(es: seq<Entry>, name: string, n: Node): seq<Entry> {
    if es == [] then [Entry(name, n)]
    else if es[0].name == name then [Entry(name, n)] + es[1..]
    else [es[0]] + Put(es[1..], name, n)
  }

  lemma {:induction false} FindPut(es: seq<Entry>, name: string, n: Node, x: string)
    ensures Find(Put(es, name, n), x) == if x == name then Some(n) else Find(es, x)
  {
    if es != [] && es[0].name != name {
      FindPut(es[1..], name, n, x);
      assert Put(es, name, n)[1..] == Put(es[1..], name, n);
    }
  }

  /** The node at a relative path, if any. */
  function NodeAt(es: seq<Entry>, p: seq<string>): Option<Node>
    decreases p
  {
    if p == [] then None
    else
      match Find(es, p[0])
      case None => None
      case Some(n) =>
        if |p| == 1 then Some(n)
        else
          match n
          case File(_) => None
          case Dir(children) => NodeAt(children, p[1..])
  }

  /** A file at path `p`. */
  predicate FileAt(es: seq<Entry>, p: seq<string>) {
    NodeAt(es, p).Some? && NodeAt(es, p).value.File?
  }

  /** Names within a directory are distinct, at every level, as in any
      directory listing. */
  predicate Wellformed(es: seq<Entry>)
    decreases es
  {
    (forall i, j :: 0 <= i < j < |es| ==> es[i].name != es[j].name)
    && forall i :: 0 <= i < |es| ==> es[i].node.Dir? ==> Wellformed(es[i].node.entries)
  }

  // ---- merging and copying directories ----

  const CopyFailed := "Cannot copy file"
  const ReadFailed := "Cannot read source directory"

  /** Merging the entries of a source directory into a target listing, entry
      by entry in listing order. */
  function MergeAll(source: seq<Entry>, target: seq<Entry>): Result<seq<Entry>>
    decreases source, 0
  {
    if source == [] then Ok(target)
    else
      match MergeEntry(source[0], target)
      case Err(e) => Err(e)
      case Ok(t) => MergeAll(source[1..], t)
  }

  /** One source entry: a file is copied over whatever file has its name (a
      directory of that name makes the copy fail); a directory is merged
      into the target's directory of that name, created when missing. */
  function MergeEntry(e: Entry, target: seq<Entry>): Result<seq<Entry>>
    decreases e, 0
  {
    match e.node
    case File(c) =>
      if Find(target, e.name).Some? && Find(target, e.name).value.Dir? then Err(CopyFailed)
      else Ok(Put(target, e.name, File(c)))
    case Dir(children) =>
      match MergeNode(children, Find(target, e.name).GetOr(Dir([])))
      case Err(err) => Err(err)
      case Ok(n) => Ok(Put(target, e.name, n))
  }

  /** Merging a source directory's entries into a target node: under a file
      nothing can be created, so any entry fails. */
  function MergeNode(source: seq<Entry>, target: Node): Result<Node>
    decreases source, 1
  {
    match target
    case File(_) => if source == [] then Ok(target) else Err(CopyFailed)
    case Dir(es) =>
      match MergeAll(source, es)
      case Err(err) => Err(err)
      case Ok(r) => Ok(Dir(r))
  }

  /** Merging from index `i` on: entry `i`, then the rest. */
  lemma MergeAllStep(source: seq<Entry>, i: nat, es: seq<Entry>)
    requires i < |source|
    ensures MergeAll(source[i..], es) ==
      match MergeEntry(source[i], es)
      case Err(e) => Err(e)
      case Ok(t) => MergeAll(source[i + 1..], t)
  {
    assert source[i..][0] == source[i] && source[i..][1..] == source[i + 1..];
  }

  /** `merge_directories`: the target exists; subdirectories are created
      before they are merged into. */
  method MergeDirectories(source: seq<Entry>, target: Node) returns (r: Result<Node>)
    ensures r == MergeNode(source, target)
    decreases source
  {
    var t := target;
    for i := 0 to |source|
      invariant i > 0 ==> t.Dir?
      invariant MergeNode(source, target) == MergeNode(source[i..], t)
    {
      var e := source[i];
      if t.File? {
        return Err(CopyFailed);
      }
      MergeAllStep(source, i, t.entries);
      var existing := Find(t.entries, e.name);
      match e.node {
        case File(c) =>
          if existing.Some? && existing.value.Dir? {
            return Err(CopyFailed);
          }
          t := Dir(Put(t.entries, e.name, File(c)));
        case Dir(children) =>
          var sub := if existing.Some? then existing.value else Dir([]);
          assert e in source;
          var merged := MergeDirectories(children, sub);
          if merged.Err? {
            return Err(merged.error);
          }
          t := Dir(Put(t.entries, e.name, merged.value));
      }
    }
    return Ok(t);
  }

  /** `copy_dir_recursive`: the target is created when missing and each
      subdirectory is copied by a recursive call, which creates it. Its
      effect is that of a merge. */
  method CopyDirRecursive(source: seq<Entry>, target: Option<Node>) returns (r: Result<Node>)
    ensures r == MergeNode(source, target.GetOr(Dir([])))
    decreases source
  {
    var t := if target.Some? then target.value else Dir([]);
    ghost var start := t;
    for i := 0 to |source|
      invariant i > 0 ==> t.Dir?
      invariant MergeNode(source, start) == MergeNode(source[i..], t)
    {
      var e := source[i];
      if t.File? {
        return Err(CopyFailed);
      }
      MergeAllStep(source, i, t.entries);
      var existing := Find(t.entries, e.name);
      match e.node {
        case File(c) =>
          if existing.Some? && existing.value.Dir? {
            return Err(CopyFailed);
          }
          t := Dir(Put(t.entries, e.name, File(c)));
        case Dir(children) =>
          assert e in source;
          var copied := CopyDirRecursive(children, existing);
          if copied.Err? {
            return Err(copied.error);
          }
          t := Dir(Put(t.entries, e.name, copied.value));
      }
    }
    return Ok(t);
  }

  /** A merge puts every file of the source at its path, and leaves every
      file of the target at a path the source does not name as it was. */
  lemma {:induction false} MergeAllFiles(s: seq<Entry>, t: seq<Entry>, r: seq<Entry>, p: seq<string>)
    requires Wellformed(s) && MergeAll(s, t) == Ok(r)
    ensures FileAt(s, p) ==> NodeAt(r, p) == NodeAt(s, p)
    ensures NodeAt(s, p).None? && FileAt(t, p) ==> NodeAt(r, p) == NodeAt(t, p)
    decreases s, 0
  {
    if s != [] && p != [] {
      var e := s[0];
      var t1 := MergeEntry(e, t).value;
      assert Wellformed(s[1..]) by {
        forall i | 0 <= i < |s[1..]| ensures s[1..][i] == s[i + 1] { }
      }
      MergeEntryFiles(e, t, t1, p);
      MergeAllFiles(s[1..], t1, r, p);
      if p[0] == e.name {
        assert Find(s[1..], p[0]).None?;
        assert NodeAt(s[1..], p).None?;
        assert NodeAt(s, p) == NodeAt([e], p);
      } else {
        assert NodeAt(s, p) == NodeAt(s[1..], p);
      }
    }
  }

  /** The same for one entry, and the entry touches nothing outside its name. */
  lemma {:induction false} MergeEntryFiles(e: Entry, t: seq<Entry>, t1: seq<Entry>, p: seq<string>)
    requires e.node.Dir? ==> Wellformed(e.node.entries)
    requires MergeEntry(e, t) == Ok(t1) && p != []
    ensures p[0] != e.name ==> NodeAt(t1, p) == NodeAt(t, p)
    ensures p[0] == e.name && FileAt([e], p) ==> NodeAt(t1, p) == NodeAt([e], p)
    ensures p[0] == e.name && NodeAt([e], p).None? && FileAt(t, p) ==> NodeAt(t1, p) == NodeAt(t, p)
    decreases e, 1
  {
    var n := match e.node
      case File(c) => File(c)
      case Dir(children) => MergeNode(children, Find(t, e.name).GetOr(Dir([]))).value;
    assert t1 == Put(t, e.name, n);
    FindPut(t, e.name, n, p[0]);
    if p[0] == e.name && |p| > 1 {
      match e.node
      case File(c) =>
      case Dir(children) =>
        var target := Find(t, e.name).GetOr(Dir([]));
        if target.Dir? {
          var r := MergeAll(children, target.entries).value;
          MergeAllFiles(children, target.entries, r, p[1..]);
        }
    }
  }

  // ---- the version and the output directory ----

  const NoFileName := "Cannot get the file name"
  const BadFileName := "File name is not of the form <app_id>@<version>.xapk"
  const BadVersion := "Version is not a directory name"

  /** The second `@`-separated field of the file stem. */
  function Version(stem: string): Result<string> {
    var parts := Split(stem, "@");
    if |parts| < 2 then Err(BadFileName) else Ok(parts[1])
  }

  /** The version exists exactly when the stem holds an `@`, and it is the
      `@`-free run that follows the first `@`. */
  lemma VersionMeaning(stem: string)
    ensures Version(stem).Ok? <==> Contains(stem, "@")
    ensures Version(stem).Ok? ==>
      var v := Version(stem).value;
      !Contains(v, "@") &&
      exists i: nat :: OccursAt(stem, "@", i) && !Contains(stem[..i], "@")
        && IsPrefix(v, stem[i + 1..])
        && (|stem| == i + 1 + |v| || (i + 1 + |v| < |stem| && stem[i + 1 + |v|] == '@'))
  {
    match IndexOf(stem, "@")
    case None =>
    case Some(i) =>
      var rest := stem[i + 1..];
      assert Split(stem, "@")[1] == Split(rest, "@")[0];
      NoAtBefore(stem, i);
      match IndexOf(rest, "@")
      case None =>
        assert Version(stem).value == rest;
      case Some(j) =>
        var v := rest[..j];
        assert Version(stem).value == v;
        NoAtBefore(rest, j);
        assert stem[i + 1 + j] == rest[j];
  }

  /** Nothing before the first occurrence of `@` holds one. */
  lemma NoAtBefore(s: string, i: nat)
    requires IndexOf(s, "@") == Some(i)
    ensures !Contains(s[..i], "@")
  {
    if Contains(s[..i], "@") {
      var k := IndexOf(s[..i], "@").value;
      assert s[..i][k..k + 1] == s[k..k + 1];
      assert OccursAt(s, "@", k);
      assert false;
    }
  }

  /** The directory a path `base` joined with `name` denotes: joining the
      empty name or `.` leaves `base`, and `..` is its parent. */
  function Resolve(base: seq<string>, name: string): seq<string> {
    if name == "" || name == "." then base
    else if name == ".." then (if base == [] then [] else base[..|base| - 1])
    else base + [name]
  }

  /** The output directory as the source computes it, the one it empties
      with `remove_dir_all` when it exists. */
  function OutputDirAsWritten(base: seq<string>, stem: string): Result<seq<string>> {
    match Version(stem)
    case Err(e) => Err(e)
    case Ok(v) => Ok(Resolve(base, v))
  }

  /** With the stem `app@` the directory to be emptied is the chosen output
      directory itself, and with `app@..` it is its parent. */
  lemma EmptyVersionClobbers(base: seq<string>)
    ensures OutputDirAsWritten(base, "app@") == Ok(base)
    ensures base != [] ==> OutputDirAsWritten(base, "app@..") == Ok(base[..|base| - 1])
  {
    VersionEmpty();
    VersionDotDot();
  }

  lemma VersionEmpty()
    ensures Version("app@") == Ok("")
  {
    AtAfterApp("");
    assert "app" + "@" + "" == "app@";
  }

  lemma VersionDotDot()
    ensures Version("app@..") == Ok("..")
  {
    NoAt("..");
    AtAfterApp("..");
    assert "app" + "@" + ".." == "app@..";
  }

  /** A string without the character `@` has no occurrence of `"@"`. */
  lemma NoAt(s: string)
    requires forall i :: 0 <= i < |s| ==> s[i] != '@'
    ensures IndexOf(s, "@") == None
  {
    forall i: nat | i < |s|
      ensures !OccursAt(s, "@", i)
    {
      assert s[i..i + 1] == [s[i]];
    }
  }

  /** `app@rest` splits at its `@` when `rest` has none. */
  lemma AtAfterApp(rest: string)
    requires IndexOf(rest, "@") == None
    ensures Split("app" + "@" + rest, "@") == ["app", rest]
  {
    var s := "app" + "@" + rest;
    assert OccursAt(s, "@", 3) by { assert s[3..4] == "@"; }
    forall k: nat | k < 3 ensures !OccursAt(s, "@", k) {
      assert s[k..k + 1][0] == s[k];
    }
    assert s[..3] == "app" && s[4..] == rest;
  }

  /** A version that names a directory of its own. */
  predicate PlainName(v: string) {
    v != "" && v != "." && v != ".."
  }

  /** The output directory with the version checked first. */
  function OutputDir(base: seq<string>, stem: string): (r: Result<seq<string>>)
    ensures r.Ok? ==> |r.value| == |base| + 1 && r.value[..|base|] == base
  {
    match Version(stem)
    case Err(e) => Err(e)
    case Ok(v) => if PlainName(v) then Ok(base + [v]) else Err(BadVersion)
  }

  /** The checked output directory is the version's own directory inside
      `base`, and it is what the source computes whenever the version is a
      plain name. */
  lemma OutputDirInside(base: seq<string>, stem: string)
    ensures OutputDir(base, stem).Ok? <==> Version(stem).Ok? && PlainName(Version(stem).value)
    ensures OutputDir(base, stem).Ok? ==>
      OutputDir(base, stem) == OutputDirAsWritten(base, stem)
      && OutputDir(base, stem).value[|base|] == Version(stem).value
  {
  }

  // ---- classifying the APK files ----

  const BaseApk := "base_assets.apk"
  const BaseDir := "base_assets"
  const LibDir := "lib"

  predicate IsApk(name: string) {
    IsSuffix(".apk", name)
  }

  predicate IsConfigApk(name: string) {
    IsPrefix("config.", name) && IsSuffix(".apk", name)
  }

  /** What the clean-up keeps. */
  predicate ShouldKeep(name: string) {
    name == BaseApk || IsConfigApk(name)
  }

  /** The APK files found, the base APK and the configuration APKs, in
      listing order. */
  datatype Classified = Classified(apks: seq<string>, base: Option<string>, configs: seq<string>)

  function ClassifyStep(c: Classified, e: Entry): Classified {
    if !e.node.File? || !IsApk(e.name) then c
    else
      Classified(c.apks + [e.name],
                 if e.name == BaseApk then Some(e.name) else c.base,
                 if e.name != BaseApk && IsConfigApk(e.name) then c.configs + [e.name] else c.configs)
  }

  function Classify(es: seq<Entry>): Classified {
    if es == [] then Classified([], None, [])
    else ClassifyStep(Classify(es[..|es| - 1]), es[|es| - 1])
  }

  /** The classification loop over the temporary directory. */
  method ClassifyApks(es: seq<Entry>) returns (apks: seq<string>, base: Option<string>, configs: seq<string>)
    ensures Classified(apks, base, configs) == Classify(es)
  {
    apks, base, configs := [], None, [];
    for i := 0 to |es|
      invariant Classified(apks, base, configs) == Classify(es[..i])
    {
      assert es[..i + 1][..i] == es[..i];
      var e := es[i];
      if e.node.File? && IsSuffix(".apk", e.name) {
        apks := apks + [e.name];
        if e.name == BaseApk {
          base := Some(e.name);
        } else if IsPrefix("config.", e.name) && IsSuffix(".apk", e.name) {
          configs := configs + [e.name];
        }
      }
    }
    assert es[..|es|] == es;
  }

  /** A regular file of that name. */
  predicate HasFile(es: seq<Entry>, name: string) {
    exists i :: 0 <= i < |es| && es[i].name == name && es[i].node.File?
  }

  /** The APKs are the regular `.apk` files; the base is found exactly when
      `base_assets.apk` is a regular file; the configuration APKs are the
      other regular `config.*.apk` files. */
  lemma ClassifyMeaning(es: seq<Entry>, name: string)
    ensures name in Classify(es).apks <==> HasFile(es, name) && IsApk(name)
    ensures Classify(es).base.Some? <==> HasFile(es, BaseApk)
    ensures Classify(es).base.Some? ==> Classify(es).base.value == BaseApk
    ensures name in Classify(es).configs <==> HasFile(es, name) && IsConfigApk(name) && name != BaseApk
  {
    ApksMeaning(es, name);
    BaseMeaning(es);
    ConfigsMeaning(es, name);
  }

  lemma {:induction false} ApksMeaning(es: seq<Entry>, name: string)
    ensures name in Classify(es).apks <==> HasFile(es, name) && IsApk(name)
  {
    if es != [] {
      var init, e := es[..|es| - 1], es[|es| - 1];
      ApksMeaning(init, name);
      assert es == init + [e];
      HasFileSnoc(init, e, name);
    }
  }

  lemma {:induction false} BaseMeaning(es: seq<Entry>)
    ensures Classify(es).base.Some? <==> HasFile(es, BaseApk)
    ensures Classify(es).base.Some? ==> Classify(es).base.value == BaseApk
  {
    if es != [] {
      var init, e := es[..|es| - 1], es[|es| - 1];
      BaseMeaning(init);
      assert es == init + [e];
      HasFileSnoc(init, e, BaseApk);
      if e.name == BaseApk {
        assert IsApk(e.name) by { assert BaseApk[|BaseApk| - 4..] == ".apk"; }
      }
    }
  }

  lemma {:induction false} ConfigsMeaning(es: seq<Entry>, name: string)
    ensures name in Classify(es).configs <==> HasFile(es, name) && IsConfigApk(name) && name != BaseApk
  {
    if es != [] {
      var init, e := es[..|es| - 1], es[|es| - 1];
      ConfigsMeaning(init, name);
      assert es == init + [e];
      HasFileSnoc(init, e, name);
    }
  }

  lemma HasFileSnoc(init: seq<Entry>, e: Entry, name: string)
    ensures HasFile(init + [e], name) <==> HasFile(init, name) || (e.name == name && e.node.File?)
  {
    var es := init + [e];
    if HasFile(init, name) {
      var i :| 0 <= i < |init| && init[i].name == name && init[i].node.File?;
      assert es[i] == init[i];
    }
    if e.name == name && e.node.File? {
      assert es[|init|] == e;
    }
  }

  /** The entries of `es` whose names pass `keep`, in order. */
  function Retained(es: seq<Entry>, keep: string -> bool): seq<Entry> {
    if es == [] then []
    else Retained(es[..|es| - 1], keep) + (if keep(es[|es| - 1].name) then [es[|es| - 1]] else [])
  }

  /** A clean-up loop: every entry whose name fails `keep` is removed,
      file or directory. */
  method RemoveUnkept(es: seq<Entry>, keep: string -> bool) returns (out: seq<Entry>)
    ensures out == Retained(es, keep)
  {
    out := [];
    for i := 0 to |es|
      invariant out == Retained(es[..i], keep)
    {
      assert es[..i + 1][..i] == es[..i];
      if keep(es[i].name) {
        out := out + [es[i]];
      }
    }
    assert es[..|es|] == es;
  }

  lemma {:induction false} RetainedIff(es: seq<Entry>, keep: string -> bool, e: Entry)
    ensures e in Retained(es, keep) <==> e in es && keep(e.name)
  {
    if es != [] {
      RetainedIff(es[..|es| - 1], keep, e);
      assert es == es[..|es| - 1] + [es[|es| - 1]];
    }
  }

  function KeepApks(): string -> bool {
    name => ShouldKeep(name)
  }

  function KeepBaseDir(): string -> bool {
    name => name == BaseDir
  }

  /** The clean-up keeps the base APK and every configuration APK the
      classification found. */
  lemma CleanupKeepsFound(es: seq<Entry>, name: string)
    requires name in Classify(es).configs || Classify(es).base == Some(name)
    ensures HasFile(Retained(es, KeepApks()), name)
  {
    ClassifyMeaning(es, name);
    var i :| 0 <= i < |es| && es[i].name == name && es[i].node.File?;
    RetainedIff(es, KeepApks(), es[i]);
    var kept := Retained(es, KeepApks());
    var k :| 0 <= k < |kept| && kept[k] == es[i];
  }

  // ---- moving the lib directories ----

  /** One configuration APK: its `lib` directory, when it has one, is merged
      into the base's `lib`, or copied there when the base has none. */
  function LibStep(base: seq<Entry>, config: seq<Entry>): Result<seq<Entry>> {
    match Find(config, LibDir)
    case None => Ok(base)
    case Some(File(_)) => Err(ReadFailed)
    case Some(Dir(children)) =>
      match MergeNode(children, Find(base, LibDir).GetOr(Dir([])))
      case Err(e) => Err(e)
      case Ok(n) => Ok(Put(base, LibDir, n))
  }

  method MoveLib(base: seq<Entry>, config: seq<Entry>) returns (r: Result<seq<Entry>>)
    ensures r == LibStep(base, config)
  {
    var lib := Find(config, LibDir);
    if lib.None? {
      return Ok(base);
    }
    if lib.value.File? {
      return Err(ReadFailed);
    }
    var target := Find(base, LibDir);
    var merged;
    if target.Some? {
      merged := MergeDirectories(lib.value.entries, target.value);
    } else {
      merged := CopyDirRecursive(lib.value.entries, None);
    }
    if merged.Err? {
      return Err(merged.error);
    }
    r := Ok(Put(base, LibDir, merged.value));
  }

  /** After a step every file of the configuration's `lib` is in the base's
      `lib`, and the base's other files are as they were. */
  lemma LibStepFiles(base: seq<Entry>, config: seq<Entry>, p: seq<string>)
    requires Wellformed(config)
    requires LibStep(base, config).Ok?
    ensures FileAt(config, [LibDir] + p) ==> NodeAt(LibStep(base, config).value, [LibDir] + p) == NodeAt(config, [LibDir] + p)
    ensures p != [] && p[0] != LibDir ==> NodeAt(LibStep(base, config).value, p) == NodeAt(base, p)
  {
    var q := [LibDir] + p;
    assert q[0] == LibDir && q[1..] == p;
    match Find(config, LibDir)
    case None =>
    case Some(lib) =>
      var children := lib.entries;
      var target := Find(base, LibDir).GetOr(Dir([]));
      var n := MergeNode(children, target).value;
      FindPut(base, LibDir, n, LibDir);
      if p != [] {
        FindPut(base, LibDir, n, p[0]);
      }
      var i :| 0 <= i < |config| && config[i].name == LibDir;
      LibIsWellformed(config, i);
      if target.Dir? && p != [] {
        var r := MergeAll(children, target.entries).value;
        MergeAllFiles(children, target.entries, r, p);
      }
  }

  lemma LibIsWellformed(config: seq<Entry>, i: nat)
    requires Wellformed(config) && i < |config| && config[i].name == LibDir
    ensures Find(config, LibDir).Some? && Find(config, LibDir).value.Dir? ==> Wellformed(Find(config, LibDir).value.entries)
    decreases i
  {
    if i > 0 && config[0].name != LibDir {
      assert Wellformed(config[1..]) by {
        forall k | 0 <= k < |config[1..]| ensures config[1..][k] == config[k + 1] { }
      }
      LibIsWellformed(config[1..], i - 1);
    }
  }

  /** The steps over all configuration APKs, in order. */
  function LibsOf(base: seq<Entry>, configs: seq<string>, extract: string -> Result<seq<Entry>>): Result<seq<Entry>>
    decreases |configs|
  {
    if configs == [] then Ok(base)
    else
      match extract(configs[0])
      case Err(e) => Err(e)
      case Ok(tree) =>
        match LibStep(base, tree)
        case Err(e) => Err(e)
        case Ok(b) => LibsOf(b, configs[1..], extract)
  }

  method MoveLibs(base: seq<Entry>, configs: seq<string>, extract: string -> Result<seq<Entry>>)
    returns (r: Result<seq<Entry>>)
    ensures r == LibsOf(base, configs, extract)
  {
    var b := base;
    for i := 0 to |configs|
      invariant LibsOf(base, configs, extract) == LibsOf(b, configs[i..], extract)
    {
      assert configs[i..][1..] == configs[i + 1..];
      var tree := extract(configs[i]);
      if tree.Err? {
        return Err(tree.error);
      }
      var step := MoveLib(b, tree.value);
      if step.Err? {
        return Err(step.error);
      }
      b := step.value;
    }
    return Ok(b);
  }

  // ---- the conversion ----

  const NoInput := "Input file does not exist."
  const NoOutputDir := "Output directory does not exist."
  const NoBase := "base_assets.apk not found; stopping."

  /** The output directory and the temporary directory handed to
      AssetRipper. */
  datatype Prepared = Prepared(outputDir: seq<string>, temp: seq<Entry>)

  /** Everything up to running AssetRipper. */
  function ConvertOf(appExists: bool, outExists: bool, stem: Option<string>, base: seq<string>,
                     xapk: Result<seq<Entry>>, extract: string -> Result<seq<Entry>>): Result<Prepared>
  {
    if !appExists then Err(NoInput)
    else if !outExists then Err(NoOutputDir)
    else if stem.None? then Err(NoFileName)
    else
      match OutputDir(base, stem.value)
      case Err(e) => Err(e)
      case Ok(out) =>
        match xapk
        case Err(e) => Err(e)
        case Ok(temp) =>
          var c := Classify(temp);
          if c.base.None? then Err(NoBase)
          else
            match extract(BaseApk)
            case Err(e) => Err(e)
            case Ok(tree) =>
              match LibsOf(tree, c.configs, extract)
              case Err(e) => Err(e)
              case Ok(b) =>
                var kept := Put(Retained(temp, KeepApks()), BaseDir, Dir(b));
                Ok(Prepared(out, Retained(kept, KeepBaseDir())))
  }

  /** `c2u` up to running AssetRipper: `xapk` is the extracted XAPK and
      `extract` extracts one of its APKs. */
  method Convert(appExists: bool, outExists: bool, stem: Option<string>, base: seq<string>,
                 xapk: Result<seq<Entry>>, extract: string -> Result<seq<Entry>>)
    returns (r: Result<Prepared>)
    ensures r == ConvertOf(appExists, outExists, stem, base, xapk, extract)
  {
    if !appExists {
      return Err(NoInput);
    }
    if !outExists {
      return Err(NoOutputDir);
    }
    if stem.None? {
      return Err(NoFileName);
    }
    var out := OutputDir(base, stem.value);
    if out.Err? {
      return Err(out.error);
    }
    if xapk.Err? {
      return Err(xapk.error);
    }
    var apks, found, configs := ClassifyApks(xapk.value);
    if found.None? {
      return Err(NoBase);
    }
    var temp := RemoveUnkept(xapk.value, KeepApks());
    var tree := extract(BaseApk);
    if tree.Err? {
      return Err(tree.error);
    }
    var merged := MoveLibs(tree.value, configs, extract);
    if merged.Err? {
      return Err(merged.error);
    }
    temp := Put(temp, BaseDir, Dir(merged.value));
    temp := RemoveUnkept(temp, KeepBaseDir());
    r := Ok(Prepared(out.value, temp));
  }

  /** The conversion fails on a missing input or output directory, on a
      stem without `@` and on a missing base APK; when it succeeds the
      output is the version's directory inside `base` and the temporary
      directory holds the base assets alone. */
  lemma ConvertOutcome(appExists: bool, outExists: bool, stem: Option<string>, base: seq<string>,
                       xapk: Result<seq<Entry>>, extract: string -> Result<seq<Entry>>)
    ensures !appExists ==> ConvertOf(appExists, outExists, stem, base, xapk, extract) == Err(NoInput)
    ensures appExists && !outExists ==> ConvertOf(appExists, outExists, stem, base, xapk, extract) == Err(NoOutputDir)
    ensures appExists && outExists && stem.Some? && !Contains(stem.value, "@") ==>
              ConvertOf(appExists, outExists, stem, base, xapk, extract) == Err(BadFileName)
    ensures appExists && outExists && stem.Some? && OutputDir(base, stem.value).Ok?
            && xapk.Ok? && !HasFile(xapk.value, BaseApk) ==>
              ConvertOf(appExists, outExists, stem, base, xapk, extract) == Err(NoBase)
    ensures ConvertOf(appExists, outExists, stem, base, xapk, extract).Ok? ==>
      var p := ConvertOf(appExists, outExists, stem, base, xapk, extract).value;
      stem.Some? && Version(stem.value).Ok? && p.outputDir == base + [Version(stem.value).value]
      && |p.temp| == 1 && p.temp[0].name == BaseDir
  {
    if stem.Some? {
      VersionMeaning(stem.value);
    }
    if xapk.Ok? {
      ClassifyMeaning(xapk.value, BaseApk);
    }
    var r := ConvertOf(appExists, outExists, stem, base, xapk, extract);
    if r.Ok? {
      var temp := xapk.value;
      var b := LibsOf(extract(BaseApk).value, Classify(temp).configs, extract).value;
      var kept := Retained(temp, KeepApks());
      RetainedKept(temp, KeepApks());
      OnlyBaseDir(kept, b);
    }
  }

  /** Once the APKs alone are kept, adding the base assets directory and
      keeping it alone leaves exactly that directory. */
  lemma OnlyBaseDir(kept: seq<Entry>, b: seq<Entry>)
    requires forall i :: 0 <= i < |kept| ==> ShouldKeep(kept[i].name)
    ensures Retained(Put(kept, BaseDir, Dir(b)), KeepBaseDir()) == [Entry(BaseDir, Dir(b))]
  {
    BaseDirNotKept();
    assert forall i :: 0 <= i < |kept| ==> kept[i].name != BaseDir;
    PutAbsent(kept, BaseDir, Dir(b));
    RetainedNone(kept, KeepBaseDir());
    RetainedSnoc(kept, Entry(BaseDir, Dir(b)), KeepBaseDir());
  }

  lemma BaseDirNotKept()
    ensures !ShouldKeep(BaseDir)
  {
    assert BaseDir[|BaseDir| - 4..][3] == 's';
    assert BaseDir[..7][0] == 'b';
  }

  lemma RetainedSnoc(es: seq<Entry>, e: Entry, keep: string -> bool)
    ensures Retained(es + [e], keep) == Retained(es, keep) + (if keep(e.name) then [e] else [])
  {
    var all := es + [e];
    assert all[..|all| - 1] == es;
  }

  /** Writing a name the listing lacks adds it at the end. */
  lemma {:induction false} PutAbsent(es: seq<Entry>, name: string, n: Node)
    requires forall i :: 0 <= i < |es| ==> es[i].name != name
    ensures Put(es, name, n) == es + [Entry(name, n)]
  {
    if es != [] {
      PutAbsent(es[1..], name, n);
    }
  }

  lemma {:induction false} RetainedKept(es: seq<Entry>, keep: string -> bool)
    ensures forall i :: 0 <= i < |Retained(es, keep)| ==> keep(Retained(es, keep)[i].name)
  {
    if es != [] {
      RetainedKept(es[..|es| - 1], keep);
    }
  }

  lemma {:induction false} RetainedNone(es: seq<Entry>, keep: string -> bool)
    requires forall i :: 0 <= i < |es| ==> !keep(es[i].name)
    ensures Retained(es, keep) == []
  {
    if es != [] {
      RetainedNone(es[..|es| - 1], keep);
    }
  }
}
