/** `discoverHeroSkins`: from the file names of the unit-image directory to the
    hero's skin list. The two dictionaries the code fills (`skinMap` and
    `groupedSkinMap`) are JavaScript plain objects, so the order in which
    `Object.keys`/`Object.entries` visit them is modelled exactly: keys that are
    array indices come first in ascending numeric order, all other keys follow
    in insertion order. A JavaScript `Set` is a sequence without repeats in
    insertion order. */
module SkinDiscovery {
  import opened Wrappers
  import opened Text
  import opened Sorting
  import opened HeroCatalog

  // ---------------------------------------------------------------------------
  // Dictionaries and sets with insertion order
  // ---------------------------------------------------------------------------

  /** A plain object used as a dictionary: its own keys in insertion order and their values. */
  datatype Dict<V> = Dict(keys: seq<string>, vals: map<string, V>)

  predicate Distinct(s: seq<string>) {
    forall i, j :: 0 <= i < j < |s| ==> s[i] != s[j]
  }

  ghost predicate ValidDict<V>(d: Dict<V>) {
    Distinct(d.keys) && (forall k :: k in d.vals <==> k in d.keys)
  }

  /** `Set.prototype.add`: append unless already present. */
  function SetAdd(xs: seq<string>, x: string): (r: seq<string>)
    ensures forall y :: y in r <==> y in xs || y == x
    ensures Distinct(xs) ==> Distinct(r)
  {
    if x in xs then xs else xs + [x]
  }

  // ---------------------------------------------------------------------------
  // First pass: raw skins (`skinMap`)
  // ---------------------------------------------------------------------------

  /** A raw skin: the colour ids seen for it, and whether its id is `"99"`. */
  datatype RawSkin = RawSkin(colors: seq<string>, isDefault: bool)

  /** Creates the raw skin unless the dictionary already holds it. */
  function EnsureSkin(d: Dict<RawSkin>, skin: string): Dict<RawSkin> {
    if skin in d.vals then d
    else Dict(d.keys + [skin], d.vals[skin := RawSkin([], skin == "99")])
  }

  function AddColor(d: Dict<RawSkin>, skin: string, color: string): Dict<RawSkin>
    requires skin in d.vals
  {
    Dict(d.keys, d.vals[skin := d.vals[skin].(colors := SetAdd(d.vals[skin].colors, color))])
  }

  /** One iteration of the file loop: `.png` names only, the multi-colour
      pattern first, then the single-colour pattern. */
  function ScanFile(d: Dict<RawSkin>, heroId: string, file: string): Dict<RawSkin> {
    if !IsSuffix(".png", file) then d
    else
      match MatchMulti(heroId, file)
      case Some((skin, color)) => AddColor(EnsureSkin(d, skin), skin, color)
      case None =>
        match MatchSingle(heroId, file)
        case Some(skin) => EnsureSkin(d, skin)
        case None => d
  }

  /** The raw skin dictionary after the loop over `files`. */
  function ScanFiles(heroId: string, files: seq<string>): Dict<RawSkin> {
    if files == [] then Dict([], map[])
    else ScanFile(ScanFiles(heroId, files[..|files| - 1]), heroId, files[|files| - 1])
  }

  /** The skin a file name contributes, if any. */
  function FileSkin(heroId: string, file: string): Option<string> {
    if !IsSuffix(".png", file) then None
    else
      match MatchMulti(heroId, file)
      case Some((skin, _)) => Some(skin)
      case None => MatchSingle(heroId, file)
  }

  /** The colour a file name contributes to `skin`, if any. */
  function FileColor(heroId: string, file: string, skin: string): Option<string> {
    if !IsSuffix(".png", file) then None
    else
      match MatchMulti(heroId, file)
      case Some((s, c)) => if s == skin then Some(c) else None
      case None => None
  }

  /** The skin ids the file names yield. */
  function FileSkins(heroId: string, files: seq<string>): set<string> {
    if files == [] then {}
    else
      FileSkins(heroId, files[..|files| - 1])
      + (match FileSkin(heroId, files[|files| - 1]) case Some(s) => {s} case None => {})
  }

  /** The colours the multi-colour file names give to `skin`. */
  function FileColors(heroId: string, files: seq<string>, skin: string): set<string> {
    if files == [] then {}
    else
      FileColors(heroId, files[..|files| - 1], skin)
      + (match FileColor(heroId, files[|files| - 1], skin) case Some(c) => {c} case None => {})
  }

  ghost predicate ValidRaw(d: Dict<RawSkin>) {
    ValidDict(d) && forall k :: k in d.vals ==> Distinct(d.vals[k].colors)
  }

  /** Raw dictionaries as the file loop builds them: valid, and default exactly at `"99"`. */
  ghost predicate GoodRaw(d: Dict<RawSkin>) {
    ValidRaw(d) && forall k :: k in d.vals ==> d.vals[k].isDefault == (k == "99")
  }

  lemma ScanFileGood(d: Dict<RawSkin>, heroId: string, file: string)
    requires GoodRaw(d)
    ensures GoodRaw(ScanFile(d, heroId, file))
  {
    match MatchMulti(heroId, file)
    case Some((skin, color)) =>
      var e := EnsureSkin(d, skin);
      assert GoodRaw(e);
    case None =>
  }

  lemma ScanFileKeys(d: Dict<RawSkin>, heroId: string, file: string, skin: string)
    ensures skin in ScanFile(d, heroId, file).vals <==> skin in d.vals || FileSkin(heroId, file) == Some(skin)
  {
  }

  lemma ScanFileColors(d: Dict<RawSkin>, heroId: string, file: string, skin: string, color: string)
    requires skin in ScanFile(d, heroId, file).vals
    ensures color in ScanFile(d, heroId, file).vals[skin].colors
        <==> (skin in d.vals && color in d.vals[skin].colors) || FileColor(heroId, file, skin) == Some(color)
  {
    match MatchMulti(heroId, file)
    case Some((s, c)) =>
    case None =>
  }

  /** A skin id no file yields has no colours either. */
  lemma {:induction false} ColorsNeedSkin(heroId: string, files: seq<string>, skin: string)
    requires skin !in FileSkins(heroId, files)
    ensures FileColors(heroId, files, skin) == {}
  {
    if files != [] {
      ColorsNeedSkin(heroId, files[..|files| - 1], skin);
    }
  }

  /** The raw dictionary has one entry per skin id the files yield, holding
      exactly the colours the multi-colour names give it, and is flagged
      default exactly when its id is `"99"`. */
  lemma {:induction false} ScanFilesFacts(heroId: string, files: seq<string>)
    ensures GoodRaw(ScanFiles(heroId, files))
    ensures forall skin :: skin in ScanFiles(heroId, files).vals <==> skin in FileSkins(heroId, files)
    ensures forall skin, color :: skin in ScanFiles(heroId, files).vals ==>
      (color in ScanFiles(heroId, files).vals[skin].colors <==> color in FileColors(heroId, files, skin))
  {
    if files != [] {
      var prefix := files[..|files| - 1];
      var f := files[|files| - 1];
      ScanFilesFacts(heroId, prefix);
      var d := ScanFiles(heroId, prefix);
      assert ScanFiles(heroId, files) == ScanFile(d, heroId, f);
      ScanFileGood(d, heroId, f);
      forall skin ensures skin in ScanFiles(heroId, files).vals <==> skin in FileSkins(heroId, files) {
        ScanFileKeys(d, heroId, f, skin);
      }
      forall skin, color | skin in ScanFiles(heroId, files).vals
        ensures color in ScanFiles(heroId, files).vals[skin].colors <==> color in FileColors(heroId, files, skin)
      {
        ScanFileColors(d, heroId, f, skin, color);
        if skin !in d.vals {
          ColorsNeedSkin(heroId, prefix, skin);
        }
        assert FileColors(heroId, files, skin)
            == FileColors(heroId, prefix, skin) + (match FileColor(heroId, f, skin) case Some(c) => {c} case None => {});
      }
    }
  }

  /** `CollectRawSkins`: the file loop of `discoverHeroSkins`, filling `skinMap`. */
  method CollectRawSkins(heroId: string, files: seq<string>) returns (skinMap: Dict<RawSkin>)
    ensures skinMap == ScanFiles(heroId, files)
  {
    skinMap := Dict([], map[]);
    var i := 0;
    while i < |files|
      invariant 0 <= i <= |files|
      invariant skinMap == ScanFiles(heroId, files[..i])
    {
      var file := files[i];
      assert files[..i + 1][..i] == files[..i];
      i := i + 1;
      if !IsSuffix(".png", file) {
        continue;
      }
      var multi := MatchMulti(heroId, file);
      if multi.Some? {
        var (skinId, colorId) := multi.value;
        if skinId !in skinMap.vals {
          skinMap := Dict(skinMap.keys + [skinId], skinMap.vals[skinId := RawSkin([], skinId == "99")]);
        }
        var entry := skinMap.vals[skinId];
        skinMap := Dict(skinMap.keys, skinMap.vals[skinId := entry.(colors := SetAdd(entry.colors, colorId))]);
        continue;
      }
      var single := MatchSingle(heroId, file);
      if single.Some? {
        var skinId := single.value;
        if skinId !in skinMap.vals {
          skinMap := Dict(skinMap.keys + [skinId], skinMap.vals[skinId := RawSkin([], skinId == "99")]);
        }
      }
    }
    assert files[..|files|] == files;
  }

  // ---------------------------------------------------------------------------
  // Key enumeration order of a plain object
  // ---------------------------------------------------------------------------

  /** An array index: the canonical decimal form of an integer below 2^32 - 1. */
  predicate IsArrayIndex(k: string) {
    IsDigitRun(k) && (k[0] != '0' || |k| == 1) && DecValue(k) < 0xFFFF_FFFF
  }

  function IndexKeys(keys: seq<string>): (r: seq<string>)
    ensures forall k :: k in r <==> k in keys && IsArrayIndex(k)
  {
    if keys == [] then []
    else (if IsArrayIndex(keys[0]) then [keys[0]] else []) + IndexKeys(keys[1..])
  }

  function NamedKeys(keys: seq<string>): (r: seq<string>)
    ensures forall k :: k in r <==> k in keys && !IsArrayIndex(k)
  {
    if keys == [] then []
    else (if IsArrayIndex(keys[0]) then [] else [keys[0]]) + NamedKeys(keys[1..])
  }

  /** `parseInt(s, 10)` on a run of digits. */
  function NumValue(s: string): nat {
    if AllDigits(s) then DecValue(s) else 0
  }

  function NumKey(k: string): Key {
    Key(0, NumValue(k), "")
  }

  /** The order of `Object.keys`/`Object.entries` for keys inserted in the order `keys`. */
  function EnumerationOrder(keys: seq<string>): (r: seq<string>)
    ensures forall k :: k in r <==> k in keys
  {
    var idx := SortBy(IndexKeys(keys), NumKey);
    assert forall k :: k in idx <==> k in multiset(IndexKeys(keys));
    idx + NamedKeys(keys)
  }

  /** Every array-index key is enumerated before every other key. */
  lemma IndexKeysFirst(keys: seq<string>, i: nat, j: nat)
    requires i < |EnumerationOrder(keys)| && j < |EnumerationOrder(keys)|
    requires IsArrayIndex(EnumerationOrder(keys)[j]) && !IsArrayIndex(EnumerationOrder(keys)[i])
    ensures j < i
  {
    var idx := SortBy(IndexKeys(keys), NumKey);
    var r := EnumerationOrder(keys);
    var named := NamedKeys(keys);
    assert r == idx + named;
    forall p | 0 <= p < |idx| ensures IsArrayIndex(r[p]) {
      assert r[p] == idx[p];
      assert idx[p] in multiset(idx);
    }
    forall p | |idx| <= p < |r| ensures !IsArrayIndex(r[p]) {
      assert r[p] == named[p - |idx|];
    }
  }

  // ---------------------------------------------------------------------------
  // Second pass: grouping by normalised id (`groupedSkinMap`)
  // ---------------------------------------------------------------------------

  datatype Group = Group(colors: seq<string>, isDefault: bool, isGodSkin: bool)

  /** The id ends in a letter (`/[a-z]$/i`). */
  predicate Lettered(k: string) {
    |k| > 0 && (('a' <= k[|k| - 1] <= 'z') || ('A' <= k[|k| - 1] <= 'Z'))
  }

  /** `skinId.replace(/[a-z]$/i, '')`. */
  function Normalize(k: string): string {
    if Lettered(k) then k[..|k| - 1] else k
  }

  /** The normalised ids of the lettered raw ids (`godSkins`). */
  function GodSkins(keys: seq<string>): set<string> {
    set k | k in keys && Lettered(k) :: Normalize(k)
  }

  /** Adds each of `cs` to the set `acc`, in order. */
  function MergeColors(acc: seq<string>, cs: seq<string>): (r: seq<string>)
    ensures forall c :: c in r <==> c in acc || c in cs
    ensures Distinct(acc) ==> Distinct(r)
    decreases |cs|
  {
    if cs == [] then acc else MergeColors(SetAdd(acc, cs[0]), cs[1..])
  }

  /** One iteration of the grouping loop, for raw id `k`. */
  function GroupStep(g: Dict<Group>, raw: Dict<RawSkin>, gods: set<string>, k: string): Dict<Group>
    requires k in raw.vals
  {
    var n := Normalize(k);
    var g1 := if n in g.vals then g else Dict(g.keys + [n], g.vals[n := Group([], raw.vals[k].isDefault, false)]);
    var e := g1.vals[n].(colors := MergeColors(g1.vals[n].colors, raw.vals[k].colors));
    Dict(g1.keys, g1.vals[n := if n in gods then e.(isGodSkin := true) else e])
  }

  /** The grouping loop over the raw ids in the order `order`. */
  function GroupAll(raw: Dict<RawSkin>, gods: set<string>, order: seq<string>): Dict<Group>
    requires forall k :: k in order ==> k in raw.vals
  {
    if order == [] then Dict([], map[])
    else GroupStep(GroupAll(raw, gods, order[..|order| - 1]), raw, gods, order[|order| - 1])
  }

  lemma GroupAllStep(raw: Dict<RawSkin>, gods: set<string>, order: seq<string>, i: nat)
    requires forall k :: k in order ==> k in raw.vals
    requires i < |order|
    ensures GroupAll(raw, gods, order[..i + 1]) == GroupStep(GroupAll(raw, gods, order[..i]), raw, gods, order[i])
  {
    assert order[..i + 1][..i] == order[..i];
  }

  ghost predicate HasNorm(order: seq<string>, n: string) {
    exists i :: 0 <= i < |order| && Normalize(order[i]) == n
  }

  /** The first raw id in `order` that normalises to `n`. */
  ghost function FirstWith(order: seq<string>, n: string): (k: string)
    requires HasNorm(order, n)
    ensures k in order && Normalize(k) == n
  {
    if Normalize(order[0]) == n then order[0]
    else
      assert HasNorm(order[1..], n) by {
        var i :| 0 <= i < |order| && Normalize(order[i]) == n;
        assert order[1..][i - 1] == order[i];
      }
      FirstWith(order[1..], n)
  }

  lemma {:induction false} FirstWithAt(order: seq<string>, n: string, i: nat)
    requires i < |order| && Normalize(order[i]) == n
    requires forall j :: 0 <= j < i ==> Normalize(order[j]) != n
    ensures FirstWith(order, n) == order[i]
  {
    if i > 0 {
      assert forall j :: 0 <= j < i - 1 ==> order[1..][j] == order[j + 1];
      FirstWithAt(order[1..], n, i - 1);
    }
  }

  ghost predicate GoodGroups(g: Dict<Group>) {
    ValidDict(g) && forall n :: n in g.vals ==> Distinct(g.vals[n].colors)
  }

  lemma GroupStepFacts(g: Dict<Group>, raw: Dict<RawSkin>, gods: set<string>, k: string, n: string, c: string)
    requires k in raw.vals && GoodGroups(g) && Distinct(raw.vals[k].colors)
    ensures GoodGroups(GroupStep(g, raw, gods, k))
    ensures n in GroupStep(g, raw, gods, k).vals <==> n in g.vals || Normalize(k) == n
    ensures n in GroupStep(g, raw, gods, k).vals && n != Normalize(k) ==> GroupStep(g, raw, gods, k).vals[n] == g.vals[n]
    ensures n == Normalize(k) ==>
      var e := GroupStep(g, raw, gods, k).vals[n];
      && (c in e.colors <==> (n in g.vals && c in g.vals[n].colors) || c in raw.vals[k].colors)
      && (e.isGodSkin <==> (n in g.vals && g.vals[n].isGodSkin) || n in gods)
      && e.isDefault == (if n in g.vals then g.vals[n].isDefault else raw.vals[k].isDefault)
  {
  }

  lemma {:induction false} FirstWithSnoc(p: seq<string>, x: string, n: string)
    requires HasNorm(p, n)
    ensures HasNorm(p + [x], n) && FirstWith(p + [x], n) == FirstWith(p, n)
  {
    var i :| 0 <= i < |p| && Normalize(p[i]) == n;
    assert (p + [x])[i] == p[i];
    if Normalize(p[0]) != n {
      assert p[1..][i - 1] == p[i];
      assert (p + [x])[1..] == p[1..] + [x];
      FirstWithSnoc(p[1..], x, n);
    }
  }

  lemma FirstWithLast(p: seq<string>, x: string, n: string)
    requires !HasNorm(p, n) && Normalize(x) == n
    ensures HasNorm(p + [x], n) && FirstWith(p + [x], n) == x
  {
    var o := p + [x];
    assert o[|p|] == x;
    forall j | 0 <= j < |p| ensures Normalize(o[j]) != n {
      assert o[j] == p[j];
    }
    FirstWithAt(o, n, |p|);
  }

  ghost predicate GoodOrder(raw: Dict<RawSkin>, order: seq<string>) {
    forall k :: k in order ==> k in raw.vals && Distinct(raw.vals[k].colors)
  }

  lemma HasNormSnoc(p: seq<string>, x: string, n: string)
    ensures HasNorm(p + [x], n) <==> HasNorm(p, n) || Normalize(x) == n
  {
    var o := p + [x];
    assert o[|p|] == x;
    assert forall j :: 0 <= j < |p| ==> o[j] == p[j];
  }

  /** Some raw id of `order` normalising to `n` has colour `c`. */
  ghost predicate ColorFrom(raw: Dict<RawSkin>, order: seq<string>, n: string, c: string)
    requires forall k :: k in order ==> k in raw.vals
  {
    exists i :: 0 <= i < |order| && Normalize(order[i]) == n && c in raw.vals[order[i]].colors
  }

  lemma ColorFromSnoc(raw: Dict<RawSkin>, p: seq<string>, x: string, n: string, c: string)
    requires forall k :: k in p + [x] ==> k in raw.vals
    ensures ColorFrom(raw, p + [x], n, c) <==> ColorFrom(raw, p, n, c) || (Normalize(x) == n && c in raw.vals[x].colors)
  {
    var o := p + [x];
    assert o[|p|] == x;
    assert forall j :: 0 <= j < |p| ==> o[j] == p[j];
  }

  /** The grouped dictionary is valid and has one group per normalised id. */
  lemma {:induction false} GroupAllKeys(raw: Dict<RawSkin>, gods: set<string>, order: seq<string>)
    requires GoodOrder(raw, order)
    ensures GoodGroups(GroupAll(raw, gods, order))
    ensures forall n :: n in GroupAll(raw, gods, order).vals <==> HasNorm(order, n)
  {
    if order != [] {
      var p := order[..|order| - 1];
      var x := order[|order| - 1];
      assert order == p + [x];
      GroupAllKeys(raw, gods, p);
      var g := GroupAll(raw, gods, p);
      GroupStepFacts(g, raw, gods, x, "", "");
      forall n ensures n in GroupAll(raw, gods, order).vals <==> HasNorm(order, n) {
        GroupStepFacts(g, raw, gods, x, n, "");
        HasNormSnoc(p, x, n);
      }
    }
  }

  /** A group's colours are the union of the colours of the raw ids that normalise to it. */
  lemma {:induction false} GroupAllColors(raw: Dict<RawSkin>, gods: set<string>, order: seq<string>, n: string, c: string)
    requires GoodOrder(raw, order)
    requires n in GroupAll(raw, gods, order).vals
    ensures c in GroupAll(raw, gods, order).vals[n].colors <==> ColorFrom(raw, order, n, c)
  {
    var p := order[..|order| - 1];
    var x := order[|order| - 1];
    assert order == p + [x];
    var g := GroupAll(raw, gods, p);
    GroupAllKeys(raw, gods, p);
    GroupStepFacts(g, raw, gods, x, n, c);
    ColorFromSnoc(raw, p, x, n, c);
    if n in g.vals {
      GroupAllColors(raw, gods, p, n, c);
    } else {
      assert !ColorFrom(raw, p, n, c);
    }
  }
  /** A group is a god skin exactly when its id is among `gods`, and its default
      flag is that of the first raw id of the group. */
  lemma {:induction false} GroupAllFlags(raw: Dict<RawSkin>, gods: set<string>, order: seq<string>, n: string)
    requires GoodOrder(raw, order)
    requires n in GroupAll(raw, gods, order).vals
    ensures HasNorm(order, n)
    ensures GroupAll(raw, gods, order).vals[n].isGodSkin <==> n in gods
    ensures GroupAll(raw, gods, order).vals[n].isDefault == raw.vals[FirstWith(order, n)].isDefault
  {
    var p := order[..|order| - 1];
    var x := order[|order| - 1];
    assert order == p + [x];
    var g := GroupAll(raw, gods, p);
    GroupAllKeys(raw, gods, p);
    GroupAllKeys(raw, gods, order);
    GroupStepFacts(g, raw, gods, x, n, "");
    if HasNorm(p, n) {
      GroupAllFlags(raw, gods, p, n);
      FirstWithSnoc(p, x, n);
    } else {
      FirstWithLast(p, x, n);
    }
  }

  lemma {:induction false} FirstWithMinimal(order: seq<string>, n: string)
    requires HasNorm(order, n)
    ensures exists i :: (0 <= i < |order| && order[i] == FirstWith(order, n)
                         && forall j :: 0 <= j < i ==> Normalize(order[j]) != n)
  {
    if Normalize(order[0]) != n {
      assert HasNorm(order[1..], n) by {
        var i :| 0 <= i < |order| && Normalize(order[i]) == n;
        assert order[1..][i - 1] == order[i];
      }
      FirstWithMinimal(order[1..], n);
      var i :| 0 <= i < |order[1..]| && order[1..][i] == FirstWith(order[1..], n)
        && forall j :: 0 <= j < i ==> Normalize(order[1..][j]) != n;
      assert order[i + 1] == FirstWith(order, n);
      forall j | 0 <= j < i + 1 ensures Normalize(order[j]) != n {
        if j > 0 { assert order[j] == order[1..][j - 1]; }
      }
    } else {
      assert order[0] == FirstWith(order, n);
    }
  }

  // ---------------------------------------------------------------------------
  // Output: skins with sorted colours, default skins first
  // ---------------------------------------------------------------------------

  datatype HeroSkin = HeroSkin(id: string, name: string, isDefault: bool, isGodSkin: bool,
                               colors: Option<seq<string>>, selectedColor: Option<string>)

  /** Colours ascend by integer value. */
  function ColorKey(c: string): Key {
    Key(0, NumValue(c), "")
  }

  /** Default skins first, then ascending by integer value of the id. */
  function SkinKey(s: HeroSkin): Key {
    Key(if s.isDefault then 0 else 1, NumValue(s.id), "")
  }

  function ToHeroSkin(id: string, g: Group): HeroSkin {
    var cs := SortBy(g.colors, ColorKey);
    HeroSkin(id, if g.isDefault then "Default" else "Skin " + id, g.isDefault, g.isGodSkin,
             if |cs| > 0 then Some(cs) else None,
             if |cs| > 0 then Some(cs[0]) else None)
  }

  /** `Object.entries(groupedSkinMap).map(...)` for entries visited in `order`. */
  function ToSkins(g: Dict<Group>, order: seq<string>): seq<HeroSkin>
    requires forall k :: k in order ==> k in g.vals
  {
    if order == [] then []
    else ToSkins(g, order[..|order| - 1]) + [ToHeroSkin(order[|order| - 1], g.vals[order[|order| - 1]])]
  }

  lemma ToSkinsStep(g: Dict<Group>, order: seq<string>, k: nat)
    requires forall k :: k in order ==> k in g.vals
    requires k < |order|
    ensures ToSkins(g, order[..k + 1]) == ToSkins(g, order[..k]) + [ToHeroSkin(order[k], g.vals[order[k]])]
  {
    assert order[..k + 1][..k] == order[..k];
  }

  function GroupSkins(raw: Dict<RawSkin>): Dict<Group>
    requires forall k :: k in raw.keys ==> k in raw.vals
  {
    GroupAll(raw, GodSkins(raw.keys), EnumerationOrder(raw.keys))
  }

  /** The skins `discoverHeroSkins` returns for a directory listing. */
  function SkinsOf(heroId: string, files: seq<string>): seq<HeroSkin> {
    var raw := ScanFiles(heroId, files);
    ScanFilesFacts(heroId, files);
    var order := EnumerationOrder(raw.keys);
    var g := GroupSkins(raw);
    GroupAllKeys(raw, GodSkins(raw.keys), order);
    SortBy(ToSkins(g, EnumerationOrder(g.keys)), SkinKey)
  }

  /** `discoverHeroSkins`: no skins when the directory check fails or says no,
      or when the listing fails. */
  function DiscoveredSkins(heroId: string, dirExists: Result<bool>, listing: Result<seq<string>>): seq<HeroSkin> {
    if dirExists != Ok(true) then []
    else
      match listing
      case Err(_) => []
      case Ok(files) => SkinsOf(heroId, files)
  }

  /** The grouping loop, with its colour-merging inner loop, filling `groupedSkinMap`. */
  method GroupRawSkins(skinMap: Dict<RawSkin>, gods: set<string>, order: seq<string>)
    returns (grouped: Dict<Group>)
    requires forall k :: k in order ==> k in skinMap.vals
    ensures grouped == GroupAll(skinMap, gods, order)
  {
    grouped := Dict([], map[]);
    var i := 0;
    while i < |order|
      invariant 0 <= i <= |order|
      invariant grouped == GroupAll(skinMap, gods, order[..i])
    {
      var skinId := order[i];
      var data := skinMap.vals[skinId];
      var n := Normalize(skinId);
      GroupAllStep(skinMap, gods, order, i);
      if n !in grouped.vals {
        grouped := Dict(grouped.keys + [n], grouped.vals[n := Group([], data.isDefault, false)]);
      }
      var merged := MergeInto(grouped.vals[n].colors, data.colors);
      var entry := grouped.vals[n].(colors := merged);
      if n in gods {
        entry := entry.(isGodSkin := true);
      }
      grouped := Dict(grouped.keys, grouped.vals[n := entry]);
      i := i + 1;
    }
    assert order[..|order|] == order;
  }

  /** The colour-merging inner loop of the grouping. */
  method MergeInto(acc: seq<string>, colors: seq<string>) returns (merged: seq<string>)
    ensures merged == MergeColors(acc, colors)
  {
    merged := acc;
    var j := 0;
    while j < |colors|
      invariant 0 <= j <= |colors|
      invariant MergeColors(merged, colors[j..]) == MergeColors(acc, colors)
    {
      assert colors[j..][1..] == colors[j + 1..];
      merged := SetAdd(merged, colors[j]);
      j := j + 1;
    }
  }

  /** The conversion of the grouped entries, visited in `order`, to skins. */
  method ConvertSkins(grouped: Dict<Group>, order: seq<string>) returns (list: seq<HeroSkin>)
    requires forall k :: k in order ==> k in grouped.vals
    ensures list == ToSkins(grouped, order)
  {
    list := [];
    var k := 0;
    while k < |order|
      invariant 0 <= k <= |order|
      invariant list == ToSkins(grouped, order[..k])
    {
      ToSkinsStep(grouped, order, k);
      list := list + [ToHeroSkin(order[k], grouped.vals[order[k]])];
      k := k + 1;
    }
    assert order[..|order|] == order;
  }

  /** The stable sort of the skin list: default skins first, then by integer id. */
  method SortSkins(list: seq<HeroSkin>) returns (skins: seq<HeroSkin>)
    ensures skins == SortBy(list, SkinKey)
  {
    skins := [];
    var m := |list|;
    while m > 0
      invariant 0 <= m <= |list|
      invariant skins == SortBy(list[m..], SkinKey)
    {
      m := m - 1;
      assert list[m..][1..] == list[m + 1..];
      skins := Insert(list[m], skins, SkinKey);
    }
    assert list[0..] == list;
  }

  /** `discoverHeroSkins` step by step: the file loop, the grouping loop, the
      conversion and the sort. */
  method DiscoverHeroSkins(heroId: string, dirExists: Result<bool>, listing: Result<seq<string>>)
    returns (skins: seq<HeroSkin>)
    ensures skins == DiscoveredSkins(heroId, dirExists, listing)
  {
    if dirExists != Ok(true) || listing.Err? {
      return [];
    }
    var files := listing.value;
    var skinMap := CollectRawSkins(heroId, files);
    ScanFilesFacts(heroId, files);
    var gods := GodSkins(skinMap.keys);
    var order := EnumerationOrder(skinMap.keys);
    var grouped := GroupRawSkins(skinMap, gods, order);
    GroupAllKeys(skinMap, gods, order);
    var list := ConvertSkins(grouped, EnumerationOrder(grouped.keys));
    skins := SortSkins(list);
  }

  // ---------------------------------------------------------------------------
  // What the skin list says about the file names
  // ---------------------------------------------------------------------------

  /** Some skin id the files yield normalises to `n`. */
  ghost predicate SkinFromFiles(heroId: string, files: seq<string>, n: string) {
    exists k :: k in FileSkins(heroId, files) && Normalize(k) == n
  }

  /** Some skin id the files yield normalises to `n` and is given colour `c`. */
  ghost predicate ColorFromFiles(heroId: string, files: seq<string>, n: string, c: string) {
    exists k :: k in FileSkins(heroId, files) && Normalize(k) == n && c in FileColors(heroId, files, k)
  }

  /** Some lettered skin id the files yield normalises to `n`. */
  ghost predicate LetteredFromFiles(heroId: string, files: seq<string>, n: string) {
    exists k :: k in FileSkins(heroId, files) && Lettered(k) && Normalize(k) == n
  }

  ghost function GroupsOf(heroId: string, files: seq<string>): Dict<Group> {
    ScanFilesFacts(heroId, files);
    GroupSkins(ScanFiles(heroId, files))
  }

  lemma NinetyNineIsIndex()
    ensures IsArrayIndex("99") && Normalize("99") == "99"
  {
    assert "99"[..1] == "9";
    assert DecValue("9") == 9 by { assert "9"[..0] == ""; }
    assert DecValue("99") == 99;
  }

  lemma IndexNotLettered(k: string)
    requires IsArrayIndex(k)
    ensures !Lettered(k)
  {
    assert IsDigit(k[|k| - 1]);
  }

  /** Every key enumerated before an array-index key is an array index. */
  lemma IndexKeysPrefix(keys: seq<string>, i: nat, j: nat)
    requires i <= j < |EnumerationOrder(keys)| && IsArrayIndex(EnumerationOrder(keys)[j])
    ensures IsArrayIndex(EnumerationOrder(keys)[i])
  {
    var idx := SortBy(IndexKeys(keys), NumKey);
    var named := NamedKeys(keys);
    var r := EnumerationOrder(keys);
    assert r == idx + named;
    forall p | 0 <= p < |idx| ensures IsArrayIndex(r[p]) {
      assert r[p] == idx[p];
      assert idx[p] in multiset(idx);
    }
    forall p | |idx| <= p < |r| ensures !IsArrayIndex(r[p]) {
      assert r[p] == named[p - |idx|];
    }
  }

  /** `raw` is the raw dictionary of `files`, as ScanFilesFacts describes it. */
  ghost predicate RawOfFiles(raw: Dict<RawSkin>, heroId: string, files: seq<string>) {
    && GoodRaw(raw)
    && (forall skin :: skin in raw.vals <==> skin in FileSkins(heroId, files))
    && (forall skin, color :: skin in raw.vals ==>
         (color in raw.vals[skin].colors <==> color in FileColors(heroId, files, skin)))
  }

  lemma RawOfScan(heroId: string, files: seq<string>)
    ensures RawOfFiles(ScanFiles(heroId, files), heroId, files)
    ensures GroupsOf(heroId, files) == GroupSkins(ScanFiles(heroId, files))
  {
    ScanFilesFacts(heroId, files);
  }

  lemma RawGroupKeys(raw: Dict<RawSkin>, n: string)
    requires GoodRaw(raw)
    ensures n in GroupSkins(raw).vals <==> exists k :: k in raw.vals && Normalize(k) == n
  {
    GroupAllKeys(raw, GodSkins(raw.keys), EnumerationOrder(raw.keys));
  }

  lemma RawGroupColors(raw: Dict<RawSkin>, n: string, c: string)
    requires GoodRaw(raw)
    requires n in GroupSkins(raw).vals
    ensures c in GroupSkins(raw).vals[n].colors
        <==> exists k :: k in raw.vals && Normalize(k) == n && c in raw.vals[k].colors
  {
    var gods := GodSkins(raw.keys);
    var order := EnumerationOrder(raw.keys);
    GroupAllColors(raw, gods, order, n, c);
  }

  lemma RawGroupGod(raw: Dict<RawSkin>, n: string)
    requires GoodRaw(raw)
    requires n in GroupSkins(raw).vals
    ensures GroupSkins(raw).vals[n].isGodSkin <==> exists k :: k in raw.vals && Lettered(k) && Normalize(k) == n
  {
    var gods := GodSkins(raw.keys);
    var order := EnumerationOrder(raw.keys);
    GroupAllFlags(raw, gods, order, n);
    if exists k :: k in raw.vals && Lettered(k) && Normalize(k) == n {
      var k :| k in raw.vals && Lettered(k) && Normalize(k) == n;
      assert k in raw.keys;
    }
  }

  /** A group is the default skin exactly when it is `"99"` and the raw id
      `"99"` itself is present: a group made only of `"99a"`, `"99b"` is not
      default, because `"99"`, an array index, is visited first. */
  lemma RawGroupDefault(raw: Dict<RawSkin>, n: string)
    requires GoodRaw(raw)
    requires n in GroupSkins(raw).vals
    ensures GroupSkins(raw).vals[n].isDefault <==> n == "99" && "99" in raw.vals
  {
    var gods := GodSkins(raw.keys);
    var order := EnumerationOrder(raw.keys);
    GroupAllFlags(raw, gods, order, n);
    var first := FirstWith(order, n);
    assert GroupSkins(raw).vals[n].isDefault == (first == "99");
    NinetyNineIsIndex();
    if n == "99" && "99" in raw.vals {
      assert "99" in order;
      var p :| 0 <= p < |order| && order[p] == "99";
      FirstWithMinimal(order, n);
      var i :| 0 <= i < |order| && order[i] == first && forall q :: 0 <= q < i ==> Normalize(order[q]) != n;
      assert Normalize(order[p]) == n;
      assert i <= p;
      IndexKeysPrefix(raw.keys, i, p);
      IndexNotLettered(first);
    }
  }

  // ---------------------------------------------------------------------------
  // Which names yield which skins and colours
  // ---------------------------------------------------------------------------

  /** A name yields colour `color` of skin `skin` exactly when it is
      `Unit_<heroId>_<skin>_<color>.png` with two digit runs. */
  lemma FileColorIff(heroId: string, file: string, skin: string, color: string)
    ensures FileColor(heroId, file, skin) == Some(color)
        <==> IsDigitRun(skin) && IsDigitRun(color) && file == UnitPrefix(heroId) + skin + "_" + color + ".png"
  {
    MatchMultiIff(heroId, file, skin, color);
    var f := UnitPrefix(heroId) + skin + "_" + color + ".png";
    assert f[|f| - 4..] == ".png";
  }

  /** A name yields skin `skin` exactly when it is a multi-colour name of that
      skin or the single-colour name `Unit_<heroId>_<skin>.png`. */
  lemma FileSkinIff(heroId: string, file: string, skin: string)
    ensures FileSkin(heroId, file) == Some(skin)
        <==> (exists color :: FileColor(heroId, file, skin) == Some(color))
             || (IsSkinId(skin) && file == UnitPrefix(heroId) + skin + ".png")
  {
    MatchSingleIff(heroId, file, skin);
    var f := UnitPrefix(heroId) + skin + ".png";
    assert f[|f| - 4..] == ".png";
    if MatchMulti(heroId, file).Some? {
      MultiExcludesSingle(heroId, file);
    }
  }

  // ---------------------------------------------------------------------------
  // What the skin list says about the file names
  // ---------------------------------------------------------------------------

  lemma {:induction false} ToSkinsMembers(g: Dict<Group>, order: seq<string>)
    requires forall k :: k in order ==> k in g.vals
    ensures forall s :: s in ToSkins(g, order) ==> s.id in order && s == ToHeroSkin(s.id, g.vals[s.id])
    ensures forall n :: n in order ==> ToHeroSkin(n, g.vals[n]) in ToSkins(g, order)
  {
    if order != [] {
      var init := order[..|order| - 1];
      assert order == init + [order[|order| - 1]];
      ToSkinsMembers(g, init);
    }
  }

  lemma SortByMembers<T>(s: seq<T>, key: T -> Key)
    ensures forall x :: x in SortBy(s, key) <==> x in s
  {
    assert forall x :: x in SortBy(s, key) <==> x in multiset(s);
  }

  /** The skin list holds exactly one converted entry per group. */
  lemma SkinsOfGroups(heroId: string, files: seq<string>)
    ensures forall s :: s in SkinsOf(heroId, files) ==>
      s.id in GroupsOf(heroId, files).vals && s == ToHeroSkin(s.id, GroupsOf(heroId, files).vals[s.id])
    ensures forall n :: n in GroupsOf(heroId, files).vals ==>
      ToHeroSkin(n, GroupsOf(heroId, files).vals[n]) in SkinsOf(heroId, files)
  {
    var raw := ScanFiles(heroId, files);
    ScanFilesFacts(heroId, files);
    var g := GroupSkins(raw);
    GroupAllKeys(raw, GodSkins(raw.keys), EnumerationOrder(raw.keys));
    assert g == GroupsOf(heroId, files);
    var order := EnumerationOrder(g.keys);
    var list := ToSkins(g, order);
    assert SkinsOf(heroId, files) == SortBy(list, SkinKey);
    ToSkinsMembers(g, order);
    SortByMembers(list, SkinKey);
  }

  /** Splitting distinct keys into array indices and named keys loses and
      repeats none of them. */
  lemma {:induction false} KeysSplit(keys: seq<string>)
    requires Distinct(keys)
    ensures Distinct(IndexKeys(keys)) && Distinct(NamedKeys(keys))
    ensures |IndexKeys(keys)| + |NamedKeys(keys)| == |keys|
  {
    if keys != [] {
      var rest := keys[1..];
      assert Distinct(rest) by {
        forall i, j | 0 <= i < j < |rest| ensures rest[i] != rest[j] {
          assert rest[i] == keys[i + 1] && rest[j] == keys[j + 1];
        }
      }
      KeysSplit(rest);
      assert keys[0] !in rest by {
        forall i | 0 <= i < |rest| ensures rest[i] != keys[0] {
          assert rest[i] == keys[i + 1];
        }
      }
      ConsDistinct(keys[0], IndexKeys(rest));
      ConsDistinct(keys[0], NamedKeys(rest));
    }
  }

  lemma ConsDistinct(x: string, t: seq<string>)
    requires Distinct(t) && x !in t
    ensures Distinct([x] + t)
  {
    var u := [x] + t;
    forall i, j | 0 <= i < j < |u| ensures u[i] != u[j] {
      assert u[j] == t[j - 1];
      if i > 0 { assert u[i] == t[i - 1]; }
    }
  }

  /** Enumerating distinct keys visits each of them exactly once. */
  lemma EnumerationOrderDistinct(keys: seq<string>)
    requires Distinct(keys)
    ensures Distinct(EnumerationOrder(keys)) && |EnumerationOrder(keys)| == |keys|
  {
    var ix := IndexKeys(keys);
    var named := NamedKeys(keys);
    KeysSplit(keys);
    var idx := SortBy(ix, NumKey);
    assert |idx| == |ix| by {
      assert |multiset(idx)| == |multiset(ix)|;
    }
    var id := (k: string) => k;
    assert DistinctBy(ix, id);
    SortByDistinctBy(ix, NumKey, id);
    assert forall k :: k in idx ==> IsArrayIndex(k) by {
      forall k | k in idx ensures IsArrayIndex(k) {
        assert k in multiset(ix);
      }
    }
    var r := idx + named;
    assert EnumerationOrder(keys) == r;
    forall i, j | 0 <= i < j < |r| ensures r[i] != r[j] {
      if j < |idx| {
        assert id(idx[i]) != id(idx[j]);
      } else if i >= |idx| {
        assert r[i] == named[i - |idx|] && r[j] == named[j - |idx|];
      } else {
        assert r[i] in idx && r[j] == named[j - |idx|];
      }
    }
  }

  /** `ToSkins` converts the visited group ids one by one, in order. */
  lemma {:induction false} ToSkinsIds(g: Dict<Group>, order: seq<string>)
    requires forall k :: k in order ==> k in g.vals
    ensures |ToSkins(g, order)| == |order|
    ensures forall i :: 0 <= i < |order| ==> ToSkins(g, order)[i].id == order[i]
  {
    if order != [] {
      var n := |order| - 1;
      var init := order[..n];
      assert forall k :: k in init ==> k in order;
      ToSkinsIds(g, init);
      var prev := ToSkins(g, init);
      var last := ToHeroSkin(order[n], g.vals[order[n]]);
      assert ToSkins(g, order) == prev + [last];
      forall i | 0 <= i < |order| ensures (prev + [last])[i].id == order[i] {
        if i < n {
          assert (prev + [last])[i] == prev[i] && init[i] == order[i];
        }
      }
    }
  }

  /** The skin list has exactly as many entries as there are groups, and no
      two entries share an id: one entry per group. */
  lemma SkinsOfOnePerGroup(heroId: string, files: seq<string>)
    ensures |SkinsOf(heroId, files)| == |GroupsOf(heroId, files).keys|
    ensures forall i, j :: 0 <= i < j < |SkinsOf(heroId, files)| ==>
      SkinsOf(heroId, files)[i].id != SkinsOf(heroId, files)[j].id
  {
    var raw := ScanFiles(heroId, files);
    ScanFilesFacts(heroId, files);
    var g := GroupSkins(raw);
    GroupAllKeys(raw, GodSkins(raw.keys), EnumerationOrder(raw.keys));
    assert g == GroupsOf(heroId, files);
    var order := EnumerationOrder(g.keys);
    EnumerationOrderDistinct(g.keys);
    var list := ToSkins(g, order);
    ToSkinsIds(g, order);
    var sid := (s: HeroSkin) => s.id;
    assert DistinctBy(list, sid) by {
      forall i, j | 0 <= i < j < |list| ensures sid(list[i]) != sid(list[j]) {
        assert list[i].id == order[i] && list[j].id == order[j];
      }
    }
    var sorted := SortBy(list, SkinKey);
    assert SkinsOf(heroId, files) == sorted;
    SortByDistinctBy(list, SkinKey, sid);
    assert |sorted| == |list| by {
      assert |multiset(sorted)| == |multiset(list)|;
    }
    forall i, j | 0 <= i < j < |sorted| ensures sorted[i].id != sorted[j].id {
      assert sid(sorted[i]) != sid(sorted[j]);
    }
  }

  lemma SkinOfGroup(heroId: string, files: seq<string>, s: HeroSkin)
    requires s in SkinsOf(heroId, files)
    ensures s.id in GroupsOf(heroId, files).vals && s == ToHeroSkin(s.id, GroupsOf(heroId, files).vals[s.id])
  {
    SkinsOfGroups(heroId, files);
  }

  /** A skin is listed for `n` exactly when some file name yields a skin id
      that normalises to `n`. */
  lemma SkinsOfIds(heroId: string, files: seq<string>, n: string)
    ensures (exists s :: s in SkinsOf(heroId, files) && s.id == n) <==> SkinFromFiles(heroId, files, n)
  {
    SkinsOfGroups(heroId, files);
    RawOfScan(heroId, files);
    RawGroupKeys(ScanFiles(heroId, files), n);
    if n in GroupsOf(heroId, files).vals {
      assert ToHeroSkin(n, GroupsOf(heroId, files).vals[n]).id == n;
    }
  }

  /** Colours ascend numerically and the first is selected; a skin without
      colours has neither a colour list nor a selected colour. */
  ghost predicate ColorsInOrder(s: HeroSkin) {
    && (s.colors.Some? ==> |s.colors.value| > 0 && Sorted(s.colors.value, ColorKey) && s.selectedColor == Some(s.colors.value[0]))
    && (s.colors.None? <==> s.selectedColor.None?)
  }

  /** The converted skin carries the group's colours, sorted, the first one selected. */
  lemma ToHeroSkinColors(n: string, grp: Group, c: string)
    ensures ToHeroSkin(n, grp).colors.Some? && c in ToHeroSkin(n, grp).colors.value <==> c in grp.colors
    ensures ColorsInOrder(ToHeroSkin(n, grp))
  {
    SortBySorted(grp.colors, ColorKey);
    SortByMembers(grp.colors, ColorKey);
  }

  /** A group's colours are those the files give to its raw ids. */
  lemma GroupColorsOfFiles(heroId: string, files: seq<string>, n: string, c: string)
    requires n in GroupsOf(heroId, files).vals
    ensures c in GroupsOf(heroId, files).vals[n].colors <==> ColorFromFiles(heroId, files, n, c)
  {
    RawOfScan(heroId, files);
    var raw := ScanFiles(heroId, files);
    RawGroupColors(raw, n, c);
    if ColorFromFiles(heroId, files, n, c) {
      var k :| k in FileSkins(heroId, files) && Normalize(k) == n && c in FileColors(heroId, files, k);
      assert k in raw.vals;
    }
  }

  /** A listed skin's colours are exactly those the multi-colour names of its
      raw ids give, in ascending numeric order, the first one selected; a skin
      without colours has neither colours nor a selected colour. */
  lemma SkinsOfColors(heroId: string, files: seq<string>, s: HeroSkin, c: string)
    requires s in SkinsOf(heroId, files)
    ensures s.colors.Some? && c in s.colors.value <==> ColorFromFiles(heroId, files, s.id, c)
    ensures ColorsInOrder(s)
  {
    SkinOfGroup(heroId, files, s);
    ToHeroSkinColors(s.id, GroupsOf(heroId, files).vals[s.id], c);
    GroupColorsOfFiles(heroId, files, s.id, c);
  }

  /** A listed skin is a god skin exactly when a lettered raw id normalises to it. */
  lemma SkinsOfGod(heroId: string, files: seq<string>, s: HeroSkin)
    requires s in SkinsOf(heroId, files)
    ensures s.isGodSkin <==> LetteredFromFiles(heroId, files, s.id)
  {
    SkinOfGroup(heroId, files, s);
    RawOfScan(heroId, files);
    RawGroupGod(ScanFiles(heroId, files), s.id);
  }

  /** A listed skin is the default skin exactly when its id is `"99"` and a
      file name yields the raw id `"99"` itself; its name follows. */
  lemma SkinsOfDefault(heroId: string, files: seq<string>, s: HeroSkin)
    requires s in SkinsOf(heroId, files)
    ensures s.isDefault <==> s.id == "99" && "99" in FileSkins(heroId, files)
    ensures s.name == if s.isDefault then "Default" else "Skin " + s.id
  {
    SkinOfGroup(heroId, files, s);
    RawOfScan(heroId, files);
    RawGroupDefault(ScanFiles(heroId, files), s.id);
  }

  /** Default skins come first, and within each class ids ascend numerically. */
  lemma SkinsOfOrder(heroId: string, files: seq<string>, i: nat, j: nat)
    requires i < j < |SkinsOf(heroId, files)|
    ensures var s := SkinsOf(heroId, files);
      (s[j].isDefault ==> s[i].isDefault)
      && (s[i].isDefault == s[j].isDefault ==> NumValue(s[i].id) <= NumValue(s[j].id))
  {
    var raw := ScanFiles(heroId, files);
    ScanFilesFacts(heroId, files);
    var g := GroupSkins(raw);
    GroupAllKeys(raw, GodSkins(raw.keys), EnumerationOrder(raw.keys));
    SortBySorted(ToSkins(g, EnumerationOrder(g.keys)), SkinKey);
    var s := SkinsOf(heroId, files);
    assert KeyLe(SkinKey(s[i]), SkinKey(s[j]));
  }
}
