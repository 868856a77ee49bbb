/** The pure part of the hero catalogue: hero folder names, the avatar id rule,
    and skin/colour discovery from the file names of the unit-image directory
    (`<project>/Assets/00_Unit/#Image`). */
module HeroCatalog {
  import opened Wrappers
  import opened Text
  import opened Sorting

  // ---------------------------------------------------------------------------
  // Hero folders: `Fx_<digits><spaces>(<name>)`
  // ---------------------------------------------------------------------------

  datatype FolderInfo = FolderInfo(id: string, name: string)

  predicate AllJsSpace(s: string) {
    forall i :: 0 <= i < |s| ==> IsSpace(s[i], Js)
  }

  predicate NoCloseParen(s: string) {
    forall i :: 0 <= i < |s| ==> s[i] != ')'
  }

  /** `folder` is `Fx_` + a digit run + optional whitespace + `(` + a non-empty
      text without `)` + `)`: the pattern `^Fx_(\d+)\s*\(([^)]+)\)$`. */
  predicate FolderShape(folder: string, digits: string, spaces: string, inner: string) {
    && folder == "Fx_" + digits + spaces + "(" + inner + ")"
    && IsDigitRun(digits) && AllJsSpace(spaces) && |inner| > 0 && NoCloseParen(inner)
  }

  /** Length of the longest prefix of digits. */
  function DigitPrefix(s: string): (n: nat)
    ensures n <= |s| && AllDigits(s[..n]) && (n < |s| ==> !IsDigit(s[n]))
  {
    if |s| > 0 && IsDigit(s[0]) then
      var n := 1 + DigitPrefix(s[1..]);
      assert s[..n] == [s[0]] + s[1..][..n - 1];
      n
    else 0
  }

  /** Length of the longest prefix of whitespace. */
  function SpacePrefix(s: string): (n: nat)
    ensures n <= |s| && AllJsSpace(s[..n]) && (n < |s| ==> !IsSpace(s[n], Js))
  {
    if |s| > 0 && IsSpace(s[0], Js) then
      var n := 1 + SpacePrefix(s[1..]);
      assert s[..n] == [s[0]] + s[1..][..n - 1];
      n
    else 0
  }

  lemma DigitPrefixUnique(s: string, k: nat)
    requires k <= |s| && AllDigits(s[..k]) && (k < |s| ==> !IsDigit(s[k]))
    ensures DigitPrefix(s) == k
  {
    var n := DigitPrefix(s);
    forall j | 0 <= j < k ensures IsDigit(s[j]) { assert s[..k][j] == s[j]; }
    forall j | 0 <= j < n ensures IsDigit(s[j]) { assert s[..n][j] == s[j]; }
  }

  lemma SpacePrefixUnique(s: string, k: nat)
    requires k <= |s| && AllJsSpace(s[..k]) && (k < |s| ==> !IsSpace(s[k], Js))
    ensures SpacePrefix(s) == k
  {
    var n := SpacePrefix(s);
    forall j | 0 <= j < k ensures IsSpace(s[j], Js) { assert s[..k][j] == s[j]; }
    forall j | 0 <= j < n ensures IsSpace(s[j], Js) { assert s[..n][j] == s[j]; }
  }

  /** Splits a folder name into its digit run, whitespace and parenthesised
      text when it has the folder shape. */
  function SplitHeroFolder(folder: string): Option<(string, string, string)> {
    if !IsPrefix("Fx_", folder) then None
    else
      var rest := folder[3..];
      var d := DigitPrefix(rest);
      var afterDigits := rest[d..];
      var w := SpacePrefix(afterDigits);
      var tail := afterDigits[w..];
      if d == 0 || |tail| < 3 || tail[0] != '(' || tail[|tail| - 1] != ')' then None
      else if !NoCloseParen(tail[1..|tail| - 1]) then None
      else
        Some((rest[..d], afterDigits[..w], tail[1..|tail| - 1]))
  }

  lemma SliceSplit(s: string, k: nat)
    requires k <= |s|
    ensures s == s[..k] + s[k..]
  {
  }

  lemma Bracketed(t: string)
    requires |t| >= 2 && t[0] == '(' && t[|t| - 1] == ')'
    ensures t == "(" + t[1..|t| - 1] + ")"
  {
  }

  lemma Reassemble(folder: string, rest: string, afterDigits: string, tail: string,
                   digits: string, spaces: string, inner: string)
    requires folder == "Fx_" + rest && rest == digits + afterDigits
    requires afterDigits == spaces + tail && tail == "(" + inner + ")"
    ensures folder == "Fx_" + digits + spaces + "(" + inner + ")"
  {
  }

  /** What splits has the folder shape. */
  lemma SplitHeroFolderSound(folder: string)
    requires SplitHeroFolder(folder).Some?
    ensures var (digits, spaces, inner) := SplitHeroFolder(folder).value;
      FolderShape(folder, digits, spaces, inner)
  {
    var rest := folder[3..];
    var d := DigitPrefix(rest);
    var afterDigits := rest[d..];
    var w := SpacePrefix(afterDigits);
    var tail := afterDigits[w..];
    var digits, spaces, inner := rest[..d], afterDigits[..w], tail[1..|tail| - 1];
    assert SplitHeroFolder(folder) == Some((digits, spaces, inner));
    SliceSplit(folder, 3);
    SliceSplit(rest, d);
    SliceSplit(afterDigits, w);
    Bracketed(tail);
    Reassemble(folder, rest, afterDigits, tail, digits, spaces, inner);
  }

  /** `parseHeroFolder`: the digit run is the id and the parenthesised text,
      trimmed, is the name; any other folder name gives nothing. */
  function ParseHeroFolder(folder: string): Option<FolderInfo> {
    match SplitHeroFolder(folder)
    case None => None
    case Some((digits, _, inner)) => Some(FolderInfo(digits, Trim(inner, Js)))
  }

  lemma Halves(a: string, b: string)
    ensures (a + b)[..|a|] == a && (a + b)[|a|..] == b
  {
  }

  lemma FolderAssoc(digits: string, spaces: string, inner: string)
    ensures "Fx_" + digits + spaces + "(" + inner + ")" == "Fx_" + (digits + (spaces + ("(" + inner + ")")))
  {
  }

  /** Every name of the folder shape splits into its own parts. */
  lemma SplitHeroFolderComplete(digits: string, spaces: string, inner: string)
    requires FolderShape("Fx_" + digits + spaces + "(" + inner + ")", digits, spaces, inner)
    ensures SplitHeroFolder("Fx_" + digits + spaces + "(" + inner + ")") == Some((digits, spaces, inner))
  {
    var x := "(" + inner + ")";
    var a := spaces + x;
    var r := digits + a;
    FolderAssoc(digits, spaces, inner);
    Halves("Fx_", r);
    Halves(digits, a);
    assert r[|digits|..] == a;
    DigitPrefixUnique(r, |digits|);
    Halves(spaces, x);
    SpacePrefixUnique(a, |spaces|);
    assert x[1..|x| - 1] == inner;
  }

  /** Every name of the folder shape parses, to its digits and trimmed inner text. */
  lemma ParseHeroFolderComplete(digits: string, spaces: string, inner: string)
    requires FolderShape("Fx_" + digits + spaces + "(" + inner + ")", digits, spaces, inner)
    ensures ParseHeroFolder("Fx_" + digits + spaces + "(" + inner + ")")
         == Some(FolderInfo(digits, Trim(inner, Js)))
  {
    SplitHeroFolderComplete(digits, spaces, inner);
  }

  /** Whatever parses has the folder shape, and its name is the trimmed inner text. */
  lemma ParseHeroFolderSound(folder: string)
    requires ParseHeroFolder(folder).Some?
    ensures exists spaces, inner ::
      FolderShape(folder, ParseHeroFolder(folder).value.id, spaces, inner)
      && ParseHeroFolder(folder).value.name == Trim(inner, Js)
  {
    SplitHeroFolderSound(folder);
    var (_, spaces, inner) := SplitHeroFolder(folder).value;
    assert FolderShape(folder, ParseHeroFolder(folder).value.id, spaces, inner);
  }

  // ---------------------------------------------------------------------------
  // Avatar id: drop the first and last characters of ids longer than 2
  // ---------------------------------------------------------------------------

  function AvatarHeroId(heroId: string): (r: string)
    ensures |heroId| <= 2 ==> r == heroId
    ensures |heroId| > 2 ==> |r| == |heroId| - 2 && heroId == [heroId[0]] + r + [heroId[|heroId| - 1]]
  {
    if |heroId| <= 2 then heroId else heroId[1..|heroId| - 1]
  }

  // ---------------------------------------------------------------------------
  // Unit image names
  // ---------------------------------------------------------------------------

  function UnitPrefix(heroId: string): string {
    "Unit_" + heroId + "_"
  }

  /** The `<middle>` of `Unit_<heroId>_<middle>.png`, when the name has that form. */
  function Middle(heroId: string, file: string): Option<string> {
    var p := UnitPrefix(heroId);
    if |p| + 4 <= |file| && IsPrefix(p, file) && IsSuffix(".png", file)
    then Some(file[|p|..|file| - 4])
    else None
  }

  lemma MiddleIff(heroId: string, file: string, m: string)
    ensures Middle(heroId, file) == Some(m) <==> file == UnitPrefix(heroId) + m + ".png"
  {
    var p := UnitPrefix(heroId);
    if file == p + m + ".png" {
      assert file[..|p|] == p;
      assert file[|file| - 4..] == ".png";
      assert file[|p|..|file| - 4] == m;
    }
    if Middle(heroId, file) == Some(m) {
      assert file == file[..|p|] + file[|p|..|file| - 4] + file[|file| - 4..];
    }
  }

  /** A skin id of the single-colour pattern: digits, then at most one lower-case letter. */
  predicate IsSkinId(s: string) {
    IsDigitRun(s) || (|s| >= 2 && IsDigitRun(s[..|s| - 1]) && 'a' <= s[|s| - 1] <= 'z')
  }

  /** `^Unit_<heroId>_(\d+)_(\d+)\.png$`: the skin and colour ids. */
  function MatchMulti(heroId: string, file: string): Option<(string, string)> {
    match Middle(heroId, file)
    case None => None
    case Some(m) =>
      match IndexOf(m, "_")
      case None => None
      case Some(i) =>
        if IsDigitRun(m[..i]) && IsDigitRun(m[i + 1..]) then Some((m[..i], m[i + 1..])) else None
  }

  /** `^Unit_<heroId>_(\d+[a-z]?)\.png$`: the skin id. */
  function MatchSingle(heroId: string, file: string): Option<string> {
    match Middle(heroId, file)
    case None => None
    case Some(m) => if IsSkinId(m) then Some(m) else None
  }

  lemma MatchMultiComplete(heroId: string, skin: string, color: string)
    requires IsDigitRun(skin) && IsDigitRun(color)
    ensures MatchMulti(heroId, UnitPrefix(heroId) + skin + "_" + color + ".png") == Some((skin, color))
  {
    var file := UnitPrefix(heroId) + skin + "_" + color + ".png";
    var m := skin + "_" + color;
    MiddleIff(heroId, file, m);
    assert file == UnitPrefix(heroId) + m + ".png";
    assert OccursAt(m, "_", |skin|) by { assert m[|skin|..|skin| + 1] == "_"; }
    forall i: nat | i < |skin| ensures !OccursAt(m, "_", i) {
      assert m[i..i + 1] == [skin[i]];
    }
    FirstOccurrence(m, "_", |skin|);
    assert m[..|skin|] == skin && m[|skin| + 1..] == color;
  }

  lemma MatchMultiSound(heroId: string, file: string)
    requires MatchMulti(heroId, file).Some?
    ensures var (skin, color) := MatchMulti(heroId, file).value;
      IsDigitRun(skin) && IsDigitRun(color) && file == UnitPrefix(heroId) + skin + "_" + color + ".png"
  {
    var mid := Middle(heroId, file).value;
    var i := IndexOf(mid, "_").value;
    assert mid[i..i + 1] == "_";
    assert mid == mid[..i] + "_" + mid[i + 1..];
    MiddleIff(heroId, file, mid);
  }

  /** A name matches the multi-colour pattern exactly when it is
      `Unit_<heroId>_<digits>_<digits>.png`, and then yields those two runs. */
  lemma MatchMultiIff(heroId: string, file: string, skin: string, color: string)
    ensures MatchMulti(heroId, file) == Some((skin, color))
        <==> IsDigitRun(skin) && IsDigitRun(color)
             && file == UnitPrefix(heroId) + skin + "_" + color + ".png"
  {
    if IsDigitRun(skin) && IsDigitRun(color) && file == UnitPrefix(heroId) + skin + "_" + color + ".png" {
      MatchMultiComplete(heroId, skin, color);
    }
    if MatchMulti(heroId, file) == Some((skin, color)) {
      MatchMultiSound(heroId, file);
    }
  }

  lemma MatchSingleIff(heroId: string, file: string, skin: string)
    ensures MatchSingle(heroId, file) == Some(skin)
        <==> IsSkinId(skin) && file == UnitPrefix(heroId) + skin + ".png"
  {
    MiddleIff(heroId, file, skin);
    if MatchSingle(heroId, file) == Some(skin) {
      MiddleIff(heroId, file, Middle(heroId, file).value);
    }
  }

  /** No name fits both patterns: a multi-colour name is never a single-colour one. */
  lemma MultiExcludesSingle(heroId: string, file: string)
    requires MatchMulti(heroId, file).Some?
    ensures MatchSingle(heroId, file).None?
  {
    var m := Middle(heroId, file).value;
    var i := IndexOf(m, "_").value;
    assert m[i..i + 1] == "_";
    assert m[i] == '_';
    assert !IsDigitRun(m);
    if i < |m| - 1 {
      assert m[..|m| - 1][i] == '_';
    }
  }
}
