// The native helpers of src-tauri/src/utils.rs: the platform name and the
// AssetRipper binary path, the version list printed by `apkeep -l`, the
// crop of a decoded RGBA image (bounds checks, the Unity bottom-up to image
// top-down Y flip, the pixel copy), the sprite rectangle parser for Unity
// `.asset` text, and the listing of a directory. Decoding and encoding of
// images, the f32 parser and the file system are parameters.

module NativeUtils {
  import opened Wrappers
  import opened Text

  // ---- platform and AssetRipper path ----

  /** `check_os`: the short platform name for Rust's `std::env::consts::OS`. */
  function CheckOs(os: string): (r: string)
    ensures r == "win" <==> os == "windows"
    ensures r == "linux" <==> os == "linux"
    ensures r == "unknown" <==> os != "windows" && os != "linux"
  {
    if os == "windows" then "win"
    else if os == "linux" then "linux"
    else "unknown"
  }

  /** The path `get_asset_ripper` builds from a short platform name; the
      `.exe` suffix is tied to the name "windows". */
  function AssetRipperPathFor(short: string): Option<string> {
    if short == "unknown" then None
    else Some("binaries/asset-ripper-" + short + "-x64/AssetRipper.GUI.Free" + (if short == "windows" then ".exe" else ""))
  }

  /** `get_asset_ripper` as written: the path for the short name `check_os` gives. */
  function AssetRipper(os: string): Option<string> {
    AssetRipperPathFor(CheckOs(os))
  }

  /** There is a binary exactly on Windows and Linux; on Windows its name has
      no `.exe`, since `check_os` never yields "windows". */
  lemma AssetRipperPaths(os: string)
    ensures AssetRipper(os).Some? <==> os == "windows" || os == "linux"
    ensures os == "windows" ==> AssetRipper(os) == Some("binaries/asset-ripper-" + "win" + "-x64/AssetRipper.GUI.Free")
    ensures os == "linux" ==> AssetRipper(os) == Some("binaries/asset-ripper-" + "linux" + "-x64/AssetRipper.GUI.Free")
    ensures AssetRipper(os).Some? ==> !IsSuffix(".exe", AssetRipper(os).value)
  {
    if os == "windows" || os == "linux" {
      var short := CheckOs(os);
      var tail := "-x64/AssetRipper.GUI.Free";
      var p := "binaries/asset-ripper-" + short + tail;
      assert AssetRipper(os) == Some(p + "");
      assert p + "" == p;
      assert p[|p| - 4..] == tail[|tail| - 4..] == "Free";
      assert !IsSuffix(".exe", p);
    }
  }

  /** The path with the suffix keyed on the short name "win", as the `.exe`
      branch evidently intends. */
  function AssetRipperFixed(os: string): (r: Option<string>)
    ensures r.Some? <==> os == "windows" || os == "linux"
    ensures r.Some? ==> (IsSuffix(".exe", r.value) <==> os == "windows")
    ensures r.Some? ==> IsPrefix("binaries/asset-ripper-" + CheckOs(os) + "-x64/AssetRipper.GUI.Free", r.value)
  {
    var short := CheckOs(os);
    if short == "unknown" then None
    else
      var base := "binaries/asset-ripper-" + short + "-x64/AssetRipper.GUI.Free";
      var p := base + (if short == "win" then ".exe" else "");
      assert p[..|base|] == base;
      if short == "win" then
        assert p[|p| - 4..] == ".exe";
        Some(p)
      else
        assert p == base && p[|p| - 4..] == "Free";
        Some(p)
  }

  // ---- the version list of `apkeep -l` ----

  /** `stdout.replace('\n', " ")`. */
  function ReplaceNewlines(s: string): (r: string)
    ensures |r| == |s|
    ensures forall i :: 0 <= i < |s| ==> r[i] == (if s[i] == '\n' then ' ' else s[i])
  {
    seq(|s|, i requires 0 <= i < |s| => if s[i] == '\n' then ' ' else s[i])
  }

  /** An item is a version when it is non-empty, has a digit (ASCII digits
      stand for Rust's `char::is_numeric`), and mentions neither "Versions"
      nor "available". */
  predicate KeepVersion(v: string) {
    v != "" && (exists i :: 0 <= i < |v| && IsDigit(v[i]))
      && !Contains(v, "Versions") && !Contains(v, "available")
  }

  function TrimAll(vs: seq<string>): (r: seq<string>)
    ensures |r| == |vs| && forall i :: 0 <= i < |vs| ==> r[i] == Trim(vs[i], Rust)
  {
    seq(|vs|, i requires 0 <= i < |vs| => Trim(vs[i], Rust))
  }

  function KeepVersions(vs: seq<string>): (r: seq<string>)
    ensures forall v :: v in r <==> v in vs && KeepVersion(v)
    ensures |r| <= |vs|
  {
    if vs == [] then []
    else
      assert forall v :: v in vs <==> v == vs[0] || v in vs[1..];
      (if KeepVersion(vs[0]) then [vs[0]] else []) + KeepVersions(vs[1..])
  }

  function TrimmedItems(text: string): (r: seq<string>)
    ensures |r| == |Split(text, ", ")|
    ensures forall i :: 0 <= i < |r| ==> r[i] == Trim(Split(text, ", ")[i], Rust) && IsTrimmed(r[i], Rust)
  {
    var parts := Split(text, ", ");
    forall i | 0 <= i < |parts| ensures IsTrimmed(Trim(parts[i], Rust), Rust) {
      TrimIsTrimmed(parts[i], Rust);
    }
    TrimAll(parts)
  }

  /** The versions in the output of `apkeep -l`: the text after the first
      "| ", split on ", ", each item trimmed and kept when it looks like a
      version; no "| " gives no versions. */
  /** `v` is one of the ", "-separated pieces of `text`, trimmed. */
  ghost predicate ItemOf(text: string, v: string) {
    exists p :: p in Split(text, ", ") && Trim(p, Rust) == v
  }

  /** An item survives trimming exactly when some raw piece trims to it. */
  lemma TrimmedItemsMembers(text: string)
    ensures forall v :: v in TrimmedItems(text) <==> ItemOf(text, v)
  {
  }

  /** The versions kept from a list are its trimmed pieces that pass the filter. */
  lemma KeptItems(text: string)
    ensures forall v :: v in KeepVersions(TrimmedItems(text)) <==> (KeepVersion(v) && ItemOf(text, v))
  {
    var trimmed := TrimmedItems(text);
    TrimmedItemsMembers(text);
    forall v ensures v in KeepVersions(trimmed) <==> (v in trimmed && KeepVersion(v)) {
    }
  }

  /** The versions listed in `list`: its trimmed ", "-separated pieces that
      pass the filter, in order. */
  function VersionsIn(list: string): (r: seq<string>)
    ensures forall v :: v in r <==> (KeepVersion(v) && ItemOf(list, v))
    ensures forall v :: v in r ==> IsTrimmed(v, Rust)
  {
    KeptItems(list);
    TrimmedItemsMembers(list);
    KeepVersions(TrimmedItems(list))
  }

  function ParseVersions(stdout: string): (r: seq<string>)
    ensures IndexOf(ReplaceNewlines(stdout), "| ").None? ==> r == []
    ensures forall v :: v in r ==> KeepVersion(v) && IsTrimmed(v, Rust)
  {
    var full := ReplaceNewlines(stdout);
    match IndexOf(full, "| ")
    case None => []
    case Some(start) => VersionsIn(full[start + 2..])
  }



  /** A version is reported exactly when it is one of the trimmed ", "-separated
      pieces after the first "| " of the output and passes the filter. */
  lemma ParseVersionsMembers(stdout: string, start: nat)
    requires IndexOf(ReplaceNewlines(stdout), "| ") == Some(start)
    ensures start + 2 <= |stdout|
    ensures forall v :: v in ParseVersions(stdout) <==>
      (KeepVersion(v) && ItemOf(ReplaceNewlines(stdout)[start + 2..], v))
  {
  }





  lemma {:induction false} KeepAllVersions(vs: seq<string>)
    requires forall i :: 0 <= i < |vs| ==> KeepVersion(vs[i])
    ensures KeepVersions(vs) == vs
  {
    if vs != [] {
      KeepAllVersions(vs[1..]);
    }
  }

  lemma {:induction false} JoinAvoids(vs: seq<string>, sep: string, c: char)
    requires c !in sep
    requires forall i :: 0 <= i < |vs| ==> c !in vs[i]
    ensures c !in Join(vs, sep)
  {
    if |vs| > 1 {
      JoinAvoids(vs[1..], sep, c);
    }
  }

  lemma ReplaceNewlinesNone(s: string)
    requires '\n' !in s
    ensures ReplaceNewlines(s) == s
  {
  }

  lemma SplitJoinItems(vs: seq<string>)
    requires |vs| > 0
    requires forall i :: 0 <= i < |vs| ==> !Contains(vs[i], ", ")
    ensures Split(Join(vs, ", "), ", ") == vs
  {
    forall k | 0 <= k < |vs| - 1 ensures CleanPart(vs[k], ", ") {
      CommaSpaceClean(vs[k]);
    }
    SplitJoin(vs, ", ");
  }

  lemma TrimAllTrimmed(vs: seq<string>)
    requires forall i :: 0 <= i < |vs| ==> IsTrimmed(vs[i], Rust)
    ensures TrimAll(vs) == vs
  {
    forall i | 0 <= i < |vs| ensures Trim(vs[i], Rust) == vs[i] {
      TrimOfTrimmed(vs[i], Rust);
    }
  }

  lemma NoItems()
    ensures KeepVersions(TrimmedItems("")) == []
  {
    assert IndexOf("", ", ") == None;
    assert Split("", ", ") == [""];
    assert TrimmedItems("") == TrimAll([""]);
    assert TrimAll([""]) == [Trim("", Rust)];
  }

  /** Items that are kept, trimmed and free of ", " are read back from their
      join by ", ". */
  lemma ItemsOfJoin(vs: seq<string>)
    requires forall i :: 0 <= i < |vs| ==> KeepVersion(vs[i]) && IsTrimmed(vs[i], Rust)
    requires forall i :: 0 <= i < |vs| ==> !Contains(vs[i], ", ")
    ensures KeepVersions(TrimmedItems(Join(vs, ", "))) == vs
  {
    if vs == [] {
      NoItems();
    } else {
      var text := Join(vs, ", ");
      SplitJoinItems(vs);
      TrimAllTrimmed(vs);
      assert TrimmedItems(text) == TrimAll(Split(text, ", "));
      KeepAllVersions(vs);
    }
  }

  /** The parser reads back a listing printed as a header without "| ", then
      "| ", then the versions joined by ", ": when each version is kept,
      trimmed, and free of ", " and of line breaks, the result is exactly
      those versions, in order. */
  lemma ParseListing(header: string, vs: seq<string>)
    requires '\n' !in header && CleanPart(header, "| ")
    requires forall i :: 0 <= i < |vs| ==> KeepVersion(vs[i]) && IsTrimmed(vs[i], Rust)
    requires forall i :: 0 <= i < |vs| ==> '\n' !in vs[i] && !Contains(vs[i], ", ")
    ensures ParseVersions(header + "| " + Join(vs, ", ")) == vs
  {
    var body := Join(vs, ", ");
    var s := header + "| " + body;
    JoinAvoids(vs, ", ", '\n');
    ReplaceNewlinesNone(s);
    CleanPartFirst(header, "| ", body);
    assert s[|header| + 2..] == body;
    ItemsOfJoin(vs);
  }

  // ---- cropping a decoded image ----

  /** One RGBA pixel, eight bits per channel. */
  datatype Rgba = Rgba(r: bv8, g: bv8, b: bv8, a: bv8)

  /** The rectangle (Unity coordinates, Y counted from the bottom) lies inside
      an image of `imgW` × `imgH` pixels and is not empty. */
  predicate CropFits(imgW: nat, imgH: nat, x: nat, y: nat, width: nat, height: nat) {
    0 < width && 0 < height && x + width <= imgW && y + height <= imgH
  }

  /** The first failing check of `crop_image_from_bytes`, with its message;
      `None` when the region passes every check. */
  function CropCheck(imgW: nat, imgH: nat, x: nat, y: nat, width: nat, height: nat): Option<string> {
    if x >= imgW || y >= imgH || width == 0 || height == 0 then
      Some("Invalid crop region: x:" + NatToString(x) + ", y:" + NatToString(y)
        + ", width:" + NatToString(width) + ", height:" + NatToString(height)
        + " for image dimensions (" + NatToString(imgW) + "x" + NatToString(imgH) + ")")
    else if y + height > imgH then
      Some("Crop region exceeds image height: y:" + NatToString(y) + " + height:" + NatToString(height)
        + " = " + NatToString(y + height) + " > img_height:" + NatToString(imgH))
    else if x + width > imgW then
      Some("Crop width exceeds image bounds: x:" + NatToString(x) + " + width:" + NatToString(width)
        + " = " + NatToString(x + width) + " > img_width:" + NatToString(imgW))
    else None
  }

  /** The checks reject exactly the regions that do not fit. */
  lemma CropCheckIff(imgW: nat, imgH: nat, x: nat, y: nat, width: nat, height: nat)
    ensures CropCheck(imgW, imgH, x, y, width, height).None? <==> CropFits(imgW, imgH, x, y, width, height)
  {
  }

  /** The image row (counted from the top) of the rectangle's row `py`. */
  function ImageRow(imgH: nat, y: nat, height: nat, py: nat): int {
    imgH - y - height + py
  }

  /** The Unity row (counted from the bottom) of image row `row`. */
  function UnityRow(imgH: nat, row: int): int {
    imgH - 1 - row
  }

  /** For a fitting region, the rows copied are inside the image and are the
      rectangle's Unity rows from its top (`y + height - 1`) down to `y`. */
  lemma FlipRows(imgH: nat, y: nat, height: nat, py: nat)
    requires y + height <= imgH && py < height
    ensures 0 <= ImageRow(imgH, y, height, py) < imgH
    ensures UnityRow(imgH, ImageRow(imgH, y, height, py)) == y + height - 1 - py
    ensures y <= UnityRow(imgH, ImageRow(imgH, y, height, py)) < y + height
  {
  }

  /** `crop_image_from_bytes` on the decoded image `img`, indexed
      `img[x, y]` like `get_pixel(x, y)` with `y` counted from the top; the
      crop is returned as pixels rather than PNG bytes. */
  method CropImage(img: array2<Rgba>, x: nat, y: nat, width: nat, height: nat) returns (r: Result<array2<Rgba>>)
    ensures r.Err? <==> CropCheck(img.Length0, img.Length1, x, y, width, height).Some?
    ensures r.Err? ==> r.error == CropCheck(img.Length0, img.Length1, x, y, width, height).value
    ensures r.Ok? ==> fresh(r.value) && r.value.Length0 == width && r.value.Length1 == height
    ensures r.Ok? ==> forall px, py :: 0 <= px < width && 0 <= py < height ==>
      r.value[px, py] == img[x + px, ImageRow(img.Length1, y, height, py)]
  {
    var check := CropCheck(img.Length0, img.Length1, x, y, width, height);
    if check.Some? {
      return Err(check.value);
    }
    var imageY := img.Length1 - y - height;
    var out := new Rgba[width, height];
    var py := 0;
    while py < height
      invariant 0 <= py <= height
      invariant forall qx, qy :: 0 <= qx < width && 0 <= qy < py ==> out[qx, qy] == img[x + qx, imageY + qy]
    {
      var px := 0;
      while px < width
        invariant 0 <= px <= width
        invariant forall qx, qy :: 0 <= qx < width && 0 <= qy < py ==> out[qx, qy] == img[x + qx, imageY + qy]
        invariant forall qx :: 0 <= qx < px ==> out[qx, py] == img[x + qx, imageY + py]
      {
        out[px, py] := img[x + px, imageY + py];
        px := px + 1;
      }
      py := py + 1;
    }
    return Ok(out);
  }

  // -- the checks as compiled: 32-bit unsigned arithmetic that wraps --

  const U32: nat := 0x1_0000_0000

  function AddU32(a: nat, b: nat): nat {
    (a + b) % U32
  }

  function SubU32(a: nat, b: nat): nat {
    (a - b) % U32
  }

  /** The four checks of `crop_image_from_bytes` with `u32` sums and
      differences that wrap around (a release build). */
  predicate PassesChecksU32(imgW: nat, imgH: nat, x: nat, y: nat, width: nat, height: nat) {
    var imageY := SubU32(SubU32(imgH, y), height);
    !(x >= imgW || y >= imgH || width == 0 || height == 0)
      && !(AddU32(y, height) > imgH)
      && !(AddU32(x, width) > imgW)
      && !(AddU32(imageY, height) > imgH)
  }

  /** On a 2 × 2 image the region x = 0, y = 1, width = 1, height = 2^32 - 1
      passes every wrapped check, though it does not fit; the converted row
      is 2, outside the image, so the copy reads past the last row. */
  lemma CropOverflowPasses()
    ensures PassesChecksU32(2, 2, 0, 1, 1, U32 - 1)
    ensures !CropFits(2, 2, 0, 1, 1, U32 - 1)
    ensures SubU32(SubU32(2, 1), U32 - 1) == 2
  {
  }

  // ---- the sprite rectangle of a Unity `.asset` file ----

  /** The outcome of Rust's `str::parse::<f32>`. */
  datatype Float = Finite(v: real) | PosInf | NegInf | NaN

  /** Rust's saturating `f32 as u32`: NaN and negatives give 0, values at or
      above 2^32 give 2^32 - 1, others are truncated. */
  function SaturatingU32(f: Float): (r: nat)
    ensures r < U32
    ensures f.Finite? && 0.0 <= f.v < U32 as real ==> r as real <= f.v < r as real + 1.0
  {
    match f
    case NaN => 0
    case NegInf => 0
    case PosInf => U32 - 1
    case Finite(v) => if v <= 0.0 then 0 else if v >= U32 as real then U32 - 1 else v.Floor
  }

  /** `parse_float_from_line(line).unwrap_or(0.0) as u32`: the text after the
      first ':' (up to the next one), trimmed and parsed by `parseF32`. */
  function FieldValue(line: string, parseF32: string -> Option<Float>): nat {
    var parts := Split(line, ":");
    if |parts| < 2 then 0
    else match parseF32(Trim(parts[1], Rust))
      case None => 0
      case Some(f) => SaturatingU32(f)
  }

  datatype Rect = Rect(x: nat, y: nat, width: nat, height: nat)

  predicate IsRectLine(t: string) {
    Contains(t, "m_Rect:") || Contains(t, "rect:")
  }

  /** The field a trimmed window line sets: the first of the prefixes "x:",
      "y:", "width:" and "height:" it starts with. */
  datatype Field = XField | YField | WidthField | HeightField | NoField

  function FieldOf(t: string): Field {
    if IsPrefix("x:", t) then XField
    else if IsPrefix("y:", t) then YField
    else if IsPrefix("width:", t) then WidthField
    else if IsPrefix("height:", t) then HeightField
    else NoField
  }

  /** No "height:" line also starts with "x:", "y:" or "width:". */
  lemma HeightFieldIff(t: string)
    ensures FieldOf(t) == HeightField <==> IsPrefix("height:", t)
  {
    if IsPrefix("height:", t) {
      assert t[..2][0] == t[..6][0] == t[..7][0] == 'h';
    }
  }

  function SetField(r: Rect, f: Field, v: nat): Rect {
    match f
    case XField => r.(x := v)
    case YField => r.(y := v)
    case WidthField => r.(width := v)
    case HeightField => r.(height := v)
    case NoField => r
  }

  function GetField(r: Rect, f: Field): nat {
    match f
    case XField => r.x
    case YField => r.y
    case WidthField => r.width
    case HeightField => r.height
    case NoField => 0
  }

  /** A line of the file, trimmed, with the field it would set and the value
      it would set it to. */
  datatype Line = Line(text: string, field: Field, value: nat)

  function LineOf(l: string, parseF32: string -> Option<Float>): Line {
    var t := Trim(l, Rust);
    Line(t, FieldOf(t), FieldValue(t, parseF32))
  }

  function Analyse(lines: seq<string>, parseF32: string -> Option<Float>): (r: seq<Line>)
    ensures |r| == |lines|
    ensures forall k :: 0 <= k < |lines| ==> r[k] == LineOf(lines[k], parseF32)
  {
    seq(|lines|, k requires 0 <= k < |lines| => LineOf(lines[k], parseF32))
  }

  /** The window of the rectangle line `i`, from line `k` on: the lines
      `i + 1` to `i + 9`, stopping after a `height:` line. */
  function Window(ls: seq<Line>, i: nat, k: nat, r: Rect): Rect
    requires i < k <= i + 10
    decreases i + 10 - k
  {
    if k == i + 10 || k >= |ls| then r
    else
      var next := SetField(r, ls[k].field, ls[k].value);
      if ls[k].field == HeightField then next else Window(ls, i, k + 1, next)
  }

  /** The lines from `i` on, each rectangle line updating `r` from its window. */
  function Scan(ls: seq<Line>, i: nat, r: Rect): Rect
    decreases |ls| - i
  {
    if i >= |ls| then r
    else
      var next := if IsRectLine(ls[i].text) then Window(ls, i, i + 1, r) else r;
      Scan(ls, i + 1, next)
  }

  const ParseAssetError := "Could not parse sprite dimensions from asset file"

  /** The specification of `parse_asset_file`. */
  function ParseAsset(content: string, parseF32: string -> Option<Float>): Result<Rect> {
    var r := Scan(Analyse(Lines(content), parseF32), 0, Rect(0, 0, 0, 0));
    if r.width == 0 || r.height == 0 then Err(ParseAssetError) else Ok(r)
  }

  /** The body of the window loop for the trimmed line `next`: the first
      matching prefix sets its field, and a `height:` line ends the window. */
  method ApplyLine(next: string, r: Rect, parseF32: string -> Option<Float>) returns (r': Rect, stop: bool)
    ensures r' == SetField(r, FieldOf(next), FieldValue(next, parseF32))
    ensures stop <==> FieldOf(next) == HeightField
  {
    r', stop := r, false;
    if IsPrefix("x:", next) {
      r' := r.(x := FieldValue(next, parseF32));
    } else if IsPrefix("y:", next) {
      r' := r.(y := FieldValue(next, parseF32));
    } else if IsPrefix("width:", next) {
      r' := r.(width := FieldValue(next, parseF32));
    } else if IsPrefix("height:", next) {
      r' := r.(height := FieldValue(next, parseF32));
      stop := true;
    }
  }

  /** The window loop after the rectangle line `i`. */
  method ScanWindow(lines: seq<string>, i: nat, r: Rect, parseF32: string -> Option<Float>) returns (r': Rect)
    ensures r' == Window(Analyse(lines, parseF32), i, i + 1, r)
  {
    ghost var ls := Analyse(lines, parseF32);
    r' := r;
    var j := 1;
    while j < 10
      invariant 1 <= j <= 10
      invariant Window(ls, i, i + 1, r) == Window(ls, i, i + j, r')
    {
      if i + j >= |lines| {
        break;
      }
      var next := Trim(lines[i + j], Rust);
      assert ls[i + j] == Line(next, FieldOf(next), FieldValue(next, parseF32));
      var stop;
      r', stop := ApplyLine(next, r', parseF32);
      if stop {
        break;
      }
      j := j + 1;
    }
  }

  /** `parse_asset_file`: the loop over the lines, with the window loop after
      each rectangle line. */
  method ParseAssetFile(content: string, parseF32: string -> Option<Float>) returns (res: Result<Rect>)
    ensures res == ParseAsset(content, parseF32)
    ensures res.Err? ==> res.error == ParseAssetError
    ensures res.Ok? ==> res.value.width > 0 && res.value.height > 0
  {
    var lines := Lines(content);
    ghost var ls := Analyse(lines, parseF32);
    var r := Rect(0, 0, 0, 0);
    var i := 0;
    while i < |lines|
      invariant 0 <= i <= |lines|
      invariant Scan(ls, 0, Rect(0, 0, 0, 0)) == Scan(ls, i, r)
    {
      var trimmed := Trim(lines[i], Rust);
      assert ls[i].text == trimmed;
      if IsRectLine(trimmed) {
        r := ScanWindow(lines, i, r, parseF32);
      }
      i := i + 1;
    }
    if r.width == 0 || r.height == 0 {
      return Err(ParseAssetError);
    }
    return Ok(r);
  }

  /** Without a rectangle line from `i` on, the scan leaves `r` as it is. */
  lemma {:induction false} ScanNoRect(ls: seq<Line>, i: nat, r: Rect)
    requires forall k :: i <= k < |ls| ==> !IsRectLine(ls[k].text)
    ensures Scan(ls, i, r) == r
    decreases |ls| - i
  {
    if i < |ls| {
      ScanNoRect(ls, i + 1, r);
    }
  }

  /** Without a rectangle line nothing is set, so the parse fails. */
  lemma NoRectFails(content: string, parseF32: string -> Option<Float>)
    requires forall k :: 0 <= k < |Lines(content)| ==> !IsRectLine(Trim(Lines(content)[k], Rust))
    ensures ParseAsset(content, parseF32) == Err(ParseAssetError)
  {
    ScanNoRect(Analyse(Lines(content), parseF32), 0, Rect(0, 0, 0, 0));
  }

  /** A window sees only the 9 lines after its rectangle line. */
  lemma {:induction false} WindowLocal(ls: seq<Line>, i: nat, k: nat, r: Rect, n: nat)
    requires i < k <= i + 10 && i + 10 <= n <= |ls|
    ensures Window(ls, i, k, r) == Window(ls[..n], i, k, r)
    decreases i + 10 - k
  {
    if k < i + 10 {
      assert ls[..n][k] == ls[k];
      WindowLocal(ls, i, k + 1, SetField(r, ls[k].field, ls[k].value), n);
    }
  }

  /** A window changes a field only through a line classified as that field. */
  lemma {:induction false} WindowKeeps(ls: seq<Line>, i: nat, k: nat, r: Rect, f: Field)
    requires i < k <= i + 10
    requires forall m :: k <= m < i + 10 && m < |ls| ==> ls[m].field != f
    ensures GetField(Window(ls, i, k, r), f) == GetField(r, f)
    decreases i + 10 - k
  {
    if k < i + 10 && k < |ls| {
      WindowKeeps(ls, i, k + 1, SetField(r, ls[k].field, ls[k].value), f);
    }
  }

  /** The window stops at its first `height:` line, whose value it takes. */
  lemma {:induction false} WindowHeight(ls: seq<Line>, i: nat, k: nat, h: nat, r: Rect)
    requires i < k <= h < i + 10 && h < |ls|
    requires ls[h].field == HeightField
    requires forall m :: k <= m < h ==> ls[m].field != HeightField
    ensures Window(ls, i, k, r).height == ls[h].value
    decreases i + 10 - k
  {
    if k < h {
      WindowHeight(ls, i, k + 1, h, SetField(r, ls[k].field, ls[k].value));
    }
  }

  /** The lines from `i` up to `n` folded into `r`. */
  function ScanUpTo(ls: seq<Line>, i: nat, n: nat, r: Rect): Rect
    requires i <= n <= |ls|
    decreases n - i
  {
    if i == n then r
    else
      var next := if IsRectLine(ls[i].text) then Window(ls, i, i + 1, r) else r;
      ScanUpTo(ls, i + 1, n, next)
  }

  lemma {:induction false} ScanPrefix(ls: seq<Line>, i: nat, n: nat, r: Rect)
    requires i <= n <= |ls|
    ensures Scan(ls, i, r) == Scan(ls, n, ScanUpTo(ls, i, n, r))
    decreases n - i
  {
    if i < n {
      var next := if IsRectLine(ls[i].text) then Window(ls, i, i + 1, r) else r;
      ScanPrefix(ls, i + 1, n, next);
    }
  }

  /** A later rectangle block overwrites earlier values: after the last
      rectangle line `i`, whose window has its first `height:` line at `h`,
      the scan ends with that line's height. */
  lemma ScanLastBlock(ls: seq<Line>, i: nat, h: nat, r: Rect)
    requires i < |ls| && IsRectLine(ls[i].text)
    requires forall k :: i < k < |ls| ==> !IsRectLine(ls[k].text)
    requires i < h < i + 10 && h < |ls| && ls[h].field == HeightField
    requires forall k :: i < k < h ==> ls[k].field != HeightField
    ensures Scan(ls, 0, r).height == ls[h].value
  {
    ScanPrefix(ls, 0, i, r);
    var before := ScanUpTo(ls, 0, i, r);
    var w := Window(ls, i, i + 1, before);
    ScanNoRect(ls, i + 1, w);
    WindowHeight(ls, i, i + 1, h, before);
  }

  /** The same for a whole file, in terms of its trimmed lines: a zero height
      there fails the parse, and a successful parse reports that height. */
  lemma LastBlockHeight(content: string, i: nat, h: nat, parseF32: string -> Option<Float>)
    requires var ls := Lines(content);
      i < |ls| && IsRectLine(Trim(ls[i], Rust))
      && (forall k :: i < k < |ls| ==> !IsRectLine(Trim(ls[k], Rust)))
      && i < h < i + 10 && h < |ls| && IsPrefix("height:", Trim(ls[h], Rust))
      && (forall k :: i < k < h ==> !IsPrefix("height:", Trim(ls[k], Rust)))
    ensures var v := FieldValue(Trim(Lines(content)[h], Rust), parseF32);
      (v == 0 ==> ParseAsset(content, parseF32).Err?)
      && (ParseAsset(content, parseF32).Ok? ==> ParseAsset(content, parseF32).value.height == v)
  {
    var lines := Lines(content);
    BlockHeight(lines, i, h, parseF32);
    var r := Scan(Analyse(lines, parseF32), 0, Rect(0, 0, 0, 0));
    assert ParseAsset(content, parseF32) == if r.width == 0 || r.height == 0 then Err(ParseAssetError) else Ok(r);
  }

  /** `LastBlockHeight` on the file's lines. */
  lemma BlockHeight(lines: seq<string>, i: nat, h: nat, parseF32: string -> Option<Float>)
    requires i < |lines| && IsRectLine(Trim(lines[i], Rust))
      && (forall k :: i < k < |lines| ==> !IsRectLine(Trim(lines[k], Rust)))
      && i < h < i + 10 && h < |lines| && IsPrefix("height:", Trim(lines[h], Rust))
      && (forall k :: i < k < h ==> !IsPrefix("height:", Trim(lines[k], Rust)))
    ensures Scan(Analyse(lines, parseF32), 0, Rect(0, 0, 0, 0)).height == FieldValue(Trim(lines[h], Rust), parseF32)
  {
    var ls := Analyse(lines, parseF32);
    assert ls[h] == LineOf(lines[h], parseF32);
    HeightFieldIff(ls[h].text);
    forall k | i < k < h ensures ls[k].field != HeightField {
      HeightFieldIff(ls[k].text);
    }
    ScanLastBlock(ls, i, h, Rect(0, 0, 0, 0));
  }

  // ---- directory listing ----

  /** A directory entry as `fs::read_dir` yields it: an error, or a file
      name that is valid UTF-8 (`Some`) or not (`None`). */
  datatype DirEntry = EntryErr(message: string) | Entry(name: Option<string>)

  /** `names` before the names of `r`, or the error of `r`. */
  function Prepend(names: seq<string>, r: Result<seq<string>>): Result<seq<string>> {
    match r
    case Err(m) => Err(m)
    case Ok(rest) => Ok(names + rest)
  }

  /** The specification of the entry loop of `read_directory`. */
  function ListEntries(entries: seq<DirEntry>): (r: Result<seq<string>>)
    ensures r.Err? <==> exists k :: 0 <= k < |entries| && entries[k].EntryErr?
    ensures r.Ok? ==> forall n :: n in r.value <==> Entry(Some(n)) in entries
    ensures r.Ok? ==> |r.value| <= |entries|
  {
    if entries == [] then Ok([])
    else
      assert forall k :: 1 <= k < |entries| ==> entries[k] == entries[1..][k - 1];
      assert forall e :: e in entries <==> e == entries[0] || e in entries[1..];
      match entries[0]
      case EntryErr(m) => Err("Error reading entry: " + m)
      case Entry(name) => Prepend(if name.Some? then [name.value] else [], ListEntries(entries[1..]))
  }

  /** The error reported is the one of the first failing entry. */
  lemma {:induction false} ListEntriesFirstError(entries: seq<DirEntry>, k: nat)
    requires k < |entries| && entries[k].EntryErr?
    requires forall i :: 0 <= i < k ==> entries[i].Entry?
    ensures ListEntries(entries) == Err("Error reading entry: " + entries[k].message)
  {
    if k > 0 {
      assert entries[1..][k - 1] == entries[k];
      ListEntriesFirstError(entries[1..], k - 1);
    }
  }

  lemma PrependNil(r: Result<seq<string>>)
    ensures Prepend([], r) == r
  {
    if r.Ok? {
      assert [] + r.value == r.value;
    }
  }

  lemma PrependPrepend(a: seq<string>, b: seq<string>, r: Result<seq<string>>)
    ensures Prepend(a, Prepend(b, r)) == Prepend(a + b, r)
  {
    if r.Ok? {
      assert a + (b + r.value) == (a + b) + r.value;
    }
  }

  /** `read_directory`: `listing` is the outcome of opening the directory. */
  method ReadDirectory(path: string, listing: Result<seq<DirEntry>>) returns (r: Result<seq<string>>)
    ensures listing.Err? ==> r == Err("Error reading directory " + path + ": " + listing.error)
    ensures listing.Ok? ==> r == ListEntries(listing.value)
  {
    if listing.Err? {
      return Err("Error reading directory " + path + ": " + listing.error);
    }
    var entries := listing.value;
    var result: seq<string> := [];
    var i := 0;
    assert entries[0..] == entries;
    PrependNil(ListEntries(entries));
    while i < |entries|
      invariant 0 <= i <= |entries|
      invariant ListEntries(entries) == Prepend(result, ListEntries(entries[i..]))
    {
      var rest := entries[i..];
      assert rest[0] == entries[i] && rest[1..] == entries[i + 1..];
      match entries[i]
      case EntryErr(m) =>
        assert ListEntries(rest) == Err("Error reading entry: " + m);
        return Err("Error reading entry: " + m);
      case Entry(name) =>
        var found: seq<string> := if name.Some? then [name.value] else [];
        assert ListEntries(rest) == Prepend(found, ListEntries(entries[i + 1..]));
        PrependPrepend(result, found, ListEntries(entries[i + 1..]));
        result := result + found;
      i := i + 1;
    }
    assert entries[i..] == [];
    assert result + [] == result;
    return Ok(result);
  }
}
