// The document splitter of src-tauri/src/unity/prefab.rs (`read_prefab`): a
// Unity prefab is YAML text cut into documents by header lines of the form
// `--- !u!<class> &<id>`. The YAML and serde decoding of a document's body is
// a parameter, a partial function from the body text to the element.

module PrefabDocuments {
  import opened Wrappers
  import opened Text

  // ---- the decoded elements ----

  /** `FileReference` / `MController`: a file id and an optional asset guid. */
  datatype Ref = Ref(fileId: int, guid: Option<string>)

  /** `MLocal`: a position, scale or rotation, copied as read. */
  datatype Local = Local(x: real, y: real, z: real, w: Option<real>)

  datatype GameObject = GameObject(name: string, isActive: int)

  /** A transform: its child transform ids, its parent's id (0 for none) and
      the id of the game object it belongs to. */
  datatype Transform = Transform(
    children: seq<int>,
    father: int,
    gameObject: int,
    position: Local,
    scale: Local,
    rotation: Local,
    eulerHint: Local)

  datatype SpriteRenderer = SpriteRenderer(gameObject: int, sprite: Ref, sortingOrder: int, flipX: int, flipY: int)

  datatype Animator = Animator(gameObject: int, enabled: int, controller: Ref)

  datatype ParticleSystem = ParticleSystem(gameObject: int, enabled: int)

  datatype MonoBehaviour = MonoBehaviour(
    gameObject: int,
    unitId: Option<int>,
    isUi: Option<int>,
    pauseUpdateUi: Option<int>,
    script: Ref)

  /** `PrefabElement`: one document, with the component it holds. */
  datatype Element = Element(
    id: int,
    gameObject: Option<GameObject>,
    transform: Option<Transform>,
    animator: Option<Animator>,
    mono: Option<MonoBehaviour>,
    sprite: Option<SpriteRenderer>,
    particles: Option<ParticleSystem>)

  // ---- header lines ----

  const HeaderPrefix := "--- !u!"

  predicate IsHeader(line: string) {
    IsPrefix(HeaderPrefix, line)
  }

  /** A non-empty run of characters that are not whitespace. */
  predicate IsWord(w: string) {
    |w| > 0 && forall i :: 0 <= i < |w| ==> !IsSpace(w[i], Rust)
  }

  /** The longest prefix of `s` without whitespace. */
  function WordPrefix(s: string): (r: string)
    ensures |r| <= |s| && r == s[..|r|]
    ensures forall i :: 0 <= i < |r| ==> !IsSpace(r[i], Rust)
    ensures |r| < |s| ==> IsSpace(s[|r|], Rust)
  {
    if s == [] || IsSpace(s[0], Rust) then [] else [s[0]] + WordPrefix(s[1..])
  }

  /** `str::split_whitespace`: the maximal runs of non-whitespace characters. */
  function Words(s: string): seq<string>
    decreases |s|
  {
    if s == [] then []
    else if IsSpace(s[0], Rust) then Words(s[1..])
    else
      var w := WordPrefix(s);
      [w] + Words(s[|w|..])
  }

  /** Every piece `split_whitespace` yields is a word. */
  lemma {:induction false} WordsAreWords(s: string)
    ensures forall k :: 0 <= k < |Words(s)| ==> IsWord(Words(s)[k])
    decreases |s|
  {
    if s != [] {
      if IsSpace(s[0], Rust) {
        WordsAreWords(s[1..]);
      } else {
        WordsAreWords(s[|WordPrefix(s)|..]);
      }
    }
  }

  lemma {:induction false} WordPrefixOf(w: string, rest: string)
    requires forall i :: 0 <= i < |w| ==> !IsSpace(w[i], Rust)
    requires rest == [] || IsSpace(rest[0], Rust)
    ensures WordPrefix(w + rest) == w
  {
    if w != [] {
      assert (w + rest)[1..] == w[1..] + rest;
      WordPrefixOf(w[1..], rest);
    } else {
      assert w + rest == rest;
    }
  }

  /** A word followed by a space is the first of the words. */
  lemma WordsCons(w: string, rest: string)
    requires IsWord(w)
    ensures Words(w + " " + rest) == [w] + Words(rest)
  {
    var s := w + " " + rest;
    WordPrefixOf(w, " " + rest);
    assert s == w + (" " + rest);
    assert s[|w|..] == " " + rest;
    assert (" " + rest)[1..] == rest;
  }

  lemma WordsOne(w: string)
    requires IsWord(w)
    ensures Words(w) == [w]
  {
    WordPrefixOf(w, []);
    assert w + [] == w;
  }

  /** `trim_start_matches(c)`: every leading `c` removed. */
  function TrimLeading(s: string, c: char): (r: string)
    ensures |r| <= |s| && r == s[|s| - |r|..]
    ensures r != [] ==> r[0] != c
    ensures forall i :: 0 <= i < |s| - |r| ==> s[i] == c
  {
    if s != [] && s[0] == c then TrimLeading(s[1..], c) else s
  }

  const I64Min: int := -0x8000_0000_0000_0000
  const I64Max: int := 0x7FFF_FFFF_FFFF_FFFF

  /** `str::parse::<i64>`: an optional sign, then one or more ASCII digits,
      with a value that fits in 64 bits. */
  function ParseI64(s: string): (r: Option<int>)
    ensures r.Some? ==> I64Min <= r.value <= I64Max
    ensures r.Some? ==> s != [] && (s[0] == '-' || s[0] == '+' || IsDigit(s[0]))
  {
    if s == [] then None
    else
      var digits := if s[0] == '-' || s[0] == '+' then s[1..] else s;
      if digits == [] || !AllDigits(digits) then None
      else
        var v: int := if s[0] == '-' then -(DecValue(digits) as int) else DecValue(digits);
        if I64Min <= v <= I64Max then Some(v) else None
  }

  /** Every 64-bit integer parses back from its decimal rendering. */
  lemma ParseIntToString(n: int)
    requires I64Min <= n <= I64Max
    ensures ParseI64(IntToString(n)) == Some(n)
  {
    if n < 0 {
      var s := IntToString(n);
      assert s[1..] == NatToString(-n);
    }
  }

  /** The id of a header line: exactly three whitespace-separated tokens,
      the third an integer after its leading '&'s are removed. */
  function HeaderId(line: string): Option<int> {
    var parts := Words(line);
    if |parts| != 3 then None else ParseI64(TrimLeading(parts[2], '&'))
  }

  // ---- documents ----

  /** What a line is to the splitter: a body line, a header whose id does
      not parse, or a header with its id. */
  datatype Kind = Body | BadHeader | Header(id: int)

  function KindOf(line: string): Kind {
    if !IsHeader(line) then Body
    else
      match HeaderId(line)
      case None => BadHeader
      case Some(id) => Header(id)
  }

  /** The kind of each line. */
  function Kinds(ls: seq<string>): seq<Kind> {
    seq(|ls|, k requires 0 <= k < |ls| => KindOf(ls[k]))
  }

  lemma KindsAppend(a: seq<string>, b: seq<string>)
    ensures Kinds(a + b) == Kinds(a) + Kinds(b)
  {
    assert forall k :: 0 <= k < |a| + |b| ==> (Kinds(a) + Kinds(b))[k] == KindOf((a + b)[k]);
  }

  /** The number of body lines before the next header. */
  function BodyLen(ks: seq<Kind>): (n: nat)
    ensures n <= |ks|
  {
    if ks == [] || !ks[0].Body? then 0 else 1 + BodyLen(ks[1..])
  }

  lemma BodyLenIs(ks: seq<Kind>, n: nat)
    requires n <= |ks|
    requires forall k :: 0 <= k < n ==> ks[k].Body?
    requires n < |ks| ==> !ks[n].Body?
    ensures BodyLen(ks) == n
  {
    if n > 0 {
      BodyLenIs(ks[1..], n - 1);
    }
  }

  /** A document's element: its body decoded, with the header's id. */
  function DecodeDoc(body: seq<string>, id: int, decode: string -> Option<Element>): seq<Element> {
    match decode(Join(body, "\n"))
    case None => []
    case Some(e) => [e.(id := id)]
  }

  /** The elements of the lines `ls` of kinds `ks`: a header with a valid id
      starts a document that runs to the next header; other lines outside
      documents, and headers without a valid id, are skipped. */
  function Documents(ls: seq<string>, ks: seq<Kind>, decode: string -> Option<Element>): seq<Element>
    requires |ks| == |ls|
    decreases |ls|, 1
  {
    if ls == [] then []
    else
      match ks[0]
      case Header(id) => DocumentAt(ls, ks, id, decode)
      case _ => Documents(ls[1..], ks[1..], decode)
  }

  /** The document a valid header at the first line starts, then the rest. */
  function DocumentAt(ls: seq<string>, ks: seq<Kind>, id: int, decode: string -> Option<Element>): seq<Element>
    requires |ks| == |ls| && 1 <= |ls|
    decreases |ls|, 0
  {
    var n := BodyLen(ks[1..]);
    DecodeDoc(ls[1..1 + n], id, decode) + Documents(ls[1 + n..], ks[1 + n..], decode)
  }

  /** The specification of `read_prefab` on the text of a file. */
  function Prefab(content: string, decode: string -> Option<Element>): seq<Element> {
    var ls := Lines(content);
    Documents(ls, Kinds(ls), decode)
  }

  /** `Documents` at a line that starts no document. */
  lemma DocumentsSkip(ls: seq<string>, ks: seq<Kind>, decode: string -> Option<Element>)
    requires |ks| == |ls| && 1 <= |ls| && !ks[0].Header?
    ensures Documents(ls, ks, decode) == Documents(ls[1..], ks[1..], decode)
  {
  }

  /** A line that does not start a document is skipped. */
  lemma SkipStep(ls: seq<string>, ks: seq<Kind>, i: nat, decode: string -> Option<Element>)
    requires |ks| == |ls| && i < |ls| && !ks[i].Header?
    ensures Documents(ls[i..], ks[i..], decode) == Documents(ls[i + 1..], ks[i + 1..], decode)
  {
    var ls', ks' := ls[i..], ks[i..];
    DocumentsSkip(ls', ks', decode);
    assert ls'[1..] == ls[i + 1..];
    assert ks'[1..] == ks[i + 1..];
  }

  /** A header at line `i` whose body ends before line `j`. */
  lemma HeaderStep(ls: seq<string>, ks: seq<Kind>, i: nat, j: nat, decode: string -> Option<Element>)
    requires |ks| == |ls| && i < |ls| && ks[i].Header?
    requires i + 1 <= |ls| && j == i + 1 + BodyLen(ks[i + 1..])
    ensures j <= |ls|
    ensures Documents(ls[i..], ks[i..], decode) == DecodeDoc(ls[i + 1..j], ks[i].id, decode) + Documents(ls[j..], ks[j..], decode)
  {
    var n := j - i - 1;
    var ls', ks' := ls[i..], ks[i..];
    SliceOfSlice(ks, i, 1, 1);
    assert BodyLen(ks'[1..]) == n;
    assert Documents(ls', ks', decode)
        == DecodeDoc(ls'[1..1 + n], ks[i].id, decode) + Documents(ls'[1 + n..], ks'[1 + n..], decode) by {
      DocumentsHead(ls', ks', decode);
    }
    assert ls'[1..1 + n] == ls[i + 1..j] by { SliceOfSlice(ls, i, 1, 1 + n); }
    assert ls'[1 + n..] == ls[j..] by { SliceOfSlice(ls, i, 1 + n, 1 + n); }
    assert ks'[1 + n..] == ks[j..] by { SliceOfSlice(ks, i, 1 + n, 1 + n); }
  }

  /** Slicing a suffix is slicing the whole sequence further on. */
  lemma SliceOfSlice<T>(s: seq<T>, i: nat, a: nat, b: nat)
    requires i + a <= i + b <= |s|
    ensures s[i..][a..b] == s[i + a..i + b]
    ensures s[i..][a..] == s[i + a..]
  {
  }

  /** The body loop: the lines from `start` up to the next header. */
  method ReadBody(lines: seq<string>, start: nat) returns (body: seq<string>, i: nat)
    requires start <= |lines|
    ensures i == start + BodyLen(Kinds(lines)[start..]) && body == lines[start..i]
  {
    body := [];
    i := start;
    while i < |lines| && !IsPrefix(HeaderPrefix, lines[i])
      invariant start <= i <= |lines|
      invariant body == lines[start..i]
      invariant forall k :: start <= k < i ==> !IsHeader(lines[k])
    {
      body := body + [lines[i]];
      i := i + 1;
    }
    BodyEnd(lines, start, i);
  }

  /** The body starting at `start` ends at the first header line. */
  lemma BodyEnd(lines: seq<string>, start: nat, i: nat)
    requires start <= i <= |lines|
    requires forall k :: start <= k < i ==> !IsHeader(lines[k])
    requires i < |lines| ==> IsHeader(lines[i])
    ensures i == start + BodyLen(Kinds(lines)[start..])
  {
    var ks := Kinds(lines)[start..];
    forall k | 0 <= k < i - start ensures ks[k].Body? {
      BodyKind(lines[start + k]);
    }
    if i < |lines| {
      assert !ks[i - start].Body? by {
        BodyKind(lines[i]);
      }
    }
    BodyLenIs(ks, i - start);
  }

  lemma BodyKind(line: string)
    ensures KindOf(line).Body? <==> !IsHeader(line)
  {
  }

  /** The header test of `read_prefab`: a line starting with `--- !u!`,
      three whitespace-separated tokens, and an id after the '&'s. */
  method ParseHeader(line: string) returns (id: Option<int>)
    ensures id.Some? <==> KindOf(line).Header?
    ensures id.Some? ==> KindOf(line) == Header(id.value)
  {
    if !IsPrefix(HeaderPrefix, line) {
      return None;
    }
    var parts := Words(line);
    if |parts| != 3 {
      return None;
    }
    id := ParseI64(TrimLeading(parts[2], '&'));
  }

  /** The header test on line `i`, stated through the kinds of all lines. */
  method ParseHeaderAt(lines: seq<string>, i: nat) returns (id: Option<int>)
    requires i < |lines|
    ensures id.Some? <==> Kinds(lines)[i].Header?
    ensures id.Some? ==> Kinds(lines)[i] == Header(id.value)
  {
    id := ParseHeader(lines[i]);
  }

  const ReadPrefix := "Failed to read prefab file: "

  /** `read_prefab`: `file` is the file's text or the error reading it. */
  method ReadPrefab(file: Result<string>, decode: string -> Option<Element>) returns (r: Result<seq<Element>>)
    ensures file.Err? ==> r == Err(ReadPrefix + file.error)
    ensures file.Ok? ==> r == Ok(Prefab(file.value, decode))
  {
    if file.Err? {
      return Err(ReadPrefix + file.error);
    }
    var elements := SplitLines(Lines(file.value), decode);
    return Ok(elements);
  }

  /** The loop of `read_prefab` over the lines of the file. */
  method SplitLines(lines: seq<string>, decode: string -> Option<Element>) returns (elements: seq<Element>)
    ensures elements == Documents(lines, Kinds(lines), decode)
  {
    ghost var ks := Kinds(lines);
    elements := [];
    var i := 0;
    assert lines[0..] == lines && ks[0..] == ks;
    while i < |lines|
      invariant 0 <= i <= |lines|
      invariant Documents(lines, ks, decode) == elements + Documents(lines[i..], ks[i..], decode)
    {
      var id := ParseHeaderAt(lines, i);
      if id.None? {
        assert Documents(lines, ks, decode) == elements + Documents(lines[i + 1..], ks[i + 1..], decode) by {
          SkipStep(lines, ks, i, decode);
        }
        i := i + 1;
      } else {
        var body, j := ReadBody(lines, i + 1);
        var element := decode(Join(body, "\n"));
        ghost var before := elements;
        if element.Some? {
          elements := elements + [element.value.(id := id.value)];
        }
        ghost var doc := DecodeDoc(body, id.value, decode);
        ghost var rest := Documents(lines[j..], ks[j..], decode);
        assert elements == before + doc;
        HeaderStep(lines, ks, i, j, decode);
        assert Documents(lines, ks, decode) == before + (doc + rest);
        AppendAssoc(before, doc, rest);
        i := j;
      }
    }
  }

  // ---- reading back what a writer produces ----

  /** A document as written: its class, its id and its body lines. */
  datatype Doc = Doc(classId: string, id: int, body: seq<string>)

  predicate Writable(d: Doc) {
    (forall i :: 0 <= i < |d.classId| ==> !IsSpace(d.classId[i], Rust))
    && I64Min <= d.id <= I64Max
    && (forall k :: 0 <= k < |d.body| ==> !IsHeader(d.body[k]))
  }

  /** `--- !u!<class> &<id>`, written as its three words. */
  function HeaderLine(d: Doc): string {
    "---" + " " + ("!u!" + d.classId) + " " + ("&" + IntToString(d.id))
  }

  /** The lines of a file holding `docs`, each header followed by its body. */
  function Render(docs: seq<Doc>): seq<string> {
    if docs == [] then [] else [HeaderLine(docs[0])] + docs[0].body + Render(docs[1..])
  }

  /** The elements of `docs` whose bodies decode, in order. */
  function Decoded(docs: seq<Doc>, decode: string -> Option<Element>): seq<Element> {
    if docs == [] then [] else DecodeDoc(docs[0].body, docs[0].id, decode) + Decoded(docs[1..], decode)
  }

  /** The words of a written header: the dashes, the class tag and the id. */
  lemma HeaderWords(d: Doc)
    requires Writable(d)
    ensures Words(HeaderLine(d)) == ["---", "!u!" + d.classId, "&" + IntToString(d.id)]
  {
    var w1, w2, w3 := "---", "!u!" + d.classId, "&" + IntToString(d.id);
    TagWord(d.classId);
    IdWord(d.id);
    assert IsWord(w1);
    ThreeWords(w1, w2, w3);
  }

  /** Three words joined by single spaces split back into them. */
  lemma ThreeWords(a: string, b: string, c: string)
    requires IsWord(a) && IsWord(b) && IsWord(c)
    ensures Words(a + " " + b + " " + c) == [a, b, c]
  {
    WordsOne(c);
    WordsCons(b, c);
    WordsCons(a, b + " " + c);
    assert a + " " + b + " " + c == a + " " + (b + " " + c);
  }

  lemma TagWord(classId: string)
    requires forall i :: 0 <= i < |classId| ==> !IsSpace(classId[i], Rust)
    ensures IsWord("!u!" + classId)
  {
    var w := "!u!" + classId;
    forall i | 0 <= i < |w| ensures !IsSpace(w[i], Rust) {
      if i >= 3 {
        assert w[i] == classId[i - 3];
      }
    }
  }

  lemma IdWord(n: int)
    ensures IsWord("&" + IntToString(n))
  {
    var digits := IntToString(n);
    var w := "&" + digits;
    forall i | 0 <= i < |w| ensures !IsSpace(w[i], Rust) {
      if i >= 1 {
        assert w[i] == digits[i - 1];
        assert digits[i - 1] == '-' || IsDigit(digits[i - 1]);
      }
    }
  }

  /** A written header is a header and gives back the document's id. */
  lemma HeaderLineId(d: Doc)
    requires Writable(d)
    ensures IsHeader(HeaderLine(d))
    ensures HeaderId(HeaderLine(d)) == Some(d.id)
    ensures KindOf(HeaderLine(d)) == Header(d.id)
  {
    var h := HeaderLine(d);
    var digits := IntToString(d.id);
    assert h[..|HeaderPrefix|] == HeaderPrefix;
    HeaderWords(d);
    assert TrimLeading("&" + digits, '&') == digits by {
      assert ("&" + digits)[1..] == digits;
      assert digits[0] != '&';
    }
    ParseIntToString(d.id);
  }

  /** A valid header, its body, then lines starting at a header. */
  lemma DocumentsCons(ls: seq<string>, ks: seq<Kind>, body: nat, decode: string -> Option<Element>)
    requires |ks| == |ls| && 1 + body <= |ls| && ks[0].Header?
    requires forall k :: 1 <= k <= body ==> ks[k].Body?
    requires 1 + body < |ls| ==> !ks[1 + body].Body?
    ensures Documents(ls, ks, decode) ==
      DecodeDoc(ls[1..1 + body], ks[0].id, decode) + Documents(ls[1 + body..], ks[1 + body..], decode)
  {
    BodyLenAfter(ks, body);
    DocumentsHead(ls, ks, decode);
  }

  /** `Documents` at a header. */
  lemma DocumentsHead(ls: seq<string>, ks: seq<Kind>, decode: string -> Option<Element>)
    requires |ks| == |ls| && 1 <= |ls| && ks[0].Header?
    ensures var n := BodyLen(ks[1..]);
      Documents(ls, ks, decode) ==
      DecodeDoc(ls[1..1 + n], ks[0].id, decode) + Documents(ls[1 + n..], ks[1 + n..], decode)
  {
    assert Documents(ls, ks, decode) == DocumentAt(ls, ks, ks[0].id, decode);
  }

  /** The body after the header at index 0. */
  lemma BodyLenAfter(ks: seq<Kind>, body: nat)
    requires 1 + body <= |ks|
    requires forall k :: 1 <= k <= body ==> ks[k].Body?
    requires 1 + body < |ks| ==> !ks[1 + body].Body?
    ensures BodyLen(ks[1..]) == body
  {
    var rest := ks[1..];
    forall k | 0 <= k < body ensures rest[k].Body? {
      assert rest[k] == ks[k + 1];
    }
    if body < |rest| {
      assert rest[body] == ks[1 + body];
    }
    BodyLenIs(rest, body);
  }

  /** Reading the lines of written documents gives each document's decoded
      element, with the document's id, in order. */
  lemma {:induction false} RenderRead(docs: seq<Doc>, decode: string -> Option<Element>)
    requires forall k :: 0 <= k < |docs| ==> Writable(docs[k])
    ensures Documents(Render(docs), Kinds(Render(docs)), decode) == Decoded(docs, decode)
  {
    if docs != [] {
      var d := docs[0];
      var tail := Render(docs[1..]);
      assert Render(docs) == [HeaderLine(d)] + d.body + tail;
      if docs[1..] != [] {
        HeaderLineId(docs[1]);
      }
      DocumentStep(d, tail, decode);
      RenderRead(docs[1..], decode);
    }
  }

  /** A written document followed by lines that start at a header or are
      empty reads as the document's element, then the rest. */
  lemma DocumentStep(d: Doc, tail: seq<string>, decode: string -> Option<Element>)
    requires Writable(d)
    requires tail != [] ==> !KindOf(tail[0]).Body?
    ensures var ls := [HeaderLine(d)] + d.body + tail;
      Documents(ls, Kinds(ls), decode) == DecodeDoc(d.body, d.id, decode) + Documents(tail, Kinds(tail), decode)
  {
    var h := HeaderLine(d);
    var ls := [h] + d.body + tail;
    var b := |d.body|;
    var ks := Kinds(ls);
    assert ks == [KindOf(h)] + Kinds(d.body) + Kinds(tail) by {
      KindsAppend([h] + d.body, tail);
      KindsAppend([h], d.body);
    }
    HeaderLineId(d);
    forall k | 1 <= k <= b ensures ks[k].Body? {
    }
    if tail != [] {
    }
    DocumentsCons(ls, ks, b, decode);
    assert ls[1..1 + b] == d.body;
    assert ls[1 + b..] == tail;
    assert ks[1 + b..] == Kinds(tail);
  }

  /** Lines before the first header are ignored. */
  lemma {:induction false} PreambleIgnored(ls: seq<string>, ks: seq<Kind>, p: nat, decode: string -> Option<Element>)
    requires |ks| == |ls| && p <= |ls|
    requires forall k :: 0 <= k < p ==> ks[k].Body?
    ensures Documents(ls, ks, decode) == Documents(ls[p..], ks[p..], decode)
  {
    if p > 0 {
      assert ls[1..][p - 1..] == ls[p..];
      assert ks[1..][p - 1..] == ks[p..];
      PreambleIgnored(ls[1..], ks[1..], p - 1, decode);
    }
  }

  /** A header without a valid id drops its whole document: its body lines
      are skipped like lines before the first header. */
  lemma BadHeaderDropsBody(h: string, body: seq<string>, rest: seq<string>, decode: string -> Option<Element>)
    requires IsHeader(h) && HeaderId(h).None?
    requires forall k :: 0 <= k < |body| ==> !IsHeader(body[k])
    ensures var ls := [h] + body + rest;
      Documents(ls, Kinds(ls), decode) == Documents(rest, Kinds(rest), decode)
  {
    var ls := [h] + body + rest;
    KindsAppend([h] + body, rest);
    KindsAppend([h], body);
    var ks := Kinds(ls);
    assert ks == [KindOf(h)] + Kinds(body) + Kinds(rest);
    forall k | 1 <= k < 1 + |body| ensures ks[k].Body? {
    }
    assert ls[1..] == body + rest;
    PreambleIgnored(ls[1..], ks[1..], |body|, decode);
    assert ls[1 + |body|..] == rest;
    assert ks[1 + |body|..] == Kinds(rest);
  }

  /** A file made of written documents, each line ending in "\n", reads
      back to the documents' decoded elements. */
  lemma ReadRendered(docs: seq<Doc>, decode: string -> Option<Element>)
    requires forall k :: 0 <= k < |docs| ==> Writable(docs[k])
    requires forall k :: 0 <= k < |Render(docs)| ==> IsPlainLine(Render(docs)[k])
    ensures Prefab(Terminated(Render(docs)), decode) == Decoded(docs, decode)
  {
    LinesOfTerminated(Render(docs));
    RenderRead(docs, decode);
  }
}
