// The hero search box of src/app/editor/@left_panel/heroes/page.tsx: a term
// with `|` keeps heroes matching any of its parts, a term with `+` (and no
// `|`) keeps heroes matching all of its parts, any other term is matched as
// a whole, and a blank term keeps every hero.

module HeroSearch {
  import opened Wrappers
  import opened Text
  import opened ProjectStore

  /** A term matches a hero when it occurs in the lower-cased name, in the id
      as it is (not case-folded), or in the lower-cased folder name. */
  predicate Matches(h: Hero, term: string) {
    Contains(ToLower(h.name), term) || Contains(h.id, term) || Contains(ToLower(h.folderName), term)
  }

  function Clean(q: string): string {
    ToLower(Trim(q, Js))
  }

  /** The parts passed through `clean`, with the empty results dropped. */
  function CleanParts(parts: seq<string>, clean: string -> string): (r: seq<string>)
    ensures |r| <= |parts|
    ensures forall t :: t in r ==> t != ""
  {
    if parts == [] then []
    else
      var p := clean(parts[0]);
      if p == "" then CleanParts(parts[1..], clean) else [p] + CleanParts(parts[1..], clean)
  }

  /** No part survives exactly when every part cleans to the empty text. */
  lemma {:induction false} CleanPartsEmpty(parts: seq<string>, clean: string -> string)
    ensures CleanParts(parts, clean) == [] <==> forall i :: 0 <= i < |parts| ==> clean(parts[i]) == ""
  {
    if parts != [] {
      CleanPartsEmpty(parts[1..], clean);
      assert forall i :: 1 <= i < |parts| ==> parts[i] == parts[1..][i - 1];
    }
  }

  /** Some surviving part satisfies `m` exactly when some part cleans to a
      non-empty text that does. */
  lemma {:induction false} CleanPartsAny(parts: seq<string>, clean: string -> string, m: string -> bool)
    ensures (exists t :: t in CleanParts(parts, clean) && m(t))
        <==> exists i :: 0 <= i < |parts| && clean(parts[i]) != "" && m(clean(parts[i]))
  {
    if parts != [] {
      CleanPartsAny(parts[1..], clean, m);
      assert forall i :: 1 <= i < |parts| ==> parts[i] == parts[1..][i - 1];
      if exists i :: 0 <= i < |parts| && clean(parts[i]) != "" && m(clean(parts[i])) {
        var i :| 0 <= i < |parts| && clean(parts[i]) != "" && m(clean(parts[i]));
        if i == 0 {
          assert clean(parts[0]) in CleanParts(parts, clean);
        } else {
          assert clean(parts[1..][i - 1]) != "" && m(clean(parts[1..][i - 1]));
        }
      }
    }
  }

  /** Every surviving part satisfies `m` exactly when every part that cleans
      to a non-empty text does. */
  lemma {:induction false} CleanPartsAll(parts: seq<string>, clean: string -> string, m: string -> bool)
    ensures (forall t :: t in CleanParts(parts, clean) ==> m(t))
        <==> forall i :: 0 <= i < |parts| && clean(parts[i]) != "" ==> m(clean(parts[i]))
  {
    if parts != [] {
      CleanPartsAll(parts[1..], clean, m);
      assert forall i :: 1 <= i < |parts| ==> parts[i] == parts[1..][i - 1];
      if clean(parts[0]) != "" {
        assert clean(parts[0]) in CleanParts(parts, clean);
      }
    }
  }

  /** `term.split(sep).map(t => t.trim().toLowerCase()).filter(t => t.length > 0)`. */
  function Terms(term: string, sep: string): seq<string>
    requires |sep| > 0
  {
    CleanParts(Split(term, sep), Clean)
  }

  /** The filter predicate of the hero list. */
  predicate Keep(h: Hero, term: string) {
    if IsBlank(term, Js) then true
    else if Contains(term, "|") then
      var ts := Terms(term, "|");
      ts == [] || exists t :: t in ts && Matches(h, t)
    else if Contains(term, "+") then
      var ts := Terms(term, "+");
      ts == [] || forall t :: t in ts ==> Matches(h, t)
    else Matches(h, ToLower(term))
  }

  /** `heroes.filter(hero => Keep(hero, term))`. */
  function FilteredHeroes(heroes: seq<Hero>, term: string): (r: seq<Hero>)
    ensures forall h :: h in r <==> h in heroes && Keep(h, term)
    ensures |r| <= |heroes|
  {
    if heroes == [] then []
    else
      var rest := FilteredHeroes(heroes[1..], term);
      assert forall h :: h in heroes <==> h == heroes[0] || h in heroes[1..];
      if Keep(heroes[0], term) then [heroes[0]] + rest else rest
  }

  /** `a` is `b` with some elements removed, the rest in their order. */
  predicate Subsequence<T(==)>(a: seq<T>, b: seq<T>)
    decreases |b|
  {
    if a == [] then true
    else if b == [] then false
    else if a[0] == b[0] then Subsequence(a[1..], b[1..])
    else Subsequence(a, b[1..])
  }

  /** The filtered list keeps the heroes' order. */
  lemma {:induction false} FilteredIsSubsequence(heroes: seq<Hero>, term: string)
    ensures Subsequence(FilteredHeroes(heroes, term), heroes)
  {
    if heroes != [] {
      FilteredIsSubsequence(heroes[1..], term);
      var rest := FilteredHeroes(heroes[1..], term);
      if Keep(heroes[0], term) {
        assert ([heroes[0]] + rest)[1..] == rest;
      } else {
        SubsequenceSkip(rest, heroes[0], heroes[1..]);
      }
    }
  }

  /** Each kept hero appears as often as in the input, each dropped one never. */
  lemma {:induction false} FilteredMultiplicity(heroes: seq<Hero>, term: string, h: Hero)
    ensures multiset(FilteredHeroes(heroes, term))[h] == if Keep(h, term) then multiset(heroes)[h] else 0
  {
    if heroes != [] {
      var x, tail := heroes[0], heroes[1..];
      FilteredMultiplicity(tail, term, h);
      var rest := FilteredHeroes(tail, term);
      assert heroes == [x] + tail;
      assert multiset(heroes)[h] == multiset{x}[h] + multiset(tail)[h];
      if Keep(x, term) {
        assert FilteredHeroes(heroes, term) == [x] + rest;
        assert multiset([x] + rest)[h] == multiset{x}[h] + multiset(rest)[h];
      } else {
        assert FilteredHeroes(heroes, term) == rest;
      }
    }
  }

  lemma {:induction false} SubsequenceSkip<T>(a: seq<T>, x: T, b: seq<T>)
    requires Subsequence(a, b)
    ensures Subsequence(a, [x] + b)
    decreases |b|, 1
  {
    assert ([x] + b)[1..] == b;
    if a != [] && a[0] == x {
      SubsequenceDrop(a, b);
    }
  }

  lemma {:induction false} SubsequenceDrop<T>(a: seq<T>, b: seq<T>)
    requires a != [] && Subsequence(a, b)
    ensures Subsequence(a[1..], b)
    decreases |b|, 0
  {
    if a[1..] != [] {
      if a[0] != b[0] {
        SubsequenceDrop(a, b[1..]);
      }
      SubsequenceSkip(a[1..], b[0], b[1..]);
      assert [b[0]] + b[1..] == b;
    }
  }

  /** A blank term keeps every hero. */
  lemma BlankKeepsAll(heroes: seq<Hero>, term: string)
    requires Trim(term, Js) == ""
    ensures FilteredHeroes(heroes, term) == heroes
  {
    BlankIffTrimEmpty(term, Js);
    FilteredAll(heroes, term);
  }

  lemma {:induction false} FilteredAll(heroes: seq<Hero>, term: string)
    requires forall h :: h in heroes ==> Keep(h, term)
    ensures FilteredHeroes(heroes, term) == heroes
  {
    if heroes != [] {
      assert forall h :: h in heroes[1..] ==> h in heroes;
      FilteredAll(heroes[1..], term);
    }
  }

  /** With a `|` the term is split on `|` only (a `+` inside a part stays
      literal); a hero is kept when any trimmed, lower-cased, non-empty part
      matches it, or when there is no such part. */
  lemma OrSearch(h: Hero, term: string)
    requires !IsBlank(term, Js) && Contains(term, "|")
    ensures var qs := Split(term, "|");
      Keep(h, term) <==>
        (forall i :: 0 <= i < |qs| ==> Clean(qs[i]) == "")
        || (exists i :: 0 <= i < |qs| && Clean(qs[i]) != "" && Matches(h, Clean(qs[i])))
  {
    var qs := Split(term, "|");
    var m := t => Matches(h, t);
    KeepSome(h, term);
    CleanPartsEmpty(qs, Clean);
    CleanPartsAny(qs, Clean, m);
    assert (exists i :: 0 <= i < |qs| && Clean(qs[i]) != "" && m(Clean(qs[i])))
      <==> exists i :: 0 <= i < |qs| && Clean(qs[i]) != "" && Matches(h, Clean(qs[i]));
  }

  /** With a `|` the term keeps a hero that some part matches, or every hero
      when there are no parts. */
  lemma KeepSome(h: Hero, term: string)
    requires !IsBlank(term, Js) && Contains(term, "|")
    ensures var ts := CleanParts(Split(term, "|"), Clean);
      Keep(h, term) <==> ts == [] || exists t :: t in ts && Matches(h, t)
  {
  }

  /** With a `+` and no `|`, a hero is kept when every trimmed, lower-cased,
      non-empty part matches it. */
  lemma AndSearch(h: Hero, term: string)
    requires !IsBlank(term, Js) && !Contains(term, "|") && Contains(term, "+")
    ensures var qs := Split(term, "+");
      Keep(h, term) <==> forall i :: 0 <= i < |qs| && Clean(qs[i]) != "" ==> Matches(h, Clean(qs[i]))
  {
    var qs := Split(term, "+");
    var m := t => Matches(h, t);
    KeepEvery(h, term);
    CleanPartsAll(qs, Clean, m);
    assert (forall i :: 0 <= i < |qs| && Clean(qs[i]) != "" ==> m(Clean(qs[i])))
      <==> forall i :: 0 <= i < |qs| && Clean(qs[i]) != "" ==> Matches(h, Clean(qs[i]));
  }

  /** With a `+` and no `|` the term keeps a hero that every part matches;
      an empty list of parts is kept by the `every` test as well. */
  lemma KeepEvery(h: Hero, term: string)
    requires !IsBlank(term, Js) && !Contains(term, "|") && Contains(term, "+")
    ensures Keep(h, term) <==> forall t :: t in CleanParts(Split(term, "+"), Clean) ==> Matches(h, t)
  {
  }

  /** Without `|` or `+`, a non-blank term is matched whole, lower-cased and
      not trimmed: its surrounding spaces must occur in the hero's fields. */
  lemma SingleSearch(h: Hero, term: string)
    requires !IsBlank(term, Js) && !Contains(term, "|") && !Contains(term, "+")
    ensures Keep(h, term) <==> Matches(h, ToLower(term))
  {
  }
}
