// The hierarchy builder of src-tauri/src/unity/prefab.rs: `build_hierarchy`
// indexes the elements of a prefab by id and by game object, picks a root
// transform, and `build_node` turns each game object into a node whose
// children follow its transform's child list. Also `image_to_base64` and the
// `prefab_hierarchy` command that chains reading and building.

module PrefabHierarchy {
  import opened Wrappers
  import opened Text
  import opened PrefabDocuments

  // ---- the index ----

  /** The eight maps of `build_hierarchy`: game objects and transforms by
      element id, the two links between a transform and its game object,
      and the components by the id of the game object they belong to. */
  datatype Index = Index(
    gos: map<int, GameObject>,
    transforms: map<int, Transform>,
    transToGo: map<int, int>,
    goToTrans: map<int, int>,
    sprites: map<int, SpriteRenderer>,
    animators: map<int, Animator>,
    particles: map<int, ParticleSystem>,
    monos: map<int, seq<MonoBehaviour>>)

  const EmptyIndex := Index(map[], map[], map[], map[], map[], map[], map[], map[])

  /** A `HashMap::insert` of an optional entry. */
  function Put<T>(m: map<int, T>, entry: Option<(int, T)>): (r: map<int, T>)
    ensures entry.None? ==> r == m
    ensures entry.Some? ==> r == m[entry.value.0 := entry.value.1]
  {
    match entry
    case None => m
    case Some((k, v)) => m[k := v]
  }

  function GoEntry(el: Element): Option<(int, GameObject)> {
    if el.gameObject.Some? then Some((el.id, el.gameObject.value)) else None
  }

  function TransformEntry(el: Element): Option<(int, Transform)> {
    if el.transform.Some? then Some((el.id, el.transform.value)) else None
  }

  function TransGoEntry(el: Element): Option<(int, int)> {
    if el.transform.Some? then Some((el.id, el.transform.value.gameObject)) else None
  }

  function GoTransEntry(el: Element): Option<(int, int)> {
    if el.transform.Some? then Some((el.transform.value.gameObject, el.id)) else None
  }

  function SpriteEntry(el: Element): Option<(int, SpriteRenderer)> {
    if el.sprite.Some? then Some((el.sprite.value.gameObject, el.sprite.value)) else None
  }

  function AnimatorEntry(el: Element): Option<(int, Animator)> {
    if el.animator.Some? then Some((el.animator.value.gameObject, el.animator.value)) else None
  }

  function ParticleEntry(el: Element): Option<(int, ParticleSystem)> {
    if el.particles.Some? then Some((el.particles.value.gameObject, el.particles.value)) else None
  }

  /** The behaviours listed for game object `g` (none when absent). */
  function MonosAt(monos: map<int, seq<MonoBehaviour>>, g: int): seq<MonoBehaviour> {
    if g in monos then monos[g] else []
  }

  /** `entry(go_id).or_insert(Vec::new()).push(mono)`. */
  function AddMono(monos: map<int, seq<MonoBehaviour>>, mono: Option<MonoBehaviour>): (r: map<int, seq<MonoBehaviour>>)
    ensures mono.None? ==> r == monos
    ensures mono.Some? ==> r == monos[mono.value.gameObject := MonosAt(monos, mono.value.gameObject) + [mono.value]]
  {
    match mono
    case None => monos
    case Some(m) => monos[m.gameObject := MonosAt(monos, m.gameObject) + [m]]
  }

  /** One element's inserts. */
  function Step(ix: Index, el: Element): Index {
    Index(
      Put(ix.gos, GoEntry(el)),
      Put(ix.transforms, TransformEntry(el)),
      Put(ix.transToGo, TransGoEntry(el)),
      Put(ix.goToTrans, GoTransEntry(el)),
      Put(ix.sprites, SpriteEntry(el)),
      Put(ix.animators, AnimatorEntry(el)),
      Put(ix.particles, ParticleEntry(el)),
      AddMono(ix.monos, el.mono))
  }

  /** The index after the elements of `prefab`, in order. */
  function IndexOf(prefab: seq<Element>): Index {
    if prefab == [] then EmptyIndex
    else Step(IndexOf(prefab[..|prefab| - 1]), prefab[|prefab| - 1])
  }

  /** The indexing loop of `build_hierarchy`. */
  method BuildIndex(prefab: seq<Element>) returns (ix: Index)
    ensures ix == IndexOf(prefab)
  {
    var gos: map<int, GameObject> := map[];
    var transforms: map<int, Transform> := map[];
    var transToGo: map<int, int> := map[];
    var goToTrans: map<int, int> := map[];
    var sprites: map<int, SpriteRenderer> := map[];
    var animators: map<int, Animator> := map[];
    var particles: map<int, ParticleSystem> := map[];
    var monos: map<int, seq<MonoBehaviour>> := map[];
    var i := 0;
    while i < |prefab|
      invariant 0 <= i <= |prefab|
      invariant Index(gos, transforms, transToGo, goToTrans, sprites, animators, particles, monos) == IndexOf(prefab[..i])
    {
      var el := prefab[i];
      var id := el.id;
      if el.gameObject.Some? {
        gos := gos[id := el.gameObject.value];
      }
      if el.transform.Some? {
        var goId := el.transform.value.gameObject;
        transforms := transforms[id := el.transform.value];
        transToGo := transToGo[id := goId];
        goToTrans := goToTrans[goId := id];
      }
      if el.sprite.Some? {
        sprites := sprites[el.sprite.value.gameObject := el.sprite.value];
      }
      if el.animator.Some? {
        animators := animators[el.animator.value.gameObject := el.animator.value];
      }
      if el.particles.Some? {
        particles := particles[el.particles.value.gameObject := el.particles.value];
      }
      if el.mono.Some? {
        var goId := el.mono.value.gameObject;
        var listed := if goId in monos then monos[goId] else [];
        monos := monos[goId := listed + [el.mono.value]];
      }
      assert prefab[..i + 1][..i] == prefab[..i];
      i := i + 1;
    }
    assert prefab[..i] == prefab;
    ix := Index(gos, transforms, transToGo, goToTrans, sprites, animators, particles, monos);
  }

  // ---- what the index holds ----

  /** The map built by inserting the entries `f` gives for `prefab`, in order. */
  function Collect<T>(prefab: seq<Element>, f: Element -> Option<(int, T)>): map<int, T> {
    if prefab == [] then map[]
    else Put(Collect(prefab[..|prefab| - 1], f), f(prefab[|prefab| - 1]))
  }

  /** Element `i` of `prefab` gives an entry for key `k`. */
  predicate EntryFor<T>(prefab: seq<Element>, f: Element -> Option<(int, T)>, i: int, k: int)
    requires 0 <= i < |prefab|
  {
    f(prefab[i]).Some? && f(prefab[i]).value.0 == k
  }

  /** Each of the maps keyed by one id is one `Collect`. */
  lemma {:induction false} IndexMaps(prefab: seq<Element>)
    ensures IndexOf(prefab).gos == Collect(prefab, GoEntry)
    ensures IndexOf(prefab).transforms == Collect(prefab, TransformEntry)
    ensures IndexOf(prefab).transToGo == Collect(prefab, TransGoEntry)
    ensures IndexOf(prefab).goToTrans == Collect(prefab, GoTransEntry)
    ensures IndexOf(prefab).sprites == Collect(prefab, SpriteEntry)
    ensures IndexOf(prefab).animators == Collect(prefab, AnimatorEntry)
    ensures IndexOf(prefab).particles == Collect(prefab, ParticleEntry)
  {
    if prefab != [] {
      IndexMaps(prefab[..|prefab| - 1]);
    }
  }

  /** Last insert wins: a key is present exactly when some element gives an
      entry for it, and its value is that of the last such element. */
  lemma {:induction false} CollectLastWins<T>(prefab: seq<Element>, f: Element -> Option<(int, T)>, k: int)
    ensures k in Collect(prefab, f) <==> exists i :: 0 <= i < |prefab| && EntryFor(prefab, f, i, k)
    ensures k in Collect(prefab, f) ==>
      exists i :: 0 <= i < |prefab| && f(prefab[i]) == Some((k, Collect(prefab, f)[k]))
        && forall j :: i < j < |prefab| ==> !EntryFor(prefab, f, j, k)
  {
    if prefab != [] {
      var n := |prefab| - 1;
      var init := prefab[..n];
      CollectLastWins(init, f, k);
      forall i | 0 <= i < n ensures EntryFor(prefab, f, i, k) == EntryFor(init, f, i, k) {
        assert prefab[i] == init[i];
      }
      if EntryFor(prefab, f, n, k) {
        assert f(prefab[n]) == Some((k, Collect(prefab, f)[k]));
      } else if k in Collect(prefab, f) {
        var i :| 0 <= i < n && f(init[i]) == Some((k, Collect(init, f)[k]))
          && forall j :: i < j < n ==> !EntryFor(init, f, j, k);
        assert prefab[i] == init[i];
      }
    }
  }

  /** The behaviours of game object `g`, in prefab order. */
  function MonosOf(prefab: seq<Element>, g: int): (r: seq<MonoBehaviour>)
    ensures forall k :: 0 <= k < |r| ==> r[k].gameObject == g
  {
    if prefab == [] then []
    else
      var here := if prefab[0].mono.Some? && prefab[0].mono.value.gameObject == g then [prefab[0].mono.value] else [];
      here + MonosOf(prefab[1..], g)
  }

  lemma {:induction false} MonosOfSnoc(prefab: seq<Element>, el: Element, g: int)
    ensures MonosOf(prefab + [el], g)
      == MonosOf(prefab, g) + (if el.mono.Some? && el.mono.value.gameObject == g then [el.mono.value] else [])
  {
    if prefab == [] {
      assert [el][1..] == [];
    } else {
      assert (prefab + [el])[1..] == prefab[1..] + [el];
      MonosOfSnoc(prefab[1..], el, g);
    }
  }

  /** The list for a game object is its behaviours in prefab order, and a
      game object is listed exactly when it has one. */
  lemma {:induction false} MonosIndexed(prefab: seq<Element>, g: int)
    ensures MonosAt(IndexOf(prefab).monos, g) == MonosOf(prefab, g)
    ensures g in IndexOf(prefab).monos <==> MonosOf(prefab, g) != []
  {
    if prefab != [] {
      var n := |prefab| - 1;
      MonosIndexed(prefab[..n], g);
      assert prefab == prefab[..n] + [prefab[n]];
      MonosOfSnoc(prefab[..n], prefab[n], g);
    }
  }

  /** The transform links agree with the transforms: the two maps keyed by
      transform id have the same keys, each links to its transform's game
      object, and each game object links to a known transform. */
  ghost predicate Coherent(ix: Index) {
    (forall t :: t in ix.transforms <==> t in ix.transToGo)
    && (forall t :: t in ix.transforms ==> ix.transToGo[t] == ix.transforms[t].gameObject)
    && (forall g :: g in ix.goToTrans ==> ix.goToTrans[g] in ix.transforms)
  }

  lemma {:induction false} IndexCoherent(prefab: seq<Element>)
    ensures Coherent(IndexOf(prefab))
  {
    if prefab != [] {
      IndexCoherent(prefab[..|prefab| - 1]);
    }
  }

  // ---- the root ----

  /** The first transform, in the map's iteration order `order`, without a
      parent: `root_trans[0]`. */
  function RootTransform(transforms: map<int, Transform>, order: seq<int>): (r: Option<int>)
    ensures r.Some? ==> r.value in order && r.value in transforms && transforms[r.value].father == 0
    ensures r.None? <==> forall i :: 0 <= i < |order| && order[i] in transforms ==> transforms[order[i]].father != 0
    ensures r.Some? ==>
      exists i :: 0 <= i < |order| && order[i] == r.value &&
        forall j :: 0 <= j < i && order[j] in transforms ==> transforms[order[j]].father != 0
  {
    if order == [] then None
    else if order[0] in transforms && transforms[order[0]].father == 0 then Some(order[0])
    else
      RootTransform(transforms, order[1..])
  }

  /** When the order lists every transform, there is no root exactly when
      every transform has a parent. */
  lemma RootExists(transforms: map<int, Transform>, order: seq<int>)
    requires forall t :: t in transforms <==> t in order
    ensures RootTransform(transforms, order).None? <==> forall t :: t in transforms ==> transforms[t].father != 0
  {
    if RootTransform(transforms, order).None? {
      forall t | t in transforms ensures transforms[t].father != 0 {
        var i :| 0 <= i < |order| && order[i] == t;
      }
    }
  }

  // ---- the nodes ----

  datatype SimpleTransform = SimpleTransform(
    position: Local,
    scale: Local,
    rotation: Local,
    eulerHint: Local,
    fatherId: int,
    childrenIds: seq<int>)

  /** The sprite renderer as shown; colour, size, offset, the image and its
      rectangle are not part of this model. */
  datatype SimpleSprite = SimpleSprite(spriteGuid: string, sortingOrder: int, flipX: int, flipY: int)

  datatype SimpleAnimator = SimpleAnimator(enabled: int, controllerGuid: string)

  /** The particle system as shown; its floating-point settings are not part
      of this model. */
  datatype SimpleParticles = SimpleParticles(enabled: int)

  datatype SimpleMono = SimpleMono(unitId: Option<int>, isUi: Option<int>, pauseUpdateUi: Option<int>, scriptGuid: string)

  /** `HierarchyNode`. */
  datatype Node = Node(
    name: string,
    kind: string,
    isActive: int,
    transform: Option<SimpleTransform>,
    sprite: Option<SimpleSprite>,
    animator: Option<SimpleAnimator>,
    particles: Option<SimpleParticles>,
    animationClips: Option<seq<string>>,
    monos: seq<SimpleMono>,
    children: seq<Node>)

  /** Why building panics: no root transform (`root_trans[0]`), a game
      object id without a game object (`unwrap`), or recursion deeper than
      the fuel (a cyclic child list overflows the stack). */
  datatype Panic = NoRoot | MissingGameObject(go: int) | OutOfFuel

  datatype Built<T> = Done(value: T) | Panicked(reason: Panic)

  const NodeKind := "GameObject"

  function SimplifyTransform(t: Transform): SimpleTransform {
    SimpleTransform(t.position, t.scale, t.rotation, t.eulerHint, t.father, t.children)
  }

  function SimplifyMono(m: MonoBehaviour): (r: SimpleMono)
    ensures r.scriptGuid == m.script.guid.GetOr("")
    ensures r.unitId == m.unitId && r.isUi == m.isUi && r.pauseUpdateUi == m.pauseUpdateUi
  {
    SimpleMono(m.unitId, m.isUi, m.pauseUpdateUi, m.script.guid.GetOr(""))
  }

  function SimplifyMonos(ms: seq<MonoBehaviour>): (r: seq<SimpleMono>)
    ensures |r| == |ms| && forall k :: 0 <= k < |ms| ==> r[k] == SimplifyMono(ms[k])
  {
    seq(|ms|, k requires 0 <= k < |ms| => SimplifyMono(ms[k]))
  }

  /** The transform of game object `go`, through `go_id_to_trans_id`. */
  function TransformOf(ix: Index, go: int): Option<Transform> {
    if go in ix.goToTrans && ix.goToTrans[go] in ix.transforms then Some(ix.transforms[ix.goToTrans[go]]) else None
  }

  /** The child transform ids of game object `go`. */
  function ChildIds(ix: Index, go: int): seq<int> {
    match TransformOf(ix, go)
    case None => []
    case Some(t) => t.children
  }

  /** The game object of child transform `c`, 0 when unknown. */
  function ChildGo(ix: Index, c: int): int {
    if c in ix.transToGo then ix.transToGo[c] else 0
  }

  /** The game objects of the child transforms `ids` that have one, in order. */
  function ChildGos(ix: Index, ids: seq<int>): (r: seq<int>)
    ensures forall k :: 0 <= k < |r| ==> r[k] != 0
    ensures |r| <= |ids|
  {
    if ids == [] then []
    else if ChildGo(ix, ids[0]) == 0 then ChildGos(ix, ids[1..])
    else [ChildGo(ix, ids[0])] + ChildGos(ix, ids[1..])
  }

  /** The node of everything but the children. */
  function Shell(ix: Index, go: int, children: seq<Node>): Node
    requires go in ix.gos
  {
    var g := ix.gos[go];
    Node(
      g.name,
      NodeKind,
      g.isActive,
      match TransformOf(ix, go) case None => None case Some(t) => Some(SimplifyTransform(t)),
      if go in ix.sprites then
        var s := ix.sprites[go];
        Some(SimpleSprite(s.sprite.guid.GetOr(""), s.sortingOrder, s.flipX, s.flipY))
      else None,
      if go in ix.animators then
        var a := ix.animators[go];
        Some(SimpleAnimator(a.enabled, a.controller.guid.GetOr("")))
      else None,
      if go in ix.particles then Some(SimpleParticles(ix.particles[go].enabled)) else None,
      None,
      SimplifyMonos(MonosAt(ix.monos, go)),
      children)
  }

  /** `build_node` for game object `go`, with `fuel` levels of recursion. */
  function NodeOf(ix: Index, go: int, fuel: nat): (r: Built<Node>)
    ensures fuel == 0 ==> r == Panicked(OutOfFuel)
    ensures fuel > 0 && go !in ix.gos ==> r == Panicked(MissingGameObject(go))
    ensures r.Done? ==> go in ix.gos && r.value.name == ix.gos[go].name && r.value.isActive == ix.gos[go].isActive
    ensures r.Done? ==> r.value.kind == "GameObject" && r.value.animationClips == None
    ensures r.Done? ==> r.value.monos == SimplifyMonos(MonosAt(ix.monos, go))
    ensures r.Done? ==> (r.value.transform.Some? <==> TransformOf(ix, go).Some?)
    ensures r.Done? ==> (r.value.sprite.Some? <==> go in ix.sprites)
    ensures r.Done? ==> (r.value.animator.Some? <==> go in ix.animators)
    ensures r.Done? ==> (r.value.particles.Some? <==> go in ix.particles)
    decreases fuel, 0, 0
  {
    if fuel == 0 then Panicked(OutOfFuel)
    else if go !in ix.gos then Panicked(MissingGameObject(go))
    else
      match Children(ix, ChildIds(ix, go), fuel - 1)
      case Panicked(p) => Panicked(p)
      case Done(cs) => Done(Shell(ix, go, cs))
  }

  /** The loop over a transform's children: ids without a game object are
      skipped, the first panic stops the loop. */
  function Children(ix: Index, ids: seq<int>, fuel: nat): Built<seq<Node>>
    decreases fuel, 1, |ids|
  {
    if ids == [] then Done([])
    else
      var g := ChildGo(ix, ids[0]);
      if g == 0 then Children(ix, ids[1..], fuel)
      else
        match NodeOf(ix, g, fuel)
        case Panicked(p) => Panicked(p)
        case Done(n) =>
          match Children(ix, ids[1..], fuel)
          case Panicked(p) => Panicked(p)
          case Done(ns) => Done([n] + ns)
  }

  /** Every game object of `gs` builds with `fuel`. */
  predicate AllBuild(ix: Index, gs: seq<int>, fuel: nat) {
    forall k :: 0 <= k < |gs| ==> NodeOf(ix, gs[k], fuel).Done?
  }

  /** The children loop succeeds exactly when every child game object
      builds, and then holds their nodes in the order of the ids. */
  lemma {:induction false} ChildrenBuilt(ix: Index, ids: seq<int>, fuel: nat)
    ensures Children(ix, ids, fuel).Done? <==> AllBuild(ix, ChildGos(ix, ids), fuel)
    ensures Children(ix, ids, fuel).Done? ==>
      var ns := Children(ix, ids, fuel).value;
      |ns| == |ChildGos(ix, ids)| && forall k :: 0 <= k < |ns| ==> NodeOf(ix, ChildGos(ix, ids)[k], fuel) == Done(ns[k])
    decreases |ids|
  {
    if ids != [] {
      ChildrenBuilt(ix, ids[1..], fuel);
      var g := ChildGo(ix, ids[0]);
      var gs, rest := ChildGos(ix, ids), ChildGos(ix, ids[1..]);
      if g != 0 {
        assert gs == [g] + rest;
        if AllBuild(ix, gs, fuel) {
          assert NodeOf(ix, gs[0], fuel).Done?;
          forall k | 0 <= k < |rest| ensures NodeOf(ix, rest[k], fuel).Done? {
            assert rest[k] == gs[k + 1];
          }
        }
        if Children(ix, ids, fuel).Done? {
          forall k | 0 <= k < |gs| ensures NodeOf(ix, gs[k], fuel).Done? {
            if k > 0 {
              assert gs[k] == rest[k - 1];
            }
          }
        }
      }
    }
  }

  /** A node's children are the nodes of its transform's child game objects,
      in the order of the transform's child list. */
  lemma NodeChildren(ix: Index, go: int, fuel: nat)
    requires NodeOf(ix, go, fuel).Done?
    ensures fuel > 0
    ensures var n := NodeOf(ix, go, fuel).value; var gs := ChildGos(ix, ChildIds(ix, go));
      |n.children| == |gs| && forall k :: 0 <= k < |gs| ==> NodeOf(ix, gs[k], fuel - 1) == Done(n.children[k])
  {
    ChildrenBuilt(ix, ChildIds(ix, go), fuel - 1);
  }

  /** More fuel changes nothing once a node builds. */
  lemma {:induction false} NodeFuel(ix: Index, go: int, fuel: nat)
    requires NodeOf(ix, go, fuel).Done?
    ensures NodeOf(ix, go, fuel + 1) == NodeOf(ix, go, fuel)
    decreases fuel, 0, 0
  {
    ChildrenFuel(ix, ChildIds(ix, go), fuel - 1);
  }

  lemma {:induction false} ChildrenFuel(ix: Index, ids: seq<int>, fuel: nat)
    requires Children(ix, ids, fuel).Done?
    ensures Children(ix, ids, fuel + 1) == Children(ix, ids, fuel)
    decreases fuel, 1, |ids|
  {
    if ids != [] {
      var g := ChildGo(ix, ids[0]);
      if g != 0 {
        NodeFuel(ix, g, fuel);
      }
      ChildrenFuel(ix, ids[1..], fuel);
    }
  }

  // ---- building ----

  /** `build_hierarchy`: `order` is the iteration order of the transform map,
      `fuel` bounds the depth of recursion. */
  method BuildHierarchy(prefab: seq<Element>, order: seq<int>, fuel: nat) returns (r: Built<Node>)
    requires forall t :: t in IndexOf(prefab).transforms <==> t in order
    ensures var ix := IndexOf(prefab);
      match RootTransform(ix.transforms, order)
      case None => r == Panicked(NoRoot)
      case Some(t) => t in ix.transToGo && r == NodeOf(ix, ix.transToGo[t], fuel)
    ensures var ix := IndexOf(prefab);
      (forall t :: t in ix.transforms ==> ix.transforms[t].father != 0) ==> r == Panicked(NoRoot)
    ensures var ix := IndexOf(prefab);
      (exists t :: t in ix.transforms && ix.transforms[t].father == 0) ==>
        exists t :: t in ix.transforms && t in ix.transToGo && ix.transforms[t].father == 0 && r == NodeOf(ix, ix.transToGo[t], fuel)
  {
    var ix := BuildIndex(prefab);
    IndexCoherent(prefab);
    RootExists(ix.transforms, order);
    var root := RootTransform(ix.transforms, order);
    if root.None? {
      return Panicked(NoRoot);
    }
    var rootGo := ix.transToGo[root.value];
    r := NodeOf(ix, rootGo, fuel);
  }

  /** The root node of a built hierarchy is the game object of a transform
      without a parent. */
  lemma RootIsParentless(prefab: seq<Element>, order: seq<int>, fuel: nat)
    requires RootTransform(IndexOf(prefab).transforms, order).Some?
    ensures var ix := IndexOf(prefab); var t := RootTransform(ix.transforms, order).value;
      t in ix.transforms && ix.transforms[t].father == 0 && t in ix.transToGo && ix.transToGo[t] == ix.transforms[t].gameObject
  {
    IndexCoherent(prefab);
  }

  /** What the `prefab_hierarchy` command answers. */
  datatype Outcome = Hierarchy(node: Node) | Failed(error: string) | Crashed(reason: Panic)

  /** A panic ends the command. */
  function Answer(built: Built<Node>): (out: Outcome)
    ensures built.Done? <==> out.Hierarchy?
    ensures built.Done? ==> out.node == built.value
    ensures built.Panicked? ==> out == Crashed(built.reason)
  {
    match built
    case Done(n) => Hierarchy(n)
    case Panicked(p) => Crashed(p)
  }

  /** `prefab_hierarchy`: `file` is the prefab's text or the error reading
      it. */
  method PrefabHierarchy(file: Result<string>, decode: string -> Option<Element>, order: seq<int>, fuel: nat)
    returns (out: Outcome)
    requires file.Ok? ==> forall t :: t in IndexOf(Prefab(file.value, decode)).transforms <==> t in order
    ensures file.Err? ==> out == Failed(ReadPrefix + file.error)
    ensures file.Ok? ==> var ix := IndexOf(Prefab(file.value, decode));
      match RootTransform(ix.transforms, order)
      case None => out == Crashed(NoRoot)
      case Some(t) => t in ix.transToGo && out == Answer(NodeOf(ix, ix.transToGo[t], fuel))
    ensures file.Ok? ==> var ix := IndexOf(Prefab(file.value, decode));
      (forall t :: t in ix.transforms ==> ix.transforms[t].father != 0) ==> out == Crashed(NoRoot)
    ensures file.Ok? ==> var ix := IndexOf(Prefab(file.value, decode));
      (exists t :: t in ix.transforms && ix.transforms[t].father == 0) ==>
        exists t :: t in ix.transforms && t in ix.transToGo && ix.transforms[t].father == 0 && out == Answer(NodeOf(ix, ix.transToGo[t], fuel))
  {
    var prefab := ReadPrefab(file, decode);
    if prefab.Err? {
      return Failed(prefab.error);
    }
    var built := BuildHierarchy(prefab.value, order, fuel);
    out := Answer(built);
  }

  // ---- images ----

  /** A `data:` URL of the given media type holding base64 text. */
  function DataUrl(mime: string, b64: string): string {
    "data:" + mime + ";base64," + b64
  }

  /** `image_to_base64`: `file` is the file's bytes, or None when it cannot
      be read; `encode` is standard base64. */
  function ImageToBase64(path: string, file: Option<seq<bv8>>, encode: seq<bv8> -> string): (r: Option<string>)
    ensures r.Some? <==> (IsSuffix(".png", path) || IsSuffix(".jpg", path)) && file.Some?
    ensures r.Some? && IsSuffix(".png", path) ==> r.value == DataUrl("image/png", encode(file.value))
    ensures r.Some? && !IsSuffix(".png", path) ==> r.value == DataUrl("image/jpeg", encode(file.value))
  {
    if !IsSuffix(".png", path) && !IsSuffix(".jpg", path) then None
    else if file.None? then None
    else
      Some(DataUrl(if IsSuffix(".png", path) then "image/png" else "image/jpeg", encode(file.value)))
  }
}
