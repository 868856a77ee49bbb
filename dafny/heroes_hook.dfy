// The hero list of src/hooks/useHeroes.ts: loading the heroes of a project,
// loading a hero's avatar (choice of the avatar asset and the unit image,
// the combined texture, cropping with a fallback to the unit image), and the
// skin selection updates on a hero record. The disk and the Tauri commands
// are the parameter `env`; the clock is the parameter `now`.

module HeroesHook {
  import opened Wrappers
  import opened Text
  import opened Sorting
  import opened HeroCatalog
  import opened SkinDiscovery
  import opened ProjectStore

  /** The rectangle `parse_asset_file` reports. */
  datatype CropInfo = CropInfo(x: int, y: int, width: int, height: int)

  /** The disk as the hook sees it through the Tauri commands.
      `skinCheck` answers the first existence check of a skin avatar and
      `pathExists` every later one, so the disk may change between the two. */
  datatype Env = Env(
    skinCheck: string -> bool,
    pathExists: string -> bool,
    isDir: string -> bool,
    readDir: string -> Result<seq<string>>,
    readText: string -> Result<string>,
    parseAsset: string -> Result<CropInfo>,
    readBytes: string -> Result<seq<int>>,
    crop: (seq<int>, CropInfo) -> Result<seq<int>>,
    base64: seq<int> -> Option<string>)  // None: `btoa` of the spread bytes throws

  /** JavaScript truthiness of an optional string. */
  predicate Truthy(s: Option<string>) {
    s.Some? && s.value != ""
  }

  // ---------------------------------------------------------------------------
  // File names and paths
  // ---------------------------------------------------------------------------

  function AvatarDir(projectPath: string): string {
    projectPath + "/Assets/02_UI/UI_Avatar/"
  }

  function TextureDir(projectPath: string): string {
    projectPath + "/Assets/Texture2D"
  }

  function UnitImageDir(projectPath: string): string {
    projectPath + "/Assets/00_Unit/#Image"
  }

  function HeroesDir(projectPath: string): string {
    projectPath + "/Assets/01_Fx/1_Hero"
  }

  function SkinAssetName(heroId: string, skinId: string): string {
    "Avatar_" + AvatarHeroId(heroId) + "_" + skinId + ".asset"
  }

  function DefaultAssetName(heroId: string): string {
    "Avatar_" + AvatarHeroId(heroId) + ".asset"
  }

  /** The unit image used when cropping fails: the skin's (or the default
      skin's `99`) colour variant when a colour is given, else the plain image. */
  function UnitImageName(heroId: string, skinId: string, colorId: Option<string>): string {
    if skinId != "" then
      if Truthy(colorId) then "Unit_" + heroId + "_" + skinId + "_" + colorId.value + ".png"
      else "Unit_" + heroId + "_" + skinId + ".png"
    else
      if Truthy(colorId) then "Unit_" + heroId + "_99_" + colorId.value + ".png"
      else "Unit_" + heroId + ".png"
  }

  const TexturePrefix: string := "sactx-0-2048x1024-Uncompressed-UI_Avatar-"

  predicate IsLowerHex(c: char) {
    ('0' <= c <= '9') || ('a' <= c <= 'f')
  }

  /** `^sactx-0-2048x1024-Uncompressed-UI_Avatar-[a-f0-9]+\.png$`. */
  predicate IsAvatarTexture(f: string) {
    && |f| > |TexturePrefix| + 4
    && IsPrefix(TexturePrefix, f)
    && IsSuffix(".png", f)
    && forall i :: |TexturePrefix| <= i < |f| - 4 ==> IsLowerHex(f[i])
  }

  /** `textureFiles.find(...)`: the first combined avatar texture of a listing. */
  function FirstAvatarTexture(files: seq<string>): (r: Option<string>)
    ensures r.Some? ==> IsAvatarTexture(r.value) && r.value in files
    ensures r.Some? ==> exists i :: 0 <= i < |files| && files[i] == r.value
                                    && forall j :: 0 <= j < i ==> !IsAvatarTexture(files[j])
    ensures r.None? <==> forall f :: f in files ==> !IsAvatarTexture(f)
  {
    if files == [] then None
    else if IsAvatarTexture(files[0]) then Some(files[0])
    else
      var r := FirstAvatarTexture(files[1..]);
      assert forall f :: f in files[1..] ==> f in files;
      assert r.Some? ==> exists i :: 0 <= i < |files| && files[i] == r.value
                                     && forall j :: 0 <= j < i ==> !IsAvatarTexture(files[j]) by {
        if r.Some? {
          var i :| 0 <= i < |files[1..]| && files[1..][i] == r.value
                   && forall j :: 0 <= j < i ==> !IsAvatarTexture(files[1..][j]);
          assert files[i + 1] == r.value;
          forall j | 0 <= j < i + 1 ensures !IsAvatarTexture(files[j]) {
            if j > 0 { assert files[j] == files[1..][j - 1]; }
          }
        }
      }
      r
  }

  const DataUrlPrefix: string := "data:image/png;base64,"

  // ---------------------------------------------------------------------------
  // Loading an avatar (`loadHeroAvatar`)
  // ---------------------------------------------------------------------------

  /** The avatar asset to read and whether the skin fell back to the default one. */
  function AssetChoice(env: Env, heroId: string, projectPath: string, skinId: string): (string, bool) {
    if skinId != "" then
      if env.skinCheck(AvatarDir(projectPath) + SkinAssetName(heroId, skinId))
      then (SkinAssetName(heroId, skinId), false)
      else (DefaultAssetName(heroId), true)
    else (DefaultAssetName(heroId), false)
  }

  /** The cropped avatar, or the unit image when cropping fails, with its kind. */
  function AvatarImage(env: Env, heroId: string, projectPath: string, skinId: string, colorId: Option<string>,
                       texture: seq<int>, rect: CropInfo): Option<(seq<int>, AvatarType)>
  {
    match env.crop(texture, rect)
    case Ok(bytes) => Some((bytes, Cropped))
    case Err(_) =>
      var unitPath := UnitImageDir(projectPath) + "/" + UnitImageName(heroId, skinId, colorId);
      if !env.pathExists(unitPath) then None
      else
        match env.readBytes(unitPath)
        case Err(_) => None
        case Ok(bytes) => Some((bytes, Full))
  }

  /** The hero after `loadHeroAvatar(hero, projectPath, skinId, colorId)`; an
      empty `skinId` is the call without a skin. Every failure leaves the
      hero as it was. */
  function LoadAvatar(hero: Hero, projectPath: string, skinId: string, colorId: Option<string>, env: Env): Hero
    decreases if skinId != "" then 1 else 0
  {
    var (assetName, useDefault) := AssetChoice(env, hero.id, projectPath, skinId);
    var assetPath := AvatarDir(projectPath) + assetName;
    if !env.pathExists(assetPath) then
      if skinId != "" && !useDefault then LoadAvatar(hero, projectPath, "", None, env) else hero
    else
      match env.readText(assetPath)
      case Err(_) => hero
      case Ok(content) =>
        match env.parseAsset(content)
        case Err(_) => hero
        case Ok(rect) =>
          match env.readDir(TextureDir(projectPath))
          case Err(_) => hero
          case Ok(files) =>
            match FirstAvatarTexture(files)
            case None => hero
            case Some(texture) =>
              var texturePath := TextureDir(projectPath) + "/" + texture;
              if !env.pathExists(texturePath) then hero
              else
                match env.readBytes(texturePath)
                case Err(_) => hero
                case Ok(bytes) =>
                  match AvatarImage(env, hero.id, projectPath, skinId, colorId, bytes, rect)
                  case None => hero
                  case Some((image, kind)) =>
                    match env.base64(image)
                    case None => hero
                    case Some(text) =>
                      hero.(avatar := Some(DataUrlPrefix + text),
                            avatarPath := Some(texturePath),
                            assetPath := Some(assetPath),
                            avatarType := Some(kind))
  }

  /** The avatar asset an avatar load ends up reading: the skin's own asset when
      a skin is given and both existence checks find it, else the default one. */
  function ChosenAsset(env: Env, heroId: string, projectPath: string, skinId: string): string {
    var skinPath := AvatarDir(projectPath) + SkinAssetName(heroId, skinId);
    if skinId != "" && env.skinCheck(skinPath) && env.pathExists(skinPath)
    then SkinAssetName(heroId, skinId)
    else DefaultAssetName(heroId)
  }

  /** A loaded avatar changes only the four avatar fields. When it changes the
      hero at all, the asset read is the chosen one and it exists, the texture
      is a combined avatar texture of the texture directory, and the avatar is
      a PNG data URL. When the chosen asset is missing nothing changes. */
  lemma LoadAvatarSpec(hero: Hero, projectPath: string, skinId: string, colorId: Option<string>, env: Env)
    decreases if skinId != "" then 1 else 0
    ensures var r := LoadAvatar(hero, projectPath, skinId, colorId, env);
      && r == hero.(avatar := r.avatar, avatarPath := r.avatarPath, assetPath := r.assetPath, avatarType := r.avatarType)
      && (r != hero ==>
            && r.assetPath == Some(AvatarDir(projectPath) + ChosenAsset(env, hero.id, projectPath, skinId))
            && env.pathExists(r.assetPath.value)
            && r.avatarPath.Some?
            && IsPrefix(TextureDir(projectPath) + "/", r.avatarPath.value)
            && IsAvatarTexture(r.avatarPath.value[|TextureDir(projectPath) + "/"|..])
            && r.avatar.Some? && IsPrefix(DataUrlPrefix, r.avatar.value)
            && r.avatarType.Some?)
    ensures !env.pathExists(AvatarDir(projectPath) + ChosenAsset(env, hero.id, projectPath, skinId))
            ==> LoadAvatar(hero, projectPath, skinId, colorId, env) == hero
  {
    var (assetName, useDefault) := AssetChoice(env, hero.id, projectPath, skinId);
    var assetPath := AvatarDir(projectPath) + assetName;
    if !env.pathExists(assetPath) && skinId != "" && !useDefault {
      LoadAvatarSpec(hero, projectPath, "", None, env);
    }
    var r := LoadAvatar(hero, projectPath, skinId, colorId, env);
    if r != hero && r.avatarPath.Some? {
      var p := TextureDir(projectPath) + "/";
      var t := r.avatarPath.value;
      if IsPrefix(p, t) {
        assert (p + t[|p|..]) == t;
      }
    }
  }

  /** A full (uncropped) avatar means cropping failed and the unit image was read. */
  lemma FullMeansCropFailed(hero: Hero, projectPath: string, skinId: string, colorId: Option<string>,
                            env: Env, texture: seq<int>, rect: CropInfo)
    requires AvatarImage(env, hero.id, projectPath, skinId, colorId, texture, rect).Some?
    ensures var (image, kind) := AvatarImage(env, hero.id, projectPath, skinId, colorId, texture, rect).value;
      (kind == Full <==> env.crop(texture, rect).Err?)
      && (kind == Full ==> env.readBytes(UnitImageDir(projectPath) + "/" + UnitImageName(hero.id, skinId, colorId)) == Ok(image))
      && (kind == Cropped ==> env.crop(texture, rect) == Ok(image))
  {
  }

  // ---------------------------------------------------------------------------
  // Skin selection on a hero record
  // ---------------------------------------------------------------------------

  /** The index of the first skin with id `skinId` (`skins.find`). */
  function FirstSkinIndex(skins: seq<HeroSkin>, skinId: string): (r: Option<nat>)
    ensures r.Some? ==> r.value < |skins| && skins[r.value].id == skinId
                        && forall j :: 0 <= j < r.value ==> skins[j].id != skinId
    ensures r.None? <==> forall j :: 0 <= j < |skins| ==> skins[j].id != skinId
  {
    if skins == [] then None
    else if skins[0].id == skinId then Some(0)
    else
      match FirstSkinIndex(skins[1..], skinId)
      case None => None
      case Some(i) => Some(i + 1)
  }

  /** Sets the selected colour of the first skin with id `skinId`, if any. */
  function SetSkinColor(skins: seq<HeroSkin>, skinId: string, colorId: Option<string>): seq<HeroSkin> {
    match FirstSkinIndex(skins, skinId)
    case None => skins
    case Some(i) => skins[i := skins[i].(selectedColor := colorId)]
  }

  predicate HasGodSkin(skins: Option<seq<HeroSkin>>, skinId: string) {
    skins.Some? && exists s :: s in skins.value && s.id == skinId && s.isGodSkin
  }

  /** The field updates of `loadHeroSkin` after the avatar is loaded. */
  function SelectSkin(hero: Hero, skinId: string, colorId: Option<string>): Hero {
    hero.(selectedSkin := Some(skinId),
          selectedColor := colorId,
          isGodSkin := HasGodSkin(hero.skins, skinId),
          skins := match hero.skins case None => None case Some(ss) => Some(SetSkinColor(ss, skinId, colorId)))
  }

  /** The field updates of `resetToDefaultSkin` after the default avatar is loaded. */
  function ClearSkin(hero: Hero): Hero {
    hero.(selectedSkin := None, selectedColor := None)
  }

  /** Selecting a skin records the skin and colour, is a god skin exactly when
      some skin with that id is one, and changes the selected colour of the
      first skin with that id and of no other skin. */
  lemma SelectSkinSpec(hero: Hero, skinId: string, colorId: Option<string>)
    ensures var r := SelectSkin(hero, skinId, colorId);
      && r.selectedSkin == Some(skinId) && r.selectedColor == colorId
      && (r.isGodSkin <==>
            hero.skins.Some?
            && (exists i :: 0 <= i < |hero.skins.value| && hero.skins.value[i].id == skinId && hero.skins.value[i].isGodSkin))
      && r.skins.Some? == hero.skins.Some?
      && r == hero.(selectedSkin := r.selectedSkin, selectedColor := r.selectedColor,
                    isGodSkin := r.isGodSkin, skins := r.skins)
    ensures hero.skins.Some? ==>
      var ss := hero.skins.value;
      var rs := SelectSkin(hero, skinId, colorId).skins.value;
      && |rs| == |ss|
      && forall i :: 0 <= i < |ss| ==>
           rs[i] == (if ss[i].id == skinId && forall j :: 0 <= j < i ==> ss[j].id != skinId
                     then ss[i].(selectedColor := colorId) else ss[i])
  {
    if hero.skins.Some? {
      GodSkinAt(hero.skins.value, skinId);
      SetSkinColorAt(hero.skins.value, skinId, colorId);
    }
  }

  lemma GodSkinAt(ss: seq<HeroSkin>, skinId: string)
    ensures HasGodSkin(Some(ss), skinId) <==>
            exists i :: 0 <= i < |ss| && ss[i].id == skinId && ss[i].isGodSkin
  {
    if HasGodSkin(Some(ss), skinId) {
      var s :| s in ss && s.id == skinId && s.isGodSkin;
      var i :| 0 <= i < |ss| && ss[i] == s;
    }
  }

  lemma SetSkinColorAt(ss: seq<HeroSkin>, skinId: string, colorId: Option<string>)
    ensures var rs := SetSkinColor(ss, skinId, colorId);
      && |rs| == |ss|
      && forall i :: 0 <= i < |ss| ==>
           rs[i] == (if ss[i].id == skinId && forall j :: 0 <= j < i ==> ss[j].id != skinId
                     then ss[i].(selectedColor := colorId) else ss[i])
  {
    match FirstSkinIndex(ss, skinId)
    case None =>
    case Some(k) =>
      forall i | 0 <= i < |ss| && ss[i].id == skinId && (forall j :: 0 <= j < i ==> ss[j].id != skinId)
        ensures i == k
      {
      }
  }

  /** Resetting clears both selections and nothing else; in particular the
      god-skin flag of the last selection stays. */
  lemma ClearSkinSpec(hero: Hero, skinId: string, colorId: Option<string>)
    ensures ClearSkin(hero).selectedSkin.None? && ClearSkin(hero).selectedColor.None?
    ensures ClearSkin(SelectSkin(hero, skinId, colorId)).isGodSkin == HasGodSkin(hero.skins, skinId)
    ensures ClearSkin(ClearSkin(hero)) == ClearSkin(hero)
  {
  }

  // ---------------------------------------------------------------------------
  // The hero list
  // ---------------------------------------------------------------------------

  /** `heroes.find(h => h.id === heroId)`. */
  function FindHero(heroes: seq<Hero>, heroId: string): (r: Option<Hero>)
    ensures r.Some? ==> r.value in heroes && r.value.id == heroId
    ensures r.None? <==> forall h :: h in heroes ==> h.id != heroId
  {
    if heroes == [] then None
    else if heroes[0].id == heroId then Some(heroes[0])
    else
      assert forall h :: h in heroes[1..] ==> h in heroes;
      FindHero(heroes[1..], heroId)
  }

  /** `heroes.map(h => h.id === heroId ? hero : h)`. */
  function ReplaceHero(heroes: seq<Hero>, heroId: string, hero: Hero): (r: seq<Hero>)
    ensures |r| == |heroes|
    ensures forall i :: 0 <= i < |heroes| ==> r[i] == (if heroes[i].id == heroId then hero else heroes[i])
  {
    seq(|heroes|, i requires 0 <= i < |heroes| => if heroes[i].id == heroId then hero else heroes[i])
  }

  /** Replacing by a hero with the same id keeps every id in place, and the
      replaced list finds the new hero. */
  lemma ReplaceHeroIds(heroes: seq<Hero>, heroId: string, hero: Hero)
    requires hero.id == heroId
    ensures forall i :: 0 <= i < |heroes| ==> ReplaceHero(heroes, heroId, hero)[i].id == heroes[i].id
    ensures FindHero(heroes, heroId).Some? ==> FindHero(ReplaceHero(heroes, heroId, hero), heroId) == Some(hero)
  {
    var r := ReplaceHero(heroes, heroId, hero);
    if FindHero(heroes, heroId).Some? {
      var h := FindHero(heroes, heroId).value;
      var i :| 0 <= i < |heroes| && heroes[i] == h;
      assert r[i] == hero;
      FindHeroAll(r, heroId, hero);
    }
  }

  lemma {:induction false} FindHeroAll(heroes: seq<Hero>, heroId: string, hero: Hero)
    requires forall h :: h in heroes && h.id == heroId ==> h == hero
    requires hero in heroes
    ensures FindHero(heroes, heroId) == Some(hero) || hero.id != heroId
  {
    if heroes[0] != hero {
      FindHeroAll(heroes[1..], heroId, hero);
    }
  }

  /** Heroes are listed by id, compared as `localeCompare` compares the digit
      runs hero folders yield. */
  function HeroKey(h: Hero): Key {
    Key(0, 0, h.id)
  }

  /** The result of one directory entry of the loop in `loadHeroes`: the heroes
      so far and the cache. */
  datatype Progress = Progress(heroes: seq<Hero>, cache: map<string, CacheEntry>)

  function CacheValid(cache: map<string, CacheEntry>, heroId: string, now: int): bool {
    heroId in cache && now - cache[heroId].timestamp < DefaultMaxAge
  }

  /** A hero read from disk: its skins discovered and its default avatar loaded. */
  function FreshHero(entry: string, info: FolderInfo, projectPath: string, env: Env): Hero {
    var entryPath := HeroesDir(projectPath) + "/" + entry;
    var skinDir := UnitImageDir(projectPath);
    var skins := DiscoveredSkins(info.id, Ok(env.pathExists(skinDir)), env.readDir(skinDir));
    var hero := Hero(info.id, info.name, entry, entryPath, None, None, None, None, Some(skins), None, None, false);
    LoadAvatar(hero, projectPath, "", None, env)
  }

  /** How the loop reads a hero it has no valid cache entry for. */
  function Reader(projectPath: string, env: Env): (string, FolderInfo) -> Hero {
    (entry, info) => FreshHero(entry, info, projectPath, env)
  }

  /** A reader keeps the id parsed from the folder name. */
  ghost predicate KeepsIds(read: (string, FolderInfo) -> Hero) {
    forall entry, info :: read(entry, info).id == info.id
  }

  lemma ReaderKeepsIds(projectPath: string, env: Env)
    ensures KeepsIds(Reader(projectPath, env))
  {
    forall entry, info ensures Reader(projectPath, env)(entry, info).id == info.id {
      FreshHeroId(entry, info, projectPath, env);
    }
  }

  /** One entry of the loop; `read` reads a hero afresh. */
  function LoadEntry(p: Progress, entry: string, projectPath: string, env: Env, read: (string, FolderInfo) -> Hero, now: int): Progress {
    if !env.isDir(HeroesDir(projectPath) + "/" + entry) then p
    else
      match ParseHeroFolder(entry)
      case None => p
      case Some(info) =>
        if CacheValid(p.cache, info.id, now) then Progress(p.heroes + [p.cache[info.id].hero], p.cache)
        else
          var hero := read(entry, info);
          Progress(p.heroes + [hero], p.cache[info.id := CacheEntry(hero, now, Truthy(hero.avatar))])
  }

  function LoadEntries(p: Progress, entries: seq<string>, projectPath: string, env: Env, read: (string, FolderInfo) -> Hero, now: int): Progress {
    if entries == [] then p
    else LoadEntry(LoadEntries(p, entries[..|entries| - 1], projectPath, env, read, now), entries[|entries| - 1], projectPath, env, read, now)
  }

  /** Every cached hero is filed under its own id. */
  ghost predicate CacheKeyed(cache: map<string, CacheEntry>) {
    forall k :: k in cache ==> cache[k].hero.id == k
  }

  lemma FreshHeroId(entry: string, info: FolderInfo, projectPath: string, env: Env)
    ensures FreshHero(entry, info, projectPath, env).id == info.id
  {
    var skinDir := UnitImageDir(projectPath);
    var skins := DiscoveredSkins(info.id, Ok(env.pathExists(skinDir)), env.readDir(skinDir));
    var hero := Hero(info.id, info.name, entry, HeroesDir(projectPath) + "/" + entry,
                     None, None, None, None, Some(skins), None, None, false);
    LoadAvatarSpec(hero, projectPath, "", None, env);
  }

  /** One entry adds at most one hero, whose id is parsed from the entry's
      name, and keeps the cache filed by id. */
  lemma LoadEntryFacts(p: Progress, entry: string, projectPath: string, env: Env, read: (string, FolderInfo) -> Hero, now: int)
    requires CacheKeyed(p.cache) && KeepsIds(read)
    ensures var q := LoadEntry(p, entry, projectPath, env, read, now);
      && CacheKeyed(q.cache)
      && (q.heroes == p.heroes
          || (ParseHeroFolder(entry).Some?
              && q.heroes == p.heroes + [q.heroes[|p.heroes|]]
              && q.heroes[|p.heroes|].id == ParseHeroFolder(entry).value.id))
  {
  }

  /** Some directory entry names a hero folder with the id of `h`. */
  ghost predicate FromEntries(entries: seq<string>, h: Hero) {
    exists e :: e in entries && ParseHeroFolder(e).Some? && ParseHeroFolder(e).value.id == h.id
  }

  /** Every hero the loop lists is a directory entry's hero: its id is the id
      parsed from a hero folder name. The cache stays filed by id. */
  lemma {:induction false} LoadEntriesIds(p: Progress, entries: seq<string>, projectPath: string, env: Env, read: (string, FolderInfo) -> Hero, now: int)
    requires CacheKeyed(p.cache) && KeepsIds(read)
    ensures var q := LoadEntries(p, entries, projectPath, env, read, now);
      && CacheKeyed(q.cache)
      && |p.heroes| <= |q.heroes| && q.heroes[..|p.heroes|] == p.heroes
      && forall i :: |p.heroes| <= i < |q.heroes| ==> FromEntries(entries, q.heroes[i])
  {
    if entries != [] {
      var prefix := entries[..|entries| - 1];
      var e := entries[|entries| - 1];
      LoadEntriesIds(p, prefix, projectPath, env, read, now);
      var m := LoadEntries(p, prefix, projectPath, env, read, now);
      LoadEntryFacts(m, e, projectPath, env, read, now);
      var q := LoadEntry(m, e, projectPath, env, read, now);
      assert q == LoadEntries(p, entries, projectPath, env, read, now);
      assert entries == prefix + [e];
      forall i | |p.heroes| <= i < |q.heroes| ensures FromEntries(entries, q.heroes[i]) {
        if i < |m.heroes| {
          assert q.heroes[i] == m.heroes[i];
        }
        FromEntriesSnoc(prefix, e, q.heroes[i]);
      }
    }
  }

  lemma FromEntriesSnoc(prefix: seq<string>, e: string, h: Hero)
    ensures FromEntries(prefix, h) ==> FromEntries(prefix + [e], h)
    ensures ParseHeroFolder(e).Some? && ParseHeroFolder(e).value.id == h.id ==> FromEntries(prefix + [e], h)
  {
    if FromEntries(prefix, h) {
      var x :| x in prefix && ParseHeroFolder(x).Some? && ParseHeroFolder(x).value.id == h.id;
      assert x in prefix + [e];
    }
    assert e in prefix + [e];
  }

  // ---------------------------------------------------------------------------
  // The hook's state and its actions
  // ---------------------------------------------------------------------------

  class Hook {
    var heroes: seq<Hero>
    var loading: bool
    var error: Option<string>
    const store: Store

    constructor(store: Store)
      ensures heroes == [] && !loading && error == None && this.store == store
    {
      heroes := [];
      loading := false;
      error := None;
      this.store := store;
    }

    /** `loadHeroes`: lists the hero folders, using a valid cache entry or
        reading each hero afresh, and sorts the heroes by id. */
    method LoadHeroes(env: Env, now: int)
      modifies this, store
      ensures store.path == old(store.path) && store.selectedHero == old(store.selectedHero)
      ensures old(store.path) == "" ==>
        heroes == [] && error == Some("No project selected") && loading == old(loading)
        && store.heroesCache == old(store.heroesCache) && store.heroesLoading == old(store.heroesLoading)
      ensures old(store.path) != "" ==> !loading && !store.heroesLoading
      ensures old(store.path) != "" && !env.pathExists(HeroesDir(old(store.path))) ==>
        heroes == [] && error == Some("Heroes directory not found: Assets/01_Fx/1_Hero")
        && store.heroesCache == old(store.heroesCache)
      ensures old(store.path) != "" && env.pathExists(HeroesDir(old(store.path))) && env.readDir(HeroesDir(old(store.path))).Err? ==>
        heroes == [] && error == Some("Failed to load heroes") && store.heroesCache == old(store.heroesCache)
      ensures old(store.path) != "" && env.pathExists(HeroesDir(old(store.path))) && env.readDir(HeroesDir(old(store.path))).Ok? ==>
        var q := LoadEntries(Progress([], old(store.heroesCache)), env.readDir(HeroesDir(old(store.path))).value,
                             old(store.path), env, Reader(old(store.path), env), now);
        heroes == SortBy(q.heroes, HeroKey) && store.heroesCache == q.cache && error == None
    {
      var projectPath := store.path;
      if projectPath == "" {
        heroes := [];
        error := Some("No project selected");
        return;
      }
      loading := true;
      error := None;
      store.SetHeroesLoading(true);
      var heroesPath := HeroesDir(projectPath);
      if !env.pathExists(heroesPath) {
        loading := false;
        error := Some("Heroes directory not found: Assets/01_Fx/1_Hero");
        heroes := [];
        store.SetHeroesLoading(false);
        return;
      }
      var listing := env.readDir(heroesPath);
      if listing.Err? {
        loading := false;
        error := Some("Failed to load heroes");
        heroes := [];
        store.SetHeroesLoading(false);
        return;
      }
      var list := GatherHeroes(listing.value, projectPath, env, Reader(projectPath, env), now);
      list := Sort(list, HeroKey);
      loading := false;
      heroes := list;
      error := None;
      store.SetHeroesLoading(false);
    }

    /** The loop of `loadHeroes` over the hero directory's entries. */
    method GatherHeroes(entries: seq<string>, projectPath: string, env: Env, read: (string, FolderInfo) -> Hero, now: int) returns (list: seq<Hero>)
      modifies store
      ensures Progress(list, store.heroesCache) == LoadEntries(Progress([], old(store.heroesCache)), entries, projectPath, env, read, now)
      ensures store.path == old(store.path) && store.selectedHero == old(store.selectedHero)
      ensures store.heroesLoading == old(store.heroesLoading)
    {
      list := [];
      var heroesPath := HeroesDir(projectPath);
      var i := 0;
      while i < |entries|
        invariant 0 <= i <= |entries|
        invariant Progress(list, store.heroesCache) == LoadEntries(Progress([], old(store.heroesCache)), entries[..i], projectPath, env, read, now)
        invariant store.path == old(store.path) && store.selectedHero == old(store.selectedHero)
        invariant store.heroesLoading == old(store.heroesLoading)
      {
        var entry := entries[i];
        assert entries[..i + 1][..i] == entries[..i];
        i := i + 1;
        if !env.isDir(heroesPath + "/" + entry) {
          continue;
        }
        var info := ParseHeroFolder(entry);
        if info.Some? {
          var cached := store.GetCachedHero(info.value.id);
          if cached.Some? && store.IsCacheValid(info.value.id, now) {
            list := list + [cached.value];
          } else {
            var hero := read(entry, info.value);
            store.CacheHero(info.value.id, hero, now, Truthy(hero.avatar));
            list := list + [hero];
          }
        }
      }
      assert entries[..|entries|] == entries;
    }

    /** `loadHeroSkin`: loads the skin's avatar, records the selection, caches
        the hero and puts it in place of every listed hero with its id. */
    method LoadHeroSkin(heroId: string, skinId: string, colorId: Option<string>, env: Env, now: int)
      modifies this, store
      ensures store.path == old(store.path) && store.heroesLoading == old(store.heroesLoading)
      ensures loading == old(loading) && error == old(error)
      ensures old(store.path) == "" || FindHero(old(heroes), heroId).None? ==>
        heroes == old(heroes) && store.heroesCache == old(store.heroesCache) && store.selectedHero == old(store.selectedHero)
      ensures old(store.path) != "" && FindHero(old(heroes), heroId).Some? ==>
        var hero := SelectSkin(LoadAvatar(FindHero(old(heroes), heroId).value, old(store.path), skinId, colorId, env), skinId, colorId);
        && heroes == ReplaceHero(old(heroes), heroId, hero)
        && store.heroesCache == old(store.heroesCache)[heroId := CacheEntry(hero, now, Truthy(hero.avatar))]
        && store.selectedHero == (if old(store.selectedHero).Some? && old(store.selectedHero).value.id == heroId
                                  then Some(hero) else old(store.selectedHero))
    {
      var projectPath := store.path;
      if projectPath == "" {
        return;
      }
      var found := FindHero(heroes, heroId);
      if found.None? {
        return;
      }
      var hero := LoadAvatar(found.value, projectPath, skinId, colorId, env);
      hero := SelectSkin(hero, skinId, colorId);
      store.CacheHero(heroId, hero, now, Truthy(hero.avatar));
      heroes := ReplaceHero(heroes, heroId, hero);
      if store.selectedHero.Some? && store.selectedHero.value.id == heroId {
        store.SetSelectedHero(Some(hero));
      }
    }

    /** `resetToDefaultSkin`: loads the default avatar and clears the selection. */
    method ResetToDefaultSkin(heroId: string, env: Env, now: int)
      modifies this, store
      ensures store.path == old(store.path) && store.heroesLoading == old(store.heroesLoading)
      ensures loading == old(loading) && error == old(error)
      ensures old(store.path) == "" || FindHero(old(heroes), heroId).None? ==>
        heroes == old(heroes) && store.heroesCache == old(store.heroesCache) && store.selectedHero == old(store.selectedHero)
      ensures old(store.path) != "" && FindHero(old(heroes), heroId).Some? ==>
        var hero := ClearSkin(LoadAvatar(FindHero(old(heroes), heroId).value, old(store.path), "", None, env));
        && heroes == ReplaceHero(old(heroes), heroId, hero)
        && store.heroesCache == old(store.heroesCache)[heroId := CacheEntry(hero, now, Truthy(hero.avatar))]
        && store.selectedHero == (if old(store.selectedHero).Some? && old(store.selectedHero).value.id == heroId
                                  then Some(hero) else old(store.selectedHero))
    {
      var projectPath := store.path;
      if projectPath == "" {
        return;
      }
      var found := FindHero(heroes, heroId);
      if found.None? {
        return;
      }
      var hero := LoadAvatar(found.value, projectPath, "", None, env);
      hero := ClearSkin(hero);
      store.CacheHero(heroId, hero, now, Truthy(hero.avatar));
      heroes := ReplaceHero(heroes, heroId, hero);
      if store.selectedHero.Some? && store.selectedHero.value.id == heroId {
        store.SetSelectedHero(Some(hero));
      }
    }
  }

  /** The listed heroes ascend by id and are a permutation of the heroes the
      loop gathered. */
  lemma HeroesSorted(list: seq<Hero>)
    ensures multiset(SortBy(list, HeroKey)) == multiset(list)
    ensures forall i, j :: 0 <= i < j < |SortBy(list, HeroKey)| ==>
      StrLe(SortBy(list, HeroKey)[i].id, SortBy(list, HeroKey)[j].id)
  {
    SortBySorted(list, HeroKey);
  }
}
