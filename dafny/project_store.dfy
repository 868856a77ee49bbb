// The project store of src/store/project/store.ts: the open project's path,
// the selected hero, whether heroes are loading, and a cache of hero records
// keyed by hero id with the time each was stored. The clock is a parameter.

module ProjectStore {
  import opened Wrappers
  import opened SkinDiscovery

  datatype AvatarType = Cropped | Full

  /** A hero record; the optional fields are JavaScript's `undefined` when `None`. */
  datatype Hero = Hero(
    id: string,
    name: string,
    folderName: string,
    folderPath: string,
    avatar: Option<string>,
    avatarPath: Option<string>,
    assetPath: Option<string>,
    avatarType: Option<AvatarType>,
    skins: Option<seq<HeroSkin>>,
    selectedSkin: Option<string>,
    selectedColor: Option<string>,
    isGodSkin: bool)

  /** One cache entry: the hero, when it was stored, and whether its avatar was processed. */
  datatype CacheEntry = CacheEntry(hero: Hero, timestamp: int, avatarProcessed: bool)

  /** Thirty minutes, in milliseconds. */
  const DefaultMaxAge: int := 30 * 60 * 1000

  class Store {
    var path: string
    var selectedHero: Option<Hero>
    var heroesCache: map<string, CacheEntry>
    var heroesLoading: bool

    /** The initial state: no project, no selection, an empty cache, not loading. */
    constructor()
      ensures path == "" && selectedHero == None && heroesCache == map[] && !heroesLoading
    {
      path := "";
      selectedHero := None;
      heroesCache := map[];
      heroesLoading := false;
    }

    method SetPath(p: string)
      modifies this
      ensures path == p
      ensures selectedHero == old(selectedHero) && heroesCache == old(heroesCache)
      ensures heroesLoading == old(heroesLoading)
    {
      path := p;
    }

    method SetSelectedHero(hero: Option<Hero>)
      modifies this
      ensures selectedHero == hero
      ensures path == old(path) && heroesCache == old(heroesCache) && heroesLoading == old(heroesLoading)
    {
      selectedHero := hero;
    }

    method SetHeroesLoading(loading: bool)
      modifies this
      ensures heroesLoading == loading
      ensures path == old(path) && heroesCache == old(heroesCache) && selectedHero == old(selectedHero)
    {
      heroesLoading := loading;
    }

    /** The hero cached under `heroId`, if any. */
    function GetCachedHero(heroId: string): (r: Option<Hero>)
      reads this
      ensures r.Some? <==> heroId in heroesCache
      ensures r.Some? ==> r.value == heroesCache[heroId].hero
    {
      if heroId in heroesCache then Some(heroesCache[heroId].hero) else None
    }

    /** An entry is valid while it is younger than `maxAge` at time `now`. */
    function IsCacheValid(heroId: string, now: int, maxAge: int := DefaultMaxAge): (r: bool)
      reads this
      ensures r ==> GetCachedHero(heroId).Some?
      ensures r <==> heroId in heroesCache && now - heroesCache[heroId].timestamp < maxAge
    {
      heroId in heroesCache && now - heroesCache[heroId].timestamp < maxAge
    }

    /** Stores `hero` under `heroId`, stamped with `now`; every other entry stays. */
    method CacheHero(heroId: string, hero: Hero, now: int, avatarProcessed: bool := false)
      modifies this
      ensures heroesCache == old(heroesCache)[heroId := CacheEntry(hero, now, avatarProcessed)]
      ensures GetCachedHero(heroId) == Some(hero)
      ensures forall maxAge :: IsCacheValid(heroId, now, maxAge) <==> maxAge > 0
      ensures forall other :: other != heroId ==> GetCachedHero(other) == old(GetCachedHero(other))
      ensures path == old(path) && selectedHero == old(selectedHero) && heroesLoading == old(heroesLoading)
    {
      heroesCache := heroesCache[heroId := CacheEntry(hero, now, avatarProcessed)];
    }

    /** Empties the cache: afterwards no hero is cached and no entry is valid. */
    method ClearHeroesCache()
      modifies this
      ensures heroesCache == map[]
      ensures forall heroId :: GetCachedHero(heroId) == None
      ensures forall heroId, now, maxAge :: !IsCacheValid(heroId, now, maxAge)
      ensures path == old(path) && selectedHero == old(selectedHero) && heroesLoading == old(heroesLoading)
    {
      heroesCache := map[];
    }
  }

  /** A fresh entry is valid for exactly `maxAge` milliseconds: at `now` when
      stored at `stamp`, it is valid exactly while fewer than `maxAge` have passed. */
  lemma EntryLifetime(s: Store, heroId: string, stamp: int, now: int, maxAge: int)
    requires heroId in s.heroesCache && s.heroesCache[heroId].timestamp == stamp
    ensures s.IsCacheValid(heroId, now, maxAge) <==> now < stamp + maxAge
    ensures now <= stamp && maxAge > 0 ==> s.IsCacheValid(heroId, now, maxAge)
    ensures now >= stamp + maxAge ==> !s.IsCacheValid(heroId, now, maxAge)
  {
  }
}
