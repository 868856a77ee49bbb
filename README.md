# King God Castle Toolkit — a Dafny model of its core logic

The toolkit is a desktop application (a Tauri/Rust back end with a Next.js
front end, plus a Unity editor script in C#) for browsing an extracted copy of
the game King God Castle. This project models the logic at its core and proves
properties of that model:

- the hero catalogue (`src/hooks/useHeroes.ts`): hero folder names
  `Fx_<digits> (<name>)`, the avatar id rule, the discovery of a hero's skins
  and colours from the file names of the unit-image directory, the choice of
  avatar assets and the crop with its fallbacks, and the skin selection
  updates on a hero record (modules `HeroCatalog`, `SkinDiscovery`,
  `HeroesHook`);
- the project store and its hero cache with a time-window validity check
  (`src/store/project/store.ts`, module `ProjectStore`, a class);
- the hero search box with its `|` (any) and `+` (all) terms
  (`src/app/editor/@left_panel/heroes/page.tsx`, module `HeroSearch`);
- the native helpers (`src-tauri/src/utils.rs`, module `NativeUtils`): the
  platform name and AssetRipper path, the version list printed by `apkeep`,
  the crop of an RGBA image with the Unity bottom-up Y flip (an in-place
  array fill), the sprite rectangle parser and the directory listing;
- the file tree and the explorer (`src-tauri/src/file_watcher.rs`,
  `src/store/fileExplorer/store.ts`, `src/hooks/useFileExplorer.ts`; modules
  `FileTree`, `ExplorerStore`, `ExplorerHook`): the recursive directory read
  with its child order, the aggregate statistics, the loading/watching state
  machine and the watcher slot;
- the prefab reader (`src-tauri/src/unity/prefab.rs`; modules
  `PrefabDocuments`, `PrefabHierarchy`): the split of a Unity YAML file into
  documents and the build of the game-object hierarchy;
- the logger (`src-tauri/src/logger.rs`, module `Logger`): the daily file
  name, the layout of a log line, the tail of today's log and the sweep of
  old logs;
- the snapshot diff of the Unity editor tool
  (`csharp/Editor/ProjectAnalyzer.cs`, module `ProjectAnalyzer`): added,
  removed and modified assets by guid and the truncated text report;
- the XAPK conversion (`src-tauri/src/c2u.rs`, module `XapkConvert`): the
  version from the file name, the output directory, the classification of
  the extracted APKs, the clean-up and the merge of directory trees.

Shared modules: `Wrappers` (Option and Result), `Text` (string helpers with
the semantics of the JavaScript and Rust functions the code calls) and
`Sorting` (the stable sorts of `Array.prototype.sort` and Rust's `sort_by` as
a stable insertion sort on a key).

The file system, the Tauri commands, the clock and the home directory are
parameters of the operations that use them. Error texts in the XAPK
conversion are Vietnamese in the code; the model carries English paraphrases
of them, since only which error occurs matters. A log line is laid out as
`[<timestamp>] [<LEVEL>] [<context>: ] <message> | Data: <data>`: the code
writes `[`, the context, a literal `: ` and `] `, so the bracket encloses
`context: `; with an empty context only the `: ` remains
(`[<timestamp>] [<LEVEL>] : <message>`), and the data part appears only when
the data is not empty. The model keeps that layout.

## Model

| member | source | states |
|---|---|---|
| HeroCatalog.SplitHeroFolderSound | src/hooks/useHeroes.ts:44 | a folder name that splits has the shape `Fx_` + digits + whitespace + `(` + text without `)` + `)` |
| HeroCatalog.ParseHeroFolderComplete | src/hooks/useHeroes.ts:41-52 | every name of the folder shape parses, to its digit run as id and its trimmed parenthesised text as name |
| HeroCatalog.ParseHeroFolderSound | src/hooks/useHeroes.ts:41-52 | whatever parses has the folder shape, with the id its digit run and the name the trimmed inner text; anything else gives null |
| HeroCatalog.AvatarHeroId | src/hooks/useHeroes.ts:56-63 | ids of length at most 2 are returned unchanged; longer ids lose exactly their first and last characters |
| HeroCatalog.MiddleIff | src/hooks/useHeroes.ts:94-95 | the text between `Unit_<id>_` and `.png` is found exactly when the name is that prefix, the text and `.png` |
| HeroCatalog.MatchMultiComplete | src/hooks/useHeroes.ts:95 | every `Unit_<id>_<digits>_<digits>.png` name matches the multi-colour pattern with its two digit runs |
| HeroCatalog.MatchMultiSound | src/hooks/useHeroes.ts:95 | a multi-colour match yields two digit runs that rebuild the file name |
| HeroCatalog.MatchMultiIff | src/hooks/useHeroes.ts:95 | the multi-colour pattern matches with (skin, colour) exactly when both are digit runs and the name is `Unit_<id>_<skin>_<colour>.png` |
| HeroCatalog.MatchSingleIff | src/hooks/useHeroes.ts:94 | the single-colour pattern matches with a skin id exactly when it is digits with at most one trailing lower-case letter and the name is `Unit_<id>_<skin>.png` |
| HeroCatalog.MultiExcludesSingle | src/hooks/useHeroes.ts:102-121 | a name that matches the multi-colour pattern never matches the single-colour one |
| SkinDiscovery.SetAdd | src/hooks/useHeroes.ts:115 | adding to a colour set adds exactly that colour and keeps the set free of repeats |
| SkinDiscovery.ScanFileKeys | src/hooks/useHeroes.ts:97-132 | one file adds at most the skin id its name yields to `skinMap` |
| SkinDiscovery.ScanFileColors | src/hooks/useHeroes.ts:103-117 | one file adds a colour to a skin exactly when its name is that skin's multi-colour name |
| SkinDiscovery.ColorsNeedSkin | src/hooks/useHeroes.ts:97-132 | a skin id no file yields has no colours |
| SkinDiscovery.ScanFilesFacts | src/hooks/useHeroes.ts:97-132 | after the file loop `skinMap` holds exactly the skin ids the `.png` names yield, each with exactly the colours its multi-colour names give |
| SkinDiscovery.CollectRawSkins | src/hooks/useHeroes.ts:83-132 | the file loop fills `skinMap` as the scan of the listing specifies |
| SkinDiscovery.EnumerationOrder | src/hooks/useHeroes.ts:137-151 | `Object.keys`/`Object.entries` enumerate exactly the inserted keys |
| SkinDiscovery.IndexKeysFirst | src/hooks/useHeroes.ts:151 | array-index keys such as `"99"` are enumerated before every other key |
| SkinDiscovery.IndexKeysPrefix | src/hooks/useHeroes.ts:151 | every key enumerated before an array-index key is an array index |
| SkinDiscovery.NinetyNineIsIndex | src/hooks/useHeroes.ts:151-153 | `"99"` is an array-index key and normalises to itself |
| SkinDiscovery.MergeColors | src/hooks/useHeroes.ts:164-166 | merging colours gives the union and keeps the set free of repeats |
| SkinDiscovery.GroupStepFacts | src/hooks/useHeroes.ts:151-171 | one grouping step adds only the normalised id; its group gains the raw colours, becomes a god skin when the id is among the god skins, and keeps the `isDefault` of whichever raw id created it |
| SkinDiscovery.GroupAllKeys | src/hooks/useHeroes.ts:151-171 | `groupedSkinMap` has one group per normalised raw id |
| SkinDiscovery.GroupAllColors | src/hooks/useHeroes.ts:163-166 | a group's colours are the union of the colours of the raw ids that normalise to it |
| SkinDiscovery.GroupAllFlags | src/hooks/useHeroes.ts:155-170 | a group is a god skin exactly when its id is among the god skins, and its `isDefault` is that of the first raw id in enumeration order |
| SkinDiscovery.FirstWithMinimal | src/hooks/useHeroes.ts:155-161 | the raw id that creates a group is the first in enumeration order to normalise to it |
| SkinDiscovery.GroupRawSkins | src/hooks/useHeroes.ts:144-171 | the grouping loop, with its colour-merging inner loop, fills `groupedSkinMap` as specified |
| SkinDiscovery.ConvertSkins | src/hooks/useHeroes.ts:174-185 | the conversion loop produces one skin per grouped entry, in enumeration order |
| SkinDiscovery.SortSkins | src/hooks/useHeroes.ts:188-192 | the skin sort is the stable sort by (default first, integer id) |
| SkinDiscovery.DiscoverHeroSkins | src/hooks/useHeroes.ts:66-210 | `discoverHeroSkins` gives `[]` when the directory check fails or says no, or the listing fails, and otherwise the sorted skins of the listing |
| SkinDiscovery.RawOfScan | src/hooks/useHeroes.ts:97-171 | the groups built from the scanned `skinMap` are the groups of the listing |
| SkinDiscovery.RawGroupKeys | src/hooks/useHeroes.ts:151-161 | a group exists exactly when some raw id normalises to it |
| SkinDiscovery.RawGroupColors | src/hooks/useHeroes.ts:163-166 | a group's colours are exactly the colours of the raw ids that normalise to it |
| SkinDiscovery.RawGroupGod | src/hooks/useHeroes.ts:134-170 | a group is a god skin exactly when some lettered raw id normalises to it |
| SkinDiscovery.RawGroupDefault | src/hooks/useHeroes.ts:151-160 | a group is default exactly when it is `"99"` and the raw id `"99"` itself was found; a group formed only from `99a`/`99b` is not default |
| SkinDiscovery.FileColorIff | src/hooks/useHeroes.ts:95-115 | a file gives colour c to skin k exactly when its name is `Unit_<id>_<k>_<c>.png` with both digit runs |
| SkinDiscovery.FileSkinIff | src/hooks/useHeroes.ts:94-131 | a file yields a skin id exactly when it is a multi-colour name or a single-colour name for it |
| SkinDiscovery.ToSkinsMembers | src/hooks/useHeroes.ts:174-185 | every converted entry is the conversion of a visited group id, and every visited group id is converted |
| SkinDiscovery.ToSkinsIds | src/hooks/useHeroes.ts:174-185 | the conversion has one entry per visited group id, and entry i carries the i-th id |
| SkinDiscovery.KeysSplit | src/hooks/useHeroes.ts:151 | splitting distinct keys into array indices and named keys repeats none and loses none |
| SkinDiscovery.EnumerationOrderDistinct | src/hooks/useHeroes.ts:151 | `Object.entries` over distinct keys visits each key exactly once |
| Sorting.SortByDistinctBy | src/hooks/useHeroes.ts:188-192 | sorting keeps pairwise-different ids pairwise different |
| SkinDiscovery.SkinsOfGroups | src/hooks/useHeroes.ts:174-192 | every returned skin is the conversion of a group, and every group's conversion is returned |
| SkinDiscovery.SkinsOfOnePerGroup | src/hooks/useHeroes.ts:174-192 | there are exactly as many skins as groups and no two skins share an id: one skin per group |
| SkinDiscovery.SkinOfGroup | src/hooks/useHeroes.ts:174-185 | each returned skin is the conversion of its own group |
| SkinDiscovery.SkinsOfIds | src/hooks/useHeroes.ts:97-192 | a skin with id n is returned exactly when some skin id of the files normalises to n |
| SkinDiscovery.ToHeroSkinColors | src/hooks/useHeroes.ts:175-183 | a converted skin has colours exactly when its group has some; they are the group's colours in ascending integer order, and the first is selected |
| SkinDiscovery.GroupColorsOfFiles | src/hooks/useHeroes.ts:97-171 | a group's colours are those the file names give to its raw ids |
| SkinDiscovery.SkinsOfColors | src/hooks/useHeroes.ts:97-185 | a returned skin's colours are exactly those the file names give to raw ids that normalise to it, in ascending integer order |
| SkinDiscovery.SkinsOfGod | src/hooks/useHeroes.ts:135-171 | a returned skin is a god skin exactly when a lettered skin id of the files normalises to it |
| SkinDiscovery.SkinsOfDefault | src/hooks/useHeroes.ts:151-180 | a returned skin is default exactly when its id is `"99"` and a file yields the raw id `"99"`, and it is named `Default` exactly then, `Skin <id>` otherwise |
| SkinDiscovery.SkinsOfOrder | src/hooks/useHeroes.ts:188-192 | every default skin precedes every other one, and within each class ids ascend by integer value |
| HeroesHook.FirstAvatarTexture | src/hooks/useHeroes.ts:307-309 | the chosen file matches the combined-texture pattern, belongs to the listing and no earlier file matches; none is chosen exactly when no file matches |
| HeroesHook.LoadAvatarSpec | src/hooks/useHeroes.ts:213-396 | loading an avatar changes only the avatar, avatar path, asset path and avatar type; when it changes anything, the asset path is the chosen asset under `Assets/02_UI/UI_Avatar`, which exists, the avatar path is a matching file under `Assets/Texture2D` and the avatar is a PNG data URL; when the chosen asset is missing the hero is unchanged |
| HeroesHook.FullMeansCropFailed | src/hooks/useHeroes.ts:336-374 | the avatar is of type full exactly when cropping failed, and then it is the unit image's bytes; a cropped avatar is the crop's result |
| HeroesHook.FirstSkinIndex | src/hooks/useHeroes.ts:593 | the index found is that of the first skin with the id; none is found exactly when no skin has it |
| HeroesHook.SelectSkinSpec | src/hooks/useHeroes.ts:586-597 | selecting a skin sets the selected skin and colour, marks a god skin exactly when some skin with that id is one, sets the colour on the first skin with that id only, and changes nothing else |
| HeroesHook.ClearSkinSpec | src/hooks/useHeroes.ts:636-638 | the reset clears the selected skin and colour, keeps the god-skin flag of the last selection and is idempotent |
| HeroesHook.FindHero | src/hooks/useHeroes.ts:567 | the hero found is in the list and has the id; none is found exactly when no hero has it |
| HeroesHook.ReplaceHero | src/hooks/useHeroes.ts:605 | the list keeps its length and every hero with the id, and only those, is replaced |
| HeroesHook.ReplaceHeroIds | src/hooks/useHeroes.ts:605 | replacing by a hero of the same id keeps every id in place, and a later lookup of that id finds the new hero |
| HeroesHook.FindHeroAll | src/hooks/useHeroes.ts:567 | when every hero with the id is the same hero, the lookup finds it |
| HeroesHook.FreshHeroId | src/hooks/useHeroes.ts:464-470 | a hero built from a folder takes the folder's parsed id |
| HeroesHook.LoadEntryFacts | src/hooks/useHeroes.ts:443-481 | one directory entry adds at most one hero, with the id parsed from its name, and keeps the cache keyed by hero id |
| HeroesHook.LoadEntriesIds | src/hooks/useHeroes.ts:443-482 | for a read that keeps the folder's id, the loop only appends heroes, each from one of the entries, and keeps the cache keyed by hero id |
| HeroesHook.ReaderKeepsIds | src/hooks/useHeroes.ts:464-470 | the read the hook uses keeps the id parsed from the folder name |
| HeroesHook.Hook.constructor | src/hooks/useHeroes.ts:34-38 | the hook starts with no heroes, not loading and no error |
| HeroesHook.Hook.LoadHeroes | src/hooks/useHeroes.ts:399-510 | no project gives "No project selected" and no heroes; a missing heroes directory or a failed listing gives its error and no heroes; otherwise the heroes are the loop's result sorted by id, the cache is the loop's cache and the error is cleared |
| HeroesHook.Hook.GatherHeroes | src/hooks/useHeroes.ts:443-482 | the list and cache are those of the entry-by-entry specification of the loop, for the function that reads a hero afresh |
| HeroesHook.Hook.LoadHeroSkin | src/hooks/useHeroes.ts:564-612 | without a project or a hero of that id nothing changes; otherwise the hero with its avatar reloaded and skin selected replaces the old one in the list, the cache and, when it was selected, the selection |
| HeroesHook.Hook.ResetToDefaultSkin | src/hooks/useHeroes.ts:620-653 | without a project or a hero of that id nothing changes; otherwise the hero with its default avatar reloaded and selection cleared replaces the old one in the list, the cache and, when it was selected, the selection |
| HeroesHook.HeroesSorted | src/hooks/useHeroes.ts:485 | the sorted heroes are a permutation of the loaded ones, in order of id |
| Sorting.Insert | src/hooks/useHeroes.ts:188-192 | inserting one element yields the old elements plus that one, as a multiset |
| Sorting.SortBy | src/hooks/useHeroes.ts:188-192 | a sort returns a permutation of its input |
| Sorting.SortBySorted | src-tauri/src/file_watcher.rs:93-97 | the sorted sequence is ordered by its key |
| Sorting.SortByStable | src/hooks/useHeroes.ts:188-192 | the sort is stable: the elements sharing a key keep their input order |
| Sorting.Sort | src/hooks/useHeroes.ts:485 | the in-code sort returns the specification's sorted sequence |
| ProjectStore.Store.constructor | src/store/project/store.ts:59-64 | the store starts with no path, no selected hero, an empty cache and not loading |
| ProjectStore.Store.SetPath | src/store/project/store.ts:70-71 | setting the path changes the path and nothing else |
| ProjectStore.Store.SetSelectedHero | src/store/project/store.ts:78 | setting the selected hero changes only that field |
| ProjectStore.Store.SetHeroesLoading | src/store/project/store.ts:79 | setting the loading flag changes only that field |
| ProjectStore.Store.GetCachedHero | src/store/project/store.ts:92-95 | a hero is returned exactly when one is cached under the id, and it is the cached one |
| ProjectStore.Store.IsCacheValid | src/store/project/store.ts:96-101 | an entry is valid exactly when it exists and is younger than the maximum age; an absent id is never valid |
| ProjectStore.Store.CacheHero | src/store/project/store.ts:80-91 | the entry under the id becomes the hero stamped with the current time and the processed flag; it is then valid for every positive maximum age, and every other id's entry is unchanged |
| ProjectStore.Store.ClearHeroesCache | src/store/project/store.ts:102 | afterwards no id has a cached hero and no id is valid at any time |
| ProjectStore.EntryLifetime | src/store/project/store.ts:96-101 | an entry stamped at a time is valid exactly before that time plus the maximum age |
| HeroSearch.CleanParts | src/app/editor/@left_panel/heroes/page.tsx:20-23 | cleaning each part (trim and lower-case) and dropping the empty ones never yields more parts than the split produced, and no empty one |
| HeroSearch.CleanPartsEmpty | src/app/editor/@left_panel/heroes/page.tsx:20-24 | no part survives exactly when every part cleans to the empty text |
| HeroSearch.CleanPartsAny | src/app/editor/@left_panel/heroes/page.tsx:27-32 | for any test on a part, some surviving part passes exactly when some part's non-empty cleaned form does |
| HeroSearch.CleanPartsAll | src/app/editor/@left_panel/heroes/page.tsx:44-49 | for any test on a part, every surviving part passes exactly when every part's non-empty cleaned form does |
| HeroSearch.FilteredHeroes | src/app/editor/@left_panel/heroes/page.tsx:15-59 | a hero is in the filtered list exactly when it is in the list and the predicate keeps it; the list does not grow |
| HeroSearch.FilteredMultiplicity | src/app/editor/@left_panel/heroes/page.tsx:15-59 | a kept hero occurs in the filtered list as often as in the input, a dropped hero never |
| HeroSearch.FilteredIsSubsequence | src/app/editor/@left_panel/heroes/page.tsx:15 | the filtered list is an order-preserving subsequence of the heroes |
| HeroSearch.BlankKeepsAll | src/app/editor/@left_panel/heroes/page.tsx:16 | a blank or whitespace-only term keeps every hero, in order |
| HeroSearch.FilteredAll | src/app/editor/@left_panel/heroes/page.tsx:15 | when the predicate keeps every hero, the filter returns the list unchanged |
| HeroSearch.OrSearch | src/app/editor/@left_panel/heroes/page.tsx:19-33 | a term with `\|` keeps a hero exactly when every part is blank or some non-blank part matches its lower-cased name, its id or its lower-cased folder name; `\|` takes precedence over `+` |
| HeroSearch.AndSearch | src/app/editor/@left_panel/heroes/page.tsx:36-50 | a term with `+` and no `\|` keeps a hero exactly when every non-blank part matches it |
| HeroSearch.SingleSearch | src/app/editor/@left_panel/heroes/page.tsx:52-58 | any other term is lower-cased but not trimmed, and keeps a hero exactly when it matches |
| NativeUtils.CheckOs | src-tauri/src/utils.rs:3-10 | "windows" maps to "win", "linux" to "linux", and every other platform, and only those, to "unknown" |
| NativeUtils.AssetRipperPaths | src-tauri/src/utils.rs:12-25 | a path is given exactly on Windows and Linux, namely `binaries/asset-ripper-<short>-x64/AssetRipper.GUI.Free`, and as written it never ends in `.exe` |
| NativeUtils.AssetRipperFixed | src-tauri/src/utils.rs:12-25 | the intended path: given exactly on Windows and Linux, under the same directory, ending in `.exe` exactly on Windows |
| NativeUtils.ReplaceNewlines | src-tauri/src/utils.rs:57 | each newline becomes one space and every other character is kept |
| NativeUtils.TrimAll | src-tauri/src/utils.rs:62 | every item is trimmed of surrounding whitespace, in place |
| NativeUtils.KeepVersions | src-tauri/src/utils.rs:63-68 | an item is kept exactly when it is non-empty, has a digit and contains neither "Versions" nor "available" |
| NativeUtils.TrimmedItems | src-tauri/src/utils.rs:59-62 | there is one item per ", "-separated piece of the text, in order, and item i is piece i trimmed of surrounding whitespace |
| NativeUtils.TrimmedItemsMembers | src-tauri/src/utils.rs:59-62 | a text is an item exactly when some ", "-separated piece trims to it |
| NativeUtils.VersionsIn | src-tauri/src/utils.rs:59-69 | a version is listed exactly when it is a trimmed piece of the list that passes the filter; every one is trimmed |
| NativeUtils.ParseVersions | src-tauri/src/utils.rs:56-72 | output without "\| " gives no versions; every version returned passes the filter and is trimmed |
| NativeUtils.ParseVersionsMembers | src-tauri/src/utils.rs:56-72 | with a "\| " in the output (newlines read as spaces), a version is returned exactly when it passes the filter and is a trimmed ", "-separated piece of the text after the first "\| " |
| NativeUtils.KeepAllVersions | src-tauri/src/utils.rs:63-68 | the filter keeps a list whose items all pass it unchanged |
| NativeUtils.ItemsOfJoin | src-tauri/src/utils.rs:59-69 | versions joined by ", " are split, trimmed and filtered back to the same list |
| NativeUtils.NoItems | src-tauri/src/utils.rs:59-69 | an empty version part yields no versions |
| NativeUtils.ParseListing | src-tauri/src/utils.rs:56-72 | a one-line header ending in "\| " followed by versions joined by ", " parses back to exactly those versions |
| NativeUtils.CropCheckIff | src-tauri/src/utils.rs:290-339 | with unbounded arithmetic the checks reject a region exactly when it is empty or does not lie inside the image |
| NativeUtils.FlipRows | src-tauri/src/utils.rs:309-349 | row `py` of the crop is read from image row `img_height - y - height + py`, which lies inside the image and is Unity row `y + height - 1 - py` |
| NativeUtils.CropImage | src-tauri/src/utils.rs:264-372 | the crop fails exactly when a check fails, with that check's message; otherwise it is a new `width` × `height` image whose pixel (px, py) is the source pixel at column `x + px` and the flipped row |
| NativeUtils.CropOverflowPasses | src-tauri/src/utils.rs:299-339 | with `u32` wrap-around, a 2 × 2 image and the region x 0, y 1, width 1, height 2^32 - 1 pass every check though the region does not fit, and the converted row is 2, outside the image |
| NativeUtils.SaturatingU32 | src-tauri/src/utils.rs:448-457 | `f32 as u32` gives a value below 2^32, the floor of any finite value in range |
| NativeUtils.HeightFieldIff | src-tauri/src/utils.rs:447-459 | a line is taken as the height exactly when it starts with "height:" |
| NativeUtils.Analyse | src-tauri/src/utils.rs:427-434 | every line is trimmed and classified, one result per line |
| NativeUtils.ApplyLine | src-tauri/src/utils.rs:445-460 | one window line sets the field it names to its parsed value, and stops the window exactly at a height line |
| NativeUtils.ScanWindow | src-tauri/src/utils.rs:441-461 | the inner loop gives the rectangle of the window specification for the nine lines after the rectangle line |
| NativeUtils.ParseAssetFile | src-tauri/src/utils.rs:416-480 | the parse is the specification's; it fails only with "Could not parse sprite dimensions from asset file" and succeeds only with a positive width and height |
| NativeUtils.ScanNoRect | src-tauri/src/utils.rs:437 | lines without `m_Rect:` or `rect:` leave the rectangle as it is |
| NativeUtils.NoRectFails | src-tauri/src/utils.rs:437-467 | content without a rectangle line fails to parse |
| NativeUtils.WindowLocal | src-tauri/src/utils.rs:441-444 | a window depends only on the nine lines after its rectangle line |
| NativeUtils.WindowKeeps | src-tauri/src/utils.rs:447-458 | a window changes a field only through a line classified as that field |
| NativeUtils.WindowHeight | src-tauri/src/utils.rs:456-459 | a window takes the value of its first height line and stops there |
| NativeUtils.ScanPrefix | src-tauri/src/utils.rs:433-463 | scanning the lines equals scanning a prefix and continuing from the result |
| NativeUtils.ScanLastBlock | src-tauri/src/utils.rs:433-463 | after the last rectangle line, the height is that of its first height line |
| NativeUtils.LastBlockHeight | src-tauri/src/utils.rs:416-480 | later rectangle blocks overwrite earlier ones: the result's height is the value of the last block's first height line, and a zero there fails the parse |
| NativeUtils.ListEntries | src-tauri/src/utils.rs:234-244 | listing fails exactly when some entry fails; otherwise every name in it is the name of a readable, UTF-8 entry and vice versa |
| NativeUtils.ListEntriesFirstError | src-tauri/src/utils.rs:241 | the error returned is that of the first failing entry |
| NativeUtils.ReadDirectory | src-tauri/src/utils.rs:227-248 | a directory that cannot be opened gives "Error reading directory <path>: <error>"; otherwise the result is the entry listing's |
| FileTree.StrippedPrefix | src-tauri/src/file_watcher.rs:59-63 | stripping trailing slashes leaves a prefix of the path that does not end in '/' |
| FileTree.LastSegmentNoSlash | src-tauri/src/file_watcher.rs:59-63 | the final path component contains no '/' |
| FileTree.LastSegmentOf | src-tauri/src/file_watcher.rs:59-63 | the final component of a directory prefix followed by a name is that name |
| FileTree.ChildName | src-tauri/src/file_watcher.rs:84-100 | a child node read from `<dir>/<entry>` is named after its entry |
| FileTree.ReadDirRecursive | src-tauri/src/file_watcher.rs:52-112 | the recursive read returns the tree of the specification |
| FileTree.ReadEntries | src-tauri/src/file_watcher.rs:83-91 | the entry loop pushes the nodes of the entries that read, in listing order, and skips the others |
| FileTree.ReadTreeShape | src-tauri/src/file_watcher.rs:65-110 | a node carries its path's final component, the path and the modification time; a file has no children and its length as size, a directory has a child list and no size |
| FileTree.ReadTreeFails | src-tauri/src/file_watcher.rs:57-81 | a read fails exactly when the path is missing or its directory cannot be listed |
| FileTree.ReadChildrenHas | src-tauri/src/file_watcher.rs:87-88 | every entry that reads is among the children |
| FileTree.ReadChildrenFrom | src-tauri/src/file_watcher.rs:87-89 | every child is the read of some entry |
| FileTree.ReadChildrenCount | src-tauri/src/file_watcher.rs:87-90 | there are as many children as readable entries |
| FileTree.ChildrenOrder | src-tauri/src/file_watcher.rs:93-97 | the children are a permutation of the entries read, directories before files, and by name within each kind |
| FileTree.ReadTreeWellFormed | src-tauri/src/file_watcher.rs:52-112 | every node of a tree read is well formed: a directory has children and no size, a file the opposite |
| FileTree.ReadChildrenWellFormed | src-tauri/src/file_watcher.rs:83-91 | every child read is well formed |
| FileTree.FirstChunk | src-tauri/src/file_watcher.rs:223-228 | the first read fills a prefix of the file of at most 1024 bytes: all of it, or 1024 bytes |
| FileTree.BinaryCheck | src-tauri/src/file_watcher.rs:221-235 | a zero byte in the first 1024 bytes gives "Binary file cannot be displayed as text"; otherwise the file is decoded as text |
| FileTree.WatcherSlot.constructor | src-tauri/src/file_watcher.rs:48-50 | the slot starts empty |
| FileTree.WatcherSlot.StopWatching | src-tauri/src/file_watcher.rs:167-181 | stopping empties the slot and succeeds |
| FileTree.WatcherSlot.StartWatching | src-tauri/src/file_watcher.rs:114-165 | the old watcher is always dropped; a watcher that cannot be created or cannot watch leaves the slot empty and returns its error; otherwise it fills the slot |
| ExplorerStore.Own | src/store/fileExplorer/store.ts:71-73 | a node by itself counts as one file or one directory, a directory exactly when it is one, with its size or 0 |
| ExplorerStore.CalculateStats | src/store/fileExplorer/store.ts:70-85 | the recursive loop returns the fold of the node's own counts over the whole tree |
| ExplorerStore.TallyAppend | src/store/fileExplorer/store.ts:75-82 | counting two runs of nodes adds their counts |
| ExplorerStore.TallyTotal | src/store/fileExplorer/store.ts:71-72 | files and directories among some nodes add up to their number |
| ExplorerStore.TreeCountsNodes | src/store/fileExplorer/store.ts:70-85 | the recursive count of a tree is the count of the list of all its nodes |
| ExplorerStore.ChildCountsNodes | src/store/fileExplorer/store.ts:75-82 | the children's counts are the count of all nodes below them |
| ExplorerStore.StatsCount | src/store/fileExplorer/store.ts:88-101 | the statistics count every node but the root: files plus directories plus one is the number of nodes, and the size is the sum of the nodes' sizes; a directory root gives no negative directory count |
| ExplorerStore.FileRootStats | src/store/fileExplorer/store.ts:94 | a tree that is a single file has one file and -1 directories |
| ExplorerStore.Fetch | src/store/fileExplorer/store.ts:111-116 | loading fails exactly when the path is missing, with "Path does not exist", or its tree cannot be read; otherwise it is the tree read at that path |
| ExplorerStore.Explorer.constructor | src/store/fileExplorer/store.ts:42-54 | the initial state: no root, no tree, not watching, no selection, not loading, no error and zero statistics |
| ExplorerStore.Explorer.SetRootPath | src/store/fileExplorer/store.ts:57-59 | only the root path changes |
| ExplorerStore.Explorer.SetSelectedPath | src/store/fileExplorer/store.ts:61-63 | only the selected path changes |
| ExplorerStore.Explorer.ClearError | src/store/fileExplorer/store.ts:65-67 | only the error changes, to empty |
| ExplorerStore.Explorer.UpdateStats | src/store/fileExplorer/store.ts:88-101 | only the statistics change, to those of the tree |
| ExplorerStore.Explorer.LoadDirectory | src/store/fileExplorer/store.ts:104-137 | given the answers of `check_path_exists` and `get_file_tree`: a blank path changes nothing; a path reported missing fails with "Path does not exist"; otherwise loading ends false and either the tree, root path, time and statistics are those of the new tree with no error, or the error is "Failed to read directory: " and the reason with tree and root kept; statistics stay those of the tree shown |
| ExplorerStore.Explorer.RefreshDirectory | src/store/fileExplorer/store.ts:140-145 | without a root path nothing changes; otherwise the root path is loaded again with the given answers |
| ExplorerStore.Explorer.StartWatching | src/store/fileExplorer/store.ts:148-168 | a blank root changes nothing; a successful start sets watching, a failed one sets "Failed to start watching: " and the reason; nothing else changes |
| ExplorerStore.Explorer.StopWatching | src/store/fileExplorer/store.ts:171-179 | a successful stop clears watching, a failed one sets "Failed to stop watching: " and the reason; nothing else changes |
| ExplorerHook.FileExplorer.constructor | src/hooks/useFileExplorer.ts:35-46 | the hook starts with no root, no tree, not watching, no selection, not loading, no error and zero statistics |
| ExplorerHook.FileExplorer.SetRootPath | src/hooks/useFileExplorer.ts:35 | only the root path changes |
| ExplorerHook.FileExplorer.SetSelectedPath | src/hooks/useFileExplorer.ts:38 | only the selected path changes |
| ExplorerHook.FileExplorer.ClearError | src/hooks/useFileExplorer.ts:155-157 | only the error changes, to empty |
| ExplorerHook.FileExplorer.UpdateStats | src/hooks/useFileExplorer.ts:70-80 | only the statistics change, to those of the tree, with the root directory not counted |
| ExplorerHook.FileExplorer.LoadDirectory | src/hooks/useFileExplorer.ts:83-115 | given the answers of `check_path_exists` and `get_file_tree`: a blank path changes nothing; a path reported missing fails with "Path does not exist"; otherwise loading ends false and either the tree, time and statistics are the new tree's with no error, or the error is "Failed to read directory: " and the reason; the root path is never changed |
| ExplorerHook.FileExplorer.RefreshDirectory | src/hooks/useFileExplorer.ts:118-122 | without a root path nothing changes; otherwise the root path is loaded again with the given answers |
| ExplorerHook.FileExplorer.StartWatching | src/hooks/useFileExplorer.ts:125-140 | a blank root changes nothing; a successful start sets watching and clears the error, a failed one sets "Failed to start watching: " and the reason |
| ExplorerHook.FileExplorer.StopWatching | src/hooks/useFileExplorer.ts:143-152 | a successful stop clears watching; a failed one changes nothing |
| ExplorerHook.FileExplorer.OnFsChanged | src/hooks/useFileExplorer.ts:165-169 | an `fs-changed` event shows the event's tree, stamps the time and recomputes the statistics; nothing else changes |
| PrefabDocuments.WordPrefix | src-tauri/src/unity/prefab.rs:809 | the first word is the longest whitespace-free prefix |
| PrefabDocuments.WordsAreWords | src-tauri/src/unity/prefab.rs:809 | `split_whitespace` yields only non-empty, whitespace-free words |
| PrefabDocuments.WordPrefixOf | src-tauri/src/unity/prefab.rs:809 | a word followed by nothing or by whitespace is the first word |
| PrefabDocuments.WordsCons | src-tauri/src/unity/prefab.rs:809 | a word, a space and a rest split into that word and the words of the rest |
| PrefabDocuments.WordsOne | src-tauri/src/unity/prefab.rs:809 | a single word splits into itself |
| PrefabDocuments.TrimLeading | src-tauri/src/unity/prefab.rs:814 | every leading '&' is removed and nothing else: the result is a suffix that does not start with '&' |
| PrefabDocuments.ParseI64 | src-tauri/src/unity/prefab.rs:815 | a parsed id lies in the 64-bit signed range and its text starts with a sign or a digit |
| PrefabDocuments.ParseIntToString | src-tauri/src/unity/prefab.rs:815 | every 64-bit integer parses back from its decimal text |
| PrefabDocuments.KindsAppend | src-tauri/src/unity/prefab.rs:807-821 | classifying two runs of lines concatenates their kinds |
| PrefabDocuments.BodyLen | src-tauri/src/unity/prefab.rs:824-827 | a body runs up to, and not including, the next line starting with `--- !u!` |
| PrefabDocuments.BodyLenIs | src-tauri/src/unity/prefab.rs:824-827 | any length with only body lines before it and none at it is the body's length |
| PrefabDocuments.SkipStep | src-tauri/src/unity/prefab.rs:810-850 | a line that does not start a document is skipped |
| PrefabDocuments.HeaderStep | src-tauri/src/unity/prefab.rs:822-848 | a document's body ends inside the file and the split continues after it |
| PrefabDocuments.ReadBody | src-tauri/src/unity/prefab.rs:822-827 | the body loop collects the lines up to the next header and stops there |
| PrefabDocuments.ParseHeader | src-tauri/src/unity/prefab.rs:807-821 | an id is found exactly when the line starts with `--- !u!`, has three words and its third word parses after its '&'s are removed, and it is that number |
| PrefabDocuments.ParseHeaderAt | src-tauri/src/unity/prefab.rs:807-821 | the same test stated through the kinds of all lines |
| PrefabDocuments.ReadPrefab | src-tauri/src/unity/prefab.rs:799-854 | an unreadable file gives "Failed to read prefab file: " and the reason; otherwise the elements of the document split of its lines |
| PrefabDocuments.SplitLines | src-tauri/src/unity/prefab.rs:806-852 | the loop returns the elements of the specification's document split, in file order, each with its header's id |
| PrefabDocuments.HeaderWords | src-tauri/src/unity/prefab.rs:809 | a written header splits into the dashes, the class tag and the anchored id |
| PrefabDocuments.HeaderLineId | src-tauri/src/unity/prefab.rs:807-821 | a written header is recognised and gives back the document's id |
| PrefabDocuments.DocumentsCons | src-tauri/src/unity/prefab.rs:822-848 | a valid header, its body and the rest split into the decoded document followed by the rest's documents |
| PrefabDocuments.RenderRead | src-tauri/src/unity/prefab.rs:806-852 | documents written as header and body lines split back into the decoded documents, with their ids |
| PrefabDocuments.PreambleIgnored | src-tauri/src/unity/prefab.rs:849-850 | lines before the first header are ignored |
| PrefabDocuments.BadHeaderDropsBody | src-tauri/src/unity/prefab.rs:810-850 | a header whose id does not parse is skipped, and its body lines are skipped as stray lines |
| PrefabDocuments.ReadRendered | src-tauri/src/unity/prefab.rs:799-854 | a file written from documents reads back to the decoded documents |
| PrefabHierarchy.Put | src-tauri/src/unity/prefab.rs:868-888 | an insert of an entry overwrites that key and leaves the map otherwise unchanged; no entry, no change |
| PrefabHierarchy.AddMono | src-tauri/src/unity/prefab.rs:889-891 | a behaviour is appended to its game object's list, created empty when absent; other lists are unchanged |
| PrefabHierarchy.BuildIndex | src-tauri/src/unity/prefab.rs:857-893 | the indexing loop builds the index of the specification |
| PrefabHierarchy.IndexMaps | src-tauri/src/unity/prefab.rs:866-888 | each map keyed by one id collects that component over the elements in order |
| PrefabHierarchy.CollectLastWins | src-tauri/src/unity/prefab.rs:866-888 | a key is present exactly when some element supplies it, and maps to the value of the last element that does |
| PrefabHierarchy.MonosOf | src-tauri/src/unity/prefab.rs:889-891 | the behaviours listed for a game object all belong to it |
| PrefabHierarchy.MonosOfSnoc | src-tauri/src/unity/prefab.rs:889-891 | one more element appends its behaviour to its own game object's list only |
| PrefabHierarchy.MonosIndexed | src-tauri/src/unity/prefab.rs:889-891 | the index lists a game object's behaviours in prefab order, and has a list exactly when there is one |
| PrefabHierarchy.IndexCoherent | src-tauri/src/unity/prefab.rs:871-876 | every indexed transform has its game object recorded under the same id |
| PrefabHierarchy.RootTransform | src-tauri/src/unity/prefab.rs:894-904 | the root is the first parentless transform in map iteration order; there is none exactly when every transform has a parent |
| PrefabHierarchy.RootExists | src-tauri/src/unity/prefab.rs:894-904 | with an iteration order over all transforms, a root is found exactly when some transform has parent 0 |
| PrefabHierarchy.SimplifyMono | src-tauri/src/unity/prefab.rs:1005-1010 | a simplified behaviour keeps the unit id and flags and takes the script guid or "" |
| PrefabHierarchy.SimplifyMonos | src-tauri/src/unity/prefab.rs:1001-1014 | every behaviour is simplified, in order |
| PrefabHierarchy.ChildGos | src-tauri/src/unity/prefab.rs:1018-1021 | the child game objects are non-zero and no more than the child transforms |
| PrefabHierarchy.NodeOf | src-tauri/src/unity/prefab.rs:907-1050 | a game object missing from the index panics; a built node takes its name and active flag, type "GameObject", no clips, its simplified behaviours, and a transform, sprite renderer, animator or particle system exactly when one is indexed for it |
| PrefabHierarchy.ChildrenBuilt | src-tauri/src/unity/prefab.rs:1015-1037 | the children build exactly when every child game object does, and they are those nodes, in order |
| PrefabHierarchy.NodeChildren | src-tauri/src/unity/prefab.rs:1015-1037 | a built node's children are the nodes of its transform's child game objects, in order |
| PrefabHierarchy.NodeFuel | src-tauri/src/unity/prefab.rs:907-1050 | once a node builds, more recursion depth gives the same node |
| PrefabHierarchy.ChildrenFuel | src-tauri/src/unity/prefab.rs:1015-1037 | once the children build, more recursion depth gives the same children |
| PrefabHierarchy.BuildHierarchy | src-tauri/src/unity/prefab.rs:856-1064 | for an iteration order over all transforms: the command panics with no root exactly when every transform has a parent; otherwise the tree is the node of the game object of a parentless transform, the first in that order |
| PrefabHierarchy.RootIsParentless | src-tauri/src/unity/prefab.rs:894-905 | the root transform is indexed, has parent 0 and its game object is found, so that lookup cannot panic |
| PrefabHierarchy.Answer | src-tauri/src/unity/prefab.rs:1066-1074 | a built tree is answered, and a panic ends the command with its reason |
| PrefabHierarchy.PrefabHierarchy | src-tauri/src/unity/prefab.rs:1066-1074 | an unreadable file gives the read error; otherwise, for an iteration order over all transforms, the command panics with no root exactly when every transform of the split documents has a parent, and else answers the node of the first parentless transform's game object |
| PrefabHierarchy.ImageToBase64 | src-tauri/src/unity/prefab.rs:783-795 | an image is given exactly for a `.png` or `.jpg` path that reads, as a data URL with "image/png" for `.png` and "image/jpeg" otherwise |
| Logger.MonthsAddUp | src-tauri/src/logger.rs:143 | the days before a month and its length add up to the days before the next, and all twelve months to the year's length |
| Logger.YearsIncrease | src-tauri/src/logger.rs:144 | the days before a year grow with the year by at least that year's length |
| Logger.MonthsIncrease | src-tauri/src/logger.rs:144 | within a year, a later month starts after every day of an earlier one |
| Logger.WithinYear | src-tauri/src/logger.rs:144 | a valid date's day number lies within its own year |
| Logger.EarlierIffBefore | src-tauri/src/logger.rs:144 | a date is earlier in calendar order exactly when its day number is smaller |
| Logger.Fixed | src-tauri/src/logger.rs:22 | a number below 10^w is written in exactly w digits whose value is the number |
| Logger.DecBound | src-tauri/src/logger.rs:143 | w digits denote a value below 10^w |
| Logger.FixedOfDigits | src-tauri/src/logger.rs:143 | w digits are the w-digit writing of their own value |
| Logger.FormatDate | src-tauri/src/logger.rs:21-23 | `%Y-%m-%d` of a four-digit year is ten characters |
| Logger.DateRoundTrip | src-tauri/src/logger.rs:143 | a text parses as a date exactly when it is that valid date written with `%Y-%m-%d` |
| Logger.LogDirectory | src-tauri/src/logger.rs:15-19 | without a home directory the error is "Cannot find home directory"; otherwise the directory is `<home>/.kgc-toolkit/logs` |
| Logger.LogFilePath | src-tauri/src/logger.rs:25-30 | without a home directory the path fails; otherwise it is `<home>/.kgc-toolkit/logs/app-<date>.log` for today |
| Logger.LogNameRoundTrip | src-tauri/src/logger.rs:137-143 | a file name yields a date exactly when it is that valid date's log file name |
| Logger.NoBreaksJoin | src-tauri/src/logger.rs:57-74 | two texts without line breaks join into one without them |
| Logger.NoBreaksPlain | src-tauri/src/logger.rs:105 | a text without line breaks is a single line |
| Logger.LineIsPlain | src-tauri/src/logger.rs:57-74 | an entry whose fields have no line breaks is written as exactly one line |
| Logger.WriteLogEntry | src-tauri/src/logger.rs:44-90 | without a home directory the write fails; otherwise only today's log changes, by appending the formatted line and "\n" |
| Logger.Texts | src-tauri/src/logger.rs:57-74 | one line per entry, each that entry's layout |
| Logger.WriteOne | src-tauri/src/logger.rs:76-84 | a write appends the entry's line and a newline to today's log |
| Logger.WriteAllText | src-tauri/src/logger.rs:44-90 | a run of writes appends their lines, each newline-terminated, in order |
| Logger.Reverse | src-tauri/src/logger.rs:104-112 | reversing keeps the length and mirrors the positions |
| Logger.RecentIsSuffix | src-tauri/src/logger.rs:104-112 | the recent lines are the last min(n, count) lines of the log, in file order |
| Logger.GetRecentLogs | src-tauri/src/logger.rs:92-115 | without a home directory it fails; a missing log gives no lines; an unreadable one gives "Failed to read log file: " and the reason; otherwise the last `lines` lines, 100 by default |
| Logger.WrittenThenRead | src-tauri/src/logger.rs:44-115 | after writing entries to a fresh log, reading the recent n lines gives the last n lines written, in order |
| Logger.ReadBack | src-tauri/src/logger.rs:104-112 | the last n lines of the written text are the last n entry lines |
| Logger.LinesWritten | src-tauri/src/logger.rs:57-105 | the lines of the text written for loggable entries are their lines, one each |
| Logger.ClearOldLogs | src-tauri/src/logger.rs:117-158 | without a home directory it fails; a missing directory removes nothing and gives 0; an unlistable one gives "Failed to read log directory: "; otherwise the files removed are those of the sweep, keeping 7 days by default, and the count is their number, unless an entry could not be read, which gives "Failed to read directory entry: " |
| Logger.SweepStep | src-tauri/src/logger.rs:132-155 | one readable entry adds its name to the removed files when it is expired and removing it succeeds, then the sweep goes on |
| Logger.SweepEntries | src-tauri/src/logger.rs:132-155 | the loop removes the files of the sweep specification and stops at the first unreadable entry |
| Logger.SweepRemovesExpired | src-tauri/src/logger.rs:136-150 | every file removed is an expired log, and every expired, removable log before the first unreadable entry is removed |
| Logger.TodayKept | src-tauri/src/logger.rs:126-144 | today's log is never removed |
| Logger.ExpiredIffEarlier | src-tauri/src/logger.rs:137-144 | keeping 0 days, a file is expired exactly when it is a log named for a day before today |
| ProjectAnalyzer.ExportedPaths | csharp/Editor/ProjectAnalyzer.cs:44-46 | the export never lists more paths than the database has |
| ProjectAnalyzer.ExportedIff | csharp/Editor/ProjectAnalyzer.cs:44-46 | a path is exported exactly when the database has it and it starts with `Assets/` |
| ProjectAnalyzer.Describe | csharp/Editor/ProjectAnalyzer.cs:50-56 | an asset record carries its path and guid, its main type's name or "Unknown" when there is none, and its file's length or 0 when the file is missing |
| ProjectAnalyzer.ExportProject | csharp/Editor/ProjectAnalyzer.cs:39-59 | the snapshot has one record per exported path, in database order, each that path's description |
| ProjectAnalyzer.ExportUnderAssets | csharp/Editor/ProjectAnalyzer.cs:44-58 | every asset of an export is a database path under `Assets/` |
| ProjectAnalyzer.Dictionary | csharp/Editor/ProjectAnalyzer.cs:135-136 | the guid dictionary is built exactly when no guid repeats; it maps every asset's guid to that asset and has no other key |
| ProjectAnalyzer.Keep | csharp/Editor/ProjectAnalyzer.cs:139-166 | a selection never has more assets than the list it selects from |
| ProjectAnalyzer.KeepIff | csharp/Editor/ProjectAnalyzer.cs:139-166 | an asset is selected exactly when it is in the list and passes the test |
| ProjectAnalyzer.KeepBoth | csharp/Editor/ProjectAnalyzer.cs:139-166 | two tests that never both hold select, together, at most the whole list |
| ProjectAnalyzer.Select | csharp/Editor/ProjectAnalyzer.cs:139-145 | each selection loop returns the specification's selection, in list order |
| ProjectAnalyzer.CompareSnapshots | csharp/Editor/ProjectAnalyzer.cs:131-169 | the comparison is the specification's: the error of a repeated guid, or the three selections |
| ProjectAnalyzer.CompareMeaning | csharp/Editor/ProjectAnalyzer.cs:131-169 | the comparison succeeds exactly when neither snapshot repeats a guid; an asset is added exactly when it is current and its guid was absent, removed exactly when it was previous and its guid is absent now, and modified exactly when it is current and the previous asset of its guid differs in size or path |
| ProjectAnalyzer.AddedModifiedDisjoint | csharp/Editor/ProjectAnalyzer.cs:139-166 | no asset is both added and modified, and together they number at most the current assets |
| ProjectAnalyzer.UnchangedUnlisted | csharp/Editor/ProjectAnalyzer.cs:139-166 | an asset with the same guid, size and path in both snapshots is listed nowhere |
| ProjectAnalyzer.EntryLines | csharp/Editor/ProjectAnalyzer.cs:94-97 | one line per asset listed |
| ProjectAnalyzer.EntryLinesAt | csharp/Editor/ProjectAnalyzer.cs:96-118 | line k is asset k's sign, path and, when asked, type |
| ProjectAnalyzer.SectionShape | csharp/Editor/ProjectAnalyzer.cs:91-121 | an empty list has no section; otherwise the title, the first ten assets in order, "  ... and n more" for the n beyond ten, and the blank line when asked |
| ProjectAnalyzer.AppendEntries | csharp/Editor/ProjectAnalyzer.cs:94-97 | the loop appends the entry lines of the assets |
| ProjectAnalyzer.AppendSection | csharp/Editor/ProjectAnalyzer.cs:91-100 | one block appends exactly its section |
| ProjectAnalyzer.BuildReport | csharp/Editor/ProjectAnalyzer.cs:85-121 | the report is the title, the three counts and the ADDED, REMOVED and MODIFIED sections, in that order |
| ProjectAnalyzer.CompareProjects | csharp/Editor/ProjectAnalyzer.cs:68-129 | a missing previous file gives "Previous JSON file not found!"; a repeated guid gives its exception; otherwise the report of the comparison |
| XapkConvert.Find | src-tauri/src/c2u.rs:370-374 | a name is found in a directory exactly when some entry has it |
| XapkConvert.FindPut | src-tauri/src/c2u.rs:349-382 | after writing a name, looking it up gives the written node, and every other name is unchanged |
| XapkConvert.MergeAllStep | src-tauri/src/c2u.rs:366-384 | merging the entries from one on is merging that entry and then the rest, stopping at the first error |
| XapkConvert.MergeDirectories | src-tauri/src/c2u.rs:358-387 | the merge returns the tree of the merge specification: source files overwrite target files, source directories are created when missing and merged recursively |
| XapkConvert.CopyDirRecursive | src-tauri/src/c2u.rs:328-355 | the copy creates a missing target and then behaves exactly as the merge |
| XapkConvert.MergeAllFiles | src-tauri/src/c2u.rs:358-387 | after a merge every source file is at its path in the target, and every target file at a path the source does not reach is unchanged |
| XapkConvert.MergeEntryFiles | src-tauri/src/c2u.rs:366-384 | one entry's merge writes its own files, keeps the target's files it does not reach, and touches no other name |
| XapkConvert.VersionMeaning | src-tauri/src/c2u.rs:44-47 | a version exists exactly when the stem holds an '@', and it is the '@'-free run right after the first '@' |
| XapkConvert.NoAtBefore | src-tauri/src/c2u.rs:44-46 | nothing before the first '@' holds one |
| XapkConvert.EmptyVersionClobbers | src-tauri/src/c2u.rs:44-57 | as written, the stem `app@` makes the output directory the chosen base itself, and `app@..` its parent, which are then emptied |
| XapkConvert.AtAfterApp | src-tauri/src/c2u.rs:44-46 | `app@rest` with no '@' in rest splits into `app` and rest |
| XapkConvert.OutputDir | src-tauri/src/c2u.rs:52 | a checked output directory is always one level inside the chosen base |
| XapkConvert.OutputDirInside | src-tauri/src/c2u.rs:44-57 | the checked directory exists exactly when the version is a plain directory name, and then it is the base joined with the version, as the source computes it |
| XapkConvert.ClassifyApks | src-tauri/src/c2u.rs:78-97 | the classification loop gives the classification of the listing |
| XapkConvert.ClassifyMeaning | src-tauri/src/c2u.rs:78-97 | the APKs are exactly the files ending in `.apk`; the base is found exactly when `base_assets.apk` is a file; the configuration APKs are exactly the other files starting `config.` and ending `.apk` |
| XapkConvert.RemoveUnkept | src-tauri/src/c2u.rs:116-135 | the clean-up loop removes exactly the entries the keep test rejects |
| XapkConvert.RetainedIff | src-tauri/src/c2u.rs:123-134 | an entry remains exactly when it was there and the keep test accepts its name |
| XapkConvert.CleanupKeepsFound | src-tauri/src/c2u.rs:116-135 | the clean-up keeps the base APK and every configuration APK found |
| XapkConvert.MoveLib | src-tauri/src/c2u.rs:159-171 | one configuration's lib step gives the specification's base tree |
| XapkConvert.LibStepFiles | src-tauri/src/c2u.rs:159-171 | every file of the configuration's `lib` lands at the same place under the base's `lib`, and nothing outside `lib` changes |
| XapkConvert.LibIsWellformed | src-tauri/src/c2u.rs:160 | the `lib` directory of a well-formed tree is well formed |
| XapkConvert.MoveLibs | src-tauri/src/c2u.rs:145-175 | the loop over the configuration APKs applies their lib steps in order, stopping at the first error |
| XapkConvert.Convert | src-tauri/src/c2u.rs:25-194 | the conversion up to the AssetRipper run gives the outcome of the specification |
| XapkConvert.ConvertOutcome | src-tauri/src/c2u.rs:29-194 | a missing input, a missing output directory, a stem without '@' and a missing `base_assets.apk` each give their error; on success the output directory is the base joined with the version and the temporary directory holds only `base_assets` |
| XapkConvert.OnlyBaseDir | src-tauri/src/c2u.rs:177-194 | after the last clean-up only the `base_assets` directory remains |
| XapkConvert.PutAbsent | src-tauri/src/c2u.rs:139-141 | writing a name a listing lacks adds it at the end |
| XapkConvert.RetainedKept | src-tauri/src/c2u.rs:123-134 | every entry that remains passes the keep test |
| XapkConvert.RetainedNone | src-tauri/src/c2u.rs:185 | when the keep test rejects every entry, nothing remains |
| HeroCatalog.SplitHeroFolderComplete | src/hooks/useHeroes.ts:44 | every name of the folder shape splits into its own digits, spaces and parenthesised text |
| Text.IndexOf | src-tauri/src/utils.rs:58 | `find` returns the leftmost occurrence, and none exactly when there is no occurrence |
| Text.Split | src-tauri/src/utils.rs:61 | a split always yields at least one piece |
| Text.JoinSplit | src-tauri/src/utils.rs:61 | joining the pieces of a split with the separator gives the text back |
| Text.SplitJoin | src-tauri/src/utils.rs:61 | splitting a join of pieces that hold no separator gives the pieces back |
| Text.TrimIsTrimmed | src/app/editor/@left_panel/heroes/page.tsx:22 | a trimmed text has no surrounding whitespace |
| Text.BlankIffTrimEmpty | src/app/editor/@left_panel/heroes/page.tsx:16 | a text is blank (all whitespace) exactly when trimming it leaves nothing |
| Text.ToLower | src/app/editor/@left_panel/heroes/page.tsx:22-29 | lower-casing maps every character and keeps the length |
| Text.ToUpper | src-tauri/src/logger.rs:60 | upper-casing maps every character and keeps the length |
| Text.LinesOfTerminated | src-tauri/src/logger.rs:105 | lines each written with a trailing newline read back as the same lines |

## Left out

- Input and output: every Tauri command, file-system call and `invoke` is answered by a parameter (an abstract file system, a map from path to text, or an oracle such as `HeroesHook.Env`, whose fields stand for the existence checks, directory listing, text and byte reads, the `.asset` parser, the crop command and base64 encoding; the encoding may fail, as `btoa` of the spread byte array throws for a large image, and the avatar is then left unset).
- Clocks and the home directory: `Date.now`, `chrono::Local::now` and the home directory are parameters; local time zones and daylight saving time are not modelled.
- Concurrency: async interleaving, React state batching and effect ordering, the notify watcher thread and its `Arc<Mutex>` state are left out; each operation runs to completion in order.
- External processes and the network: `get_app_versions` (the `apkeep` process and its 30 s timeout; only the parse of its printed output is modelled), `download_app`, `check_asset_ripper`, the AssetRipper run of the XAPK conversion and the copy of its output (src-tauri/src/c2u.rs from line 196 on), and the `rlimit` setup.
- Archives and images: `extract_zip` is a parameter that yields the extracted tree; PNG decoding and encoding, `optimize_image_bytes`, base64 (`general_purpose::STANDARD` and `btoa`) and `get_image_dimensions` are opaque.
- Floating point: `parse_float_from_line` is a parameter giving the outcome of the `f32` parse; a transform's local position, scale, rotation and Euler-angle hint are carried as opaque values.
- YAML and serde decoding of a prefab document body is a partial-function parameter.
- PrefabHierarchy.NodeOf: a node's sprite renderer keeps only the sprite guid, sorting order and flips; its `color`, `size`, `offset`, `sprite_base64` and `sprite_rect` (src-tauri/src/unity/prefab.rs:957-967) are dropped, so `sprite_to_base64_with_rect` and the `find_asset_path` glob search behind it are not modelled at all.
- PrefabHierarchy.NodeOf: a node's particle system keeps only `enabled`; `length_in_sec`, `simulation_speed`, `looping`, `prewarm`, `play_on_awake`, `auto_random_seed`, `start_lifetime`, `start_speed`, `start_size`, `start_color`, `gravity_modifier`, `emission_rate` and `shape_type` (src-tauri/src/unity/prefab.rs:981-998) are dropped.
- PrefabHierarchy.BuildHierarchy: the root transform is the first parentless one in `HashMap` iteration order, which is unspecified, so the order is a parameter, required to list exactly the indexed transforms; which parentless transform is the root when there are several is therefore not determined.
- SkinDiscovery.SortSkins: skin ids and colours are compared by their exact integer values, while `parseInt` yields doubles, so two digit runs longer than 15 digits that differ only beyond 2^53 compare equal in the source and keep their order, where the model orders them.
- NativeUtils.KeepVersions: "has a digit" is ASCII `0`-`9`, while Rust's `char::is_numeric` also accepts other Unicode numeric characters (such as `²` or `٣`), so an item whose only numerals are non-ASCII is kept by the source and dropped by the model.
- XapkConvert.Convert: models the intended version check (`XapkConvert.OutputDir`): the stems `app@`, `app@.` and `app@..` give `BadVersion`, while the source as written empties the output directory itself or its parent; the as-written path is `XapkConvert.OutputDirAsWritten` and `XapkConvert.EmptyVersionClobbers` (see "Findings").
- NativeUtils.CropImage: models the intended bounds checks with unbounded arithmetic, so a region with `y + height` or `x + width` at or above 2^32 is rejected, while a release build wraps the `u32` sums and accepts some of them; the as-written checks are `NativeUtils.CropOverflowPasses` (see "Findings").
- XapkConvert.MergeNode: the failure to create a missing target directory and the failure to copy a file are both reported as `CopyFailed`, while the source gives them different messages.
- FileTree.FirstChunk: assumes the single `read` call fills the buffer as far as the file allows (min(1024, file size) bytes); a short read returning fewer bytes is not modelled.
- PrefabHierarchy.NodeOf: recursion through the transform children is bounded by a fuel parameter, because a cyclic child list in a malformed prefab makes the source recurse until the stack overflows; the model reports that as the panic `OutOfFuel`, and with too little fuel it also reports it for a deep but acyclic prefab.
- Strings: case mapping (`toLowerCase`, `to_uppercase`) is ASCII only; `localeCompare` is modelled as code-point order; there is no Unicode normalisation.
- Logger.ParseDate: accepts only the zero-padded `YYYY-MM-DD` form of a log file name, while chrono also accepts some unpadded forms.
- Logger.ClearOldLogs: the number of days to keep is unbounded, so the `u64` to `i64` cast and the panic of `chrono::Duration::days` on a huge count are not modelled; the failure to delete a file is the entry's `removable` flag and its `eprintln!` message is left out.
- Logger.WriteLogEntry: failures creating the log directory or opening, writing and flushing the file are not modelled; only the missing home directory fails.
- FileTree: paths are sequences of names joined with `/`; `PathBuf` normalisation and platform separators are not modelled.
- XapkConvert: an error reading one directory entry is not modelled; after a failed merge or copy the model returns the error and not the partially changed tree; the source-exists check in `merge_directories`/`copy_dir_recursive` and the creation and removal of the temporary `config_temp` directory are folded into the tree operations.
- XapkConvert: the error texts of the source are Vietnamese; the model names each error with an English constructor.
- ProjectAnalyzer: the Unity asset database, the JSON files and the editor dialogs are parameters or are left out; the report is modelled as the sequence of lines passed to `AppendLine`.
- `selectHero`, `refreshHeroes` and `loadHeroAvatarById` of src/hooks/useHeroes.ts (lines 513-561) are thin wrappers over state setters and `loadHeroes`/`loadHeroAvatar`, and are not modelled; `loadHeroSkinColor` (lines 615-617) is the same call as `loadHeroSkin`.
- ProjectStore.Store.SetPath: the call it makes into the separate app-history store is not modelled.
- ExplorerStore, ExplorerHook: the answers of `check_path_exists` and `get_file_tree` are parameters of `LoadDirectory` and `RefreshDirectory`; `ExplorerStore.Fetch` states what they are for a file system of the `FileTree` model, and the model does not tie the two together.
- Events: the explorer store subscribes to a `file-changed` event that the back end never emits, and the explorer hook reads `payload.tree` from `fs-changed`, whose Rust payload carries only paths and a kind; the model takes the event's tree as an argument and does not model the subscription.
- Persistence middleware (session storage, `LazyStore`) and the front-end logging calls are left out.

## Findings

| source | as written | input that shows it | evidently intended | confidence | as-written member | corrected member |
|---|---|---|---|---|---|---|
| src-tauri/src/utils.rs:299-349 | the bounds checks of `crop_image_from_bytes` add and subtract `u32` values, which wrap around in a release build | a 2 × 2 image with x = 0, y = 1, width = 1, height = 2^32 - 1 passes every check, and the converted row is 2, outside the image | reject any region that does not fit in the image | not executed | NativeUtils.CropOverflowPasses | NativeUtils.CropCheckIff |
| src-tauri/src/utils.rs:12-25 | `get_asset_ripper` appends `.exe` when the platform is "windows", but `check_os` only ever yields "win" | the platform "windows": the path is `binaries/asset-ripper-win-x64/AssetRipper.GUI.Free` without `.exe` | append `.exe` on Windows | not executed | NativeUtils.AssetRipperPaths | NativeUtils.AssetRipperFixed |
| src-tauri/src/c2u.rs:39-57 | the version is taken from the file stem unchecked and joined to the output directory, which is then emptied with `remove_dir_all` | the stem `app@` gives the version "" and so the chosen output directory itself; `app@..` gives its parent | refuse a version that is not a plain directory name | not executed | XapkConvert.EmptyVersionClobbers | XapkConvert.OutputDirInside |
