# Container asset index (Statamic Stache `ContainerAssetsStore`)

This project models the asset index of one asset container in the Stache, Statamic's flat-file
index. The store lists the container's files on the storage backend. It drops every entry whose
type is not `file`, files directly in a top-level `.meta` directory, any path containing
`/.meta/`, and the bookkeeping files `.gitignore`, `.gitkeep` and `.DS_Store`. Each
surviving file gets a logical key `handle::path`. The resulting ordered key => path mapping is
kept in the `$paths` field and in the shared cache, and assets are materialised from paths on
demand.

The model has four modules:

- `Text` (text.dfy): `strpos` as `IndexOf`, `Str::contains` and `Str::after`, with their laws.
- `AssetFiles` (asset_files.dfy): the exclusion filter of `getFiles` (`Rejected`, `KeptFiles`).
  It also holds the `mapWithKeys` key derivation (`KeyFor`, `Put`, `PathsFor`, `BuildPaths`).
  PHP array assignment is modelled exactly: an existing key is overwritten in place and a new key
  is appended. Insertion order is kept.
- `Stores` (store.dfy): the class `ContainerAssetsStore`.
  - Its fields `container`, `paths` and `fileItems` are the source's memo fields.
  - Its methods `Container`, `GetItem`, `GetFiles`, `Paths` and `GetItemsFromFiles` update them
    as the source does.
  - Each method's contract ties its result to a specification function: `Resolve`,
    `LookupPaths` (the three-tier lookup), `BuildPaths` or `ItemsFor`.
  - Ghost fields count the calls into `findByHandle`, `Cache::get` and `listContents`. They also
    log the paths handed to `makeAsset` and the mappings handed to `cachePaths`.
- `Scenarios` (scenarios.dfy): concrete runs. They cover the sample listing, the `.meta` rule and
  memoisation seen through fresh store instances.

The collaborators are inputs to the methods:

- the container registry behind `AssetContainer::findByHandle` (`map<string, AssetContainer>`);
- the shared cache read by `Cache::get` (`map<string, Mapping>`);
- the backend listing `listContents` returns (`seq<FileDescriptor>`).

A container that resolves to null makes the PHP code fail when it calls `handle()` or
`makeAsset()`. The model returns `NullContainer` in that case.

PHP truthiness is followed literally:

- A cached array counts as a hit only when it is non-empty. An empty cached mapping sends
  `paths()` to the backend.
- Once `$paths` or `$fileItems` holds a Collection object, it is truthy even when empty. So with
  `shouldCacheFileItems` set, an empty item list is also returned from the memo.

Some properties follow from the code but not from a casual reading of it:

- `getItem(h::p)` yields exactly `p` only when `h + ":"` contains no `::`. A handle ending in
  `:` keeps a stray colon (`AfterKeyHandleEndingInColon`).
- `getItemsFromFiles` passes the mapping's values (bare paths) to `getItem`, not its keys. Each
  item is therefore the asset of its stored path exactly when that path has no `::`
  (`ItemsFor`).
- On a cache miss, `paths()` does not itself assign `$paths`. It hands the new mapping to
  `cachePaths` and returns that same mapping; whether `cachePaths` stores it in `$paths` is left
  open, so after a miss the model allows `$paths` to be either unset or that mapping.

## Model

| member | source | states |
|---|---|---|
| `Text.IndexOf` | src/Stache/Stores/ContainerAssetsStore.php:74 | The search behind `Str::contains` and `Str::after`: a result marks an occurrence with none before it; no result means the needle occurs nowhere |
| `Text.Contains` | src/Stache/Stores/ContainerAssetsStore.php:74 | `Str::contains` holds exactly when the needle is non-empty and occurs somewhere in the text |
| `Text.After` | src/Stache/Stores/ContainerAssetsStore.php:25 | `Str::after` returns the text unchanged exactly when the needle does not occur (or is empty); otherwise it returns the text after the first occurrence |
| `Text.AfterKey` | src/Stache/Stores/ContainerAssetsStore.php:25 | Splitting `h::p` at its first `::` gives back exactly `p`, whatever `p` holds, whenever `h + ":"` has no `::` |
| `Text.AfterKeyHandleEndingInColon` | src/Stache/Stores/ContainerAssetsStore.php:25 | The proviso is needed: `a:` + `:` contains `::` although the handle `a:` does not, and splitting `a:::x.jpg` yields `:x.jpg` |
| `AssetFiles.Rejected` | src/Stache/Stores/ContainerAssetsStore.php:72-75 | A descriptor is kept exactly when its type is `file`, its directory is not `.meta`, its path has no `/.meta/`, and its basename is none of `.gitignore`, `.gitkeep`, `.DS_Store` |
| `AssetFiles.KeptFiles` | src/Stache/Stores/ContainerAssetsStore.php:69-77 | `getFiles` returns no more entries than the listing, each one from the listing and not rejected |
| `AssetFiles.KeptFilesComplete` | src/Stache/Stores/ContainerAssetsStore.php:71-76 | Every listed descriptor the reject callback accepts is in the filtered listing |
| `AssetFiles.KeptFilesAppend` | src/Stache/Stores/ContainerAssetsStore.php:71-76 | Filtering distributes over concatenation and keeps a single entry exactly when it is not rejected, so the filter only removes entries and keeps relative order |
| `AssetFiles.KeptFilesDistinctPaths` | src/Stache/Stores/ContainerAssetsStore.php:71-76 | Filtering a listing with distinct paths leaves distinct paths |
| `AssetFiles.KeyFor` | src/Stache/Stores/ContainerAssetsStore.php:61 | The key is the handle, then `::`, then the path, and nothing else |
| `AssetFiles.EntryFor` | src/Stache/Stores/ContainerAssetsStore.php:61 | A file's entry has the file's path as its value, and for a handle whose `handle + ":"` has no `::` splitting its key at the first `::` gives that path back |
| `AssetFiles.KeyForInjective` | src/Stache/Stores/ContainerAssetsStore.php:61 | Within one handle, `handle::path` keys are equal exactly when the paths are equal |
| `AssetFiles.Put` | src/Stache/Stores/ContainerAssetsStore.php:58-62 | Assigning `$m[$k] = $v` puts `(k, v)` in the array, adds no other entry, and keeps every entry with a different key |
| `AssetFiles.PutAbsent` | src/Stache/Stores/ContainerAssetsStore.php:58-62 | Assigning a key the array lacks appends the entry at the end |
| `AssetFiles.PutPresent` | src/Stache/Stores/ContainerAssetsStore.php:58-62 | Assigning a key the array already holds replaces that entry's value in place and changes nothing else |
| `AssetFiles.PutDistinct` | src/Stache/Stores/ContainerAssetsStore.php:58-62 | Assignment keeps the array's keys distinct |
| `AssetFiles.PathsFor` | src/Stache/Stores/ContainerAssetsStore.php:58-62 | `mapWithKeys` yields a mapping with no key twice |
| `AssetFiles.PathsForSound` | src/Stache/Stores/ContainerAssetsStore.php:58-62 | Every entry of the mapping is `handle::path => path` for some file of the input |
| `AssetFiles.PathsForComplete` | src/Stache/Stores/ContainerAssetsStore.php:58-62 | Every file of the input has its entry `handle::path => path` in the mapping |
| `AssetFiles.PathsForDistinct` | src/Stache/Stores/ContainerAssetsStore.php:58-62 | With pairwise distinct paths the mapping has exactly one entry per file, in file order |
| `AssetFiles.BuildPaths` | src/Stache/Stores/ContainerAssetsStore.php:53-62 | The mapping built on a miss has distinct keys, and an entry is in it exactly when it is `handle::path => path` for a listed file the filter keeps |
| `AssetFiles.RejectedFileHasNoKey` | src/Stache/Stores/ContainerAssetsStore.php:53-77 | A rejected file whose path no kept file shares has no key in the mapping |
| `AssetFiles.BuildPathsOnePerFile` | src/Stache/Stores/ContainerAssetsStore.php:53-77 | For a listing with distinct paths, the mapping's i-th entry is the entry of the i-th kept file, and there are as many entries as kept files |
| `Stores.Truthy` | src/Stache/Stores/ContainerAssetsStore.php:49 | A cached value is a hit only when it is an array with at least one entry; null and the empty array are misses |
| `Stores.Resolve` | src/Stache/Stores/ContainerAssetsStore.php:15 | A memoised container wins; otherwise the registry's container for the handle; the result is null exactly when neither exists |
| `Stores.LookupPaths` | src/Stache/Stores/ContainerAssetsStore.php:45-66 | The tiers in order: a set `$paths` is returned; else a truthy cached array; the result is an error exactly when both miss and the container is null; otherwise it is a mapping with distinct keys holding exactly the entries of the kept files |
| `Stores.ItemsFor` | src/Stache/Stores/ContainerAssetsStore.php:38-40 | The items keep the mapping's keys in order and all belong to the container; item i is the asset of stored path i exactly when that path has no `::` |
| `Stores.ContainerAssetsStore.constructor` | src/Stache/Stores/ContainerAssetsStore.php:9-11 | A new store has no container, no paths and no file items, and has made no calls |
| `Stores.ContainerAssetsStore.Container` | src/Stache/Stores/ContainerAssetsStore.php:13-16 | Returns and stores the memoised container if set and calls `findByHandle` only otherwise; once non-null it never calls it again |
| `Stores.ContainerAssetsStore.GetItem` | src/Stache/Stores/ContainerAssetsStore.php:23-30 | Hands `makeAsset` the text after the key's first `::` (the whole key if none) and returns that asset; a null container is an error with no asset made |
| `Stores.ContainerAssetsStore.GetFiles` | src/Stache/Stores/ContainerAssetsStore.php:69-77 | Lists the resolved container once and returns the listing with rejected descriptors removed; a null container is an error with no listing |
| `Stores.ContainerAssetsStore.Paths` | src/Stache/Stores/ContainerAssetsStore.php:43-67 | If `$paths` is set, returns it and changes nothing. Otherwise it reads the cache once; a truthy hit is stored in `$paths` and returned with no listing. On a miss it lists once and returns the built mapping, the same mapping it hands to `cachePaths`, leaving `$paths` unset or holding that mapping |
| `Stores.ContainerAssetsStore.MapGetItem` | src/Stache/Stores/ContainerAssetsStore.php:38-40 | Calls `getItem` on every value of the mapping in order, resolving the container at most once, and returns the items `ItemsFor` gives; a null container is an error with no asset made |
| `Stores.ContainerAssetsStore.GetItemsFromFiles` | src/Stache/Stores/ContainerAssetsStore.php:32-41 | With caching on and items stored, returns them and changes nothing. Otherwise it maps every value of `paths()` through `getItem`, keeping keys and order, and stores the result; a null container leaves `$fileItems` as it was. Every other field ends as `paths()` and the `getItem` calls leave it: cache reads, listings, logged mappings, `$paths`, the container and `findByHandle` calls |
| `Stores.ContainerAssetsStore.HandleFileChanges` | src/Stache/Stores/ContainerAssetsStore.php:18-21 | Changes no state |
| `Stores.ContainerAssetsStore.WriteItemToDisk` | src/Stache/Stores/ContainerAssetsStore.php:79-82 | Changes no state |
| `Stores.ContainerAssetsStore.DeleteItemFromDisk` | src/Stache/Stores/ContainerAssetsStore.php:84-87 | Changes no state |
| `Scenarios.NoSlashDot` | src/Stache/Stores/ContainerAssetsStore.php:74 | A path with no `/.` anywhere never matches the `/.meta/` test |
| `Scenarios.SampleListingKept` | src/Stache/Stores/ContainerAssetsStore.php:69-77 | Of a file, a directory, a `.meta` file and another file, the filter keeps the two plain files in order |
| `Scenarios.SampleListingPaths` | src/Stache/Stores/ContainerAssetsStore.php:53-62 | That listing in container `assets` yields exactly `["assets::a.jpg" => "a.jpg", "assets::b.jpg" => "b.jpg"]` |
| `Scenarios.TopLevelMetaPathKept` | src/Stache/Stores/ContainerAssetsStore.php:73-74 | `.meta/a/b.yaml`, whose directory is `.meta/a`, is not excluded, because the path test needs a slash before `.meta` |
| `Scenarios.NestedMetaPathRejected` | src/Stache/Stores/ContainerAssetsStore.php:74 | `x/.meta/b.yaml` is excluded by the path test |
| `Scenarios.CacheRoundTrip` | src/Stache/Stores/ContainerAssetsStore.php:49-51 | A fresh store reads back a non-empty cached mapping unchanged without listing. A cached empty mapping is a miss and leads to one listing |
| `Scenarios.PathsTwice` | src/Stache/Stores/ContainerAssetsStore.php:45-51 | After a truthy hit, a second `paths()` returns the same mapping with one cache read and no listing in all |
| `Scenarios.ContainerOnce` | src/Stache/Stores/ContainerAssetsStore.php:13-16 | Two `container()` calls make one `findByHandle` call and return the same container, even if the registry has changed between them |
| `Scenarios.ItemsTwice` | src/Stache/Stores/ContainerAssetsStore.php:32-41 | With item caching on, the first call materialises one item per mapping entry. The second call returns the same items and makes no further asset, even for a changed listing |
| `Scenarios.ItemOfKey` | src/Stache/Stores/ContainerAssetsStore.php:23-30 | `getItem(h::p)` materialises exactly `p` in container `h` when `h + ":"` has no `::` |

## Left out

- `cachePaths` and `pathsCacheKey` belong to the parent `ChildStore`, which is not part of this model. The cache key is a constant of the instance. `cachePaths` is logged, and it may or may not store the mapping in `$paths`: the model allows both. It is assumed to change no other field of the store, and its writes to the shared cache are not modelled. So the model does not claim that a second `paths()` after a miss avoids listing again.
- The shared cache is an input map that is only read. Storage, TTL, eviction and cross-process races on it are not modelled.
- `findByHandle`, `listContents` and `makeAsset` are inputs or uninterpreted. An `Asset` is the pair (container, path) handed to `makeAsset`; hydration and its failures (a path with no file) are not modelled.
- The parent's initial values of `$paths`, `$fileItems` and `$shouldCacheFileItems` are not visible. The model starts with unset fields and takes the flag as a constructor argument.
- File descriptor fields are always strings. A descriptor with a missing key (read as null in PHP) is not modelled. `in_array`'s loose comparison equals strict comparison for these non-numeric names.
- PHP integer-like array keys are not modelled, because keys containing `::` are never integer-like.
