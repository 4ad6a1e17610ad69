/**
 * The container asset store: a per-container index whose `paths()` looks the
 * key => path mapping up in three tiers (the `$paths` field, the shared cache,
 * the backend listing), and whose `container()` and `getItemsFromFiles()`
 * memoise their results in fields the same way.
 *
 * The collaborators it calls are inputs: the container registry behind
 * `AssetContainer::findByHandle`, the shared cache read by `Cache::get`, and
 * the listing `listContents` returns. Ghost fields count or log the calls
 * into them, so that the memoisation claims can be stated.
 */
module Stores {
  import opened Wrappers
  import opened Text
  import opened AssetFiles

  /** An asset container as `findByHandle` yields it; the store only reads its handle. */
  datatype AssetContainer = AssetContainer(handle: string)

  /** The asset `makeAsset` builds for a path of a container (hydration is not modelled). */
  datatype Asset = Asset(container: AssetContainer, path: string)

  /**
   * The outcome of a store call: a value, or the error PHP raises when the
   * code calls `handle()` or `makeAsset()` on a container that resolved to null.
   */
  datatype Outcome<T> = Ok(value: T) | NullContainer

  /** Materialised items, keyed as the mapping they were built from. */
  type Items = seq<(string, Asset)>

  /** `AssetContainer::findByHandle`: null when no container has the handle. */
  function FindByHandle(registry: map<string, AssetContainer>, handle: string): Option<AssetContainer> {
    if handle in registry then Some(registry[handle]) else None
  }

  /** `Cache::get`: null when the key is absent. */
  function CacheGet(cache: map<string, Mapping>, key: string): Option<Mapping> {
    if key in cache then Some(cache[key]) else None
  }

  /**
   * PHP truthiness of what `Cache::get` returned: null and the empty array
   * are falsy, any array with an entry is truthy.
   */
  function Truthy(cached: Option<Mapping>): (b: bool)
    ensures b ==> cached.Some? && |cached.value| > 0
    ensures !b ==> cached.None? || cached.value == []
  {
    cached.Some? && cached.value != []
  }

  /**
   * What `container()` yields: a memoised container wins over the registry;
   * otherwise the registry's container for the handle, null when it has none.
   */
  function Resolve(memo: Option<AssetContainer>, registry: map<string, AssetContainer>, childKey: string)
    : (r: Option<AssetContainer>)
    ensures memo.Some? ==> r == memo
    ensures memo.None? && childKey in registry ==> r == Some(registry[childKey])
    ensures r.Some? <==> memo.Some? || childKey in registry
  {
    if memo.Some? then memo else FindByHandle(registry, childKey)
  }

  /**
   * The three-tier lookup of `paths()`: the field when it is set, else a
   * truthy cached array, else the mapping built from the listing of the
   * resolved container.
   */
  function LookupPaths(memo: Option<Mapping>, cached: Option<Mapping>, resolved: Option<AssetContainer>,
                       listing: seq<FileDescriptor>): (r: Outcome<Mapping>)
    ensures memo.Some? ==> r == Ok(memo.value)
    ensures memo.None? && Truthy(cached) ==> r == Ok(cached.value)
    ensures r.NullContainer? <==> memo.None? && !Truthy(cached) && resolved.None?
    ensures memo.None? && !Truthy(cached) && resolved.Some? ==>
      r.Ok? && DistinctKeys(r.value)
      && forall e :: e in r.value <==>
           exists f :: f in listing && !Rejected(f) && e == EntryFor(resolved.value.handle, f)
  {
    if memo.Some? then Ok(memo.value)
    else if Truthy(cached) then Ok(cached.value)
    else if resolved.None? then NullContainer
    else Ok(BuildPaths(resolved.value.handle, listing))
  }

  /**
   * `$this->paths()->map(fn ($path) => $this->getItem($path))`: each value
   * of the mapping goes through `getItem`, which materialises the text after
   * its first "::". The keys and their order are kept, every item belongs to
   * the container, and an item is the asset of the stored path exactly when
   * that path has no "::".
   */
  function ItemsFor(c: AssetContainer, m: Mapping): (r: Items)
    ensures |r| == |m|
    ensures forall i :: 0 <= i < |m| ==> r[i].0 == m[i].0 && r[i].1.container == c
    ensures forall i :: 0 <= i < |m| ==> (r[i].1 == Asset(c, m[i].1) <==> !Contains(m[i].1, "::"))
  {
    seq(|m|, i requires 0 <= i < |m| => (m[i].0, Asset(c, After(m[i].1, "::"))))
  }

  /** The paths `getItem` hands to `makeAsset` while `getItemsFromFiles` maps over `m`. */
  function MaterialisedPaths(m: Mapping): seq<string> {
    seq(|m|, i requires 0 <= i < |m| => After(m[i].1, "::"))
  }

  class ContainerAssetsStore {
    /** The container handle this child store indexes. */
    const childKey: string
    /** The parent store's `pathsCacheKey()`, fixed for the instance. */
    const pathsCacheKey: string
    const shouldCacheFileItems: bool

    var container: Option<AssetContainer>
    var paths: Option<Mapping>
    var fileItems: Option<Items>

    /** Calls made to `findByHandle`. */
    ghost var findCalls: nat
    /** Calls made to `Cache::get`. */
    ghost var cacheReads: nat
    /** Calls made to `listContents`. */
    ghost var listings: nat
    /** The paths handed to `makeAsset`, in call order. */
    ghost var madeAssets: seq<string>
    /** The mappings handed to `cachePaths`, in call order. */
    ghost var cachedPaths: seq<Mapping>

    constructor (childKey: string, pathsCacheKey: string, shouldCacheFileItems: bool)
      ensures this.childKey == childKey && this.pathsCacheKey == pathsCacheKey
      ensures this.shouldCacheFileItems == shouldCacheFileItems
      ensures container == None && paths == None && fileItems == None
      ensures findCalls == 0 && cacheReads == 0 && listings == 0
      ensures madeAssets == [] && cachedPaths == []
    {
      this.childKey := childKey;
      this.pathsCacheKey := pathsCacheKey;
      this.shouldCacheFileItems := shouldCacheFileItems;
      container, paths, fileItems := None, None, None;
      findCalls, cacheReads, listings := 0, 0, 0;
      madeAssets, cachedPaths := [], [];
    }

    /** `container()`: resolves the handle once it has a non-null answer, never again. */
    method Container(registry: map<string, AssetContainer>) returns (c: Option<AssetContainer>)
      modifies this`container, this`findCalls
      ensures c == Resolve(old(container), registry, childKey) && container == c
      ensures old(container).Some? ==> c == old(container) && findCalls == old(findCalls)
      ensures old(container).None? ==> findCalls == old(findCalls) + 1
    {
      if container.None? {
        findCalls := findCalls + 1;
        container := FindByHandle(registry, childKey);
      }
      c := container;
    }

    /** `getItem($key)`: materialises the text after the key's first "::". */
    method GetItem(key: string, registry: map<string, AssetContainer>) returns (r: Outcome<Asset>)
      modifies this`container, this`findCalls, this`madeAssets
      ensures container == Resolve(old(container), registry, childKey)
      ensures findCalls == old(findCalls) + (if old(container).None? then 1 else 0)
      ensures container.None? ==> r == NullContainer && madeAssets == old(madeAssets)
      ensures container.Some? ==>
        r == Ok(Asset(container.value, After(key, "::"))) && madeAssets == old(madeAssets) + [After(key, "::")]
    {
      var path := After(key, "::");
      var c := Container(registry);
      if c.None? {
        return NullContainer;
      }
      madeAssets := madeAssets + [path];
      r := Ok(Asset(c.value, path));
    }

    /** `getFiles()`: the container's listing with the rejected descriptors removed. */
    method GetFiles(registry: map<string, AssetContainer>, listing: seq<FileDescriptor>)
      returns (r: Outcome<seq<FileDescriptor>>)
      modifies this`container, this`findCalls, this`listings
      ensures container == Resolve(old(container), registry, childKey)
      ensures findCalls == old(findCalls) + (if old(container).None? then 1 else 0)
      ensures container.None? ==> r == NullContainer && listings == old(listings)
      ensures container.Some? ==> r == Ok(KeptFiles(listing)) && listings == old(listings) + 1
    {
      var c := Container(registry);
      if c.None? {
        return NullContainer;
      }
      listings := listings + 1;
      r := Ok(KeptFiles(listing));
    }

    /**
     * `paths()`: the field if set; else a truthy cached array, adopted into
     * the field; else the mapping built from the listing, handed to
     * `cachePaths` and returned. `paths()` does not assign the field on that
     * last path; whether `cachePaths` stores the mapping there is left open.
     */
    method Paths(cache: map<string, Mapping>, registry: map<string, AssetContainer>, listing: seq<FileDescriptor>)
      returns (r: Outcome<Mapping>)
      modifies this
      ensures r == LookupPaths(old(paths), CacheGet(cache, pathsCacheKey),
                               Resolve(old(container), registry, childKey), listing)
      ensures fileItems == old(fileItems) && madeAssets == old(madeAssets)
      ensures old(paths).Some? ==>
        container == old(container) && paths == old(paths) && findCalls == old(findCalls)
        && cacheReads == old(cacheReads) && listings == old(listings) && cachedPaths == old(cachedPaths)
      ensures old(paths).None? ==> cacheReads == old(cacheReads) + 1
      ensures old(paths).None? && Truthy(CacheGet(cache, pathsCacheKey)) ==>
        paths == Some(r.value) && container == old(container) && findCalls == old(findCalls)
        && listings == old(listings) && cachedPaths == old(cachedPaths)
      ensures old(paths).None? && !Truthy(CacheGet(cache, pathsCacheKey)) ==>
        (r.NullContainer? ==> paths == None) && (r.Ok? ==> paths == None || paths == Some(r.value))
        && container == Resolve(old(container), registry, childKey)
        && findCalls == old(findCalls) + (if old(container).None? then 1 else 0)
        && listings == old(listings) + (if container.Some? then 1 else 0)
        && cachedPaths == old(cachedPaths) + (if r.Ok? then [r.value] else [])
    {
      if paths.Some? {
        return Ok(paths.value);
      }
      cacheReads := cacheReads + 1;
      var cached := CacheGet(cache, pathsCacheKey);
      if Truthy(cached) {
        paths := cached;
        return Ok(cached.value);
      }
      var c := Container(registry);
      if c.None? {
        return NullContainer;
      }
      var handle := c.value.handle;
      var files := GetFiles(registry, listing);
      assert files.Ok?;
      var m := PathsFor(handle, files.value);
      cachedPaths := cachedPaths + [m];
      var stored: Option<Mapping> :| stored == None || stored == Some(m);
      paths := stored;
      r := Ok(m);
    }

    /**
     * The `->map(fn ($path) => $this->getItem($path))` step: one `getItem`
     * per value of `m`, in order, stopping at the first null container.
     */
    method MapGetItem(m: Mapping, registry: map<string, AssetContainer>) returns (r: Outcome<Items>)
      modifies this`container, this`findCalls, this`madeAssets
      ensures m == [] ==>
        r == Ok([]) && container == old(container) && findCalls == old(findCalls) && madeAssets == old(madeAssets)
      ensures m != [] ==>
        container == Resolve(old(container), registry, childKey)
        && findCalls == old(findCalls) + (if old(container).None? then 1 else 0)
      ensures m != [] && container.None? ==> r == NullContainer && madeAssets == old(madeAssets)
      ensures m != [] && container.Some? ==>
        r == Ok(ItemsFor(container.value, m)) && madeAssets == old(madeAssets) + MaterialisedPaths(m)
    {
      ghost var c := Resolve(container, registry, childKey);
      var items: Items := [];
      var i := 0;
      while i < |m|
        invariant 0 <= i <= |m|
        invariant i == 0 ==>
          container == old(container) && findCalls == old(findCalls) && madeAssets == old(madeAssets) && items == []
        invariant i > 0 ==> container == c && c.Some?
        invariant i > 0 ==> findCalls == old(findCalls) + (if old(container).None? then 1 else 0)
        invariant i > 0 ==> items == ItemsFor(c.value, m[..i]) && madeAssets == old(madeAssets) + MaterialisedPaths(m[..i])
      {
        var a := GetItem(m[i].1, registry);
        if a.NullContainer? {
          return NullContainer;
        }
        items := items + [(m[i].0, a.value)];
        assert ItemsFor(c.value, m[..i + 1]) == ItemsFor(c.value, m[..i]) + [(m[i].0, a.value)];
        assert MaterialisedPaths(m[..i + 1]) == MaterialisedPaths(m[..i]) + [After(m[i].1, "::")];
        i := i + 1;
      }
      assert m[..i] == m;
      r := Ok(items);
    }

    /**
     * `getItemsFromFiles()`: the stored items when caching is on and the field
     * is set; otherwise one `getItem` per value of `paths()`, stored in the field.
     * The rebuild leaves every field as `paths()` and the `getItem` calls leave it.
     */
    method GetItemsFromFiles(cache: map<string, Mapping>, registry: map<string, AssetContainer>,
                             listing: seq<FileDescriptor>)
      returns (r: Outcome<Items>)
      modifies this
      ensures shouldCacheFileItems && old(fileItems).Some? ==>
        r == Ok(old(fileItems).value) && container == old(container) && paths == old(paths)
        && fileItems == old(fileItems) && findCalls == old(findCalls) && cacheReads == old(cacheReads)
        && listings == old(listings) && madeAssets == old(madeAssets) && cachedPaths == old(cachedPaths)
      ensures !(shouldCacheFileItems && old(fileItems).Some?) ==>
        var c := Resolve(old(container), registry, childKey);
        var cached := CacheGet(cache, pathsCacheKey);
        var m := LookupPaths(old(paths), cached, c, listing);
        var miss := old(paths).None? && !Truthy(cached);
        var materialises := m.Ok? && m.value != [];
        (m.Ok? && m.value != [] && c.Some? ==>
          r == Ok(ItemsFor(c.value, m.value)) && fileItems == Some(r.value)
          && madeAssets == old(madeAssets) + MaterialisedPaths(m.value))
        && (m == Ok([]) ==> r == Ok([]) && fileItems == Some([]) && madeAssets == old(madeAssets))
        && (m.NullContainer? || (m.Ok? && m.value != [] && c.None?) ==>
          r == NullContainer && fileItems == old(fileItems) && madeAssets == old(madeAssets))
        && (old(paths).Some? ==> paths == old(paths))
        && (old(paths).None? && !miss ==> paths == Some(m.value))
        && (miss && m.Ok? ==> paths == None || paths == Some(m.value))
        && (miss && m.NullContainer? ==> paths == None)
        && cacheReads == old(cacheReads) + (if old(paths).None? then 1 else 0)
        && listings == old(listings) + (if miss && c.Some? then 1 else 0)
        && cachedPaths == old(cachedPaths) + (if miss && m.Ok? then [m.value] else [])
        && container == (if miss || materialises then c else old(container))
        && findCalls == old(findCalls) + (if old(container).None? && (miss || materialises) then 1 else 0)
    {
      if shouldCacheFileItems && fileItems.Some? {
        return Ok(fileItems.value);
      }
      var p := Paths(cache, registry, listing);
      if p.NullContainer? {
        return NullContainer;
      }
      var items := MapGetItem(p.value, registry);
      if items.NullContainer? {
        return NullContainer;
      }
      fileItems := Some(items.value);
      r := items;
    }

    /** `handleFileChanges()`: deliberately does nothing. */
    method HandleFileChanges()
      ensures unchanged(this)
    {
    }

    /** `writeItemToDisk($item)`: deliberately does nothing. */
    method WriteItemToDisk(item: Asset)
      ensures unchanged(this)
    {
    }

    /** `deleteItemFromDisk($item)`: deliberately does nothing. */
    method DeleteItemFromDisk(item: Asset)
      ensures unchanged(this)
    {
    }
  }
}
