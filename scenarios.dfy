/**
 * Concrete runs of the store: a fixed listing, the `.meta` rule, and the
 * memoisation and cache round trip seen through fresh store instances.
 */
module Scenarios {
  import opened Wrappers
  import opened Text
  import opened AssetFiles
  import opened Stores

  /** A listing with a file, a directory, a file in `.meta` and a second file. */
  function SampleListing(): seq<FileDescriptor> {
    [ FileDescriptor("file", "a.jpg", "", "a.jpg"),
      FileDescriptor("dir", "sub", "", "sub"),
      FileDescriptor("file", ".meta/x.yaml", ".meta", "x.yaml"),
      FileDescriptor("file", "b.jpg", "", "b.jpg") ]
  }

  /** A path with no "/." anywhere does not contain "/.meta/". */
  lemma NoSlashDot(s: string)
    requires forall i :: 0 <= i < |s| - 1 ==> !(s[i] == '/' && s[i + 1] == '.')
    ensures !Contains(s, "/.meta/")
  {
    forall j ensures !OccursAt(s, "/.meta/", j) {
      if 0 <= j && j + 7 <= |s| {
        assert s[j..j + 7][0] == s[j] && s[j..j + 7][1] == s[j + 1];
      }
    }
  }

  /** The filter keeps the first and the last entry of the sample listing. */
  lemma SampleListingKept()
    ensures KeptFiles(SampleListing()) == [SampleListing()[0], SampleListing()[3]]
  {
  }

  /** The sample listing indexes exactly its two plain files, in listing order. */
  lemma SampleListingPaths()
    ensures BuildPaths("assets", SampleListing()) == [("assets::a.jpg", "a.jpg"), ("assets::b.jpg", "b.jpg")]
  {
    var l := SampleListing();
    SampleListingKept();
    assert DistinctPaths([l[0], l[3]]);
    PathsForDistinct("assets", [l[0], l[3]]);
    var r := PathsFor("assets", [l[0], l[3]]);
    assert r[0] == EntryFor("assets", l[0]) && r[1] == EntryFor("assets", l[3]);
    assert KeyFor("assets", "a.jpg") == "assets::a.jpg";
    assert KeyFor("assets", "b.jpg") == "assets::b.jpg";
  }

  /**
   * The `.meta` path test needs a slash before `.meta`: a top-level
   * `.meta/a/b.yaml`, whose directory is `.meta/a`, is kept.
   */
  lemma TopLevelMetaPathKept()
    ensures !Rejected(FileDescriptor("file", ".meta/a/b.yaml", ".meta/a", "b.yaml"))
  {
    NoSlashDot(".meta/a/b.yaml");
  }

  /** A `.meta` directory below the top level is excluded by the path test. */
  lemma NestedMetaPathRejected()
    ensures Rejected(FileDescriptor("file", "x/.meta/b.yaml", "x/.meta", "b.yaml"))
  {
  }

  /**
   * A mapping stored in the shared cache is read back unchanged by a fresh
   * store, without listing the backend, provided it is non-empty; an empty
   * array is falsy and sends the fresh store to the listing instead.
   */
  method CacheRoundTrip(childKey: string, cacheKey: string, m: Mapping, cache: map<string, Mapping>,
                        registry: map<string, AssetContainer>, listing: seq<FileDescriptor>)
    returns (r: Outcome<Mapping>, ghost listed: nat)
    ensures m != [] ==> r == Ok(m)
    ensures m == [] && childKey in registry ==> r == Ok(BuildPaths(registry[childKey].handle, listing))
    ensures listed == if m != [] then 0 else if childKey in registry then 1 else 0
  {
    var store := new ContainerAssetsStore(childKey, cacheKey, false);
    r := store.Paths(cache[cacheKey := m], registry, listing);
    listed := store.listings;
  }

  /**
   * After a truthy cache hit the field holds the mapping: a second `paths()`
   * returns the same mapping and neither reads the cache again nor lists.
   */
  method PathsTwice(childKey: string, cacheKey: string, cache: map<string, Mapping>,
                    registry: map<string, AssetContainer>, listing: seq<FileDescriptor>)
    returns (first: Outcome<Mapping>, second: Outcome<Mapping>, ghost cacheReads: nat, ghost listed: nat)
    requires cacheKey in cache && cache[cacheKey] != []
    ensures first == Ok(cache[cacheKey]) && second == first
    ensures cacheReads == 1 && listed == 0
  {
    var store := new ContainerAssetsStore(childKey, cacheKey, false);
    first := store.Paths(cache, registry, listing);
    second := store.Paths(map[], map[], []);
    cacheReads, listed := store.cacheReads, store.listings;
  }

  /**
   * `container()` asks the registry once; once it has a container, a later
   * call returns it even if the registry has changed meanwhile.
   */
  method ContainerOnce(childKey: string, registry: map<string, AssetContainer>, later: map<string, AssetContainer>)
    returns (first: Option<AssetContainer>, second: Option<AssetContainer>, ghost finds: nat)
    requires childKey in registry
    ensures first == Some(registry[childKey]) && second == first && finds == 1
  {
    var store := new ContainerAssetsStore(childKey, "", false);
    first := store.Container(registry);
    second := store.Container(later);
    finds := store.findCalls;
  }

  /**
   * With item caching on, a second `getItemsFromFiles()` returns the first
   * result without materialising anything again, even for a different listing.
   */
  method ItemsTwice(childKey: string, cacheKey: string, registry: map<string, AssetContainer>,
                    listing: seq<FileDescriptor>, later: seq<FileDescriptor>)
    returns (first: Outcome<Items>, second: Outcome<Items>, ghost made: seq<string>)
    requires childKey in registry
    ensures first == Ok(ItemsFor(registry[childKey], BuildPaths(registry[childKey].handle, listing)))
    ensures second == first
    ensures made == MaterialisedPaths(BuildPaths(registry[childKey].handle, listing))
  {
    var store := new ContainerAssetsStore(childKey, cacheKey, true);
    first := store.GetItemsFromFiles(map[], registry, listing);
    assert ItemsFor(registry[childKey], []) == [] && MaterialisedPaths([]) == [];
    second := store.GetItemsFromFiles(map[], registry, later);
    made := store.madeAssets;
  }

  /** `getItem(h::p)` materialises exactly `p` for a handle with no "::" and no trailing ':'. */
  method ItemOfKey(h: string, p: string) returns (r: Outcome<Asset>)
    requires !Contains(h + ":", "::")
    ensures r == Ok(Asset(AssetContainer(h), p))
  {
    var store := new ContainerAssetsStore(h, "", false);
    r := store.GetItem(KeyFor(h, p), map[h := AssetContainer(h)]);
    AfterKey(h, p);
  }
}
