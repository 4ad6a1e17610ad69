/**
 * The pure half of the container asset index: the exclusion filter that
 * `getFiles` applies to a backend listing, and the key derivation
 * (`mapWithKeys`) that turns the surviving files into the ordered
 * logical-key => relative-path mapping.
 */
module AssetFiles {
  import opened Text

  /** One entry of the backend listing (`listContents`). */
  datatype FileDescriptor = FileDescriptor(kind: string, path: string, dirname: string, basename: string)

  /** Bookkeeping files that are never addressable assets. */
  const IgnoredBasenames: seq<string> := [".gitignore", ".gitkeep", ".DS_Store"]

  /**
   * The reject callback of `getFiles`. A descriptor is kept exactly when it is
   * a file, does not sit directly in `.meta`, has no "/.meta/" anywhere in its
   * path, and is none of the three bookkeeping files.
   */
  function Rejected(f: FileDescriptor): (b: bool)
    ensures !b <==>
      f.kind == "file" && f.dirname != ".meta"
      && (forall j :: !OccursAt(f.path, "/.meta/", j))
      && f.basename != ".gitignore" && f.basename != ".gitkeep" && f.basename != ".DS_Store"
  {
    f.kind != "file"
    || f.dirname == ".meta"
    || Contains(f.path, "/.meta/")
    || f.basename in IgnoredBasenames
  }

  /** `getFiles`' filter: the listing with the rejected descriptors removed, in listing order. */
  function KeptFiles(listing: seq<FileDescriptor>): (r: seq<FileDescriptor>)
    ensures |r| <= |listing|
    ensures forall f :: f in r ==> f in listing && !Rejected(f)
  {
    if listing == [] then []
    else if Rejected(listing[0]) then KeptFiles(listing[1..])
    else [listing[0]] + KeptFiles(listing[1..])
  }

  /** Every descriptor the filter accepts survives it. */
  lemma {:induction false} KeptFilesComplete(listing: seq<FileDescriptor>, f: FileDescriptor)
    requires f in listing && !Rejected(f)
    ensures f in KeptFiles(listing)
  {
    if listing[0] != f {
      KeptFilesComplete(listing[1..], f);
    }
  }

  /**
   * Filtering distributes over concatenation; together with the singleton
   * case this says the filter only drops entries and never reorders them.
   */
  lemma {:induction false} KeptFilesAppend(a: seq<FileDescriptor>, b: seq<FileDescriptor>)
    ensures KeptFiles(a + b) == KeptFiles(a) + KeptFiles(b)
    ensures forall f :: KeptFiles([f]) == if Rejected(f) then [] else [f]
  {
    if a != [] {
      assert (a + b)[1..] == a[1..] + b;
      KeptFilesAppend(a[1..], b);
    } else {
      assert a + b == b;
    }
  }

  /** The ordered key => path mapping (a PHP array, in insertion order). */
  type Mapping = seq<(string, string)>

  /** The logical key of a path: the handle, the delimiter "::", then the path. */
  function KeyFor(handle: string, path: string): (k: string)
    ensures |k| == |handle| + 2 + |path|
    ensures k[..|handle|] == handle && k[|handle|..|handle| + 2] == "::" && k[|handle| + 2..] == path
  {
    handle + "::" + path
  }

  /** Within one container the key determines the path. */
  lemma KeyForInjective(handle: string, p: string, q: string)
    ensures KeyFor(handle, p) == KeyFor(handle, q) <==> p == q
  {
    if KeyFor(handle, p) == KeyFor(handle, q) {
      assert p == KeyFor(handle, p)[|handle| + 2..];
    }
  }

  /**
   * The entry `mapWithKeys` yields for one file: its value is the file's
   * path, and for a handle whose `handle + ":"` has no "::" splitting the key
   * at its first "::" gives that path back.
   */
  function EntryFor(handle: string, f: FileDescriptor): (e: (string, string))
    ensures e.1 == f.path
    ensures !Contains(handle + ":", "::") ==> After(e.0, "::") == e.1
  {
    var e := (KeyFor(handle, f.path), f.path);
    if Contains(handle + ":", "::") then e
    else AfterKey(handle, f.path); e
  }

  predicate HasKey(m: Mapping, k: string) {
    exists i :: 0 <= i < |m| && m[i].0 == k
  }

  /** No key occurs twice, as in any PHP array. */
  predicate DistinctKeys(m: Mapping) {
    forall i, j :: 0 <= i < j < |m| ==> m[i].0 != m[j].0
  }

  /**
   * PHP array assignment `$m[$k] = $v`: overwrites the value in place when
   * the key is present and appends the entry otherwise.
   */
  function Put(m: Mapping, k: string, v: string): (r: Mapping)
    ensures (k, v) in r
    ensures forall e :: e in r ==> e in m || e == (k, v)
    ensures forall e :: e in m && e.0 != k ==> e in r
  {
    if m == [] then [(k, v)]
    else if m[0].0 == k then [(k, v)] + m[1..]
    else [m[0]] + Put(m[1..], k, v)
  }

  /** Assigning a key the array does not hold appends the entry at the end. */
  lemma {:induction false} PutAbsent(m: Mapping, k: string, v: string)
    requires !HasKey(m, k)
    ensures Put(m, k, v) == m + [(k, v)]
  {
    if m != [] {
      assert m[0].0 != k;
      assert !HasKey(m[1..], k) by {
        forall i | 0 <= i < |m[1..]| ensures m[1..][i].0 != k {
          assert m[1..][i] == m[i + 1];
        }
      }
      PutAbsent(m[1..], k, v);
      assert m == [m[0]] + m[1..];
    }
  }

  /** Assigning a key the array holds overwrites that entry's value in place. */
  lemma {:induction false} PutPresent(m: Mapping, k: string, v: string, i: nat)
    requires DistinctKeys(m) && i < |m| && m[i].0 == k
    ensures Put(m, k, v) == m[i := (k, v)]
  {
    if i > 0 {
      var tail := m[1..];
      assert m[0].0 != k;
      assert DistinctKeys(tail) by {
        forall a, b | 0 <= a < b < |tail| ensures tail[a].0 != tail[b].0 {
          assert tail[a] == m[a + 1] && tail[b] == m[b + 1];
        }
      }
      PutPresent(tail, k, v, i - 1);
      assert m[i := (k, v)] == [m[0]] + tail[i - 1 := (k, v)];
    } else {
      assert m[i := (k, v)] == [(k, v)] + m[1..];
    }
  }

  /** Assignment keeps the keys of an array distinct. */
  lemma {:induction false} PutDistinct(m: Mapping, k: string, v: string)
    requires DistinctKeys(m)
    ensures DistinctKeys(Put(m, k, v))
  {
    if m != [] && m[0].0 != k {
      var tail := m[1..];
      assert DistinctKeys(tail) by {
        forall i, j | 0 <= i < j < |tail| ensures tail[i].0 != tail[j].0 {
          assert tail[i] == m[i + 1] && tail[j] == m[j + 1];
        }
      }
      PutDistinct(tail, k, v);
      var r := Put(m, k, v);
      var t := Put(tail, k, v);
      assert r == [m[0]] + t;
      forall j | 1 <= j < |r| ensures r[0].0 != r[j].0 {
        assert r[j] == t[j - 1] && t[j - 1] in t;
        if t[j - 1] != (k, v) {
          var i :| 0 <= i < |tail| && tail[i] == t[j - 1];
          assert tail[i] == m[i + 1];
        }
      }
    }
  }

  /** `mapWithKeys` over a sequence of files: one `Put` per file, in order. */
  function PathsFor(handle: string, files: seq<FileDescriptor>): (r: Mapping)
    ensures DistinctKeys(r)
  {
    if files == [] then []
    else
      var init := files[..|files| - 1];
      var f := files[|files| - 1];
      PutDistinct(PathsFor(handle, init), KeyFor(handle, f.path), f.path);
      Put(PathsFor(handle, init), KeyFor(handle, f.path), f.path)
  }

  /** Every entry comes from some file of the sequence. */
  lemma {:induction false} PathsForSound(handle: string, files: seq<FileDescriptor>)
    ensures forall e :: e in PathsFor(handle, files) ==> exists f :: f in files && e == EntryFor(handle, f)
  {
    if files != [] {
      var init := files[..|files| - 1];
      var last := files[|files| - 1];
      assert files == init + [last];
      PathsForSound(handle, init);
      forall e | e in PathsFor(handle, files)
        ensures exists f :: f in files && e == EntryFor(handle, f)
      {
        assert PathsFor(handle, files) == Put(PathsFor(handle, init), KeyFor(handle, last.path), last.path);
        if e != EntryFor(handle, last) {
          assert e in PathsFor(handle, init);
          var f :| f in init && e == EntryFor(handle, f);
          assert f in files;
        }
      }
    }
  }

  /** Every file gets its entry; a later file with the same path rewrites the same value. */
  lemma {:induction false} PathsForComplete(handle: string, files: seq<FileDescriptor>)
    ensures forall f :: f in files ==> EntryFor(handle, f) in PathsFor(handle, files)
  {
    if files != [] {
      var init := files[..|files| - 1];
      var last := files[|files| - 1];
      PathsForComplete(handle, init);
      forall f | f in files
        ensures EntryFor(handle, f) in PathsFor(handle, files)
      {
        if f != last {
          assert f in init by { assert files == init + [last]; }
          KeyForInjective(handle, f.path, last.path);
        }
      }
    }
  }

  predicate DistinctPaths(files: seq<FileDescriptor>) {
    forall i, j :: 0 <= i < j < |files| ==> files[i].path != files[j].path
  }

  /** With pairwise distinct paths the mapping has exactly one entry per file, in file order. */
  lemma {:induction false} PathsForDistinct(handle: string, files: seq<FileDescriptor>)
    requires DistinctPaths(files)
    ensures |PathsFor(handle, files)| == |files|
    ensures forall i :: 0 <= i < |files| ==> PathsFor(handle, files)[i] == EntryFor(handle, files[i])
  {
    if files != [] {
      var n := |files| - 1;
      var init := files[..n];
      var last := files[n];
      PathsForDistinct(handle, init);
      var m := PathsFor(handle, init);
      forall i | 0 <= i < |m|
        ensures m[i].0 != KeyFor(handle, last.path)
      {
        KeyForInjective(handle, init[i].path, last.path);
      }
      assert !HasKey(m, KeyFor(handle, last.path));
      PutAbsent(m, KeyFor(handle, last.path), last.path);
    }
  }

  /** The kept files' entries are exactly the entries of the mapping built from them. */
  lemma KeptFilesEntries(handle: string, listing: seq<FileDescriptor>)
    ensures forall e :: e in PathsFor(handle, KeptFiles(listing)) <==>
      exists f :: f in listing && !Rejected(f) && e == EntryFor(handle, f)
  {
    var kept := KeptFiles(listing);
    PathsForComplete(handle, kept);
    PathsForSound(handle, kept);
    forall f | f in listing && !Rejected(f)
      ensures f in kept
    {
      KeptFilesComplete(listing, f);
    }
  }

  /**
   * The mapping `paths()` builds on a cache miss, `mapWithKeys` over
   * `getFiles`: it holds exactly the entries `handle::path => path` of the
   * files the filter keeps, each key once.
   */
  function BuildPaths(handle: string, listing: seq<FileDescriptor>): (r: Mapping)
    ensures DistinctKeys(r)
    ensures forall e :: e in r <==> exists f :: f in listing && !Rejected(f) && e == EntryFor(handle, f)
  {
    KeptFilesEntries(handle, listing);
    PathsFor(handle, KeptFiles(listing))
  }

  /**
   * A rejected file gets no key unless some kept file has the same path.
   */
  lemma RejectedFileHasNoKey(handle: string, listing: seq<FileDescriptor>, g: FileDescriptor)
    requires g in listing && Rejected(g)
    requires forall f :: f in listing && !Rejected(f) ==> f.path != g.path
    ensures !HasKey(BuildPaths(handle, listing), KeyFor(handle, g.path))
  {
    var m := BuildPaths(handle, listing);
    forall i | 0 <= i < |m|
      ensures m[i].0 != KeyFor(handle, g.path)
    {
      assert m[i] in m;
      var f :| f in listing && !Rejected(f) && m[i] == EntryFor(handle, f);
      KeyForInjective(handle, f.path, g.path);
    }
  }

  /** With distinct paths in the listing, one entry per kept file, in listing order. */
  lemma BuildPathsOnePerFile(handle: string, listing: seq<FileDescriptor>)
    requires DistinctPaths(listing)
    ensures |BuildPaths(handle, listing)| == |KeptFiles(listing)|
    ensures forall i :: 0 <= i < |KeptFiles(listing)| ==>
      BuildPaths(handle, listing)[i] == EntryFor(handle, KeptFiles(listing)[i])
  {
    KeptFilesDistinctPaths(listing);
    PathsForDistinct(handle, KeptFiles(listing));
  }

  /** Filtering keeps paths distinct. */
  lemma {:induction false} KeptFilesDistinctPaths(listing: seq<FileDescriptor>)
    requires DistinctPaths(listing)
    ensures DistinctPaths(KeptFiles(listing))
  {
    if listing != [] {
      KeptFilesDistinctPaths(listing[1..]);
      var rest := KeptFiles(listing[1..]);
      forall g | g in rest
        ensures g.path != listing[0].path
      {
        var k :| 0 <= k < |listing[1..]| && listing[1..][k] == g;
        assert listing[k + 1] == g;
      }
    }
  }
}
