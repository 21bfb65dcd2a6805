/**
 * The layouts (svelte renderer) and templates (vue renderers) each server
 * reads into memory at start-up, and the lookup of one of them by the name a
 * request asks for. The three servers carry the same loading loop and the
 * same `find` by name; it is modelled once here.
 */
module SupportFiles {
  import opened Wrappers
  import Environment

  /** What `statSync(...).isFile()` and `readFileSync` give for one entry. */
  datatype EntryKind = RegularFile(body: string) | NotAFile | Unreadable

  /**
   * One entry of `readdirSync`. For a bare entry name, `parse(file).name +
   * parse(file).ext` is the entry name itself, so that is the file's name.
   */
  datatype DirEntry = DirEntry(name: string, kind: EntryKind)

  /** `readdirSync(dir)`: the entries in listing order, or the error it throws. */
  datatype Listing = Listed(entries: seq<DirEntry>) | ListingFailed

  /** `{ name, body }` as pushed onto `layoutFiles` / `templateFiles`. */
  datatype SupportFile = SupportFile(name: string, body: string)

  /** `fs.symlinkSync`: done, or the error code it throws (`EEXIST` when the link is already there). */
  datatype Symlink = Linked | LinkError(code: string) {
    /** The servers carry on after a link that exists already, and throw on any other error. */
    predicate Tolerated() {
      Linked? || code == "EEXIST"
    }
  }

  /** The loaded list, or the exception that aborts start-up. */
  datatype Load = Loaded(files: seq<SupportFile>) | StartupFailure

  /** What loading a listing yields, one entry after another. */
  function FilesOf(entries: seq<DirEntry>): Load
  {
    if |entries| == 0 then Loaded([])
    else
      var last := entries[|entries| - 1];
      match FilesOf(entries[..|entries| - 1])
      case StartupFailure => StartupFailure
      case Loaded(files) =>
        match last.kind
        case RegularFile(body) => Loaded(files + [SupportFile(last.name, body)])
        case NotAFile => Loaded(files)
        case Unreadable => StartupFailure
  }

  /**
   * The start-up loop: without a configured directory nothing is loaded;
   * otherwise every regular file is pushed in listing order, other entries
   * are skipped, and an entry that cannot be stat-ed or read aborts start-up.
   */
  method LoadSupportFiles(dir: Option<string>, listing: Listing) returns (result: Load)
    ensures !Environment.IsSet(dir) ==> result == Loaded([])
    ensures Environment.IsSet(dir) && listing.ListingFailed? ==> result == StartupFailure
    ensures Environment.IsSet(dir) && listing.Listed? ==> result == FilesOf(listing.entries)
  {
    if !Environment.IsSet(dir) {
      return Loaded([]);
    }
    if listing.ListingFailed? {
      return StartupFailure;
    }
    var entries := listing.entries;
    var files: seq<SupportFile> := [];
    var i := 0;
    while i < |entries|
      invariant 0 <= i <= |entries|
      invariant FilesOf(entries[..i]) == Loaded(files)
    {
      assert entries[..i + 1][..i] == entries[..i];
      match entries[i].kind {
        case RegularFile(body) =>
          files := files + [SupportFile(entries[i].name, body)];
        case NotAFile =>
        case Unreadable =>
          FailureSticks(entries[..i + 1], entries);
          return StartupFailure;
      }
      i := i + 1;
    }
    assert entries[..i] == entries;
    result := Loaded(files);
  }

  lemma {:induction false} FailureSticks(prefix: seq<DirEntry>, entries: seq<DirEntry>)
    requires prefix <= entries
    requires FilesOf(prefix) == StartupFailure
    ensures FilesOf(entries) == StartupFailure
    decreases |entries| - |prefix|
  {
    if |prefix| < |entries| {
      var longer := entries[..|prefix| + 1];
      assert longer[..|prefix|] == prefix;
      FailureSticks(longer, entries);
    } else {
      assert prefix == entries;
    }
  }

  /** Loading fails exactly when some entry cannot be stat-ed or read. */
  lemma {:induction false} FilesOfFails(entries: seq<DirEntry>)
    ensures FilesOf(entries).StartupFailure? <==> exists i :: 0 <= i < |entries| && entries[i].kind.Unreadable?
  {
    if |entries| > 0 {
      var init := entries[..|entries| - 1];
      FilesOfFails(init);
      assert forall i :: 0 <= i < |init| ==> init[i] == entries[i];
    }
  }

  /** The listing positions of the regular-file entries, in increasing order. */
  ghost function RegularPositions(entries: seq<DirEntry>): (ps: seq<nat>)
    ensures forall k :: 0 <= k < |ps| ==> ps[k] < |entries| && entries[ps[k]].kind.RegularFile?
    ensures forall k1, k2 :: 0 <= k1 < k2 < |ps| ==> ps[k1] < ps[k2]
  {
    if |entries| == 0 then []
    else
      var init := RegularPositions(entries[..|entries| - 1]);
      if entries[|entries| - 1].kind.RegularFile? then init + [|entries| - 1] else init
  }

  /**
   * The `k`-th loaded file is the regular-file entry at the `k`-th such
   * position, with its name and body: the loaded list keeps listing order and
   * holds nothing else.
   */
  lemma {:induction false} FilesOfSound(entries: seq<DirEntry>)
    requires FilesOf(entries).Loaded?
    ensures |FilesOf(entries).files| == |RegularPositions(entries)|
    ensures forall k :: 0 <= k < |FilesOf(entries).files| ==>
      entries[RegularPositions(entries)[k]] ==
        DirEntry(FilesOf(entries).files[k].name, RegularFile(FilesOf(entries).files[k].body))
  {
    if |entries| > 0 {
      var init := entries[..|entries| - 1];
      FilesOfSound(init);
      assert forall i :: 0 <= i < |init| ==> init[i] == entries[i];
    }
  }

  /** Every regular-file entry of a listing that loads is among the loaded files. */
  lemma {:induction false} FilesOfComplete(entries: seq<DirEntry>, i: nat)
    requires FilesOf(entries).Loaded? && i < |entries| && entries[i].kind.RegularFile?
    ensures SupportFile(entries[i].name, entries[i].kind.body) in FilesOf(entries).files
  {
    var init := entries[..|entries| - 1];
    if i < |init| {
      assert init[i] == entries[i];
      FilesOfComplete(init, i);
    }
  }

  /** Loading is compositional: files of a later part of a listing come after those of an earlier part. */
  lemma {:induction false} FilesOfAppend(a: seq<DirEntry>, b: seq<DirEntry>)
    requires FilesOf(a).Loaded? && FilesOf(b).Loaded?
    ensures FilesOf(a + b) == Loaded(FilesOf(a).files + FilesOf(b).files)
  {
    if |b| == 0 {
      assert a + b == a;
    } else {
      var binit := b[..|b| - 1];
      assert (a + b)[..|a + b| - 1] == a + binit;
      assert (a + b)[|a + b| - 1] == b[|b| - 1];
      FilesOfAppend(a, binit);
    }
  }

  ghost predicate DistinctNames(files: seq<SupportFile>) {
    forall i, j :: 0 <= i < j < |files| ==> files[i].name != files[j].name
  }

  ghost predicate DistinctEntryNames(entries: seq<DirEntry>) {
    forall i, j :: 0 <= i < j < |entries| ==> entries[i].name != entries[j].name
  }

  /** A directory never lists a name twice, so neither does what is loaded from it. */
  lemma {:induction false} FilesOfDistinct(entries: seq<DirEntry>)
    requires DistinctEntryNames(entries) && FilesOf(entries).Loaded?
    ensures DistinctNames(FilesOf(entries).files)
  {
    if |entries| > 0 {
      var init := entries[..|entries| - 1];
      var last := entries[|entries| - 1];
      assert DistinctEntryNames(init);
      FilesOfDistinct(init);
      var files := FilesOf(init).files;
      if last.kind.RegularFile? {
        FilesOfSound(init);
        forall k | 0 <= k < |files| ensures files[k].name != last.name {
          var i := RegularPositions(init)[k];
          assert entries[i] == init[i];
        }
      }
    }
  }

  /**
   * `files.find(f => f.name == requested)` and then its body, or `null`.
   * A `null` request (the query parameter is absent) matches no file.
   */
  function Lookup(files: seq<SupportFile>, requested: Option<string>): (body: Option<string>)
    ensures body.Some? <==> requested.Some? && exists i :: 0 <= i < |files| && files[i].name == requested.value
    ensures body.Some? ==> exists i :: (0 <= i < |files| && files[i].name == requested.value &&
      files[i].body == body.value && forall j :: 0 <= j < i ==> files[j].name != requested.value)
  {
    if requested.None? || |files| == 0 then None
    else if files[0].name == requested.value then Some(files[0].body)
    else
      var rest := Lookup(files[1..], requested);
      assert forall i :: 0 < i < |files| ==> files[1..][i - 1] == files[i];
      if rest.Some? then
        ghost var i :| 0 <= i < |files[1..]| && files[1..][i].name == requested.value &&
          files[1..][i].body == rest.value && forall j :: 0 <= j < i ==> files[1..][j].name != requested.value;
        assert files[i + 1] == files[1..][i];
        rest
      else rest
  }

  /** With distinct names, asking for a loaded file's name yields exactly its body. */
  lemma LookupLoaded(files: seq<SupportFile>, i: nat)
    requires DistinctNames(files) && i < |files|
    ensures Lookup(files, Some(files[i].name)) == Some(files[i].body)
  {
    var r := Lookup(files, Some(files[i].name));
    var k :| 0 <= k < |files| && files[k].name == files[i].name && files[k].body == r.value &&
      forall j :: 0 <= j < k ==> files[j].name != files[i].name;
    assert k == i;
  }
}
