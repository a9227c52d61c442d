/** Result collection, the exit decision and the `main` driver of the downloader. */
module Runner {

  import opened Wrappers
  import opened Manifest
  import opened Tasks

  /** Python's `if result:` on a `download_texture` result: `None` and the empty string are false. */
  predicate Truthy(r: Option<string>)
  {
    r.Some? && r.value != ""
  }

  /** The names the collection loop keeps, in result order. */
  function Collected(results: seq<Option<string>>): seq<string>
  {
    if results == [] then []
    else (if Truthy(results[0]) then [results[0].value] else []) + Collected(results[1..])
  }

  lemma {:induction false} CollectedAppend(results: seq<Option<string>>, r: Option<string>)
    ensures Collected(results + [r]) == Collected(results) + (if Truthy(r) then [r.value] else [])
  {
    if results == [] {
      assert [] + [r] == [r];
    } else {
      assert (results + [r])[1..] == results[1..] + [r];
      CollectedAppend(results[1..], r);
    }
  }

  /** One collected name at most per result, each a truthy result's own value. */
  lemma {:induction false} CollectedBound(results: seq<Option<string>>)
    ensures |Collected(results)| <= |results|
    ensures forall x :: x in Collected(results) <==> Some(x) in results && x != ""
  {
    if results != [] {
      CollectedBound(results[1..]);
      assert results == [results[0]] + results[1..];
    }
  }

  /** The collection loop: walks the results in order and appends every truthy one to the
      failed list. */
  method CollectFailures(results: seq<Option<string>>) returns (failed: seq<string>)
    ensures failed == Collected(results)
    ensures |failed| <= |results|
  {
    failed := [];
    for i := 0 to |results|
      invariant failed == Collected(results[..i])
    {
      CollectedAppend(results[..i], results[i]);
      assert results[..i + 1] == results[..i] + [results[i]];
      if Truthy(results[i]) {
        failed := failed + [results[i].value];
      }
    }
    assert results[..|results|] == results;
    CollectedBound(results);
  }

  /** Reference definition: the local filenames whose transfer fails, in manifest order. */
  function FailedFilenames(m: seq<Entry>, fetch: Fetcher): seq<string>
  {
    if m == [] then []
    else (if Succeeds(m[0], fetch) then [] else [m[0].filename]) + FailedFilenames(m[1..], fetch)
  }

  /** The names of a list other than the empty string, in order. */
  function WithoutEmpty(names: seq<string>): seq<string>
  {
    if names == [] then []
    else (if names[0] != "" then [names[0]] else []) + WithoutEmpty(names[1..])
  }

  /** Planning, the order-preserving map and collection together yield the failed filenames
      other than the empty one; when every filename is truthy, exactly the failed filenames. */
  lemma {:induction false} CollectedIsFailed<C>(args: seq<DownloadArgs<C>>, m: seq<Entry>, ctx: C, fetch: Fetcher)
    requires IsPlan(args, m, ctx)
    ensures Collected(MapDownloads(args, fetch)) == WithoutEmpty(FailedFilenames(m, fetch))
    ensures NonEmptyFilenames(m) ==> Collected(MapDownloads(args, fetch)) == FailedFilenames(m, fetch)
  {
    if m != [] {
      CollectedIsFailed(args[1..], m[1..], ctx, fetch);
      assert MapDownloads(args, fetch)[1..] == MapDownloads(args[1..], fetch);
      var f := FailedFilenames(m, fetch);
      var g := FailedFilenames(m[1..], fetch);
      if !Succeeds(m[0], fetch) {
        assert f == [m[0].filename] + g && f[1..] == g;
      } else {
        assert f == g;
      }
    }
  }

  /** A name is a failure exactly when some manifest item with that name failed. */
  lemma {:induction false} FailedMembership(m: seq<Entry>, fetch: Fetcher, x: string)
    ensures x in FailedFilenames(m, fetch) <==>
            exists i :: 0 <= i < |m| && m[i].filename == x && !Succeeds(m[i], fetch)
  {
    if m != [] {
      FailedMembership(m[1..], fetch, x);
      if x in FailedFilenames(m[1..], fetch) {
        var i :| 0 <= i < |m[1..]| && m[1..][i].filename == x && !Succeeds(m[1..][i], fetch);
        assert m[i + 1] == m[1..][i];
      }
      if exists i :: 0 <= i < |m| && m[i].filename == x && !Succeeds(m[i], fetch) {
        var i :| 0 <= i < |m| && m[i].filename == x && !Succeeds(m[i], fetch);
        if i > 0 {
          assert m[1..][i - 1] == m[i];
        }
      }
    }
  }

  /** A file whose transfer succeeded is never reported as failed. */
  lemma SucceededNotFailed(m: Table, fetch: Fetcher, i: nat)
    requires i < |m| && Succeeds(m[i], fetch)
    ensures m[i].filename !in FailedFilenames(m, fetch)
  {
    FailedMembership(m, fetch, m[i].filename);
  }

  /** The failed list has no duplicates, because the manifest keys are unique. */
  lemma {:induction false} FailedNoDuplicates(m: Table, fetch: Fetcher)
    ensures forall a, b :: 0 <= a < b < |FailedFilenames(m, fetch)| ==>
              FailedFilenames(m, fetch)[a] != FailedFilenames(m, fetch)[b]
  {
    if m != [] {
      var rest: Table := m[1..];
      FailedNoDuplicates(rest, fetch);
      FailedMembership(rest, fetch, m[0].filename);
    }
  }

  /** The failed list keeps manifest order: an earlier failed item is reported earlier. */
  lemma {:induction false} FailedOrder(m: Table, fetch: Fetcher, i: nat, j: nat)
    requires i < j < |m|
    requires !Succeeds(m[i], fetch) && !Succeeds(m[j], fetch)
    ensures exists a, b :: 0 <= a < b < |FailedFilenames(m, fetch)| &&
              FailedFilenames(m, fetch)[a] == m[i].filename && FailedFilenames(m, fetch)[b] == m[j].filename
  {
    var rest: Table := m[1..];
    var f := FailedFilenames(m, fetch);
    var g := FailedFilenames(rest, fetch);
    if i == 0 {
      FailedMembership(rest, fetch, m[j].filename);
      assert rest[j - 1] == m[j];
      var b :| 0 <= b < |g| && g[b] == m[j].filename;
      assert f[0] == m[0].filename && f[b + 1] == g[b];
    } else {
      FailedOrder(rest, fetch, i - 1, j - 1);
      var a, b :| 0 <= a < b < |g| && g[a] == m[i].filename && g[b] == m[j].filename;
      if Succeeds(m[0], fetch) {
        assert f == g;
      } else {
        assert f[a + 1] == g[a] && f[b + 1] == g[b];
      }
    }
  }

  /** Nothing fails exactly when every transfer succeeds. */
  lemma {:induction false} NoFailuresIffAllSucceed(m: seq<Entry>, fetch: Fetcher)
    ensures FailedFilenames(m, fetch) == [] <==> forall i :: 0 <= i < |m| ==> Succeeds(m[i], fetch)
    ensures |FailedFilenames(m, fetch)| <= |m|
  {
    if m != [] {
      NoFailuresIffAllSucceed(m[1..], fetch);
      assert forall i :: 1 <= i < |m| ==> m[i] == m[1..][i - 1];
    }
  }

  /** `sys.exit(1)` when `failed_downloads` is non-empty, `sys.exit(0)` otherwise. */
  function ExitStatus(failed: seq<string>): (code: int)
    ensures code == 0 <==> failed == []
    ensures code == 1 <==> failed != []
  {
    if failed != [] then 1 else 0
  }

  /** The exit status decided from the reference failure list is 0 exactly when every transfer
      succeeds; the run itself decides from that list whenever no key is empty (`Run`). */
  lemma ExitZeroIffAllSucceed(m: seq<Entry>, fetch: Fetcher)
    ensures ExitStatus(FailedFilenames(m, fetch)) == 0 <==> forall i :: 0 <= i < |m| ==> Succeeds(m[i], fetch)
  {
    NoFailuresIffAllSucceed(m, fetch);
  }

  /** The part of the file system the downloader inspects: the set of existing directories. */
  class FileSystem {
    var dirs: set<string>

    constructor (dirs: set<string>)
      ensures this.dirs == dirs
    {
      this.dirs := dirs;
    }

    /** `os.path.exists` on a directory path. */
    predicate Exists(path: string)
      reads this
    {
      path in dirs
    }

    /** `os.makedirs` without `exist_ok`: raises (here: `raised`) when the directory already
        exists, and also when the underlying `mkdir` fails for any other reason (permission
        denied, read-only file system, a dangling link of that name), which the oracle
        `mkdirSucceeds` decides; otherwise it creates the directory. */
    method MakeDirs(path: string, mkdirSucceeds: bool) returns (raised: bool)
      modifies this
      ensures raised <==> path in old(dirs) || !mkdirSucceeds
      ensures dirs == if raised then old(dirs) else old(dirs) + {path}
    {
      raised := path in dirs || !mkdirSucceeds;
      if !raised {
        dirs := dirs + {path};
      }
    }
  }

  /** The existence guard around directory creation: an existing directory is left alone and
      never makes the creation raise; an absent one is created, unless the creation itself fails.
      Once the directory exists, a second call changes nothing. */
  method EnsureDir(fs: FileSystem, path: string, mkdirSucceeds: bool) returns (created: bool, raised: bool)
    modifies fs
    ensures raised <==> path !in old(fs.dirs) && !mkdirSucceeds
    ensures created <==> path !in old(fs.dirs) && mkdirSucceeds
    ensures fs.dirs == if raised then old(fs.dirs) else old(fs.dirs) + {path}
    ensures path in old(fs.dirs) ==> fs.dirs == old(fs.dirs) && !raised
  {
    created, raised := false, false;
    if !fs.Exists(path) {
      raised := fs.MakeDirs(path, mkdirSucceeds);
      created := !raised;
    }
  }

  /** Whether creating the destination directory aborts `main`: the directory is absent and
      its creation fails, so the uncaught exception ends the process before any task runs. */
  predicate SetupAborts(dirs: set<string>, mkdirSucceeds: bool)
  {
    TexturesDir !in dirs && !mkdirSucceeds
  }

  /** The body of `main` for any table: ensure the directory, pack the arguments, run every
      task through the order-preserving map, collect the failures and decide the exit status.
      A failed directory creation is uncaught and ends the process with status 1, no task run. */
  method Run<C(==)>(fs: FileSystem, m: Table, ctx: C, fetch: Fetcher, mkdirSucceeds: bool)
    returns (status: int, failed: seq<string>)
    modifies fs
    ensures SetupAborts(old(fs.dirs), mkdirSucceeds) ==>
              status == 1 && failed == [] && fs.dirs == old(fs.dirs)
    ensures !SetupAborts(old(fs.dirs), mkdirSucceeds) ==>
              fs.dirs == old(fs.dirs) + {TexturesDir} &&
              |failed| <= |m| &&
              failed == WithoutEmpty(FailedFilenames(m, fetch)) &&
              (NonEmptyFilenames(m) ==> failed == FailedFilenames(m, fetch)) &&
              (status == 0 <==> failed == []) &&
              (status == 1 <==> failed != [])
  {
    var _, raised := EnsureDir(fs, TexturesDir, mkdirSucceeds);
    if raised {
      return 1, [];
    }
    var args := PackArgs(m, ctx);
    var results := MapDownloads(args, fetch);
    failed := CollectFailures(results);
    CollectedIsFailed(args, m, ctx, fetch);
    status := ExitStatus(failed);
  }

  /** `main` on the shipped table: unless directory creation aborts the run, the exit status is
      0 exactly when all eleven textures download, and the failures are exactly the failed
      local filenames, in table order, without repeats. */
  method RunTextures<C(==)>(fs: FileSystem, ctx: C, fetch: Fetcher, mkdirSucceeds: bool)
    returns (status: int, failed: seq<string>)
    modifies fs
    ensures SetupAborts(old(fs.dirs), mkdirSucceeds) ==>
              status == 1 && failed == [] && fs.dirs == old(fs.dirs)
    ensures !SetupAborts(old(fs.dirs), mkdirSucceeds) ==>
              TexturesDir in fs.dirs && fs.dirs == old(fs.dirs) + {TexturesDir} &&
              failed == FailedFilenames(Textures, fetch) &&
              (status == 0 <==> forall i :: 0 <= i < |Textures| ==> Succeeds(Textures[i], fetch)) &&
              (status == 1 <==> exists i :: 0 <= i < |Textures| && !Succeeds(Textures[i], fetch))
  {
    TexturesUnique();
    TexturesShape();
    status, failed := Run(fs, Textures, ctx, fetch, mkdirSucceeds);
    ExitZeroIffAllSucceed(Textures, fetch);
  }

  /** An empty table reports nothing and exits 0. */
  lemma EmptyTableExitsZero(fetch: Fetcher)
    ensures FailedFilenames([], fetch) == [] && ExitStatus(FailedFilenames([], fetch)) == 0
  {
  }

  /** When only the Earth texture fails, it alone is reported and the run exits 1. */
  lemma OnlyEarthFails()
    ensures var fetch := (url: string, path: string) => path != FilePath("earth.jpg");
            FailedFilenames(Textures, fetch) == ["earth.jpg"] &&
            ExitStatus(FailedFilenames(Textures, fetch)) == 1
  {
    var fetch := (url: string, path: string) => path != FilePath("earth.jpg");
    TexturesUnique();
    TexturesShape();
    forall i | 0 <= i < |Textures| && i != 3
      ensures Succeeds(Textures[i], fetch)
    {
      FilePathInjective(Textures[i].filename, "earth.jpg");
    }
    var f := FailedFilenames(Textures, fetch);
    assert f == FailedFilenames(Textures[3..], fetch) by {
      assert Textures[1..][1..][1..] == Textures[3..];
    }
    assert f == ["earth.jpg"] + FailedFilenames(Textures[4..], fetch);
    NoFailuresIffAllSucceed(Textures[4..], fetch);
  }

  /** The truthiness guard drops a failed task whose filename is the empty string: such a
      table would exit 0 although its only transfer failed. The shipped table has no such key. */
  lemma EmptyFilenameFailureUnreported<C>(ctx: C)
    ensures var fetch := (url: string, path: string) => false;
            var args := [DownloadArgs("", "2k_sun.jpg", ctx)];
            MapDownloads(args, fetch) == [Some("")] &&
            Collected(MapDownloads(args, fetch)) == [] &&
            FailedFilenames([Entry("", "2k_sun.jpg")], fetch) == [""]
  {
    var fetch := (url: string, path: string) => false;
    var args := [DownloadArgs("", "2k_sun.jpg", ctx)];
    assert MapDownloads(args, fetch) == [Some("")];
  }
}
