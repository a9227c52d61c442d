/** Planning of the download tasks and the outcome of one task. */
module Tasks {

  import opened Wrappers
  import opened Manifest

  const TexturesDir: string := "textures"
  const BaseUrl: string := "https://www.solarsystemscope.com/textures/download"

  /** The remote address of a texture: the base URL, a slash, the remote filename. */
  function Url(remoteName: string): string
  {
    BaseUrl + "/" + remoteName
  }

  /** The inverse of `Url`: the remote filename of an address under the base URL. */
  function RemoteNameOf(url: string): (r: Option<string>)
    ensures r.Some? ==> |url| > |BaseUrl| && url[..|BaseUrl|] == BaseUrl && url[|BaseUrl|] == '/'
    ensures r.Some? ==> r.value == url[|BaseUrl| + 1..]
  {
    var prefix := BaseUrl + "/";
    if |prefix| <= |url| && url[..|prefix|] == prefix then Some(url[|prefix|..]) else None
  }

  lemma UrlRoundTrip(remoteName: string)
    ensures RemoteNameOf(Url(remoteName)) == Some(remoteName)
  {
    var prefix := BaseUrl + "/";
    assert Url(remoteName)[..|prefix|] == prefix;
  }

  /** Distinct remote filenames give distinct addresses. */
  lemma UrlInjective(a: string, b: string)
    ensures Url(a) == Url(b) ==> a == b
  {
    UrlRoundTrip(a);
    UrlRoundTrip(b);
  }

  predicate IsAbsolute(path: string)
  {
    |path| > 0 && path[0] == '/'
  }

  /** POSIX `os.path.join` of two components: an absolute second component replaces the
      first; otherwise a separator is inserted unless the first is empty or already ends in one. */
  function Join(dir: string, name: string): string
  {
    if IsAbsolute(name) then name
    else if dir == [] || dir[|dir| - 1] == '/' then dir + name
    else dir + "/" + name
  }

  /** Under a non-empty relative directory, joining never maps two names to one path. */
  lemma JoinInjective(dir: string, a: string, b: string)
    requires dir != [] && !IsAbsolute(dir)
    ensures Join(dir, a) == Join(dir, b) ==> a == b
  {
    if Join(dir, a) == Join(dir, b) {
      var p := Join(dir, a);
      if IsAbsolute(a) != IsAbsolute(b) {
        assert false;
      } else if !IsAbsolute(a) {
        var k := |p| - |a|;
        assert |p| - |b| == k;
        assert a == p[k..] == b;
      }
    }
  }

  /** The destination of a texture: `textures/<filename>`. */
  function FilePath(filename: string): string
  {
    Join(TexturesDir, filename)
  }

  /** The destination of a relative filename is the directory, a slash and the filename. */
  lemma FilePathRelative(filename: string)
    requires !IsAbsolute(filename)
    ensures FilePath(filename) == TexturesDir + "/" + filename
  {
  }

  /** Distinct local filenames get distinct destination path strings. */
  lemma FilePathInjective(a: string, b: string)
    ensures FilePath(a) == FilePath(b) ==> a == b
  {
    JoinInjective(TexturesDir, a, b);
  }

  /** The argument tuple `(filename, remote_name, context)` of one task; the SSL context
      is opaque to the downloader, so its type is a parameter. */
  datatype DownloadArgs<C> = DownloadArgs(filename: string, remoteName: string, context: C)

  /** `args` holds one task per manifest item, in iteration order, all sharing `ctx`. */
  predicate IsPlan<C(==)>(args: seq<DownloadArgs<C>>, m: seq<Entry>, ctx: C)
  {
    |args| == |m| &&
    forall i :: 0 <= i < |m| ==> args[i] == DownloadArgs(m[i].filename, m[i].remoteName, ctx)
  }

  /** Packs one argument tuple per manifest item. */
  method PackArgs<C(==)>(m: Table, ctx: C) returns (args: seq<DownloadArgs<C>>)
    ensures IsPlan(args, m, ctx)
  {
    args := [];
    for i := 0 to |m|
      invariant IsPlan(args, m[..i], ctx)
    {
      args := args + [DownloadArgs(m[i].filename, m[i].remoteName, ctx)];
    }
  }

  /** The planned destination path strings are pairwise distinct. */
  lemma PlanPathsDisjoint<C>(args: seq<DownloadArgs<C>>, m: Table, ctx: C)
    requires IsPlan(args, m, ctx)
    ensures forall i, j :: 0 <= i < j < |args| ==> FilePath(args[i].filename) != FilePath(args[j].filename)
  {
    forall i, j | 0 <= i < j < |args|
      ensures FilePath(args[i].filename) != FilePath(args[j].filename)
    {
      FilePathInjective(args[i].filename, args[j].filename);
    }
  }

  /** The network and file I/O of one task: given the address and the destination, whether
      opening the address, opening the file and copying the body all completed without raising. */
  type Fetcher = (string, string) -> bool

  /** Whether the transfer for a manifest item succeeds under `fetch`. */
  predicate Succeeds(e: Entry, fetch: Fetcher)
  {
    fetch(Url(e.remoteName), FilePath(e.filename))
  }

  /** `download_texture`: never raises; `None` on success, its own filename on any failure. */
  function DownloadTexture<C>(args: DownloadArgs<C>, fetch: Fetcher): (r: Option<string>)
    ensures r == None <==> fetch(Url(args.remoteName), FilePath(args.filename))
    ensures r != None ==> r == Some(args.filename)
  {
    var url := Url(args.remoteName);
    var filepath := FilePath(args.filename);
    if fetch(url, filepath) then None else Some(args.filename)
  }

  /** `executor.map(download_texture, download_args)`: the tasks are independent and write
      distinct path strings, and the results come back in input order, so the pool is a sequential map. */
  function MapDownloads<C>(args: seq<DownloadArgs<C>>, fetch: Fetcher): (results: seq<Option<string>>)
    ensures |results| == |args|
    ensures forall i :: 0 <= i < |args| ==>
              (results[i] == None <==> fetch(Url(args[i].remoteName), FilePath(args[i].filename)))
    ensures forall i :: 0 <= i < |args| ==> results[i] != None ==> results[i] == Some(args[i].filename)
  {
    if args == [] then [] else [DownloadTexture(args[0], fetch)] + MapDownloads(args[1..], fetch)
  }
}
