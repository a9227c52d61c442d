# Solar-Sim texture downloader, modelled in Dafny

This project models `download_textures.py`, the script that fetches the planetary
textures of the Solar System simulation. It covers the fixed `textures` table (local
filename to remote filename), the construction of each task's URL and destination
path, the per-task outcome of `download_texture`, and the `main` driver. `main`
creates the `textures/` directory when it is missing, packs one argument tuple per
table item, runs every task through the thread pool, collects the failed filenames
and exits with 0 or 1. If creating the directory raises, nothing catches it: the
process ends with status 1 before any task runs.

The network and file I/O of one task (`urlopen`, `open`, `copyfileobj`) is an
oracle `Fetcher = (url, filepath) -> bool`. It says whether the transfer to that
destination completed without raising. Whether the directory creation's `mkdir`
succeeds is a second oracle input, `mkdirSucceeds`. Every lemma holds for every oracle, so it
holds for every pattern of network success and failure. `executor.map` returns
results in input order, and the tasks write to distinct path strings (`Tasks.PlanPathsDisjoint`).
The pool is therefore modelled as a sequential, order-preserving map.

Modules:
- `Manifest` (manifest.dfy): `Entry`; `Table`, a sequence with unique keys, which is
  what a Python dict is; the shipped `Textures` table.
- `Tasks` (tasks.dfy): `Url`; POSIX `os.path.join` as `Join`; `FilePath`; the argument
  tuple `DownloadArgs<C>`, where `C` is the opaque SSL context; `PackArgs`;
  `DownloadTexture`; `MapDownloads`.
- `Runner` (runner.dfy): the truthiness test `if result:`; the collection loop; the
  reference definition `FailedFilenames`; `ExitStatus`; a `FileSystem` class holding
  the set of existing directories; the directory guard; `Run` (the body of `main`
  for any table) and `RunTextures` (`main` on the shipped table).

The code collects failures with `if result:`, a truthiness test. A failed task
whose filename is the empty string would be dropped from `failed_downloads`, and
the run would still exit 0 (`Runner.EmptyFilenameFailureUnreported`). The model
keeps this behaviour as written. It proves that no key of the shipped table is
empty (`Manifest.TexturesShape`), so for the shipped table the failures are exactly
the failed filenames.

## Model

| member | source | states |
|---|---|---|
| `Manifest.TexturesUnique` | download_textures.py:30-42 | The eleven local filenames of the `textures` literal are pairwise distinct, so the literal is a well-formed dict `Table` and no item is overwritten |
| `Manifest.TexturesShape` | download_textures.py:30-42 | The table has 11 entries, starting with `sun.jpg` and ending with `stars.jpg`, and every local filename is non-empty |
| `Tasks.RemoteNameOf` | download_textures.py:27 | The inverse of URL construction: it recovers a remote name only from an address that starts with `BASE_URL` followed by `/`, and returns what follows |
| `Tasks.UrlRoundTrip` | download_textures.py:53 | Stripping `BASE_URL + "/"` from a task's URL gives back exactly its remote name |
| `Tasks.UrlInjective` | download_textures.py:53 | Distinct remote names give distinct URLs |
| `Tasks.JoinInjective` | download_textures.py:54 | `os.path.join` with a non-empty relative directory never maps two different filenames to the same path, whether or not they are absolute |
| `Tasks.FilePathRelative` | download_textures.py:54 | A relative filename's destination is `textures/` followed by that filename |
| `Tasks.FilePathInjective` | download_textures.py:54 | Distinct local filenames get distinct destination paths |
| `Tasks.PackArgs` | download_textures.py:79-82 | One `(filename, remote_name, context)` tuple per table item, in iteration order, each pairing a key with its own value, all sharing the single SSL context |
| `Tasks.PlanPathsDisjoint` | download_textures.py:80-82 | The packed tasks of a dict-shaped table have pairwise distinct destination path strings |
| `Tasks.DownloadTexture` | download_textures.py:44-64 | The result is `None` exactly when the transfer from `BASE_URL/remote_name` to `textures/filename` succeeds, and otherwise exactly the task's own filename; there is no raising path |
| `Tasks.MapDownloads` | download_textures.py:86-88 | Exactly one result per task, in task order, with each result being that task's own `download_texture` outcome |
| `Runner.CollectedBound` | download_textures.py:91-93 | Collection yields at most one name per result, and a name is collected exactly when a result carries it and it is non-empty |
| `Runner.CollectFailures` | download_textures.py:90-93 | The loop builds exactly the ordered list of truthy results, with no more entries than there are results |
| `Runner.CollectedIsFailed` | download_textures.py:80-93 | Packing, the ordered map and collection together give the failed local filenames in table order with the empty name removed; for a table with non-empty keys, exactly the failed local filenames |
| `Runner.FailedMembership` | download_textures.py:88-93 | A name is in the failed list if and only if some table item with that name failed its transfer |
| `Runner.SucceededNotFailed` | download_textures.py:56-64 | In a dict-shaped table, a file whose transfer succeeded never appears in the failed list |
| `Runner.FailedNoDuplicates` | download_textures.py:91-93 | The failed list of a dict-shaped table has no repeated name |
| `Runner.FailedOrder` | download_textures.py:88-93 | If items i < j both fail, the name of i appears in the failed list before the name of j |
| `Runner.NoFailuresIffAllSucceed` | download_textures.py:91-93 | The failed list is empty if and only if every transfer succeeded, and it is never longer than the table |
| `Runner.ExitStatus` | download_textures.py:100-105 | Exit status 0 if and only if `failed_downloads` is empty, and 1 if and only if it is non-empty |
| `Runner.ExitZeroIffAllSucceed` | download_textures.py:100-105 | The exit status decided from the reference failure list is 0 if and only if every transfer in the table succeeded; `Run` decides from that list whenever no key is empty |
| `Runner.FileSystem.MakeDirs` | download_textures.py:69 | `os.makedirs` raises exactly when the directory already exists or the underlying `mkdir` fails; otherwise it adds the directory. A raising call changes nothing |
| `Runner.EnsureDir` | download_textures.py:68-69 | The guarded creation never raises because of an existing directory. An existing directory is left unchanged, so repeating the step is harmless. An absent directory is created, or the call raises when `mkdir` fails |
| `Runner.Run` | download_textures.py:66-105 | If directory creation raises, the process ends with status 1 and no task runs. Otherwise the directory exists and at most one failure is reported per item. The failures are the failed filenames in table order with the empty name removed, and exactly the failed filenames when keys are non-empty. The status is 0 if and only if nothing was collected, otherwise 1 |
| `Runner.RunTextures` | download_textures.py:66-108 | On the shipped table, a failed directory creation ends the run with status 1. Otherwise the reported failures are exactly the failed textures in table order. The exit status is 0 if and only if all eleven downloads succeed, and 1 if and only if one of them fails |
| `Runner.EmptyTableExitsZero` | download_textures.py:14 | An empty table reports no failure and exits 0 |
| `Runner.OnlyEarthFails` | download_textures.py:30-42 | When only `earth.jpg`'s transfer fails, `["earth.jpg"]` is reported and the exit status is 1 |
| `Runner.EmptyFilenameFailureUnreported` | download_textures.py:91-93 | The truthiness guard drops the failure of a task whose filename is empty, although the reference failure list contains it |

## Left out

- The real HTTP request, TLS verification, the body copy and the file write are not modelled (download_textures.py:58-59). They are foreign I/O, represented by the `Fetcher` oracle. The bytes written, and any partial file left after a failed copy, are not modelled.
- `ssl.create_default_context` is not modelled (download_textures.py:77). The context is an opaque value of type parameter `C`.
- `ThreadPoolExecutor` scheduling and its `max_workers=10` bound are not modelled (download_textures.py:86-88). Only their order-preserving result is modelled.
- The start and end times, the elapsed duration and every printed message are not modelled (download_textures.py:60, 63, 71-72, 96-98, 101, 104). They are floats, wall-clock reads and console output.
- Tasks.DownloadTexture: "no raising path" assumes printing cannot fail. The prints at download_textures.py:60 and 63 can raise, for example on a stdout that cannot encode the emoji or on a broken pipe. The exception from line 63 is outside the `try` and escapes `download_texture`. It is then re-raised when the results are read at line 91, and the model does not capture this.
- Tasks.PlanPathsDisjoint: distinct path strings may still name one file, for example `./a.jpg` and `a.jpg`, or names that differ only in case on a case-insensitive file system. Path normalisation is not modelled; the shipped table has no such pair.
- `Runner.FileSystem` records only directories. If `textures` exists as a regular file, `os.path.exists` returns true and every later `open` fails. The model does not capture that link; the oracle decides each transfer on its own.
- `os.makedirs` also creates missing parent directories. `textures` is a single component, so this is not modelled.
- `Tasks.Join` models POSIX `os.path.join` for two components only. Windows path rules are not modelled.
- The module guard `if __name__ == "__main__"` is not modelled (download_textures.py:107-108). `Runner.RunTextures` stands for the call it makes.
- Digest verification, timeouts, retries and cleanup of partial files are not modelled, because the code has none.
