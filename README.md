# s3_utils downloader, modelled in Dafny

`s3_downloader.py` is a small command-line tool over an S3 bucket. It has three
commands:

- `ls` prints the keys under a prefix.
- `dump` prints the content of the objects under a prefix. It shows either the
  raw text, or JSON rows projected on a list of keys.
- `download` copies the objects under a prefix into a local directory. It
  writes one file per object, or, with `raw` and `merge`, one merged file that
  holds every payload followed by a newline.

This project models what these commands do over abstract values:

- A bucket is the sequence of its objects (key and payload bytes) in the
  order the service enumerates them. A prefix query keeps the objects whose
  key starts with the prefix.
- The local disk is a value: a set of directories and a map from path to
  content. `download` changes it through a journal of effects (make a
  directory, write a file) applied in order.
- A path is `Join(dir, name)`. Two paths are the same file exactly when both
  parts are equal. `os.path.join` is coarser than that (see "Left out").

Modules, one per file:

| file | module | what |
|---|---|---|
| `wrappers.dfy` | `Wrappers` | `Option` |
| `storage.dfy` | `Storage` | objects, bytes, the prefix listing |
| `paths.dfy` | `Paths` | `os.path.basename`, the merged file's name |
| `filesystem.dfy` | `FileSystem` | the disk, effects, replaying a journal |
| `downloader.dfy` | `Downloader` | `download` as a method, and the run it is proved to produce |
| `download_properties.dfy` | `DownloadProperties` | what a `download` run promises |
| `records.dfy` | `Records` | JSON values, dicts as ordered entries, the key projection of `dump` |
| `console.dfy` | `Console` | the lines `ls` and `dump` print |

`Downloader.Download` follows the source step by step:

1. the optional `os.makedirs`;
2. a loop over the listing (`Downloader.SaveObjects`) that writes each object
   to `target/basename(key)`, or appends it to the `merged_bytes` buffer;
3. the optional write of the merged file (`Downloader.SaveMerged`).

`Download` is proved equal to `Downloader.Outcome`, a function of the objects,
the arguments and the starting disk. The lemmas in `DownloadProperties` state
what a run promises in terms of `Outcome`.

The model keeps one behaviour of the code that looks unintended. With `merge`
set and `raw` not set, the `if merge:` after the loop still runs, but the
buffer is filled only on the `raw` path. Such a run writes every per-object
file and then an empty merged file (`DownloadProperties.MergeWithoutRawWritesEmptyFile`).

## Model

| member | source | states |
|---|---|---|
| Storage.Listing | s3_downloader.py:102 | the prefix query returns, in enumeration order, exactly the objects whose key starts with the prefix, and no more objects than the bucket holds |
| Storage.ListingAppend | s3_downloader.py:102 | the query filters object by object: the listing of two runs of objects is the two listings one after the other |
| Storage.ListingEverything | s3_downloader.py:74 | the default prefix `''` lists every object, in order |
| Paths.NameStart | s3_downloader.py:103 | where the last path segment of a key starts; its contract is stated by `NameStartAfterLastSlash` |
| Paths.NameStartAfterLastSlash | s3_downloader.py:103 | the last path segment of a key starts just after its last `/`, or at 0, and contains no `/` |
| Paths.Basename | s3_downloader.py:103 | the file name taken from a key contains no `/` |
| Paths.BasenameFromNameStart | s3_downloader.py:103 | the file name is the key from the start of its last segment onwards |
| Paths.BasenameIsLastSegment | s3_downloader.py:103 | the file name is a suffix of the key, and is either the whole key or preceded by `/` |
| Paths.BasenameUnique | s3_downloader.py:103 | any slash-free suffix that is the whole key or preceded by `/` is the file name, so the three properties above determine it |
| Paths.BasenameOfJoin | s3_downloader.py:103-104 | a key made of a directory part and a slash-free name yields that name |
| Paths.BasenameIdempotent | s3_downloader.py:103 | taking the file name of a file name changes nothing |
| Paths.ReplaceSlashes | s3_downloader.py:125 | `replace('/', '__')` leaves no `/` and changes nothing in a string without one |
| Paths.ReplaceSlashesAppend | s3_downloader.py:125 | the replacement distributes over concatenation |
| Paths.ReplaceSlashesSlash | s3_downloader.py:125 | each `/` becomes `__`, and the text on either side of it is replaced on its own |
| Paths.ReplaceSlashesLength | s3_downloader.py:125 | the result is one character longer per `/`, since each is replaced by the two characters `__` |
| Paths.MergedFileName | s3_downloader.py:125 | the merged file's name contains no `/`, so it is always a file directly in the target directory |
| Paths.MergedFileNameParts | s3_downloader.py:125 | the merged name is the bucket and the prefix, each with its slashes replaced, joined by `__`, followed by `.json` |
| Paths.MergedFileNamePlain | s3_downloader.py:125 | without slashes in bucket or prefix the merged name is the plain concatenation |
| FileSystem.ReplayStep | s3_downloader.py:100-128 | the effects happen in journal order: one more effect is applied to the disk the earlier effects left |
| FileSystem.Apply | s3_downloader.py:100-128 | one effect on the disk: `makedirs` adds a directory, a write sets one file's content; `ReplayStep` and `ReplayNet` state what a journal of them does |
| FileSystem.Replay | s3_downloader.py:100-128 | the disk after a journal; its contract is stated by `ReplayStep`, `ReplayAppend`, `ReplayNet` and `ReplayTwice` |
| FileSystem.DirsMade | s3_downloader.py:100 | definition: the directories of a journal's `makedirs` effects; `ReplayNet` states that replaying adds exactly these |
| FileSystem.NetWrites | s3_downloader.py:107-128 | the files a journal leaves written and their contents; its contract is stated by `NetWritesPaths`, `NetWritesLast` and `ReplayNet` |
| FileSystem.NetWritesPaths | s3_downloader.py:107-128 | the files a journal leaves written are exactly the paths it opens for writing |
| FileSystem.NetWritesLast | s3_downloader.py:107-128 | opening with `'wb'` truncates, so a write that no later write to the same path overrides decides that file's content |
| FileSystem.ReplayNet | s3_downloader.py:100-128 | replaying a journal adds the directories it makes and overlays the files it writes, leaving every other file as it was |
| FileSystem.ReplayAppend | s3_downloader.py:100-128 | replaying two journals one after the other is replaying their concatenation |
| FileSystem.ReplayTwice | s3_downloader.py:100-128 | replaying a journal on the disk it produced changes nothing |
| Downloader.MergedContentAppend | s3_downloader.py:116 | the merge buffer of two runs of objects is the two buffers one after the other |
| Downloader.MergedContentLength | s3_downloader.py:116 | the buffer holds every payload byte plus one newline per object |
| Downloader.MergedContent | s3_downloader.py:114-116 | the merge buffer; its contract is stated by `MergedContentAppend`, `MergedContentLength`, `MergedContentStep` and `MergedContentRoundTrip` |
| Downloader.Payloads | s3_downloader.py:112 | definition: the payloads of the listed objects, in order; `MergedContentRoundTrip` recovers them from the buffer |
| Downloader.FirstNewline | s3_downloader.py:116 | the first newline of a byte string, with none before it |
| Downloader.MergedContentRoundTrip | s3_downloader.py:114-116 | when no payload contains a newline, splitting the merged file into lines gives back every payload, in order |
| Downloader.FileFor | s3_downloader.py:103-104 | the file of an object, `target/basename(key)`; `PerObjectPaths` and `Paths.BasenameOfJoin` state what it names |
| Downloader.MergedPath | s3_downloader.py:125-126 | the merged file in the target directory; `Paths.MergedFileName` and `Paths.MergedFileNameParts` state its name |
| Downloader.Setup | s3_downloader.py:99-100 | the optional `makedirs`; its contract is stated by `DownloadProperties.SetupDisk` |
| Downloader.PerObjectWrites | s3_downloader.py:102-121 | one write per object; its contract is stated by `PerObjectWritesAt`, `PerObjectWritesStep`, `DownloadProperties.PerObjectPaths` and `DownloadProperties.PerObjectFiles` |
| Downloader.PerObjectWritesAt | s3_downloader.py:102-121 | the k-th per-object write puts the k-th object's payload into `target/basename(key)` |
| Downloader.Plan | s3_downloader.py:102-128 | a run writes nothing only when `merge` is off and the listing is empty |
| Downloader.LoopWrites | s3_downloader.py:105-121 | the loop's `raw`/`merge` choice: one write per object unless both are set; its contract is stated by `LoopWritesStep`, `SaveObjects` and `Plan` |
| Downloader.Buffer | s3_downloader.py:91-116 | `merged_bytes` after the loop, filled only on the `raw` path with `merge`; its contract is stated by `SaveObjects`, `DownloadProperties.RawMergeWritesOneFile` and `DownloadProperties.MergeWithoutRawWritesEmptyFile` |
| Downloader.FirstPath | s3_downloader.py:102-128 | the file whose `open(path, 'wb')` comes first, and so fails first when the target is missing; its contract is stated by `SaveObjects` and `OutcomeAborted` |
| Downloader.LoopWritesStep | s3_downloader.py:105-121 | unless both `raw` and `merge` are set, each object adds exactly its own write, in listing order |
| Downloader.PerObjectWritesStep | s3_downloader.py:102-104 | one more object adds its payload, written to the file named by its key's basename |
| Downloader.MergedContentStep | s3_downloader.py:114-116 | one more object appends its payload and `b'\n'` to the buffer |
| Downloader.WriteFile | s3_downloader.py:107-128 | opening a file for writing fails, changing nothing, exactly when its directory does not exist, and otherwise sets the file's content |
| Downloader.SaveObjects | s3_downloader.py:102-121 | the loop: without a failure it performs exactly the per-object writes (none with `raw` and `merge`) and fills the buffer only with `raw` and `merge`; a failure happens only at the first object's write, when the target directory is missing, and leaves the disk untouched |
| Downloader.SaveMerged | s3_downloader.py:124-128 | the step after the loop: with `merge` it writes the buffer to the merged file and fails, changing nothing, exactly when the target directory is missing; without `merge` it does nothing |
| Downloader.PlanInTwoParts | s3_downloader.py:102-128 | the loop's writes followed by the merge step's write are the run's planned writes, and replaying them in two parts gives the same disk |
| Downloader.Outcome | s3_downloader.py:74-129 | the run of `download` as a function; `Download` is proved to produce it, and the `DownloadProperties` lemmas state what it promises |
| Downloader.Download | s3_downloader.py:74-129 | the command leaves exactly the disk, effect journal and failure of `Outcome`: optional `makedirs`, then the loop's writes, then the merged file when `merge` is set |
| DownloadProperties.SetupDisk | s3_downloader.py:99-100 | `new_dir` adds the target to the directories and touches no file |
| DownloadProperties.PlanWritesIntoTarget | s3_downloader.py:102-128 | every file a run writes lies directly in the target directory |
| DownloadProperties.DownloadFailure | s3_downloader.py:99-128 | a run fails exactly when there is something to write, the target directory is missing and `new_dir` is off; a failed run has changed nothing |
| DownloadProperties.DirectoryBeforeWrites | s3_downloader.py:99-104 | the directory is created first and only with `new_dir`, and every other effect writes a file in the target directory |
| DownloadProperties.RawMergeWritesOneFile | s3_downloader.py:111-128 | with `raw` and `merge`, a run writes only the merged file, holding each listed payload followed by `b'\n'`, in order |
| DownloadProperties.PerObjectPaths | s3_downloader.py:102-104 | the per-object writes open exactly the files `target/basename(key)` of the listed objects |
| DownloadProperties.PerObjectFiles | s3_downloader.py:102-121 | after the per-object writes every listed object's file exists and holds the payload of the last object with that basename; every other file keeps its content |
| DownloadProperties.RawIrrelevantWithoutMerge | s3_downloader.py:105-121 | without `merge`, a run is the same whether `raw` is set or not |
| DownloadProperties.SeparateFiles | s3_downloader.py:102-121 | without `merge`, a successful run leaves the old files plus one file per listed basename, holding the last such object's payload, and leaves every other file unchanged |
| DownloadProperties.MergeWithoutRawWritesEmptyFile | s3_downloader.py:105-128 | with `merge` but not `raw`, a successful run makes the same writes as without `merge`, then writes an empty merged file |
| DownloadProperties.DownloadTwice | s3_downloader.py:74-129 | running `download` again on the disk a successful run left succeeds and changes nothing |
| Records.Get | s3_downloader.py:67 | `row.get(key)`; its contract is stated by `GetSpec` |
| Records.GetSpec | s3_downloader.py:67 | in a dict, `row.get(key)` returns the value of the entry with that key, or `None` when there is none |
| Records.Put | s3_downloader.py:67 | `d[key] = value`; its contract is stated by `PutKeys`, `PutGet`, `PutDistinct` and `PutAppends` |
| Records.PutKeys | s3_downloader.py:67 | storing under a key keeps the order of the existing keys and adds a new key at the end |
| Records.PutGet | s3_downloader.py:67 | after storing, the key holds the stored value and every other key its old value |
| Records.PutDistinct | s3_downloader.py:67 | storing keeps a dict's keys distinct |
| Records.PutAppends | s3_downloader.py:67 | storing under a new key appends the entry |
| Records.Collect | s3_downloader.py:67 | the dict comprehension over the keys; its contract is stated by `CollectKeys`, `CollectValues`, `CollectOrder` and `CollectOwnKeys` |
| Records.CollectKeys | s3_downloader.py:67 | the projected dict holds each requested key exactly once, and no other key |
| Records.CollectValues | s3_downloader.py:67 | each requested key holds the row's value for it, or `None` when the row lacks it |
| Records.FirstIndex | s3_downloader.py:67 | the position of a key's first occurrence in the key list |
| Records.FirstIndexPrefix | s3_downloader.py:67 | a prefix of the key list has the same first occurrences |
| Records.OrderExtend | s3_downloader.py:67 | keys in first-occurrence order stay in that order when one more key is listed, with a new key added at the end |
| Records.CollectOrder | s3_downloader.py:67 | the projected dict's keys come in the order of their first occurrence in the key list |
| Records.CollectOwnKeys | s3_downloader.py:67 | projecting a dict on its own keys, in order, gives the dict back |
| Records.Project | s3_downloader.py:67 | the projection of one row; its contract is stated by `ProjectSpec` and `ProjectOwnKeys` |
| Records.ProjectSpec | s3_downloader.py:67 | with no keys the row is shown unchanged; with keys a dict row becomes a dict with exactly the distinct requested keys, in first-occurrence order, each holding the row's value or `None`; only a non-dict row with keys fails |
| Records.ProjectOwnKeys | s3_downloader.py:67 | projecting a dict row on its own keys shows it unchanged |
| Console.KeyLines | s3_downloader.py:33-34 | one line per listed object, showing its key, in order |
| Console.Ls | s3_downloader.py:32-34 | `ls` prints the title, then exactly one key line per object under the prefix, in enumeration order |
| Console.LsShowsMatchingKeys | s3_downloader.py:33-34 | `ls` shows a key exactly when some object in the bucket has it and it starts with the prefix |
| Console.Rows | s3_downloader.py:66 | definition: iterating parsed JSON yields a list's items, a dict's keys or a string's characters, and fails on `null`, booleans and numbers |
| Console.ShowRows | s3_downloader.py:66-68 | the rows of one object printed; its contract is stated by `ShowRowsAllRecords`, `ShowRowsProjected`, `ShowRowsUnprojected` and `ShowRowsFailure` |
| Console.ShowObject | s3_downloader.py:62-70 | one object printed; its contract is stated by `ShowObjectRecords` and `ShowObjectFailure` |
| Console.ShowAll | s3_downloader.py:59-70 | every object printed in turn; its contract is stated by `ShowAllConcat`, `ShowAllAppend`, `ShowAllText`, `ShowAllProjected` and `ShowAllFailure` |
| Console.Dump | s3_downloader.py:58 | `dump` always starts with the title naming bucket and prefix |
| Console.ShowAllAppend | s3_downloader.py:59-70 | the output for two runs of objects is the first run's output, followed by the second's only if the first did not fail |
| Console.ShowAllText | s3_downloader.py:61-70 | in text mode, when every payload decodes, each object prints its key and then its decoded content verbatim, and nothing fails |
| Console.DumpText | s3_downloader.py:58-70 | `dump` in text mode prints the title, then each matching object's key and its content verbatim, in order |
| Console.ShowAllTextIgnoresParsing | s3_downloader.py:64-70 | in text mode neither the keys nor the JSON parser change the output |
| Console.ShowRowsAllRecords | s3_downloader.py:66-68 | an object's rows print without error exactly when every row can be projected, and then each row prints as its projection, in order |
| Console.ShowObjectRecords | s3_downloader.py:62-68 | an object parsed into rows that all project prints its key, then one line per row holding the row's projection, and no error |
| Console.ShowAllConcat | s3_downloader.py:59-70 | when no object fails, `dump` prints the objects' outputs one after the other, in listing order, and nothing else |
| Console.ShowRowsProjected | s3_downloader.py:66-68 | with keys, every printed row is a dict holding exactly the requested keys |
| Console.ShowRowsUnprojected | s3_downloader.py:66-68 | without keys, every row is printed unchanged, in order, and nothing fails |
| Console.ShowAllProjected | s3_downloader.py:59-68 | with keys, every record `dump` prints holds exactly the requested keys |
| Console.ShowRowsFailure | s3_downloader.py:67 | a row that cannot be projected stops output with an error naming its object |
| Console.ShowObjectFailure | s3_downloader.py:61-67 | each object prints its key first, and any error at that object names its key |
| Console.ShowAllFailure | s3_downloader.py:59-70 | when `dump` stops, the error names a listed object whose key has already been printed |

## Left out

- The boto3 session, resource, bucket and network transfer. These include `get().read()` and `download_fileobj`. A bucket is an abstract sequence of objects, and an object's payload is what a fetch returns.
- `set_profile`, which sets `AWS_PROFILE` in the process environment. Only the storage client reads it. The `profile` argument is not modelled.
- ANSI colours and the wording of printed messages. `ls` and `dump` output is modelled as lines that carry only what they show. The progress messages of `download` are not modelled.
- The typer command-line wiring and the script entry point.
- UTF-8 decoding and `json.loads`. They are the parameters `decode` and `parse` of `dump`, and `None` stands for the exception each raises. A JSON number keeps its literal text, because no arithmetic is done on it.
- `parse` stands for `json.loads`, which keeps only the last of duplicate keys, so every dict it yields has distinct keys. The model does not constrain the parameter that way. A `Dict` with a repeated key can reach the `dump` lemmas, and `Get` answers it with the first entry rather than the last.
- `dump` takes `keys` as a list or `None`. The model has only the list; `None` and the empty list behave the same, since both select the unprojected row.
- Downloader.WriteFile: the only disk error modelled is a missing directory. Other errors are not modelled: permissions, a full disk, a target that is a file, and a name that opens a directory. That last case covers a key ending in `/`, whose basename is empty; the model records a file with an empty name there.
- Downloader.Download: a Python exception ends the command. The model returns the failure instead, together with the disk and journal at that point.
- `os.makedirs` is one effect that makes the target directory. The model does not cover parent directories created along the way, or a path that already exists as a file. It also does not cover the empty target `''`: `os.makedirs('', exist_ok=True)` raises `FileNotFoundError`, while the model adds `""` to the directories and goes on writing.
- `os.path.basename` is modelled with POSIX separators only.
- `os.path.join` is not modelled as string concatenation. Paths are compared by their directory and name parts. Different strings can name the same file: `join('out/', 'x') == join('out', 'x')`, and both `''` and `'.'` name the working directory. Such targets count as different paths and directories in the model.
- Default arguments are not modelled; every argument of `download` and `dump` is given explicitly. With the default `target='.'` the Python code always has a working directory to write into. The model succeeds only if `"."` is among the disk's directories.
- Concurrency and changes to the bucket during a run are not modelled. A listing is taken once.

