# rupdater, modelled in Dafny

`rupdater` mirrors a small set of files from a web server. It downloads the
manifest `md5sums.md5` from a base URL. Each manifest line holds an MD5 hex
digest and a file name. For each entry the tool downloads the file if it is
missing, hashes it and compares the hash with the published one. On a
mismatch it downloads the file once more and hashes it again. If the file
still mismatches it removes it, unless `-k` is given. The exit code tells
which stage failed.

This project models the decision logic of `main.go`. The network, the disk
and MD5 are replaced by oracles:

- `Whitespace`: Go's `strings.Fields` (splitting at runs of `unicode.IsSpace`).
- `Manifest`: a manifest line becomes an entry only when it has exactly two fields.
- `Urls`: the trailing-`/` normalisation of the base URL, and the manifest and entry URLs.
- `Args`: `preprocessArgs`, which rewrites the five exact long flags to their short forms.
- `FileStore`: the working directory as a map from file name to content.
  `downloadFile`, `calculateMD5` and `os.Remove` become functions on this map.
  The caller supplies each call's outcome. A download gets a `Transfer`: the
  body the server delivered, a refusal, or an interruption with partial
  content. Two downloads of one URL may therefore deliver different bodies.
  A read or a removal gets a boolean. MD5 is a function parameter
  `md5: Content -> string`.
- `Reconciler`: the per-entry state machine. It checks that the file exists,
  downloads it if not, hashes and compares, re-downloads once, hashes and
  compares again, then removes the file or keeps it. `ReconcileEntry` is this
  sequence written as imperative code. `Reconcile` is the function that
  specifies it.
- `Driver`: `main` from the flag checks onwards. This covers the version and
  help exits, fetching and opening the manifest, the loop over its lines with
  the `md5MismatchFound` flag, the optional removal of the manifest (`-d`) and
  the exit code. `RunUpdater` is the imperative loop. `Run`, `Scan` and
  `ExitCode` are its specification.

`ReconcileEntry` and `RunUpdater` return the new directory map and a log of
the file operations they performed (`Get`, `Hash`, `Delete`), together with
their other results.

Notes on behaviour. The model follows the code wherever the code and a
prose description of the tool disagree:
- The run's mismatch flag is set at the first mismatch (main.go:233), before
  the retry. A file the retry repairs therefore still makes the run exit with 5
  when `-k` is off. See `FlagOnFirstMismatch` and `RecoveredEntryStillExitsFive`.
- With `-k`, exit code 5 is never produced (main.go:289). A run that only
  had mismatches exits 0. See `KeepNeverExitsFive`.
- The help text advertises `--url=URL` (main.go:80). `preprocessArgs`
  rewrites only a bare `--url`, so `--url=URL` reaches the flag parser
  unchanged. See `UrlWithValueNotRewritten`.

## Model

| member | source | states |
|---|---|---|
| `Whitespace.Fields` | main.go:198 | every field `strings.Fields` returns is non-empty and free of whitespace |
| `Whitespace.FieldsAfterSpace` | main.go:198 | leading whitespace contributes no field |
| `Whitespace.FieldsAfterWord` | main.go:198 | a space-free word followed by whitespace or by the end of the line is split off as the first field |
| `Whitespace.FieldsOfJoin` | main.go:198 | round trip: splitting well-formed fields joined by spaces gives back the same fields, in order |
| `Whitespace.NoFieldsIffAllSpace` | main.go:198 | a line has no field exactly when it is all whitespace |
| `Whitespace.FieldsKeepNonSpace` | main.go:198 | splitting drops only whitespace: the fields glued together are the line's non-space characters, in order |
| `Manifest.ParseLine` | main.go:198-205 | an accepted line yields a hash and a name that are both non-empty and whitespace-free |
| `Manifest.ParseLineOfJoin` | main.go:198-205 | a line of well-formed fields is accepted if and only if it has exactly two, and then hash = first field and name = second |
| `Manifest.ParseLinePadded` | main.go:198-205 | any whitespace before, between and after the two fields is accepted and yields (hash, name) |
| `Manifest.ParseFormat` | main.go:198-205 | round trip: an entry printed as `hash  name` parses back to the same entry |
| `Manifest.ParsedLineAccountsForAll` | main.go:198-205 | an accepted line contains nothing except its hash, its name and whitespace |
| `Urls.NormalizeBase` | main.go:169-172 | the result ends with `/`; it equals the input exactly when the input already ended with `/`; otherwise it is the input with one character appended |
| `Urls.NormalizeIdempotent` | main.go:169-172 | normalising twice gives the same result as normalising once |
| `Urls.ManifestUrl` | main.go:175 | the manifest URL starts with the base and ends with `md5sums.md5` |
| `Urls.EntryUrl` | main.go:210 | an entry URL starts with the base and ends with the file name |
| `Urls.ManifestUrlShape` | main.go:174-175 | the manifest URL starts with the given base and ends in `/md5sums.md5` |
| `Urls.EntryUrlShape` | main.go:210 | an entry URL starts with the given base and ends in `/` followed by the file name |
| `Urls.DefaultManifestUrl` | main.go:152-175 | the default base URL already ends in `/`, and its manifest lives at `http://rose-swe.bplaced.net/dl/md5sums.md5` |
| `Urls.EntryUrlInjective` | main.go:237 | under one base, different file names give different URLs |
| `Args.ShortForm` | main.go:125-130 | a rewritten argument is never itself one of the five long flags; any other argument passes through unchanged |
| `Args.Preprocessed` | main.go:116-131 | the new vector keeps the length and `argv[0]`; no long flag is left after position 0; every other argument is unchanged |
| `Args.PreprocessArgs` | main.go:114-133 | the loop keeps the length and `argv[0]`, and maps each later argument through `ShortForm`, in order |
| `Args.LongFlagsRewritten` | main.go:116-122 | `--help`, `--version`, `--delete`, `--keep` and `--url` become `-h`, `-V`, `-d`, `-k` and `-u` |
| `Args.OnlyExactMatchesRewritten` | main.go:125-130 | an argument is changed if and only if it exactly equals one of the five long flags |
| `Args.UrlWithValueNotRewritten` | main.go:125-130 | `--url=VALUE` is passed through unchanged, whatever VALUE is |
| `Args.PreprocessIdempotent` | main.go:124-132 | rewriting an already rewritten argument vector changes nothing |
| `FileStore.Download` | main.go:25-51 | a download succeeds exactly when the server's body is delivered in full, and then the local file holds that body; on failure the file is untouched, or left with the partial content of an interrupted copy; no other file changes |
| `FileStore.Digest` | main.go:54-67 | a computed hash is the MD5 of the file's current content; a missing file gives an error |
| `FileStore.Remove` | main.go:257-261 | a successful removal removes exactly the named, existing file; a failed one changes nothing |
| `Reconciler.Reconcile` | main.go:207-269 | the flag is set exactly for the verdicts reached after a first mismatch; a valid or recovered file is present with the published hash; a kept file is present with a different hash; a deleted file is gone |
| `Reconciler.ReconcileEntry` | main.go:207-269 | the imperative per-entry sequence returns the verdict, directory and log that `Reconcile` gives, and sets the run flag as `md5MismatchFound = true` does |
| `Reconciler.ValidFileUntouched` | main.go:224-268 | a present file with the expected hash is hashed once and nothing else: no download, no removal, flag untouched |
| `Reconciler.MissingFileFetchedFirst` | main.go:208-224 | a missing file is downloaded exactly once before hashing; if that fails, the entry is skipped without hashing and without the flag |
| `Reconciler.PresentFileHashedFirst` | main.go:208-224 | a present file is hashed before any download |
| `Reconciler.BoundedWork` | main.go:207-263 | one entry causes at most two downloads, two hashes and five operations, and at most one download if the file was present |
| `Reconciler.ExactlyOneRetry` | main.go:231-249 | after a first mismatch there is exactly one re-download (two downloads in all for a file that was missing), and exactly one re-hash when that re-download succeeds |
| `Reconciler.FlagOnFirstMismatch` | main.go:224-233 | the flag is set if and only if the first hash is computed and differs, so it is also set when the retry recovers the file; a hash error sets no flag and ends the entry right after that hash (log: the download of a missing file, then the hash), with the directory as it stood before hashing |
| `Reconciler.RemovalOnlyWhenStillMismatched` | main.go:251-263 | an entry remains mismatched exactly when both hashes differ; removal is attempted exactly when it remains mismatched and `-k` is off; a removed file is gone; a failed removal leaves the re-downloaded file |
| `Reconciler.OnlyOwnFileTouched` | main.go:207-263 | no file other than the entry's own name is created, changed or removed |
| `Reconciler.OnlyOwnActions` | main.go:210-257 | every operation of an entry is on its own file, and every download uses base + name |
| `Reconciler.FreshDownloadIsValid` | main.go:208-231 | round trip: a missing file whose download delivers content with the published hash ends valid and unflagged, holding that content, after one download and one hash |
| `Reconciler.FreshDownloadRecovered` | main.go:208-265 | a missing file whose first download is corrupt and whose re-download is right ends recovered, holding the second body, after two downloads and two hashes, and still flagged |
| `Reconciler.PersistentMismatch` | main.go:231-263 | a wrong file whose re-download is also wrong is flagged; by default it is removed, or left with the re-downloaded body if removal fails; with `-k` it is kept with that body |
| `Driver.RunUpdater` | main.go:156-293 | the imperative run, including the scan loop, returns the exit code, directory and log that `Run` specifies |
| `Driver.Run` | main.go:156-293 | exit codes lie in 0..5; the code is 1 exactly when the run is not a version or help exit and the manifest is not delivered; every non-zero code comes after the manifest download, which is the first operation; 5 needs the flag and `-k` off |
| `Driver.ExitCode` | main.go:157-293 | exit codes lie in 0..5; 4 happens only with `-d`; 5 happens only with the flag set and `-k` off |
| `Driver.ExitCodePrecedence` | main.go:156-293 | a run's exit code is the precedence table applied to its stages: version, help, manifest download (1), open (2), read (3), manifest removal (4), mismatch without `-k` (5), else 0 |
| `Driver.EarlyExits` | main.go:156-167 | `-V`, `-h` or `-?` exits 0 with no download and no change to any file |
| `Driver.Step` | main.go:196-269 | an invalid line changes nothing; afterwards the flag is set exactly when it was before or this line's entry set it; the log is only extended |
| `Driver.Scan` | main.go:195-270 | the loop never clears the flag and only appends to the log, keeping every operation already recorded |
| `Driver.ScanAppend` | main.go:195-270 | the loop processes lines in order: a concatenation of lines is processed one part after the other |
| `Driver.InvalidLineSkipped` | main.go:198-202 | an invalid line changes nothing, and the lines after it are still processed |
| `Driver.ScanFlag` | main.go:193-233 | at the end of the loop the flag is set if and only if it was set at the start or some valid line, in manifest order, set it |
| `Driver.ScanTouchesOnlyEntries` | main.go:195-270 | the loop changes only files named by valid entries |
| `Driver.ScanTrace` | main.go:195-270 | the loop only appends to the operation log, with at most two downloads per line |
| `Driver.ExitFiveIffFlagged` | main.go:288-291 | a run that gets past the manifest stages exits 5 if and only if `-k` is off and some valid line set the flag |
| `Driver.RunTouchesOnlyListedFiles` | main.go:174-286 | a run changes no file other than `md5sums.md5` and the files named by valid entries |
| `Driver.RecoveredEntryStillExitsFive` | main.go:231-291 | one entry the retry repairs still makes the run exit 5 without `-k`, and the file ends up with the re-downloaded body |
| `Driver.KeepNeverExitsFive` | main.go:289-290 | with `-k` the exit code is never 5 |

## Left out

- HTTP, `os.Create` and `io.Copy` inside `downloadFile` (main.go:25-51) are not modelled. Each call's outcome is a `Transfer` value: a body delivered in full, a refusal before the file is created (which includes a non-200 status), or an interruption after the file was created, with partial content. The URL of a call is recorded in the log but does not determine its answer.
- MD5 and its hex encoding (main.go:54-67) come from the library and are not modelled. The model uses an arbitrary function of the file content; whether the open or read succeeds is an oracle boolean.
- Go's `flag` package (main.go:146-154) is not modelled. The parsed flag values and the URL are inputs (`Options`). The model does not capture that the flag parser rejects an unrewritten `--url=URL`.
- `preprocessArgs` assigns the global `os.Args`. The model returns the new vector instead.
- File names are not resolved as paths: the directory map is keyed by the name exactly as the manifest spells it. Two spellings of one file on disk (`a.txt` and `./a.txt`, `sub/../x`, a symlink, or case variants on a case-insensitive file system such as the Windows build's) are two keys in the model, so a second spelling is downloaded again where the program finds the file the first entry wrote. `Reconciler.OnlyOwnFileTouched`, `Driver.ScanTouchesOnlyEntries` and `Driver.RunTouchesOnlyListedFiles` therefore hold per spelling, not per file on disk.
- `os.Stat` errors other than "does not exist" are not modelled (main.go:208). A file exists when its name is a key of the directory map.
- `bufio.Scanner` is not modelled. Its line splitting, its line-length limit and its reads are replaced by the sequence of lines it yields plus a read-error flag. The model does not capture the scanner seeing a manifest that an entry named `md5sums.md5` overwrites during the loop.
- Go strings are byte sequences. The model's strings are sequences of decoded characters, so invalid UTF-8 is not modelled.
- All console output is left out as presentation: the greeting, warnings, `displayHelp` (main.go:70-111) and the version string. So are `defer file.Close()` and the termination performed by `os.Exit`. An invalid line is skipped, but its warning is not modelled.
