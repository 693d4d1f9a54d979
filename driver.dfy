/**
 * The driver, `main` from the flag checks on (main.go): version and help
 * short-cuts, base-URL normalisation, fetching and opening the manifest,
 * the loop over its lines, the optional removal of the manifest and the
 * choice of the exit code.
 */
module Driver {

  import opened Wrappers
  import opened Manifest
  import opened Urls
  import opened FileStore
  import opened Reconciler

  /** The flag values after Go's flag parser has run (`-d -k -h -V -? -u`); `url` is `DefaultBase` unless `-u` was given. */
  datatype Options = Options(delete: bool, keep: bool, help: bool, question: bool, version: bool, url: string)

  /** A line the scanner yields, with the I/O answers its entry will meet. */
  datatype Line = Line(text: string, io: EntryIo)

  /**
   * The world of one run: the manifest download, `os.Open` of
   * the manifest, the lines the scanner yields before it stops, whether it
   * stopped on a read error, and the answer to removing the manifest.
   */
  datatype World = World(manifest: Transfer, openOk: bool, lines: seq<Line>,
                         readError: bool, removeManifest: bool)

  /** The state carried across the manifest loop. */
  datatype Progress = Progress(files: Files, mismatch: bool, trace: seq<Action>)

  /** The exit code and what the run did to the directory. */
  datatype Report = Report(code: int, files: Files, trace: seq<Action>)

  /** One iteration of the manifest loop: an invalid line changes nothing. */
  function Step(ctx: Context, p: Progress, line: Line): (q: Progress)
    ensures ParseLine(line.text).None? ==> q == p
    ensures q.mismatch == (p.mismatch || EntryFlags(ctx, p, line))
    ensures |p.trace| <= |q.trace| && q.trace[..|p.trace|] == p.trace
  {
    match ParseLine(line.text)
    case None => p
    case Some(e) =>
      var r := Reconcile(p.files, ctx, e, line.io);
      Progress(r.files, p.mismatch || r.mismatch, p.trace + r.trace)
  }

  /** The manifest loop over the lines, in order. */
  function Scan(ctx: Context, p: Progress, lines: seq<Line>): (q: Progress)
    ensures p.mismatch ==> q.mismatch
    ensures |p.trace| <= |q.trace| && q.trace[..|p.trace|] == p.trace
    decreases |lines|
  {
    if lines == [] then p else Scan(ctx, Step(ctx, p, lines[0]), lines[1..])
  }

  /** Whether a line is a valid entry whose handling sets the mismatch flag. */
  predicate EntryFlags(ctx: Context, p: Progress, line: Line) {
    ParseLine(line.text).Some? && Reconcile(p.files, ctx, ParseLine(line.text).value, line.io).mismatch
  }

  /** Line `i` sets the flag, given the state the lines before it left. */
  predicate FlaggedAt(ctx: Context, p: Progress, lines: seq<Line>, i: int) {
    0 <= i < |lines| && EntryFlags(ctx, Scan(ctx, p, lines[..i]), lines[i])
  }

  /** The names of the valid entries among the lines. */
  function EntryNames(lines: seq<Line>): (names: set<string>) {
    if lines == [] then {}
    else
      (match ParseLine(lines[0].text) case Some(e) => {e.name} case None => {}) + EntryNames(lines[1..])
  }

  function RunContext(opts: Options, md5: Content -> string): (ctx: Context) {
    Context(NormalizeBase(opts.url), opts.keep, md5)
  }

  /** Step 1: download the manifest into `md5sums.md5`. */
  function FetchManifest(world: World, files: Files): (w: Written) {
    Download(files, ManifestName, world.manifest)
  }

  /** Steps 2 to 6: the loop over the manifest, from a cleared mismatch flag. */
  function ScanManifest(opts: Options, world: World, files: Files, md5: Content -> string): (p: Progress) {
    var start := [Get(ManifestUrl(NormalizeBase(opts.url)), ManifestName)];
    Scan(RunContext(opts, md5), Progress(FetchManifest(world, files).files, false, start), world.lines)
  }

  /** Step 7: remove the manifest. */
  function RemoveManifest(opts: Options, world: World, files: Files, md5: Content -> string): (w: Written) {
    Remove(ScanManifest(opts, world, files, md5).files, ManifestName, world.removeManifest)
  }

  /** The run from the flag checks to `os.Exit`. */
  function Run(opts: Options, world: World, files: Files, md5: Content -> string): (r: Report)
    ensures 0 <= r.code <= 5
    ensures r.code == 1 <==> !(opts.version || opts.help || opts.question) && !world.manifest.Delivered?
    ensures r.code != 0 ==> r.trace != [] && r.trace[0] == Get(ManifestUrl(NormalizeBase(opts.url)), ManifestName)
    ensures r.code == 5 ==> ScanManifest(opts, world, files, md5).mismatch && !opts.keep
  {
    if opts.version || opts.help || opts.question then Report(0, files, [])
    else
      var get := Get(ManifestUrl(NormalizeBase(opts.url)), ManifestName);
      var fetched := FetchManifest(world, files);
      if !fetched.ok then Report(1, fetched.files, [get])
      else if !world.openOk then Report(2, fetched.files, [get])
      else
        var p := ScanManifest(opts, world, files, md5);
        if world.readError then Report(3, p.files, p.trace)
        else if opts.delete then
          var rm := RemoveManifest(opts, world, files, md5);
          var t := p.trace + [Delete(ManifestName)];
          if !rm.ok then Report(4, rm.files, t)
          else Report(if p.mismatch && !opts.keep then 5 else 0, rm.files, t)
        else Report(if p.mismatch && !opts.keep then 5 else 0, p.files, p.trace)
  }

  /**
   * The exit-code table in its order of precedence: version, help, manifest
   * download (1), manifest open (2), read error (3), manifest removal (4),
   * unresolved mismatch without `-k` (5), otherwise success.
   */
  function ExitCode(opts: Options, fetched: bool, openOk: bool, readError: bool, removed: bool, mismatch: bool): (code: int)
    ensures 0 <= code <= 5
    ensures code == 4 ==> opts.delete
    ensures code == 5 ==> mismatch && !opts.keep
  {
    if opts.version then 0
    else if opts.help || opts.question then 0
    else if !fetched then 1
    else if !openOk then 2
    else if readError then 3
    else if opts.delete && !removed then 4
    else if mismatch && !opts.keep then 5
    else 0
  }

  /**
   * `main` from the flag checks on, with the file store and the mismatch
   * flag as local state; each `os.Exit` is a return.
   */
  method RunUpdater(opts: Options, world: World, files: Files, md5: Content -> string)
    returns (code: int, files': Files, trace: seq<Action>)
    ensures Report(code, files', trace) == Run(opts, world, files, md5)
  {
    files', trace := files, [];
    if opts.version {
      return 0, files', trace;
    }
    if opts.help || opts.question {
      return 0, files', trace;
    }
    var baseUrl := NormalizeBase(opts.url);
    var md5Url := ManifestUrl(baseUrl);
    var w := Download(files', ManifestName, world.manifest);
    files', trace := w.files, trace + [Get(md5Url, ManifestName)];
    if !w.ok {
      return 1, files', trace;
    }
    if !world.openOk {
      return 2, files', trace;
    }
    var ctx := Context(baseUrl, opts.keep, md5);
    ghost var start := Progress(files', false, trace);
    var mismatchFound := false;
    var i := 0;
    while i < |world.lines|
      invariant 0 <= i <= |world.lines|
      invariant Scan(ctx, Progress(files', mismatchFound, trace), world.lines[i..]) == Scan(ctx, start, world.lines)
    {
      var line := world.lines[i];
      assert world.lines[i..][1..] == world.lines[i + 1..];
      var parsed := ParseLine(line.text);
      if parsed.None? {
        i := i + 1;
        continue;
      }
      var verdict, entryTrace;
      verdict, files', mismatchFound, entryTrace := ReconcileEntry(files', mismatchFound, ctx, parsed.value, line.io);
      trace := trace + entryTrace;
      i := i + 1;
    }
    assert world.lines[i..] == [];
    assert Scan(ctx, Progress(files', mismatchFound, trace), []) == Progress(files', mismatchFound, trace);
    assert start == Progress(FetchManifest(world, files).files, false, [Get(md5Url, ManifestName)]);
    assert Progress(files', mismatchFound, trace) == ScanManifest(opts, world, files, md5);
    if world.readError {
      return 3, files', trace;
    }
    if opts.delete {
      var rm := Remove(files', ManifestName, world.removeManifest);
      files', trace := rm.files, trace + [Delete(ManifestName)];
      if !rm.ok {
        return 4, files', trace;
      }
    }
    if mismatchFound && !opts.keep {
      return 5, files', trace;
    }
    return 0, files', trace;
  }

  /** Processing a concatenation of lines is processing one part, then the other. */
  lemma {:induction false} ScanAppend(ctx: Context, p: Progress, a: seq<Line>, b: seq<Line>)
    ensures Scan(ctx, p, a + b) == Scan(ctx, Scan(ctx, p, a), b)
    decreases |a|
  {
    if a == [] {
      assert a + b == b;
    } else {
      assert (a + b)[0] == a[0];
      assert (a + b)[1..] == a[1..] + b;
      ScanAppend(ctx, Step(ctx, p, a[0]), a[1..], b);
    }
  }

  /** An invalid line is skipped and the lines after it are still processed. */
  lemma InvalidLineSkipped(ctx: Context, p: Progress, a: seq<Line>, line: Line, b: seq<Line>)
    requires ParseLine(line.text).None?
    ensures Scan(ctx, p, a + [line] + b) == Scan(ctx, p, a + b)
  {
    ScanAppend(ctx, p, a + [line], b);
    ScanAppend(ctx, p, a, [line]);
    ScanAppend(ctx, p, a, b);
    assert Scan(ctx, Scan(ctx, p, a), [line]) == Scan(ctx, p, a);
  }

  /** Line `j + 1` of `lines` sets the flag exactly when line `j` of its tail does, after the first step. */
  lemma FlaggedAtShift(ctx: Context, p: Progress, lines: seq<Line>, j: int)
    requires 0 <= j < |lines| - 1
    ensures FlaggedAt(ctx, Step(ctx, p, lines[0]), lines[1..], j) <==> FlaggedAt(ctx, p, lines, j + 1)
  {
    var rest := lines[1..];
    assert lines[..j + 1] == [lines[0]] + rest[..j];
    assert ([lines[0]] + rest[..j])[0] == lines[0];
    assert ([lines[0]] + rest[..j])[1..] == rest[..j];
    assert lines[j + 1] == rest[j];
  }

  /**
   * The mismatch flag at the end of the loop is set exactly when it was set
   * at the start or some valid line, handled in manifest order, set it.
   */
  lemma {:induction false} ScanFlag(ctx: Context, p: Progress, lines: seq<Line>)
    ensures Scan(ctx, p, lines).mismatch <==> p.mismatch || exists i :: FlaggedAt(ctx, p, lines, i)
    decreases |lines|
  {
    if lines == [] {
      assert forall i :: !FlaggedAt(ctx, p, lines, i);
    } else {
      var q := Step(ctx, p, lines[0]);
      var rest := lines[1..];
      ScanFlag(ctx, q, rest);
      assert lines[..0] == [];
      forall j | 0 <= j < |rest|
        ensures FlaggedAt(ctx, q, rest, j) <==> FlaggedAt(ctx, p, lines, j + 1)
      {
        FlaggedAtShift(ctx, p, lines, j);
      }
      if exists i :: FlaggedAt(ctx, p, lines, i) {
        var i :| FlaggedAt(ctx, p, lines, i);
        if i > 0 {
          assert FlaggedAt(ctx, q, rest, i - 1);
        }
      }
      if exists j :: FlaggedAt(ctx, q, rest, j) {
        var j :| FlaggedAt(ctx, q, rest, j);
        assert FlaggedAt(ctx, p, lines, j + 1);
      }
      if EntryFlags(ctx, p, lines[0]) {
        assert FlaggedAt(ctx, p, lines, 0);
      }
    }
  }

  /** Only the files named by valid entries can change during the loop. */
  lemma {:induction false} ScanTouchesOnlyEntries(ctx: Context, p: Progress, lines: seq<Line>)
    ensures forall k :: k !in EntryNames(lines) ==> (k in Scan(ctx, p, lines).files <==> k in p.files)
    ensures forall k :: k !in EntryNames(lines) && k in p.files ==> Scan(ctx, p, lines).files[k] == p.files[k]
    decreases |lines|
  {
    if lines != [] {
      var q := Step(ctx, p, lines[0]);
      ScanTouchesOnlyEntries(ctx, q, lines[1..]);
      match ParseLine(lines[0].text)
      case None =>
      case Some(e) =>
        OnlyOwnFileTouched(p.files, ctx, e, lines[0].io);
    }
  }

  /** The loop only appends to the log of actions, at most two downloads per line. */
  lemma {:induction false} ScanTrace(ctx: Context, p: Progress, lines: seq<Line>)
    ensures |p.trace| <= |Scan(ctx, p, lines).trace|
    ensures Scan(ctx, p, lines).trace[..|p.trace|] == p.trace
    ensures Downloads(Scan(ctx, p, lines).trace) <= Downloads(p.trace) + 2 * |lines|
    decreases |lines|
  {
    if lines != [] {
      var q := Step(ctx, p, lines[0]);
      ScanTrace(ctx, q, lines[1..]);
      match ParseLine(lines[0].text)
      case None =>
      case Some(e) =>
        var r := Reconcile(p.files, ctx, e, lines[0].io);
        BoundedWork(p.files, ctx, e, lines[0].io);
        CountsAppend(p.trace, r.trace);
        assert q.trace[..|p.trace|] == p.trace;
    }
  }

  /** With `-V`, `-h` or `-?` the run exits 0 before touching the network or the disk. */
  lemma EarlyExits(opts: Options, world: World, files: Files, md5: Content -> string)
    requires opts.version || opts.help || opts.question
    ensures Run(opts, world, files, md5) == Report(0, files, [])
  {
  }

  /** The exit code of a run is the table `ExitCode` applied to how each stage went. */
  lemma ExitCodePrecedence(opts: Options, world: World, files: Files, md5: Content -> string)
    ensures Run(opts, world, files, md5).code
      == ExitCode(opts, FetchManifest(world, files).ok, world.openOk, world.readError,
                  RemoveManifest(opts, world, files, md5).ok, ScanManifest(opts, world, files, md5).mismatch)
  {
  }

  /**
   * A run that gets past the manifest exits 5 exactly when some valid line
   * set the mismatch flag and `-k` is off (and nothing failed earlier).
   */
  lemma ExitFiveIffFlagged(opts: Options, world: World, files: Files, md5: Content -> string)
    requires !opts.version && !opts.help && !opts.question
    requires FetchManifest(world, files).ok && world.openOk && !world.readError
    requires opts.delete ==> RemoveManifest(opts, world, files, md5).ok
    ensures var ctx := RunContext(opts, md5);
      var start := Progress(FetchManifest(world, files).files, false,
                            [Get(ManifestUrl(NormalizeBase(opts.url)), ManifestName)]);
      var flagged := exists i :: FlaggedAt(ctx, start, world.lines, i);
      Run(opts, world, files, md5).code == 5 <==> !opts.keep && flagged
  {
    var ctx := RunContext(opts, md5);
    var start := Progress(FetchManifest(world, files).files, false,
                          [Get(ManifestUrl(NormalizeBase(opts.url)), ManifestName)]);
    ScanFlag(ctx, start, world.lines);
  }

  /** A run changes no file other than the manifest and the files its valid entries name. */
  lemma RunTouchesOnlyListedFiles(opts: Options, world: World, files: Files, md5: Content -> string, k: string)
    requires k != ManifestName && k !in EntryNames(world.lines)
    ensures var r := Run(opts, world, files, md5);
      && (k in r.files <==> k in files)
      && (k in files ==> r.files[k] == files[k])
  {
    var ctx := RunContext(opts, md5);
    var start := Progress(FetchManifest(world, files).files, false,
                          [Get(ManifestUrl(NormalizeBase(opts.url)), ManifestName)]);
    ScanTouchesOnlyEntries(ctx, start, world.lines);
  }

  /**
   * The flag is set before the retry: a manifest with one entry whose local
   * file is wrong but whose re-download is right still makes the run exit
   * with 5 when `-k` is off, although the file ends up valid.
   */
  lemma RecoveredEntryStillExitsFive(opts: Options, world: World, files: Files, md5: Content -> string, e: Entry)
    requires !opts.version && !opts.help && !opts.question && !opts.keep && !opts.delete
    requires world.manifest.Delivered?
    requires world.openOk && !world.readError
    requires |world.lines| == 1 && ParseLine(world.lines[0].text) == Some(e)
    requires e.name != ManifestName && e.name in files && md5(files[e.name]) != e.expected
    requires world.lines[0].io.read && world.lines[0].io.refetch.Delivered? && world.lines[0].io.reread
    requires md5(world.lines[0].io.refetch.body) == e.expected
    ensures var r := Run(opts, world, files, md5);
      && r.code == 5
      && e.name in r.files
      && r.files[e.name] == world.lines[0].io.refetch.body
  {
    var ctx := RunContext(opts, md5);
    var fetched := FetchManifest(world, files);
    var start := Progress(fetched.files, false, [Get(ManifestUrl(NormalizeBase(opts.url)), ManifestName)]);
    assert world.lines[1..] == [];
    var res := Reconcile(fetched.files, ctx, e, world.lines[0].io);
    assert res.verdict == Recovered && res.mismatch;
    assert Scan(ctx, start, world.lines) == Step(ctx, start, world.lines[0]);
  }

  /** With `-k` a run never exits 5, even when files mismatched. */
  lemma KeepNeverExitsFive(opts: Options, world: World, files: Files, md5: Content -> string)
    requires opts.keep
    ensures Run(opts, world, files, md5).code != 5
  {
  }
}
