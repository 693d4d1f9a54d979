/**
 * The per-entry reconciliation inside the manifest loop of `main`
 * (main.go): make sure the file exists (downloading it if absent), hash
 * it, compare with the expected hash, and on a mismatch re-download once,
 * hash again and, if it still mismatches and `-k` is not set, remove it.
 */
module Reconciler {

  import opened Wrappers
  import opened Manifest
  import opened Urls
  import opened FileStore

  /** Where the handling of one entry ends. */
  datatype Verdict =
    | Valid           // first hash matches
    | FetchFailed     // the file was missing and could not be downloaded
    | DigestFailed    // the first hash could not be computed
    | RefetchFailed   // mismatch, and the re-download failed
    | RedigestFailed  // mismatch, and the second hash could not be computed
    | Recovered       // mismatch, and the re-downloaded file matches
    | Kept            // still mismatched, kept because of `-k`
    | Deleted         // still mismatched, removed
    | DeleteFailed    // still mismatched, and the removal failed

  /** The answers the network and the disk give to the calls one entry may make. */
  datatype EntryIo = EntryIo(fetch: Transfer, read: bool, refetch: Transfer, reread: bool, remove: bool)

  /** What stays fixed during a run: normalised base URL, `-k` and MD5. */
  datatype Context = Context(base: string, keep: bool, md5: Content -> string)

  /** The outcome of one entry; `mismatch` says whether it sets the run's mismatch flag. */
  datatype EntryResult = EntryResult(verdict: Verdict, files: Files, mismatch: bool, trace: seq<Action>)

  predicate StillMismatched(v: Verdict) {
    v == Kept || v == Deleted || v == DeleteFailed
  }

  /** Stage 1: the file as it is about to be hashed (downloaded first if absent). */
  function Prepare(files: Files, e: Entry, io: EntryIo): (w: Written) {
    if e.name in files then Written(true, files) else Download(files, e.name, io.fetch)
  }

  /** Stage 2: the first hash, if the file got that far. */
  function FirstDigest(files: Files, ctx: Context, e: Entry, io: EntryIo): (h: Option<string>) {
    var pre := Prepare(files, e, io);
    if pre.ok then Digest(pre.files, e.name, io.read, ctx.md5) else None
  }

  /** Stage 3: the re-download that follows a first mismatch. */
  function Refetch(files: Files, ctx: Context, e: Entry, io: EntryIo): (w: Written) {
    Download(Prepare(files, e, io).files, e.name, io.refetch)
  }

  /** Stage 4: the second hash, if the re-download succeeded. */
  function SecondDigest(files: Files, ctx: Context, e: Entry, io: EntryIo): (h: Option<string>) {
    var re := Refetch(files, ctx, e, io);
    if re.ok then Digest(re.files, e.name, io.reread, ctx.md5) else None
  }

  /** The whole state machine for one entry, stage by stage. */
  function Reconcile(files: Files, ctx: Context, e: Entry, io: EntryIo): (r: EntryResult)
    ensures r.mismatch <==> r.verdict in {RefetchFailed, RedigestFailed, Recovered, Kept, Deleted, DeleteFailed}
    ensures (r.verdict == Valid || r.verdict == Recovered) ==> e.name in r.files && ctx.md5(r.files[e.name]) == e.expected
    ensures r.verdict == Kept ==> e.name in r.files && ctx.md5(r.files[e.name]) != e.expected
    ensures r.verdict == Deleted ==> e.name !in r.files
  {
    var url := EntryUrl(ctx.base, e.name);
    var pre := Prepare(files, e, io);
    var t0 := if e.name in files then [] else [Get(url, e.name)];
    if !pre.ok then EntryResult(FetchFailed, pre.files, false, t0)
    else
      var h := FirstDigest(files, ctx, e, io);
      var t1 := t0 + [Hash(e.name)];
      if h.None? then EntryResult(DigestFailed, pre.files, false, t1)
      else if h.value == e.expected then EntryResult(Valid, pre.files, false, t1)
      else
        var re := Refetch(files, ctx, e, io);
        var t2 := t1 + [Get(url, e.name)];
        if !re.ok then EntryResult(RefetchFailed, re.files, true, t2)
        else
          var h2 := SecondDigest(files, ctx, e, io);
          var t3 := t2 + [Hash(e.name)];
          if h2.None? then EntryResult(RedigestFailed, re.files, true, t3)
          else if h2.value == e.expected then EntryResult(Recovered, re.files, true, t3)
          else if ctx.keep then EntryResult(Kept, re.files, true, t3)
          else
            var rm := Remove(re.files, e.name, io.remove);
            EntryResult(if rm.ok then Deleted else DeleteFailed, rm.files, true, t3 + [Delete(e.name)])
  }

  /**
   * The loop body of `main` for one parsed entry, step by step: the file
   * store and the run's `md5MismatchFound` flag are updated as the source
   * updates them, and every `continue` is an early return.
   */
  method ReconcileEntry(files: Files, mismatchFound: bool, ctx: Context, e: Entry, io: EntryIo)
    returns (verdict: Verdict, files': Files, mismatchFound': bool, trace: seq<Action>)
    ensures var r := Reconcile(files, ctx, e, io);
      && verdict == r.verdict && files' == r.files && trace == r.trace
      && mismatchFound' == (mismatchFound || r.mismatch)
  {
    files', mismatchFound', trace := files, mismatchFound, [];
    var url := EntryUrl(ctx.base, e.name);
    if e.name !in files' {
      var w := Download(files', e.name, io.fetch);
      files', trace := w.files, trace + [Get(url, e.name)];
      if !w.ok {
        verdict := FetchFailed;
        return;
      }
    }
    var calculated := Digest(files', e.name, io.read, ctx.md5);
    trace := trace + [Hash(e.name)];
    if calculated.None? {
      verdict := DigestFailed;
      return;
    }
    if calculated.value != e.expected {
      mismatchFound' := true;
      var w := Download(files', e.name, io.refetch);
      files', trace := w.files, trace + [Get(url, e.name)];
      if !w.ok {
        verdict := RefetchFailed;
        return;
      }
      calculated := Digest(files', e.name, io.reread, ctx.md5);
      trace := trace + [Hash(e.name)];
      if calculated.None? {
        verdict := RedigestFailed;
        return;
      }
      if calculated.value != e.expected {
        if !ctx.keep {
          var rm := Remove(files', e.name, io.remove);
          files', trace := rm.files, trace + [Delete(e.name)];
          verdict := if rm.ok then Deleted else DeleteFailed;
        } else {
          verdict := Kept;
        }
      } else {
        verdict := Recovered;
      }
    } else {
      verdict := Valid;
    }
  }

  /** A present file with the expected hash: no download, no removal, no flag. */
  lemma ValidFileUntouched(files: Files, ctx: Context, e: Entry, io: EntryIo)
    requires e.name in files && io.read && ctx.md5(files[e.name]) == e.expected
    ensures Reconcile(files, ctx, e, io) == EntryResult(Valid, files, false, [Hash(e.name)])
  {
  }

  /**
   * A missing file is downloaded exactly once before it is hashed; if that
   * download fails the entry is skipped without hashing and without the flag.
   */
  lemma MissingFileFetchedFirst(files: Files, ctx: Context, e: Entry, io: EntryIo)
    requires e.name !in files
    ensures var r := Reconcile(files, ctx, e, io);
      && r.trace[0] == Get(EntryUrl(ctx.base, e.name), e.name)
      && (r.verdict == FetchFailed <==> !Prepare(files, e, io).ok)
      && (r.verdict == FetchFailed ==> r.trace == [r.trace[0]] && !r.mismatch)
      && (r.verdict != FetchFailed ==> r.trace[1] == Hash(e.name))
  {
  }

  /** A present file is hashed before anything else happens to it. */
  lemma PresentFileHashedFirst(files: Files, ctx: Context, e: Entry, io: EntryIo)
    requires e.name in files
    ensures Reconcile(files, ctx, e, io).trace[0] == Hash(e.name)
  {
  }

  /** Work per entry is bounded: at most two downloads, two hashes and one removal. */
  lemma BoundedWork(files: Files, ctx: Context, e: Entry, io: EntryIo)
    ensures var r := Reconcile(files, ctx, e, io);
      && Downloads(r.trace) <= 2 && Hashes(r.trace) <= 2 && |r.trace| <= 5
      && (e.name in files ==> Downloads(r.trace) <= 1)
  {
    var r := Reconcile(files, ctx, e, io);
    var url := EntryUrl(ctx.base, e.name);
    var t0: seq<Action> := if e.name in files then [] else [Get(url, e.name)];
    assert Downloads(t0) <= 1 && Hashes(t0) == 0;
    var t1 := t0 + [Hash(e.name)];
    CountsAppend(t0, [Hash(e.name)]);
    var t2 := t1 + [Get(url, e.name)];
    CountsAppend(t1, [Get(url, e.name)]);
    var t3 := t2 + [Hash(e.name)];
    CountsAppend(t2, [Hash(e.name)]);
    CountsAppend(t3, [Delete(e.name)]);
  }

  /**
   * A first mismatch causes exactly one re-download (and no further one),
   * followed by exactly one re-hash when that re-download succeeds.
   */
  lemma ExactlyOneRetry(files: Files, ctx: Context, e: Entry, io: EntryIo)
    requires FirstDigest(files, ctx, e, io).Some? && FirstDigest(files, ctx, e, io).value != e.expected
    ensures var r := Reconcile(files, ctx, e, io);
      && Downloads(r.trace) == (if e.name in files then 1 else 2)
      && Hashes(r.trace) == (if Refetch(files, ctx, e, io).ok then 2 else 1)
  {
    var url := EntryUrl(ctx.base, e.name);
    var t0: seq<Action> := if e.name in files then [] else [Get(url, e.name)];
    assert Downloads(t0) == (if e.name in files then 0 else 1) && Hashes(t0) == 0;
    var t1 := t0 + [Hash(e.name)];
    CountsAppend(t0, [Hash(e.name)]);
    var t2 := t1 + [Get(url, e.name)];
    CountsAppend(t1, [Get(url, e.name)]);
    var t3 := t2 + [Hash(e.name)];
    CountsAppend(t2, [Hash(e.name)]);
    CountsAppend(t3, [Delete(e.name)]);
  }

  /**
   * The run's mismatch flag is set exactly when the FIRST hash is computed
   * and differs, whatever the retry brings; in particular a file
   * recovered by the retry still sets it, and a hashing error does not:
   * the entry ends right after that hash, with the directory as prepared.
   */
  lemma FlagOnFirstMismatch(files: Files, ctx: Context, e: Entry, io: EntryIo)
    ensures var r := Reconcile(files, ctx, e, io);
      && (r.mismatch <==> FirstDigest(files, ctx, e, io).Some? && FirstDigest(files, ctx, e, io).value != e.expected)
      && (r.verdict == Recovered ==> r.mismatch)
      && (r.verdict == DigestFailed ==>
            && !r.mismatch
            && r.trace == (if e.name in files then [] else [Get(EntryUrl(ctx.base, e.name), e.name)]) + [Hash(e.name)]
            && r.files == Prepare(files, e, io).files)
  {
  }

  /**
   * A removal is attempted only when the hash after the re-download still
   * differs and `-k` is off; a removed file is gone, a failed removal leaves
   * the directory as the re-download left it.
   */
  lemma RemovalOnlyWhenStillMismatched(files: Files, ctx: Context, e: Entry, io: EntryIo)
    ensures var r := Reconcile(files, ctx, e, io);
      && (StillMismatched(r.verdict) <==>
            && FirstDigest(files, ctx, e, io).Some? && FirstDigest(files, ctx, e, io).value != e.expected
            && SecondDigest(files, ctx, e, io).Some? && SecondDigest(files, ctx, e, io).value != e.expected)
      && (Delete(e.name) in r.trace <==> StillMismatched(r.verdict) && !ctx.keep)
      && (r.verdict == Kept <==> StillMismatched(r.verdict) && ctx.keep)
      && (r.verdict == Deleted ==> e.name !in r.files)
      && (r.verdict == DeleteFailed ==> r.files == Refetch(files, ctx, e, io).files)
  {
  }

  /** Only the entry's own file is touched. */
  lemma OnlyOwnFileTouched(files: Files, ctx: Context, e: Entry, io: EntryIo)
    ensures var r := Reconcile(files, ctx, e, io);
      && (forall k :: k != e.name ==> (k in r.files <==> k in files))
      && (forall k :: k != e.name && k in files ==> r.files[k] == files[k])
  {
    var pre := Prepare(files, e, io);
    var re := Refetch(files, ctx, e, io);
    var rm := Remove(re.files, e.name, io.remove);
    assert forall k :: k != e.name ==> (k in pre.files <==> k in files);
    assert forall k :: k != e.name && k in files ==> pre.files[k] == files[k];
    assert forall k :: k != e.name ==> (k in rm.files <==> k in files);
    assert forall k :: k != e.name && k in files ==> rm.files[k] == files[k];
  }

  /** Every action of an entry is on its own file, and every download is from its own URL. */
  lemma OnlyOwnActions(files: Files, ctx: Context, e: Entry, io: EntryIo)
    ensures var r := Reconcile(files, ctx, e, io);
      && (forall i :: 0 <= i < |r.trace| ==> r.trace[i].name == e.name)
      && (forall i :: 0 <= i < |r.trace| && r.trace[i].Get? ==> r.trace[i].url == EntryUrl(ctx.base, e.name))
  {
    var url := EntryUrl(ctx.base, e.name);
    var full := (if e.name in files then [] else [Get(url, e.name)])
      + [Hash(e.name), Get(url, e.name), Hash(e.name), Delete(e.name)];
    var r := Reconcile(files, ctx, e, io);
    assert |r.trace| <= |full| && r.trace == full[..|r.trace|];
  }

  /**
   * Round trip: a missing file whose download delivers content with the
   * published hash is reported valid, unflagged, and left with that content.
   */
  lemma FreshDownloadIsValid(files: Files, ctx: Context, e: Entry, io: EntryIo)
    requires e.name !in files && io.fetch.Delivered? && io.read
    requires ctx.md5(io.fetch.body) == e.expected
    ensures var url := EntryUrl(ctx.base, e.name);
      Reconcile(files, ctx, e, io)
        == EntryResult(Valid, files[e.name := io.fetch.body], false, [Get(url, e.name), Hash(e.name)])
  {
  }

  /**
   * The retry repairs a corrupted first download: a missing file whose first
   * body has the wrong hash and whose second body has the right one ends
   * recovered with the second body, after two downloads, and still flagged.
   */
  lemma FreshDownloadRecovered(files: Files, ctx: Context, e: Entry, io: EntryIo)
    requires e.name !in files && io.fetch.Delivered? && io.read && ctx.md5(io.fetch.body) != e.expected
    requires io.refetch.Delivered? && io.reread && ctx.md5(io.refetch.body) == e.expected
    ensures var url := EntryUrl(ctx.base, e.name);
      Reconcile(files, ctx, e, io)
        == EntryResult(Recovered, files[e.name := io.refetch.body], true,
                       [Get(url, e.name), Hash(e.name), Get(url, e.name), Hash(e.name)])
  {
  }

  /**
   * A wrong local file whose re-download is wrong as well: flagged, removed
   * by default, kept with `-k`.
   */
  lemma PersistentMismatch(files: Files, ctx: Context, e: Entry, io: EntryIo)
    requires e.name in files && io.read && ctx.md5(files[e.name]) != e.expected
    requires io.refetch.Delivered? && io.reread && ctx.md5(io.refetch.body) != e.expected
    ensures var r := Reconcile(files, ctx, e, io);
      && r.mismatch
      && (ctx.keep ==> r.verdict == Kept && r.files == files[e.name := io.refetch.body])
      && (!ctx.keep && io.remove ==> r.verdict == Deleted && r.files == files - {e.name})
      && (!ctx.keep && !io.remove ==> r.verdict == DeleteFailed && r.files == files[e.name := io.refetch.body])
  {
  }
}
