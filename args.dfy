/**
 * `preprocessArgs` (main.go): every argument after the program name that is
 * exactly one of five long flags is replaced by its short form before Go's
 * flag parser sees the argument vector.
 */
module Args {

  /** The long flags and their short forms, as in `argMap`. */
  const LongFlags: map<string, string> :=
    map["--help" := "-h", "--version" := "-V", "--delete" := "-d", "--keep" := "-k", "--url" := "-u"]

  /** The rewriting applied to a single argument. */
  function ShortForm(arg: string): (r: string)
    ensures r !in LongFlags
    ensures arg !in LongFlags ==> r == arg
  {
    if arg in LongFlags then LongFlags[arg] else arg
  }

  /** The argument vector after rewriting (what `os.Args` holds afterwards). */
  function Preprocessed(args: seq<string>): (r: seq<string>)
    requires |args| >= 1
    ensures |r| == |args| && r[0] == args[0]
    ensures forall i :: 1 <= i < |r| ==> r[i] !in LongFlags
    ensures forall i :: 1 <= i < |r| && args[i] !in LongFlags ==> r[i] == args[i]
  {
    [args[0]] + seq(|args| - 1, i requires 0 <= i < |args| - 1 => ShortForm(args[i + 1]))
  }

  /**
   * The loop of `preprocessArgs`: `args` is the old `os.Args` (never empty,
   * since the source indexes `os.Args[0]`), `newArgs` the new one.
   */
  method PreprocessArgs(args: seq<string>) returns (newArgs: seq<string>)
    requires |args| >= 1
    ensures |newArgs| == |args| && newArgs[0] == args[0]
    ensures forall i :: 1 <= i < |args| ==> newArgs[i] == ShortForm(args[i])
    ensures newArgs == Preprocessed(args)
  {
    newArgs := [args[0]];
    var k := 1;
    while k < |args|
      invariant 1 <= k <= |args|
      invariant |newArgs| == k && newArgs[0] == args[0]
      invariant forall i :: 1 <= i < k ==> newArgs[i] == ShortForm(args[i])
    {
      var arg := args[k];
      if arg in LongFlags {
        newArgs := newArgs + [LongFlags[arg]];
      } else {
        newArgs := newArgs + [arg];
      }
      k := k + 1;
    }
  }

  /** The five long flags become their short forms. */
  lemma LongFlagsRewritten()
    ensures ShortForm("--help") == "-h" && ShortForm("--version") == "-V"
    ensures ShortForm("--delete") == "-d" && ShortForm("--keep") == "-k"
    ensures ShortForm("--url") == "-u"
  {
  }

  /** Only exact matches are rewritten; every other argument is kept as it is. */
  lemma OnlyExactMatchesRewritten(arg: string)
    ensures ShortForm(arg) != arg <==> arg in LongFlags
  {
  }

  /** `--url=URL`, which the help text advertises, is passed through unchanged. */
  lemma UrlWithValueNotRewritten(v: string)
    ensures ShortForm("--url=" + v) == "--url=" + v
  {
    var a := "--url=" + v;
    assert a[2] == 'u' && a[5] == '=';
    assert a != "--help" && a != "--version" && a != "--delete" && a != "--keep";
    assert a != "--url" by { assert |a| > 5; }
  }

  /** Rewriting twice is the same as rewriting once. */
  lemma PreprocessIdempotent(args: seq<string>)
    requires |args| >= 1
    ensures Preprocessed(Preprocessed(args)) == Preprocessed(args)
  {
  }
}
