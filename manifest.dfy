/**
 * Parsing one line of the `md5sums.md5` manifest into an entry: the line must
 * split into exactly two whitespace-separated fields, the expected hash and
 * the file name (main.go, the `strings.Fields` / `len(parts) != 2` step).
 */
module Manifest {

  import opened Wrappers
  import opened Whitespace

  /** One manifest entry: the published hex digest and the local file name. */
  datatype Entry = Entry(expected: string, name: string)

  /** `None` stands for a line that is reported as invalid and skipped. */
  function ParseLine(line: string): (r: Option<Entry>)
    ensures r.Some? ==> IsField(r.value.expected) && IsField(r.value.name)
  {
    var parts := Fields(line);
    if |parts| != 2 then None else Some(Entry(parts[0], parts[1]))
  }

  /** The line `md5sum` writes for an entry: hash, two spaces, name. */
  function Format(e: Entry): (line: string) {
    e.expected + "  " + e.name
  }

  /**
   * A line made of well-formed fields separated by single spaces yields an
   * entry exactly when there are two of them, and then the first is the hash
   * and the second the name.
   */
  lemma ParseLineOfJoin(fs: seq<string>)
    requires forall i :: 0 <= i < |fs| ==> IsField(fs[i])
    ensures ParseLine(Join(fs)).Some? <==> |fs| == 2
    ensures |fs| == 2 ==> ParseLine(Join(fs)) == Some(Entry(fs[0], fs[1]))
  {
    FieldsOfJoin(fs);
  }

  /** Any amount of whitespace around and between the two fields is accepted. */
  lemma ParseLinePadded(p: string, h: string, sep: string, n: string, q: string)
    requires AllSpace(p) && AllSpace(q) && AllSpace(sep) && sep != []
    requires IsField(h) && IsField(n)
    ensures ParseLine(p + h + sep + n + q) == Some(Entry(h, n))
  {
    assert p + h + sep + n + q == p + (h + (sep + (n + q)));
    FieldsAfterSpace(p, h + (sep + (n + q)));
    FieldsAfterWord(h, sep + (n + q));
    FieldsAfterSpace(sep, n + q);
    FieldsAfterWord(n, q);
    FieldsAfterSpace(q, "");
    assert q + "" == q;
  }

  /** Round trip: an entry written in `md5sum` format parses back to itself. */
  lemma ParseFormat(e: Entry)
    requires IsField(e.expected) && IsField(e.name)
    ensures ParseLine(Format(e)) == Some(e)
  {
    ParseLinePadded("", e.expected, "  ", e.name, "");
    assert "" + e.expected + "  " + e.name + "" == Format(e);
  }

  /** An accepted line holds nothing but its two fields and whitespace. */
  lemma ParsedLineAccountsForAll(line: string)
    requires ParseLine(line).Some?
    ensures NonSpace(line) == ParseLine(line).value.expected + ParseLine(line).value.name
  {
    var parts := Fields(line);
    FieldsKeepNonSpace(line);
    assert parts == [parts[0]] + [parts[1]];
    assert Concat(parts) == parts[0] + Concat(parts[1..]);
    assert Concat(parts[1..]) == parts[1] + Concat(parts[2..]);
    assert parts[2..] == [];
  }
}
