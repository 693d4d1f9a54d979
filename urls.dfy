/** Base-URL normalisation and the URLs the updater fetches (main.go). */
module Urls {

  /** The `-u` default, used when no base URL is given. */
  const DefaultBase: string := "http://rose-swe.bplaced.net/dl/"

  /** The manifest, both its remote name and its local file name. */
  const ManifestName: string := "md5sums.md5"

  /** `strings.HasSuffix(u, "/")`. */
  predicate EndsWithSlash(u: string) {
    |u| > 0 && u[|u| - 1] == '/'
  }

  /** Append `/` unless the base URL already ends in one. */
  function NormalizeBase(u: string): (r: string)
    ensures EndsWithSlash(r)
    ensures EndsWithSlash(u) <==> r == u
    ensures |u| <= |r| <= |u| + 1 && r[..|u|] == u
  {
    if EndsWithSlash(u) then u else u + "/"
  }

  lemma NormalizeIdempotent(u: string)
    ensures NormalizeBase(NormalizeBase(u)) == NormalizeBase(u)
  {
  }

  /** The URL of the manifest under a (normalised) base. */
  function ManifestUrl(base: string): (url: string)
    ensures |base| <= |url| && url[..|base|] == base
    ensures |url| >= |ManifestName| && url[|url| - |ManifestName|..] == ManifestName
  {
    base + ManifestName
  }

  /** The URL of one manifest entry under a (normalised) base. */
  function EntryUrl(base: string, name: string): (url: string)
    ensures |base| <= |url| && url[..|base|] == base
    ensures |url| >= |name| && url[|url| - |name|..] == name
  {
    base + name
  }

  /**
   * The manifest is fetched from the file `md5sums.md5` directly below the
   * given base URL, whatever base was given.
   */
  lemma ManifestUrlShape(u: string)
    ensures var r := ManifestUrl(NormalizeBase(u));
      && r[..|u|] == u
      && |r| >= 12 && r[|r| - 12..] == "/" + ManifestName
  {
  }

  /** Each entry is fetched from its own name directly below the base URL. */
  lemma EntryUrlShape(u: string, name: string)
    ensures var r := EntryUrl(NormalizeBase(u), name);
      && r[..|u|] == u
      && r[|r| - |name| - 1..] == "/" + name
  {
  }

  /** The default base needs no normalisation, and its manifest is `.../dl/md5sums.md5`. */
  lemma DefaultManifestUrl()
    ensures NormalizeBase(DefaultBase) == DefaultBase
    ensures ManifestUrl(NormalizeBase(DefaultBase)) == "http://rose-swe.bplaced.net/dl/md5sums.md5"
  {
    assert DefaultBase[|DefaultBase| - 1] == '/';
    assert ManifestUrl(DefaultBase) == DefaultBase + ManifestName;
  }

  /** Different names are fetched from different URLs. */
  lemma EntryUrlInjective(base: string, a: string, b: string)
    requires EntryUrl(base, a) == EntryUrl(base, b)
    ensures a == b
  {
    assert a == EntryUrl(base, a)[|base|..];
    assert b == EntryUrl(base, b)[|base|..];
  }
}
