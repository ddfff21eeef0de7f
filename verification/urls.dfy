/** URL joining of `MirrorGroup._join_url`: a mirror's base URL is split
    into its five components, the relative URL is appended to the path with
    at most one inserted `/`, and the URL is put back together. */
module Urls {

  /** The five components `urlsplit` yields; joining touches only `path`. */
  datatype Url = Url(scheme: string, netloc: string, path: string, query: string, fragment: string)

  predicate EndsWithSlash(s: string) {
    |s| > 0 && s[|s| - 1] == '/'
  }

  predicate StartsWithSlash(s: string) {
    |s| > 0 && s[0] == '/'
  }

  /** `path + sep + rel`, where `sep` is empty when `path` ends with `/` or
      `rel` starts with `/`, and `/` otherwise: the join is one character
      longer than its parts exactly when neither side has a `/` at the seam. */
  function JoinPath(path: string, rel: string): (r: string)
    ensures |r| == |path| + |rel| + (if EndsWithSlash(path) || StartsWithSlash(rel) then 0 else 1)
  {
    var sep := if EndsWithSlash(path) || StartsWithSlash(rel) then "" else "/";
    path + sep + rel
  }

  /** The joined path is the base path, then `rel`, with a `/` at the seam:
      one is inserted exactly when neither side already has one there, and
      none is ever removed. */
  lemma JoinPathShape(path: string, rel: string)
    ensures var r := JoinPath(path, rel);
      && r[..|path|] == path && r[|r| - |rel|..] == rel
      && (EndsWithSlash(r[..|r| - |rel|]) || StartsWithSlash(rel))
  {
  }

  /** The length law of JoinPath and the facts of JoinPathShape pin the
      joined path down. */
  lemma JoinPathDetermined(path: string, rel: string, r: string)
    requires |r| == |path| + |rel| + (if EndsWithSlash(path) || StartsWithSlash(rel) then 0 else 1)
    requires r[..|path|] == path && r[|r| - |rel|..] == rel
    requires EndsWithSlash(r[..|r| - |rel|]) || StartsWithSlash(rel)
    ensures r == JoinPath(path, rel)
  {
  }

  /** The joins the documentation of the group shows, and the case both sides
      carry a `/`, where the doubled separator is kept. */
  lemma JoinPathExamples()
    ensures JoinPath("/dir/", "f.zip") == "/dir/f.zip"
    ensures JoinPath("/dir", "f.zip") == "/dir/f.zip"
    ensures JoinPath("/dir/", "/f.zip") == "/dir//f.zip"
    ensures JoinPath("", "f.zip") == "/f.zip"
  {
  }

  /** `_join_url`: split the base URL, join the relative URL onto its path,
      and put it back together. Only the path changes. */
  function JoinUrl(base: Url, rel: string): (r: Url)
    ensures r.scheme == base.scheme && r.netloc == base.netloc
    ensures r.query == base.query && r.fragment == base.fragment
    ensures r.path == JoinPath(base.path, rel)
  {
    base.(path := JoinPath(base.path, rel))
  }
}
