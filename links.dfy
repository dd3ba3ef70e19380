/**
 * The strings the upload route builds from a script id: the blob path the
 * record is stored under, the public execute URL and the loader snippet
 * that embeds it (app/api/upload/route.ts, lines 132, 142 and 149).
 */
module Links {
  import opened Wrappers
  import opened Text

  const PathPrefix: string := "scripts/"
  const PathSuffix: string := "/data.json"
  const UrlMiddle: string := "/api/scripts/"
  const UrlSuffix: string := "/execute"
  const LoaderPrefix: string := "loadstring(game:HttpGet(\""
  const LoaderSuffix: string := "\"))()"

  /** `scripts/<id>/data.json`: where the record of script `id` is stored. */
  function StoragePath(id: string): (path: string) {
    PathPrefix + id + PathSuffix
  }

  /** The id a storage path belongs to, or `None` for a path of another shape. */
  function IdOfStoragePath(path: string): (id: Option<string>) {
    Between(path, PathPrefix, PathSuffix)
  }

  /** `<origin>/api/scripts/<id>/execute`: the public URL that serves the raw script. */
  function ExecuteUrl(origin: string, id: string): (url: string) {
    origin + UrlMiddle + id + UrlSuffix
  }

  /** The id an execute URL of this origin names, or `None`. */
  function IdOfExecuteUrl(origin: string, url: string): (id: Option<string>) {
    Between(url, origin + UrlMiddle, UrlSuffix)
  }

  /** `loadstring(game:HttpGet("<url>"))()`: a Lua line that fetches and runs the script. */
  function Loadstring(url: string): (line: string) {
    LoaderPrefix + url + LoaderSuffix
  }

  /** The URL a loader line fetches, or `None` for a line of another shape. */
  function UrlOfLoadstring(line: string): (url: Option<string>) {
    Between(line, LoaderPrefix, LoaderSuffix)
  }

  /** The path names its id: reading the id back from the path gives it. */
  lemma StoragePathRoundTrip(id: string)
    ensures IdOfStoragePath(StoragePath(id)) == Some(id)
  {
    BetweenWrapped(PathPrefix, id, PathSuffix);
  }

  /** Distinct ids are stored under distinct paths, so one upload never overwrites another's record. */
  lemma StoragePathInjective(a: string, b: string)
    ensures StoragePath(a) == StoragePath(b) <==> a == b
  {
    StoragePathRoundTrip(a);
    StoragePathRoundTrip(b);
  }

  /** The execute URL names its id under the given origin. */
  lemma ExecuteUrlRoundTrip(origin: string, id: string)
    ensures IdOfExecuteUrl(origin, ExecuteUrl(origin, id)) == Some(id)
  {
    assert ExecuteUrl(origin, id) == (origin + UrlMiddle) + id + UrlSuffix;
    BetweenWrapped(origin + UrlMiddle, id, UrlSuffix);
  }

  /** The loader line fetches exactly the URL it was built from, and contains it as a substring. */
  lemma LoadstringRoundTrip(url: string)
    ensures UrlOfLoadstring(Loadstring(url)) == Some(url)
    ensures Contains(Loadstring(url), url)
  {
    BetweenWrapped(LoaderPrefix, url, LoaderSuffix);
    ContainsMiddle(LoaderPrefix, url, LoaderSuffix);
  }

  /** The prefix the read routes list under when they look for the record of `id`. */
  function ListingPrefix(id: string): (prefix: string) {
    PathPrefix + id + "/"
  }

  /**
   * The read routes find the record by listing `scripts/<id>/` and taking the
   * entry whose path contains `data.json`. Whatever id `a` is looked up, the
   * listing matches the stored path of an id `b` without '/', as the ids the
   * route assigns are, exactly when `a` is `b`, and the stored path contains
   * `data.json`.
   */
  lemma ListingFindsOwnRecord(a: string, b: string)
    requires '/' !in b
    ensures IsPrefix(ListingPrefix(a), StoragePath(b)) <==> a == b
    ensures Contains(StoragePath(b), "data.json")
  {
    var p, s := ListingPrefix(a), StoragePath(b);
    var n := |PathPrefix|;
    assert p[n + |a|] == '/';
    assert s[n + |b|] == '/';
    if IsPrefix(p, s) && |a| == |b| {
      assert a == p[n..n + |a|] == s[n..n + |b|] == b;
    }
    assert s == (PathPrefix + b + "/") + "data.json" + "";
    ContainsMiddle(PathPrefix + b + "/", "data.json", "");
  }
}
