/** The redirect sanitiser of quickfeed/routes.py. A redirect target taken
    from the request (the Referer header) is only followed when its path is
    one of the application's own pages; anything else goes to "/feeds".
    URL parsing and path normalisation are library code: the target arrives
    already split into its normalised path and its query string. */
module Redirects {

  /** A parsed, normalised URL: the path and the query string. */
  datatype Url = Url(path: string, query: string)

  const ValidRedirectPaths: seq<string> := ["/feed", "/feeds", "/bookmarks"]
  const DefaultRedirectPath: string := "/feeds"

  /** `construct_redirect_url`: the path, followed by `?` and the query when
      there is one. */
  function ConstructRedirectUrl(path: string, query: string): (url: string)
    ensures path <= url
    ensures url == path <==> query == ""
  {
    if query != "" then path + "?" + query else path
  }

  /** Splits a URL at its first `?` into path and query; the reading a
      browser gives the URL that ConstructRedirectUrl builds. */
  function SplitAtQuery(url: string): (string, string) {
    if url == [] then ("", "")
    else if url[0] == '?' then ("", url[1..])
    else
      var (p, q) := SplitAtQuery(url[1..]);
      ([url[0]] + p, q)
  }

  /** A path, whatever its query, reads back as that path and query. */
  lemma {:induction false} RedirectUrlRoundTrip(path: string, query: string)
    requires '?' !in path
    ensures SplitAtQuery(ConstructRedirectUrl(path, query)) == (path, query)
    ensures path <= ConstructRedirectUrl(path, query)
  {
    if query != "" {
      SplitAtQueryPrefix(path, query);
    } else {
      SplitAtQueryNoMark(path);
    }
  }

  lemma {:induction false} SplitAtQueryPrefix(path: string, query: string)
    requires '?' !in path
    ensures SplitAtQuery(path + "?" + query) == (path, query)
  {
    if path == [] {
      assert path + "?" + query == ['?'] + query;
      assert (['?'] + query)[1..] == query;
    } else {
      assert (path + "?" + query)[1..] == path[1..] + "?" + query;
      SplitAtQueryPrefix(path[1..], query);
      assert [path[0]] + path[1..] == path;
    }
  }

  lemma {:induction false} SplitAtQueryNoMark(path: string)
    requires '?' !in path
    ensures SplitAtQuery(path) == (path, "")
  {
    if path != [] {
      SplitAtQueryNoMark(path[1..]);
      assert [path[0]] + path[1..] == path;
    }
  }

  /** `valid_redirect`: whitelisted paths and every path under "/feed" are
      kept, with their query; everything else becomes "/feeds". (The branch
      returning "/" when the path fails to re-decode as UTF-8 cannot be taken
      by a string of Unicode scalar values, and is not modelled.) */
  function ValidRedirect(url: Url): (r: string)
    ensures r == DefaultRedirectPath || r == ConstructRedirectUrl(url.path, url.query)
  {
    if url.path in ValidRedirectPaths then ConstructRedirectUrl(url.path, url.query)
    else if "/feed/" <= url.path then ConstructRedirectUrl(url.path, url.query)
    else if "/feed" <= url.path then ConstructRedirectUrl(url.path, url.query)
    else DefaultRedirectPath
  }

  /** The paths the sanitiser lets through: "/bookmarks" and every path that
      starts with "/feed". */
  predicate Accepted(path: string) {
    path == "/bookmarks" || "/feed" <= path
  }

  /** A redirect keeps the request's target exactly when its path is
      accepted, and falls back to "/feeds" otherwise; either way it stays on
      one of the application's pages. */
  lemma ValidRedirectCharacterized(url: Url)
    ensures Accepted(url.path) ==> ValidRedirect(url) == ConstructRedirectUrl(url.path, url.query)
    ensures !Accepted(url.path) ==> ValidRedirect(url) == DefaultRedirectPath
    ensures "/feed" <= ValidRedirect(url) || "/bookmarks" <= ValidRedirect(url)
  {
    var r := ValidRedirect(url);
    if url.path in ValidRedirectPaths {
      assert url.path == "/feed" || url.path == "/feeds" || url.path == "/bookmarks";
      assert "/feed" <= "/feeds";
    } else if "/feed/" <= url.path {
      assert "/feed" <= "/feed/";
    }
    if Accepted(url.path) {
      assert url.path <= ConstructRedirectUrl(url.path, url.query);
    }
  }
}
