/** URL cleaning and the robots.txt consent check of the scrapers. A URL is
    held as the five components `urlsplit` gives (scheme, netloc, path, query,
    fragment); splitting a string and joining it back are the standard
    library's and are not modelled. */
module Urls {

  datatype Url = Url(scheme: string, netloc: string, path: string, query: string, fragment: string)

  /** The query keys listed as tracking parameters. Cleaning never consults
      them: it drops the whole query or nothing. */
  const BlockedQueryKeys: set<string> :=
    {"author", "tag", "month", "view", "format", "page-context", "json", "json-pretty", "ical", "reversePaginate"}

  /** The crawler identity asked about in robots.txt. */
  const Crawler := "MonAgentCrawler"

  /** `clean_url`: with `stripQueryParams` the query becomes empty; nothing
      else ever changes. */
  function CleanUrl(u: Url, stripQueryParams: bool): (r: Url)
    ensures r.scheme == u.scheme && r.netloc == u.netloc && r.path == u.path && r.fragment == u.fragment
    ensures r.query == if stripQueryParams then "" else u.query
  {
    if stripQueryParams && u.query != "" then u.(query := "") else u
  }

  /** Cleaning a cleaned URL changes nothing. */
  lemma CleanUrlIdempotent(u: Url, stripQueryParams: bool)
    ensures CleanUrl(CleanUrl(u, stripQueryParams), stripQueryParams) == CleanUrl(u, stripQueryParams)
  {
  }

  /** Without stripping, or with an empty query, the URL passes through untouched. */
  lemma CleanUrlPassThrough(u: Url, stripQueryParams: bool)
    requires !stripQueryParams || u.query == ""
    ensures CleanUrl(u, stripQueryParams) == u
  {
  }

  /** Stripping is all or nothing: two URLs that differ only in their query,
      whatever keys it holds, clean to the same URL. */
  lemma StripIgnoresQueryKeys(u: Url, v: Url)
    requires u.(query := "") == v.(query := "")
    ensures CleanUrl(u, true) == CleanUrl(v, true)
    ensures CleanUrl(u, true).query == ""
  {
  }

  /** `f"{scheme}://{netloc}/robots.txt"` of the target. */
  function RobotsUrl(u: Url): (r: string)
    ensures |r| == |u.scheme| + |u.netloc| + 14
    ensures r[..|u.scheme|] == u.scheme && r[|u.scheme|..|u.scheme| + 3] == "://"
    ensures r[|u.scheme| + 3..|r| - 11] == u.netloc && r[|r| - 11..] == "/robots.txt"
  {
    u.scheme + "://" + u.netloc + "/robots.txt"
  }

  /** The robots file depends on the scheme and host only, so the cleaned
      and the raw URL consult the same one. */
  lemma RobotsUrlOfCleaned(u: Url, stripQueryParams: bool)
    ensures RobotsUrl(CleanUrl(u, stripQueryParams)) == RobotsUrl(u)
  {
  }

  /** The robots URL names the host: for schemes without a colon (as
      `urlsplit` produces them), equal robots URLs mean equal scheme and netloc. */
  lemma RobotsUrlIdentifiesHost(u: Url, v: Url)
    requires ':' !in u.scheme && ':' !in v.scheme
    requires RobotsUrl(u) == RobotsUrl(v)
    ensures u.scheme == v.scheme && u.netloc == v.netloc
  {
    SchemeNotShorter(u, v);
    SchemeNotShorter(v, u);
    var x := RobotsUrl(u);
    assert u.scheme == x[..|u.scheme|] == v.scheme;
  }

  /** The "://" after a shorter scheme would put a colon inside the longer one. */
  lemma SchemeNotShorter(u: Url, v: Url)
    requires ':' !in v.scheme && RobotsUrl(u) == RobotsUrl(v)
    ensures |v.scheme| <= |u.scheme|
  {
    var x, a, b := RobotsUrl(u), |u.scheme|, |v.scheme|;
    assert x[a] == ':' by {
      assert x[a..a + 3] == "://";
    }
    forall k | 0 <= k < b ensures x[k] != ':' {
      assert x[k] == x[..b][k] == v.scheme[k];
      assert v.scheme[k] in v.scheme;
    }
  }

  /** What reading robots.txt gives: the read raised, or the parsed rules,
      which answer `can_fetch(user_agent, url)`. */
  datatype RobotsReply = ReadFailed | Rules(canFetch: (string, Url) -> bool)

  /** `is_allowed_by_robots`: the rules of the file at `RobotsUrl(u)` decide,
      and a file that cannot be read denies (fails closed). */
  function IsAllowedByRobots(u: Url, ua: string, robots: string -> RobotsReply): (allowed: bool)
    ensures robots(RobotsUrl(u)).ReadFailed? ==> !allowed
    ensures robots(RobotsUrl(u)).Rules? ==> allowed == robots(RobotsUrl(u)).canFetch(ua, u)
  {
    match robots(RobotsUrl(u))
    case ReadFailed => false
    case Rules(canFetch) => canFetch(ua, u)
  }
}
