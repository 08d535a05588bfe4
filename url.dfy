/**
 * The parsed URL the ingestion code receives from the `url` crate.  Parsing
 * is not part of this model; a URL is given as its components, and its
 * string form is the usual serialisation
 *   scheme ":" [ "//" [ host [ ":" port ] ] ] path [ "?" query ] [ "#" fragment ].
 */
module Urls {
  import opened Wrappers
  import Decimal

  /**
   * `hasAuthority` records whether the URL has a "//" authority part; it can
   * be set without a host, as in `file:///tmp/foo`.
   */
  datatype Url = Url(
    scheme: string,
    hasAuthority: bool,
    host: Option<string>,
    port: Option<nat>,
    path: string,
    query: Option<string>,
    fragment: Option<string>)

  function Authority(u: Url): string {
    match u.host
    case None => if u.hasAuthority then "//" else ""
    case Some(h) =>
      "//" + h + (match u.port case None => "" case Some(p) => ":" + Decimal.NatToString(p))
  }

  function Suffix(marker: char, part: Option<string>): string {
    match part
    case None => ""
    case Some(s) => [marker] + s
  }

  /** `Url::as_str`: the serialised URL. */
  function Serialize(u: Url): string {
    u.scheme + ":" + Authority(u) + u.path + Suffix('?', u.query) + Suffix('#', u.fragment)
  }

  /** A scheme as the URL standard admits it: never empty and never holding ':'. */
  predicate ValidScheme(scheme: string) {
    scheme != [] && ':' !in scheme
  }

  /** Everything before the first ':' of a serialised URL. */
  function SchemeOf(s: string): (r: string)
    ensures |r| <= |s| && r == s[..|r|]
    ensures ':' !in r
  {
    if s == [] || s[0] == ':' then [] else [s[0]] + SchemeOf(s[1..])
  }

  lemma {:induction false} SchemeOfPrefix(scheme: string, rest: string)
    requires ':' !in scheme
    ensures SchemeOf(scheme + ":" + rest) == scheme
    decreases |scheme|
  {
    var s := scheme + ":" + rest;
    if scheme == [] {
      assert s[0] == ':';
    } else {
      assert s[0] == scheme[0];
      assert s[1..] == scheme[1..] + ":" + rest;
      SchemeOfPrefix(scheme[1..], rest);
    }
  }

  /** The scheme can be read back from the serialised URL. */
  lemma SerializeKeepsScheme(u: Url)
    requires ValidScheme(u.scheme)
    ensures SchemeOf(Serialize(u)) == u.scheme
  {
    var rest := Authority(u) + u.path + Suffix('?', u.query) + Suffix('#', u.fragment);
    assert Serialize(u) == u.scheme + ":" + rest;
    SchemeOfPrefix(u.scheme, rest);
  }
}
