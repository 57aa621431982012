/**
 * The part of the WHATWG URL parser that the server reads: a URL is
 * `scheme ":" ["//" authority] path [tail]`, where the tail is the query and
 * fragment as written. Only `pathname`, `hostname`, the pathname setter and
 * serialisation are modelled.
 */
module Urls {
  import opened Options
  import opened JsStrings

  datatype Url = Url(scheme: string, hasAuthority: bool, authority: string, pathname: string, tail: string)

  predicate IsAsciiAlpha(c: char) {
    ('a' <= c <= 'z') || ('A' <= c <= 'Z')
  }

  predicate IsSchemeChar(c: char) {
    IsAsciiAlpha(c) || ('0' <= c <= '9') || c == '+' || c == '-' || c == '.'
  }

  predicate IsScheme(s: string) {
    s != [] && IsAsciiAlpha(s[0]) && forall i :: 0 <= i < |s| ==> IsSchemeChar(s[i])
  }

  /** Special schemes other than `file` must have a non-empty host. */
  predicate NeedsHost(scheme: string) {
    scheme in {"http", "https", "ws", "wss", "ftp"}
  }

  predicate IsSpecial(scheme: string) {
    NeedsHost(scheme) || scheme == "file"
  }

  /** The index of the first character of `s` in `stops`, or `|s|` when there is none. */
  function IndexOfAny(s: string, stops: set<char>): (i: nat)
    ensures i <= |s|
    ensures forall j :: 0 <= j < i ==> s[j] !in stops
    ensures i < |s| ==> s[i] in stops
  {
    if s == [] || s[0] in stops then 0 else 1 + IndexOfAny(s[1..], stops)
  }

  lemma {:induction false} IndexOfAnyAppend(a: string, b: string, stops: set<char>)
    requires forall j :: 0 <= j < |a| ==> a[j] !in stops
    requires b == [] || b[0] in stops
    ensures IndexOfAny(a + b, stops) == |a|
  {
    if a == [] {
      assert a + b == b;
    } else {
      assert (a + b)[1..] == a[1..] + b;
      IndexOfAnyAppend(a[1..], b, stops);
    }
  }

  /** `hostname`: the authority without user information and port. */
  function Hostname(authority: string): string {
    var afterUser := LastAfter(authority, '@');
    afterUser[..IndexOfAny(afterUser, {':'})]
  }

  /** The text after the last `c` in `s`, or all of `s` when `c` does not occur. */
  function LastAfter(s: string, c: char): (r: string)
    ensures c !in r
    ensures c !in s ==> r == s
  {
    if s == [] then []
    else if s[|s| - 1] == c then []
    else LastAfter(s[..|s| - 1], c) + [s[|s| - 1]]
  }

  /** `new URL(s)`; `None` where the constructor throws. */
  function Parse(s: string): Option<Url> {
    var colon := IndexOfAny(s, {':'});
    if colon == |s| || !IsScheme(s[..colon]) then None
    else ParseAfterScheme(s[..colon], s[colon + 1..])
  }

  function ParseAfterScheme(scheme: string, rest: string): Option<Url> {
    if StartsWith(rest, "//") then ParseHierarchical(scheme, rest[2..])
    else if IsSpecial(scheme) then None
    else
      var path := rest[..IndexOfAny(rest, {'?', '#'})];
      Some(Url(scheme, false, "", path, rest[|path|..]))
  }

  /** The URL after `scheme://`: an authority, then the path, then the query and fragment. */
  function ParseHierarchical(scheme: string, afterSlashes: string): Option<Url> {
    var authority := afterSlashes[..IndexOfAny(afterSlashes, {'/', '?', '#'})];
    var remainder := afterSlashes[|authority|..];
    var path := remainder[..IndexOfAny(remainder, {'?', '#'})];
    if NeedsHost(scheme) && Hostname(authority) == "" then None
    else
      var pathname := if path == "" && IsSpecial(scheme) then "/" else path;
      Some(Url(scheme, true, authority, pathname, remainder[|path|..]))
  }

  /** `url.toString()`. */
  function ToString(u: Url): string {
    u.scheme + ":" + (if u.hasAuthority then "//" + u.authority else "") + u.pathname + u.tail
  }

  /** The `pathname` setter, which has no effect on a URL with an opaque path. */
  function SetPathname(u: Url, p: string): (r: Url)
    ensures u.hasAuthority ==> r.pathname == p
    ensures !u.hasAuthority ==> r == u
    ensures r.scheme == u.scheme && r.authority == u.authority && r.tail == u.tail
  {
    if u.hasAuthority then u.(pathname := p) else u
  }

  /** The URLs this parser produces for hierarchical inputs with a path. */
  ghost predicate WellFormed(u: Url) {
    && IsScheme(u.scheme)
    && u.hasAuthority
    && (forall i :: 0 <= i < |u.authority| ==> u.authority[i] !in {'/', '?', '#'})
    && (!NeedsHost(u.scheme) || Hostname(u.authority) != "")
    && StartsWith(u.pathname, "/")
    && (forall i :: 0 <= i < |u.pathname| ==> u.pathname[i] !in {'?', '#'})
    && (u.tail == [] || u.tail[0] in {'?', '#'})
  }

  /** Serialising a well-formed URL and parsing it again gives the same URL. */
  lemma ParseToString(u: Url)
    requires WellFormed(u)
    ensures Parse(ToString(u)) == Some(u)
  {
    var rest := "//" + (u.authority + (u.pathname + u.tail));
    assert ToString(u) == u.scheme + ([':'] + rest);
    ParseSplitsScheme(u.scheme, rest);
    assert rest[..2] == "//" && rest[2..] == u.authority + (u.pathname + u.tail);
    ParseHierarchicalOf(u);
  }

  /** The scheme ends at the first colon. */
  lemma ParseSplitsScheme(scheme: string, rest: string)
    requires IsScheme(scheme)
    ensures Parse(scheme + ([':'] + rest)) == ParseAfterScheme(scheme, rest)
  {
    var s := scheme + ([':'] + rest);
    IndexOfAnyAppend(scheme, [':'] + rest, {':'});
    assert s[..|scheme|] == scheme;
    assert s[|scheme| + 1..] == rest;
  }

  lemma ParseHierarchicalOf(u: Url)
    requires WellFormed(u)
    ensures ParseHierarchical(u.scheme, u.authority + (u.pathname + u.tail)) == Some(u)
  {
    var afterSlashes := u.authority + (u.pathname + u.tail);
    IndexOfAnyAppend(u.authority, u.pathname + u.tail, {'/', '?', '#'});
    assert afterSlashes[..|u.authority|] == u.authority;
    var remainder := u.pathname + u.tail;
    assert afterSlashes[|u.authority|..] == remainder;
    IndexOfAnyAppend(u.pathname, u.tail, {'?', '#'});
    assert remainder[..|u.pathname|] == u.pathname;
    assert remainder[|u.pathname|..] == u.tail;
  }

  /** A host name the parser keeps as the whole authority. */
  predicate IsPlainHost(h: string) {
    h != [] && forall i :: 0 <= i < |h| ==> h[i] !in {'/', '?', '#', ':', '@'}
  }

  lemma PlainHostname(h: string)
    requires IsPlainHost(h)
    ensures Hostname(h) == h
  {
    IndexOfAnyAppend(h, [], {':'});
    assert h + [] == h;
  }

  lemma HttpsToString(h: string, path: string)
    ensures ToString(Url("https", true, h, path, "")) == "https://" + h + path
  {
    assert "https" + ":" + "//" == "https://";
  }

  /** `https://<host>` with no path parses with pathname `/`. */
  lemma ParseHttpsHost(h: string)
    requires IsPlainHost(h)
    ensures Parse("https://" + h) == Some(Url("https", true, h, "/", ""))
  {
    assert IsScheme("https");
    assert "https://" + h == "https" + ([':'] + ("//" + h));
    ParseSplitsScheme("https", "//" + h);
    assert ("//" + h)[2..] == h;
    ParseHostOnly(h);
  }

  lemma ParseHostOnly(h: string)
    requires IsPlainHost(h)
    ensures ParseHierarchical("https", h) == Some(Url("https", true, h, "/", ""))
  {
    IndexOfAnyAppend(h, [], {'/', '?', '#'});
    assert h + [] == h;
    PlainHostname(h);
  }
}
