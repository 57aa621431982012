/**
 * The canonical request of AWS Signature Version 4 as `signS3Request` in server.js
 * builds it: sorted and encoded query pairs, the merged request headers with
 * lower-cased names, trimmed values and sorted by name, the signed-header list, and
 * the six parts joined by newlines. Hashing and signing are outside the model; the
 * payload hash and the date arrive as text.
 */
module CanonicalRequest {
  import opened Seqs
  import opened JsStrings
  import opened JsValues
  import opened Sorting

  type Pair = (string, string)

  function Name(p: Pair): string {
    p.0
  }

  /** `{ host, 'x-amz-date', 'x-amz-content-sha256', ...(token ? { 'x-amz-security-token': token } : {}) }`. */
  function BaseHeaders(host: string, amzDate: string, payloadHash: string, token: string): (r: seq<(string, Value)>)
    ensures UniqueKeys(r)
    ensures "x-amz-security-token" in Keys(r) <==> token != ""
  {
    var r := [("host", Str(host)), ("x-amz-date", Str(amzDate)), ("x-amz-content-sha256", Str(payloadHash))]
      + (if token != "" then [("x-amz-security-token", Str(token))] else []);
    assert Keys(r) == ["host", "x-amz-date", "x-amz-content-sha256"] + (if token != "" then ["x-amz-security-token"] else []);
    r
  }

  /** `[key.toLowerCase(), String(value).trim()]`. */
  function Canon(p: (string, Value)): Pair {
    (ToLower(p.0), Trim(ToJsString(p.1)))
  }

  predicate IsLowerCase(s: string) {
    forall i :: 0 <= i < |s| ==> !('A' <= s[i] <= 'Z')
  }

  /** The canonical header entries: every merged header canonicalised, sorted by name. */
  function CanonicalEntries(merged: seq<(string, Value)>): (r: seq<Pair>)
    ensures multiset(r) == multiset(Map(merged, Canon))
  {
    SortBy(Map(merged, Canon), Name)
  }

  /**
   * The entries are sorted by name, each name is lower case and each value has no
   * surrounding whitespace; they are the canonicalised headers, each exactly once.
   */
  lemma CanonicalEntriesShape(merged: seq<(string, Value)>)
    ensures var r := CanonicalEntries(merged);
      && SortedBy(r, Name)
      && |r| == |merged|
      && (forall i :: 0 <= i < |r| ==> IsLowerCase(r[i].0))
      && (forall i :: 0 <= i < |r| ==> IsTrimmed(r[i].1))
  {
    var c := Map(merged, Canon);
    var r := CanonicalEntries(merged);
    SortBySorted(c, Name);
    forall i | 0 <= i < |r| ensures IsLowerCase(r[i].0) && IsTrimmed(r[i].1) {
      assert r[i] in multiset(c);
      var j :| 0 <= j < |c| && c[j] == r[i];
      CanonShape(merged[j]);
    }
  }

  /** No whitespace at either end. */
  predicate IsTrimmed(s: string) {
    s == [] || (!IsWhitespace(s[0]) && !IsWhitespace(s[|s| - 1]))
  }

  /** One canonical entry: a lower-case name and a value without surrounding whitespace. */
  lemma CanonShape(p: (string, Value))
    ensures IsLowerCase(Canon(p).0)
    ensures IsTrimmed(Canon(p).1)
  {
    var name := ToLower(p.0);
    forall i | 0 <= i < |name| ensures !('A' <= name[i] <= 'Z') {
      assert name[i] == LowerChar(p.0[i]);
    }
  }

  /** Headers whose names are equal after lower-casing keep their merged order. */
  lemma CanonicalEntriesStable(merged: seq<(string, Value)>, name: string)
    ensures WithKey(CanonicalEntries(merged), Name, name) == WithKey(Map(merged, Canon), Name, name)
  {
    SortByStable(Map(merged, Canon), Name, name);
  }

  function HeaderLine(p: Pair): string {
    p.0 + ":" + p.1
  }

  /** `sortedHeaders.map(([k, v]) => `${k}:${v}\n`).join('')`. */
  function CanonicalHeaders(entries: seq<Pair>): string {
    if entries == [] then "" else HeaderLine(entries[0]) + "\n" + CanonicalHeaders(entries[1..])
  }

  /** `sortedHeaders.map(([k]) => k).join(';')`. */
  function SignedHeaders(entries: seq<Pair>): string {
    Join(Map(entries, Name), ';')
  }

  /** `${encodeURIComponent(k)}=${encodeURIComponent(v)}`. */
  function QueryPair(p: Pair, encode: string -> string): string {
    encode(p.0) + "=" + encode(p.1)
  }

  /** The query pairs sorted by name and written `k=v`, joined by `&`. */
  function CanonicalQuery(params: seq<Pair>, encode: string -> string): string {
    Join(Map(SortBy(params, Name), (p: Pair) => QueryPair(p, encode)), '&')
  }

  /** Some entry has the name `n`. */
  predicate Signs(entries: seq<Pair>, n: string) {
    exists i :: 0 <= i < |entries| && entries[i].0 == n
  }

  /**
   * The canonical header entries of a request: the base headers merged with the
   * caller's. `host`, `x-amz-date` and `x-amz-content-sha256` are always signed.
   */
  function RequestEntries(host: string, amzDate: string, payloadHash: string, token: string,
                          headers: seq<(string, Value)>): (r: seq<Pair>)
    ensures |r| >= 3
    ensures Signs(r, "host") && Signs(r, "x-amz-date") && Signs(r, "x-amz-content-sha256")
    ensures token != "" ==> Signs(r, "x-amz-security-token")
  {
    var base := BaseHeaders(host, amzDate, payloadHash, token);
    var merged := MergeInto(base, headers);
    MergeGrows(base, headers);
    var r := CanonicalEntries(merged);
    MergedBaseNames(host, amzDate, payloadHash, token, merged);
    BaseNamesSigned(merged, r, token);
    r
  }

  /** The merged headers start with the base headers' names. */
  predicate StartsWithBaseNames(merged: seq<(string, Value)>, token: string) {
    && |merged| >= 3
    && merged[0].0 == "host" && merged[1].0 == "x-amz-date" && merged[2].0 == "x-amz-content-sha256"
    && (token != "" ==> |merged| >= 4 && merged[3].0 == "x-amz-security-token")
  }

  lemma MergedBaseNames(host: string, amzDate: string, payloadHash: string, token: string,
                        merged: seq<(string, Value)>)
    requires var base := BaseHeaders(host, amzDate, payloadHash, token);
      |merged| >= |base| && Keys(merged)[..|base|] == Keys(base)
    ensures StartsWithBaseNames(merged, token)
  {
    var base := BaseHeaders(host, amzDate, payloadHash, token);
    forall i | 0 <= i < |base| ensures merged[i].0 == base[i].0 {
      assert Keys(merged)[..|base|][i] == Keys(base)[i];
    }
  }

  lemma BaseNamesSigned(merged: seq<(string, Value)>, r: seq<Pair>, token: string)
    requires StartsWithBaseNames(merged, token)
    requires multiset(r) == multiset(Map(merged, Canon))
    ensures Signs(r, "host") && Signs(r, "x-amz-date") && Signs(r, "x-amz-content-sha256")
    ensures token != "" ==> Signs(r, "x-amz-security-token")
  {
    BaseNamesLower();
    BaseNameSigned(merged, r, 0, "host");
    BaseNameSigned(merged, r, 1, "x-amz-date");
    BaseNameSigned(merged, r, 2, "x-amz-content-sha256");
    if token != "" {
      BaseNameSigned(merged, r, 3, "x-amz-security-token");
    }
  }

  lemma BaseNamesLower()
    ensures IsLowerCase("host") && IsLowerCase("x-amz-date")
    ensures IsLowerCase("x-amz-content-sha256") && IsLowerCase("x-amz-security-token")
  {
  }

  /** A lower-case header name of the merged headers is signed under that name. */
  lemma BaseNameSigned(merged: seq<(string, Value)>, r: seq<Pair>, i: nat, n: string)
    requires multiset(r) == multiset(Map(merged, Canon))
    requires i < |merged| && merged[i].0 == n && IsLowerCase(n)
    ensures Signs(r, n)
  {
    var e := Canon(merged[i]);
    assert Map(merged, Canon)[i] == e;
    assert e in multiset(Map(merged, Canon));
    assert e in r;
    var j :| 0 <= j < |r| && r[j] == e;
    assert ToLower(n) == n;
  }

  /**
   * The canonical request: verb, path, query, header block, signed headers and
   * payload hash, joined by newlines. `params` are the URL's search parameters and
   * `headers` the caller's extra headers.
   */
  function BuildCanonicalRequest(verb: string, pathname: string, params: seq<Pair>, encode: string -> string,
                                 host: string, amzDate: string, payloadHash: string, token: string,
                                 headers: seq<(string, Value)>): string
  {
    var entries := RequestEntries(host, amzDate, payloadHash, token, headers);
    Join([verb, pathname, CanonicalQuery(params, encode), CanonicalHeaders(entries), SignedHeaders(entries), payloadHash], '\n')
  }

  /** The signed-header list splits back into exactly the sorted header names. */
  lemma SignedHeadersSplit(entries: seq<Pair>)
    requires entries != []
    requires forall i :: 0 <= i < |entries| ==> ';' !in entries[i].0
    ensures Split(SignedHeaders(entries), ';') == Map(entries, Name)
  {
    SplitJoin(Map(entries, Name), ';');
  }

  /** With an encoding that never yields `&`, the query splits back into the sorted pairs. */
  lemma CanonicalQuerySplit(params: seq<Pair>, encode: string -> string)
    requires params != []
    requires forall s :: '&' !in encode(s)
    ensures var sorted := SortBy(params, Name);
      SortedBy(sorted, Name) && multiset(sorted) == multiset(params)
      && Split(CanonicalQuery(params, encode), '&') == Map(sorted, (p: Pair) => QueryPair(p, encode))
  {
    var sorted := SortBy(params, Name);
    SortBySorted(params, Name);
    var parts := Map(sorted, (p: Pair) => QueryPair(p, encode));
    forall i | 0 <= i < |parts| ensures '&' !in parts[i] {
      var p := sorted[i];
      assert parts[i] == encode(p.0) + "=" + encode(p.1);
    }
    SplitJoin(parts, '&');
  }

  /** The header block is the header lines joined by newlines, with a final newline. */
  lemma {:induction false} CanonicalHeadersJoin(entries: seq<Pair>)
    requires entries != []
    ensures CanonicalHeaders(entries) == Join(Map(entries, HeaderLine), '\n') + "\n"
    decreases |entries|
  {
    if |entries| > 1 {
      CanonicalHeadersJoin(entries[1..]);
      assert Map(entries, HeaderLine)[1..] == Map(entries[1..], HeaderLine);
    } else {
      assert CanonicalHeaders(entries[1..]) == "";
    }
  }

  lemma {:induction false} JoinAppend(a: seq<string>, b: seq<string>, sep: char)
    requires a != [] && b != []
    ensures Join(a + b, sep) == Join(a, sep) + [sep] + Join(b, sep)
    decreases |a|
  {
    if |a| == 1 {
      assert (a + b)[1..] == b;
    } else {
      assert (a + b)[1..] == a[1..] + b;
      JoinAppend(a[1..], b, sep);
    }
  }

  predicate NoNewline(s: string) {
    '\n' !in s
  }

  /** Joining with a block that ends in the separator is joining its lines and an empty line. */
  lemma JoinBlock(head: seq<string>, lines: seq<string>, rest: seq<string>, sep: char)
    requires head != [] && lines != [] && rest != []
    ensures Join(head + [Join(lines, sep) + [sep]] + rest, sep) == Join(head + lines + ([""] + rest), sep)
  {
    var block := Join(lines, sep) + [sep];
    JoinAppend(head, [block] + rest, sep);
    assert head + [block] + rest == head + ([block] + rest);
    assert ([block] + rest)[1..] == rest;
    assert Join([block] + rest, sep) == block + [sep] + Join(rest, sep);
    JoinAppend(head + lines, [""] + rest, sep);
    JoinAppend(head, lines, sep);
    assert ([""] + rest)[1..] == rest;
    assert Join([""] + rest, sep) == "" + [sep] + Join(rest, sep);
  }

  predicate SeparatorFree(parts: seq<string>, sep: char) {
    forall i :: 0 <= i < |parts| ==> sep !in parts[i]
  }

  lemma SeparatorFreeAppend(a: seq<string>, b: seq<string>, sep: char)
    requires SeparatorFree(a, sep) && SeparatorFree(b, sep)
    ensures SeparatorFree(a + b, sep)
  {
    forall i | 0 <= i < |a + b| ensures sep !in (a + b)[i] {
      if i >= |a| {
        assert (a + b)[i] == b[i - |a|];
      }
    }
  }

  /** The lines of a join that contains a separator-terminated block. */
  lemma SplitBlock(head: seq<string>, lines: seq<string>, rest: seq<string>, sep: char)
    requires head != [] && lines != [] && rest != []
    requires SeparatorFree(head, sep) && SeparatorFree(lines, sep) && SeparatorFree(rest, sep)
    ensures Split(Join(head + [Join(lines, sep) + [sep]] + rest, sep), sep) == head + lines + [""] + rest
  {
    var all := head + lines + ([""] + rest);
    assert Join(head + [Join(lines, sep) + [sep]] + rest, sep) == Join(all, sep) by {
      JoinBlock(head, lines, rest, sep);
    }
    assert Split(Join(all, sep), sep) == all by {
      SeparatorFreeAppend(head, lines, sep);
      SeparatorFreeAppend([""], rest, sep);
      SeparatorFreeAppend(head + lines, [""] + rest, sep);
      SplitJoin(all, sep);
    }
    assert all == head + lines + [""] + rest;
  }

  /**
   * When no part holds a newline, the canonical request splits into the method,
   * the path, the query, one line per header, an empty line, the signed headers
   * and the payload hash, in that order.
   */
  lemma CanonicalRequestLines(verb: string, path: string, query: string, entries: seq<Pair>, payloadHash: string)
    requires entries != []
    requires NoNewline(verb) && NoNewline(path) && NoNewline(query) && NoNewline(payloadHash)
    requires SeparatorFree(Map(entries, HeaderLine), '\n')
    requires NoNewline(SignedHeaders(entries))
    ensures Split(Join([verb, path, query, CanonicalHeaders(entries), SignedHeaders(entries), payloadHash], '\n'), '\n')
         == [verb, path, query] + Map(entries, HeaderLine) + [""] + [SignedHeaders(entries), payloadHash]
  {
    var lines := Map(entries, HeaderLine);
    var head := [verb, path, query];
    var rest := [SignedHeaders(entries), payloadHash];
    var six := [verb, path, query, CanonicalHeaders(entries), SignedHeaders(entries), payloadHash];
    assert six == head + [Join(lines, '\n') + ['\n']] + rest by {
      CanonicalHeadersJoin(entries);
    }
    assert SeparatorFree(head, '\n') && SeparatorFree(rest, '\n');
    SplitBlock(head, lines, rest, '\n');
  }

  /**
   * The request `signS3Request` signs: with no newline inside a part, its lines are
   * the method, the path, the canonical query, one `name:value` line per header in
   * name order, an empty line, the signed-header list and the payload hash.
   */
  lemma BuildCanonicalRequestLines(verb: string, pathname: string, params: seq<Pair>, encode: string -> string,
                                   host: string, amzDate: string, payloadHash: string, token: string,
                                   headers: seq<(string, Value)>)
    requires NoNewline(verb) && NoNewline(pathname) && NoNewline(CanonicalQuery(params, encode)) && NoNewline(payloadHash)
    requires SeparatorFree(Map(RequestEntries(host, amzDate, payloadHash, token, headers), HeaderLine), '\n')
    requires NoNewline(SignedHeaders(RequestEntries(host, amzDate, payloadHash, token, headers)))
    ensures var entries := RequestEntries(host, amzDate, payloadHash, token, headers);
      Split(BuildCanonicalRequest(verb, pathname, params, encode, host, amzDate, payloadHash, token, headers), '\n')
      == [verb, pathname, CanonicalQuery(params, encode)] + Map(entries, HeaderLine) + [""] + [SignedHeaders(entries), payloadHash]
  {
    var entries := RequestEntries(host, amzDate, payloadHash, token, headers);
    CanonicalRequestLines(verb, pathname, CanonicalQuery(params, encode), entries, payloadHash);
  }
}
