/**
 * Where the gallery keeps its templates in S3 (server.js): the storage path from
 * `N8N_TEMPLATE_S3_PATH`, the virtual-hosted bucket URL, object-key encoding, the
 * query string of a request, the `.json` listing filter and the key/id mapping.
 */
module S3Storage {
  import opened Options
  import opened Seqs
  import opened JsStrings
  import opened JsValues
  import opened Urls

  /** `{ bucket, keyPrefix }`. */
  datatype Location = Location(bucket: string, keyPrefix: string)

  /** `{ ...parsed, region }`. */
  datatype Storage = Storage(bucket: string, keyPrefix: string, region: string)

  /** The environment variables read here; `""` stands for an unset variable. */
  datatype StorageEnv = StorageEnv(s3Path: string, awsRegion: string, awsDefaultRegion: string)

  /** `p ? p + (p.endsWith('/') ? '' : '/') : ''`. */
  function AsPrefix(p: string): (r: string)
    ensures r == [] || EndsWith(r, "/")
    ensures p == [] ==> r == []
    ensures p != [] ==> StartsWith(r, p) && |r| == |p| + (if EndsWith(p, "/") then 0 else 1)
  {
    if p == [] then []
    else if EndsWith(p, "/") then p
    else
      var r := p + "/";
      assert r[|r| - 1..] == "/";
      assert r[..|p|] == p;
      r
  }

  /** The non-empty `/` segments of `s`, in order (`s.split('/').filter(Boolean)`). */
  function Segments(s: string): (r: seq<string>)
    ensures forall i :: 0 <= i < |r| ==> IsSegment(r[i])
  {
    var r := Filter(Split(s, '/'), NonEmpty);
    assert forall i :: 0 <= i < |r| ==> IsSegment(r[i]) by {
      forall i | 0 <= i < |r| ensures IsSegment(r[i]) {
        var j :| 0 <= j < |Split(s, '/')| && Split(s, '/')[j] == r[i];
      }
    }
    r
  }

  /**
   * The `s3://` and bare forms: `null` when there is no non-empty `/` segment;
   * otherwise the first segment is the bucket and the other segments, in order,
   * are the segments of the prefix.
   */
  function FromSegments(s: string): (r: Option<Location>)
    ensures r.None? <==> Segments(s) == []
    ensures r.Some? ==> r.value.bucket == Segments(s)[0] && IsSegment(r.value.bucket)
    ensures r.Some? ==> r.value.keyPrefix == [] || EndsWith(r.value.keyPrefix, "/")
    ensures r.Some? ==> Segments(r.value.keyPrefix) == Segments(s)[1..]
  {
    var segments := Segments(s);
    if segments == [] then None
    else
      PrefixSegments(segments[1..]);
      Some(Location(segments[0], AsPrefix(Join(segments[1..], '/'))))
  }

  /** The prefix built from clean segments has exactly those segments. */
  lemma PrefixSegments(segments: seq<string>)
    requires forall i :: 0 <= i < |segments| ==> IsSegment(segments[i])
    ensures Segments(AsPrefix(Join(segments, '/'))) == segments
  {
    if segments != [] {
      var j := Join(segments, '/');
      JoinEndsOutsideSeparator(segments);
      SplitTrailingSeparator(segments);
      DropEmptyLast(segments);
      assert AsPrefix(j) == j + "/";
    }
  }

  lemma SplitTrailingSeparator(segments: seq<string>)
    requires segments != []
    requires forall i :: 0 <= i < |segments| ==> IsSegment(segments[i])
    ensures Split(Join(segments, '/') + "/", '/') == segments + [""]
  {
    var parts := segments + [""];
    var j := Join(segments, '/');
    assert Join(parts, '/') == j + "/" by {
      JoinSnoc(segments, "", '/');
      assert j + "/" == j + ['/'] + "";
    }
    assert forall i :: 0 <= i < |parts| ==> '/' !in parts[i] by {
      forall i | 0 <= i < |parts| ensures '/' !in parts[i] {
        if i < |segments| {
          assert parts[i] == segments[i];
        } else {
          assert parts[i] == "";
        }
      }
    }
    SplitJoin(parts, '/');
  }

  lemma DropEmptyLast(segments: seq<string>)
    requires forall i :: 0 <= i < |segments| ==> IsSegment(segments[i])
    ensures Filter(segments + [""], NonEmpty) == segments
  {
    FilterAppend(segments, [""], NonEmpty);
    assert Filter([""], NonEmpty) == [];
  }

  /** Joining one more piece puts a separator and the piece at the end. */
  lemma {:induction false} JoinSnoc(parts: seq<string>, x: string, sep: char)
    requires parts != []
    ensures Join(parts + [x], sep) == Join(parts, sep) + [sep] + x
    decreases |parts|
  {
    if |parts| == 1 {
      assert (parts + [x])[1..] == [x];
    } else {
      assert (parts + [x])[1..] == parts[1..] + [x];
      JoinSnoc(parts[1..], x, sep);
      Associative(parts[0] + [sep], Join(parts[1..], sep) + [sep], x);
      Associative(parts[0] + [sep], Join(parts[1..], sep), [sep]);
    }
  }

  /** The text after one leading `/`, if there is one (`.replace(/^\//, '')`). */
  function DropLeadingSlash(s: string): (r: string)
    ensures StartsWith(s, "/") ==> r == s[1..]
    ensures !StartsWith(s, "/") ==> r == s
  {
    if StartsWith(s, "/") then s[1..] else s
  }

  /** `parseS3Path(rawPath)`; `new URL` failing is the parser returning `None`. */
  function ParseS3Path(raw: string): (r: Option<Location>)
    ensures raw == [] ==> r.None?
    ensures r.Some? ==> r.value.keyPrefix == [] || EndsWith(r.value.keyPrefix, "/")
    ensures StartsWith(raw, "s3://") ==> (r.None? <==> Segments(raw[5..]) == [])
    ensures StartsWith(raw, "s3://") && r.Some? ==> r.value.bucket == Segments(raw[5..])[0]
  {
    if raw == [] then None
    else if StartsWith(raw, "s3://") then FromSegments(raw[5..])
    else match Parse(raw)
      case Some(u) =>
        var pathname := DropLeadingSlash(u.pathname);
        Some(Location(Split(Hostname(u.authority), '.')[0], AsPrefix(pathname)))
      case None => FromSegments(raw)
  }

  /**
   * `getTemplateStorageConfig()`: the parsed path and the region, which is
   * `AWS_REGION`, else `AWS_DEFAULT_REGION`, else `us-east-1`.
   */
  function StorageConfig(env: StorageEnv): (r: Option<Storage>)
    ensures r.Some? <==> ParseS3Path(env.s3Path).Some?
    ensures r.Some? ==> ParseS3Path(env.s3Path) == Some(Location(r.value.bucket, r.value.keyPrefix))
    ensures r.Some? ==> r.value.region != []
    ensures r.Some? && env.awsRegion != [] ==> r.value.region == env.awsRegion
    ensures r.Some? && env.awsRegion == [] && env.awsDefaultRegion != [] ==> r.value.region == env.awsDefaultRegion
    ensures r.Some? && env.awsRegion == [] && env.awsDefaultRegion == [] ==> r.value.region == "us-east-1"
  {
    var region :=
      if env.awsRegion != [] then env.awsRegion
      else if env.awsDefaultRegion != [] then env.awsDefaultRegion
      else "us-east-1";
    match ParseS3Path(env.s3Path)
    case None => None
    case Some(loc) => Some(Storage(loc.bucket, loc.keyPrefix, region))
  }

  /** `buildS3BaseUrl({ bucket, region })`: virtual-hosted style, no region label for `us-east-1`. */
  function BuildS3BaseUrl(bucket: string, region: string): (r: string)
    ensures region == [] || region == "us-east-1" ==> r == "https://" + bucket + ".s3.amazonaws.com"
    ensures region != [] && region != "us-east-1" ==> r == "https://" + bucket + ".s3." + region + ".amazonaws.com"
  {
    var normalizedRegion := if region != [] && region != "us-east-1" then "." + region else "";
    "https://" + bucket + ".s3" + normalizedRegion + ".amazonaws.com"
  }

  /** `encodePath(key)`: each `/` segment encoded on its own; `encode` stands for `encodeURIComponent`. */
  function EncodePath(key: string, encode: string -> string): string {
    Join(Map(Split(key, '/'), encode), '/')
  }

  /** The object URL of `fetchFromS3`: base URL, `/`, and the encoded key without one leading `/`. */
  function ObjectUrl(bucket: string, region: string, key: string, encode: string -> string): (r: string)
    ensures StartsWith(r, BuildS3BaseUrl(bucket, region) + "/")
    ensures r[|BuildS3BaseUrl(bucket, region)| + 1..] == EncodePath(DropLeadingSlash(key), encode)
  {
    var prefix := BuildS3BaseUrl(bucket, region) + "/";
    var r := prefix + EncodePath(DropLeadingSlash(key), encode);
    assert r[..|prefix|] == prefix;
    r
  }

  /** The path of an object URL decodes to the key without its one leading `/`. */
  lemma ObjectUrlKey(bucket: string, region: string, key: string, encode: string -> string, decode: string -> string)
    requires forall s :: '/' !in encode(s)
    requires forall s :: decode(encode(s)) == s
    ensures var path := ObjectUrl(bucket, region, key, encode)[|BuildS3BaseUrl(bucket, region)| + 1..];
      Join(Map(Split(path, '/'), decode), '/') == (if StartsWith(key, "/") then key[1..] else key)
  {
    EncodePathDecodes(DropLeadingSlash(key), encode, decode);
  }

  /** The listing filter: keep the keys that end in `.json`, in order. */
  function JsonKeys(keys: seq<string>): (r: seq<string>)
    ensures forall i :: 0 <= i < |r| ==> EndsWith(r[i], ".json")
  {
    Filter(keys, (k: string) => EndsWith(k, ".json"))
  }

  /** A key is listed exactly when it is in the listing and ends in `.json`; the order is kept. */
  lemma JsonKeysExactly(keys: seq<string>, k: string)
    ensures k in JsonKeys(keys) <==> k in keys && EndsWith(k, ".json")
    ensures IsSubsequence(JsonKeys(keys), keys)
  {
    FilterMembership(keys, (k: string) => EndsWith(k, ".json"), k);
    FilterIsSubsequence(keys, (k: string) => EndsWith(k, ".json"));
  }

  /** The upload key `${keyPrefix}${id}.json`. */
  function UploadKey(keyPrefix: string, id: string): (r: string)
    ensures StartsWith(r, keyPrefix) && EndsWith(r, ".json")
  {
    var r := keyPrefix + id + ".json";
    assert r[..|keyPrefix|] == keyPrefix;
    assert r[|r| - 5..] == ".json";
    r
  }

  /**
   * `path.basename(key, '.json')` for a listed key: the last `/` segment without
   * its `.json` ending. Node returns `''` when the whole key is `.json`, but keeps
   * a last segment that is `.json` after a `/` as it is.
   */
  function IdFromKey(key: string): (id: string)
    requires EndsWith(key, ".json")
    ensures '/' !in id
    ensures key == ".json" ==> id == ""
  {
    if key == ".json" then ""
    else
      var base := LastAfter(key, '/');
      if EndsWith(base, ".json") && base != ".json" then base[..|base| - 5] else base
  }

  /** A key whose last segment is `.json` after a `/` is listed under `.json`. */
  lemma DotJsonSegment(dir: string)
    requires dir != [] && dir[|dir| - 1] == '/'
    ensures IdFromKey(dir + ".json") == ".json"
  {
    var key := dir + ".json";
    assert key[|key| - 5..] == ".json";
    assert key != ".json";
    assert '/' !in ".json";
    LastAfterSuffix(dir, ".json", '/');
  }

  /** A template without an id is listed under the id it was uploaded with. */
  lemma {:induction false} IdFromUploadKey(keyPrefix: string, id: string)
    requires id != [] && '/' !in id
    requires keyPrefix == [] || EndsWith(keyPrefix, "/")
    ensures IdFromKey(UploadKey(keyPrefix, id)) == id
  {
    var name := id + ".json";
    assert '/' !in name by {
      assert forall i :: 0 <= i < |name| ==> name[i] == (if i < |id| then id[i] else ".json"[i - |id|]);
    }
    LastAfterSuffix(keyPrefix, name, '/');
    assert UploadKey(keyPrefix, id) == keyPrefix + name;
    assert name[|name| - 5..] == ".json";
    assert name[..|name| - 5] == id;
  }

  lemma {:induction false} LastAfterSuffix(p: string, t: string, c: char)
    requires c !in t
    requires p == [] || p[|p| - 1] == c
    ensures LastAfter(p + t, c) == t
    decreases |t|
  {
    if t == [] {
      assert p + t == p;
    } else {
      var s, t', last := p + t, t[..|t| - 1], t[|t| - 1];
      assert s[|s| - 1] == last && last != c by {
        assert last in t;
      }
      assert s[..|s| - 1] == p + t';
      assert LastAfter(s, c) == LastAfter(p + t', c) + [last];
      LastAfterSuffix(p, t', c);
      assert t == t' + [last];
    }
  }

  // ----- the three input forms -----

  /** A non-empty segment with no `/`. */
  predicate IsSegment(s: string) {
    s != [] && '/' !in s
  }

  lemma {:induction false} JoinLastChar(parts: seq<string>, sep: char)
    requires |parts| >= 1 && parts[|parts| - 1] != []
    ensures var j := Join(parts, sep); j != [] && j[|j| - 1] == parts[|parts| - 1][|parts[|parts| - 1]| - 1]
    decreases |parts|
  {
    if |parts| > 1 {
      JoinLastChar(parts[1..], sep);
    }
  }

  /** `s3://bucket/a/b` gives the bucket and the prefix `a/b/`; `s3://bucket` the empty prefix. */
  lemma S3FormRoundTrip(bucket: string, segments: seq<string>)
    requires IsSegment(bucket)
    requires forall i :: 0 <= i < |segments| ==> IsSegment(segments[i])
    ensures ParseS3Path("s3://" + Join([bucket] + segments, '/'))
         == Some(Location(bucket, if segments == [] then "" else Join(segments, '/') + "/"))
  {
    var parts := [bucket] + segments;
    var raw := "s3://" + Join(parts, '/');
    assert StartsWith(raw, "s3://") && raw[5..] == Join(parts, '/');
    assert Filter(Split(Join(parts, '/'), '/'), NonEmpty) == parts by {
      assert forall i :: 0 <= i < |parts| ==> IsSegment(parts[i]);
      SplitJoin(parts, '/');
    }
    assert parts[1..] == segments;
    if segments != [] {
      JoinEndsOutsideSeparator(segments);
    }
  }

  /** A join of segments does not end in `/`. */
  lemma JoinEndsOutsideSeparator(segments: seq<string>)
    requires segments != []
    requires forall i :: 0 <= i < |segments| ==> IsSegment(segments[i])
    ensures !EndsWith(Join(segments, '/'), "/")
  {
    var last := segments[|segments| - 1];
    assert last[|last| - 1] in last;
    JoinLastChar(segments, '/');
    var j := Join(segments, '/');
    assert j[|j| - 1] != '/';
    assert j[|j| - 1..] == [j[|j| - 1]];
  }

  /** The host name of the bucket base URL. */
  function BaseHost(bucket: string, region: string): string {
    var normalizedRegion := if region != [] && region != "us-east-1" then "." + region else "";
    bucket + "." + ("s3" + normalizedRegion + ".amazonaws.com")
  }

  lemma BaseHostIsPlain(bucket: string, region: string)
    requires IsSegment(bucket)
    requires forall i :: 0 <= i < |bucket| ==> bucket[i] !in {'?', '#', ':', '@'}
    requires forall i :: 0 <= i < |region| ==> region[i] !in {'/', '?', '#', ':', '@'}
    ensures IsPlainHost(BaseHost(bucket, region))
    ensures BuildS3BaseUrl(bucket, region) == "https://" + BaseHost(bucket, region)
  {
    var host := BaseHost(bucket, region);
    forall i | 0 <= i < |host| ensures host[i] !in {'/', '?', '#', ':', '@'} {
      if i < |bucket| {
        assert host[i] == bucket[i];
      } else if i >= |bucket| + 4 && region != [] && region != "us-east-1" && i < |bucket| + 4 + |region| {
        assert host[i] == region[i - |bucket| - 4];
      }
    }
  }

  /** The bucket base URL parses back to its bucket with an empty prefix. */
  lemma BaseUrlRoundTrip(bucket: string, region: string)
    requires IsSegment(bucket) && '.' !in bucket
    requires forall i :: 0 <= i < |bucket| ==> bucket[i] !in {'?', '#', ':', '@'}
    requires forall i :: 0 <= i < |region| ==> region[i] !in {'/', '?', '#', ':', '@'}
    ensures ParseS3Path(BuildS3BaseUrl(bucket, region)) == Some(Location(bucket, ""))
  {
    var host := BaseHost(bucket, region);
    BaseHostIsPlain(bucket, region);
    assert Split(host, '.')[0] == bucket by {
      var rest := "s3" + (if region != [] && region != "us-east-1" then "." + region else "") + ".amazonaws.com";
      assert host == bucket + ['.'] + rest;
      SplitPrefix(bucket, rest, '.');
    }
    ParsePlainHttps(host);
  }

  /** `https://<host>` gives the first label of the host as the bucket and no prefix. */
  lemma ParsePlainHttps(host: string)
    requires IsPlainHost(host)
    ensures ParseS3Path("https://" + host) == Some(Location(Split(host, '.')[0], ""))
  {
    ParseHttpsHost(host);
    PlainHostname(host);
    assert !StartsWith("https://" + host, "s3://") by {
      assert ("https://" + host)[0] == 'h';
    }
    assert DropLeadingSlash("/") == [];
  }

  /** Input without a colon is not a URL, so it is read as `bucket/segments`. */
  lemma BareForm(raw: string)
    requires raw != [] && ':' !in raw
    ensures ParseS3Path(raw) == FromSegments(raw)
  {
    IndexOfAnyAppend(raw, [], {':'});
    assert raw + [] == raw;
    if |raw| >= 5 {
      assert raw[2] != ':';
      assert raw[..5][2] == raw[2];
    }
  }

  /** `https://<host>/<path>` gives the first label of the host as the bucket and the path as the prefix. */
  lemma ParseHttpsPath(host: string, path: string)
    requires IsPlainHost(host)
    requires forall i :: 0 <= i < |path| ==> path[i] !in {'?', '#'}
    ensures ParseS3Path("https://" + host + "/" + path) == Some(Location(Split(host, '.')[0], AsPrefix(path)))
  {
    var raw := "https://" + host + "/" + path;
    ParseHttpsUrl(host, path);
    PlainHostname(host);
    assert !StartsWith(raw, "s3://") by {
      assert raw[0] == 'h';
    }
    assert DropLeadingSlash("/" + path) == path;
  }

  lemma ParseHttpsUrl(host: string, path: string)
    requires IsPlainHost(host)
    requires forall i :: 0 <= i < |path| ==> path[i] !in {'?', '#'}
    ensures Parse("https://" + host + "/" + path) == Some(Url("https", true, host, "/" + path, ""))
  {
    var u := Url("https", true, host, "/" + path, "");
    PlainHostname(host);
    assert WellFormed(u) by {
      assert IsScheme("https");
      forall i | 0 <= i < |u.pathname| ensures u.pathname[i] !in {'?', '#'} {
        if i > 0 {
          assert u.pathname[i] == path[i - 1];
        }
      }
      assert StartsWith(u.pathname, "/");
    }
    ParseToString(u);
    HttpsToString(host, "/" + path);
    assert "https://" + host + ("/" + path) == "https://" + host + "/" + path;
  }

  // ----- object keys -----

  /** With an encoding that never yields `/`, the encoded key has one encoded segment per key segment. */
  lemma EncodePathSegments(key: string, encode: string -> string)
    requires forall s :: '/' !in encode(s)
    ensures Split(EncodePath(key, encode), '/') == Map(Split(key, '/'), encode)
  {
    SplitJoin(Map(Split(key, '/'), encode), '/');
  }

  /** Decoding each segment of the encoded key gives the key back. */
  lemma EncodePathDecodes(key: string, encode: string -> string, decode: string -> string)
    requires forall s :: '/' !in encode(s)
    requires forall s :: decode(encode(s)) == s
    ensures Join(Map(Split(EncodePath(key, encode), '/'), decode), '/') == key
  {
    EncodePathSegments(key, encode);
    var parts := Split(key, '/');
    assert Map(Map(parts, encode), decode) == parts;
    JoinSplit(key, '/');
  }

  // ----- the query string of a request -----

  /** `searchParams.set(k, v)`: the first pair named `k` takes `v` and the others go; otherwise `(k, v)` is appended. */
  function SetParam(ps: seq<(string, string)>, k: string, v: string): (r: seq<(string, string)>)
    ensures (k, v) in r
    ensures forall p :: p in r && p.0 != k ==> p in ps
    ensures forall p :: p in ps && p.0 != k ==> p in r
    ensures (forall i :: 0 <= i < |ps| ==> ps[i].0 != k) ==> r == ps + [(k, v)]
  {
    if ps == [] then [(k, v)]
    else if ps[0].0 == k then
      var others := Filter(ps[1..], (p: (string, string)) => p.0 != k);
      OthersKept(ps[1..], k);
      [(k, v)] + others
    else
      var rest := SetParam(ps[1..], k, v);
      assert ps == [ps[0]] + ps[1..];
      [ps[0]] + rest
  }

  lemma OthersKept(ps: seq<(string, string)>, k: string)
    ensures forall p :: p in Filter(ps, (p: (string, string)) => p.0 != k) <==> p in ps && p.0 != k
  {
    forall p {
      FilterMembership(ps, (p: (string, string)) => p.0 != k, p);
    }
  }

  /** The query pairs after the `forEach` over `Object.entries(queryParams)`, skipping `null` and `undefined`. */
  function QueryFrom(params: seq<(string, Value)>): seq<(string, string)> {
    if params == [] then []
    else
      var prev := QueryFrom(params[..|params| - 1]);
      var (k, v) := params[|params| - 1];
      if v.Undefined? || v.Null? then prev else SetParam(prev, k, ToJsString(v))
  }

  /** Every query name is a property name of the parameters. */
  lemma {:induction false} QueryNames(params: seq<(string, Value)>)
    ensures forall p :: p in QueryFrom(params) ==> p.0 in Keys(params)
    decreases |params|
  {
    if params != [] {
      var init := params[..|params| - 1];
      QueryNames(init);
      assert Keys(params) == Keys(init) + [params[|params| - 1].0];
    }
  }

  /** Fills the search parameters of the request URL, as the loop at server.js:272-274 does. */
  method FillSearchParams(params: seq<(string, Value)>) returns (search: seq<(string, string)>)
    ensures search == QueryFrom(params)
  {
    search := [];
    var i := 0;
    while i < |params|
      invariant 0 <= i <= |params|
      invariant search == QueryFrom(params[..i])
    {
      var (k, v) := params[i];
      assert params[..i + 1][..i] == params[..i];
      if v != Undefined && v != Null {
        search := SetParam(search, k, ToJsString(v));
      }
      i := i + 1;
    }
    assert params[..i] == params;
  }

  predicate Present(p: (string, Value)) {
    !p.1.Undefined? && !p.1.Null?
  }

  function Stringify(p: (string, Value)): (string, string) {
    (p.0, ToJsString(p.1))
  }

  /**
   * For an object (distinct property names) the query holds exactly the present
   * properties, in order, each written with `String(v)`.
   */
  lemma {:induction false} QueryOfObject(params: seq<(string, Value)>)
    requires UniqueKeys(params)
    ensures QueryFrom(params) == Map(Filter(params, Present), Stringify)
    decreases |params|
  {
    if params != [] {
      var init, last := params[..|params| - 1], params[|params| - 1];
      assert params == init + [last];
      assert UniqueKeys(init);
      QueryOfObject(init);
      assert Filter(params, Present) == Filter(init, Present) + (if Present(last) then [last] else []) by {
        FilterAppend(init, [last], Present);
        assert Filter([last], Present) == if Present(last) then [last] else [];
      }
      if Present(last) {
        QueryFreshName(params);
      }
    }
  }

  /** The last property of an object is new to the query built from the others. */
  lemma QueryFreshName(params: seq<(string, Value)>)
    requires params != [] && UniqueKeys(params) && Present(params[|params| - 1])
    ensures QueryFrom(params) == QueryFrom(params[..|params| - 1]) + [Stringify(params[|params| - 1])]
  {
    var init, last := params[..|params| - 1], params[|params| - 1];
    var prev := QueryFrom(init);
    QueryNames(init);
    forall i | 0 <= i < |prev| ensures prev[i].0 != last.0 {
      assert prev[i] in prev;
      var j :| 0 <= j < |init| && Keys(init)[j] == prev[i].0;
      assert params[j] == init[j];
    }
  }
}
