/**
 * Template identifiers derived from names: `slugifyName` in server.js and
 * `slugify` in src/utils/slugify.ts. Both lower-case the name, turn every run of
 * characters outside `[a-z0-9가-힣]` into one hyphen, strip hyphens at either end,
 * cut to 80 characters and fall back to `template-<ms>` when nothing is left;
 * the client also trims whitespace first.
 */
module Slug {
  import opened JsStrings
  import opened Seqs

  const MaxSlugLength: nat := 80

  /** The characters the regular expression `[a-z0-9가-힣]` keeps. */
  predicate IsSlugChar(c: char) {
    ('a' <= c <= 'z') || ('0' <= c <= '9') || ('가' <= c <= '힣')
  }

  predicate SlugChars(s: string) {
    forall i :: 0 <= i < |s| ==> IsSlugChar(s[i]) || s[i] == '-'
  }

  predicate NoDoubleHyphen(s: string) {
    forall i :: 0 <= i < |s| - 1 ==> !(s[i] == '-' && s[i + 1] == '-')
  }

  predicate AllHyphens(s: string) {
    forall i :: 0 <= i < |s| ==> s[i] == '-'
  }

  predicate NoSlugChars(s: string) {
    forall i :: 0 <= i < |s| ==> !IsSlugChar(s[i])
  }

  /**
   * `.replace(/[^a-z0-9가-힣]+/g, '-')`: each maximal run of other characters becomes
   * a single hyphen. `inRun` says that the character before `s` was already replaced.
   */
  function CollapseRuns(s: string, inRun: bool): (r: string)
    ensures |r| <= |s|
    ensures inRun && r != [] ==> r[0] != '-'
  {
    if s == [] then []
    else if IsSlugChar(s[0]) then [s[0]] + CollapseRuns(s[1..], false)
    else if inRun then CollapseRuns(s[1..], true)
    else ['-'] + CollapseRuns(s[1..], true)
  }

  /** The collapsed text holds only slug characters and hyphens, never two hyphens in a row. */
  lemma {:induction false} CollapseShape(s: string, inRun: bool)
    ensures var r := CollapseRuns(s, inRun); SlugChars(r) && NoDoubleHyphen(r)
    decreases |s|
  {
    if s != [] {
      var next := !IsSlugChar(s[0]);
      CollapseShape(s[1..], next);
    }
  }

  /** `.replace(/^-+/, '')`. */
  function StripLeading(s: string): (r: string)
    ensures |r| <= |s| && r == s[|s| - |r|..]
    ensures r == [] || r[0] != '-'
    ensures AllHyphens(s[..|s| - |r|])
  {
    if s != [] && s[0] == '-' then
      var r := StripLeading(s[1..]);
      assert s[..|s| - |r|] == ['-'] + s[1..][..|s| - 1 - |r|];
      r
    else s
  }

  /** `.replace(/-+$/, '')`. */
  function StripTrailing(s: string): (r: string)
    ensures |r| <= |s| && r == s[..|r|]
    ensures r == [] || r[|r| - 1] != '-'
    ensures AllHyphens(s[|r|..])
  {
    if s != [] && s[|s| - 1] == '-' then
      var r := StripTrailing(s[..|s| - 1]);
      assert s[|r|..] == s[..|s| - 1][|r|..] + ['-'];
      r
    else s
  }

  /** `.replace(/^-+|-+$/g, '')`. */
  function StripHyphens(s: string): (r: string)
    ensures r == [] || (r[0] != '-' && r[|r| - 1] != '-')
  {
    var lead := StripLeading(s);
    var r := StripTrailing(lead);
    assert r == [] || r[0] == lead[0];
    r
  }

  lemma StripHyphensShape(s: string)
    requires SlugChars(s) && NoDoubleHyphen(s)
    ensures SlugChars(StripHyphens(s)) && NoDoubleHyphen(StripHyphens(s))
  {
    var lead := StripLeading(s);
    SliceKeepsShape(s, |s| - |lead|, |s|);
    SliceKeepsShape(lead, 0, |StripTrailing(lead)|);
  }

  /** `.slice(0, n)`. */
  function Take(s: string, n: nat): (r: string)
    ensures |r| <= n && |r| <= |s|
    ensures |s| <= n ==> r == s
  {
    if |s| <= n then s else s[..n]
  }

  /** The chain shared by both implementations once the input is lower-cased (and, on the client, trimmed). */
  function SlugCore(lowered: string): (r: string)
    ensures |r| <= MaxSlugLength
    ensures r == [] || r[0] != '-'
  {
    var stripped := StripHyphens(CollapseRuns(lowered, false));
    var r := Take(stripped, MaxSlugLength);
    assert r == [] || r[0] == stripped[0];
    r
  }

  /** The slug holds only slug characters and hyphens, never two hyphens in a row. */
  lemma SlugCoreShape(lowered: string)
    ensures SlugChars(SlugCore(lowered)) && NoDoubleHyphen(SlugCore(lowered))
  {
    var collapsed := CollapseRuns(lowered, false);
    CollapseShape(lowered, false);
    StripHyphensShape(collapsed);
    var stripped := StripHyphens(collapsed);
    SliceKeepsShape(stripped, 0, |SlugCore(lowered)|);
  }

  /** A slice keeps the character set and the absence of `--`. */
  lemma SliceKeepsShape(s: string, i: nat, j: nat)
    requires i <= j <= |s|
    ensures SlugChars(s) && NoDoubleHyphen(s) ==> SlugChars(s[i..j]) && NoDoubleHyphen(s[i..j])
  {
    var t := s[i..j];
    if NoDoubleHyphen(s) {
      forall k | 0 <= k < |t| - 1 ensures !(t[k] == '-' && t[k + 1] == '-') {
        assert t[k] == s[i + k] && t[k + 1] == s[i + k + 1];
      }
    }
  }

  /** `template-${Date.now()}`. */
  function FallbackSlug(now: nat): (r: string)
    ensures StartsWith(r, "template-")
  {
    "template-" + DecimalString(now)
  }

  /** `slugifyName` of server.js. */
  function SlugifyName(value: string, now: nat): (r: string)
    ensures r != []
  {
    var slug := SlugCore(ToLower(value));
    if slug != [] then slug else FallbackSlug(now)
  }

  /** `slugify` of src/utils/slugify.ts. */
  function Slugify(value: string, now: nat): (r: string)
    ensures r != []
  {
    var slug := SlugCore(Trim(ToLower(value)));
    if slug != [] then slug else FallbackSlug(now)
  }

  /** What a slug looks like: what the chain keeps, single inner hyphens, none at the ends, at most 80 characters. */
  predicate IsSlug(s: string) {
    && s != []
    && |s| <= MaxSlugLength
    && SlugChars(s)
    && NoDoubleHyphen(s)
    && s[0] != '-'
    && s[|s| - 1] != '-'
  }

  /**
   * A result that is not the fallback has at most 80 characters, all from
   * `[a-z0-9가-힣]` or `-`, does not start with `-` and has no `--`.
   */
  lemma SlugifyNameShape(value: string, now: nat)
    ensures var r := SlugifyName(value, now);
      r == FallbackSlug(now) ||
      (|r| <= MaxSlugLength && SlugChars(r) && NoDoubleHyphen(r) && r[0] != '-')
  {
    SlugCoreShape(ToLower(value));
  }

  // ----- the client and the server agree -----

  lemma {:induction false} CollapseAppend(x: string, y: string, inRun: bool)
    ensures CollapseRuns(x + y, inRun)
      == CollapseRuns(x, inRun) + CollapseRuns(y, if x == [] then inRun else !IsSlugChar(x[|x| - 1]))
    decreases |x|
  {
    if x == [] {
      assert x + y == y;
    } else {
      assert (x + y)[0] == x[0];
      assert (x + y)[1..] == x[1..] + y;
      var next := if IsSlugChar(x[0]) then false else true;
      var head := if IsSlugChar(x[0]) then [x[0]] else if inRun then [] else ['-'];
      assert CollapseRuns(x + y, inRun) == head + CollapseRuns(x[1..] + y, next);
      assert CollapseRuns(x, inRun) == head + CollapseRuns(x[1..], next);
      CollapseAppend(x[1..], y, next);
      Associative(head, CollapseRuns(x[1..], next), CollapseRuns(y, if x[1..] == [] then next else !IsSlugChar(x[|x| - 1])));
      if x[1..] != [] {
        assert x[1..][|x[1..]| - 1] == x[|x| - 1];
      }
    }
  }

  /** A run of replaced characters contributes at most one hyphen. */
  lemma {:induction false} CollapseNonSlug(w: string, inRun: bool)
    requires NoSlugChars(w)
    ensures CollapseRuns(w, inRun) == if w != [] && !inRun then "-" else ""
    decreases |w|
  {
    if w != [] {
      CollapseNonSlug(w[1..], true);
    }
  }

  /** Starting outside a run can only add one leading hyphen. */
  lemma CollapseFlag(y: string)
    ensures CollapseRuns(y, false) == (if y != [] && !IsSlugChar(y[0]) then "-" else "") + CollapseRuns(y, true)
  {
  }

  lemma {:induction false} StripLeadingHyphens(p: string, s: string)
    requires AllHyphens(p)
    ensures StripLeading(p + s) == StripLeading(s)
    decreases |p|
  {
    if p == [] {
      assert p + s == s;
    } else {
      assert (p + s)[1..] == p[1..] + s;
      StripLeadingHyphens(p[1..], s);
    }
  }

  lemma {:induction false} StripTrailingHyphens(s: string, q: string)
    requires AllHyphens(q)
    ensures StripTrailing(s + q) == StripTrailing(s)
    decreases |q|
  {
    if q == [] {
      assert s + q == s;
    } else {
      var q' := q[..|q| - 1];
      assert (s + q)[..|s + q| - 1] == s + q';
      StripTrailingHyphens(s, q');
    }
  }

  lemma {:induction false} StripLeadingAppend(c: string, q: string)
    requires AllHyphens(q)
    ensures StripLeading(c + q) == if AllHyphens(c) then "" else StripLeading(c) + q
    decreases |c|
  {
    if c == [] {
      assert c + q == q;
      StripLeadingHyphens(q, "");
      assert q + "" == q;
    } else if c[0] == '-' {
      assert (c + q)[0] == '-';
      assert (c + q)[1..] == c[1..] + q;
      StripLeadingAppend(c[1..], q);
      AllHyphensTail(c);
    } else {
      assert (c + q)[0] == c[0];
    }
  }

  lemma AllHyphensTail(c: string)
    requires c != [] && c[0] == '-'
    ensures AllHyphens(c) <==> AllHyphens(c[1..])
  {
    if AllHyphens(c[1..]) {
      forall i | 0 < i < |c| ensures c[i] == '-' {
        assert c[i] == c[1..][i - 1];
      }
    }
  }

  /** Hyphens around the collapsed text disappear in the strip step. */
  lemma StripIgnoresEdges(p: string, c: string, q: string)
    requires AllHyphens(p) && AllHyphens(q)
    ensures StripHyphens(p + c + q) == StripHyphens(c)
  {
    assert p + c + q == p + (c + q);
    StripLeadingHyphens(p, c + q);
    StripLeadingAppend(c, q);
    if !AllHyphens(c) {
      StripTrailingHyphens(StripLeading(c), q);
    } else {
      StripLeadingAppend(c, "");
      assert c + "" == c;
    }
  }

  /** Characters outside `[a-z0-9가-힣]` at either end do not change the slug. */
  lemma SlugCoreIgnoresEdges(w1: string, m: string, w2: string)
    requires NoSlugChars(w1) && NoSlugChars(w2)
    ensures SlugCore(w1 + m + w2) == SlugCore(m)
  {
    StripCollapseIgnoresEdges(w1, m, w2);
  }

  lemma StripCollapseIgnoresEdges(w1: string, m: string, w2: string)
    requires NoSlugChars(w1) && NoSlugChars(w2)
    ensures StripHyphens(CollapseRuns(w1 + m + w2, false)) == StripHyphens(CollapseRuns(m, false))
  {
    var lead, c, tail, p0 := CollapseAroundEdges(w1, m, w2);
    assert StripHyphens(CollapseRuns(w1 + m + w2, false)) == StripHyphens(c) by {
      StripIgnoresEdges(lead, c, tail);
    }
    assert StripHyphens(CollapseRuns(m, false)) == StripHyphens(c) by {
      StripIgnoresEdges(p0, c, "");
      assert p0 + c + "" == p0 + c;
    }
  }

  /**
   * Collapsing `w1 + m + w2` gives the collapse of `m` with its optional leading
   * hyphen `p0` and the hyphens of the edges around it.
   */
  lemma CollapseAroundEdges(w1: string, m: string, w2: string) returns (lead: string, c: string, tail: string, p0: string)
    requires NoSlugChars(w1) && NoSlugChars(w2)
    ensures AllHyphens(lead) && AllHyphens(tail) && AllHyphens(p0)
    ensures CollapseRuns(w1 + m + w2, false) == lead + c + tail
    ensures CollapseRuns(m, false) == p0 + c
  {
    var b1 := w1 != [];
    var h1 := if b1 then "-" else "";
    var b2 := if m == [] then b1 else !IsSlugChar(m[|m| - 1]);
    tail := CollapseRuns(w2, b2);
    CollapseTwoEdges(w1, m, w2);
    c := CollapseRuns(m, true);
    p0 := if m != [] && !IsSlugChar(m[0]) then "-" else "";
    lead := if b1 then "-" else p0;
    CollapseFlag(m);
    CollapseNonSlug(w2, b2);
    if b1 {
      Associative(h1, CollapseRuns(m, b1), tail);
    } else {
      Associative(p0, c, tail);
    }
  }

  lemma CollapseTwoEdges(w1: string, m: string, w2: string)
    requires NoSlugChars(w1) && NoSlugChars(w2)
    ensures var b1 := w1 != [];
      var b2 := if m == [] then b1 else !IsSlugChar(m[|m| - 1]);
      CollapseRuns(w1 + m + w2, false) == (if b1 then "-" else "") + CollapseRuns(m, b1) + CollapseRuns(w2, b2)
  {
    var b1 := w1 != [];
    assert w1 + m + w2 == w1 + (m + w2);
    CollapseAppend(w1, m + w2, false);
    assert w1 != [] ==> !IsSlugChar(w1[|w1| - 1]);
    CollapseNonSlug(w1, false);
    CollapseAppend(m, w2, b1);
    var b2 := if m == [] then b1 else !IsSlugChar(m[|m| - 1]);
    Associative(if b1 then "-" else "", CollapseRuns(m, b1), CollapseRuns(w2, b2));
  }

  lemma WhitespaceIsNotSlug(s: string)
    requires forall i :: 0 <= i < |s| ==> IsWhitespace(s[i])
    ensures NoSlugChars(s)
  {
  }

  /** The client's extra `trim` changes nothing: both functions give the same identifier. */
  lemma SlugifyAgreesWithServer(value: string, now: nat)
    ensures Slugify(value, now) == SlugifyName(value, now)
  {
    SlugCoreIgnoresTrim(ToLower(value));
  }

  lemma SlugCoreIgnoresTrim(l: string)
    ensures SlugCore(Trim(l)) == SlugCore(l)
  {
    var w1, w2 := TrimEdges(l);
    SlugCoreIgnoresEdges(w1, Trim(l), w2);
  }

  /** What `trim` removes from either end holds no slug character. */
  lemma TrimEdges(l: string) returns (w1: string, w2: string)
    ensures l == w1 + Trim(l) + w2 && NoSlugChars(w1) && NoSlugChars(w2)
  {
    var m := Trim(l);
    var a := TrimLead(l);
    w1, w2 := l[..a], l[a + |m|..];
    SplitThree(l, a, a + |m|);
    WhitespaceIsNotSlug(w1);
    WhitespaceIsNotSlug(w2);
  }

  lemma SplitThree(l: string, a: nat, b: nat)
    requires a <= b <= |l|
    ensures l == l[..a] + l[a..b] + l[b..]
  {
    assert l[..b] == l[..a] + l[a..b];
  }

  // ----- slugs are fixed points -----

  lemma {:induction false} CollapseKeepsSlug(s: string, inRun: bool)
    requires SlugChars(s) && NoDoubleHyphen(s)
    requires inRun ==> s == [] || s[0] != '-'
    ensures CollapseRuns(s, inRun) == s
    decreases |s|
  {
    if s != [] {
      CollapseKeepsSlug(s[1..], !IsSlugChar(s[0]));
    }
  }

  /** An input that already is a slug comes back unchanged from both functions. */
  lemma SlugIsFixedPoint(s: string, now: nat)
    requires IsSlug(s)
    ensures SlugifyName(s, now) == s && Slugify(s, now) == s
  {
    assert ToLower(s) == s;
    CollapseKeepsSlug(s, false);
    assert Trim(s) == s by {
      assert !IsWhitespace(s[0]) && !IsWhitespace(s[|s| - 1]);
    }
  }

  /**
   * The 80-character cut happens after the strip, so a hyphen can end the result:
   * 79 slug characters, a space and one more character give the 79 characters and `-`.
   */
  lemma TrailingHyphenSurvivesCut(x: string, tail: char, now: nat)
    requires |x| == MaxSlugLength - 1 && forall i :: 0 <= i < |x| ==> IsSlugChar(x[i])
    requires IsSlugChar(tail)
    ensures SlugifyName(x + " " + [tail], now) == x + "-"
    ensures !IsSlug(SlugifyName(x + " " + [tail], now))
  {
    var c := x + "-" + [tail];
    assert ToLower(x + " " + [tail]) == x + " " + [tail];
    assert CollapseRuns(x + " " + [tail], false) == c by {
      CollapseSlugThenSpace(x, tail);
    }
    assert StripHyphens(c) == c by {
      assert c[0] == x[0] && c[|c| - 1] == tail;
    }
    assert Take(c, MaxSlugLength) == x + "-";
  }

  /** Collapsing slug characters, a space and one more slug character turns the space into `-`. */
  lemma CollapseSlugThenSpace(x: string, tail: char)
    requires forall i :: 0 <= i < |x| ==> IsSlugChar(x[i])
    requires IsSlugChar(tail)
    ensures CollapseRuns(x + " " + [tail], false) == x + "-" + [tail]
  {
    var rest := " " + [tail];
    Associative(x, " ", [tail]);
    CollapseAppend(x, rest, false);
    CollapseKeepsSlug(x, false);
    assert x != [] ==> !!IsSlugChar(x[|x| - 1]);
    assert CollapseRuns(rest, false) == "-" + [tail] by {
      assert rest[0] == ' ' && rest[1..] == [tail];
      assert CollapseRuns([tail], true) == [tail];
    }
    Associative(x, "-", [tail]);
  }

  /** For a clock reading of at most 71 digits the fallback is itself a slug. */
  lemma FallbackIsSlug(now: nat)
    requires |DecimalString(now)| <= MaxSlugLength - 9
    ensures IsSlug(FallbackSlug(now))
  {
    var r := FallbackSlug(now);
    assert r[..9] == "template-";
    forall i | 0 <= i < |r| ensures IsSlugChar(r[i]) || r[i] == '-' {
      if i >= 9 {
        assert r[i] == DecimalString(now)[i - 9];
      }
    }
    forall i | 0 <= i < |r| - 1 ensures !(r[i] == '-' && r[i + 1] == '-') {
      if i >= 8 {
        assert r[i + 1] == DecimalString(now)[i - 8];
      }
    }
  }

  /**
   * Slugifying a result again changes it only when the cut left a trailing hyphen;
   * the fallback is kept for clock readings of at most 71 digits.
   */
  lemma SlugifyNameStable(value: string, now: nat, later: nat)
    requires |DecimalString(now)| <= MaxSlugLength - 9
    ensures var r := SlugifyName(value, now);
      r[|r| - 1] != '-' ==> SlugifyName(r, later) == r
  {
    var r := SlugifyName(value, now);
    SlugCoreShape(ToLower(value));
    if r == FallbackSlug(now) {
      FallbackIsSlug(now);
    }
    if r[|r| - 1] != '-' {
      SlugIsFixedPoint(r, later);
    }
  }
}
