/**
 * `normalizeTemplatePayload` of server.js: the check and clean-up an uploaded
 * template goes through before it is stored. The five required fields must be
 * truthy; then `id`, `tags`, `heroColor`, `credentials` and
 * `estimatedSetupMinutes` are rewritten by an object spread, and every other
 * property passes through.
 */
module TemplatePayload {
  import opened Options
  import opened Seqs
  import opened JsStrings
  import opened JsValues
  import opened Slug

  /** The thrown errors: an empty payload, a missing required field, or a `TypeError`. */
  datatype NormalizeError = EmptyPayload | MissingField(field: string) | TypeError

  const RequiredFields: seq<string> := ["name", "description", "difficulty", "nodes", "connections"]

  /** The properties the spread rewrites, in the order it writes them. */
  const NormalizedKeys: seq<string> := ["id", "tags", "heroColor", "credentials", "estimatedSetupMinutes"]

  const DefaultHeroColor := "linear-gradient(120deg, #c084fc, #60a5fa)"

  /** The position of the first field of `fields` whose value in `t` is falsy; `|fields|` when there is none. */
  function FirstFalsy(t: Value, fields: seq<string>): (i: nat)
    ensures i <= |fields|
    ensures forall j :: 0 <= j < i ==> Truthy(Get(t, fields[j]))
    ensures i < |fields| ==> !Truthy(Get(t, fields[i]))
  {
    if fields == [] then 0
    else if !Truthy(Get(t, fields[0])) then 0
    else 1 + FirstFalsy(t, fields[1..])
  }

  /** `String(tag).trim()`. */
  function TrimmedTag(tag: Value): (r: string)
    ensures Trim(r) == r
  {
    var r := Trim(ToJsString(tag));
    TrimTrimmed(r);
    r
  }

  /** The tags: an array's entries as trimmed text with the empty ones dropped; anything else gives none. */
  function NormalizedTags(tags: Value): (r: seq<string>)
    ensures forall i :: 0 <= i < |r| ==> r[i] != [] && Trim(r[i]) == r[i]
    ensures !tags.Arr? ==> r == []
  {
    if tags.Arr? then
      var trimmed := Map(tags.items, TrimmedTag);
      KeepTrimmed(trimmed);
      Filter(trimmed, NonEmpty)
    else []
  }

  lemma KeepTrimmed(s: seq<string>)
    requires forall i :: 0 <= i < |s| ==> Trim(s[i]) == s[i]
    ensures forall i :: 0 <= i < |Filter(s, NonEmpty)| ==> Trim(Filter(s, NonEmpty)[i]) == Filter(s, NonEmpty)[i]
  {
  }

  /**
   * The tags are exactly the non-empty trimmed renderings of the array's entries,
   * in the array's order.
   */
  lemma TagsAreTrimmedEntries(items: seq<Value>, x: string)
    ensures x in NormalizedTags(Arr(items)) <==> x != [] && exists i :: 0 <= i < |items| && TrimmedTag(items[i]) == x
    ensures IsSubsequence(NormalizedTags(Arr(items)), Map(items, TrimmedTag))
  {
    var m := Map(items, TrimmedTag);
    assert NormalizedTags(Arr(items)) == Filter(m, NonEmpty);
    MapFilterMembership(items, TrimmedTag, NonEmpty, x);
    FilterIsSubsequence(m, NonEmpty);
  }

  function StringValues(ss: seq<string>): (r: seq<Value>)
    ensures |r| == |ss|
    ensures forall i :: 0 <= i < |ss| ==> r[i] == Str(ss[i])
  {
    Map(ss, (s: string) => Str(s))
  }

  /** `credentials?.filter((c) => c) ?? []`; `None` is the `TypeError` of calling a missing `filter`. */
  function NormalizedCredentials(credentials: Value): (r: Option<Value>)
    ensures r.Some? <==> credentials.Undefined? || credentials.Null? || credentials.Arr?
    ensures r.Some? ==> r.value.Arr? && forall i :: 0 <= i < |r.value.items| ==> Truthy(r.value.items[i])
    ensures credentials.Undefined? || credentials.Null? ==> r == Some(Arr([]))
    ensures credentials.Arr? ==> IsSubsequence(r.value.items, credentials.items)
  {
    match credentials
    case Undefined => Some(Arr([]))
    case Null => Some(Arr([]))
    case Arr(items) =>
      FilterIsSubsequence(items, Truthy);
      Some(Arr(Filter(items, Truthy)))
    case _ => None
  }

  /** An array of credentials keeps exactly its truthy entries. */
  lemma CredentialsKeptExactly(items: seq<Value>, x: Value)
    ensures x in NormalizedCredentials(Arr(items)).value.items <==> x in items && Truthy(x)
  {
    FilterMembership(items, Truthy, x);
  }

  /**
   * `Number(v)`: a number is itself; `number` stands for the conversion of every
   * other value, whose string parsing is outside the model.
   */
  function ToNumber(v: Value, number: Value -> Value): Value {
    if v.Num? then v else number(v)
  }

  /** `estimatedSetupMinutes ? Number(estimatedSetupMinutes) : undefined`. */
  function NormalizedMinutes(minutes: Value, number: Value -> Value): (r: Value)
    ensures !Truthy(minutes) ==> r == Undefined
    ensures minutes.Num? && minutes.n != 0 ==> r == minutes
  {
    if Truthy(minutes) then ToNumber(minutes, number) else Undefined
  }

  /**
   * `normalizeTemplatePayload(template)`; `now` is the clock reading a fallback
   * slug would use and `number` the `Number` conversion of non-numbers.
   */
  function Normalize(t: Value, now: nat, number: Value -> Value): (r: Result<Value, NormalizeError>)
    ensures r == Err(EmptyPayload) <==> !Truthy(t) || !(t.Arr? || t.Obj?)
    ensures r.Ok? ==> t.Obj? && r.value.Obj?
    ensures r.Ok? ==> forall i :: 0 <= i < |RequiredFields| ==> Truthy(Get(r.value, RequiredFields[i]))
  {
    if !Truthy(t) || !(t.Arr? || t.Obj?) then Err(EmptyPayload)
    else
      var missing := FirstFalsy(t, RequiredFields);
      if missing < |RequiredFields| then Err(MissingField(RequiredFields[missing]))
      else
        assert Truthy(Get(t, RequiredFields[0]));
        Checked(t, now, number)
  }

  /** The rest of the function once the required fields are present: the spread, or a `TypeError` inside it. */
  function Checked(t: Value, now: nat, number: Value -> Value): (r: Result<Value, NormalizeError>)
    requires t.Obj?
    ensures r.Ok? ==> r.value.Obj? && forall i :: 0 <= i < |RequiredFields| ==> Get(r.value, RequiredFields[i]) == Get(t, RequiredFields[i])
    ensures r.Err? ==> r.error == TypeError
  {
    if !Truthy(Get(t, "id")) && !Get(t, "name").Str? then Err(TypeError)
    else match NormalizedCredentials(Get(t, "credentials"))
      case None => Err(TypeError)
      case Some(credentials) => Ok(Accepted(t, now, number, credentials))
  }

  /** `{ ...template, id, tags, heroColor, credentials, estimatedSetupMinutes }`. */
  function Accepted(t: Value, now: nat, number: Value -> Value, credentials: Value): (r: Value)
    requires t.Obj? && (Truthy(Get(t, "id")) || Get(t, "name").Str?)
    ensures r.Obj? && forall i :: 0 <= i < |RequiredFields| ==> Get(r, RequiredFields[i]) == Get(t, RequiredFields[i])
  {
    var extra := Spread(t, now, number, credentials);
    var o := MergeInto(t.props, extra);
    forall i | 0 <= i < |RequiredFields| ensures Lookup(o, RequiredFields[i]) == Get(t, RequiredFields[i]) {
      SpreadKeepsRequired(t.props, extra, RequiredFields[i]);
    }
    Obj(o)
  }

  /** The five properties written after `...template`, in order. */
  function Spread(t: Value, now: nat, number: Value -> Value, credentials: Value): (extra: seq<(string, Value)>)
    requires Truthy(Get(t, "id")) || Get(t, "name").Str?
    ensures Keys(extra) == NormalizedKeys && UniqueKeys(extra)
  {
    var id := Get(t, "id");
    Entries(
      if Truthy(id) then id else Str(SlugifyName(Get(t, "name").s, now)),
      Arr(StringValues(NormalizedTags(Get(t, "tags")))),
      if Truthy(Get(t, "heroColor")) then Get(t, "heroColor") else Str(DefaultHeroColor),
      credentials,
      NormalizedMinutes(Get(t, "estimatedSetupMinutes"), number))
  }

  function Entries(id: Value, tags: Value, heroColor: Value, credentials: Value, minutes: Value): (extra: seq<(string, Value)>)
    ensures Keys(extra) == NormalizedKeys && UniqueKeys(extra)
    ensures extra == [(NormalizedKeys[0], id), (NormalizedKeys[1], tags), (NormalizedKeys[2], heroColor),
                      (NormalizedKeys[3], credentials), (NormalizedKeys[4], minutes)]
  {
    [("id", id), ("tags", tags), ("heroColor", heroColor), ("credentials", credentials), ("estimatedSetupMinutes", minutes)]
  }

  /** The spread does not touch the required fields. */
  lemma SpreadKeepsRequired(props: seq<(string, Value)>, extra: seq<(string, Value)>, k: string)
    requires Keys(extra) == NormalizedKeys && UniqueKeys(extra)
    requires k in RequiredFields
    ensures Lookup(MergeInto(props, extra), k) == Lookup(props, k)
  {
    assert k !in Keys(extra) by {
      assert k == "name" || k == "description" || k == "difficulty" || k == "nodes" || k == "connections";
    }
    MergeLookup(props, extra, k);
  }

  /** A payload is rejected for a missing field exactly when that field is the first falsy required one. */
  lemma MissingFieldIsFirstFalsy(t: Value, now: nat, number: Value -> Value, f: string)
    ensures Normalize(t, now, number) == Err(MissingField(f)) <==>
      Truthy(t) && (t.Arr? || t.Obj?) &&
      exists i :: 0 <= i < |RequiredFields| && RequiredFields[i] == f && !Truthy(Get(t, f))
        && forall j :: 0 <= j < i ==> Truthy(Get(t, RequiredFields[j]))
  {
    if Truthy(t) && (t.Arr? || t.Obj?) {
      var m := FirstFalsy(t, RequiredFields);
      if i :| 0 <= i < |RequiredFields| && RequiredFields[i] == f && !Truthy(Get(t, f))
             && forall j :: 0 <= j < i ==> Truthy(Get(t, RequiredFields[j])) {
        assert m == i;
      }
    }
  }

  /**
   * With the required fields present, the payload is refused only by a `TypeError`:
   * no usable `id` and a non-string `name` to slugify, or `credentials` that is
   * neither missing nor an array.
   */
  lemma TypeErrorExactly(t: Value, now: nat, number: Value -> Value)
    ensures Normalize(t, now, number) == Err(TypeError) <==>
      t.Obj? && (forall i :: 0 <= i < |RequiredFields| ==> Truthy(Get(t, RequiredFields[i])))
      && ((!Truthy(Get(t, "id")) && !Get(t, "name").Str?) || NormalizedCredentials(Get(t, "credentials")).None?)
  {
    if t.Obj? && forall i :: 0 <= i < |RequiredFields| ==> Truthy(Get(t, RequiredFields[i])) {
      var m := FirstFalsy(t, RequiredFields);
      assert m == |RequiredFields|;
    }
  }

  /**
   * What an accepted payload holds: an `id` (the given one when truthy, else the
   * slug of the name), the cleaned tags, a hero colour (the default when none is
   * given), only truthy credentials, the converted minutes; every other property
   * reads as before, and the original properties keep their order in front.
   */
  lemma NormalizedFields(t: Value, now: nat, number: Value -> Value)
    requires Normalize(t, now, number).Ok?
    ensures var r := Normalize(t, now, number).value;
      && Get(r, "id") == (if Truthy(Get(t, "id")) then Get(t, "id") else Str(SlugifyName(Get(t, "name").s, now)))
      && Truthy(Get(r, "id"))
      && Get(r, "tags") == Arr(StringValues(NormalizedTags(Get(t, "tags"))))
      && Get(r, "heroColor") == (if Truthy(Get(t, "heroColor")) then Get(t, "heroColor") else Str(DefaultHeroColor))
      && Truthy(Get(r, "heroColor"))
      && Get(r, "credentials") == NormalizedCredentials(Get(t, "credentials")).value
      && Get(r, "estimatedSetupMinutes") == NormalizedMinutes(Get(t, "estimatedSetupMinutes"), number)
      && (forall k :: k !in NormalizedKeys ==> Get(r, k) == Get(t, k))
      && (forall k :: k in NormalizedKeys ==> k in Keys(r.props))
      && |r.props| >= |t.props| && Keys(r.props)[..|t.props|] == Keys(t.props)
      && (UniqueKeys(t.props) ==> UniqueKeys(r.props))
  {
    var credentials := NormalizedCredentials(Get(t, "credentials")).value;
    assert Normalize(t, now, number) == Ok(Accepted(t, now, number, credentials)) by {
      assert FirstFalsy(t, RequiredFields) == |RequiredFields|;
      NormalizeChecks(t, now, number);
    }
    AcceptedFields(t, now, number, credentials);
  }

  lemma AcceptedFields(t: Value, now: nat, number: Value -> Value, credentials: Value)
    requires t.Obj? && (Truthy(Get(t, "id")) || Get(t, "name").Str?)
    ensures var r := Accepted(t, now, number, credentials);
      && Get(r, "id") == (if Truthy(Get(t, "id")) then Get(t, "id") else Str(SlugifyName(Get(t, "name").s, now)))
      && Truthy(Get(r, "id"))
      && Get(r, "tags") == Arr(StringValues(NormalizedTags(Get(t, "tags"))))
      && Get(r, "heroColor") == (if Truthy(Get(t, "heroColor")) then Get(t, "heroColor") else Str(DefaultHeroColor))
      && Truthy(Get(r, "heroColor"))
      && Get(r, "credentials") == credentials
      && Get(r, "estimatedSetupMinutes") == NormalizedMinutes(Get(t, "estimatedSetupMinutes"), number)
      && (forall k :: k !in NormalizedKeys ==> Get(r, k) == Get(t, k))
      && (forall k :: k in NormalizedKeys ==> k in Keys(r.props))
      && |r.props| >= |t.props| && Keys(r.props)[..|t.props|] == Keys(t.props)
      && (UniqueKeys(t.props) ==> UniqueKeys(r.props))
  {
    var extra := Spread(t, now, number, credentials);
    var r := Accepted(t, now, number, credentials);
    assert r.props == MergeInto(t.props, extra);
    forall k ensures Get(r, k) == (if k in NormalizedKeys then Lookup(extra, k) else Get(t, k))
                 && (k in NormalizedKeys ==> k in Keys(r.props)) {
      MergeLookup(t.props, extra, k);
      if k in NormalizedKeys {
        MergeHasKeys(t.props, extra, k);
      }
    }
    EntriesLookup(extra);
    MergeGrows(t.props, extra);
    if UniqueKeys(t.props) {
      MergeUnique(t.props, extra);
    }
  }

  /** Reading the five entries back by name. */
  lemma EntriesLookup(extra: seq<(string, Value)>)
    requires Keys(extra) == NormalizedKeys
    ensures forall i :: 0 <= i < |NormalizedKeys| ==> Lookup(extra, NormalizedKeys[i]) == extra[i].1
  {
    forall i | 0 <= i < |NormalizedKeys| ensures Lookup(extra, NormalizedKeys[i]) == extra[i].1 {
      LookupUnique(extra, i);
    }
  }

  /** `tags` holds trimmed, non-empty text: normalising it again leaves it as it is. */
  lemma TagsStable(ts: seq<string>)
    requires forall i :: 0 <= i < |ts| ==> ts[i] != [] && Trim(ts[i]) == ts[i]
    ensures NormalizedTags(Arr(StringValues(ts))) == ts
  {
    var m := Map(StringValues(ts), TrimmedTag);
    assert m == ts by {
      forall i | 0 <= i < |ts| ensures m[i] == ts[i] {
        assert ToJsString(Str(ts[i])) == ts[i];
      }
    }
  }

  /** A payload that passes every check is the spread of the five normalised properties over it. */
  lemma NormalizeAccepts(t: Value, now: nat, number: Value -> Value)
    requires t.Obj? && forall i :: 0 <= i < |RequiredFields| ==> Truthy(Get(t, RequiredFields[i]))
    requires Truthy(Get(t, "id")) || Get(t, "name").Str?
    requires NormalizedCredentials(Get(t, "credentials")).Some?
    ensures Normalize(t, now, number) == Ok(Accepted(t, now, number, NormalizedCredentials(Get(t, "credentials")).value))
  {
    assert FirstFalsy(t, RequiredFields) == |RequiredFields|;
    NormalizeChecks(t, now, number);
  }

  lemma NormalizeChecks(t: Value, now: nat, number: Value -> Value)
    requires t.Obj? && FirstFalsy(t, RequiredFields) == |RequiredFields|
    ensures Normalize(t, now, number) == Checked(t, now, number)
  {
  }

  /** Credentials that are already an array of truthy entries come back unchanged. */
  lemma CredentialsStable(c: Value)
    requires c.Arr? && forall i :: 0 <= i < |c.items| ==> Truthy(c.items[i])
    ensures NormalizedCredentials(c) == Some(c)
  {
  }

  /**
   * Normalising a normalised payload changes nothing, as long as the minutes did
   * not come out as 0 (or as a non-number) the first time.
   */
  lemma NormalizeIdempotent(t: Value, now: nat, later: nat, number: Value -> Value)
    requires Normalize(t, now, number).Ok?
    requires var m := NormalizedMinutes(Get(t, "estimatedSetupMinutes"), number); m == Undefined || (m.Num? && m.n != 0)
    ensures Normalize(Normalize(t, now, number).value, later, number) == Normalize(t, now, number)
  {
    var r := Normalize(t, now, number).value;
    var c := Get(r, "credentials");
    SecondPassInputs(t, now, number);
    assert Normalize(r, later, number) == Ok(Accepted(r, later, number, c)) by {
      NormalizeAccepts(r, later, number);
    }
    SpreadSame(r, later, number, c);
  }

  /** What the second pass reads from a normalised payload is already in normal form. */
  lemma SecondPassInputs(t: Value, now: nat, number: Value -> Value)
    requires Normalize(t, now, number).Ok?
    requires var m := NormalizedMinutes(Get(t, "estimatedSetupMinutes"), number); m == Undefined || (m.Num? && m.n != 0)
    ensures var r := Normalize(t, now, number).value;
      && r.Obj? && (forall i :: 0 <= i < |RequiredFields| ==> Truthy(Get(r, RequiredFields[i])))
      && Truthy(Get(r, "id")) && Truthy(Get(r, "heroColor"))
      && NormalizedCredentials(Get(r, "credentials")) == Some(Get(r, "credentials"))
      && Get(r, "tags") == Arr(StringValues(NormalizedTags(Get(r, "tags"))))
      && NormalizedMinutes(Get(r, "estimatedSetupMinutes"), number) == Get(r, "estimatedSetupMinutes")
      && (forall k :: k in NormalizedKeys ==> k in Keys(r.props))
  {
    SecondPassFields(t, now, number);
    SecondPassLists(t, now, number);
  }

  lemma SecondPassFields(t: Value, now: nat, number: Value -> Value)
    requires Normalize(t, now, number).Ok?
    requires var m := NormalizedMinutes(Get(t, "estimatedSetupMinutes"), number); m == Undefined || (m.Num? && m.n != 0)
    ensures var r := Normalize(t, now, number).value;
      && Truthy(Get(r, "id")) && Truthy(Get(r, "heroColor"))
      && NormalizedMinutes(Get(r, "estimatedSetupMinutes"), number) == Get(r, "estimatedSetupMinutes")
      && (forall k :: k in NormalizedKeys ==> k in Keys(r.props))
  {
    NormalizedFields(t, now, number);
  }

  lemma SecondPassLists(t: Value, now: nat, number: Value -> Value)
    requires Normalize(t, now, number).Ok?
    ensures var r := Normalize(t, now, number).value;
      && NormalizedCredentials(Get(r, "credentials")) == Some(Get(r, "credentials"))
      && Get(r, "tags") == Arr(StringValues(NormalizedTags(Get(r, "tags"))))
  {
    var r := Normalize(t, now, number).value;
    NormalizedFields(t, now, number);
    var c := Get(r, "credentials");
    assert NormalizedCredentials(c) == Some(c) by {
      assert c == NormalizedCredentials(Get(t, "credentials")).value;
      CredentialsStable(c);
    }
    assert Get(r, "tags") == Arr(StringValues(NormalizedTags(Get(r, "tags")))) by {
      TagsStable(NormalizedTags(Get(t, "tags")));
    }
  }

  /** The spread writes back exactly what a normalised payload already holds. */
  lemma SpreadSame(r: Value, now: nat, number: Value -> Value, c: Value)
    requires r.Obj? && Truthy(Get(r, "id")) && Truthy(Get(r, "heroColor")) && Get(r, "credentials") == c
    requires Get(r, "tags") == Arr(StringValues(NormalizedTags(Get(r, "tags"))))
    requires NormalizedMinutes(Get(r, "estimatedSetupMinutes"), number) == Get(r, "estimatedSetupMinutes")
    requires forall k :: k in NormalizedKeys ==> k in Keys(r.props)
    ensures MergeInto(r.props, Spread(r, now, number, c)) == r.props
  {
    var extra := Spread(r, now, number, c);
    assert extra == [("id", Get(r, "id")), ("tags", Get(r, "tags")), ("heroColor", Get(r, "heroColor")),
                     ("credentials", c), ("estimatedSetupMinutes", Get(r, "estimatedSetupMinutes"))];
    forall i | 0 <= i < |extra| ensures extra[i].0 in Keys(r.props) && Lookup(r.props, extra[i].0) == extra[i].1 {
      assert extra[i].0 == NormalizedKeys[i];
      if i == 0 {
      } else if i == 1 {
      } else if i == 2 {
      } else if i == 3 {
      } else {
        assert i == 4;
      }
    }
    MergeSame(r.props, extra);
  }

  /**
   * Minutes that convert to 0 (such as the text `"0"`) survive the first pass as 0
   * and are dropped to `undefined` by the second, so normalising twice differs.
   */
  lemma ZeroMinutesNotIdempotent(t: Value, now: nat, later: nat, number: Value -> Value)
    requires Normalize(t, now, number).Ok?
    requires NormalizedMinutes(Get(t, "estimatedSetupMinutes"), number) == Num(0)
    ensures var r := Normalize(t, now, number).value;
      Normalize(r, later, number).Ok? && Get(Normalize(r, later, number).value, "estimatedSetupMinutes") == Undefined
      && Normalize(r, later, number) != Normalize(t, now, number)
  {
    var r := Normalize(t, now, number).value;
    var c := Get(r, "credentials");
    assert r.Obj? && Get(r, "estimatedSetupMinutes") == Num(0) && Truthy(Get(r, "id"))
        && forall i :: 0 <= i < |RequiredFields| ==> Truthy(Get(r, RequiredFields[i])) by {
      NormalizedFields(t, now, number);
    }
    assert NormalizedCredentials(c) == Some(c) by {
      SecondPassLists(t, now, number);
    }
    assert Normalize(r, later, number) == Ok(Accepted(r, later, number, c)) by {
      NormalizeAccepts(r, later, number);
    }
    assert Get(Accepted(r, later, number, c), "estimatedSetupMinutes") == Undefined by {
      AcceptedFields(r, later, number, c);
    }
  }
}
