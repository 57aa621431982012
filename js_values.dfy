/**
 * JSON-shaped JavaScript values, as the server receives them from `express.json()`
 * and the client from `JSON.parse`, plus `undefined`, which object spreads can hold.
 * Numbers are integers: floating point and NaN are outside the model.
 */
module JsValues {
  import opened JsStrings

  datatype Value =
    | Undefined
    | Null
    | Bool(b: bool)
    | Num(n: int)
    | Str(s: string)
    | Arr(items: seq<Value>)
    | Obj(props: seq<(string, Value)>)

  /** JavaScript truthiness (`!!v`); arrays and objects are truthy even when empty. */
  predicate Truthy(v: Value) {
    match v
    case Undefined => false
    case Null => false
    case Bool(b) => b
    case Num(n) => n != 0
    case Str(s) => s != ""
    case Arr(_) => true
    case Obj(_) => true
  }

  /** The property names of an object, in insertion order. */
  function Keys(props: seq<(string, Value)>): (ks: seq<string>)
    ensures |ks| == |props|
    ensures forall i :: 0 <= i < |props| ==> ks[i] == props[i].0
  {
    seq(|props|, i requires 0 <= i < |props| => props[i].0)
  }

  /** An object has each property at most once. */
  predicate UniqueKeys(props: seq<(string, Value)>) {
    forall i, j :: 0 <= i < j < |props| ==> props[i].0 != props[j].0
  }

  /** Reading `o[k]`: the value stored under `k`, `undefined` when there is none. */
  function Lookup(props: seq<(string, Value)>, k: string): (v: Value)
    ensures k !in Keys(props) ==> v == Undefined
    ensures k in Keys(props) ==> (k, v) in props
  {
    if props == [] then Undefined
    else if props[0].0 == k then props[0].1
    else
      assert Keys(props) == [props[0].0] + Keys(props[1..]);
      Lookup(props[1..], k)
  }

  /** `v?.[k]`: a property of an object; every other value has none of the fields read here. */
  function Get(v: Value, k: string): Value {
    if v.Obj? then Lookup(v.props, k) else Undefined
  }

  /** In an object with distinct names, each property reads as its own value. */
  lemma {:induction false} LookupUnique(props: seq<(string, Value)>, i: nat)
    requires UniqueKeys(props) && i < |props|
    ensures Lookup(props, props[i].0) == props[i].1
  {
    if i > 0 {
      assert props[0].0 != props[i].0;
      assert props[1..][i - 1] == props[i];
      LookupUnique(props[1..], i - 1);
    }
  }

  /**
   * The assignment `o[k] = v` (and each property of an object spread): an existing
   * property keeps its position and takes the new value, a new one is appended.
   */
  function Assign(props: seq<(string, Value)>, k: string, v: Value): (r: seq<(string, Value)>)
    ensures k in Keys(props) ==> Keys(r) == Keys(props)
    ensures k !in Keys(props) ==> Keys(r) == Keys(props) + [k]
  {
    if props == [] then [(k, v)]
    else if props[0].0 == k then [(k, v)] + props[1..]
    else
      assert Keys(props) == [props[0].0] + Keys(props[1..]);
      [props[0]] + Assign(props[1..], k, v)
  }

  /** After `o[k] = v`, reading `k` gives `v` and every other property reads as before. */
  lemma {:induction false} AssignLookup(props: seq<(string, Value)>, k: string, v: Value, k': string)
    ensures Lookup(Assign(props, k, v), k') == if k' == k then v else Lookup(props, k')
  {
    if props != [] && props[0].0 != k {
      AssignLookup(props[1..], k, v, k');
    }
  }

  /** Assignment never duplicates a property. */
  lemma AssignUnique(props: seq<(string, Value)>, k: string, v: Value)
    requires UniqueKeys(props)
    ensures UniqueKeys(Assign(props, k, v))
  {
    var r := Assign(props, k, v);
    assert Keys(r) == Keys(props) || Keys(r) == Keys(props) + [k];
    forall i, j | 0 <= i < j < |r| ensures r[i].0 != r[j].0 {
      assert Keys(r)[i] == r[i].0 && Keys(r)[j] == r[j].0;
    }
  }

  /** An object spread `{ ...props, ...extra }`: each property of `extra` is assigned in turn. */
  function MergeInto(props: seq<(string, Value)>, extra: seq<(string, Value)>): seq<(string, Value)>
    decreases |extra|
  {
    if extra == [] then props
    else MergeInto(Assign(props, extra[0].0, extra[0].1), extra[1..])
  }

  /** A property of `extra` overrides; every other property reads as in `props`. */
  lemma {:induction false} MergeLookup(props: seq<(string, Value)>, extra: seq<(string, Value)>, k: string)
    requires UniqueKeys(extra)
    ensures Lookup(MergeInto(props, extra), k) == if k in Keys(extra) then Lookup(extra, k) else Lookup(props, k)
    decreases |extra|
  {
    if extra != [] {
      var (k0, v0) := extra[0];
      var rest := extra[1..];
      assert UniqueKeys(rest);
      assert Keys(extra) == [k0] + Keys(rest);
      MergeLookup(Assign(props, k0, v0), rest, k);
      AssignLookup(props, k0, v0, k);
      forall j | 0 <= j < |rest| ensures rest[j].0 != k0 {
        assert rest[j] == extra[j + 1];
      }
    }
  }

  /** Every property of `extra` is present after the spread. */
  lemma {:induction false} MergeHasKeys(props: seq<(string, Value)>, extra: seq<(string, Value)>, k: string)
    requires k in Keys(extra)
    ensures k in Keys(MergeInto(props, extra))
    decreases |extra|
  {
    var next := Assign(props, extra[0].0, extra[0].1);
    assert Keys(extra) == [extra[0].0] + Keys(extra[1..]);
    if k in Keys(extra[1..]) {
      MergeHasKeys(next, extra[1..], k);
    } else {
      assert k in Keys(next);
      MergeKeepsKey(next, extra[1..], k);
    }
  }

  /** A property present before the spread is present after it. */
  lemma {:induction false} MergeKeepsKey(props: seq<(string, Value)>, extra: seq<(string, Value)>, k: string)
    requires k in Keys(props)
    ensures k in Keys(MergeInto(props, extra))
    decreases |extra|
  {
    if extra != [] {
      MergeKeepsKey(Assign(props, extra[0].0, extra[0].1), extra[1..], k);
    }
  }

  /** Merging keeps the property names distinct. */
  lemma {:induction false} MergeUnique(props: seq<(string, Value)>, extra: seq<(string, Value)>)
    requires UniqueKeys(props)
    ensures UniqueKeys(MergeInto(props, extra))
    decreases |extra|
  {
    if extra != [] {
      AssignUnique(props, extra[0].0, extra[0].1);
      MergeUnique(Assign(props, extra[0].0, extra[0].1), extra[1..]);
    }
  }

  /** A spread keeps the existing properties first and in their order; new ones follow. */
  lemma {:induction false} MergeGrows(props: seq<(string, Value)>, extra: seq<(string, Value)>)
    ensures |MergeInto(props, extra)| >= |props|
    ensures Keys(MergeInto(props, extra))[..|props|] == Keys(props)
    decreases |extra|
  {
    if extra != [] {
      var next := Assign(props, extra[0].0, extra[0].1);
      assert Keys(next)[..|props|] == Keys(props);
      MergeGrows(next, extra[1..]);
      assert Keys(MergeInto(props, extra))[..|next|][..|props|] == Keys(MergeInto(props, extra))[..|props|];
    }
  }

  /** Assigning a property the value it already reads as changes nothing. */
  lemma {:induction false} AssignSame(props: seq<(string, Value)>, k: string)
    requires k in Keys(props)
    ensures Assign(props, k, Lookup(props, k)) == props
  {
    var v := Lookup(props, k);
    if props[0].0 == k {
      assert v == props[0].1;
      calc {
        Assign(props, k, v);
        [(k, v)] + props[1..];
        [props[0]] + props[1..];
        props;
      }
    } else {
      assert k in Keys(props[1..]) by {
        assert Keys(props) == [props[0].0] + Keys(props[1..]);
      }
      assert v == Lookup(props[1..], k);
      AssignSame(props[1..], k);
      calc {
        Assign(props, k, v);
        [props[0]] + Assign(props[1..], k, v);
        [props[0]] + props[1..];
        props;
      }
    }
  }

  /** Spreading properties an object already holds with the same values changes nothing. */
  lemma {:induction false} MergeSame(props: seq<(string, Value)>, extra: seq<(string, Value)>)
    requires forall i :: 0 <= i < |extra| ==> extra[i].0 in Keys(props) && Lookup(props, extra[i].0) == extra[i].1
    ensures MergeInto(props, extra) == props
    decreases |extra|
  {
    if extra != [] {
      AssignSame(props, extra[0].0);
      assert forall i :: 0 <= i < |extra[1..]| ==> extra[1..][i] == extra[i + 1];
      MergeSame(props, extra[1..]);
    }
  }

  /** `String(v)` for the values above. */
  function ToJsString(v: Value): string
    decreases v
  {
    match v
    case Undefined => "undefined"
    case Null => "null"
    case Bool(b) => if b then "true" else "false"
    case Num(n) => if n < 0 then "-" + DecimalString(-n) else DecimalString(n)
    case Str(s) => s
    case Arr(items) =>
      // Array.prototype.join writes null and undefined elements as empty strings
      Join(seq(|items|, i requires 0 <= i < |items| =>
        if items[i].Undefined? || items[i].Null? then "" else ToJsString(items[i])), ',')
    case Obj(_) => "[object Object]"
  }
}
