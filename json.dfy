/**
 * JavaScript values as they arrive from `JSON.parse` plus `undefined`, with the
 * language rules the model needs: truthiness, property reads, object spread,
 * property assignment, `String(v)`, `Array.prototype.join` conversion,
 * `Object.keys`, the `in` operator and strict equality.
 *
 * Numbers are integers; object keys keep insertion order.
 */
module Json {
  import opened Common
  import opened Strings

  datatype Value =
    | JUndefined
    | JNull
    | JBool(b: bool)
    | JNum(n: int)
    | JStr(s: string)
    | JArr(items: seq<Value>)
    | JObj(fields: seq<(string, Value)>)

  type Fields = seq<(string, Value)>

  /** Boolean coercion: `!!v`. */
  predicate Truthy(v: Value) {
    match v
    case JUndefined => false
    case JNull => false
    case JBool(b) => b
    case JNum(n) => n != 0
    case JStr(s) => s != ""
    case _ => true
  }

  /** `undefined` or `null`: reading a property of these throws. */
  predicate Nullish(v: Value) {
    v == JUndefined || v == JNull
  }

  /** `a || b`. */
  function Or(a: Value, b: Value): (r: Value)
    ensures Truthy(a) ==> r == a
    ensures !Truthy(a) ==> r == b
  {
    if Truthy(a) then a else b
  }

  /** `a ?? b`. */
  function Coalesce(a: Value, b: Value): (r: Value)
    ensures !Nullish(a) ==> r == a
    ensures Nullish(a) ==> r == b
  {
    if Nullish(a) then b else a
  }

  function Keys(fields: Fields): (r: seq<string>)
    ensures |r| == |fields|
    ensures forall i :: 0 <= i < |fields| ==> r[i] == fields[i].0
  {
    if fields == [] then [] else [fields[0].0] + Keys(fields[1..])
  }

  /** Some field is named `k`. */
  predicate HasKey(fields: Fields, k: string) {
    fields != [] && (fields[0].0 == k || HasKey(fields[1..], k))
  }

  /** A key is present exactly when it is one of the listed keys. */
  lemma {:induction false} HasKeyKeys(fields: Fields, k: string)
    ensures HasKey(fields, k) <==> k in Keys(fields)
  {
    if fields != [] {
      HasKeyKeys(fields[1..], k);
    }
  }

  /** A key is present exactly when some field carries it. */
  lemma {:induction false} HasKeyAt(fields: Fields, k: string)
    ensures HasKey(fields, k) <==> exists i :: 0 <= i < |fields| && fields[i].0 == k
  {
    if fields != [] {
      HasKeyAt(fields[1..], k);
      assert forall i :: 1 <= i < |fields| ==> fields[i] == fields[1..][i - 1];
    }
  }

  /** The value stored under `k`, `undefined` when there is none. */
  function Lookup(fields: Fields, k: string): (r: Value)
    ensures !HasKey(fields, k) ==> r == JUndefined
  {
    if fields == [] then JUndefined
    else if fields[0].0 == k then fields[0].1
    else Lookup(fields[1..], k)
  }

  /** The first field named `k` is the one read. */
  lemma {:induction false} LookupAt(fields: Fields, j: nat, k: string)
    requires j < |fields| && fields[j].0 == k
    requires forall i :: 0 <= i < j ==> fields[i].0 != k
    ensures Lookup(fields, k) == fields[j].1
    decreases j
  {
    if j > 0 {
      LookupAt(fields[1..], j - 1, k);
    }
  }

  /** `obj[k] = v`: an existing key keeps its position, a new key goes last. */
  function Put(fields: Fields, k: string, v: Value): (r: Fields)
    ensures HasKey(fields, k) ==> |r| == |fields|
    ensures !HasKey(fields, k) ==> r == fields + [(k, v)]
    ensures HasKey(r, k)
  {
    if fields == [] then [(k, v)]
    else if fields[0].0 == k then [(k, v)] + fields[1..]
    else [fields[0]] + Put(fields[1..], k, v)
  }

  lemma {:induction false} LookupPut(fields: Fields, k: string, v: Value, j: string)
    ensures Lookup(Put(fields, k, v), j) == if j == k then v else Lookup(fields, j)
  {
    if fields != [] && fields[0].0 != k {
      LookupPut(fields[1..], k, v, j);
    }
  }

  /** Assigning a key never reorders or drops the keys already present. */
  lemma {:induction false} KeysPut(fields: Fields, k: string, v: Value)
    ensures Keys(Put(fields, k, v)) == if HasKey(fields, k) then Keys(fields) else Keys(fields) + [k]
  {
    if fields != [] && fields[0].0 != k {
      KeysPut(fields[1..], k, v);
      assert Keys(fields) == [fields[0].0] + Keys(fields[1..]);
    }
  }

  /** Index keys of a sequence: "0", "1", ... paired with its elements. */
  function IndexFields(items: seq<Value>, from: nat): (r: Fields)
    ensures |r| == |items|
    decreases |items|
  {
    if items == [] then [] else [(NatToString(from), items[0])] + IndexFields(items[1..], from + 1)
  }

  function CharValues(s: string): (r: seq<Value>)
    ensures |r| == |s|
    ensures forall i :: 0 <= i < |s| ==> r[i] == JStr([s[i]])
  {
    if s == [] then [] else [JStr([s[0]])] + CharValues(s[1..])
  }

  /** The fields `{...v}` copies: own keys of objects, indices of arrays and strings, nothing otherwise. */
  function OwnFields(v: Value): Fields {
    match v
    case JObj(fields) => fields
    case JArr(items) => IndexFields(items, 0)
    case JStr(s) => IndexFields(CharValues(s), 0)
    case _ => []
  }

  /** Assigns each listed key in order. */
  function PutAll(fields: Fields, updates: Fields): (r: Fields)
    decreases |updates|
  {
    if updates == [] then fields else PutAll(Put(fields, updates[0].0, updates[0].1), updates[1..])
  }

  /** `{...v, k1: v1, k2: v2, ...}`: spread, then assign each listed key in order. */
  function SpreadWith(v: Value, updates: Fields): (r: Value)
    ensures r.JObj?
  {
    JObj(PutAll(OwnFields(v), updates))
  }

  /** The value the last update for `k` assigns, if any update names `k`. */
  function LastValue(updates: Fields, k: string): Option<Value> {
    if updates == [] then None
    else
      var later := LastValue(updates[1..], k);
      if later.Some? then later else if updates[0].0 == k then Some(updates[0].1) else None
  }

  lemma {:induction false} LookupPutAll(fields: Fields, updates: Fields, k: string)
    ensures Lookup(PutAll(fields, updates), k)
         == if LastValue(updates, k).Some? then LastValue(updates, k).value else Lookup(fields, k)
    decreases |updates|
  {
    if updates != [] {
      LookupPutAll(Put(fields, updates[0].0, updates[0].1), updates[1..], k);
      LookupPut(fields, updates[0].0, updates[0].1, k);
    }
  }

  /** A key of a spread object reads the last update naming it, otherwise the spread value's own field. */
  lemma GetSpreadWith(v: Value, updates: Fields, k: string)
    ensures Get(SpreadWith(v, updates), k)
         == if LastValue(updates, k).Some? then LastValue(updates, k).value else Lookup(OwnFields(v), k)
  {
    LookupPutAll(OwnFields(v), updates, k);
  }

  lemma {:induction false} LastValueAt(updates: Fields, j: nat, k: string)
    requires j < |updates| && updates[j].0 == k
    requires forall i :: j < i < |updates| ==> updates[i].0 != k
    ensures LastValue(updates, k) == Some(updates[j].1)
    decreases |updates|
  {
    if j > 0 {
      LastValueAt(updates[1..], j - 1, k);
    } else {
      LastValueNone(updates[1..], k);
    }
  }

  lemma {:induction false} LastValueNone(updates: Fields, k: string)
    requires forall i :: 0 <= i < |updates| ==> updates[i].0 != k
    ensures LastValue(updates, k).None?
    decreases |updates|
  {
    if updates != [] {
      LastValueNone(updates[1..], k);
    }
  }

  /** A key that the `j`-th update assigns and no later update names reads that update's value. */
  lemma GetSpreadAt(v: Value, updates: Fields, j: nat, k: string)
    requires j < |updates| && updates[j].0 == k
    requires forall i :: j < i < |updates| ==> updates[i].0 != k
    ensures Get(SpreadWith(v, updates), k) == updates[j].1
  {
    GetSpreadWith(v, updates, k);
    LastValueAt(updates, j, k);
  }

  /** A key no update names reads the spread value's own field. */
  lemma GetSpreadUntouched(v: Value, updates: Fields, k: string)
    requires forall i :: 0 <= i < |updates| ==> updates[i].0 != k
    ensures Get(SpreadWith(v, updates), k) == Lookup(OwnFields(v), k)
  {
    GetSpreadWith(v, updates, k);
    LastValueNone(updates, k);
  }

  /** The decimal index a property key denotes on arrays and strings, if it denotes one. */
  function IndexOf(k: string): (r: Option<nat>)
    ensures r.Some? ==> NatToString(r.value) == k
  {
    if k != [] && (k[0] != '0' || |k| == 1) && forall i :: 0 <= i < |k| ==> '0' <= k[i] <= '9'
    then RoundTripIndex(k); Some(DigitsValue(k))
    else None
  }

  lemma {:induction false} RoundTripIndex(k: string)
    requires k != [] && (k[0] != '0' || |k| == 1) && forall i :: 0 <= i < |k| ==> '0' <= k[i] <= '9'
    ensures NatToString(DigitsValue(k)) == k
  {
    if |k| > 1 {
      var p := k[..|k| - 1];
      RoundTripIndex(p);
      assert DigitsValue(p) >= 1 by {
        PositiveLeading(p);
      }
      var d := k[|k| - 1] as int - '0' as int;
      assert DigitsValue(k) / 10 == DigitsValue(p);
      assert DigitsValue(k) % 10 == d;
      assert DigitChar(d) == k[|k| - 1];
      assert k == p + [k[|k| - 1]];
    } else {
      var d := k[0] as int - '0' as int;
      assert DigitChar(d) == k[0];
    }
  }

  lemma {:induction false} PositiveLeading(p: string)
    requires p != [] && '1' <= p[0] <= '9' && forall i :: 0 <= i < |p| ==> '0' <= p[i] <= '9'
    ensures DigitsValue(p) >= 1
  {
    if |p| > 1 {
      PositiveLeading(p[..|p| - 1]);
    }
  }

  /**
   * `v[k]` for a `v` that is neither `undefined` nor `null` (own properties
   * only). A string's `length` counts UTF-16 code units; its characters are
   * indexed by code point, which is the same index in text within the Basic
   * Multilingual Plane.
   */
  function Get(v: Value, k: string): Value {
    match v
    case JObj(fields) => Lookup(fields, k)
    case JArr(items) =>
      if k == "length" then JNum(|items|)
      else
        var i := IndexOf(k);
        if i.Some? && i.value < |items| then items[i.value] else JUndefined
    case JStr(s) =>
      if k == "length" then JNum(Utf16Length(s))
      else
        var i := IndexOf(k);
        if i.Some? && i.value < |s| then JStr([s[i.value]]) else JUndefined
    case _ => JUndefined
  }

  /** A falsy value has no properties other than the empty string's `length`. */
  lemma GetFalsy(v: Value, k: string)
    requires !Truthy(v) && k != "length"
    ensures Get(v, k) == JUndefined
  {
  }

  /** `v.k` as the language evaluates it: a TypeError on `undefined` and `null`. */
  function Member(v: Value, k: string): (r: Result<Value>)
    ensures r.Err? <==> Nullish(v)
    ensures r.Ok? ==> r.value == Get(v, k)
  {
    if Nullish(v) then Err(TypeErrorMessage) else Ok(Get(v, k))
  }

  /** `v?.k`: `undefined` instead of a TypeError. */
  function OptMember(v: Value, k: string): (r: Value)
    ensures Nullish(v) ==> r == JUndefined
  {
    if Nullish(v) then JUndefined else Get(v, k)
  }

  /** `Object.keys(v)`: a TypeError on `undefined` and `null`, the own keys otherwise. */
  function ObjectKeys(v: Value): (r: Result<seq<string>>)
    ensures r.Err? <==> Nullish(v)
    ensures r.Ok? ==> r.value == Keys(OwnFields(v))
  {
    if Nullish(v) then Err(TypeErrorMessage) else Ok(Keys(OwnFields(v)))
  }

  /** `k in v` for an object or array (own properties only). */
  predicate HasProperty(v: Value, k: string) {
    match v
    case JObj(fields) => HasKey(fields, k)
    case JArr(items) => k == "length" || (IndexOf(k).Some? && IndexOf(k).value < |items|)
    case _ => false
  }

  /** `String(v)`, which is also what a template literal inserts. */
  function ToStr(v: Value): string {
    match v
    case JUndefined => "undefined"
    case JNull => "null"
    case JBool(b) => if b then "true" else "false"
    case JNum(n) => IntToString(n)
    case JStr(s) => s
    case JArr(items) => JoinValues(items, ",")
    case JObj(_) => "[object Object]"
  }

  /** `items.join(sep)`: `undefined` and `null` elements contribute the empty text. */
  function JoinValues(items: seq<Value>, sep: string): string
    decreases items
  {
    if items == [] then ""
    else
      var first := if Nullish(items[0]) then "" else ToStr(items[0]);
      if |items| == 1 then first else first + sep + JoinValues(items[1..], sep)
  }

  /** `a === b`. Values parsed from different places of a document are different objects. */
  predicate StrictEq(a: Value, b: Value) {
    match (a, b)
    case (JUndefined, JUndefined) => true
    case (JNull, JNull) => true
    case (JBool(x), JBool(y)) => x == y
    case (JNum(x), JNum(y)) => x == y
    case (JStr(x), JStr(y)) => x == y
    case _ => false
  }

  /** `Array.isArray(v)`. */
  predicate IsArray(v: Value) {
    v.JArr?
  }

  /** `typeof v === 'object'`, which holds of `null` too. */
  predicate IsObjectType(v: Value) {
    v.JNull? || v.JArr? || v.JObj?
  }

  /** `typeof v`. */
  function TypeOf(v: Value): (r: string)
    ensures r == "object" <==> IsObjectType(v)
  {
    match v
    case JUndefined => "undefined"
    case JBool(_) => "boolean"
    case JNum(_) => "number"
    case JStr(_) => "string"
    case _ => "object"
  }
}
