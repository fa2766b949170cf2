/**
 * The JavaScript values the admin pages handle: JSON payloads from the
 * backend and the records the pages keep in state.  Numbers are integers
 * (fractions are not modelled) plus `NaN`; an object is the ordered list of
 * its entries, in the order `Object.entries` reports them.
 */
module JsValues {
  import opened Strings
  import opened Wrappers

  datatype JsValue =
    | JUndefined
    | JNull
    | JBool(b: bool)
    | JNum(n: int)
    | JNaN
    | JStr(s: string)
    | JArray(items: seq<JsValue>)
    | JObject(fields: seq<(string, JsValue)>)

  /** A plain object: its entries in insertion order. */
  type JsObject = seq<(string, JsValue)>

  /** JavaScript truthiness: what `v || x`, `!v` and `v && x` test. */
  predicate Truthy(v: JsValue)
  {
    match v
    case JUndefined => false
    case JNull => false
    case JBool(b) => b
    case JNum(n) => n != 0
    case JNaN => false
    case JStr(s) => s != ""
    case JArray(_) => true
    case JObject(_) => true
  }

  /** `typeof v === "object"`: true of null, arrays and objects. */
  predicate IsObjectType(v: JsValue)
  {
    v.JNull? || v.JArray? || v.JObject?
  }

  /** `String(v)`, as a template literal `${v}` converts a value. */
  function ToString(v: JsValue): string
    decreases v, 1
  {
    match v
    case JUndefined => "undefined"
    case JNull => "null"
    case JBool(b) => if b then "true" else "false"
    case JNum(n) => IntToString(n)
    case JNaN => "NaN"
    case JStr(s) => s
    case JArray(xs) => Join(seq(|xs|, i requires 0 <= i < |xs| => ElementString(xs[i])), ",")
    case JObject(_) => "[object Object]"
  }

  /** How `Array.prototype.join` renders one element: null and undefined become "". */
  function ElementString(x: JsValue): string
    decreases x, 2
  {
    if x.JUndefined? || x.JNull? then "" else ToString(x)
  }

  /**
   * How React renders `{v}` as a child in JSX: a string as itself, a number
   * as its decimal text, `true`, `false`, null and undefined as nothing, an
   * array as its elements' texts one after another, and a plain object not
   * at all: rendering throws (`None`).
   */
  function JsxText(v: JsValue): (r: Option<string>)
    decreases v
    ensures v.JStr? ==> r == Some(v.s)
    ensures v.JNum? || v.JNaN? ==> r == Some(ToString(v))
    ensures v.JUndefined? || v.JNull? || v.JBool? ==> r == Some("")
    ensures v.JObject? ==> r == None
  {
    match v
    case JUndefined => Some("")
    case JNull => Some("")
    case JBool(_) => Some("")
    case JNum(n) => Some(IntToString(n))
    case JNaN => Some("NaN")
    case JStr(s) => Some(s)
    case JArray(xs) => JsxItems(xs)
    case JObject(_) => None
  }

  /** The children of an array, rendered in order with nothing between them. */
  function JsxItems(xs: seq<JsValue>): (r: Option<string>)
    decreases xs
    ensures r.Some? <==> forall i :: 0 <= i < |xs| ==> JsxText(xs[i]).Some?
    ensures |xs| == 1 ==> r == JsxText(xs[0])
  {
    if xs == [] then Some("")
    else match JsxText(xs[0])
      case None => None
      case Some(t) =>
        match JsxItems(xs[1..])
        case None => None
        case Some(u) =>
          assert |xs| == 1 ==> xs[1..] == [] && t + u == t;
          Some(t + u)
  }

  /**
   * Rendering an array concatenates its parts' texts with no separator,
   * unlike `String(v)`, which puts commas between them; it throws when
   * either part does.
   */
  lemma {:induction false} JsxItemsAppend(a: seq<JsValue>, b: seq<JsValue>)
    ensures JsxItems(a + b) ==
            if JsxItems(a).Some? && JsxItems(b).Some? then Some(JsxItems(a).value + JsxItems(b).value) else None
  {
    if a == [] {
      assert a + b == b;
      assert JsxItems(b).Some? ==> "" + JsxItems(b).value == JsxItems(b).value;
    } else {
      assert (a + b)[0] == a[0];
      assert (a + b)[1..] == a[1..] + b;
      JsxItemsAppend(a[1..], b);
      var t, x, y := JsxText(a[0]), JsxItems(a[1..]), JsxItems(b);
      if t.Some? && x.Some? && y.Some? {
        assert (t.value + x.value) + y.value == t.value + (x.value + y.value);
      }
    }
  }

  /** The keys of an object, in order (a helper; its contract spells the body out pointwise). */
  function Keys(obj: JsObject): (ks: seq<string>)
    ensures |ks| == |obj|
    ensures forall i :: 0 <= i < |obj| ==> ks[i] == obj[i].0
  {
    seq(|obj|, i requires 0 <= i < |obj| => obj[i].0)
  }

  /** No key occurs twice, as in every JavaScript object. */
  predicate UniqueKeys(obj: JsObject)
  {
    forall i, j :: 0 <= i < j < |obj| ==> obj[i].0 != obj[j].0
  }

  /** The value stored under `key`, if any. */
  function Lookup(obj: JsObject, key: string): (r: Option<JsValue>)
    ensures r.Some? <==> key in Keys(obj)
    ensures r.Some? ==> (key, r.value) in obj
  {
    if obj == [] then None
    else if obj[0].0 == key then Some(obj[0].1)
    else Lookup(obj[1..], key)
  }

  /** In an object with distinct keys, each key reads as its own entry's value. */
  lemma {:induction false} LookupUnique(obj: JsObject, i: nat)
    requires UniqueKeys(obj) && i < |obj|
    ensures Lookup(obj, obj[i].0) == Some(obj[i].1)
  {
    if i > 0 {
      assert obj[0].0 != obj[i].0;
      assert obj[1..][i - 1] == obj[i];
      LookupUnique(obj[1..], i - 1);
    }
  }

  /** In an object with distinct keys, every key reads as its own entry's value. */
  lemma AllLookupsUnique(obj: JsObject)
    requires UniqueKeys(obj)
    ensures forall i :: 0 <= i < |obj| ==> Get(obj, Keys(obj)[i]) == obj[i].1
  {
    forall i | 0 <= i < |obj|
      ensures Get(obj, Keys(obj)[i]) == obj[i].1
    {
      LookupUnique(obj, i);
    }
  }

  /** Property access `obj[key]`: a missing key reads as undefined. */
  function Get(obj: JsObject, key: string): JsValue
  {
    Lookup(obj, key).GetOr(JUndefined)
  }

  /**
   * The spread update `{ ...obj, [key]: v }`: the key now holds `v` and every
   * other key reads as before (its place in the key order: `SetFieldKeys`).
   */
  function SetField(obj: JsObject, key: string, v: JsValue): (r: JsObject)
    ensures Lookup(r, key) == Some(v)
    ensures forall k :: k != key ==> Lookup(r, k) == Lookup(obj, k)
  {
    if obj == [] then [(key, v)]
    else if obj[0].0 == key then [(key, v)] + obj[1..]
    else [obj[0]] + SetField(obj[1..], key, v)
  }

  /** An existing key keeps its place; a new key is added at the end. */
  lemma {:induction false} SetFieldKeys(obj: JsObject, key: string, v: JsValue)
    ensures Keys(SetField(obj, key, v)) == if key in Keys(obj) then Keys(obj) else Keys(obj) + [key]
  {
    if obj == [] {
      assert Keys([(key, v)]) == [key];
    } else if obj[0].0 == key {
      KeysCons(obj);
      KeysCons(SetField(obj, key, v));
      assert SetField(obj, key, v)[1..] == obj[1..];
    } else {
      var rest := obj[1..];
      SetFieldKeys(rest, key, v);
      KeysCons(obj);
      KeysCons(SetField(obj, key, v));
      assert SetField(obj, key, v)[1..] == SetField(rest, key, v);
      ConsAppend(obj[0].0, Keys(rest), key);
    }
  }

  /** The keys of a non-empty object: the first entry's key, then the keys of the rest. */
  lemma KeysCons(obj: JsObject)
    requires obj != []
    ensures Keys(obj) == [obj[0].0] + Keys(obj[1..])
  {
    assert forall i :: 0 < i < |obj| ==> obj[1..][i - 1] == obj[i];
  }

  /** A key other than the first is among the keys exactly when it is among the rest; appending commutes with the first key. */
  lemma ConsAppend(first: string, rest: seq<string>, key: string)
    requires first != key
    ensures key in [first] + rest <==> key in rest
    ensures [first] + (rest + [key]) == ([first] + rest) + [key]
  {
  }

  /** Updating a record keeps its keys distinct. */
  lemma SetFieldUnique(obj: JsObject, key: string, v: JsValue)
    requires UniqueKeys(obj)
    ensures UniqueKeys(SetField(obj, key, v))
  {
    SetFieldKeys(obj, key, v);
    var r := SetField(obj, key, v);
    var ks := Keys(r);
    forall i, j | 0 <= i < j < |r| ensures r[i].0 != r[j].0 {
      assert r[i].0 == ks[i] && r[j].0 == ks[j];
      if key !in Keys(obj) && j == |obj| {
        assert ks[i] == Keys(obj)[i];
      } else {
        assert ks[i] == Keys(obj)[i] && ks[j] == Keys(obj)[j];
      }
    }
  }

  /**
   * `Object.entries(v)`: an object's own entries, an array's or a string's
   * elements under their decimal indices, nothing for a number or boolean;
   * null and undefined make it throw a TypeError (None).
   */
  function ObjectEntries(v: JsValue): (r: Option<JsObject>)
    ensures r.None? <==> v.JNull? || v.JUndefined?
  {
    match v
    case JUndefined => None
    case JNull => None
    case JObject(fields) => Some(fields)
    case JArray(xs) => Some(seq(|xs|, i requires 0 <= i < |xs| => (NatToString(i), xs[i])))
    case JStr(s) => Some(seq(|s|, i requires 0 <= i < |s| => (NatToString(i), JStr([s[i]]))))
    case JBool(_) => Some([])
    case JNum(_) => Some([])
    case JNaN => Some([])
  }

  /**
   * `v.length`: the element count of an array, the length of a string, an
   * object's own `length` attribute, undefined for anything else; `None`
   * when it throws on null or undefined.
   */
  function LengthOf(v: JsValue): (r: Option<JsValue>)
    ensures r.None? <==> v.JNull? || v.JUndefined?
    ensures v.JArray? ==> r == Some(JNum(|v.items|))
  {
    match v
    case JUndefined => None
    case JNull => None
    case JArray(xs) => Some(JNum(|xs|))
    case JStr(s) => Some(JNum(|s|))
    case JObject(fields) => Some(Get(fields, "length"))
    case _ => Some(JUndefined)
  }

  /**
   * The relational comparison `v > 0`: `v` is converted to a primitive and
   * then to a number.  A string (and so an array or object, through its
   * string form) counts as a number when, trimmed, it is a non-empty run of
   * decimal digits; any other string converts to NaN or 0 here.
   */
  predicate GreaterThanZero(v: JsValue)
  {
    match v
    case JBool(b) => b
    case JNum(n) => n > 0
    case JStr(_) => DecimalAboveZero(Trim(ToString(v)))
    case JArray(_) => DecimalAboveZero(Trim(ToString(v)))
    case JObject(_) => DecimalAboveZero(Trim(ToString(v)))
    case _ => false
  }

  predicate DecimalAboveZero(s: string)
  {
    s != [] && (forall i :: 0 <= i < |s| ==> IsDigit(s[i])) && DecimalValue(s) > 0
  }
}
