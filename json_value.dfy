/**
 * Parsed JavaScript values as the conversion engine sees them: the results of
 * `JSON.parse`, the typed values handed to the encoder, the `undefined` that
 * stands for a missing key, and the `Date` objects the decoder creates.
 */
module JsonValue {
  import opened Util

  /** What JavaScript's `typeof` can answer for the values and descriptors of this model. */
  datatype JsType = TUndefined | TObject | TBoolean | TNumber | TString | TFunction

  datatype Value =
    | Undefined
    | Null
    | Bool(b: bool)
    | Num(n: real)
    | Str(s: string)
    | Arr(elems: seq<Value>)
    /** A plain object; `fields` lists its own properties in property order. */
    | Obj(fields: seq<Field>)
    /** The object `new Date(arg)`; it has no own enumerable properties. */
    | DateObj(arg: Value)

  datatype Field = Field(key: string, val: Value)

  function TypeOf(v: Value): JsType
  {
    match v
    case Undefined => TUndefined
    case Bool(_) => TBoolean
    case Num(_) => TNumber
    case Str(_) => TString
    case _ => TObject
  }

  /** `val !== null && typeof val === "object" && !Array.isArray(val)` */
  predicate IsObjectLike(v: Value)
  {
    TypeOf(v) == TObject && !v.Null? && !v.Arr?
  }

  /** The own properties of an object (`Object.getOwnPropertyNames` together with the values). */
  function OwnFields(v: Value): seq<Field>
    requires IsObjectLike(v)
  {
    if v.Obj? then v.fields else []
  }

  function KeysOf(fs: seq<Field>): set<string>
  {
    set i | 0 <= i < |fs| :: fs[i].key
  }

  lemma KeysOfCons(fs: seq<Field>)
    requires fs != []
    ensures KeysOf(fs) == {fs[0].key} + KeysOf(fs[1..])
  {
    forall x | x in KeysOf(fs) ensures x in {fs[0].key} + KeysOf(fs[1..]) {
      var i :| 0 <= i < |fs| && fs[i].key == x;
      if i > 0 { assert fs[1..][i - 1].key == x; }
    }
    forall x | x in KeysOf(fs[1..]) ensures x in KeysOf(fs) {
      var i :| 0 <= i < |fs[1..]| && fs[1..][i].key == x;
      assert fs[i + 1].key == x;
    }
  }

  /** The value stored under `k`, if `k` is an own property. */
  function Lookup(fs: seq<Field>, k: string): Option<Value>
  {
    if fs == [] then None
    else if fs[0].key == k then Some(fs[0].val)
    else Lookup(fs[1..], k)
  }

  /** `k` is found iff it is an own key, and then with the value of a field named `k`. */
  lemma {:induction false} LookupFacts(fs: seq<Field>, k: string)
    ensures Lookup(fs, k).None? <==> k !in KeysOf(fs)
    ensures Lookup(fs, k).Some? ==>
              exists i :: 0 <= i < |fs| && fs[i].key == k && fs[i].val == Lookup(fs, k).value
  {
    if fs != [] {
      KeysOfCons(fs);
      if fs[0].key != k {
        LookupFacts(fs[1..], k);
        var r := Lookup(fs[1..], k);
        if r.Some? {
          var i :| 0 <= i < |fs[1..]| && fs[1..][i].key == k && fs[1..][i].val == r.value;
          assert fs[i + 1].key == k && fs[i + 1].val == r.value;
        }
      }
    }
  }

  /** `hasOwnProperty(val, key) ? val[key] : undefined` */
  function Get(fs: seq<Field>, k: string): Value
  {
    match Lookup(fs, k)
    case Some(v) => v
    case None => Undefined
  }

  /** The assignment `result[k] = v`: an existing property keeps its place, a new one goes last. */
  function Put(fs: seq<Field>, k: string, v: Value): seq<Field>
  {
    if fs == [] then [Field(k, v)]
    else if fs[0].key == k then [Field(k, v)] + fs[1..]
    else [fs[0]] + Put(fs[1..], k, v)
  }

  /** After `result[k] = v` the keys gain `k`, `k` holds `v`, and every other key is unchanged. */
  lemma {:induction false} PutFacts(fs: seq<Field>, k: string, v: Value)
    ensures KeysOf(Put(fs, k, v)) == KeysOf(fs) + {k}
    ensures Lookup(Put(fs, k, v), k) == Some(v)
    ensures forall k' :: k' != k ==> Lookup(Put(fs, k, v), k') == Lookup(fs, k')
  {
    var r := Put(fs, k, v);
    KeysOfCons(r);
    if fs != [] {
      KeysOfCons(fs);
      assert r[1..] == if fs[0].key == k then fs[1..] else Put(fs[1..], k, v);
      if fs[0].key != k {
        PutFacts(fs[1..], k, v);
      }
    }
  }

  /** Nesting depth; a missing key's `undefined` is shallower than any object. */
  function Depth(v: Value): nat
  {
    match v
    case Arr(es) => 1 + MaxOf(seq(|es|, i requires 0 <= i < |es| => Depth(es[i])))
    case Obj(fs) => 1 + MaxOf(seq(|fs|, i requires 0 <= i < |fs| => Depth(fs[i].val)))
    case DateObj(a) => 1 + Depth(a)
    case _ => 0
  }

  lemma DepthOfElem(es: seq<Value>, i: nat)
    requires i < |es|
    ensures Depth(es[i]) < Depth(Arr(es))
  {
    var s := seq(|es|, j requires 0 <= j < |es| => Depth(es[j]));
    assert s[i] == Depth(es[i]);
  }

  lemma DepthOfField(v: Value, j: nat)
    requires IsObjectLike(v) && j < |OwnFields(v)|
    ensures Depth(OwnFields(v)[j].val) < Depth(v)
  {
    var fs := v.fields;
    var s := seq(|fs|, i requires 0 <= i < |fs| => Depth(fs[i].val));
    assert s[j] == Depth(fs[j].val);
  }

  lemma DepthOfGet(v: Value, k: string)
    requires IsObjectLike(v)
    ensures Depth(Get(OwnFields(v), k)) < Depth(v)
  {
    var fs := OwnFields(v);
    LookupFacts(fs, k);
    match Lookup(fs, k)
    case None =>
    case Some(x) =>
      var j :| 0 <= j < |fs| && fs[j].key == k && fs[j].val == x;
      DepthOfField(v, j);
  }
}
