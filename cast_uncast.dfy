/**
 * `cast` and `uncast` share one dispatcher and differ only in the property index
 * they pass; when every property has the same wire and typed name the two indexes
 * coincide, and so do the two conversions.
 */
module CastUncast {
  import opened Util
  import opened JsonValue
  import opened Descriptor
  import opened PropIndex
  import opened Engine

  /** Every object shape inside `t` declares each property under one name only. */
  predicate SameNames(t: Typ)
  {
    match t
    case Union(ms) => forall i :: 0 <= i < |ms| ==> SameNames(ms[i])
    case ArrayOf(items) => SameNames(items)
    case Object(props, add) =>
      (forall i :: 0 <= i < |props| ==> props[i].json == props[i].js && SameNames(props[i].typ)) && SameNames(add)
    case _ => true
  }

  predicate TableSameNames(table: Table)
  {
    forall n :: n in table.types ==> SameNames(table.types[n])
  }

  /** The precondition common to the lemmas below. */
  predicate Named(env: Env)
  {
    env.table.Valid() && TableSameNames(env.table)
  }

  /** The index entries of a same-named shape carry same-named descriptors. */
  lemma IndexSameNames(dir: Direction, props: seq<Prop>)
    requires forall i :: 0 <= i < |props| ==> SameNames(props[i].typ)
    ensures forall k :: 0 <= k < |IndexFor(dir, props)| ==> SameNames(IndexFor(dir, props)[k].typ)
  {
    IndexEntriesAreLast(dir, props);
    forall k | 0 <= k < |IndexFor(dir, props)| ensures SameNames(IndexFor(dir, props)[k].typ) {
      var x := IndexFor(dir, props)[k];
      assert x in IndexFor(dir, props);
      var i :| 0 <= i < |props| && x == EntryFor(dir, props[i]) && LastAssignment(dir, props, i);
    }
  }

  /** On a same-named table, `cast` and `uncast` give the same result on every value. */
  lemma CastIsUncast(val: Value, typ: Typ, env: Env)
    requires Named(env) && SameNames(typ)
    ensures Cast(val, typ, env) == Uncast(val, typ, env)
  {
    TransformBoth(val, typ, "", "", env);
  }

  lemma {:induction false} TransformBoth(val: Value, typ: Typ, key: string, parent: string, env: Env)
    requires Named(env) && SameNames(typ)
    ensures Transform(val, typ, JsonToJs, key, parent, env) == Transform(val, typ, JsToJson, key, parent, env)
    decreases Depth(val), Level(typ, env.table.rank), 3, 0
  {
    if typ != AnyT && typ != NullT && typ != NeverT {
      match Resolve(typ, "", env.table)
      case NullDeref =>
      case Resolved(t, ref) =>
        DispatchBoth(val, t, ref, key, parent, env);
    }
  }

  lemma {:induction false} DispatchBoth(val: Value, t: Typ, ref: string, key: string, parent: string, env: Env)
    requires Named(env) && SameNames(t)
    ensures Dispatch(val, t, ref, JsonToJs, key, parent, env) == Dispatch(val, t, ref, JsToJson, key, parent, env)
    decreases Depth(val), Level(t, env.table.rank), 2, 0
  {
    match t
    case Union(ms) => UnionBoth(val, ms, 0, key, parent, env);
    case ArrayOf(items) => ArrayBoth(val, items, 0, [], key, parent, env);
    case Object(props, add) =>
      IdentityNamesSameIndex(props);
      IndexSameNames(JsonToJs, props);
      ObjectBoth(val, IndexFor(JsonToJs, props), add, ref, key, parent, env);
    case _ =>
  }

  lemma {:induction false} UnionBoth(val: Value, ms: seq<Typ>, i: nat, key: string, parent: string, env: Env)
    requires Named(env) && i <= |ms| && forall k :: 0 <= k < |ms| ==> SameNames(ms[k])
    ensures TransformUnion(val, ms, i, JsonToJs, key, parent, env) == TransformUnion(val, ms, i, JsToJson, key, parent, env)
    decreases Depth(val), Level(Union(ms), env.table.rank), 1, |ms| - i
  {
    if i < |ms| {
      MemberLevel(ms, i, env.table.rank);
      TransformBoth(val, ms[i], "", "", env);
      UnionBoth(val, ms, i + 1, key, parent, env);
    }
  }

  lemma {:induction false} ArrayBoth(val: Value, items: Typ, i: nat, acc: seq<Value>, key: string, parent: string,
                                     env: Env)
    requires Named(env) && SameNames(items) && (val.Arr? ==> i <= |val.elems|)
    ensures TransformArray(val, items, i, acc, JsonToJs, key, parent, env) ==
            TransformArray(val, items, i, acc, JsToJson, key, parent, env)
    decreases Depth(val), 0, 1, if val.Arr? then |val.elems| - i else 0
  {
    if val.Arr? && i < |val.elems| {
      DepthOfElem(val.elems, i);
      TransformBoth(val.elems[i], items, "", "", env);
      var here := Transform(val.elems[i], items, JsonToJs, "", "", env);
      if here.Ok? {
        ArrayBoth(val, items, i + 1, acc + [here.value], key, parent, env);
      }
    }
  }

  lemma {:induction false} ObjectBoth(val: Value, idx: seq<Entry>, add: Typ, ref: string, key: string,
                                      parent: string, env: Env)
    requires Named(env) && SameNames(add) && forall k :: 0 <= k < |idx| ==> SameNames(idx[k].typ)
    ensures TransformObject(val, idx, add, ref, JsonToJs, key, parent, env) ==
            TransformObject(val, idx, add, ref, JsToJson, key, parent, env)
    decreases Depth(val), 0, 1, 0
  {
    if IsObjectLike(val) {
      PropsBoth(val, idx, 0, [], ref, env);
      var partial := PropsPass(val, idx, 0, [], ref, JsonToJs, env);
      if partial.Ok? {
        ExtrasBoth(val, idx, add, 0, partial.value.fields, ref, env);
      }
    }
  }

  lemma {:induction false} PropsBoth(val: Value, idx: seq<Entry>, i: nat, acc: seq<Field>, ref: string, env: Env)
    requires Named(env) && IsObjectLike(val) && i <= |idx| && forall k :: 0 <= k < |idx| ==> SameNames(idx[k].typ)
    ensures PropsPass(val, idx, i, acc, ref, JsonToJs, env) == PropsPass(val, idx, i, acc, ref, JsToJson, env)
    decreases Depth(val), 0, 0, |idx| - i
  {
    if i < |idx| {
      var e := idx[i];
      DepthOfGet(val, e.from);
      TransformBoth(Get(OwnFields(val), e.from), e.typ, e.from, ref, env);
      var here := Transform(Get(OwnFields(val), e.from), e.typ, JsonToJs, e.from, ref, env);
      if here.Ok? {
        PropsBoth(val, idx, i + 1, Put(acc, e.to, here.value), ref, env);
      }
    }
  }

  lemma {:induction false} ExtrasBoth(val: Value, idx: seq<Entry>, add: Typ, j: nat, acc: seq<Field>, ref: string,
                                      env: Env)
    requires Named(env) && SameNames(add) && IsObjectLike(val) && j <= |OwnFields(val)|
    ensures ExtrasPass(val, idx, add, j, acc, ref, JsonToJs, env) == ExtrasPass(val, idx, add, j, acc, ref, JsToJson, env)
    decreases Depth(val), 0, 0, |OwnFields(val)| - j
  {
    var fs := OwnFields(val);
    if j < |fs| {
      if fs[j].key in Sources(idx) {
        ExtrasBoth(val, idx, add, j + 1, acc, ref, env);
      } else {
        DepthOfField(val, j);
        TransformBoth(fs[j].val, add, fs[j].key, ref, env);
        var here := Transform(fs[j].val, add, JsonToJs, fs[j].key, ref, env);
        if here.Ok? {
          ExtrasBoth(val, idx, add, j + 1, Put(acc, fs[j].key, here.value), ref, env);
        }
      }
    }
  }
}
