/**
 * The conversion engine as the source runs it: a converter whose property
 * indexes are built by a loop and cached on first use, a reference loop, and
 * loops over union members, array elements and object keys.  Every method is
 * proved to compute what the functions of module Engine define.
 */
module Conversion {
  import opened JsonValue
  import opened Descriptor
  import opened PropIndex
  import opened Errors
  import Engine

  /** `typ.props.forEach((p) => map[from] = { key: to, typ: p.typ })` */
  method BuildIndex(dir: Direction, props: seq<Prop>) returns (idx: seq<Entry>)
    ensures idx == IndexFor(dir, props)
    ensures UniqueSources(idx)
  {
    idx := [];
    for i := 0 to |props|
      invariant idx == IndexFor(dir, props[..i])
    {
      assert props[..i + 1][..i] == props[..i];
      idx := Insert(idx, EntryFor(dir, props[i]));
    }
    assert props[..|props|] == props;
    IndexUnique(dir, props);
  }

  /**
   * `while (typeof typ === "object" && typ.ref !== undefined)`: follow names,
   * remembering the last one, until a descriptor that is no reference is reached;
   * reading `.ref` of a null descriptor is the TypeError.
   */
  method ResolveRefs(typ: Typ, table: Table) returns (r: Resolution)
    requires table.Valid()
    ensures r == Resolve(typ, "", table)
  {
    var t := typ;
    var ref := "";
    while t.Ref?
      invariant Resolve(typ, "", table) == Resolve(t, ref, table)
      decreases Level(t, table.rank), if t.Ref? then 1 else 0
    {
      ref := t.name;
      t := if t.name in table.types then table.types[t.name] else Prim(UndefinedKind);
    }
    if t == NullT {
      return NullDeref;
    }
    return Resolved(t, ref);
  }

  class Converter {
    /** The schema table and the date parser. */
    const env: Engine.Env
    /** The cached decode indexes (`typ.jsonToJS`), keyed by the shape's property list. */
    var jsonToJS: map<seq<Prop>, seq<Entry>>
    /** The cached encode indexes (`typ.jsToJSON`). */
    var jsToJSON: map<seq<Prop>, seq<Entry>>

    /** Every cached index is the one its shape's property list defines. */
    ghost predicate Valid()
      reads this
    {
      env.table.Valid() &&
      (forall p :: p in jsonToJS ==> jsonToJS[p] == IndexFor(JsonToJs, p)) &&
      (forall p :: p in jsToJSON ==> jsToJSON[p] == IndexFor(JsToJson, p))
    }

    /** A converter over `env` with nothing cached yet. */
    constructor (env: Engine.Env)
      requires env.table.Valid()
      ensures Valid() && this.env == env && jsonToJS == map[] && jsToJSON == map[]
    {
      this.env := env;
      jsonToJS := map[];
      jsToJSON := map[];
    }

    /** `jsonToJSProps`: the decode index, built on first use and returned from the cache afterwards. */
    method JsonToJSProps(props: seq<Prop>) returns (idx: seq<Entry>)
      requires Valid()
      modifies this
      ensures Valid()
      ensures idx == IndexFor(JsonToJs, props)
      ensures jsonToJS == old(jsonToJS)[props := idx] && jsToJSON == old(jsToJSON)
      ensures props in old(jsonToJS) ==> jsonToJS == old(jsonToJS)
    {
      if props !in jsonToJS {
        idx := BuildIndex(JsonToJs, props);
        jsonToJS := jsonToJS[props := idx];
      } else {
        idx := jsonToJS[props];
      }
    }

    /** `jsToJSONProps`: the encode index, built on first use and returned from the cache afterwards. */
    method JsToJSONProps(props: seq<Prop>) returns (idx: seq<Entry>)
      requires Valid()
      modifies this
      ensures Valid()
      ensures idx == IndexFor(JsToJson, props)
      ensures jsToJSON == old(jsToJSON)[props := idx] && jsonToJS == old(jsonToJS)
      ensures props in old(jsToJSON) ==> jsToJSON == old(jsToJSON)
    {
      if props !in jsToJSON {
        idx := BuildIndex(JsToJson, props);
        jsToJSON := jsToJSON[props := idx];
      } else {
        idx := jsToJSON[props];
      }
    }

    /** The `getProps` argument: the index function of the direction. */
    method GetProps(dir: Direction, props: seq<Prop>) returns (idx: seq<Entry>)
      requires Valid()
      modifies this
      ensures Valid() && idx == IndexFor(dir, props)
      ensures dir == JsonToJs ==> jsonToJS == old(jsonToJS)[props := idx] && jsToJSON == old(jsToJSON)
      ensures dir == JsToJson ==> jsToJSON == old(jsToJSON)[props := idx] && jsonToJS == old(jsonToJS)
      ensures old(jsonToJS).Keys <= jsonToJS.Keys && old(jsToJSON).Keys <= jsToJSON.Keys
    {
      if dir == JsonToJs {
        idx := JsonToJSProps(props);
      } else {
        idx := JsToJSONProps(props);
      }
    }

    /** `transform(val, typ, getProps, key, parent)` */
    method Transform(val: Value, typ: Typ, dir: Direction, key: string, parent: string) returns (r: Engine.Result)
      requires Valid()
      modifies this
      ensures Valid() && r == Engine.Transform(val, typ, dir, key, parent, env)
      ensures old(jsonToJS).Keys <= jsonToJS.Keys && old(jsToJSON).Keys <= jsToJSON.Keys
      decreases Depth(val), Level(typ, env.table.rank), 3
    {
      if typ == AnyT {
        return Engine.Ok(val);
      }
      if typ == NullT {
        if val == Null {
          return Engine.Ok(val);
        }
        return Engine.Fail(One(typ), val, key, parent);
      }
      if typ == NeverT {
        return Engine.Fail(One(typ), val, key, parent);
      }
      var res := ResolveRefs(typ, env.table);
      if res.NullDeref? {
        return Engine.Err(NullDescriptor);
      }
      r := Dispatch(val, res.t, res.ref, dir, key, parent);
    }

    /** The dispatch on the descriptor the reference loop reached, `ref` being the last name followed. */
    method Dispatch(val: Value, t: Typ, ref: string, dir: Direction, key: string, parent: string)
      returns (r: Engine.Result)
      requires Valid()
      modifies this
      ensures Valid() && r == Engine.Dispatch(val, t, ref, dir, key, parent, env)
      ensures old(jsonToJS).Keys <= jsonToJS.Keys && old(jsToJSON).Keys <= jsToJSON.Keys
      decreases Depth(val), Level(t, env.table.rank), 2
    {
      match t
      case Enum(cases) =>
        r := Engine.TransformEnum(cases, val, key, parent);
      case Union(ms) =>
        r := TransformUnion(val, ms, dir, key, parent);
      case ArrayOf(items) =>
        r := TransformArray(val, items, dir, key, parent);
      case Object(props, add) =>
        var idx := GetProps(dir, props);
        r := TransformObject(val, idx, add, ref, dir, key, parent);
      case Literal(_) =>
        r := Engine.Fail(One(t), val, key, parent);
      case Ref(_) =>
        r := Engine.Fail(One(t), val, key, parent);
      case NullT =>
        r := Engine.Err(NullDescriptor);
      case DateT =>
        if TypeOf(val) != TNumber {
          r := Engine.TransformDate(val, key, parent, env.parsesAsDate);
        } else {
          r := Engine.TransformPrimitive(t, val, key, parent);
        }
      case _ =>
        r := Engine.TransformPrimitive(t, val, key, parent);
    }

    /** `transformUnion`: try each member in order with an empty key and parent. */
    method TransformUnion(val: Value, ms: seq<Typ>, dir: Direction, key: string, parent: string)
      returns (r: Engine.Result)
      requires Valid()
      modifies this
      ensures Valid() && r == Engine.TransformUnion(val, ms, 0, dir, key, parent, env)
      ensures old(jsonToJS).Keys <= jsonToJS.Keys && old(jsToJSON).Keys <= jsToJSON.Keys
      decreases Depth(val), Level(Union(ms), env.table.rank), 1
    {
      for i := 0 to |ms|
        invariant Valid()
        invariant Engine.TransformUnion(val, ms, 0, dir, key, parent, env) ==
                  Engine.TransformUnion(val, ms, i, dir, key, parent, env)
        invariant old(jsonToJS).Keys <= jsonToJS.Keys && old(jsToJSON).Keys <= jsToJSON.Keys
      {
        MemberLevel(ms, i, env.table.rank);
        var attempt := Transform(val, ms[i], dir, "", "");
        if attempt.Ok? {
          return attempt;
        }
      }
      return Engine.Fail(Many(ms), val, key, parent);
    }

    /** `transformArray`: an array is converted element by element with an empty key and parent. */
    method TransformArray(val: Value, items: Typ, dir: Direction, key: string, parent: string)
      returns (r: Engine.Result)
      requires Valid()
      modifies this
      ensures Valid() && r == Engine.TransformArray(val, items, 0, [], dir, key, parent, env)
      ensures old(jsonToJS).Keys <= jsonToJS.Keys && old(jsToJSON).Keys <= jsToJSON.Keys
      decreases Depth(val), 0, 1
    {
      if !val.Arr? {
        return Engine.Fail(One(Literal("array")), val, key, parent);
      }
      var acc: seq<Value> := [];
      for i := 0 to |val.elems|
        invariant Valid()
        invariant Engine.TransformArray(val, items, 0, [], dir, key, parent, env) ==
                  Engine.TransformArray(val, items, i, acc, dir, key, parent, env)
        invariant old(jsonToJS).Keys <= jsonToJS.Keys && old(jsToJSON).Keys <= jsToJSON.Keys
      {
        DepthOfElem(val.elems, i);
        var v := Transform(val.elems[i], items, dir, "", "");
        if v.Err? {
          return v;
        }
        acc := acc + [v.value];
      }
      return Engine.Ok(Arr(acc));
    }

    /**
     * `transformObject`: the index keys first, reading `undefined` for an absent
     * key, then every own key the index does not name, under `additional`.
     */
    method TransformObject(val: Value, idx: seq<Entry>, add: Typ, ref: string, dir: Direction, key: string,
                           parent: string) returns (r: Engine.Result)
      requires Valid()
      modifies this
      ensures Valid() && r == Engine.TransformObject(val, idx, add, ref, dir, key, parent, env)
      ensures old(jsonToJS).Keys <= jsonToJS.Keys && old(jsToJSON).Keys <= jsToJSON.Keys
      decreases Depth(val), 0, 1
    {
      if !IsObjectLike(val) {
        return Engine.Fail(One(Literal(if ref == "" then "object" else ref)), val, key, parent);
      }
      var partial := ConvertProps(val, idx, ref, dir);
      if partial.Err? {
        return partial;
      }
      r := ConvertExtras(val, idx, add, partial.value.fields, ref, dir);
    }

    /** The first loop of `transformObject`: one conversion per index key, stored under its output key. */
    method ConvertProps(val: Value, idx: seq<Entry>, ref: string, dir: Direction) returns (r: Engine.Result)
      requires Valid() && IsObjectLike(val)
      modifies this
      ensures Valid() && r == Engine.PropsPass(val, idx, 0, [], ref, dir, env)
      ensures old(jsonToJS).Keys <= jsonToJS.Keys && old(jsToJSON).Keys <= jsToJSON.Keys
      decreases Depth(val), 0, 0
    {
      var fs := OwnFields(val);
      var result: seq<Field> := [];
      for i := 0 to |idx|
        invariant Valid()
        invariant Engine.PropsPass(val, idx, 0, [], ref, dir, env) == Engine.PropsPass(val, idx, i, result, ref, dir, env)
        invariant old(jsonToJS).Keys <= jsonToJS.Keys && old(jsToJSON).Keys <= jsToJSON.Keys
      {
        var e := idx[i];
        DepthOfGet(val, e.from);
        var v := Transform(Get(fs, e.from), e.typ, dir, e.from, ref);
        if v.Err? {
          return v;
        }
        result := Put(result, e.to, v.value);
      }
      return Engine.Ok(Obj(result));
    }

    /** The second loop of `transformObject`: every own key the index does not name, under `additional`. */
    method ConvertExtras(val: Value, idx: seq<Entry>, add: Typ, acc: seq<Field>, ref: string, dir: Direction)
      returns (r: Engine.Result)
      requires Valid() && IsObjectLike(val)
      modifies this
      ensures Valid() && r == Engine.ExtrasPass(val, idx, add, 0, acc, ref, dir, env)
      ensures old(jsonToJS).Keys <= jsonToJS.Keys && old(jsToJSON).Keys <= jsToJSON.Keys
      decreases Depth(val), 0, 0
    {
      var fs := OwnFields(val);
      var sources := Sources(idx);
      var result := acc;
      for j := 0 to |fs|
        invariant Valid()
        invariant Engine.ExtrasPass(val, idx, add, 0, acc, ref, dir, env) ==
                  Engine.ExtrasPass(val, idx, add, j, result, ref, dir, env)
        invariant old(jsonToJS).Keys <= jsonToJS.Keys && old(jsToJSON).Keys <= jsToJSON.Keys
      {
        if fs[j].key !in sources {
          DepthOfField(val, j);
          var v := Transform(fs[j].val, add, dir, fs[j].key, ref);
          if v.Err? {
            return v;
          }
          result := Put(result, fs[j].key, v.value);
        }
      }
      return Engine.Ok(Obj(result));
    }

    /** `cast` */
    method Cast(val: Value, typ: Typ) returns (r: Engine.Result)
      requires Valid()
      modifies this
      ensures Valid() && r == Engine.Cast(val, typ, env)
    {
      r := Transform(val, typ, JsonToJs, "", "");
    }

    /** `uncast` */
    method Uncast(val: Value, typ: Typ) returns (r: Engine.Result)
      requires Valid()
      modifies this
      ensures Valid() && r == Engine.Uncast(val, typ, env)
    {
      r := Transform(val, typ, JsToJson, "", "");
    }
  }
}
