/**
 * Converting a converted value again.  `transform` rebuilds objects from their
 * index, so its output is in general not its input (keys are reordered, absent
 * optional keys appear holding `undefined`, dates are wrapped).  What does hold
 * is a fixed point: on descriptors without unions and dates whose object shapes
 * are closed and keep their property names, a value that `transform` returns is
 * returned unchanged by a second `transform` against the same descriptor.  The
 * Jrpg table is of that kind.
 */
module Stability {
  import opened JsonValue
  import opened Descriptor
  import opened PropIndex
  import opened Engine
  import opened TransformLemmas
  import opened StoreSteps
  import opened ObjectLemmas
  import opened CastUncast
  import opened Tables
  import opened TableLemmas

  /** No union, no Date, and every object shape closed (`additional = false`) with unrenamed properties. */
  predicate Stable(t: Typ)
  {
    match t
    case Union(_) => false
    case DateT => false
    case ArrayOf(items) => Stable(items)
    case Object(props, add) =>
      add == NeverT && forall i :: 0 <= i < |props| ==> props[i].json == props[i].js && Stable(props[i].typ)
    case _ => true
  }

  predicate StableEnv(env: Env)
  {
    env.table.Valid() && forall n :: n in env.table.types ==> Stable(env.table.types[n])
  }

  /** A stable descriptor keeps its property names, so `cast` and `uncast` agree on it. */
  lemma {:induction false} StableSameNames(t: Typ)
    requires Stable(t)
    ensures SameNames(t)
  {
    match t
    case ArrayOf(items) => StableSameNames(items);
    case Object(props, add) =>
      forall i | 0 <= i < |props| ensures SameNames(props[i].typ) {
        StableSameNames(props[i].typ);
      }
    case _ =>
  }

  /** Following references from a stable descriptor in a stable table reaches a stable descriptor. */
  lemma ResolveStable(typ: Typ, env: Env)
    requires StableEnv(env) && Stable(typ)
    ensures Resolve(typ, "", env.table).Resolved? ==> Stable(Resolve(typ, "", env.table).t)
  {
  }

  /** The index of a stable shape maps every key to itself, with a stable descriptor, and has no repeated key. */
  lemma StableIndex(dir: Direction, props: seq<Prop>)
    requires Stable(Object(props, NeverT))
    ensures var idx := IndexFor(dir, props);
            UniqueSources(idx) && UniqueTargets(idx) &&
            forall k :: 0 <= k < |idx| ==> idx[k].from == idx[k].to && Stable(idx[k].typ)
  {
    IndexUnique(dir, props);
    IndexEntriesAreLast(dir, props);
    var idx := IndexFor(dir, props);
    forall k | 0 <= k < |idx| ensures idx[k].from == idx[k].to && Stable(idx[k].typ) {
      assert idx[k] in idx;
      var i :| 0 <= i < |props| && idx[k] == EntryFor(dir, props[i]) && LastAssignment(dir, props, i);
    }
  }

  /** A value that `transform` returns under a stable descriptor is returned unchanged by a second call. */
  lemma {:induction false} TransformStable(val: Value, typ: Typ, dir: Direction, key: string, parent: string,
                                           env: Env, w: Value)
    requires StableEnv(env) && Stable(typ)
    requires Transform(val, typ, dir, key, parent, env) == Ok(w)
    ensures Transform(w, typ, dir, key, parent, env) == Ok(w)
    decreases Depth(val), 2, 0
  {
    if typ != AnyT && typ != NullT && typ != NeverT {
      var res := Resolve(typ, "", env.table);
      if res.Resolved? {
        ResolveStable(typ, env);
        DispatchStable(val, res.t, res.ref, dir, key, parent, env, w);
      }
    }
  }

  lemma {:induction false} DispatchStable(val: Value, t: Typ, ref: string, dir: Direction, key: string,
                                          parent: string, env: Env, w: Value)
    requires StableEnv(env) && Stable(t)
    requires Dispatch(val, t, ref, dir, key, parent, env) == Ok(w)
    ensures Dispatch(w, t, ref, dir, key, parent, env) == Ok(w)
    decreases Depth(val), 1, 0
  {
    if t.ArrayOf? {
      ArrayStable(val, t.items, dir, key, parent, env, w);
    } else if t.Object? {
      ObjectStable(val, t.props, ref, dir, key, parent, env, w);
    }
  }

  /** Arrays: every converted element is a fixed point, so the converted array is one. */
  lemma {:induction false} ArrayStable(val: Value, items: Typ, dir: Direction, key: string, parent: string,
                                       env: Env, w: Value)
    requires StableEnv(env) && Stable(items)
    requires TransformArray(val, items, 0, [], dir, key, parent, env) == Ok(w)
    ensures TransformArray(w, items, 0, [], dir, key, parent, env) == Ok(w)
    decreases Depth(val), 0, 1
  {
    var es := val.elems;
    var rs := ElementResults(es, items, dir, env);
    ArrayIsCollectFrom(es, items, 0, [], dir, key, parent, env);
    CollectFromFacts(rs, 0, []);
    var ws := w.elems;
    ElementsStable(es, items, dir, env, ws);
    ArrayIsCollectFrom(ws, items, 0, [], dir, key, parent, env);
    CollectFromAllOk(ElementResults(ws, items, dir, env), ws);
  }

  lemma {:induction false} ElementsStable(es: seq<Value>, items: Typ, dir: Direction, env: Env, ws: seq<Value>)
    requires StableEnv(env) && Stable(items)
    requires |ws| == |es| && forall k :: 0 <= k < |es| ==> ElementResults(es, items, dir, env)[k] == Ok(ws[k])
    ensures forall k :: 0 <= k < |ws| ==> ElementResults(ws, items, dir, env)[k] == Ok(ws[k])
    decreases Depth(Arr(es)), 0, 0
  {
    forall k | 0 <= k < |ws| ensures ElementResults(ws, items, dir, env)[k] == Ok(ws[k]) {
      DepthOfElem(es, k);
      TransformStable(es[k], items, dir, "", "", env, ws[k]);
    }
  }

  /**
   * Closed objects: the result holds exactly the index keys, each with a fixed
   * point, so the first pass over it rebuilds it and the second pass finds no
   * extra key.
   */
  lemma {:induction false} ObjectStable(val: Value, props: seq<Prop>, ref: string, dir: Direction, key: string,
                                        parent: string, env: Env, w: Value)
    requires StableEnv(env) && Stable(Object(props, NeverT))
    requires TransformObject(val, IndexFor(dir, props), NeverT, ref, dir, key, parent, env) == Ok(w)
    ensures TransformObject(w, IndexFor(dir, props), NeverT, ref, dir, key, parent, env) == Ok(w)
    decreases Depth(val), 0, 1
  {
    var idx := IndexFor(dir, props);
    StableIndex(dir, props);
    var partial := PropsPass(val, idx, 0, [], ref, dir, env);
    var fs := partial.value.fields;
    ClosedExtras(val, idx, fs, ref, dir, env);
    assert w == Obj(fs);
    PropsStable(val, idx, fs, ref, dir, env);
    PropsPassIsStoreFrom(val, idx, 0, [], ref, dir, env);
    PropsPassIsStoreFrom(w, idx, 0, [], ref, dir, env);
    OnlyIndexKeys(val, idx, fs, ref, dir, env);
  }

  /** Under `additional = false` a successful second pass found no extra key, so it returned its accumulator. */
  lemma ClosedExtras(val: Value, idx: seq<Entry>, fs: seq<Field>, ref: string, dir: Direction, env: Env)
    requires env.table.Valid() && IsObjectLike(val)
    requires ExtrasPass(val, idx, NeverT, 0, fs, ref, dir, env).Ok?
    ensures ExtrasPass(val, idx, NeverT, 0, fs, ref, dir, env) == Ok(Obj(fs))
  {
    ExtrasPassIsStoreFrom(val, idx, NeverT, 0, fs, ref, dir, env);
    var xs := ExtraSteps(val, idx, NeverT, ref, dir, env);
    StoreFromOk(xs, 0, fs);
    assert forall k :: 0 <= k < |xs| ==> xs[k].Skip? || xs[k].result.Err?;
    StoreFromAllSkip(xs, 0, fs);
  }

  /** Each index key of the first pass's output holds a fixed point, so a first pass over it computes the same steps. */
  lemma {:induction false} PropsStable(val: Value, idx: seq<Entry>, fs: seq<Field>, ref: string, dir: Direction,
                                       env: Env)
    requires StableEnv(env) && IsObjectLike(val) && UniqueTargets(idx)
    requires forall k :: 0 <= k < |idx| ==> idx[k].from == idx[k].to && Stable(idx[k].typ)
    requires PropsPass(val, idx, 0, [], ref, dir, env) == Ok(Obj(fs))
    ensures PropSteps(Obj(fs), idx, ref, dir, env) == PropSteps(val, idx, ref, dir, env)
    decreases Depth(val), 0, 0
  {
    PropsPassStores(val, idx, 0, [], ref, dir, env);
    forall k | 0 <= k < |idx|
      ensures PropResult(Obj(fs), idx[k], ref, dir, env) == PropResult(val, idx[k], ref, dir, env)
    {
      var v := PropResult(val, idx[k], ref, dir, env).value;
      assert Get(fs, idx[k].from) == v;
      DepthOfGet(val, idx[k].from);
      TransformStable(Get(OwnFields(val), idx[k].from), idx[k].typ, dir, idx[k].from, ref, env, v);
    }
  }

  /** The first pass's output has only index keys, so a second pass over it skips every key. */
  lemma OnlyIndexKeys(val: Value, idx: seq<Entry>, fs: seq<Field>, ref: string, dir: Direction, env: Env)
    requires env.table.Valid() && IsObjectLike(val)
    requires forall k :: 0 <= k < |idx| ==> idx[k].from == idx[k].to
    requires PropsPass(val, idx, 0, [], ref, dir, env) == Ok(Obj(fs))
    ensures ExtrasPass(Obj(fs), idx, NeverT, 0, fs, ref, dir, env) == Ok(Obj(fs))
  {
    PropsPassKeys(val, idx, 0, [], ref, dir, env);
    assert KeysOf([]) == {};
    ExtrasPassIsStoreFrom(Obj(fs), idx, NeverT, 0, fs, ref, dir, env);
    var ys := ExtraSteps(Obj(fs), idx, NeverT, ref, dir, env);
    forall k | 0 <= k < |ys| ensures ys[k].Skip? {
      assert fs[k].key in KeysOf(fs);
      var m :| 0 <= m < |idx| && idx[m].to == fs[k].key;
      assert idx[m].from in Sources(idx);
    }
    StoreFromAllSkip(ys, 0, fs);
  }

  // ----- the Jrpg table -----

  lemma JrpgShapesStable0()
    ensures Stable(JrpgShape())
    ensures Stable(FreeShape())
    ensures Stable(GameShape())
  {
  }

  lemma JrpgShapesStable1()
    ensures Stable(MapShape())
    ensures Stable(PresetShape())
    ensures Stable(PresetA1Shape())
  {
  }

  lemma JrpgShapesStable2()
    ensures Stable(InfoShape())
    ensures Stable(ViewNameShape())
  {
  }

  lemma JrpgShapesStable3()
    ensures Stable(MetadataShape())
    ensures Stable(ViewShape())
    ensures Stable(ImageShape())
  {
  }

  lemma JrpgShapesStable4()
    ensures Stable(PathShape())
    ensures Stable(StyleClassShape())
  {
  }

  lemma JrpgShapesStable5()
    ensures Stable(JrpgStoryShape())
    ensures Stable(PhaseShape())
    ensures Stable(Phase1A1Shape())
  {
  }

  lemma JrpgShapesStable6()
    ensures Stable(AShape())
    ensures Stable(AStoryShape())
    ensures Stable(StyleEnumShape())
  {
  }

  /** Every Jrpg entry is stable: all shapes are closed, unrenamed, and use no union and no Date. */
  lemma JrpgStable(parsesAsDate: Value -> bool)
    ensures StableEnv(JrpgEnv(parsesAsDate))
  {
    JrpgTableValid();
    JrpgShapesStable0();
    JrpgShapesStable1();
    JrpgShapesStable2();
    JrpgShapesStable3();
    JrpgShapesStable4();
    JrpgShapesStable5();
    JrpgShapesStable6();
    MapOfFacts(JrpgEntries());
  }

  /**
   * A value that `cast` decodes against a Jrpg entry decodes to itself again, and
   * `uncast` of it against the same entry gives it back unchanged.
   */
  lemma JrpgDecodedIsFixed(n: string, raw: Value, parsesAsDate: Value -> bool)
    ensures JrpgTable().Valid()
    ensures var env := JrpgEnv(parsesAsDate);
            var w := Cast(raw, Ref(n), env);
            w.Ok? ==> Cast(w.value, Ref(n), env) == w && Uncast(w.value, Ref(n), env) == w
  {
    var env := JrpgEnv(parsesAsDate);
    JrpgStable(parsesAsDate);
    var w := Cast(raw, Ref(n), env);
    if w.Ok? {
      TransformStable(raw, Ref(n), JsonToJs, "", "", env, w.value);
      JrpgCastIsUncast(n, w.value, parsesAsDate);
    }
  }
}
