/** What the object case of `transform` does with an object-like value. */
module ObjectLemmas {
  import opened Util
  import opened JsonValue
  import opened Descriptor
  import opened PropIndex
  import opened Errors
  import opened Engine
  import opened TransformLemmas
  import opened StoreSteps

  /** The converted value of one index entry: the input's value under the entry's key, or `undefined`. */
  function PropResult(val: Value, e: Entry, ref: string, dir: Direction, env: Env): Result
    requires env.table.Valid() && IsObjectLike(val)
  {
    Transform(Get(OwnFields(val), e.from), e.typ, dir, e.from, ref, env)
  }

  /** The converted value of one field that the index does not name. */
  function ExtraResult(f: Field, add: Typ, ref: string, dir: Direction, env: Env): Result
    requires env.table.Valid()
  {
    Transform(f.val, add, dir, f.key, ref, env)
  }

  /** The output keys written by the index entries from `i` on. */
  ghost function TargetsFrom(idx: seq<Entry>, i: int): set<string>
  {
    set k | 0 <= i <= k < |idx| :: idx[k].to
  }

  /** The input's own keys from field `j` on that the index does not name. */
  ghost function ExtrasFrom(fs: seq<Field>, idx: seq<Entry>, j: int): set<string>
  {
    set k | 0 <= j <= k < |fs| && fs[k].key !in Sources(idx) :: fs[k].key
  }

  predicate UniqueTargets(idx: seq<Entry>)
  {
    forall a, b :: 0 <= a < b < |idx| ==> idx[a].to != idx[b].to
  }

  /** The own keys of a JavaScript object are distinct. */
  predicate UniqueKeys(fs: seq<Field>)
  {
    forall a, b :: 0 <= a < b < |fs| ==> fs[a].key != fs[b].key
  }

  ghost predicate FirstFailingProp(val: Value, idx: seq<Entry>, i: int, j: int, ref: string, dir: Direction, env: Env)
    requires env.table.Valid() && IsObjectLike(val)
  {
    0 <= i <= j < |idx| && PropResult(val, idx[j], ref, dir, env).Err? &&
    forall k :: i <= k < j ==> PropResult(val, idx[k], ref, dir, env).Ok?
  }

  ghost predicate FirstFailingExtra(fs: seq<Field>, idx: seq<Entry>, add: Typ, j: int, m: int, ref: string,
                                    dir: Direction, env: Env)
    requires env.table.Valid()
  {
    0 <= j <= m < |fs| && fs[m].key !in Sources(idx) && ExtraResult(fs[m], add, ref, dir, env).Err? &&
    forall k :: j <= k < m && fs[k].key !in Sources(idx) ==> ExtraResult(fs[k], add, ref, dir, env).Ok?
  }

  // ----- both loops as instances of StoreSteps -----

  /** The first loop's steps: every index entry assigns its output key. */
  function PropSteps(val: Value, idx: seq<Entry>, ref: string, dir: Direction, env: Env): (steps: seq<Step>)
    requires env.table.Valid() && IsObjectLike(val)
    ensures |steps| == |idx|
  {
    seq(|idx|, k requires 0 <= k < |idx| => Store(idx[k].to, PropResult(val, idx[k], ref, dir, env)))
  }

  /** The second loop's steps: an own key of the index is skipped, any other is assigned under its name. */
  function ExtraSteps(val: Value, idx: seq<Entry>, add: Typ, ref: string, dir: Direction, env: Env): (steps: seq<Step>)
    requires env.table.Valid() && IsObjectLike(val)
    ensures |steps| == |OwnFields(val)|
  {
    var fs := OwnFields(val);
    seq(|fs|, k requires 0 <= k < |fs| =>
      if fs[k].key in Sources(idx) then Skip else Store(fs[k].key, ExtraResult(fs[k], add, ref, dir, env)))
  }

  lemma PropsPassUnfold(val: Value, idx: seq<Entry>, i: nat, acc: seq<Field>, ref: string, dir: Direction, env: Env)
    requires env.table.Valid() && IsObjectLike(val) && i < |idx|
    ensures var here := PropResult(val, idx[i], ref, dir, env);
            here.Err? ==> PropsPass(val, idx, i, acc, ref, dir, env) == here
    ensures var here := PropResult(val, idx[i], ref, dir, env);
            here.Ok? ==>
              PropsPass(val, idx, i, acc, ref, dir, env) ==
              PropsPass(val, idx, i + 1, Put(acc, idx[i].to, here.value), ref, dir, env)
  {
  }

  lemma ExtrasPassUnfold(val: Value, idx: seq<Entry>, add: Typ, j: nat, acc: seq<Field>, ref: string,
                         dir: Direction, env: Env)
    requires env.table.Valid() && IsObjectLike(val) && j < |OwnFields(val)|
    ensures var f := OwnFields(val)[j];
            f.key in Sources(idx) ==>
              ExtrasPass(val, idx, add, j, acc, ref, dir, env) == ExtrasPass(val, idx, add, j + 1, acc, ref, dir, env)
    ensures var f := OwnFields(val)[j];
            f.key !in Sources(idx) && ExtraResult(f, add, ref, dir, env).Ok? ==>
              ExtrasPass(val, idx, add, j, acc, ref, dir, env) ==
              ExtrasPass(val, idx, add, j + 1, Put(acc, f.key, ExtraResult(f, add, ref, dir, env).value), ref, dir, env)
    ensures var f := OwnFields(val)[j];
            f.key !in Sources(idx) && ExtraResult(f, add, ref, dir, env).Err? ==>
              ExtrasPass(val, idx, add, j, acc, ref, dir, env) == ExtraResult(f, add, ref, dir, env)
  {
  }

  /** The first loop, from entry `i` on, is the store loop over its steps. */
  lemma {:induction false} PropsPassIsStoreFrom(val: Value, idx: seq<Entry>, i: nat, acc: seq<Field>, ref: string,
                                                dir: Direction, env: Env)
    requires env.table.Valid() && IsObjectLike(val) && i <= |idx|
    ensures PropsPass(val, idx, i, acc, ref, dir, env) == StoreFrom(PropSteps(val, idx, ref, dir, env), i, acc)
    decreases |idx| - i
  {
    if i < |idx| {
      var here := PropResult(val, idx[i], ref, dir, env);
      PropsPassUnfold(val, idx, i, acc, ref, dir, env);
      assert PropSteps(val, idx, ref, dir, env)[i] == Store(idx[i].to, here);
      if here.Ok? {
        PropsPassIsStoreFrom(val, idx, i + 1, Put(acc, idx[i].to, here.value), ref, dir, env);
      }
    }
  }

  /** The second loop, from field `j` on, is the store loop over its steps. */
  lemma {:induction false} ExtrasPassIsStoreFrom(val: Value, idx: seq<Entry>, add: Typ, j: nat, acc: seq<Field>,
                                                 ref: string, dir: Direction, env: Env)
    requires env.table.Valid() && IsObjectLike(val) && j <= |OwnFields(val)|
    ensures ExtrasPass(val, idx, add, j, acc, ref, dir, env) == StoreFrom(ExtraSteps(val, idx, add, ref, dir, env), j, acc)
    decreases |OwnFields(val)| - j
  {
    var fs := OwnFields(val);
    if j < |fs| {
      ExtrasPassUnfold(val, idx, add, j, acc, ref, dir, env);
      var steps := ExtraSteps(val, idx, add, ref, dir, env);
      if fs[j].key in Sources(idx) {
        assert steps[j] == Skip;
        ExtrasPassIsStoreFrom(val, idx, add, j + 1, acc, ref, dir, env);
      } else {
        var here := ExtraResult(fs[j], add, ref, dir, env);
        assert steps[j] == Store(fs[j].key, here);
        if here.Ok? {
          ExtrasPassIsStoreFrom(val, idx, add, j + 1, Put(acc, fs[j].key, here.value), ref, dir, env);
        }
      }
    }
  }

  lemma PropStepsKeys(val: Value, idx: seq<Entry>, i: nat, ref: string, dir: Direction, env: Env)
    requires env.table.Valid() && IsObjectLike(val)
    ensures StoredKeys(PropSteps(val, idx, ref, dir, env), i) == TargetsFrom(idx, i)
    ensures UniqueTargets(idx) ==> DistinctStores(PropSteps(val, idx, ref, dir, env))
  {
    var steps := PropSteps(val, idx, ref, dir, env);
    assert forall k :: 0 <= k < |idx| ==> steps[k].Store? && steps[k].key == idx[k].to;
  }

  lemma ExtraStepsKeys(val: Value, idx: seq<Entry>, add: Typ, j: nat, ref: string, dir: Direction, env: Env)
    requires env.table.Valid() && IsObjectLike(val)
    ensures StoredKeys(ExtraSteps(val, idx, add, ref, dir, env), j) == ExtrasFrom(OwnFields(val), idx, j)
    ensures UniqueKeys(OwnFields(val)) ==> DistinctStores(ExtraSteps(val, idx, add, ref, dir, env))
  {
    var fs := OwnFields(val);
    var steps := ExtraSteps(val, idx, add, ref, dir, env);
    assert forall k :: 0 <= k < |fs| ==> (steps[k].Store? <==> fs[k].key !in Sources(idx));
    assert forall k :: 0 <= k < |fs| && steps[k].Store? ==> steps[k].key == fs[k].key;
  }

  // ----- what the two loops compute -----

  /** The first loop, from entry `i` on, succeeds iff every remaining entry converts. */
  lemma PropsPassOk(val: Value, idx: seq<Entry>, i: nat, acc: seq<Field>, ref: string, dir: Direction, env: Env)
    requires env.table.Valid() && IsObjectLike(val) && i <= |idx|
    ensures PropsPass(val, idx, i, acc, ref, dir, env).Ok? <==>
            forall k :: i <= k < |idx| ==> PropResult(val, idx[k], ref, dir, env).Ok?
  {
    var steps := PropSteps(val, idx, ref, dir, env);
    PropsPassIsStoreFrom(val, idx, i, acc, ref, dir, env);
    StoreFromOk(steps, i, acc);
    assert forall k :: 0 <= k < |idx| ==> steps[k] == Store(idx[k].to, PropResult(val, idx[k], ref, dir, env));
  }

  /** A successful first loop adds exactly the output keys of the remaining entries. */
  lemma PropsPassKeys(val: Value, idx: seq<Entry>, i: nat, acc: seq<Field>, ref: string, dir: Direction, env: Env)
    requires env.table.Valid() && IsObjectLike(val) && i <= |idx|
    ensures var r := PropsPass(val, idx, i, acc, ref, dir, env);
            r.Ok? ==> KeysOf(r.value.fields) == KeysOf(acc) + TargetsFrom(idx, i)
  {
    PropsPassIsStoreFrom(val, idx, i, acc, ref, dir, env);
    StoreFromKeys(PropSteps(val, idx, ref, dir, env), i, acc);
    PropStepsKeys(val, idx, i, ref, dir, env);
  }

  /** A failing first loop fails with the error of its first failing entry. */
  lemma PropsPassFailure(val: Value, idx: seq<Entry>, i: nat, acc: seq<Field>, ref: string, dir: Direction, env: Env,
                         j: int)
    requires env.table.Valid() && IsObjectLike(val) && i <= |idx|
    requires FirstFailingProp(val, idx, i, j, ref, dir, env)
    ensures PropsPass(val, idx, i, acc, ref, dir, env) == PropResult(val, idx[j], ref, dir, env)
  {
    var steps := PropSteps(val, idx, ref, dir, env);
    PropsPassIsStoreFrom(val, idx, i, acc, ref, dir, env);
    assert FirstFailingStep(steps, i, j);
    StoreFromFailure(steps, i, acc, j);
  }

  /** A successful first loop leaves every key that no remaining entry writes as it was. */
  lemma PropsPassKeeps(val: Value, idx: seq<Entry>, i: nat, acc: seq<Field>, ref: string, dir: Direction, env: Env)
    requires env.table.Valid() && IsObjectLike(val) && i <= |idx|
    ensures var r := PropsPass(val, idx, i, acc, ref, dir, env);
            r.Ok? ==> forall x :: x !in TargetsFrom(idx, i) ==> Lookup(r.value.fields, x) == Lookup(acc, x)
  {
    PropsPassIsStoreFrom(val, idx, i, acc, ref, dir, env);
    StoreFromKeeps(PropSteps(val, idx, ref, dir, env), i, acc);
    PropStepsKeys(val, idx, i, ref, dir, env);
  }

  /**
   * When no two entries write the same key, a successful first loop leaves each
   * output key holding its entry's converted value.
   */
  lemma PropsPassStores(val: Value, idx: seq<Entry>, i: nat, acc: seq<Field>, ref: string, dir: Direction, env: Env)
    requires env.table.Valid() && IsObjectLike(val) && i <= |idx| && UniqueTargets(idx)
    ensures var r := PropsPass(val, idx, i, acc, ref, dir, env);
            r.Ok? ==>
              forall k :: i <= k < |idx| ==>
                PropResult(val, idx[k], ref, dir, env).Ok? &&
                Lookup(r.value.fields, idx[k].to) == Some(PropResult(val, idx[k], ref, dir, env).value)
  {
    var steps := PropSteps(val, idx, ref, dir, env);
    PropsPassIsStoreFrom(val, idx, i, acc, ref, dir, env);
    PropStepsKeys(val, idx, i, ref, dir, env);
    StoreFromStores(steps, i, acc);
    assert forall k :: 0 <= k < |idx| ==> steps[k] == Store(idx[k].to, PropResult(val, idx[k], ref, dir, env));
  }

  /** The second loop, from field `j` on, succeeds iff every remaining extra field converts. */
  lemma ExtrasPassOk(val: Value, idx: seq<Entry>, add: Typ, j: nat, acc: seq<Field>, ref: string, dir: Direction,
                     env: Env)
    requires env.table.Valid() && IsObjectLike(val) && j <= |OwnFields(val)|
    ensures var fs := OwnFields(val);
            ExtrasPass(val, idx, add, j, acc, ref, dir, env).Ok? <==>
            forall k :: j <= k < |fs| && fs[k].key !in Sources(idx) ==> ExtraResult(fs[k], add, ref, dir, env).Ok?
  {
    var fs := OwnFields(val);
    var steps := ExtraSteps(val, idx, add, ref, dir, env);
    ExtrasPassIsStoreFrom(val, idx, add, j, acc, ref, dir, env);
    StoreFromOk(steps, j, acc);
    assert forall k :: 0 <= k < |fs| && fs[k].key !in Sources(idx) ==>
             steps[k] == Store(fs[k].key, ExtraResult(fs[k], add, ref, dir, env));
  }

  /** A successful second loop adds exactly the extra keys from field `j` on. */
  lemma ExtrasPassKeys(val: Value, idx: seq<Entry>, add: Typ, j: nat, acc: seq<Field>, ref: string, dir: Direction,
                       env: Env)
    requires env.table.Valid() && IsObjectLike(val) && j <= |OwnFields(val)|
    ensures var r := ExtrasPass(val, idx, add, j, acc, ref, dir, env);
            r.Ok? ==> KeysOf(r.value.fields) == KeysOf(acc) + ExtrasFrom(OwnFields(val), idx, j)
  {
    ExtrasPassIsStoreFrom(val, idx, add, j, acc, ref, dir, env);
    StoreFromKeys(ExtraSteps(val, idx, add, ref, dir, env), j, acc);
    ExtraStepsKeys(val, idx, add, j, ref, dir, env);
  }

  /** A failing second loop fails with the error of its first failing extra field. */
  lemma ExtrasPassFailure(val: Value, idx: seq<Entry>, add: Typ, j: nat, acc: seq<Field>, ref: string,
                          dir: Direction, env: Env, m: int)
    requires env.table.Valid() && IsObjectLike(val) && j <= |OwnFields(val)|
    requires FirstFailingExtra(OwnFields(val), idx, add, j, m, ref, dir, env)
    ensures ExtrasPass(val, idx, add, j, acc, ref, dir, env) == ExtraResult(OwnFields(val)[m], add, ref, dir, env)
  {
    var fs := OwnFields(val);
    var steps := ExtraSteps(val, idx, add, ref, dir, env);
    ExtrasPassIsStoreFrom(val, idx, add, j, acc, ref, dir, env);
    assert forall k :: 0 <= k < |fs| && fs[k].key !in Sources(idx) ==>
             steps[k] == Store(fs[k].key, ExtraResult(fs[k], add, ref, dir, env));
    assert forall k :: 0 <= k < |fs| && fs[k].key in Sources(idx) ==> steps[k] == Skip;
    assert FirstFailingStep(steps, j, m);
    StoreFromFailure(steps, j, acc, m);
  }

  /** A successful second loop leaves every key that is not a remaining extra key as it was. */
  lemma ExtrasPassKeeps(val: Value, idx: seq<Entry>, add: Typ, j: nat, acc: seq<Field>, ref: string, dir: Direction,
                        env: Env)
    requires env.table.Valid() && IsObjectLike(val) && j <= |OwnFields(val)|
    ensures var r := ExtrasPass(val, idx, add, j, acc, ref, dir, env);
            r.Ok? ==> forall x :: x !in ExtrasFrom(OwnFields(val), idx, j) ==> Lookup(r.value.fields, x) == Lookup(acc, x)
  {
    ExtrasPassIsStoreFrom(val, idx, add, j, acc, ref, dir, env);
    StoreFromKeeps(ExtraSteps(val, idx, add, ref, dir, env), j, acc);
    ExtraStepsKeys(val, idx, add, j, ref, dir, env);
  }

  /** With distinct own keys, a successful second loop stores each extra field's converted value under its key. */
  lemma ExtrasPassStores(val: Value, idx: seq<Entry>, add: Typ, j: nat, acc: seq<Field>, ref: string,
                         dir: Direction, env: Env)
    requires env.table.Valid() && IsObjectLike(val) && j <= |OwnFields(val)| && UniqueKeys(OwnFields(val))
    ensures var fs := OwnFields(val);
            var r := ExtrasPass(val, idx, add, j, acc, ref, dir, env);
            r.Ok? ==>
              forall k :: j <= k < |fs| && fs[k].key !in Sources(idx) ==>
                ExtraResult(fs[k], add, ref, dir, env).Ok? &&
                Lookup(r.value.fields, fs[k].key) == Some(ExtraResult(fs[k], add, ref, dir, env).value)
  {
    var fs := OwnFields(val);
    var steps := ExtraSteps(val, idx, add, ref, dir, env);
    ExtrasPassIsStoreFrom(val, idx, add, j, acc, ref, dir, env);
    ExtraStepsKeys(val, idx, add, j, ref, dir, env);
    StoreFromStores(steps, j, acc);
    assert forall k :: 0 <= k < |fs| && fs[k].key !in Sources(idx) ==>
             steps[k] == Store(fs[k].key, ExtraResult(fs[k], add, ref, dir, env));
  }

  // ----- the whole object case -----

  /** Every entry of the index converts. */
  ghost predicate AllPropsOk(val: Value, idx: seq<Entry>, ref: string, dir: Direction, env: Env)
    requires env.table.Valid() && IsObjectLike(val)
  {
    forall k :: 0 <= k < |idx| ==> PropResult(val, idx[k], ref, dir, env).Ok?
  }

  /** Every own field that the index does not name converts under `additional`. */
  ghost predicate AllExtrasOk(val: Value, idx: seq<Entry>, add: Typ, ref: string, dir: Direction, env: Env)
    requires env.table.Valid() && IsObjectLike(val)
  {
    var fs := OwnFields(val);
    forall k :: 0 <= k < |fs| && fs[k].key !in Sources(idx) ==> ExtraResult(fs[k], add, ref, dir, env).Ok?
  }

  /** The own keys of `val` that the index does not name. */
  ghost function ExtraKeys(val: Value, idx: seq<Entry>): set<string>
    requires IsObjectLike(val)
  {
    ExtrasFrom(OwnFields(val), idx, 0)
  }

  /**
   * A value that is not a plain object fails with the last ref name (or "object")
   * as the expected literal; an object converts iff every index entry and every
   * extra field does.
   */
  lemma ObjectOk(val: Value, idx: seq<Entry>, add: Typ, ref: string, dir: Direction, key: string,
                 parent: string, env: Env)
    requires env.table.Valid()
    ensures var r := TransformObject(val, idx, add, ref, dir, key, parent, env);
            (!IsObjectLike(val) ==> r == Fail(One(Literal(if ref == "" then "object" else ref)), val, key, parent)) &&
            (IsObjectLike(val) ==>
              (r.Ok? <==> AllPropsOk(val, idx, ref, dir, env) && AllExtrasOk(val, idx, add, ref, dir, env)))
  {
    if IsObjectLike(val) {
      PropsPassOk(val, idx, 0, [], ref, dir, env);
      var partial := PropsPass(val, idx, 0, [], ref, dir, env);
      if partial.Ok? {
        ExtrasPassOk(val, idx, add, 0, partial.value.fields, ref, dir, env);
      }
    }
  }

  /** The output's keys are the index's output keys plus the input's extra keys, and nothing else. */
  lemma ObjectKeys(val: Value, idx: seq<Entry>, add: Typ, ref: string, dir: Direction, key: string,
                   parent: string, env: Env)
    requires env.table.Valid()
    ensures var r := TransformObject(val, idx, add, ref, dir, key, parent, env);
            r.Ok? ==> IsObjectLike(val) && r.value.Obj? && KeysOf(r.value.fields) == Targets(idx) + ExtraKeys(val, idx)
  {
    if IsObjectLike(val) {
      PropsPassKeys(val, idx, 0, [], ref, dir, env);
      var partial := PropsPass(val, idx, 0, [], ref, dir, env);
      if partial.Ok? {
        ExtrasPassKeys(val, idx, add, 0, partial.value.fields, ref, dir, env);
        assert TargetsFrom(idx, 0) == Targets(idx);
      }
    }
  }

  /**
   * With distinct output keys and distinct own keys, every extra field's converted
   * value is stored under its own key, and every entry whose output key is not
   * also an extra key holds the converted value read from its input key (or from
   * `undefined` when that key is absent).
   */
  lemma ObjectValues(val: Value, idx: seq<Entry>, add: Typ, ref: string, dir: Direction, key: string,
                     parent: string, env: Env)
    requires env.table.Valid() && IsObjectLike(val) && UniqueTargets(idx) && UniqueKeys(OwnFields(val))
    ensures var r := TransformObject(val, idx, add, ref, dir, key, parent, env);
            var fs := OwnFields(val);
            r.Ok? ==>
              (forall k :: 0 <= k < |fs| && fs[k].key !in Sources(idx) ==>
                 ExtraResult(fs[k], add, ref, dir, env).Ok? &&
                 Lookup(r.value.fields, fs[k].key) == Some(ExtraResult(fs[k], add, ref, dir, env).value)) &&
              (forall k :: 0 <= k < |idx| && idx[k].to !in ExtraKeys(val, idx) ==>
                 PropResult(val, idx[k], ref, dir, env).Ok? &&
                 Lookup(r.value.fields, idx[k].to) == Some(PropResult(val, idx[k], ref, dir, env).value))
  {
    PropsPassStores(val, idx, 0, [], ref, dir, env);
    var partial := PropsPass(val, idx, 0, [], ref, dir, env);
    if partial.Ok? {
      ExtrasPassStores(val, idx, add, 0, partial.value.fields, ref, dir, env);
      ExtrasPassKeeps(val, idx, add, 0, partial.value.fields, ref, dir, env);
    }
  }

  /** Under a converter that rejects every value, an extra field fails with its own key and the ref name. */
  lemma NeverExtra(f: Field, ref: string, dir: Direction, env: Env)
    requires env.table.Valid()
    ensures ExtraResult(f, NeverT, ref, dir, env) == Fail(One(NeverT), f.val, f.key, ref)
  {
    GuardsBeforeRefs(f.val, dir, f.key, ref, env);
  }

  /** With `additional = false` an object converts iff every entry does and it has no extra key. */
  lemma ClosedObjectOk(val: Value, idx: seq<Entry>, ref: string, dir: Direction, key: string,
                       parent: string, env: Env)
    requires env.table.Valid() && IsObjectLike(val)
    ensures TransformObject(val, idx, NeverT, ref, dir, key, parent, env).Ok? <==>
            AllPropsOk(val, idx, ref, dir, env) && ExtraKeys(val, idx) == {}
  {
    var fs := OwnFields(val);
    ObjectOk(val, idx, NeverT, ref, dir, key, parent, env);
    forall k | 0 <= k < |fs| ensures fs[k].key in Sources(idx) || fs[k].key in ExtraKeys(val, idx) {
    }
    if ExtraKeys(val, idx) != {} {
      var x :| x in ExtraKeys(val, idx);
      var k :| 0 <= k < |fs| && fs[k].key !in Sources(idx) && fs[k].key == x;
      NeverExtra(fs[k], ref, dir, env);
    }
  }

  /**
   * With `additional = false`, once every entry converts, the failure names the
   * first extra field's value, its key and the ref name.
   */
  lemma ClosedObjectFailure(val: Value, idx: seq<Entry>, ref: string, dir: Direction, key: string,
                            parent: string, env: Env, m: nat)
    requires env.table.Valid() && IsObjectLike(val) && AllPropsOk(val, idx, ref, dir, env)
    requires m < |OwnFields(val)| && OwnFields(val)[m].key !in Sources(idx)
    requires forall k :: 0 <= k < m ==> OwnFields(val)[k].key in Sources(idx)
    ensures TransformObject(val, idx, NeverT, ref, dir, key, parent, env) ==
            Fail(One(NeverT), OwnFields(val)[m].val, OwnFields(val)[m].key, ref)
  {
    var fs := OwnFields(val);
    PropsPassOk(val, idx, 0, [], ref, dir, env);
    var partial := PropsPass(val, idx, 0, [], ref, dir, env);
    NeverExtra(fs[m], ref, dir, env);
    assert FirstFailingExtra(fs, idx, NeverT, 0, m, ref, dir, env);
    ExtrasPassFailure(val, idx, NeverT, 0, partial.value.fields, ref, dir, env, m);
  }

  /** An object descriptor reached through name `n` converts with `n` as the ref name. */
  lemma ObjectThroughRef(n: string, val: Value, dir: Direction, key: string, parent: string, env: Env)
    requires env.table.Valid() && n in env.table.types && env.table.types[n].Object?
    ensures var t := env.table.types[n];
            Transform(val, Ref(n), dir, key, parent, env) ==
            TransformObject(val, IndexFor(dir, t.props), t.additional, n, dir, key, parent, env)
  {
    RefDispatch(n, val, dir, key, parent, env);
  }

  /** A chain of names is followed to its end, and the last name is the one remembered. */
  lemma LastRefRemembered(n: string, m: string, val: Value, dir: Direction, key: string, parent: string, env: Env)
    requires env.table.Valid() && n in env.table.types && m in env.table.types
    requires env.table.types[n] == Ref(m) && env.table.types[m].Object?
    ensures var t := env.table.types[m];
            Transform(val, Ref(n), dir, key, parent, env) ==
            TransformObject(val, IndexFor(dir, t.props), t.additional, m, dir, key, parent, env)
  {
    assert Resolve(Ref(n), "", env.table) == Resolve(Ref(m), n, env.table);
    assert Resolve(Ref(m), n, env.table) == Resolve(env.table.types[m], m, env.table);
  }
}
