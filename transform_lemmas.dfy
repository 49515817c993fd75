/** What `transform` does, descriptor kind by descriptor kind. */
module TransformLemmas {
  import opened Util
  import opened JsonValue
  import opened Descriptor
  import opened PropIndex
  import opened Errors
  import opened Engine
  import opened StoreSteps

  // ----- guards, primitives, enums and dates -----

  /** A descriptor that is none of the guards and no reference is dispatched on directly, with no ref name. */
  lemma DirectDispatch(val: Value, typ: Typ, dir: Direction, key: string, parent: string, env: Env)
    requires env.table.Valid()
    requires typ != AnyT && typ != NullT && typ != NeverT && !typ.Ref?
    ensures Transform(val, typ, dir, key, parent, env) == Dispatch(val, typ, "", dir, key, parent, env)
  {
    assert Resolve(typ, "", env.table) == Resolved(typ, "");
  }

  /** Through a name that the table defines, the entry is resolved with that name remembered. */
  lemma RefDispatch(n: string, val: Value, dir: Direction, key: string, parent: string, env: Env)
    requires env.table.Valid() && n in env.table.types
    requires env.table.types[n] != NullT && !env.table.types[n].Ref?
    ensures Transform(val, Ref(n), dir, key, parent, env) == Dispatch(val, env.table.types[n], n, dir, key, parent, env)
  {
    assert Resolve(Ref(n), "", env.table) == Resolve(env.table.types[n], n, env.table);
  }

  /** "any" returns the value, null accepts only null, false rejects everything. */
  lemma GuardsBeforeRefs(val: Value, dir: Direction, key: string, parent: string, env: Env)
    requires env.table.Valid()
    ensures Transform(val, AnyT, dir, key, parent, env) == Ok(val)
    ensures Transform(val, NullT, dir, key, parent, env).Ok? <==> val == Null
    ensures Transform(val, NullT, dir, key, parent, env).Ok? ==> Transform(val, NullT, dir, key, parent, env).value == Null
    ensures Transform(val, NullT, dir, key, parent, env).Err? ==>
              Transform(val, NullT, dir, key, parent, env) == Fail(One(NullT), val, key, parent)
    ensures Transform(val, NeverT, dir, key, parent, env) == Fail(One(NeverT), val, key, parent)
  {
  }

  /**
   * The three guards look at the descriptor before any reference is followed:
   * reached through a name, "any" is the string `"any"`, false is a boolean, and
   * null is dereferenced.
   */
  lemma GuardsThroughRef(n: string, val: Value, dir: Direction, key: string, parent: string, env: Env)
    requires env.table.Valid() && n in env.table.types
    ensures env.table.types[n] == AnyT ==>
              (Transform(val, Ref(n), dir, key, parent, env).Ok? <==> val.Str?)
    ensures env.table.types[n] == NeverT ==>
              (Transform(val, Ref(n), dir, key, parent, env).Ok? <==> val.Bool?)
    ensures env.table.types[n] == NullT ==>
              Transform(val, Ref(n), dir, key, parent, env) == Err(NullDescriptor)
  {
    var t := env.table.types[n];
    if t == NullT {
      assert Resolve(Ref(n), "", env.table) == Resolve(t, n, env.table);
    } else if !t.Ref? {
      RefDispatch(n, val, dir, key, parent, env);
    }
  }

  /** A primitive descriptor keeps exactly the values whose `typeof` matches, unchanged. */
  lemma PrimitiveExact(k: PrimKind, val: Value, dir: Direction, key: string, parent: string, env: Env)
    requires env.table.Valid()
    ensures var r := Transform(val, Prim(k), dir, key, parent, env);
            (r.Ok? <==> TypeOf(val) == KindType(k)) &&
            (r.Ok? ==> r.value == val) &&
            (r.Err? ==> r == Fail(One(Prim(k)), val, key, parent))
  {
  }

  /** `""` accepts only strings, `0` only numbers and `true` only booleans. */
  lemma PrimitiveExamples(val: Value, dir: Direction, env: Env)
    requires env.table.Valid()
    ensures Transform(val, Prim(StringKind), dir, "", "", env).Ok? <==> val.Str?
    ensures Transform(val, Prim(NumberKind), dir, "", "", env).Ok? <==> val.Num?
    ensures Transform(val, Prim(BooleanKind), dir, "", "", env).Ok? <==> val.Bool?
  {
    PrimitiveExact(StringKind, val, dir, "", "", env);
    PrimitiveExact(NumberKind, val, dir, "", "", env);
    PrimitiveExact(BooleanKind, val, dir, "", "", env);
  }

  /** An enum keeps exactly its cases; otherwise the error lists the cases as literals. */
  lemma EnumExact(cases: seq<string>, val: Value, dir: Direction, key: string, parent: string, env: Env)
    requires env.table.Valid()
    ensures var r := Transform(val, Enum(cases), dir, key, parent, env);
            (r.Ok? <==> exists i :: 0 <= i < |cases| && val == Str(cases[i])) &&
            (r.Ok? ==> r.value == val) &&
            (r.Err? ==> r == Fail(Many(Literals(cases)), val, key, parent))
  {
    DirectDispatch(val, Enum(cases), dir, key, parent, env);
    var r := Transform(val, Enum(cases), dir, key, parent, env);
    if r.Ok? {
      assert val.Str? && val.s in cases;
      var i :| 0 <= i < |cases| && cases[i] == val.s;
      assert val == Str(cases[i]);
    }
  }

  /** Dates: null passes, a number is never parsed, anything else must parse. */
  lemma DateRules(val: Value, dir: Direction, key: string, parent: string, env: Env)
    requires env.table.Valid()
    ensures Transform(Null, DateT, dir, key, parent, env) == Ok(Null)
    ensures val.Num? ==> Transform(val, DateT, dir, key, parent, env) == Fail(One(DateT), val, key, parent)
    ensures !val.Num? && val != Null ==>
              Transform(val, DateT, dir, key, parent, env) ==
              (if env.parsesAsDate(val) then Ok(DateObj(val)) else Fail(One(Literal("Date")), val, key, parent))
  {
  }

  // ----- unions -----

  /** Member `j` is the first member from `i` on that accepts the value. */
  ghost predicate FirstAccepting(val: Value, ms: seq<Typ>, i: int, j: int, dir: Direction, env: Env)
    requires env.table.Valid()
  {
    0 <= i <= j < |ms| && Transform(val, ms[j], dir, "", "", env).Ok? &&
    forall k :: i <= k < j ==> Transform(val, ms[k], dir, "", "", env).Err?
  }

  /**
   * From member `i` on, a union returns what the first accepting member returns,
   * and fails with the full member list and the outer key and parent when none does.
   */
  lemma UnionFrom(val: Value, ms: seq<Typ>, i: nat, dir: Direction, key: string,
                  parent: string, env: Env)
    requires env.table.Valid() && i <= |ms|
    ensures var r := TransformUnion(val, ms, i, dir, key, parent, env);
            (r.Ok? <==> exists k :: i <= k < |ms| && Transform(val, ms[k], dir, "", "", env).Ok?) &&
            (forall j :: FirstAccepting(val, ms, i, j, dir, env) ==> r == Transform(val, ms[j], dir, "", "", env)) &&
            (r.Err? ==> r == Fail(Many(ms), val, key, parent))
  {
    var rs := MemberResults(val, ms, dir, env);
    UnionIsFirstOkFrom(val, ms, i, dir, key, parent, env);
    FirstOkFacts(rs, i, Fail(Many(ms), val, key, parent));
    assert forall j :: FirstAccepting(val, ms, i, j, dir, env) ==> FirstOk(rs, i, j);
  }

  /** The results of converting `val` with each member of `ms`. */
  function MemberResults(val: Value, ms: seq<Typ>, dir: Direction, env: Env): (rs: seq<Result>)
    requires env.table.Valid()
    ensures |rs| == |ms|
    ensures forall k :: 0 <= k < |ms| ==> rs[k] == Transform(val, ms[k], dir, "", "", env)
  {
    seq(|ms|, k requires 0 <= k < |ms| => Transform(val, ms[k], dir, "", "", env))
  }

  /** The union case, from member `i` on, is the union loop over the member results. */
  lemma {:induction false} UnionIsFirstOkFrom(val: Value, ms: seq<Typ>, i: nat, dir: Direction, key: string,
                                              parent: string, env: Env)
    requires env.table.Valid() && i <= |ms|
    ensures TransformUnion(val, ms, i, dir, key, parent, env) ==
            FirstOkFrom(MemberResults(val, ms, dir, env), i, Fail(Many(ms), val, key, parent))
    decreases |ms| - i
  {
    if i < |ms| {
      UnionIsFirstOkFrom(val, ms, i + 1, dir, key, parent, env);
    }
  }

  /** The union descriptor, tried from its first member. */
  lemma UnionFirstMatch(val: Value, ms: seq<Typ>, dir: Direction, key: string, parent: string, env: Env)
    requires env.table.Valid()
    ensures var r := Transform(val, Union(ms), dir, key, parent, env);
            (r.Ok? <==> exists k :: 0 <= k < |ms| && Transform(val, ms[k], dir, "", "", env).Ok?) &&
            (forall j :: FirstAccepting(val, ms, 0, j, dir, env) ==> r == Transform(val, ms[j], dir, "", "", env)) &&
            (r.Err? ==> r == Fail(Many(ms), val, key, parent))
  {
    DirectDispatch(val, Union(ms), dir, key, parent, env);
    UnionFrom(val, ms, 0, dir, key, parent, env);
  }

  // ----- arrays -----

  /** The element-wise results of converting `es` with `items`. */
  function ElementResults(es: seq<Value>, items: Typ, dir: Direction, env: Env): (rs: seq<Result>)
    requires env.table.Valid()
    ensures |rs| == |es|
  {
    seq(|es|, k requires 0 <= k < |es| => Transform(es[k], items, dir, "", "", env))
  }

  /**
   * From index `i` on, the array case succeeds iff every remaining element does;
   * then the output extends `acc` by the converted elements in order, and otherwise
   * it is the first element failure.
   */
  lemma ArrayFrom(es: seq<Value>, items: Typ, i: nat, acc: seq<Value>, dir: Direction,
                    key: string, parent: string, env: Env)
    requires env.table.Valid() && i <= |es|
    ensures var r := TransformArray(Arr(es), items, i, acc, dir, key, parent, env);
            var rs := ElementResults(es, items, dir, env);
            (r.Ok? <==> forall k :: i <= k < |es| ==> rs[k].Ok?) &&
            (r.Ok? ==> r.value.Arr? && |r.value.elems| == |acc| + |es| - i &&
                       r.value.elems[..|acc|] == acc &&
                       forall k :: i <= k < |es| ==> r.value.elems[|acc| + k - i] == rs[k].value) &&
            (forall j :: FirstFailing(rs, i, j) ==> r == rs[j])
  {
    ArrayIsCollectFrom(es, items, i, acc, dir, key, parent, env);
    CollectFromFacts(ElementResults(es, items, dir, env), i, acc);
  }

  /** The array case, from element `i` on, is the array loop over the element results. */
  lemma {:induction false} ArrayIsCollectFrom(es: seq<Value>, items: Typ, i: nat, acc: seq<Value>, dir: Direction,
                                              key: string, parent: string, env: Env)
    requires env.table.Valid() && i <= |es|
    ensures TransformArray(Arr(es), items, i, acc, dir, key, parent, env) ==
            CollectFrom(ElementResults(es, items, dir, env), i, acc)
    decreases |es| - i
  {
    if i < |es| {
      var here := Transform(es[i], items, dir, "", "", env);
      assert ElementResults(es, items, dir, env)[i] == here;
      if here.Ok? {
        ArrayIsCollectFrom(es, items, i + 1, acc + [here.value], dir, key, parent, env);
      }
    }
  }

  /** The array descriptor: non-arrays fail, arrays are converted element by element. */
  lemma ArrayPointwise(val: Value, items: Typ, dir: Direction, key: string, parent: string, env: Env)
    requires env.table.Valid()
    ensures var r := Transform(val, ArrayOf(items), dir, key, parent, env);
            (!val.Arr? ==> r == Fail(One(Literal("array")), val, key, parent)) &&
            (val.Arr? ==>
              var rs := ElementResults(val.elems, items, dir, env);
              (r.Ok? <==> forall k :: 0 <= k < |val.elems| ==> rs[k].Ok?) &&
              (r.Ok? ==> r.value.Arr? && |r.value.elems| == |val.elems| &&
                         forall k :: 0 <= k < |val.elems| ==> r.value.elems[k] == rs[k].value) &&
              (forall j :: FirstFailing(rs, 0, j) ==> r == rs[j]))
  {
    DirectDispatch(val, ArrayOf(items), dir, key, parent, env);
    if val.Arr? {
      ArrayFrom(val.elems, items, 0, [], dir, key, parent, env);
    }
  }
}
