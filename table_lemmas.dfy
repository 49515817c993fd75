/** What the concrete tables accept. */
module TableLemmas {
  import opened JsonValue
  import opened Descriptor
  import opened PropIndex
  import opened Errors
  import opened Engine
  import opened TransformLemmas
  import opened ObjectLemmas
  import opened CastUncast
  import opened Tables

  // ----- tables built from entry lists -----

  /** The keys of the built object are the entry names, each holding the value of some entry of that name. */
  lemma {:induction false} MapOfFacts(es: seq<(string, Typ)>)
    ensures forall n :: n in MapOf(es) <==> exists i :: 0 <= i < |es| && es[i].0 == n
    ensures forall n :: n in MapOf(es) ==> exists i :: 0 <= i < |es| && es[i].0 == n && MapOf(es)[n] == es[i].1
  {
    if es != [] {
      var init := es[..|es| - 1];
      MapOfFacts(init);
      assert MapOf(es) == MapOf(init)[es[|es| - 1].0 := es[|es| - 1].1];
      forall n | n in MapOf(es) ensures exists i :: 0 <= i < |es| && es[i].0 == n && MapOf(es)[n] == es[i].1 {
        if n != es[|es| - 1].0 {
          var i :| 0 <= i < |init| && init[i].0 == n && MapOf(init)[n] == init[i].1;
          assert es[i] == init[i];
        }
      }
      forall n | exists i :: 0 <= i < |es| && es[i].0 == n ensures n in MapOf(es) {
        var i :| 0 <= i < |es| && es[i].0 == n;
        if i < |es| - 1 {
          assert init[i] == es[i];
        }
      }
    }
  }

  /** An entry that no later entry overrides is the value of its name. */
  lemma {:induction false} MapOfLast(es: seq<(string, Typ)>, i: nat)
    requires i < |es| && forall j :: i < j < |es| ==> es[j].0 != es[i].0
    ensures es[i].0 in MapOf(es) && MapOf(es)[es[i].0] == es[i].1
  {
    if i < |es| - 1 {
      var init := es[..|es| - 1];
      assert init[i] == es[i];
      MapOfLast(init, i);
    }
  }

  /** A table of object shapes and enums only is well founded with rank 1 everywhere. */
  lemma ShallowTableValid(es: seq<(string, Typ)>)
    requires forall i :: 0 <= i < |es| ==> !es[i].1.Union? && !es[i].1.Ref?
    ensures Table(MapOf(es), RankAll(MapOf(es))).Valid()
  {
    MapOfFacts(es);
  }

  /** A table built from same-named entries is same-named. */
  lemma SameNamesTable(es: seq<(string, Typ)>, rank: map<string, nat>)
    requires forall i :: 0 <= i < |es| ==> SameNames(es[i].1)
    ensures TableSameNames(Table(MapOf(es), rank))
  {
    MapOfFacts(es);
  }

  // ----- the Jrpg table -----

  lemma JrpgShapesSameNames0()
    ensures SameNames(JrpgShape())
    ensures SameNames(FreeShape())
    ensures SameNames(GameShape())
  {
  }

  lemma JrpgShapesSameNames1()
    ensures SameNames(MapShape())
    ensures SameNames(PresetShape())
    ensures SameNames(PresetA1Shape())
  {
  }

  lemma JrpgShapesSameNames2()
    ensures SameNames(InfoShape())
    ensures SameNames(ViewNameShape())
    ensures SameNames(MetadataShape())
  {
  }

  lemma JrpgShapesSameNames3()
    ensures SameNames(ViewShape())
    ensures SameNames(ImageShape())
    ensures SameNames(PathShape())
  {
  }

  lemma JrpgShapesSameNames4()
    ensures SameNames(StyleClassShape())
    ensures SameNames(JrpgStoryShape())
    ensures SameNames(PhaseShape())
  {
  }

  lemma JrpgShapesSameNames5()
    ensures SameNames(Phase1A1Shape())
    ensures SameNames(AShape())
    ensures SameNames(AStoryShape())
  {
  }

  lemma JrpgShapesSameNames6()
    ensures SameNames(StyleEnumShape())
  {
  }

  lemma JrpgEntriesShallow()
    ensures forall i :: 0 <= i < |JrpgEntries()| ==> !JrpgEntries()[i].1.Union? && !JrpgEntries()[i].1.Ref?
  {
  }

  lemma JrpgTableValid()
    ensures JrpgTable().Valid()
  {
    JrpgEntriesShallow();
    ShallowTableValid(JrpgEntries());
  }

  /** No Jrpg property is renamed between the wire and the typed form. */
  lemma JrpgSameNames()
    ensures TableSameNames(JrpgTable())
  {
    JrpgShapesSameNames0();
    JrpgShapesSameNames1();
    JrpgShapesSameNames2();
    JrpgShapesSameNames3();
    JrpgShapesSameNames4();
    JrpgShapesSameNames5();
    JrpgShapesSameNames6();
    SameNamesTable(JrpgEntries(), JrpgTable().rank);
  }

  /** `toJrpg` and `jrpgToJson` agree on every value, whichever entry is named. */
  lemma JrpgCastIsUncast(n: string, val: Value, parsesAsDate: Value -> bool)
    ensures JrpgTable().Valid()
    ensures Cast(val, Ref(n), JrpgEnv(parsesAsDate)) == Uncast(val, Ref(n), JrpgEnv(parsesAsDate))
  {
    JrpgTableValid();
    JrpgSameNames();
    CastIsUncast(val, Ref(n), JrpgEnv(parsesAsDate));
  }

  // ----- the LDtk slice -----

  lemma LdtkShapesSameNames0()
    ensures SameNames(ForcedRefsShape())
    ensures SameNames(ItemsValueShape())
  {
  }

  lemma LdtkShapesSameNames1()
    ensures SameNames(IconShape())
    ensures SameNames(OneOfShape())
    ensures SameNames(ForcedRefsTypeShape())
  {
  }

  lemma LdtkTableValid()
    ensures LdtkTable().Valid()
  {
    ShallowTableValid(LdtkEntries());
  }

  /** `toLDtk` and `lDtkToJson` agree on every value over the slice. */
  lemma LdtkCastIsUncast(n: string, val: Value, parsesAsDate: Value -> bool)
    ensures LdtkTable().Valid()
    ensures Cast(val, Ref(n), LdtkEnv(parsesAsDate)) == Uncast(val, Ref(n), LdtkEnv(parsesAsDate))
  {
    LdtkTableValid();
    LdtkShapesSameNames0();
    LdtkShapesSameNames1();
    SameNamesTable(LdtkEntries(), LdtkTable().rank);
    CastIsUncast(val, Ref(n), LdtkEnv(parsesAsDate));
  }

  // ----- what particular entries accept -----

  /**
   * A closed shape with no properties accepts exactly the objects with no own
   * key and returns `{}`; a non-object fails naming the entry, and an object
   * with a key fails on its first key, with the entry's name as the parent.
   */
  lemma ClosedEmptyShape(n: string, val: Value, dir: Direction, key: string, parent: string, env: Env)
    requires env.table.Valid() && n in env.table.types && env.table.types[n] == Object([], NeverT)
    ensures var r := Transform(val, Ref(n), dir, key, parent, env);
            (!IsObjectLike(val) ==> r == Fail(One(Literal(if n == "" then "object" else n)), val, key, parent)) &&
            (IsObjectLike(val) ==> (r.Ok? <==> OwnFields(val) == [])) &&
            (r.Ok? ==> r.value == Obj([])) &&
            (IsObjectLike(val) && OwnFields(val) != [] ==>
               r == Fail(One(NeverT), OwnFields(val)[0].val, OwnFields(val)[0].key, n))
  {
    ObjectThroughRef(n, val, dir, key, parent, env);
    var idx := IndexFor(dir, []);
    assert idx == [];
    ObjectOk(val, idx, NeverT, n, dir, key, parent, env);
    ObjectKeys(val, idx, NeverT, n, dir, key, parent, env);
    var r := TransformObject(val, idx, NeverT, n, dir, key, parent, env);
    if IsObjectLike(val) {
      var fs := OwnFields(val);
      ClosedObjectOk(val, idx, n, dir, key, parent, env);
      if fs != [] {
        assert fs[0].key in ExtraKeys(val, idx);
        ClosedObjectFailure(val, idx, n, dir, key, parent, env, 0);
      }
    }
  }

  lemma JrpgFree()
    ensures "Free" in JrpgTypes() && JrpgTypes()["Free"] == Object([], NeverT)
  {
    MapOfLast(JrpgEntries(), 1);
  }

  /** `Free` accepts exactly `{}` (in either direction) and rejects every object with a key. */
  lemma FreeAcceptsOnlyEmpty(val: Value, dir: Direction, key: string, parent: string, parsesAsDate: Value -> bool)
    ensures JrpgTable().Valid()
    ensures var r := Transform(val, R("Free"), dir, key, parent, JrpgEnv(parsesAsDate));
            (!IsObjectLike(val) ==> r == Fail(One(Literal("Free")), val, key, parent)) &&
            (IsObjectLike(val) ==> (r.Ok? <==> OwnFields(val) == [])) &&
            (r.Ok? ==> r.value == Obj([])) &&
            (IsObjectLike(val) && OwnFields(val) != [] ==>
               r == Fail(One(NeverT), OwnFields(val)[0].val, OwnFields(val)[0].key, "Free"))
  {
    JrpgTableValid();
    JrpgFree();
    ClosedEmptyShape("Free", val, dir, key, parent, JrpgEnv(parsesAsDate));
  }

  lemma JrpgStyleEnum()
    ensures "StyleEnum" in JrpgTypes() && JrpgTypes()["StyleEnum"] == Enum(["auto"])
  {
    MapOfLast(JrpgEntries(), 18);
  }

  /** `StyleEnum` accepts exactly the string "auto", and its error lists that one case. */
  lemma StyleEnumOnlyAuto(val: Value, dir: Direction, key: string, parent: string, parsesAsDate: Value -> bool)
    ensures JrpgTable().Valid()
    ensures var r := Transform(val, R("StyleEnum"), dir, key, parent, JrpgEnv(parsesAsDate));
            (r.Ok? <==> val == Str("auto")) &&
            (r.Ok? ==> r.value == val) &&
            (r.Err? ==> r == Fail(Many([Literal("auto")]), val, key, parent) &&
                        PrettyTypeName(r.failure.expected) == "one of [auto]")
  {
    JrpgTableValid();
    JrpgStyleEnum();
    var env := JrpgEnv(parsesAsDate);
    RefDispatch("StyleEnum", val, dir, key, parent, env);
    assert Literals(["auto"]) == [Literal("auto")];
    EnumErrorListsCases(["auto"]);
  }

  lemma LdtkOneOf()
    ensures "OneOf" in LdtkTypes() && LdtkTypes()["OneOf"] == OneOfShape()
  {
    MapOfLast(LdtkEntries(), 3);
  }

  /** Both `OneOf` members are optional unions, so a missing key is read as `undefined` and accepted. */
  lemma OneOfMembers(val: Value, dir: Direction, key: string, parent: string, env: Env)
    requires env.table.Valid()
    ensures Transform(Undefined, U([Prim(UndefinedKind), A(R("FORCEDREFSType"))]), dir, key, parent, env) == Ok(Undefined)
    ensures Transform(Undefined, U([Prim(UndefinedKind), S]), dir, key, parent, env) == Ok(Undefined)
    ensures val.Str? ==> Transform(val, U([Prim(UndefinedKind), S]), dir, key, parent, env) == Ok(val)
  {
    PrimitiveExact(UndefinedKind, Undefined, dir, "", "", env);
    PrimitiveExact(UndefinedKind, val, dir, "", "", env);
    PrimitiveExact(StringKind, val, dir, "", "", env);
    var ms1 := [Prim(UndefinedKind), A(R("FORCEDREFSType"))];
    var ms2 := [Prim(UndefinedKind), S];
    assert FirstAccepting(Undefined, ms1, 0, 0, dir, env);
    assert FirstAccepting(Undefined, ms2, 0, 0, dir, env);
    UnionFirstMatch(Undefined, ms1, dir, key, parent, env);
    UnionFirstMatch(Undefined, ms2, dir, key, parent, env);
    if val.Str? {
      assert FirstAccepting(val, ms2, 0, 1, dir, env);
      UnionFirstMatch(val, ms2, dir, key, parent, env);
    }
  }

  /** The decode index of `OneOf`, in declaration order. */
  lemma OneOfIndex()
    ensures IndexFor(JsonToJs, OneOfShape().props) ==
            [Entry("type", "type", U([Prim(UndefinedKind), A(R("FORCEDREFSType"))])),
             Entry("$ref", "$ref", U([Prim(UndefinedKind), S]))]
    ensures "$ref" in Sources(IndexFor(JsonToJs, OneOfShape().props))
  {
    IndexWithoutRepeats(JsonToJs, OneOfShape().props);
    var idx := IndexFor(JsonToJs, OneOfShape().props);
    assert idx[1].from == "$ref";
  }

  /** One step of the index pass, with the converted value of the step given. */
  lemma PropsPassStep(val: Value, idx: seq<Entry>, i: nat, acc: seq<Field>, w: Value, ref: string,
                      dir: Direction, env: Env)
    requires env.table.Valid() && IsObjectLike(val) && i < |idx|
    requires Transform(Get(OwnFields(val), idx[i].from), idx[i].typ, dir, idx[i].from, ref, env) == Ok(w)
    ensures PropsPass(val, idx, i, acc, ref, dir, env) == PropsPass(val, idx, i + 1, Put(acc, idx[i].to, w), ref, dir, env)
  {
  }

  /** The pass over own keys skips a key the index already read. */
  lemma ExtrasPassSkip(val: Value, idx: seq<Entry>, add: Typ, j: nat, acc: seq<Field>, ref: string,
                       dir: Direction, env: Env)
    requires env.table.Valid() && IsObjectLike(val) && j < |OwnFields(val)|
    requires OwnFields(val)[j].key in Sources(idx)
    ensures ExtrasPass(val, idx, add, j, acc, ref, dir, env) == ExtrasPass(val, idx, add, j + 1, acc, ref, dir, env)
  {
  }

  /** The index pass of `OneOf` over `{}`. */
  lemma OneOfPropsEmpty(idx: seq<Entry>, env: Env)
    requires env.table.Valid()
    requires idx == [Entry("type", "type", U([Prim(UndefinedKind), A(R("FORCEDREFSType"))])),
                     Entry("$ref", "$ref", U([Prim(UndefinedKind), S]))]
    ensures PropsPass(Obj([]), idx, 0, [], "OneOf", JsonToJs, env) ==
            Ok(Obj([Field("type", Undefined), Field("$ref", Undefined)]))
  {
    var v := Obj([]);
    OneOfMembers(v, JsonToJs, "type", "OneOf", env);
    OneOfMembers(v, JsonToJs, "$ref", "OneOf", env);
    PropsPassStep(v, idx, 0, [], Undefined, "OneOf", JsonToJs, env);
    PropsPassStep(v, idx, 1, [Field("type", Undefined)], Undefined, "OneOf", JsonToJs, env);
    assert Put([Field("type", Undefined)], "$ref", Undefined) == [Field("type", Undefined), Field("$ref", Undefined)];
  }

  /**
   * Under any table whose `OneOf` entry is the LDtk shape, decoding `{}` yields
   * both keys holding `undefined`, in index order.
   */
  lemma OneOfEmptyIn(env: Env)
    requires env.table.Valid() && "OneOf" in env.table.types && env.table.types["OneOf"] == OneOfShape()
    ensures Cast(Obj([]), R("OneOf"), env) == Ok(Obj([Field("type", Undefined), Field("$ref", Undefined)]))
  {
    OneOfIndex();
    var idx := IndexFor(JsonToJs, OneOfShape().props);
    ObjectThroughRef("OneOf", Obj([]), JsonToJs, "", "", env);
    OneOfPropsEmpty(idx, env);
  }

  /** The own fields of `{"$ref": s}`: `type` reads as `undefined`. */
  lemma RefOnlyFields(s: string)
    ensures Get([Field("$ref", Str(s))], "type") == Undefined
    ensures Get([Field("$ref", Str(s))], "$ref") == Str(s)
  {
    var fs := [Field("$ref", Str(s))];
    assert "$ref"[0] != "type"[0];
    assert fs[1..] == [];
    assert Lookup(fs, "type") == Lookup([], "type");
  }

  /** The index pass of `OneOf` over `{"$ref": s}`. */
  lemma OneOfPropsRefOnly(s: string, idx: seq<Entry>, env: Env)
    requires env.table.Valid()
    requires idx == [Entry("type", "type", U([Prim(UndefinedKind), A(R("FORCEDREFSType"))])),
                     Entry("$ref", "$ref", U([Prim(UndefinedKind), S]))]
    ensures PropsPass(Obj([Field("$ref", Str(s))]), idx, 0, [], "OneOf", JsonToJs, env) ==
            Ok(Obj([Field("type", Undefined), Field("$ref", Str(s))]))
  {
    var v := Obj([Field("$ref", Str(s))]);
    RefOnlyFields(s);
    OneOfMembers(Str(s), JsonToJs, "type", "OneOf", env);
    OneOfMembers(Str(s), JsonToJs, "$ref", "OneOf", env);
    PropsPassStep(v, idx, 0, [], Undefined, "OneOf", JsonToJs, env);
    PropsPassStep(v, idx, 1, [Field("type", Undefined)], Str(s), "OneOf", JsonToJs, env);
    assert Put([Field("type", Undefined)], "$ref", Str(s)) == [Field("type", Undefined), Field("$ref", Str(s))];
  }

  /** Likewise, decoding `{"$ref": s}` keeps the string and adds `type` as `undefined`, first. */
  lemma OneOfRefOnlyIn(s: string, env: Env)
    requires env.table.Valid() && "OneOf" in env.table.types && env.table.types["OneOf"] == OneOfShape()
    ensures Cast(Obj([Field("$ref", Str(s))]), R("OneOf"), env) ==
            Ok(Obj([Field("type", Undefined), Field("$ref", Str(s))]))
  {
    OneOfIndex();
    var idx := IndexFor(JsonToJs, OneOfShape().props);
    var v := Obj([Field("$ref", Str(s))]);
    var out := [Field("type", Undefined), Field("$ref", Str(s))];
    ObjectThroughRef("OneOf", v, JsonToJs, "", "", env);
    OneOfPropsRefOnly(s, idx, env);
    ExtrasPassSkip(v, idx, NeverT, 0, out, "OneOf", JsonToJs, env);
  }

  /** In the LDtk table, both `OneOf` keys are optional. */
  lemma OneOfOptionalKeys(s: string, parsesAsDate: Value -> bool)
    ensures LdtkTable().Valid()
    ensures Cast(Obj([]), R("OneOf"), LdtkEnv(parsesAsDate)) ==
            Ok(Obj([Field("type", Undefined), Field("$ref", Undefined)]))
    ensures Cast(Obj([Field("$ref", Str(s))]), R("OneOf"), LdtkEnv(parsesAsDate)) ==
            Ok(Obj([Field("type", Undefined), Field("$ref", Str(s))]))
  {
    LdtkTableValid();
    LdtkOneOf();
    OneOfEmptyIn(LdtkEnv(parsesAsDate));
    OneOfRefOnlyIn(s, LdtkEnv(parsesAsDate));
  }
}
