/**
 * The conversion engine `transform(val, typ, getProps, key, parent)` as pure
 * functions.  Every thrown Error becomes an `Err`; the union's try/catch becomes
 * a test of the tag.  The direction stands for the `getProps` argument.
 */
module Engine {
  import opened Util
  import opened JsonValue
  import opened Descriptor
  import opened PropIndex
  import opened Errors

  /** The schema table and `new Date(v)` validity, which this model leaves abstract. */
  datatype Env = Env(table: Table, parsesAsDate: Value -> bool)

  datatype Result = Ok(value: Value) | Err(failure: Failure)

  /** `invalidValue(typ, val, key, parent)` */
  function Fail(expected: Expected, val: Value, key: string, parent: string): Result
  {
    Err(Mismatch(expected, val, key, parent))
  }

  /** `transformPrimitive`: the value is kept when `typeof` agrees, never coerced. */
  function TransformPrimitive(t: Typ, val: Value, key: string, parent: string): Result
  {
    if TypeOfDescriptor(t) == TypeOf(val) then Ok(val) else Fail(One(t), val, key, parent)
  }

  /** `transformEnum`: `cases.indexOf(val) !== -1`, the cases all being strings. */
  function TransformEnum(cases: seq<string>, val: Value, key: string, parent: string): Result
  {
    if val.Str? && val.s in cases then Ok(val) else Fail(Many(Literals(cases)), val, key, parent)
  }

  /** `transformDate`: null passes through, anything else becomes `new Date(val)` if that is valid. */
  function TransformDate(val: Value, key: string, parent: string, parsesAsDate: Value -> bool): Result
  {
    if val == Null then Ok(Null)
    else if !parsesAsDate(val) then Fail(One(Literal("Date")), val, key, parent)
    else Ok(DateObj(val))
  }

  /**
   * `transform`: the "any", null and false descriptors are recognised before any
   * reference is followed; then references are followed, and the descriptor reached
   * is dispatched on.
   */
  function Transform(val: Value, typ: Typ, dir: Direction, key: string, parent: string, env: Env): Result
    requires env.table.Valid()
    decreases Depth(val), Level(typ, env.table.rank), 3, 0
  {
    if typ == AnyT then Ok(val)
    else if typ == NullT then (if val == Null then Ok(val) else Fail(One(NullT), val, key, parent))
    else if typ == NeverT then Fail(One(NeverT), val, key, parent)
    else
      match Resolve(typ, "", env.table)
      case NullDeref => Err(NullDescriptor)
      case Resolved(t, ref) => Dispatch(val, t, ref, dir, key, parent, env)
  }

  /** The dispatch after the reference loop; `ref` is the last name followed, or "". */
  function Dispatch(val: Value, t: Typ, ref: string, dir: Direction, key: string, parent: string, env: Env): Result
    requires env.table.Valid()
    decreases Depth(val), Level(t, env.table.rank), 2, 0
  {
    match t
    case Enum(cases) => TransformEnum(cases, val, key, parent)
    case Union(ms) => TransformUnion(val, ms, 0, dir, key, parent, env)
    case ArrayOf(items) => TransformArray(val, items, 0, [], dir, key, parent, env)
    case Object(props, add) => TransformObject(val, IndexFor(dir, props), add, ref, dir, key, parent, env)
    case Literal(_) => Fail(One(t), val, key, parent)
    case Ref(_) => Fail(One(t), val, key, parent)
    case NullT => Err(NullDescriptor)
    case DateT =>
      if TypeOf(val) != TNumber then TransformDate(val, key, parent, env.parsesAsDate)
      else TransformPrimitive(t, val, key, parent)
    case _ => TransformPrimitive(t, val, key, parent)
  }

  /**
   * `transformUnion`, from member `i` on: each member is tried with an empty key
   * and parent, the first success is returned, and when all fail the error names
   * the whole member list with the outer key and parent.
   */
  function TransformUnion(val: Value, ms: seq<Typ>, i: nat, dir: Direction, key: string, parent: string,
                          env: Env): Result
    requires env.table.Valid() && i <= |ms|
    decreases Depth(val), Level(Union(ms), env.table.rank), 1, |ms| - i
  {
    if i == |ms| then Fail(Many(ms), val, key, parent)
    else
      MemberLevel(ms, i, env.table.rank);
      match Transform(val, ms[i], dir, "", "", env)
      case Ok(v) => Ok(v)
      case Err(_) => TransformUnion(val, ms, i + 1, dir, key, parent, env)
  }

  /** `transformArray`, with `acc` holding the converted elements before index `i`. */
  function TransformArray(val: Value, items: Typ, i: nat, acc: seq<Value>, dir: Direction, key: string,
                          parent: string, env: Env): Result
    requires env.table.Valid()
    requires val.Arr? ==> i <= |val.elems|
    decreases Depth(val), 0, 1, if val.Arr? then |val.elems| - i else 0
  {
    if !val.Arr? then Fail(One(Literal("array")), val, key, parent)
    else if i == |val.elems| then Ok(Arr(acc))
    else
      DepthOfElem(val.elems, i);
      match Transform(val.elems[i], items, dir, "", "", env)
      case Err(f) => Err(f)
      case Ok(v) => TransformArray(val, items, i + 1, acc + [v], dir, key, parent, env)
  }

  /** `transformObject` with the property index `idx` that `getProps` returned. */
  function TransformObject(val: Value, idx: seq<Entry>, add: Typ, ref: string, dir: Direction, key: string,
                           parent: string, env: Env): Result
    requires env.table.Valid()
    decreases Depth(val), 0, 1, 0
  {
    if !IsObjectLike(val) then Fail(One(Literal(if ref == "" then "object" else ref)), val, key, parent)
    else
      match PropsPass(val, idx, 0, [], ref, dir, env)
      case Err(f) => Err(f)
      case Ok(partial) => ExtrasPass(val, idx, add, 0, partial.fields, ref, dir, env)
  }

  /**
   * The first loop of `transformObject`: for every index key in order, the input's
   * value (or `undefined` when the key is absent) is converted under the entry's
   * descriptor with that key and the last ref name, and stored under the entry's
   * output key.
   */
  function PropsPass(val: Value, idx: seq<Entry>, i: nat, acc: seq<Field>, ref: string, dir: Direction,
                     env: Env): (r: Result)
    requires env.table.Valid() && IsObjectLike(val) && i <= |idx|
    ensures r.Ok? ==> r.value.Obj?
    decreases Depth(val), 0, 0, |idx| - i
  {
    if i == |idx| then Ok(Obj(acc))
    else
      var e := idx[i];
      DepthOfGet(val, e.from);
      match Transform(Get(OwnFields(val), e.from), e.typ, dir, e.from, ref, env)
      case Err(f) => Err(f)
      case Ok(w) => PropsPass(val, idx, i + 1, Put(acc, e.to, w), ref, dir, env)
  }

  /**
   * The second loop of `transformObject`: every own key of the input that is not
   * an index key keeps its name and is converted under `add`.
   */
  function ExtrasPass(val: Value, idx: seq<Entry>, add: Typ, j: nat, acc: seq<Field>, ref: string,
                      dir: Direction, env: Env): (r: Result)
    requires env.table.Valid() && IsObjectLike(val) && j <= |OwnFields(val)|
    ensures r.Ok? ==> r.value.Obj?
    decreases Depth(val), 0, 0, |OwnFields(val)| - j
  {
    var fs := OwnFields(val);
    if j == |fs| then Ok(Obj(acc))
    else if fs[j].key in Sources(idx) then ExtrasPass(val, idx, add, j + 1, acc, ref, dir, env)
    else
      DepthOfField(val, j);
      match Transform(fs[j].val, add, dir, fs[j].key, ref, env)
      case Err(f) => Err(f)
      case Ok(w) => ExtrasPass(val, idx, add, j + 1, Put(acc, fs[j].key, w), ref, dir, env)
  }

  /** `cast`: decode with the wire-to-typed property index. */
  function Cast(val: Value, typ: Typ, env: Env): Result
    requires env.table.Valid()
  {
    Transform(val, typ, JsonToJs, "", "", env)
  }

  /** `uncast`: encode with the typed-to-wire property index. */
  function Uncast(val: Value, typ: Typ, env: Env): Result
    requires env.table.Valid()
  {
    Transform(val, typ, JsToJson, "", "", env)
  }
}
