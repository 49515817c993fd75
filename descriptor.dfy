/**
 * Type descriptors and the table that names them.  The engine encodes descriptors
 * as bare JavaScript values ("any", null, false, "", 0, true, undefined, Date, a
 * plain array, or an object with one of the fields ref / unionMembers /
 * arrayItems / props / literal); here each encoding is a constructor.
 */
module Descriptor {
  import opened Util
  import opened JsonValue

  /** The primitive descriptors `""`, `0`, `true` and `undefined`, matched by `typeof`. */
  datatype PrimKind = StringKind | NumberKind | BooleanKind | UndefinedKind

  datatype Typ =
    | AnyT                                      // "any"
    | NullT                                     // null
    | NeverT                                    // false
    | Prim(kind: PrimKind)                      // "", 0, true, undefined
    | DateT                                     // the Date constructor
    | Enum(cases: seq<string>)                  // a plain array of cases
    | Literal(text: string)                     // { literal }: only used in error messages
    | Ref(name: string)                         // { ref }
    | Union(members: seq<Typ>)                  // { unionMembers }
    | ArrayOf(items: Typ)                       // { arrayItems }
    | Object(props: seq<Prop>, additional: Typ) // { props, additional }

  /** One entry of an object shape: wire key `json`, in-memory key `js`. */
  datatype Prop = Prop(json: string, js: string, typ: Typ)

  /** The helper constructors `l`, `a`, `u`, `o`, `m` and `r` of the engine. */
  function L(text: string): Typ { Literal(text) }
  function A(items: Typ): Typ { ArrayOf(items) }
  function U(members: seq<Typ>): Typ { Union(members) }
  function O(props: seq<Prop>, additional: Typ): Typ { Object(props, additional) }
  function M(additional: Typ): Typ { Object([], additional) }
  function R(name: string): Typ { Ref(name) }

  function KindType(k: PrimKind): JsType
  {
    match k
    case StringKind => TString
    case NumberKind => TNumber
    case BooleanKind => TBoolean
    case UndefinedKind => TUndefined
  }

  /** `typeof typ` for a descriptor. */
  function TypeOfDescriptor(t: Typ): JsType
  {
    match t
    case AnyT => TString
    case NeverT => TBoolean
    case Prim(k) => KindType(k)
    case DateT => TFunction
    case _ => TObject
  }

  /**
   * How many union layers and reference hops can be taken from `t` without the
   * value getting smaller; `rank` bounds this for every named entry.
   */
  function Level(t: Typ, rank: map<string, nat>): nat
  {
    match t
    case Union(ms) => 1 + MaxOf(seq(|ms|, i requires 0 <= i < |ms| => Level(ms[i], rank)))
    case Ref(n) => if n in rank then rank[n] else 0
    case _ => 0
  }

  lemma MemberLevel(ms: seq<Typ>, i: nat, rank: map<string, nat>)
    requires i < |ms|
    ensures Level(ms[i], rank) < Level(Union(ms), rank)
  {
    var s := seq(|ms|, j requires 0 <= j < |ms| => Level(ms[j], rank));
    assert s[i] == Level(ms[i], rank);
  }

  /**
   * The `typeMap` of a schema.  `rank` is a termination witness: every entry
   * reaches another entry through unions and references only at a lower rank, so
   * no chain of references and unions loops without consuming input.
   */
  datatype Table = Table(types: map<string, Typ>, rank: map<string, nat>)
  {
    predicate Valid()
    {
      forall n :: n in types ==> n in rank && Level(types[n], rank) < rank[n]
    }
  }

  /** The outcome of the reference-following loop: the descriptor reached and the last name followed. */
  datatype Resolution = Resolved(t: Typ, ref: string) | NullDeref

  /**
   * `while (typeof typ === "object" && typ.ref !== undefined) { ref = typ.ref; typ = typeMap[typ.ref]; }`
   * A name missing from the table yields `undefined`; a null entry makes the loop
   * condition dereference null.  `ref` is "" while no reference has been followed.
   */
  function Resolve(typ: Typ, ref: string, table: Table): (r: Resolution)
    requires table.Valid()
    ensures r.Resolved? ==> !r.t.Ref? && !r.t.NullT?
    ensures r.Resolved? ==> Level(r.t, table.rank) <= Level(typ, table.rank)
    ensures typ.Ref? && r.Resolved? ==>
              if r.ref in table.types then table.types[r.ref] == r.t else r.t == Prim(UndefinedKind)
    ensures !typ.Ref? && !typ.NullT? ==> r == Resolved(typ, ref)
    decreases Level(typ, table.rank)
  {
    match typ
    case Ref(n) =>
      if n in table.types then Resolve(table.types[n], n, table)
      else Resolved(Prim(UndefinedKind), n)
    case NullT => NullDeref
    case _ => Resolved(typ, ref)
  }
}
