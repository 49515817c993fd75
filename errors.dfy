/**
 * The engine's single failure kind (`invalidValue`) and the rendering of expected
 * types in its message (`prettyTypeName`).
 */
module Errors {
  import opened Util
  import opened JsonValue
  import opened Descriptor

  /** What `invalidValue` receives as `typ`: one descriptor, or a plain array of them. */
  datatype Expected = One(t: Typ) | Many(ts: seq<Typ>)

  datatype Failure =
    /** `invalidValue(typ, val, key, parent)`: the structured content of the thrown Error. */
    | Mismatch(expected: Expected, val: Value, key: string, parent: string)
    /** The TypeError thrown when the reference loop meets a null table entry. */
    | NullDescriptor

  function TypeName(t: JsType): string
  {
    match t
    case TUndefined => "undefined"
    case TObject => "object"
    case TBoolean => "boolean"
    case TNumber => "number"
    case TString => "string"
    case TFunction => "function"
  }

  /** `Array.prototype.join`. */
  function Join(ss: seq<string>, sep: string): string
  {
    if ss == [] then ""
    else if |ss| == 1 then ss[0]
    else ss[0] + sep + Join(ss[1..], sep)
  }

  function OneOf(names: seq<string>): string
  {
    "one of [" + Join(names, ", ") + "]"
  }

  /**
   * The name of one descriptor: a literal by its text, an enum (a plain array of
   * strings) as a list of "string", anything else by its `typeof`.  The null
   * descriptor is named "null" (see PrettyDescriptorAsWritten for the engine's text).
   */
  function PrettyDescriptor(t: Typ): string
  {
    match t
    case Literal(s) => s
    case NullT => "null"
    case Enum(cases) => OneOf(seq(|cases|, i => "string"))
    case _ => TypeName(TypeOfDescriptor(t))
  }

  function PrettyList(ts: seq<Typ>): string
  {
    if |ts| == 2 && ts[0] == Prim(UndefinedKind) then "an optional " + PrettyDescriptor(ts[1])
    else OneOf(seq(|ts|, i requires 0 <= i < |ts| => PrettyDescriptor(ts[i])))
  }

  /** `prettyTypeName`, with a null descriptor named "null". */
  function PrettyTypeName(e: Expected): string
  {
    match e
    case One(t) => PrettyDescriptor(t)
    case Many(ts) => PrettyList(ts)
  }

  /**
   * `prettyTypeName` as the engine has it: `typeof null === "object"`, so the
   * literal test reads `null.literal` and throws (None).
   */
  function PrettyDescriptorAsWritten(t: Typ): Option<string>
  {
    match t
    case NullT => None
    case Literal(s) => Some(s)
    case Enum(cases) => Some(OneOf(seq(|cases|, i => "string")))
    case _ => Some(TypeName(TypeOfDescriptor(t)))
  }

  /** `typ.map(prettyTypeName)`: throws as soon as one name throws. */
  function PrettyAllAsWritten(ts: seq<Typ>): Option<seq<string>>
  {
    if ts == [] then Some([])
    else match (PrettyDescriptorAsWritten(ts[0]), PrettyAllAsWritten(ts[1..]))
      case (Some(h), Some(t)) => Some([h] + t)
      case _ => None
  }

  function PrettyTypeNameAsWritten(e: Expected): Option<string>
  {
    match e
    case One(t) => PrettyDescriptorAsWritten(t)
    case Many(ts) =>
      if |ts| == 2 && ts[0] == Prim(UndefinedKind) then
        match PrettyDescriptorAsWritten(ts[1])
        case Some(s) => Some("an optional " + s)
        case None => None
      else
        match PrettyAllAsWritten(ts)
        case Some(names) => Some(OneOf(names))
        case None => None
  }

  predicate MentionsNull(e: Expected)
  {
    match e
    case One(t) => t == NullT
    case Many(ts) => exists i :: 0 <= i < |ts| && ts[i] == NullT
  }

  lemma {:induction false} PrettyAllAsWrittenWithoutNull(ts: seq<Typ>)
    ensures (forall i :: 0 <= i < |ts| ==> ts[i] != NullT) <==> PrettyAllAsWritten(ts).Some?
    ensures PrettyAllAsWritten(ts).Some? ==>
              PrettyAllAsWritten(ts).value == seq(|ts|, i requires 0 <= i < |ts| => PrettyDescriptor(ts[i]))
  {
    if ts != [] {
      PrettyAllAsWrittenWithoutNull(ts[1..]);
      assert forall i :: 1 <= i < |ts| ==> ts[1..][i - 1] == ts[i];
      if PrettyAllAsWritten(ts).Some? {
        var names := seq(|ts|, i requires 0 <= i < |ts| => PrettyDescriptor(ts[i]));
        assert names == [names[0]] + names[1..];
        assert names[1..] == seq(|ts[1..]|, i requires 0 <= i < |ts[1..]| => PrettyDescriptor(ts[1..][i]));
      }
    }
  }

  /**
   * The engine's `prettyTypeName` throws exactly when the null descriptor is one of
   * the names to print (at the top, as the optional part, or in the list); otherwise
   * it produces the same text as PrettyTypeName.
   */
  lemma PrettyAsWrittenCrashesOnlyOnNull(e: Expected)
    ensures PrettyTypeNameAsWritten(e).None? <==> MentionsNull(e)
    ensures !MentionsNull(e) ==> PrettyTypeNameAsWritten(e) == Some(PrettyTypeName(e))
  {
    if e.Many? {
      PrettyAllAsWrittenWithoutNull(e.ts);
    }
  }

  /** The nullable-string union of the error text `one of [string, null]`, and the as-written crash. */
  lemma NullableStringUnionText()
    ensures PrettyTypeName(Many([Prim(StringKind), NullT])) == "one of [string, null]"
    ensures PrettyTypeNameAsWritten(Many([Prim(StringKind), NullT])).None?
    ensures PrettyTypeNameAsWritten(One(NullT)).None?
  {
    var names := seq(2, i requires 0 <= i < 2 => PrettyDescriptor([Prim(StringKind), NullT][i]));
    assert names == ["string", "null"];
    assert Join(names, ", ") == "string, null";
    PrettyAllAsWrittenWithoutNull([Prim(StringKind), NullT]);
  }

  /** "an optional X" is used exactly for a two-element list headed by the undefined descriptor. */
  lemma OptionalIffUndefinedFirst(ts: seq<Typ>)
    ensures var s := PrettyTypeName(Many(ts));
            (|s| >= 12 && s[..12] == "an optional ") <==> (|ts| == 2 && ts[0] == Prim(UndefinedKind))
  {
    var s := PrettyTypeName(Many(ts));
    if !(|ts| == 2 && ts[0] == Prim(UndefinedKind)) {
      assert s[0] == 'o';
    } else {
      assert s == "an optional " + PrettyDescriptor(ts[1]);
      assert s[..12] == "an optional ";
    }
  }

  function Literals(cases: seq<string>): seq<Typ>
  {
    seq(|cases|, i requires 0 <= i < |cases| => Literal(cases[i]))
  }

  /** The error of an enum lists its cases verbatim: `cases.map(l)` renders as "one of [c1, c2, ...]". */
  lemma EnumErrorListsCases(cases: seq<string>)
    ensures PrettyTypeName(Many(Literals(cases))) == OneOf(cases)
  {
    var ts := Literals(cases);
    assert |ts| == 2 ==> ts[0] == Literal(cases[0]);
    assert seq(|ts|, i requires 0 <= i < |ts| => PrettyDescriptor(ts[i])) == cases;
  }

  function KeyText(key: string): string
  {
    if key == "" then "" else " for key \"" + key + "\""
  }

  function ParentText(parent: string): string
  {
    if parent == "" then "" else " on " + parent
  }

  /**
   * The message `invalidValue` throws.  `render` stands for `JSON.stringify`,
   * which this model leaves abstract.
   */
  function InvalidValueMessage(expected: Expected, val: Value, key: string, parent: string,
                               render: Value -> string): string
  {
    "Invalid value" + KeyText(key) + ParentText(parent) + ". Expected " + PrettyTypeName(expected)
      + " but got " + render(val)
  }

  /** The key clause and the parent clause are left out exactly when they are empty. */
  lemma ContextClausesOmittedIffEmpty(key: string, parent: string)
    ensures KeyText(key) == "" <==> key == ""
    ensures ParentText(parent) == "" <==> parent == ""
    ensures key != "" ==> |KeyText(key)| == |key| + 11
    ensures parent != "" ==> |ParentText(parent)| == |parent| + 4
  {
  }

  /** With an empty key and parent the message is just the expected type and the value. */
  lemma MessageWithoutContext(expected: Expected, val: Value, render: Value -> string)
    ensures InvalidValueMessage(expected, val, "", "", render)
            == "Invalid value. Expected " + PrettyTypeName(expected) + " but got " + render(val)
  {
  }
}
