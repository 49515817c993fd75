/**
 * The concrete schema tables: the whole table of the Jrpg scene file and a slice
 * of the LDtk project table (the forced references, the `$ref` items, the icon's
 * `oneOf` alternatives and the type-name enum).  Each table is written as the
 * list of its entries in source order, and the lookup table is the object that
 * literal builds.
 */
module Tables {
  import opened JsonValue
  import opened Descriptor
  import opened Engine

  /** The string descriptor `""`. */
  const S: Typ := Prim(StringKind)

  /** The object an object literal with these entries builds: a later duplicate key wins. */
  function MapOf(es: seq<(string, Typ)>): map<string, Typ>
  {
    if es == [] then map[] else MapOf(es[..|es| - 1])[es[|es| - 1].0 := es[|es| - 1].1]
  }

  /** The Jrpg `typeMap`, entry by entry; every object shape is closed (`additional = false`). */
  function JrpgEntries(): seq<(string, Typ)>
  {
    [
      ("Jrpg", JrpgShape()),
      ("Free", FreeShape()),
      ("Game", GameShape()),
      ("Map", MapShape()),
      ("Preset", PresetShape()),
      ("PresetA1", PresetA1Shape()),
      ("Info", InfoShape()),
      ("ViewName", ViewNameShape()),
      ("Metadata", MetadataShape()),
      ("View", ViewShape()),
      ("Image", ImageShape()),
      ("Path", PathShape()),
      ("StyleClass", StyleClassShape()),
      ("JrpgStory", JrpgStoryShape()),
      ("Phase", PhaseShape()),
      ("Phase1_A1", Phase1A1Shape()),
      ("A", AShape()),
      ("AStory", AStoryShape()),
      ("StyleEnum", StyleEnumShape())
    ]
  }

  function JrpgTypes(): map<string, Typ>
  {
    MapOf(JrpgEntries())
  }

  /** No entry of either table is a union or a reference, so rank 1 bounds every entry. */
  function RankAll(types: map<string, Typ>): map<string, nat>
  {
    map n | n in types :: 1
  }

  function JrpgTable(): Table
  {
    Table(JrpgTypes(), RankAll(JrpgTypes()))
  }

  /** The environment of `toJrpg` / `jrpgToJson`, for any date parser. */
  function JrpgEnv(parsesAsDate: Value -> bool): Env
  {
    Env(JrpgTable(), parsesAsDate)
  }

  function JrpgShape(): Typ
  {
    O([
      Prop("format", "format", S),
      Prop("lib_version", "lib_version", S),
      Prop("data_version", "data_version", S),
      Prop("game", "game", R("Game")),
      Prop("map", "map", R("Map")),
      Prop("story", "story", R("JrpgStory")),
      Prop("free", "free", R("Free"))
    ], NeverT)
  }

  function FreeShape(): Typ
  {
    O([], NeverT)
  }

  function GameShape(): Typ
  {
    O([
      Prop("name", "name", S),
      Prop("version", "version", S),
      Prop("copyright", "copyright", S)
    ], NeverT)
  }

  function MapShape(): Typ
  {
    O([
      Prop("preset", "preset", R("Preset"))
    ], NeverT)
  }

  function PresetShape(): Typ
  {
    O([
      Prop("A1", "A1", R("PresetA1"))
    ], NeverT)
  }

  function PresetA1Shape(): Typ
  {
    O([
      Prop("data_tag", "data_tag", S),
      Prop("view_name", "view_name", R("ViewName")),
      Prop("info", "info", R("Info")),
      Prop("metadata", "metadata", R("Metadata"))
    ], NeverT)
  }

  function InfoShape(): Typ
  {
    O([
      Prop("Phase-1", "Phase-1", R("ViewName")),
      Prop("Phase-2", "Phase-2", R("ViewName")),
      Prop("Phase-3", "Phase-3", R("ViewName")),
      Prop("Phase-4", "Phase-4", R("ViewName")),
      Prop("Phase-5", "Phase-5", R("ViewName")),
      Prop("Phase-Free", "Phase-Free", R("ViewName"))
    ], NeverT)
  }

  function ViewNameShape(): Typ
  {
    O([
      Prop("en", "en", S),
      Prop("jp", "jp", S)
    ], NeverT)
  }

  function MetadataShape(): Typ
  {
    O([
      Prop("name", "name", S),
      Prop("version", "version", S),
      Prop("author", "author", S),
      Prop("date", "date", S),
      Prop("view", "view", R("View"))
    ], NeverT)
  }

  function ViewShape(): Typ
  {
    O([
      Prop("image", "image", R("Image")),
      Prop("style", "style", R("StyleClass"))
    ], NeverT)
  }

  function ImageShape(): Typ
  {
    O([
      Prop("path", "path", R("Path"))
    ], NeverT)
  }

  function PathShape(): Typ
  {
    O([
      Prop("_bg", "_bg", S),
      Prop("_composite", "_composite", S),
      Prop("data", "data", S),
      Prop("Floor_OLD_Layer", "Floor_OLD_Layer", S),
      Prop("Floor_New_Layer", "Floor_New_Layer", S),
      Prop("TOBIRA_OLD_RIGHT_Layer", "TOBIRA_OLD_RIGHT_Layer", S),
      Prop("TOBIRA_OLD_LEFT_Layer", "TOBIRA_OLD_LEFT_Layer", S),
      Prop("TOBIRA_OLD_SIDE_Layer", "TOBIRA_OLD_SIDE_Layer", S)
    ], NeverT)
  }

  function StyleClassShape(): Typ
  {
    O([
      Prop("raw", "raw", S),
      Prop("content", "content", A(S))
    ], NeverT)
  }

  function JrpgStoryShape(): Typ
  {
    O([
      Prop("Phase-1", "Phase-1", R("Phase")),
      Prop("Phase-2", "Phase-2", R("Phase")),
      Prop("Phase-3", "Phase-3", R("Phase")),
      Prop("Phase-4", "Phase-4", R("Phase")),
      Prop("Phase-5", "Phase-5", R("Phase"))
    ], NeverT)
  }

  function PhaseShape(): Typ
  {
    O([
      Prop("A1", "A1", R("Phase1_A1"))
    ], NeverT)
  }

  function Phase1A1Shape(): Typ
  {
    O([
      Prop("introduction", "introduction", R("A")),
      Prop("a", "a", R("A")),
      Prop("b", "b", R("A")),
      Prop("c", "c", R("A")),
      Prop("d", "d", R("A"))
    ], NeverT)
  }

  function AShape(): Typ
  {
    O([
      Prop("title", "title", R("ViewName")),
      Prop("story", "story", R("AStory"))
    ], NeverT)
  }

  function AStoryShape(): Typ
  {
    O([
      Prop("style", "style", R("StyleEnum")),
      Prop("text", "text", R("ViewName"))
    ], NeverT)
  }

  function StyleEnumShape(): Typ
  {
    Enum(["auto"])
  }

  /** The modelled slice of the LDtk `typeMap`. */
  function LdtkEntries(): seq<(string, Typ)>
  {
    [
      ("ForcedRefs", ForcedRefsShape()),
      ("ItemsValue", ItemsValueShape()),
      ("Icon", IconShape()),
      ("OneOf", OneOfShape()),
      ("FORCEDREFSType", ForcedRefsTypeShape())
    ]
  }

  function LdtkTypes(): map<string, Typ>
  {
    MapOf(LdtkEntries())
  }

  function LdtkTable(): Table
  {
    Table(LdtkTypes(), RankAll(LdtkTypes()))
  }

  function LdtkEnv(parsesAsDate: Value -> bool): Env
  {
    Env(LdtkTable(), parsesAsDate)
  }

  function ForcedRefsShape(): Typ
  {
    O([
      Prop("description", "description", S),
      Prop("properties", "properties", M(R("ItemsValue"))),
      Prop("type", "type", A(R("FORCEDREFSType")))
    ], NeverT)
  }

  function ItemsValueShape(): Typ
  {
    O([Prop("$ref", "$ref", S)], NeverT)
  }

  function IconShape(): Typ
  {
    O([
      Prop("description", "description", S),
      Prop("oneOf", "oneOf", A(R("OneOf")))
    ], NeverT)
  }

  function OneOfShape(): Typ
  {
    O([
      Prop("type", "type", U([Prim(UndefinedKind), A(R("FORCEDREFSType"))])),
      Prop("$ref", "$ref", U([Prim(UndefinedKind), S]))
    ], NeverT)
  }

  function ForcedRefsTypeShape(): Typ
  {
    Enum(["boolean", "integer", "null", "number", "object", "string"])
  }
}
