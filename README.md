# JSON schema conversion and player movement of the Scary JRPG

This project models two parts of the Scary game's JRPG layer in Dafny:

- **The descriptor-driven converter.** It checks parsed JSON against a table of type descriptors, and rebuilds objects under their in-memory key names (`cast`). It also goes the other way (`uncast`). The engine text is the same in `src/Jrpg/element/json/quicktype.js:20-170` and `src/Jrpg/element/LTdk/quickJson.js:20-190`, so it is modelled once. The tests it runs, in order:
  - the `"any"`, `null` and `false` guards;
  - the reference loop;
  - enum, union, array and object dispatch;
  - Date handling;
  - the primitive `typeof` test.

  The table is a parameter. Two tables are given:
  - the whole Jrpg `typeMap` (`quicktype.js:172-269`);
  - the LDtk entries `ForcedRefs`, `ItemsValue`, `Icon`, `OneOf` and `FORCEDREFSType` (`quickJson.js:302-310`, `471-484`, `1497`).
- **The keydown step of the `move` element** (`src/Jrpg/element/move.js`). A key moves the player 10 px. The position is then clamped to the container. The move is rejected if the player's rectangle would overlap a forbidden area.

Layout:

| file | module | what |
|---|---|---|
| `util.dfy` | `Util` | option type, maximum |
| `json_value.dfy` | `JsonValue` | parsed values, `typeof`, own fields, `obj[k]` reads and writes as field lists |
| `descriptor.dfy` | `Descriptor` | descriptors, `l/a/u/o/m/r`, the named table, reference resolution |
| `prop_index.dfy` | `PropIndex` | the property index objects `jsonToJS` / `jsToJSON` |
| `errors.dfy` | `Errors` | `invalidValue`'s failure and message, `prettyTypeName` |
| `engine.dfy` | `Engine` | `transform` and its helpers, `cast`, `uncast`, as pure functions |
| `transform_lemmas.dfy` | `TransformLemmas` | guards, primitives, enums, dates, unions, arrays |
| `store_steps.dfy` | `StoreSteps` | the three loop shapes of the engine (assign-or-skip, append, first success) over precomputed step results |
| `object_lemmas.dfy` | `ObjectLemmas` | `transformObject`: success, key set, stored values, first failure |
| `cast_uncast.dfy` | `CastUncast` | when `cast` and `uncast` agree |
| `stability.dfy` | `Stability` | when converting a converted value gives it back; the Jrpg table |
| `converter.dfy` | `Conversion` | the imperative engine: the memo fields, the `forEach` index loop, the `while` reference loop, and the union / array / object loops, each proved equal to `Engine` |
| `tables.dfy`, `table_lemmas.dfy` | `Tables`, `TableLemmas` | the Jrpg and LDtk tables and facts about their entries |
| `move.dfy` | `Move` | the keydown step and the `MoveHandler` state |

Representation choices:

- **Errors.** A thrown `Error` is an `Err` result that carries the fields `invalidValue` receives. The `try/catch` in `transformUnion` becomes a test of the result's tag.
- **Objects.** An object is its list of own properties in property order, so "the first failing key" is determined.
- **Termination.** Each table carries a rank witness, which rules out the cyclic `ref` chains the engine would loop on.
- **Property-index cache.** The cache on the descriptor (`typ.jsonToJS`) is kept by the `Converter` class in a map keyed by the shape's property list.

## Model

| member | source | states |
|---|---|---|
| JsonValue.TypeOf | src/Jrpg/element/json/quicktype.js:61 | `typeof val`: a Date object and null are "object", as are arrays and plain objects |
| JsonValue.IsObjectLike | src/Jrpg/element/json/quicktype.js:100 | the negation of the object guard `val === null \|\| typeof val !== "object" \|\| Array.isArray(val)`, so a Date object passes it |
| JsonValue.OwnFields | src/Jrpg/element/json/quicktype.js:104-112 | `Object.getOwnPropertyNames(val)` with the values that `hasOwnProperty` finds: the fields of a plain object, none for a Date object |
| Descriptor.TypeOfDescriptor | src/Jrpg/element/json/quicktype.js:124-137 | `typeof typ`: `"any"` and the primitive samples give their own type, `false` is "boolean", `Date` is "function", and every `{ ... }` descriptor is "object" (relied on by GuardsThroughRef and DateRules) |
| Descriptor.L | src/Jrpg/element/json/quicktype.js:148-150 | `l(typ)`: the literal descriptor `{ literal: typ }` |
| Descriptor.A | src/Jrpg/element/json/quicktype.js:152-154 | `a(typ)`: the array descriptor `{ arrayItems: typ }` |
| Descriptor.U | src/Jrpg/element/json/quicktype.js:156-158 | `u(...typs)`: the union descriptor `{ unionMembers: typs }`, members in argument order |
| Descriptor.O | src/Jrpg/element/json/quicktype.js:160-162 | `o(props, additional)`: the object shape with its property list and additional descriptor |
| Descriptor.M | src/Jrpg/element/json/quicktype.js:164-166 | `m(additional)`: the object shape with no properties |
| Descriptor.R | src/Jrpg/element/json/quicktype.js:168-170 | `r(name)`: the reference descriptor `{ ref: name }` |
| Engine.Transform | src/Jrpg/element/json/quicktype.js:117-137 | `transform`: the `"any"`, `null` and `false` guards are tested on the descriptor as given, then references are followed, and a null entry is the TypeError of the loop test; its behaviour is stated by DirectDispatch, RefDispatch, GuardsBeforeRefs and GuardsThroughRef |
| Engine.Dispatch | src/Jrpg/element/json/quicktype.js:128-137 | the dispatch after the reference loop, in source order: enum, then union / array / object, any other object descriptor fails, Date for non-numbers, else the primitive test; stated case by case by the lemmas below |
| Engine.TransformPrimitive | src/Jrpg/element/json/quicktype.js:60-63 | keeps the value when the descriptor's `typeof` equals the value's, else fails with the call's key and parent (PrimitiveExact) |
| Engine.TransformEnum | src/Jrpg/element/json/quicktype.js:77-80 | strict membership of the value among the cases, else a failure listing the cases as literals (EnumExact) |
| Engine.TransformDate | src/Jrpg/element/json/quicktype.js:88-97 | null passes through; a value that `new Date` accepts becomes a Date, any other fails expecting "Date" (DateRules) |
| Engine.TransformUnion | src/Jrpg/element/json/quicktype.js:65-75 | the members in order with empty key and parent, the first success returned, the whole list named on failure (UnionFrom, UnionFirstMatch) |
| Engine.TransformArray | src/Jrpg/element/json/quicktype.js:82-86 | a non-array fails expecting "array"; an array is converted element by element with empty key and parent (ArrayFrom, ArrayPointwise) |
| Engine.TransformObject | src/Jrpg/element/json/quicktype.js:99-115 | a non-object fails expecting `ref` or "object"; otherwise the index pass and then the extras pass (ObjectOk, ObjectKeys, ObjectValues) |
| Engine.PropsPass | src/Jrpg/element/json/quicktype.js:104-108 | the index pass yields an object when it completes; what it holds is stated by the PropsPass lemmas |
| Engine.ExtrasPass | src/Jrpg/element/json/quicktype.js:109-113 | the extras pass yields an object when it completes; what it holds is stated by the ExtrasPass lemmas |
| Engine.Cast | src/Jrpg/element/json/quicktype.js:140-142 | `transform` with the decode index; agrees with `Uncast` on same-named tables (CastIsUncast) |
| Engine.Uncast | src/Jrpg/element/json/quicktype.js:144-146 | `transform` with the encode index |
| Errors.PrettyDescriptor | src/Jrpg/element/json/quicktype.js:27-39 | the corrected `prettyTypeName` of one descriptor: a literal's text, otherwise the `typeof` name, with the null descriptor named "null" |
| Errors.PrettyTypeName | src/Jrpg/element/json/quicktype.js:27-39 | the corrected rendering of what was expected: "an optional T" for a two-member list headed by `undefined`, otherwise "one of [...]" (OptionalIffUndefinedFirst, EnumErrorListsCases, NullableStringUnionText) |
| Errors.PrettyDescriptorAsWritten | src/Jrpg/element/json/quicktype.js:34-38 | the engine's rendering of one descriptor, which reads `.literal` of the null descriptor and so fails on it |
| Errors.PrettyTypeNameAsWritten | src/Jrpg/element/json/quicktype.js:27-39 | the engine's `prettyTypeName`, failing exactly when a null descriptor is printed (PrettyAsWrittenCrashesOnlyOnNull) |
| Errors.InvalidValueMessage | src/Jrpg/element/json/quicktype.js:20-25 | the thrown message: the key clause, the parent clause, the expected text and the rendered value (ContextClausesOmittedIffEmpty, MessageWithoutContext) |
| PropIndex.Insert | src/Jrpg/element/json/quicktype.js:44 | `map[k] = entry`: an existing key is overwritten in place, a new one appended (InsertFacts) |
| PropIndex.IndexFor | src/Jrpg/element/json/quicktype.js:41-57 | the index object built by the `forEach`, in declaration order (IndexUnique, IndexSources, IndexEntriesAreLast, IndexContainsLast) |
| Move.Candidate | src/Jrpg/element/move.js:16-32 | the `switch` on `event.key`, first matching case in source order (KeyDispatch, CandidateDistance) |
| Move.Clamp | src/Jrpg/element/move.js:34-39 | the lower clamp and then the upper clamp of one coordinate (ClampBounds) |
| Move.Overlaps | src/Jrpg/element/move.js:41-46 | the four strict comparisons between the player's rectangle and one forbidden area (EdgeContactIsFree) |
| Move.Blocked | src/Jrpg/element/move.js:40-49 | some forbidden area overlaps the player's rectangle (FindBlocking) |
| Move.Step | src/Jrpg/element/move.js:16-52 | one key press: candidate, clamps, then rejection on overlap (StepStaysInside, StepRejectsOverlap, NoKeyStaysPut) |
| Move.StepAsWritten | src/Jrpg/element/move.js:15-32 | the key press with the bindings the listener as written reads, all `undefined` (AsWrittenIgnoresKeys, AsWrittenCounterexample) |
| JsonValue.LookupFacts | src/Jrpg/element/json/quicktype.js:106 | reading an absent own key yields nothing (`undefined`); a present key yields the value stored under it |
| JsonValue.PutFacts | src/Jrpg/element/json/quicktype.js:107 | `result[k] = v` adds `k` to the key set, makes `k` read `v` and leaves every other key's value unchanged |
| Descriptor.Resolve | src/Jrpg/element/json/quicktype.js:123-127 | following references ends on a descriptor that is neither a reference nor null; it is the table entry of the last name followed (or `undefined` for a missing name); non-reference descriptors are returned as they are |
| Conversion.ResolveRefs | src/Jrpg/element/json/quicktype.js:123-127 | the `while` loop returns exactly what `Resolve` defines, including the TypeError on a null entry |
| PropIndex.InsertFacts | src/Jrpg/element/json/quicktype.js:44 | `map[k] = entry` on an object with unique keys keeps keys unique, adds exactly `k`, replaces only the entry under `k`, and appends when `k` is new |
| PropIndex.IndexUnique | src/Jrpg/element/json/quicktype.js:41-48 | the index built by the `forEach` has no repeated key |
| PropIndex.IndexSources | src/Jrpg/element/json/quicktype.js:41-57 | the index's keys are exactly the declared properties' source keys (`json` when decoding, `js` when encoding) |
| PropIndex.IndexEntriesAreLast | src/Jrpg/element/json/quicktype.js:44 | every index entry is the one written by the last declared property with that key |
| PropIndex.IndexContainsLast | src/Jrpg/element/json/quicktype.js:44 | the entry of the last declared property with a given key is in the index |
| PropIndex.IndexWithoutRepeats | src/Jrpg/element/json/quicktype.js:41-57 | with no repeated source key the index is the declared list itself, in order |
| PropIndex.EncodeIsSwappedDecode | src/Jrpg/element/json/quicktype.js:41-57 | with distinct wire and in-memory names, the encode index is the decode index with key and target swapped in each entry |
| PropIndex.IdentityNamesSameIndex | src/Jrpg/element/json/quicktype.js:41-57 | when every property keeps its name, both indexes are equal |
| Conversion.BuildIndex | src/Jrpg/element/json/quicktype.js:43-44 | the loop over the properties builds exactly `IndexFor`, with unique keys |
| Conversion.Converter.JsonToJSProps | src/Jrpg/element/json/quicktype.js:41-48 | returns the decode index; the first call stores it, a later call leaves the cache untouched; the encode cache is not changed |
| Conversion.Converter.JsToJSONProps | src/Jrpg/element/json/quicktype.js:50-57 | the same for the encode index |
| Conversion.Converter.GetProps | src/Jrpg/element/json/quicktype.js:140-146 | the `getProps` argument: the index of the requested direction, now cached under the shape in that direction's cache, the other cache untouched |
| Errors.PrettyAllAsWrittenWithoutNull | src/Jrpg/element/json/quicktype.js:32 | `typ.map(prettyTypeName)` succeeds exactly when no member is the null descriptor, and then yields each member's name |
| Errors.PrettyAsWrittenCrashesOnlyOnNull | src/Jrpg/element/json/quicktype.js:27-39 | the engine's `prettyTypeName` throws exactly when the null descriptor is among the names to print; otherwise it agrees with the corrected rendering |
| Errors.NullableStringUnionText | src/Jrpg/element/json/quicktype.js:32-34 | the union of string and null renders as "one of [string, null]" when corrected; as written, it and `null` alone throw |
| Errors.OptionalIffUndefinedFirst | src/Jrpg/element/json/quicktype.js:28-33 | a list's text starts "an optional " exactly when it has two members and the first is `undefined` |
| Errors.EnumErrorListsCases | src/Jrpg/element/json/quicktype.js:27-39 | an enum's error names its cases as "one of [c1, c2, …]" |
| Errors.ContextClausesOmittedIffEmpty | src/Jrpg/element/json/quicktype.js:22-23 | the key clause and the parent clause are empty exactly when key and parent are empty, and otherwise add fixed text around them |
| Errors.MessageWithoutContext | src/Jrpg/element/json/quicktype.js:20-25 | with empty key and parent the message is "Invalid value. Expected T but got V" |
| TransformLemmas.DirectDispatch | src/Jrpg/element/json/quicktype.js:117-137 | a descriptor that is not a guard and not a reference is dispatched on directly, with no ref name |
| TransformLemmas.RefDispatch | src/Jrpg/element/json/quicktype.js:123-137 | a reference to a non-null, non-reference entry dispatches on that entry with its name as ref |
| TransformLemmas.GuardsBeforeRefs | src/Jrpg/element/json/quicktype.js:117-122 | `"any"` returns the value unchanged; `null` succeeds only on null and returns null; `false` fails on every value |
| TransformLemmas.GuardsThroughRef | src/Jrpg/element/json/quicktype.js:117-137 | reached through a name, `"any"` accepts exactly strings and `false` exactly booleans (the guards are not repeated), and a null entry throws |
| TransformLemmas.PrimitiveExact | src/Jrpg/element/json/quicktype.js:60-63 | a primitive descriptor succeeds iff `typeof` agrees, returns the value unchanged, and otherwise fails naming the descriptor with the call's key and parent |
| TransformLemmas.PrimitiveExamples | src/Jrpg/element/json/quicktype.js:60-63 | `""` accepts exactly strings, `0` exactly numbers, `true` exactly booleans |
| TransformLemmas.EnumExact | src/Jrpg/element/json/quicktype.js:77-80 | an enum succeeds iff the value is the string of one of its cases, returns it unchanged, and otherwise fails listing the cases as literals |
| TransformLemmas.DateRules | src/Jrpg/element/json/quicktype.js:88-97 | null passes through a Date descriptor; a number always fails the primitive check; anything else becomes a Date exactly when it parses |
| TransformLemmas.UnionFrom | src/Jrpg/element/json/quicktype.js:65-75 | from member `i` on: success iff some later member succeeds, the result is that of the first succeeding member, and the failure names the whole list with the outer key and parent |
| StoreSteps.FirstOkFacts | src/Jrpg/element/json/quicktype.js:67-74 | trying conversions in order and keeping the first success: success iff some conversion succeeds, the result is the first success, otherwise the fallback error |
| TransformLemmas.UnionIsFirstOkFrom | src/Jrpg/element/json/quicktype.js:65-75 | the union loop is that first-success loop over the members' conversions, with the whole member list as the failure |
| TransformLemmas.UnionFirstMatch | src/Jrpg/element/json/quicktype.js:65-75 | the same for a union descriptor; members are tried with empty key and parent |
| StoreSteps.CollectFromFacts | src/Jrpg/element/json/quicktype.js:82-86 | appending converted elements in order: success iff every conversion succeeds; the output keeps the elements so far and adds each result at its position; the first failure is the result |
| TransformLemmas.ArrayIsCollectFrom | src/Jrpg/element/json/quicktype.js:82-86 | the array loop is that append loop over the elements' conversions |
| TransformLemmas.ArrayFrom | src/Jrpg/element/json/quicktype.js:82-86 | converting elements from index `i` on: success iff each conversion succeeds; the output appends each converted element in order; the first failing element's error is the result |
| TransformLemmas.ArrayPointwise | src/Jrpg/element/json/quicktype.js:82-86 | a non-array fails expecting "array"; otherwise the output has the input's length, element `k` is the conversion of input element `k` (with empty key and parent), and the first failing element's error is the result |
| StoreSteps.StoreFrom | src/Jrpg/element/json/quicktype.js:103-114 | a loop of `result[k] = v` assignments that completes yields an object |
| StoreSteps.StoreFromOk | src/Jrpg/element/json/quicktype.js:104-113 | an assign-or-skip loop completes iff no assignment's conversion throws |
| StoreSteps.StoreFromKeys | src/Jrpg/element/json/quicktype.js:104-113 | a completed loop adds exactly the keys it assigns |
| StoreSteps.StoreFromKeeps | src/Jrpg/element/json/quicktype.js:104-113 | a completed loop leaves every key it does not assign as it was |
| StoreSteps.StoreFromStores | src/Jrpg/element/json/quicktype.js:104-113 | with no key assigned twice, each assigned key holds its conversion |
| StoreSteps.StoreFromFailure | src/Jrpg/element/json/quicktype.js:104-113 | a throwing loop throws the error of its first failing conversion |
| ObjectLemmas.PropsPassIsStoreFrom | src/Jrpg/element/json/quicktype.js:104-108 | the index pass is the assign loop whose steps store each index entry's conversion under its target key |
| ObjectLemmas.ExtrasPassIsStoreFrom | src/Jrpg/element/json/quicktype.js:109-113 | the extras pass is the assign-or-skip loop that skips indexed keys and stores each other own key's conversion under its own name |
| ObjectLemmas.PropStepsKeys | src/Jrpg/element/json/quicktype.js:104-108 | the keys the index pass assigns are the index's target keys, and distinct targets mean no key is assigned twice |
| ObjectLemmas.ExtraStepsKeys | src/Jrpg/element/json/quicktype.js:109-113 | the keys the extras pass assigns are the own keys outside the index, and distinct own keys mean no key is assigned twice |
| ObjectLemmas.PropsPassOk | src/Jrpg/element/json/quicktype.js:104-108 | the index pass succeeds iff every indexed property converts |
| ObjectLemmas.PropsPassKeys | src/Jrpg/element/json/quicktype.js:104-108 | after the index pass the output keys are the accumulated keys plus the index's target keys |
| ObjectLemmas.PropsPassFailure | src/Jrpg/element/json/quicktype.js:104-108 | the pass fails with the error of the first failing indexed property |
| ObjectLemmas.PropsPassKeeps | src/Jrpg/element/json/quicktype.js:107 | keys that are not targets keep their accumulated values |
| ObjectLemmas.PropsPassStores | src/Jrpg/element/json/quicktype.js:106-107 | each target key holds the conversion of the input's value under the source key (`undefined` when absent), with the source key and the ref name as context |
| ObjectLemmas.ExtrasPassOk | src/Jrpg/element/json/quicktype.js:109-113 | the second pass succeeds iff every own key outside the index converts under `additional` |
| ObjectLemmas.ExtrasPassKeys | src/Jrpg/element/json/quicktype.js:109-113 | it adds exactly the own keys outside the index |
| ObjectLemmas.ExtrasPassFailure | src/Jrpg/element/json/quicktype.js:109-113 | it fails with the error of the first failing extra key, in property order |
| ObjectLemmas.ExtrasPassKeeps | src/Jrpg/element/json/quicktype.js:111 | keys it does not add keep their values |
| ObjectLemmas.ExtrasPassStores | src/Jrpg/element/json/quicktype.js:109-113 | each extra key keeps its name and holds its value converted under `additional` |
| ObjectLemmas.ObjectOk | src/Jrpg/element/json/quicktype.js:99-115 | a non-object (null, an array, a primitive) fails expecting the last ref name, or "object" without one; an object succeeds iff every indexed property and every extra key converts |
| ObjectLemmas.ObjectKeys | src/Jrpg/element/json/quicktype.js:103-114 | a successful result's key set is the index's target keys plus the input's extra keys, nothing else |
| ObjectLemmas.ObjectValues | src/Jrpg/element/json/quicktype.js:103-114 | with distinct target keys and distinct own keys: every extra key holds its converted value; every target key that no extra key overwrites holds its property's converted value |
| ObjectLemmas.NeverExtra | src/Jrpg/element/json/quicktype.js:109-122 | under `additional = false` an extra key fails with its own key and the ref name as context |
| ObjectLemmas.ClosedObjectOk | src/Jrpg/element/json/quicktype.js:99-122 | with `additional = false` an object converts iff its indexed properties convert and it has no key outside the index |
| ObjectLemmas.ClosedObjectFailure | src/Jrpg/element/json/quicktype.js:109-122 | with `additional = false` the error names the first key outside the index |
| ObjectLemmas.ObjectThroughRef | src/Jrpg/element/json/quicktype.js:123-132 | an object shape reached through a name converts with that name as the parent of its properties |
| ObjectLemmas.LastRefRemembered | src/Jrpg/element/json/quicktype.js:99-127 | through a chain of two names the last name is the one remembered |
| CastUncast.IndexSameNames | src/Jrpg/element/json/quicktype.js:41-57 | building an index keeps every property's descriptor |
| CastUncast.TransformBoth | src/Jrpg/element/json/quicktype.js:59-138 | when every shape reachable from the descriptor keeps its property names, converting in either direction gives the same result |
| CastUncast.DispatchBoth | src/Jrpg/element/json/quicktype.js:128-137 | the same for the dispatch |
| CastUncast.UnionBoth | src/Jrpg/element/json/quicktype.js:65-75 | the same for unions |
| CastUncast.ArrayBoth | src/Jrpg/element/json/quicktype.js:82-86 | the same for arrays |
| CastUncast.ObjectBoth | src/Jrpg/element/json/quicktype.js:99-115 | the same for objects |
| CastUncast.PropsBoth | src/Jrpg/element/json/quicktype.js:104-108 | the same for the index pass |
| CastUncast.ExtrasBoth | src/Jrpg/element/json/quicktype.js:109-113 | the same for the extras pass |
| CastUncast.CastIsUncast | src/Jrpg/element/json/quicktype.js:140-146 | `cast` and `uncast` differ only in the index function, so on name-preserving schemas they agree |
| Stability.StableSameNames | src/Jrpg/element/json/quicktype.js:41-57 | a union-free, Date-free descriptor whose shapes are closed and unrenamed keeps its property names |
| Stability.StableIndex | src/Jrpg/element/json/quicktype.js:41-57 | the index of such a shape maps every key to itself, with no repeated key, and only such descriptors |
| Stability.TransformStable | src/Jrpg/element/json/quicktype.js:59-138 | under such a descriptor a value that `transform` returns is returned unchanged by a second `transform` |
| Stability.DispatchStable | src/Jrpg/element/json/quicktype.js:128-137 | the same for the dispatch |
| Stability.ArrayStable | src/Jrpg/element/json/quicktype.js:82-86 | the same for arrays: every converted element is itself a fixed point |
| Stability.ElementsStable | src/Jrpg/element/json/quicktype.js:85 | every converted element converts to itself again |
| Stability.ObjectStable | src/Jrpg/element/json/quicktype.js:99-115 | the same for closed objects: the output holds only index keys, each a fixed point |
| Stability.ClosedExtras | src/Jrpg/element/json/quicktype.js:109-113 | under `additional = false` a successful extras pass saw no extra key and returns what the index pass built |
| Stability.PropsStable | src/Jrpg/element/json/quicktype.js:104-108 | over the index pass's own output, every index entry converts to what it converted to before |
| Stability.OnlyIndexKeys | src/Jrpg/element/json/quicktype.js:109-113 | the index pass's output has no key outside the index, so a second extras pass skips every key |
| Stability.JrpgStable | src/Jrpg/element/json/quicktype.js:172-269 | every Jrpg entry is closed, unrenamed, and uses no union and no Date |
| Stability.JrpgDecodedIsFixed | src/Jrpg/element/json/quicktype.js:12-18 | a value that `cast` decodes against a Jrpg name decodes to itself again, and `uncast` gives it back unchanged |
| Conversion.Converter.Transform | src/Jrpg/element/json/quicktype.js:117-137 | the imperative guards, reference loop and dispatch compute `Engine.Transform` |
| Conversion.Converter.Dispatch | src/Jrpg/element/json/quicktype.js:128-137 | the dispatch after the reference loop computes `Engine.Dispatch` |
| Conversion.Converter.TransformUnion | src/Jrpg/element/json/quicktype.js:65-75 | the `for` loop with `try/catch` computes `Engine.TransformUnion` |
| Conversion.Converter.TransformArray | src/Jrpg/element/json/quicktype.js:82-86 | the element loop computes `Engine.TransformArray` |
| Conversion.Converter.TransformObject | src/Jrpg/element/json/quicktype.js:99-115 | the two loops that assign into `result` compute `Engine.TransformObject` |
| Conversion.Converter.ConvertProps | src/Jrpg/element/json/quicktype.js:104-108 | the first `forEach` computes the index pass |
| Conversion.Converter.ConvertExtras | src/Jrpg/element/json/quicktype.js:109-113 | the second `forEach` computes the extras pass |
| Conversion.Converter.Cast | src/Jrpg/element/json/quicktype.js:140-142 | `cast` runs the engine with the decode index |
| Conversion.Converter.Uncast | src/Jrpg/element/json/quicktype.js:144-146 | `uncast` runs the engine with the encode index |
| TableLemmas.MapOfLast | src/Jrpg/element/json/quicktype.js:172-269 | in an object literal the last entry with a name is the one that the name maps to |
| Tables.JrpgEntries | src/Jrpg/element/json/quicktype.js:172-269 | the Jrpg `typeMap` entry by entry in source order, every shape closed with `false` (JrpgTableValid, JrpgSameNames, JrpgStable) |
| Tables.JrpgTable | src/Jrpg/element/json/quicktype.js:172-269 | the lookup object that the `typeMap` literal builds, a later duplicate name winning (MapOfLast), with its rank witness (JrpgTableValid) |
| Tables.LdtkEntries | src/Jrpg/element/LTdk/quickJson.js:302-310 | the LDtk entries `ForcedRefs` and `ItemsValue` at these lines, `Icon` and `OneOf` at quickJson.js lines 471-484 and `FORCEDREFSType` at line 1497, in source order (LdtkTableValid, OneOfIndex, OneOfOptionalKeys) |
| TableLemmas.JrpgTableValid | src/Jrpg/element/json/quicktype.js:172-269 | the Jrpg table has no reference cycle (every entry is a shape or an enum) |
| TableLemmas.JrpgSameNames | src/Jrpg/element/json/quicktype.js:172-269 | every Jrpg property keeps its name (`json` equals `js`) |
| TableLemmas.JrpgCastIsUncast | src/Jrpg/element/json/quicktype.js:172-269 | for the Jrpg table, `cast` and `uncast` against any name agree |
| TableLemmas.LdtkTableValid | src/Jrpg/element/LTdk/quickJson.js:302-310 | the LDtk slice has no reference cycle |
| TableLemmas.LdtkCastIsUncast | src/Jrpg/element/LTdk/quickJson.js:302-310 | for the LDtk slice, `cast` and `uncast` against any name agree |
| TableLemmas.ClosedEmptyShape | src/Jrpg/element/json/quicktype.js:99-122 | a shape with no properties and `additional = false` accepts exactly the empty object, returns `{}`, and otherwise names its first key |
| TableLemmas.FreeAcceptsOnlyEmpty | src/Jrpg/element/json/quicktype.js:182-183 | `Free` accepts `{}` and rejects any object with a key (the error names that key, with `Free` as parent) and every non-object (expecting "Free") |
| TableLemmas.StyleEnumOnlyAuto | src/Jrpg/element/json/quicktype.js:266-268 | `StyleEnum` accepts exactly the string "auto", unchanged; any other value fails with "one of [auto]" |
| TableLemmas.OneOfMembers | src/Jrpg/element/LTdk/quickJson.js:480-481 | both `OneOf` members accept `undefined`; the `$ref` member keeps a string |
| TableLemmas.OneOfIndex | src/Jrpg/element/LTdk/quickJson.js:478-484 | the decode index of `OneOf` is `type` then `$ref` |
| TableLemmas.OneOfPropsEmpty | src/Jrpg/element/LTdk/quickJson.js:480-481 | the index pass of `OneOf` over `{}` stores `undefined` under `type` and `$ref` |
| TableLemmas.OneOfPropsRefOnly | src/Jrpg/element/LTdk/quickJson.js:480-481 | the index pass of `OneOf` over `{"$ref": s}` stores `undefined` under `type` and `s` under `$ref` |
| TableLemmas.OneOfEmptyIn | src/Jrpg/element/LTdk/quickJson.js:478-484 | decoding `{}` against `OneOf` yields `{type: undefined, $ref: undefined}` |
| TableLemmas.OneOfRefOnlyIn | src/Jrpg/element/LTdk/quickJson.js:478-484 | decoding `{"$ref": s}` yields `type: undefined` first, then `$ref: s`, and nothing else |
| TableLemmas.OneOfOptionalKeys | src/Jrpg/element/LTdk/quickJson.js:478-484 | both `OneOf` keys are optional in the LDtk table |
| Move.FindBlocking | src/Jrpg/element/move.js:40-49 | the loop leaves early with "blocked" exactly when some forbidden area overlaps the player's rectangle |
| Move.MoveHandler.Start | src/Jrpg/element/move.js:10-12 | the position starts at (0, 0) |
| Move.MoveHandler.KeyDown | src/Jrpg/element/move.js:15-52 | the new position is `Step` of the old one: the key's move, the clamps, then rejection on overlap |
| Move.KeyDispatch | src/Jrpg/element/move.js:19-32 | `w` gives Y−10, `s` Y+10, `d` X−10, `a` X+10, the first matching case in source order deciding; an unbound key changes nothing |
| Move.CandidateDistance | src/Jrpg/element/move.js:16-32 | a candidate moves by 10 px along one axis, or not at all |
| Move.ClampBounds | src/Jrpg/element/move.js:34-39 | when the container fits the player the result lies in [0, W−w] and a value inside stays; when it does not, the upper bound, applied last, wins |
| Move.StepStaysInside | src/Jrpg/element/move.js:34-52 | from inside the container the player stays inside it |
| Move.StepRejectsOverlap | src/Jrpg/element/move.js:40-52 | a move onto a forbidden area leaves the position unchanged; otherwise the position becomes the clamped candidate |
| Move.EdgeContactIsFree | src/Jrpg/element/move.js:42-45 | rectangles that only share an edge do not overlap |
| Move.NoKeyStaysPut | src/Jrpg/element/move.js:16-52 | a key bound to nothing leaves a position inside the container unchanged |
| Move.AsWrittenIgnoresKeys | src/Jrpg/element/move.js:15-32 | as written, no key moves the player; the position can only be clamped back into the container |
| Move.AsWrittenCounterexample | src/Jrpg/element/move.js:20-21 | pressing `w` at (0, 20): the bindings move the player to (0, 10), the listener as written leaves it at (0, 20) |

## Left out

- `JSON.parse` and `JSON.stringify` (`toJrpg`, `jrpgToJson`, `toLDtk`, `lDtkToJson`) are left out: the model works on parsed values. The rendering of the offending value in the error message is the parameter `render` of `InvalidValueMessage`.
- `new Date(val)` and its validity test are the parameter `parsesAsDate` of `Env`. A decoded date is an opaque `DateObj`.
- Numbers are mathematical reals. The engine only asks `typeof`, so no arithmetic is modelled.
- Enum cases are strings only, as in every enum of both tables. `indexOf` on a case of another type is not modelled.
- Objects are their own properties in insertion order. The JavaScript rule that integer-like keys come first, and the special `__proto__` key, are not modelled.
- Cyclic reference chains, stack overflow and infinite loops are excluded: a table carries a rank that bounds every chain. Every table here has one.
- Conversion.Converter.JsonToJSProps: the memo is keyed by the shape's property list. It stands in for the descriptor object's identity, so two shapes with equal property lists share an entry. That entry is the same index either way.
- Only five LDtk entries are modelled (`ForcedRefs`, `ItemsValue`, `Icon`, `OneOf`, `FORCEDREFSType`). The rest of the LDtk table is configuration data of the same forms.
- In move.js, `document.addEventListener`, the `style.left`/`style.top` writes and the `offsetWidth`/`offsetHeight` reads are left out. The listener reads the bare names `player` and `gameContainer`, which exist only when the page has elements with those ids. Their sizes are the `Layout` parameter of `KeyDown`.
- Each call to `start` adds another listener; the model has one listener per `MoveHandler`. `KeyEvent` comes from the caller (`src/Jrpg/index.js`, which imports modules that are not part of this model) and becomes the `keys` parameter.
- `src/main.jsx` and `src/Scene.jsx` are left out: they are 3D scene set-up through foreign libraries.
- The round trip `decode(encode(x)) == x`, and `encode(decode(raw)) == raw` for valid input, does not hold of the engine. `transformObject` rebuilds every object in index order, not input order. It adds a key holding `undefined` for every absent optional property. `transformDate` wraps an already-decoded date in a new `Date`. Only the fixed-point form is proved: `Stability.TransformStable` for union-free, Date-free closed shapes, and `Stability.JrpgDecodedIsFixed` for the Jrpg table. Unions are left out of it, because a later member that accepted the input can lose to an earlier member that accepts the output.
- Move.Rect: forbidden areas have real coordinates, since no caller fixes them. The player's position and the sizes the browser reports (`offsetWidth`, `offsetHeight`) are integers.
- JsonValue.Value: an `Obj` may list the same key twice, which no JavaScript object does. Lemmas that need distinct keys (`ObjectLemmas.ObjectValues`, `ObjectLemmas.ExtrasPassStores`) say so with `UniqueKeys` on the own keys, and `ObjectValues` also with `UniqueTargets` on the index.
- Descriptor.Resolve: a name missing from the table yields `undefined`. In JavaScript, `typeMap[name]` for an inherited name such as `constructor` or `toString` yields a function instead. No table entry refers to such a name.

## Findings

| source | as written | input that shows it | evidently intended | confidence | as-written member | corrected member |
|---|---|---|---|---|---|---|
| src/Jrpg/element/json/quicktype.js:34 | in both engine copies (also `quickJson.js:42`), `typeof typ === "object" && typ.literal !== undefined` reads `null.literal` when the expected type is the `null` descriptor, so `prettyTypeName` throws a TypeError instead of `invalidValue` reporting the mismatch | `transform(1, null)`, or a value rejected by a union containing `null` | name the null descriptor "null" in the message | high, not executed | Errors.PrettyTypeNameAsWritten (Errors.PrettyAsWrittenCrashesOnlyOnNull, Errors.NullableStringUnionText) | Errors.PrettyTypeName |
| src/Jrpg/element/move.js:15-31 | the listener is a plain `function`, so `this` is `document` and `this.w`, `this.s`, `this.a`, `this.d` are `undefined`; no `event.key` equals them, so no key ever moves the player | bindings `w`/`s`/`a`/`d`, player at (0, 20), key `w` | use the element's bindings (an arrow function or saved `this`) | high, not executed | Move.StepAsWritten (Move.AsWrittenIgnoresKeys, Move.AsWrittenCounterexample) | Move.Step (Move.MoveHandler.KeyDown) |
