# calibre::ToLuaHandler in Dafny

This project models the selective JSON decoder of `src/calibre.hpp`, part of
lua-rapidjson's calibre support. A RapidJSON SAX reader drives
`calibre::ToLuaHandler` one callback per parse event. The handler builds Lua
values on the Lua stack, but only for the fields of a calibre metadata
record whose key is in a fixed allow-list (`required_fields`). `pushDecoded`
runs the reader. It leaves either the decoded value (one result) or `nil`
and an error message (two results).

The project has eight modules:

- `LuaApi` (lua_api.dfy): the part of the Lua C API the handler uses. It
  covers a value stack and a heap of tables, plus `lua_rawset`,
  `lua_rawseti`, `lua_createtable` and `lua_settop`, each with the
  precondition the C API puts on its index argument.
- `Numbers` (numbers.dfy): how `Uint`, `Int64` and `Uint64` choose between a
  Lua integer and a Lua float. The bit width of `lua_Integer` is a
  parameter.
- `Fields` (fields.dfy): the allow-list and the test `Key` applies.
- `Context` (context.dfy): `Ctx`, its three submit functions and `index_`.
  The Lua slots that `objectFn` and `arrayFn` address are a parameter
  (`Slots`). `SourceSlots` are the indices as written. `IntendedSlots` are
  the indices at which the container actually sits (see Findings).
- `Handler` (handler.dfy): every callback, as a pure step on the handler
  state (the specification). Then the class `ToLuaHandler`, whose methods
  update `L`, `stack`, `context` and `requiredField` in place and are proved
  to follow those steps. `Feed` is the reader's loop, which stops at the
  first callback that returns false.
- `Balance` (balance.dfy): JSON documents and the events a SAX reader emits
  for them. It shows when the pushes and pops of `stack_` match and when
  they do not. The code has no depth counter: `StartObject`/`EndObject`
  always push and pop, `StartArray`/`EndArray` only while `required_field`
  holds, and every `Key` resets that flag at every nesting level.
- `Record` (record.dfy): what the handler builds in Lua for a record whose
  fields are scalars or arrays of scalars. It builds one fresh table
  holding exactly the allow-listed keys that occur, each bound to its last
  occurrence. An array field becomes a table holding its elements at
  1..n. It also shows two as-written behaviours:
  - With the source's slots, the first kept scalar is already undefined.
  - A dropped field whose value is an object still creates and submits a
    table. This is undefined even with the corrected slots, unless the
    caller's top slot holds a table.
- `Decode` (decode.dfy): `pushDecoded` and its `"%s (%d)"` message. The submit slots are a parameter, so `pushDecoded` can be run with the slots as written or with the corrected ones.

Things outside the handler are parameters:
- the events the reader emits, and its final verdict (`ParseResult`);
- whether `lua_checkstack` succeeds during each event (`room`);
- the value the global `tonumber` returns for a raw number.

An outcome is `Undefined` where C++ or the Lua C API leave behaviour
undefined: `back()` on an empty `stack_`, or a raw set whose index holds no
table. It is `AssertionFailed` where `EndArray`'s `assert` fails.

## Model

| member | source | states |
|---|---|---|
| Numbers.UintSelection | src/calibre.hpp:51-63 | `Uint` pushes the integer `u` exactly when `u` fits `lua_Integer`, and a float otherwise; the cast never wraps |
| Numbers.Int64Selection | src/calibre.hpp:64-76 | `Int64` pushes the integer `i` exactly when `i` lies within `lua_Integer`'s range, and a float otherwise |
| Numbers.Uint64Selection | src/calibre.hpp:77-88 | `Uint64` pushes the integer `u` exactly when `u` fits `lua_Integer`, and a float otherwise; the cast of the maximum to `uint64_t` is accounted for |
| Numbers.SixtyFourBitBoundary | src/calibre.hpp:64-88 | with a 64-bit `lua_Integer`, 2^63-1 stays an integer, 2^64-1 becomes a float, and -2^63 stays an integer |
| Numbers.ThirtyTwoBitBoundary | src/calibre.hpp:51-76 | with a 32-bit `lua_Integer`, every unsigned above 2^31-1 becomes a float and every smaller one stays an integer; every int64 outside [-2^31, 2^31-1] becomes a float and every one inside stays an integer |
| Fields.UuidKeyIsDropped | src/calibre.hpp:224-234 | the entry is spelled `"uuid "` with a trailing blank, so a `"uuid"` key is not kept; matching is exact and case-sensitive (no prefixes, no case variants) |
| Fields.AllowListSize | src/calibre.hpp:224-234 | the allow-list literal has nine distinct entries, no duplicates (the count only feeds the `lua_createtable` size hint, which is left out) |
| Context.Submit | src/calibre.hpp:193-216 | `topFn` changes nothing; `objectFn` pops key and value into the table at its slot; `arrayFn` stores the top at `++index_` and pops it; no other table changes; only an array context counts submits |
| Context.ArraySubmitsInOrder | src/calibre.hpp:210-213 | with the array table below the element, the j-th submit stores its value at `index_ + j + 1`; `index_` counts every submit; no other key of that table and no other table changes; the stack is restored |
| Context.SourceObjectSlotIsKey | src/calibre.hpp:205-208 | as written, after a key and a value are pushed, index -2 holds the key string, so `lua_rawset` has no table to set into |
| Context.IntendedObjectSlotStoresPair | src/calibre.hpp:205-208 | at index -3, the object submit binds the key to the value, pops both, and leaves every other key and table alone |
| Context.SourceArraySlotIsElement | src/calibre.hpp:210-213 | as written, the submit is defined only when the element is itself a table; it then stores the element into itself and leaves the array table unchanged |
| Handler.ScalarStep | src/calibre.hpp:24-117 | a scalar callback is a no-op while the flag is clear; otherwise it pushes one value and submits it once, and it is defined exactly when the context can accept it |
| Handler.KeyStep | src/calibre.hpp:130-139 | the flag becomes exact membership of the key in the allow-list; the key is pushed exactly when it is a member; nothing else changes |
| Handler.StartObjectStep | src/calibre.hpp:118-129 | whatever the flag, it rejects the event when `lua_checkstack` fails; otherwise it pushes a fresh empty table, saves the context and installs an object context |
| Handler.StartArrayStep | src/calibre.hpp:146-160 | a no-op while the flag is clear; otherwise the same as `StartObject`, with an array context |
| Handler.PopAndSubmit | src/calibre.hpp:164-170 | it succeeds exactly when `stack_` is non-empty and the restored context can submit, and is undefined otherwise; on success the Lua state is that submit's result, the last saved context is dropped from `stack_` and becomes current with one more submit counted, and the flag is kept |
| Handler.EndObjectStep | src/calibre.hpp:140-145 | whatever the flag: undefined on an empty `stack_`; otherwise it succeeds exactly when the restored context can submit, and then the new state is the submit's Lua state, `stack_` without its last entry, that entry advanced by one as `context_`, and the flag unchanged |
| Handler.EndArrayStep | src/calibre.hpp:161-171 | a no-op while the flag is clear; otherwise the assert fails when the reported count differs from `index_`, and when it matches the step pops and submits |
| Handler.ToLuaHandler.constructor | src/calibre.hpp:22 | a new handler has no saved contexts, the top context and the flag cleared |
| Handler.ToLuaHandler.SubmitCurrent | src/calibre.hpp:193-196 | `context_.submit(L)` updates context and Lua state as `Submit` does and leaves `stack_` and the flag alone |
| Handler.ToLuaHandler.Null | src/calibre.hpp:24-32 | returns true; the new state is `ScalarStep` with the null sentinel |
| Handler.ToLuaHandler.Bool | src/calibre.hpp:33-41 | returns true; the new state is `ScalarStep` with the boolean |
| Handler.ToLuaHandler.Int | src/calibre.hpp:42-50 | returns true; the new state is `ScalarStep` with the integer |
| Handler.ToLuaHandler.Uint | src/calibre.hpp:51-63 | returns true; the new state is `ScalarStep` with the integer-or-float selection |
| Handler.ToLuaHandler.Int64 | src/calibre.hpp:64-76 | returns true; the new state is `ScalarStep` with the integer-or-float selection |
| Handler.ToLuaHandler.Uint64 | src/calibre.hpp:77-88 | returns true; the new state is `ScalarStep` with the integer-or-float selection |
| Handler.ToLuaHandler.Double | src/calibre.hpp:89-97 | returns true; the new state is `ScalarStep` with a float |
| Handler.ToLuaHandler.RawNumber | src/calibre.hpp:98-108 | returns true; the new state is `ScalarStep` with what `tonumber` returned |
| Handler.ToLuaHandler.String | src/calibre.hpp:109-117 | returns true; the new state is `ScalarStep` with the string |
| Handler.ToLuaHandler.StartObject | src/calibre.hpp:118-129 | follows `StartObjectStep`; on failure the state is unchanged |
| Handler.ToLuaHandler.Key | src/calibre.hpp:130-139 | returns true; the new state is `KeyStep` |
| Handler.ToLuaHandler.EndObject | src/calibre.hpp:140-145 | returns true; the new state is `EndObjectStep` |
| Handler.ToLuaHandler.StartArray | src/calibre.hpp:146-160 | follows `StartArrayStep`; on failure the state is unchanged |
| Handler.ToLuaHandler.EndArray | src/calibre.hpp:161-171 | returns true; the new state is `EndArrayStep`; the assert is a precondition |
| Handler.ToLuaHandler.Handle | src/calibre.hpp:21-171 | one event dispatched to its callback: the result is `Step`, and a rejected event leaves the state unchanged |
| Handler.ToLuaHandler.Feed | src/calibre.hpp:240-242 | the reader's loop over all events; the handler ends in the state `Run` computes, or the run is reported as rejected |
| Balance.StepRefinesControl | src/calibre.hpp:118-171 | on `stack_`, `context_` and the flag, every callback acts exactly as `ControlStep`; where `ControlStep` has no continuation, the callback is not safe |
| Balance.RunRefinesControl | src/calibre.hpp:118-171 | the same for whole runs: a completed run did what `ControlRun` says, and a run `ControlRun` cannot continue never completes |
| Balance.ValueRun | src/calibre.hpp:118-171 | a stable JSON value leaves `stack_` as it was, advances the context by the value's submits, and leaves the flag as `FlagAfter` says |
| Balance.ObjectRun | src/calibre.hpp:118-145 | an object always pushes and pops one context and submits once |
| Balance.ArrayRun | src/calibre.hpp:146-171 | a kept array pushes and pops one context and submits once, and its assert holds; a skipped array leaves the context to its elements |
| Balance.MembersRun | src/calibre.hpp:130-139 | an object's members leave `stack_` and the object context unchanged |
| Balance.ItemsRun | src/calibre.hpp:146-171 | an array's elements, one after another, advance the context by their submits |
| Balance.RecordBalanced | src/calibre.hpp:118-171 | a stable record processed by a fresh handler ends with `stack_` empty and the top context current; it never pops an empty `stack_` or fails the assert |
| Balance.CompletedRunIsBalanced | src/calibre.hpp:118-171 | a completed run of the full handler over a stable record ends with `stack_` empty and `context_` the top context |
| Balance.NestedUnstable | src/calibre.hpp:130-171 | when an array's element object has a key whose allow-list membership differs from the array's own key, the record is not stable |
| Balance.FlagClearedInsideArrayLeavesContextOpen | src/calibre.hpp:130-171 | in `{kept: [{dropped: v}]}` the inner key clears the flag, so `EndArray` does not pop; the record ends with a context still saved and an object context current |
| Balance.FlagSetInsideSkippedArrayFailsAssert | src/calibre.hpp:161-171 | in `{dropped: [{kept: v}]}` the inner key sets the flag, so the skipped array's `EndArray` asserts against the record's context and fails |
| Record.KeptItemsRun | src/calibre.hpp:24-117 | inside a kept array, the element events fill the array table exactly as `FillArray` does |
| Record.StoreListEffect | src/calibre.hpp:146-171 | a kept array field leaves the stack as before, grows the heap by one table holding exactly the elements at 1..n, binds the key to it, and changes nothing else |
| Record.CloseKeptArray | src/calibre.hpp:161-171 | `EndArray` of a kept array whose count matches stores the array under its key and restores the record's object context |
| Record.KeptArrayRun | src/calibre.hpp:146-171 | the events of a kept array field do exactly `StoreList` |
| Record.KeptScalar | src/calibre.hpp:109-117 | a kept scalar field binds its key to its value in the record table and changes no other key or table |
| Record.MemberRun | src/calibre.hpp:130-171 | one member keeps the record table on top; the record then represents the selection updated by that member |
| Record.MembersDecode | src/calibre.hpp:130-171 | all members of a flat record select their fields into the record table, in order |
| Record.FlatRecordDecodes | src/calibre.hpp:118-171 | a flat record completes, ends balanced, and leaves exactly one new stack value: a fresh table representing the selected fields; the caller's tables are untouched |
| Record.SelectedFields | src/calibre.hpp:130-139 | a key is selected exactly when it is allow-listed and occurs, and it holds the field of its last occurrence |
| Record.SourceSlotsFailOnKeptScalar | src/calibre.hpp:205-208 | as written, a record with one kept scalar field is already undefined |
| Record.DroppedObjectFieldIsSubmitted | src/calibre.hpp:118-145 | a dropped field whose value is an object still submits a table into the record's context; unless the caller's top slot holds a table, the run is undefined |
| Decode.DecimalRoundTrip | src/calibre.hpp:247 | the offset's decimal text reads back as the offset |
| Decode.MessageDetermines | src/calibre.hpp:247 | the `"%s (%d)"` message determines both the description and the offset |
| Decode.PushDecoded | src/calibre.hpp:237-252 | on success it returns one result: the Lua state the handler built; on failure it returns two: the stack cut back to its old height, then `nil`, then the message |

## Left out

- The RapidJSON reader itself: tokenizing, byte offsets and error codes are parameters. So are `GetParseError_En`'s texts, which are the description carried by the verdict.
- The real Lua runtime: `lua_checkstack` is a per-event boolean. `tonumber` is the value carried by the `RawNumber` event. Memory errors raised by Lua are not modelled.
- Floating point: every float pushed is one opaque `Float` value.
- `values::push_null`: `values.hpp` is not part of this model. The pushed null is an opaque sentinel, distinct from `nil`.
- `Key` looks keys up as NUL-terminated strings. A key containing a NUL byte is not modelled.
- `stack_.reserve(32)` and the size hints passed to `lua_createtable`: they only affect allocation.
- `index_` is a C `int` and can overflow; it is unbounded here.
- The offset is a `size_t` formatted with `%d`. Offsets that do not fit an `int` are not modelled.
- Handler.ToLuaHandler.EndArray: the `assert` is a precondition of the method. A build with `NDEBUG` would skip it. `EndArrayStep` reports the failure as `AssertionFailed`.
- Decode.PushDecoded: states only what the stack shows. The tables left unreachable in the heap after an error are not described.
- A design that skips nested objects with a depth counter is not what this code does. There is no depth counter, and `StartObject`/`EndObject` ignore the flag. The model follows the code. Balance.RecordBalanced is therefore proved for records meeting `Stable`, and Record.FlatRecordDecodes for flat records only. Record.DroppedObjectFieldIsSubmitted shows what happens otherwise.
- Record.FlatRecordDecodes: assumes `lua_checkstack` always succeeds and uses the corrected slots.
- Every positive result in `Record` (KeptItemsRun, StoreListEffect, CloseKeptArray, KeptArrayRun, KeptScalar, MemberRun, MembersDecode, FlatRecordDecodes) is stated with the corrected slots (`IntendedSlots`), and so is `Context.FillArray`. The `Balance` lemmas hold for either choice of slots. With the slots as written, storing a kept field into the record has no table to store into (Context.SourceObjectSlotIsKey; a whole record with one kept scalar field is shown undefined by Record.SourceSlotsFailOnKeptScalar), and array elements are stored into themselves (Context.SourceArraySlotIsElement). Decode.PushDecoded takes the slots as a parameter; its precondition `Safe(...)` excludes undefined runs, so with the slots as written it speaks only of documents whose run stays defined.
- `unsigned` is taken to be 32 bits wide (`Uint` takes a `uint32`, and the size test compares `lua_Integer` against 4 bytes). Platforms with another `sizeof(unsigned)` are not modelled.

## Findings

| source | as written | input that shows it | evidently intended | confidence | as-written member | corrected member |
|---|---|---|---|---|---|---|
| src/calibre.hpp:205-208 | `objectFn` calls `lua_rawset(L, -2)` | `{"title": "A"}`: after `Key` and `String` the stack holds table, `"title"`, `"A"`, and index -2 is the key string, not a table | `lua_rawset(L, -3)`, the table below key and value | high; not executed | Context.SourceObjectSlotIsKey | Context.IntendedObjectSlotStoresPair |
| src/calibre.hpp:210-213 | `arrayFn` calls `lua_rawseti(L, -1, ++index_)` | `{"tags": ["x"]}`: the stack holds record table, `"tags"`, array table, `"x"`, and index -1 is the element `"x"` | `lua_rawseti(L, -2, ++index_)`, the array table below the element | high; not executed | Context.SourceArraySlotIsElement | Context.ArraySubmitsInOrder |
