/**
 * An abstract Lua runtime: a value stack addressed by negative (relative)
 * indices and a heap of tables. Only the C API operations the decoder uses
 * are modelled: push, lua_createtable/lua_newtable, lua_rawset,
 * lua_rawseti and lua_settop. Floating-point numbers are an opaque tag.
 */
module LuaApi {

  /** The Lua values the decoder can produce. */
  datatype Value =
    | Nil
    | Boolean(b: bool)
    | Integer(i: int)
    | Float                // any lua_Number; its bits are not modelled
    | Str(s: string)
    | TableRef(ref: nat)   // a table, by its position in the heap
    | JsonNull             // the sentinel pushed by values::push_null

  /** The contents of one table; an absent key reads as nil. */
  type Table = map<Value, Value>

  datatype Lua = Lua(stack: seq<Value>, heap: seq<Table>)

  /** Relative index `idx` (-1 is the top) names an existing slot. */
  predicate ValidIndex(L: Lua, idx: int)
  {
    idx < 0 && -idx <= |L.stack|
  }

  function At(L: Lua, idx: int): Value
    requires ValidIndex(L, idx)
  {
    L.stack[|L.stack| + idx]
  }

  predicate IsTable(L: Lua, v: Value)
  {
    v.TableRef? && v.ref < |L.heap|
  }

  /** The slot the C API call addresses holds a table: what lua_rawset and
      lua_rawseti demand of their index argument. */
  predicate TableAt(L: Lua, idx: int)
  {
    ValidIndex(L, idx) && IsTable(L, At(L, idx))
  }

  /** Keys that a raw assignment accepts: nil is refused by Lua and a float
      may be NaN, which is refused too. */
  predicate ValidKey(k: Value)
  {
    !k.Nil? && !k.Float?
  }

  /** Reading t[k] in Lua: nil when the key is absent. */
  function Lookup(t: Table, k: Value): Value
  {
    if k in t then t[k] else Nil
  }

  /** Raw assignment t[k] = v; assigning nil removes the key. */
  function Assign(t: Table, k: Value, v: Value): (r: Table)
    ensures Lookup(r, k) == v
    ensures forall k' :: k' != k ==> Lookup(r, k') == Lookup(t, k')
  {
    if v == Nil then t - {k} else t[k := v]
  }

  function Push(L: Lua, v: Value): Lua
  {
    Lua(L.stack + [v], L.heap)
  }

  /** lua_createtable / lua_newtable: a fresh empty table is pushed. */
  function NewTable(L: Lua): (r: Lua)
    ensures r.stack == L.stack + [TableRef(|L.heap|)]
    ensures |r.heap| == |L.heap| + 1 && r.heap[..|L.heap|] == L.heap
    ensures r.heap[|L.heap|] == map[]
    ensures TableAt(r, -1)
  {
    Lua(L.stack + [TableRef(|L.heap|)], L.heap + [map[]])
  }

  /** lua_rawset(L, idx): t[k] = v where t is the value at idx, k the value
      just below the top and v the top; pops k and v. The index is resolved
      before anything is popped. */
  function RawSet(L: Lua, idx: int): (r: Lua)
    requires |L.stack| >= 2 && TableAt(L, idx) && ValidKey(At(L, -2))
    ensures r.stack == L.stack[..|L.stack| - 2]
    ensures |r.heap| == |L.heap|
    ensures r.heap[At(L, idx).ref] == Assign(L.heap[At(L, idx).ref], At(L, -2), At(L, -1))
    ensures forall i :: 0 <= i < |L.heap| && i != At(L, idx).ref ==> r.heap[i] == L.heap[i]
  {
    var t := At(L, idx).ref;
    Lua(L.stack[..|L.stack| - 2], L.heap[t := Assign(L.heap[t], At(L, -2), At(L, -1))])
  }

  /** lua_rawseti(L, idx, n): t[n] = v where t is the value at idx and v the
      top; pops v. */
  function RawSetI(L: Lua, idx: int, n: int): (r: Lua)
    requires |L.stack| >= 1 && TableAt(L, idx)
    ensures r.stack == L.stack[..|L.stack| - 1]
    ensures |r.heap| == |L.heap|
    ensures r.heap[At(L, idx).ref] == Assign(L.heap[At(L, idx).ref], Integer(n), At(L, -1))
    ensures forall i :: 0 <= i < |L.heap| && i != At(L, idx).ref ==> r.heap[i] == L.heap[i]
  {
    var t := At(L, idx).ref;
    Lua(L.stack[..|L.stack| - 1], L.heap[t := Assign(L.heap[t], Integer(n), At(L, -1))])
  }

  /** lua_settop(L, n): the stack gets exactly n slots, dropping the ones
      above or filling new ones with nil. */
  function SetTop(L: Lua, n: nat): (r: Lua)
    ensures |r.stack| == n && r.heap == L.heap
    ensures n <= |L.stack| ==> r.stack == L.stack[..n]
    ensures forall i :: |L.stack| <= i < n ==> r.stack[i] == Nil
  {
    if n <= |L.stack| then Lua(L.stack[..n], L.heap)
    else Lua(L.stack + seq(n - |L.stack|, _ => Nil), L.heap)
  }
}
