/**
 * The composition context of src/calibre.hpp (ToLuaHandler::Ctx): an
 * insertion counter and one of three submit functions. Submitting moves the
 * value on top of the Lua stack into the container being filled.
 *
 * The Lua slot each submit function addresses is a parameter (Slots): the
 * source passes -2 to lua_rawset and -1 to lua_rawseti, while the C API
 * takes that index to be the TABLE's. The model makes "the slot holds a
 * table" an explicit precondition (CanSubmit) instead of assuming which
 * slot was meant.
 */
module Context {
  import opened LuaApi

  /** Which of objectFn, arrayFn and topFn the context's fn_ points to. */
  datatype Fn = TopFn | ObjectFn | ArrayFn

  /** Ctx: index_ counts the array elements stored so far. */
  datatype Ctx = Ctx(index: int, fn: Fn)

  /** The default constructor, Ctx::Object() and Ctx::Array(): all start
      with index_ == 0. */
  const Top: Ctx := Ctx(0, TopFn)
  const Object: Ctx := Ctx(0, ObjectFn)
  const Array: Ctx := Ctx(0, ArrayFn)

  /** The relative Lua indices passed to lua_rawset (objects) and
      lua_rawseti (arrays). */
  datatype Slots = Slots(objectSlot: int, arraySlot: int)

  /** The indices as written in objectFn and arrayFn. */
  const SourceSlots: Slots := Slots(-2, -1)

  /** The indices at which the container sits once its key and value (or
      its element) have been pushed above it. */
  const IntendedSlots: Slots := Slots(-3, -2)

  /** What the C API demands for submit to be defined: an object submit
      needs a key and a value on the stack and a table at its slot; an array
      submit needs a value and a table at its slot; top needs nothing. */
  predicate CanSubmit(c: Ctx, L: Lua, slots: Slots)
  {
    match c.fn
    case TopFn => true
    case ObjectFn => |L.stack| >= 2 && TableAt(L, slots.objectSlot) && ValidKey(At(L, -2))
    case ArrayFn => |L.stack| >= 1 && TableAt(L, slots.arraySlot)
  }

  /** The context after m submits: only an array context counts them. */
  function Advance(c: Ctx, m: nat): (r: Ctx)
    ensures r.fn == c.fn
    ensures r.index == if c.fn == ArrayFn then c.index + m else c.index
  {
    if c.fn == ArrayFn then c.(index := c.index + m) else c
  }

  /** Ctx::submit: objectFn pops key and value into the table at its slot,
      arrayFn stores the top at ++index_ in the table at its slot, topFn
      leaves everything (including the value) where it is. */
  function Submit(c: Ctx, L: Lua, slots: Slots): (r: (Ctx, Lua))
    requires CanSubmit(c, L, slots)
    ensures r.0 == Advance(c, 1)
    ensures c.fn == TopFn ==> r.1 == L
    ensures c.fn == ObjectFn ==>
      && r.1.stack == L.stack[..|L.stack| - 2]
      && |r.1.heap| == |L.heap|
      && r.1.heap[At(L, slots.objectSlot).ref]
         == Assign(L.heap[At(L, slots.objectSlot).ref], At(L, -2), At(L, -1))
    ensures c.fn == ArrayFn ==>
      && r.1.stack == L.stack[..|L.stack| - 1]
      && |r.1.heap| == |L.heap|
      && r.1.heap[At(L, slots.arraySlot).ref]
         == Assign(L.heap[At(L, slots.arraySlot).ref], Integer(c.index + 1), At(L, -1))
    ensures c.fn != TopFn ==>
      var t := At(L, if c.fn == ObjectFn then slots.objectSlot else slots.arraySlot).ref;
      forall i :: 0 <= i < |L.heap| && i != t ==> r.1.heap[i] == L.heap[i]
  {
    match c.fn
    case TopFn => (c, L)
    case ObjectFn => (c, RawSet(L, slots.objectSlot))
    case ArrayFn => (c.(index := c.index + 1), RawSetI(L, slots.arraySlot, c.index + 1))
  }

  /** Pushing each of vs in turn and submitting it through an array context
      whose table is on top of the stack (the intended slots). */
  function FillArray(c: Ctx, L: Lua, vs: seq<Value>): (r: (Ctx, Lua))
    requires c.fn == ArrayFn && TableAt(L, -1)
    ensures r.0.fn == ArrayFn && r.0.index == c.index + |vs|
    ensures r.1.stack == L.stack && |r.1.heap| == |L.heap|
    decreases |vs|
  {
    if vs == [] then (c, L)
    else
      var next := Submit(c, Push(L, vs[0]), IntendedSlots);
      FillArray(next.0, next.1, vs[1..])
  }

  /** Filling an array changes only its table, and in it only the keys
      index_ + 1 .. index_ + |vs|. */
  lemma {:induction false} FillArrayFrame(c: Ctx, L: Lua, vs: seq<Value>)
    requires c.fn == ArrayFn && TableAt(L, -1)
    ensures var r := FillArray(c, L, vs); var t := At(L, -1).ref;
      && (forall k: Value :: !(k.Integer? && c.index < k.i <= c.index + |vs|) ==>
            Lookup(r.1.heap[t], k) == Lookup(L.heap[t], k))
      && (forall i :: 0 <= i < |L.heap| && i != t ==> r.1.heap[i] == L.heap[i])
    decreases |vs|
  {
    if vs != [] {
      var L1 := Push(L, vs[0]);
      assert At(L1, IntendedSlots.arraySlot) == At(L, -1);
      var next := Submit(c, L1, IntendedSlots);
      assert next.1.stack == L.stack;
      FillArrayFrame(next.0, next.1, vs[1..]);
    }
  }

  /** The j-th value filled (from 0) lands at Lua index index_ + j + 1. */
  lemma {:induction false} FillArrayStores(c: Ctx, L: Lua, vs: seq<Value>)
    requires c.fn == ArrayFn && TableAt(L, -1)
    ensures var r := FillArray(c, L, vs); var t := At(L, -1).ref;
      forall j :: 0 <= j < |vs| ==> Lookup(r.1.heap[t], Integer(c.index + j + 1)) == vs[j]
    decreases |vs|
  {
    if vs != [] {
      var t := At(L, -1).ref;
      var L1 := Push(L, vs[0]);
      assert At(L1, IntendedSlots.arraySlot) == TableRef(t);
      var next := Submit(c, L1, IntendedSlots);
      assert next.1.stack == L.stack;
      assert At(next.1, -1) == TableRef(t);
      assert Lookup(next.1.heap[t], Integer(c.index + 1)) == vs[0];
      var r := FillArray(c, L, vs);
      assert r == FillArray(next.0, next.1, vs[1..]);
      FillArrayStores(next.0, next.1, vs[1..]);
      FillArrayFrame(next.0, next.1, vs[1..]);
      forall j | 0 <= j < |vs|
        ensures Lookup(r.1.heap[t], Integer(c.index + j + 1)) == vs[j]
      {
        if j > 0 {
          assert vs[1..][j - 1] == vs[j];
          assert next.0.index + (j - 1) + 1 == c.index + j + 1;
        } else {
          var k := Integer(c.index + 1);
          assert next.0.index == k.i;
        }
      }
    }
  }

  /** An array submit stores at ++index_: the j-th submitted value (from 0)
      lands at Lua index index_ + j + 1, index_ ends up counting every
      submit, no other key of the table and no other table changes, and the
      stack is as before. */
  lemma ArraySubmitsInOrder(c: Ctx, L: Lua, vs: seq<Value>)
    requires c.fn == ArrayFn && TableAt(L, -1)
    ensures var r := FillArray(c, L, vs); var t := At(L, -1).ref;
      && r.0.index == c.index + |vs|
      && r.1.stack == L.stack
      && (forall j :: 0 <= j < |vs| ==> Lookup(r.1.heap[t], Integer(c.index + j + 1)) == vs[j])
      && (forall k: Value :: !(k.Integer? && c.index < k.i <= c.index + |vs|) ==>
            Lookup(r.1.heap[t], k) == Lookup(L.heap[t], k))
      && (forall i :: 0 <= i < |L.heap| && i != t ==> r.1.heap[i] == L.heap[i])
  {
    FillArrayStores(c, L, vs);
    FillArrayFrame(c, L, vs);
  }

  /** As written, objectFn passes -2 to lua_rawset. After Key pushed the
      key and a callback pushed the value, slot -2 holds the key string, so
      the table the C API needs is not there and the submit is undefined. */
  lemma SourceObjectSlotIsKey(L: Lua, key: string, v: Value)
    ensures var L2 := Push(Push(L, Str(key)), v);
      At(L2, SourceSlots.objectSlot) == Str(key) && !CanSubmit(Object, L2, SourceSlots)
  {
  }

  /** With the table at -3 (below key and value) the object submit stores
      the value under the key, pops both, and leaves every other key and
      every other table alone. */
  lemma IntendedObjectSlotStoresPair(L: Lua, key: string, v: Value)
    requires TableAt(L, -1)
    ensures var L2 := Push(Push(L, Str(key)), v); var t := At(L, -1).ref;
      && CanSubmit(Object, L2, IntendedSlots)
      && var r := Submit(Object, L2, IntendedSlots).1;
      && r.stack == L.stack
      && Lookup(r.heap[t], Str(key)) == v
      && (forall k: Value :: k != Str(key) ==> Lookup(r.heap[t], k) == Lookup(L.heap[t], k))
      && (forall i :: 0 <= i < |L.heap| && i != t ==> r.heap[i] == L.heap[i])
  {
    var L2 := Push(Push(L, Str(key)), v);
    assert At(L2, IntendedSlots.objectSlot) == At(L, -1);
    assert L2.stack[..|L2.stack| - 2] == L.stack;
  }

  /** As written, arrayFn passes -1 to lua_rawseti: the slot of the element
      itself. The submit is defined only when the element is a table, and
      then the element is stored into itself while the array table does not
      change. */
  lemma SourceArraySlotIsElement(c: Ctx, L: Lua, v: Value)
    requires c.fn == ArrayFn && TableAt(L, -1)
    ensures CanSubmit(c, Push(L, v), SourceSlots) <==> IsTable(L, v)
    ensures IsTable(L, v) ==>
      var r := Submit(c, Push(L, v), SourceSlots).1; var t := At(L, -1).ref;
      && r.stack == L.stack
      && Lookup(r.heap[v.ref], Integer(c.index + 1)) == v
      && (v.ref != t ==> r.heap[t] == L.heap[t])
  {
    var L1 := Push(L, v);
    assert At(L1, SourceSlots.arraySlot) == v;
    assert L1.stack[..|L1.stack| - 1] == L.stack;
  }
}
