/**
 * What the handler builds in Lua for a record whose fields are scalars or
 * arrays of scalars (the shape of every allow-listed calibre field): one
 * table, pushed above the caller's stack, holding exactly the allow-listed
 * keys that occur, each bound to its last occurrence's value; an array
 * field is a fresh table holding its elements at 1..n in document order.
 *
 * Proved for the submit slots at which the container actually sits
 * (IntendedSlots, see module Context) and with lua_checkstack always
 * succeeding.
 */
module Record {
  import opened LuaApi
  import opened Numbers
  import opened Fields
  import opened Context
  import opened Handler
  import opened Balance

  /** lua_checkstack succeeds during every event. */
  predicate AllRoom(rooms: seq<bool>)
  {
    forall i :: 0 <= i < |rooms| ==> rooms[i]
  }

  /** Continuing a run with more events, unless it has already stopped. */
  function Continue(o: Outcome, events: seq<Event>, rooms: seq<bool>, w: nat, slots: Slots): Outcome
    requires |rooms| == |events| && IsIntegerWidth(w)
  {
    match o
    case Next(t) => Run(t, events, rooms, w, slots)
    case _ => o
  }

  lemma {:induction false} RunAppend(s: HState, a: seq<Event>, b: seq<Event>, ra: seq<bool>, rb: seq<bool>, w: nat, slots: Slots)
    requires |ra| == |a| && |rb| == |b| && IsIntegerWidth(w)
    ensures Run(s, a + b, ra + rb, w, slots) == Continue(Run(s, a, ra, w, slots), b, rb, w, slots)
    decreases |b|
  {
    if b == [] {
      assert a + b == a && ra + rb == ra;
    } else {
      var n := |b| - 1;
      RunAppend(s, a, b[..n], ra, rb[..n], w, slots);
      assert (a + b)[..|a + b| - 1] == a + b[..n];
      assert (ra + rb)[..|ra + rb| - 1] == ra + rb[..n];
      assert (a + b)[|a + b| - 1] == b[n] && (ra + rb)[|ra + rb| - 1] == rb[n];
    }
  }

  lemma RunSingle(s: HState, e: Event, room: bool, w: nat, slots: Slots)
    requires IsIntegerWidth(w)
    ensures Run(s, [e], [room], w, slots) == Step(s, e, room, w, slots)
  {
    assert [e][..0] == [] && [room][..0] == [];
  }

  /** Which step function each event selects. */
  lemma StepCases(s: HState, e: Event, room: bool, w: nat, slots: Slots)
    requires IsIntegerWidth(w)
    ensures e.EndArray? ==> Step(s, e, room, w, slots) == EndArrayStep(s, e.elementCount, slots)
    ensures e.StartArray? ==> Step(s, e, room, w, slots) == StartArrayStep(s, room)
    ensures e.StartObject? ==> Step(s, e, room, w, slots) == StartObjectStep(s, room)
    ensures e.EndObject? ==> Step(s, e, room, w, slots) == EndObjectStep(s, slots)
    ensures e.Key? ==> Step(s, e, room, w, slots) == Next(KeyStep(s, e.key))
    ensures IsScalar(e) ==> Step(s, e, room, w, slots) == ScalarStep(s, ScalarValue(e, w), slots)
  {
  }

  /** Splitting a run whose rooms are all true at a point. */
  lemma RunSplit(s: HState, a: seq<Event>, b: seq<Event>, rooms: seq<bool>, w: nat, slots: Slots)
    requires |rooms| == |a| + |b| && IsIntegerWidth(w)
    ensures Run(s, a + b, rooms, w, slots)
         == Continue(Run(s, a, rooms[..|a|], w, slots), b, rooms[|a|..], w, slots)
  {
    assert rooms == rooms[..|a|] + rooms[|a|..];
    RunAppend(s, a, b, rooms[..|a|], rooms[|a|..], w, slots);
  }

  /** Events the handler ignores entirely while the flag is clear. */
  predicate Skippable(e: Event)
  {
    !(e.StartObject? || e.EndObject? || e.Key?)
  }

  lemma {:induction false} SkippedRun(s: HState, events: seq<Event>, rooms: seq<bool>, w: nat, slots: Slots)
    requires |rooms| == |events| && IsIntegerWidth(w) && !s.required
    requires forall i :: 0 <= i < |events| ==> Skippable(events[i])
    ensures Run(s, events, rooms, w, slots) == Next(s)
    decreases |events|
  {
    if events != [] {
      var n := |events| - 1;
      SkippedRun(s, events[..n], rooms[..n], w, slots);
      assert Skippable(events[n]);
    }
  }

  /** A field value of a flat record: a scalar, or an array of scalars. */
  predicate ScalarItems(items: seq<Json>)
  {
    forall i :: 0 <= i < |items| ==> items[i].Scalar? && IsScalar(items[i].e)
  }

  predicate IsFlatValue(j: Json)
  {
    match j
    case Scalar(e) => IsScalar(e)
    case Obj(_) => false
    case Arr(items) => ScalarItems(items)
  }

  predicate IsFlat(ms: seq<Member>)
  {
    forall i :: 0 <= i < |ms| ==> IsFlatValue(ms[i].value)
  }

  /** The values the handler pushes for a run of scalar events. */
  function Values(es: seq<Event>, w: nat): (vs: seq<Value>)
    requires IsIntegerWidth(w) && forall i :: 0 <= i < |es| ==> IsScalar(es[i])
    ensures |vs| == |es| && forall i :: 0 <= i < |es| ==> vs[i] == ScalarValue(es[i], w)
  {
    if es == [] then [] else [ScalarValue(es[0], w)] + Values(es[1..], w)
  }

  /** The events of an array's scalar elements are those scalars. */
  lemma {:induction false} ScalarItemsEvents(items: seq<Json>)
    requires ScalarItems(items)
    ensures |ItemsEvents(items)| == |items|
    ensures forall i :: 0 <= i < |items| ==> ItemsEvents(items)[i] == items[i].e && IsScalar(items[i].e)
  {
    if items != [] {
      ScalarItemsEvents(items[1..]);
      assert ItemsEvents(items) == [items[0].e] + ItemsEvents(items[1..]);
      forall i | 0 < i < |items|
        ensures ItemsEvents(items)[i] == items[i].e
      {
        assert items[1..][i - 1] == items[i];
      }
    }
  }

  /** Scalar elements never change the flag. */
  lemma {:induction false} ScalarItemsKeepFlag(items: seq<Json>, f: bool)
    requires ScalarItems(items)
    ensures FlagAfterItems(items, f) == f
  {
    if items != [] {
      ScalarItemsKeepFlag(items[1..], f);
    }
  }

  /** Inside a kept array, the element events fill the array table exactly
      as FillArray does. */
  lemma {:induction false} KeptItemsRun(s: HState, es: seq<Event>, rooms: seq<bool>, w: nat)
    requires |rooms| == |es| && IsIntegerWidth(w)
    requires forall i :: 0 <= i < |es| ==> IsScalar(es[i])
    requires s.required && s.ctx.fn == ArrayFn && TableAt(s.lua, -1)
    ensures var r := FillArray(s.ctx, s.lua, Values(es, w));
      Run(s, es, rooms, w, IntendedSlots) == Next(HState(r.1, s.saved, r.0, true))
    decreases |es|
  {
    if es != [] {
      var v := ScalarValue(es[0], w);
      var L1 := Push(s.lua, v);
      assert At(L1, IntendedSlots.arraySlot) == At(s.lua, -1);
      var next := Submit(s.ctx, L1, IntendedSlots);
      var s1 := HState(next.1, s.saved, next.0, true);
      assert L1.stack[..|L1.stack| - 1] == s.lua.stack;
      assert Step(s, es[0], rooms[0], w, IntendedSlots) == Next(s1);
      RunSingle(s, es[0], rooms[0], w, IntendedSlots);
      assert es == [es[0]] + es[1..] && rooms == [rooms[0]] + rooms[1..];
      RunAppend(s, [es[0]], es[1..], [rooms[0]], rooms[1..], w, IntendedSlots);
      KeptItemsRun(s1, es[1..], rooms[1..], w);
      assert Values(es, w)[1..] == Values(es[1..], w);
    }
  }

  /** What a flat record's field decodes to: a value stored directly, or a
      table holding a list of values. */
  datatype Field = Leaf(v: Value) | List(vs: seq<Value>)

  function ItemEvents(items: seq<Json>): seq<Event>
    requires ScalarItems(items)
  {
    seq(|items|, i requires 0 <= i < |items| => items[i].e)
  }

  function FieldOf(j: Json, w: nat): Field
    requires IsFlatValue(j) && IsIntegerWidth(w)
  {
    match j
    case Scalar(e) => Leaf(ScalarValue(e, w))
    case Arr(items) => List(Values(ItemEvents(items), w))
  }

  /** The fields a record keeps, as a reference decoder would select them:
      members in order, a later occurrence of a key replacing an earlier. */
  function SelectFrom(m: map<string, Field>, ms: seq<Member>, w: nat): map<string, Field>
    requires IsFlat(ms) && IsIntegerWidth(w)
    decreases |ms|
  {
    if ms == [] then m
    else if IsRequired(ms[0].key) then SelectFrom(m[ms[0].key := FieldOf(ms[0].value, w)], ms[1..], w)
    else SelectFrom(m, ms[1..], w)
  }

  function Selected(ms: seq<Member>, w: nat): map<string, Field>
    requires IsFlat(ms) && IsIntegerWidth(w)
  {
    SelectFrom(map[], ms, w)
  }

  /** The table holds exactly vs at the keys 1..|vs| and nothing else. */
  ghost predicate IsList(tab: Table, vs: seq<Value>)
  {
    forall k: Value :: Lookup(tab, k) == if k.Integer? && 1 <= k.i <= |vs| then vs[k.i - 1] else Nil
  }

  /** x, read from table t, is what field f decodes to. */
  ghost predicate FieldAt(heap: seq<Table>, t: nat, x: Value, f: Field)
  {
    match f
    case Leaf(v) => x == v
    case List(vs) => x.TableRef? && x.ref < |heap| && x.ref != t && IsList(heap[x.ref], vs)
  }

  /** Table t of the heap represents the selected fields m: no key outside
      m is set, and each key of m holds its field. */
  ghost predicate Represents(heap: seq<Table>, t: nat, m: map<string, Field>)
  {
    && t < |heap|
    && (forall k: Value :: !(k.Str? && k.s in m) ==> Lookup(heap[t], k) == Nil)
    && (forall s :: s in m ==> FieldAt(heap, t, Lookup(heap[t], Str(s)), m[s]))
  }

  /** A heap that changed only at t and by growing keeps every list table
      m refers to. */
  lemma RepresentsFrame(heap: seq<Table>, heap': seq<Table>, t: nat, m: map<string, Field>, s: string)
    requires Represents(heap, t, m) && s in m
    requires |heap'| >= |heap| && forall i :: 0 <= i < |heap| && i != t ==> heap'[i] == heap[i]
    ensures FieldAt(heap', t, Lookup(heap[t], Str(s)), m[s])
  {
  }

  /** The state inside the record object: its table on top of the stack. */
  predicate InRecord(s: HState, t: nat)
  {
    && s.ctx == Object
    && |s.lua.stack| >= 1
    && s.lua.stack[|s.lua.stack| - 1] == TableRef(t)
  }

  /** One member of a flat record: its key and its value's events. */
  lemma MemberRun(s: HState, mem: Member, rooms: seq<bool>, w: nat, t: nat, m: map<string, Field>)
    requires IsIntegerWidth(w) && IsFlatValue(mem.value)
    requires |rooms| == 1 + |Events(mem.value)| && AllRoom(rooms)
    requires InRecord(s, t) && Represents(s.lua.heap, t, m)
    ensures var o := Run(s, [Key(mem.key)] + Events(mem.value), rooms, w, IntendedSlots);
      && o.Next?
      && InRecord(o.state, t)
      && o.state.saved == s.saved
      && o.state.required == IsRequired(mem.key)
      && o.state.lua.stack == s.lua.stack
      && |o.state.lua.heap| >= |s.lua.heap|
      && (forall i :: 0 <= i < |s.lua.heap| && i != t ==> o.state.lua.heap[i] == s.lua.heap[i])
      && Represents(o.state.lua.heap, t,
           if IsRequired(mem.key) then m[mem.key := FieldOf(mem.value, w)] else m)
  {
    var k := mem.key;
    var s1 := KeyStep(s, k);
    RunSplit(s, [Key(k)], Events(mem.value), rooms, w, IntendedSlots);
    RunSingle(s, Key(k), rooms[0], w, IntendedSlots);
    assert rooms[..1] == [rooms[0]];
    var rest := rooms[1..];
    assert AllRoom(rest);
    if !IsRequired(k) {
      match mem.value
      case Scalar(e) =>
        SkippedRun(s1, [e], rest, w, IntendedSlots);
      case Arr(items) =>
        ScalarItemsEvents(items);
        SkippedRun(s1, Events(mem.value), rest, w, IntendedSlots);
    } else {
      match mem.value
      case Scalar(e) =>
        KeptScalar(s, k, e, rest, w, t, m);
      case Arr(items) =>
        KeptArray(s, k, items, rest, w, t, m);
    }
  }

  lemma KeptScalar(s: HState, k: string, e: Event, rooms: seq<bool>, w: nat, t: nat, m: map<string, Field>)
    requires IsIntegerWidth(w) && IsScalar(e) && IsRequired(k) && |rooms| == 1
    requires InRecord(s, t) && Represents(s.lua.heap, t, m)
    ensures var o := Run(KeyStep(s, k), [e], rooms, w, IntendedSlots);
      && o.Next?
      && InRecord(o.state, t)
      && o.state.saved == s.saved
      && o.state.required
      && o.state.lua.stack == s.lua.stack
      && |o.state.lua.heap| == |s.lua.heap|
      && (forall i :: 0 <= i < |s.lua.heap| && i != t ==> o.state.lua.heap[i] == s.lua.heap[i])
      && Represents(o.state.lua.heap, t, m[k := Leaf(ScalarValue(e, w))])
  {
    var s1 := KeyStep(s, k);
    var v := ScalarValue(e, w);
    var L2 := Push(s1.lua, v);
    assert At(L2, -3) == TableRef(t) && At(L2, -2) == Str(k) && At(L2, -1) == v;
    assert rooms == [rooms[0]];
    RunSingle(s1, e, rooms[0], w, IntendedSlots);
    var L3 := RawSet(L2, -3);
    assert L2.stack[..|L2.stack| - 2] == s.lua.stack;
    var m' := m[k := Leaf(v)];
    forall x | x in m'
      ensures FieldAt(L3.heap, t, Lookup(L3.heap[t], Str(x)), m'[x])
    {
      if x != k {
        RepresentsFrame(s.lua.heap, L3.heap, t, m, x);
      }
    }
  }

  /** What a kept array field does in Lua: push the key, push a fresh
      table, fill it with vs through an array context, then store it under
      the key in the table below. */
  function StoreList(L: Lua, k: string, vs: seq<Value>): Lua
    requires TableAt(L, -1)
  {
    var L2 := NewTable(Push(L, Str(k)));
    var r := FillArray(Array, L2, vs);
    assert At(r.1, -3) == At(L, -1);
    RawSet(r.1, -3)
  }

  /** StoreList leaves the stack as it was, grows the heap by one list
      table holding vs, binds the key to it in the table on top, and
      changes nothing else. */
  lemma StoreListEffect(L: Lua, k: string, vs: seq<Value>)
    requires TableAt(L, -1)
    ensures var L4 := StoreList(L, k, vs); var t := At(L, -1).ref; var a := |L.heap|;
      && L4.stack == L.stack
      && |L4.heap| == |L.heap| + 1
      && (forall i :: 0 <= i < |L.heap| && i != t ==> L4.heap[i] == L.heap[i])
      && Lookup(L4.heap[t], Str(k)) == TableRef(a)
      && (forall x: Value :: x != Str(k) ==> Lookup(L4.heap[t], x) == Lookup(L.heap[t], x))
      && IsList(L4.heap[a], vs)
  {
    StoreListFrame(L, k, vs);
    StoreListHoldsList(L, k, vs);
  }

  lemma StoreListFrame(L: Lua, k: string, vs: seq<Value>)
    requires TableAt(L, -1)
    ensures var L4 := StoreList(L, k, vs); var t := At(L, -1).ref; var a := |L.heap|;
      && L4.stack == L.stack
      && |L4.heap| == |L.heap| + 1
      && (forall i :: 0 <= i < |L.heap| && i != t ==> L4.heap[i] == L.heap[i])
      && Lookup(L4.heap[t], Str(k)) == TableRef(a)
      && (forall x: Value :: x != Str(k) ==> Lookup(L4.heap[t], x) == Lookup(L.heap[t], x))
  {
    var t := At(L, -1).ref;
    var a := |L.heap|;
    var L2 := NewTable(Push(L, Str(k)));
    FillArrayFrame(Array, L2, vs);
    var r := Filled(L, k, vs);
    assert r == FillArray(Array, L2, vs);
    assert r.1.heap[t] == L2.heap[t] == L.heap[t];
    assert forall i :: 0 <= i < |L.heap| && i != t ==> r.1.heap[i] == L2.heap[i] == L.heap[i];
    assert r.1.stack[..|r.1.stack| - 2] == L.stack;
  }

  lemma StoreListHoldsList(L: Lua, k: string, vs: seq<Value>)
    requires TableAt(L, -1)
    ensures var L4 := StoreList(L, k, vs); var a := |L.heap|;
      |L4.heap| == |L.heap| + 1 && IsList(L4.heap[a], vs)
  {
    var t := At(L, -1).ref;
    var a := |L.heap|;
    var L2 := NewTable(Push(L, Str(k)));
    FillArrayStores(Array, L2, vs);
    FillArrayFrame(Array, L2, vs);
    var r := Filled(L, k, vs);
    assert r == FillArray(Array, L2, vs);
    var L4 := StoreList(L, k, vs);
    assert L4.heap[a] == r.1.heap[a];
    assert L2.heap[a] == map[];
    forall x: Value
      ensures Lookup(L4.heap[a], x) == if x.Integer? && 1 <= x.i <= |vs| then vs[x.i - 1] else Nil
    {
      if x.Integer? && 1 <= x.i <= |vs| {
        assert Lookup(r.1.heap[a], Integer(0 + (x.i - 1) + 1)) == vs[x.i - 1];
      }
    }
  }

  /** A run made of an opening event, a middle part and a closing event. */
  lemma RunThree(s1: HState, s2: HState, s3: HState, o: Outcome, open: Event, mid: seq<Event>, close: Event,
                 rooms: seq<bool>, w: nat, slots: Slots)
    requires IsIntegerWidth(w) && |rooms| == |mid| + 2
    requires Step(s1, open, rooms[0], w, slots) == Next(s2)
    requires Run(s2, mid, rooms[1..1 + |mid|], w, slots) == Next(s3)
    requires Step(s3, close, rooms[1 + |mid|], w, slots) == o
    ensures Run(s1, [open] + mid + [close], rooms, w, slots) == o
  {
    var n := |mid|;
    RunSplit(s1, [open] + mid, [close], rooms, w, slots);
    RunSplit(s1, [open], mid, rooms[..1 + n], w, slots);
    assert rooms[..1 + n][..1] == [rooms[0]] && rooms[..1 + n][1..] == rooms[1..1 + n];
    assert rooms[1 + n..] == [rooms[1 + n]];
    RunSingle(s1, open, rooms[0], w, slots);
    RunSingle(s3, close, rooms[1 + n], w, slots);
  }

  /** The array context after the elements of vs, above the key. */
  function Filled(L: Lua, k: string, vs: seq<Value>): (r: (Ctx, Lua))
    requires TableAt(L, -1)
    ensures r.0 == Array.(index := |vs|)
    ensures r.1.stack == L.stack + [Str(k), TableRef(|L.heap|)] && |r.1.heap| == |L.heap| + 1
    ensures At(r.1, -3) == At(L, -1) && At(r.1, -2) == Str(k)
    ensures CanSubmit(Object, r.1, IntendedSlots)
    ensures Submit(Object, r.1, IntendedSlots) == (Object, StoreList(L, k, vs))
  {
    FillArray(Array, NewTable(Push(L, Str(k))), vs)
  }

  /** EndArray of a kept array whose count matches: the array table is
      stored under the pending key in the record table. */
  lemma CloseKeptArray(s: HState, k: string, vs: seq<Value>)
    requires TableAt(s.lua, -1)
    ensures var r := Filled(s.lua, k, vs);
      EndArrayStep(HState(r.1, s.saved + [Object], r.0, true), |vs|, IntendedSlots)
      == Next(HState(StoreList(s.lua, k, vs), s.saved, Object, true))
  {
    var saved := s.saved + [Object];
    assert saved[..|saved| - 1] == s.saved && saved[|saved| - 1] == Object;
  }

  /** The events of a kept array field do exactly StoreList. */
  lemma KeptArrayRun(s: HState, k: string, items: seq<Json>, rooms: seq<bool>, w: nat)
    requires IsIntegerWidth(w) && ScalarItems(items) && IsRequired(k)
    requires |rooms| == |Events(Arr(items))| && AllRoom(rooms)
    requires s.ctx == Object && TableAt(s.lua, -1)
    ensures Run(KeyStep(s, k), Events(Arr(items)), rooms, w, IntendedSlots)
         == Next(HState(StoreList(s.lua, k, Values(ItemEvents(items), w)), s.saved, Object, true))
  {
    var s1 := KeyStep(s, k);
    var es := ItemEvents(items);
    ScalarItemsEvents(items);
    assert ItemsEvents(items) == es;
    var n := |items|;
    var s2 := HState(NewTable(s1.lua), s.saved + [Object], Array, true);
    var vs := Values(es, w);
    var r := Filled(s.lua, k, vs);
    var s3 := HState(r.1, s2.saved, r.0, true);
    KeptItemsRun(s2, es, rooms[1..1 + n], w);
    CloseKeptArray(s, k, vs);
    StepCases(s1, StartArray, rooms[0], w, IntendedSlots);
    StepCases(s3, EndArray(n), rooms[1 + n], w, IntendedSlots);
    RunThree(s1, s2, s3, Next(HState(StoreList(s.lua, k, vs), s.saved, Object, true)),
             StartArray, es, EndArray(n), rooms, w, IntendedSlots);
  }

  lemma KeptArray(s: HState, k: string, items: seq<Json>, rooms: seq<bool>, w: nat, t: nat, m: map<string, Field>)
    requires IsIntegerWidth(w) && ScalarItems(items) && IsRequired(k)
    requires |rooms| == |Events(Arr(items))| && AllRoom(rooms)
    requires InRecord(s, t) && Represents(s.lua.heap, t, m)
    ensures var o := Run(KeyStep(s, k), Events(Arr(items)), rooms, w, IntendedSlots);
      && o.Next?
      && InRecord(o.state, t)
      && o.state.saved == s.saved
      && o.state.required
      && o.state.lua.stack == s.lua.stack
      && |o.state.lua.heap| == |s.lua.heap| + 1
      && (forall i :: 0 <= i < |s.lua.heap| && i != t ==> o.state.lua.heap[i] == s.lua.heap[i])
      && Represents(o.state.lua.heap, t, m[k := FieldOf(Arr(items), w)])
  {
    var vs := Values(ItemEvents(items), w);
    KeptArrayRun(s, k, items, rooms, w);
    StoreListEffect(s.lua, k, vs);
    var L4 := StoreList(s.lua, k, vs);
    var m' := m[k := List(vs)];
    forall x | x in m'
      ensures FieldAt(L4.heap, t, Lookup(L4.heap[t], Str(x)), m'[x])
    {
      if x != k {
        RepresentsFrame(s.lua.heap, L4.heap, t, m, x);
      }
    }
  }

  /** A flat value never changes the flag its key set. */
  lemma FlatKeepsFlag(j: Json, f: bool)
    requires IsFlatValue(j)
    ensures FlagAfter(j, f) == f
  {
    if j.Arr? {
      ScalarItemsKeepFlag(j.items, f);
    }
  }

  /** The members of a flat record, handled inside its table, select their
      fields into it one after another. */
  lemma {:induction false} MembersDecode(s: HState, ms: seq<Member>, rooms: seq<bool>, w: nat, t: nat, m: map<string, Field>)
    requires IsIntegerWidth(w) && IsFlat(ms)
    requires |rooms| == |MembersEvents(ms)| && AllRoom(rooms)
    requires InRecord(s, t) && Represents(s.lua.heap, t, m)
    ensures var o := Run(s, MembersEvents(ms), rooms, w, IntendedSlots);
      && o.Next?
      && InRecord(o.state, t)
      && o.state.saved == s.saved
      && o.state.required == FlagAfterMembers(ms, s.required)
      && o.state.lua.stack == s.lua.stack
      && |o.state.lua.heap| >= |s.lua.heap|
      && (forall i :: 0 <= i < |s.lua.heap| && i != t ==> o.state.lua.heap[i] == s.lua.heap[i])
      && Represents(o.state.lua.heap, t, SelectFrom(m, ms, w))
    decreases |ms|
  {
    if ms == [] {
      assert rooms == [];
    } else {
      var mem := ms[0];
      var head := [Key(mem.key)] + Events(mem.value);
      var p := |head|;
      assert MembersEvents(ms) == head + MembersEvents(ms[1..]);
      assert IsFlatValue(ms[0].value);
      RunSplit(s, head, MembersEvents(ms[1..]), rooms, w, IntendedSlots);
      assert AllRoom(rooms[..p]) && AllRoom(rooms[p..]);
      MemberRun(s, mem, rooms[..p], w, t, m);
      var s1 := Run(s, head, rooms[..p], w, IntendedSlots).state;
      var m1 := if IsRequired(mem.key) then m[mem.key := FieldOf(mem.value, w)] else m;
      assert IsFlat(ms[1..]) by {
        forall i | 0 <= i < |ms| - 1
          ensures IsFlatValue(ms[1..][i].value)
        {
          assert ms[1..][i] == ms[i + 1];
        }
      }
      MembersDecode(s1, ms[1..], rooms[p..], w, t, m1);
      FlatKeepsFlag(mem.value, IsRequired(mem.key));
    }
  }

  /** A flat record decoded from a fresh handler: the handler completes,
      ends balanced, and leaves exactly one new value on the stack, a fresh
      table holding the selected fields; the caller's tables are untouched. */
  lemma FlatRecordDecodes(L0: Lua, ms: seq<Member>, rooms: seq<bool>, w: nat)
    requires IsIntegerWidth(w) && IsFlat(ms)
    requires |rooms| == |Events(Obj(ms))| && AllRoom(rooms)
    ensures var o := Run(HState(L0, [], Top, false), Events(Obj(ms)), rooms, w, IntendedSlots);
      && o.Next?
      && o.state.saved == [] && o.state.ctx == Top
      && o.state.lua.stack == L0.stack + [TableRef(|L0.heap|)]
      && |o.state.lua.heap| > |L0.heap|
      && o.state.lua.heap[..|L0.heap|] == L0.heap
      && Represents(o.state.lua.heap, |L0.heap|, Selected(ms, w))
  {
    var t := |L0.heap|;
    var s0 := HState(L0, [], Top, false);
    var s1 := HState(NewTable(L0), [Top], Object, false);
    assert [] + [Top] == [Top];
    StepCases(s0, StartObject, rooms[0], w, IntendedSlots);
    assert Step(s0, StartObject, rooms[0], w, IntendedSlots) == Next(s1);
    assert Represents(s1.lua.heap, t, map[]);
    var n := |MembersEvents(ms)|;
    assert AllRoom(rooms[1..1 + n]);
    MembersDecode(s1, ms, rooms[1..1 + n], w, t, map[]);
    var s2 := Run(s1, MembersEvents(ms), rooms[1..1 + n], w, IntendedSlots).state;
    var s3 := HState(s2.lua, [], Top, s2.required);
    StepCases(s2, EndObject(|ms|), rooms[1 + n], w, IntendedSlots);
    assert [Top][..0] == [];
    assert Step(s2, EndObject(|ms|), rooms[1 + n], w, IntendedSlots) == Next(s3);
    RunThree(s0, s1, s2, Next(s3), StartObject, MembersEvents(ms), EndObject(|ms|), rooms, w, IntendedSlots);
    assert s3.lua.heap[..t] == L0.heap;
  }

  /** m[s] is the field of the last member with key s. */
  predicate IsLast(ms: seq<Member>, s: string, i: int)
  {
    0 <= i < |ms| && ms[i].key == s && forall j :: i < j < |ms| ==> ms[j].key != s
  }

  /** What the reference selection keeps: a key is selected exactly when it
      is allow-listed and occurs (or was selected before), and it holds the
      field of its last occurrence. */
  lemma {:induction false} SelectFromFacts(m: map<string, Field>, ms: seq<Member>, w: nat, s: string)
    requires IsFlat(ms) && IsIntegerWidth(w)
    ensures s in SelectFrom(m, ms, w) <==> s in m || (IsRequired(s) && exists i :: 0 <= i < |ms| && ms[i].key == s)
    ensures forall i :: IsLast(ms, s, i) && IsRequired(s) ==> SelectFrom(m, ms, w)[s] == FieldOf(ms[i].value, w)
    ensures (forall i :: 0 <= i < |ms| ==> ms[i].key != s) && s in m ==> SelectFrom(m, ms, w)[s] == m[s]
    decreases |ms|
  {
    if ms != [] {
      var k := ms[0].key;
      var rest := ms[1..];
      var m1 := if IsRequired(k) then m[k := FieldOf(ms[0].value, w)] else m;
      assert IsFlat(rest) by {
        forall i | 0 <= i < |rest|
          ensures IsFlatValue(rest[i].value)
        {
          assert rest[i] == ms[i + 1];
        }
      }
      SelectFromFacts(m1, rest, w, s);
      assert SelectFrom(m, ms, w) == SelectFrom(m1, rest, w);
      if exists i :: 0 <= i < |ms| && ms[i].key == s {
        var i :| 0 <= i < |ms| && ms[i].key == s;
        if i > 0 {
          assert rest[i - 1].key == s;
        }
      }
      if exists i :: 0 <= i < |rest| && rest[i].key == s {
        var i :| 0 <= i < |rest| && rest[i].key == s;
        assert ms[i + 1].key == s;
      }
      forall i | IsLast(ms, s, i) && IsRequired(s)
        ensures SelectFrom(m, ms, w)[s] == FieldOf(ms[i].value, w)
      {
        if i > 0 {
          assert IsLast(rest, s, i - 1) by {
            forall j | i - 1 < j < |rest|
              ensures rest[j].key != s
            {
              assert rest[j] == ms[j + 1];
            }
          }
        } else {
          forall j | 0 <= j < |rest|
            ensures rest[j].key != s
          {
            assert rest[j] == ms[j + 1];
          }
        }
      }
      if (forall i :: 0 <= i < |ms| ==> ms[i].key != s) {
        forall j | 0 <= j < |rest|
          ensures rest[j].key != s
        {
          assert rest[j] == ms[j + 1];
        }
      }
    }
  }

  /** The decoded record's keys are the allow-listed keys that occur in
      it, each holding its last occurrence's field. */
  lemma SelectedFields(ms: seq<Member>, w: nat, s: string)
    requires IsFlat(ms) && IsIntegerWidth(w)
    ensures s in Selected(ms, w) <==> IsRequired(s) && exists i :: 0 <= i < |ms| && ms[i].key == s
    ensures forall i :: IsLast(ms, s, i) && IsRequired(s) ==> Selected(ms, w)[s] == FieldOf(ms[i].value, w)
  {
    SelectFromFacts(map[], ms, w, s);
  }

  /** As written (SourceSlots), the first kept scalar of a record already
      makes the run undefined: lua_rawset is handed the key's slot. */
  lemma SourceSlotsFailOnKeptScalar(L0: Lua, k: string, e: Event, rooms: seq<bool>, w: nat)
    requires IsIntegerWidth(w) && IsRequired(k) && IsScalar(e)
    requires |rooms| == |Events(Obj([Member(k, Scalar(e))]))| && AllRoom(rooms)
    ensures Run(HState(L0, [], Top, false), Events(Obj([Member(k, Scalar(e))])), rooms, w, SourceSlots) == Undefined
  {
    var ms := [Member(k, Scalar(e))];
    assert ms[1..] == [];
    assert MembersEvents(ms) == [Key(k), e];
    var events := [StartObject, Key(k), e, EndObject(1)];
    assert Events(Obj(ms)) == events;
    assert |rooms| == 4;
    var s0 := HState(L0, [], Top, false);
    var s1 := HState(NewTable(L0), [Top], Object, false);
    var s2 := KeyStep(s1, k);
    assert [] + [Top] == [Top];
    StepCases(s0, StartObject, rooms[0], w, SourceSlots);
    StepCases(s1, Key(k), rooms[1], w, SourceSlots);
    StepCases(s2, e, rooms[2], w, SourceSlots);
    assert At(Push(s2.lua, ScalarValue(e, w)), -2) == Str(k);
    assert Step(s2, e, rooms[2], w, SourceSlots) == Undefined;
    RunThree(s0, s1, s2, Undefined, StartObject, [Key(k)], e, rooms[..3], w, SourceSlots);
    assert [StartObject] + [Key(k)] + [e] == events[..3];
    RunSplit(s0, events[..3], [EndObject(1)], rooms, w, SourceSlots);
    assert events[..3] + [EndObject(1)] == events;
  }

  lemma DroppedObjectEvents(d: string)
    ensures Events(Obj([Member(d, Obj([]))]))
         == [StartObject, Key(d), StartObject, EndObject(0), EndObject(1)]
  {
    var ms := [Member(d, Obj([]))];
    assert ms[1..] == [];
    assert Events(Obj([])) == [StartObject, EndObject(0)];
    assert MembersEvents(ms) == [Key(d), StartObject, EndObject(0)];
  }

  /** The inner EndObject: the record's object context finds no table
      below the pending value. */
  lemma InnerEndObjectUndefined(L0: Lua, d: string, room: bool, w: nat)
    requires IsIntegerWidth(w) && !IsRequired(d)
    requires |L0.stack| == 0 || !L0.stack[|L0.stack| - 1].TableRef?
    ensures var s2 := KeyStep(HState(NewTable(L0), [Top], Object, false), d);
      Step(HState(NewTable(s2.lua), [Top, Object], Object, false), EndObject(0), room, w, IntendedSlots) == Undefined
  {
    var s2 := KeyStep(HState(NewTable(L0), [Top], Object, false), d);
    var s3 := HState(NewTable(s2.lua), [Top, Object], Object, false);
    StepCases(s3, EndObject(0), room, w, IntendedSlots);
    assert [Top, Object][1] == Object;
    assert s3.lua.stack == L0.stack + [TableRef(|L0.heap|), TableRef(|L0.heap| + 1)];
    assert !CanSubmit(Object, s3.lua, IntendedSlots);
  }

  /** StartObject and EndObject ignore the flag, so a dropped field whose
      value is an object still creates a table and submits it through the
      record's object context, where no key was pushed for it. The slot
      below the two tables is then the caller's top slot: unless the caller
      left a table reference there, the run is undefined even with the
      corrected slots. */
  lemma DroppedObjectFieldIsSubmitted(L0: Lua, d: string, rooms: seq<bool>, w: nat)
    requires IsIntegerWidth(w) && !IsRequired(d)
    requires |L0.stack| == 0 || !L0.stack[|L0.stack| - 1].TableRef?
    requires |rooms| == |Events(Obj([Member(d, Obj([]))]))| && AllRoom(rooms)
    ensures Run(HState(L0, [], Top, false), Events(Obj([Member(d, Obj([]))])), rooms, w, IntendedSlots) == Undefined
  {
    var slots := IntendedSlots;
    DroppedObjectEvents(d);
    var events := [StartObject, Key(d), StartObject, EndObject(0), EndObject(1)];
    var s0 := HState(L0, [], Top, false);
    var s1 := HState(NewTable(L0), [Top], Object, false);
    var s2 := KeyStep(s1, d);
    var s3 := HState(NewTable(s2.lua), [Top, Object], Object, false);
    assert [] + [Top] == [Top] && [Top] + [Object] == [Top, Object];
    StepCases(s0, StartObject, rooms[0], w, slots);
    StepCases(s1, Key(d), rooms[1], w, slots);
    StepCases(s2, StartObject, rooms[2], w, slots);
    InnerEndObjectUndefined(L0, d, rooms[3], w);
    RunThree(s1, s2, s3, Undefined, Key(d), [StartObject], EndObject(0), rooms[1..4], w, slots);
    assert rooms[1..4][1..2] == [rooms[2]];
    RunSplit(s0, [StartObject], [Key(d)] + [StartObject] + [EndObject(0)], rooms[..4], w, slots);
    assert rooms[..4][..1] == [rooms[0]] && rooms[..4][1..] == rooms[1..4];
    RunSingle(s0, StartObject, rooms[0], w, slots);
    assert [StartObject] + ([Key(d)] + [StartObject] + [EndObject(0)]) == events[..4];
    RunSplit(s0, events[..4], [EndObject(1)], rooms, w, slots);
    assert events[..4] + [EndObject(1)] == events;
  }
}
