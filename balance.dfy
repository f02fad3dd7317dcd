/**
 * Balance of the context stack (stack_ and context_ of ToLuaHandler).
 *
 * src/calibre.hpp keeps no depth counter: StartObject and EndObject always
 * push and pop, while StartArray and EndArray push and pop only when
 * required_field holds at the moment each is called, and every Key resets
 * that flag at every nesting level. This module states, for event streams
 * that come from a JSON document, the condition under which pushes and
 * pops still match, and proves that under it the handler ends with the
 * context stack it started with and never pops an empty stack_ nor fails
 * the element-count assert.
 *
 * The statement is about the control part of the handler state (stack_,
 * context_, required_field); ControlStep is shown to be exactly what the
 * full step does to that part.
 */
module Balance {
  import opened LuaApi
  import opened Fields
  import opened Context
  import opened Handler

  datatype Option<T> = None | Some(value: T)

  /** The part of the handler state that decides pushes and pops. */
  datatype Control = Control(saved: seq<Ctx>, ctx: Ctx, required: bool)

  function Ctl(s: HState): Control
  {
    Control(s.saved, s.ctx, s.required)
  }

  /** EndObject's tail, and EndArray's once its assert has passed. */
  function Pop(c: Control): Option<Control>
  {
    if c.saved == [] then None
    else Some(Control(c.saved[..|c.saved| - 1], Advance(c.saved[|c.saved| - 1], 1), c.required))
  }

  /** One callback on the control part, lua_checkstack succeeding; None
      when the callback pops an empty stack_ or fails its assert. */
  function ControlStep(c: Control, e: Event): Option<Control>
  {
    match e
    case StartObject => Some(Control(c.saved + [c.ctx], Object, c.required))
    case Key(key) => Some(c.(required := IsRequired(key)))
    case EndObject(_) => Pop(c)
    case StartArray =>
      if c.required then Some(Control(c.saved + [c.ctx], Array, true)) else Some(c)
    case EndArray(n) =>
      if !c.required then Some(c)
      else if n != c.ctx.index then None
      else Pop(c)
    case _ => Some(c.(ctx := Advance(c.ctx, if c.required then 1 else 0)))
  }

  /** The full step acts on the control part exactly as ControlStep does,
      and where ControlStep finds no continuation the full step is not safe
      either. */
  lemma StepRefinesControl(s: HState, e: Event, room: bool, w: nat, slots: Slots)
    requires Numbers.IsIntegerWidth(w)
    ensures Step(s, e, room, w, slots).Next? ==>
      ControlStep(Ctl(s), e) == Some(Ctl(Step(s, e, room, w, slots).state))
    ensures ControlStep(Ctl(s), e).None? ==> !Safe(Step(s, e, room, w, slots))
  {
  }

  function ControlRun(c: Control, events: seq<Event>): Option<Control>
    decreases |events|
  {
    if events == [] then Some(c)
    else
      match ControlStep(c, events[0])
      case None => None
      case Some(c1) => ControlRun(c1, events[1..])
  }

  function Then(o: Option<Control>, events: seq<Event>): Option<Control>
  {
    match o
    case None => None
    case Some(c) => ControlRun(c, events)
  }

  lemma {:induction false} ControlRunAppend(c: Control, a: seq<Event>, b: seq<Event>)
    ensures ControlRun(c, a + b) == Then(ControlRun(c, a), b)
    decreases |a|
  {
    if a == [] {
      assert a + b == b;
    } else {
      assert (a + b)[0] == a[0] && (a + b)[1..] == a[1..] + b;
      match ControlStep(c, a[0])
      case None =>
      case Some(c1) => ControlRunAppend(c1, a[1..], b);
    }
  }

  lemma ControlRunSingle(c: Control, e: Event)
    ensures ControlRun(c, [e]) == ControlStep(c, e)
  {
    assert [e][1..] == [];
  }

  /** A run of the full handler that completes has done to the control
      part exactly what ControlRun does; if ControlRun finds no
      continuation, no run of the handler completes. */
  lemma {:induction false} RunRefinesControl(s: HState, events: seq<Event>, rooms: seq<bool>, w: nat, slots: Slots)
    requires |rooms| == |events| && Numbers.IsIntegerWidth(w)
    ensures Run(s, events, rooms, w, slots).Next? ==>
      ControlRun(Ctl(s), events) == Some(Ctl(Run(s, events, rooms, w, slots).state))
    ensures ControlRun(Ctl(s), events).None? ==> !Run(s, events, rooms, w, slots).Next?
    decreases |events|
  {
    if events != [] {
      var n := |events| - 1;
      RunRefinesControl(s, events[..n], rooms[..n], w, slots);
      assert events == events[..n] + [events[n]];
      ControlRunAppend(Ctl(s), events[..n], [events[n]]);
      match Run(s, events[..n], rooms[..n], w, slots)
      case Next(t) =>
        StepRefinesControl(t, events[n], rooms[n], w, slots);
        ControlRunSingle(Ctl(t), events[n]);
      case _ =>
    }
  }

  /** A JSON document, as the tokenizer reports it. */
  datatype Json = Scalar(e: Event) | Obj(members: seq<Member>) | Arr(items: seq<Json>)
  datatype Member = Member(key: string, value: Json)

  /** The events a conforming SAX tokenizer emits for a document. */
  function Events(j: Json): seq<Event>
    decreases j, 1
  {
    match j
    case Scalar(e) => [e]
    case Obj(ms) => [StartObject] + MembersEvents(ms) + [EndObject(|ms|)]
    case Arr(items) => [StartArray] + ItemsEvents(items) + [EndArray(|items|)]
  }

  function MembersEvents(ms: seq<Member>): seq<Event>
    decreases ms, 0
  {
    if ms == [] then [] else [Key(ms[0].key)] + Events(ms[0].value) + MembersEvents(ms[1..])
  }

  function ItemsEvents(items: seq<Json>): seq<Event>
    decreases items, 0
  {
    if items == [] then [] else Events(items[0]) + ItemsEvents(items[1..])
  }

  /** required_field once the events of j have been handled, starting from f. */
  function FlagAfter(j: Json, f: bool): bool
    decreases j, 1
  {
    match j
    case Scalar(_) => f
    case Obj(ms) => FlagAfterMembers(ms, f)
    case Arr(items) => FlagAfterItems(items, f)
  }

  function FlagAfterMembers(ms: seq<Member>, f: bool): bool
    decreases ms, 0
  {
    if ms == [] then f
    else FlagAfterMembers(ms[1..], FlagAfter(ms[0].value, IsRequired(ms[0].key)))
  }

  function FlagAfterItems(items: seq<Json>, f: bool): bool
    decreases items, 0
  {
    if items == [] then f else FlagAfterItems(items[1..], FlagAfter(items[0], f))
  }

  /** How many submits the events of j make through the context that is
      current when j starts: a kept scalar one, an object always one, a kept
      array one, a skipped array whatever its elements submit. */
  function Count(j: Json, f: bool): nat
    decreases j, 1
  {
    match j
    case Scalar(_) => if f then 1 else 0
    case Obj(_) => 1
    case Arr(items) => if f then 1 else CountItems(items, f)
  }

  function CountItems(items: seq<Json>, f: bool): nat
    decreases items, 0
  {
    if items == [] then 0 else Count(items[0], f) + CountItems(items[1..], FlagAfter(items[0], f))
  }

  /** The condition for balance: every array ends with the flag it started
      with (so EndArray pops exactly when StartArray pushed), and a kept
      array's elements each submit once (so the assert on the element
      count holds). Object members are judged with the flag their own key
      set. */
  predicate Stable(j: Json, f: bool)
    decreases j, 1
  {
    match j
    case Scalar(e) => IsScalar(e)
    case Obj(ms) => StableMembers(ms)
    case Arr(items) =>
      && StableItems(items, f)
      && FlagAfterItems(items, f) == f
      && (f ==> CountItems(items, f) == |items|)
  }

  predicate StableMembers(ms: seq<Member>)
    decreases ms, 0
  {
    ms == [] || (Stable(ms[0].value, IsRequired(ms[0].key)) && StableMembers(ms[1..]))
  }

  predicate StableItems(items: seq<Json>, f: bool)
    decreases items, 0
  {
    items == [] || (Stable(items[0], f) && StableItems(items[1..], FlagAfter(items[0], f)))
  }

  /** Handling a stable value leaves stack_ as it was, advances the context
      by the value's submits and leaves the flag FlagAfter says. */
  lemma {:induction false} ValueRun(j: Json, c: Control)
    requires Stable(j, c.required)
    ensures ControlRun(c, Events(j))
         == Some(Control(c.saved, Advance(c.ctx, Count(j, c.required)), FlagAfter(j, c.required)))
    decreases j, 2
  {
    match j
    case Scalar(e) =>
      ControlRunSingle(c, e);
    case Obj(ms) =>
      ObjectRun(ms, c);
    case Arr(items) =>
      ArrayRun(items, c);
  }

  /** An object always pushes and pops one context and submits once. */
  lemma {:induction false} ObjectRun(ms: seq<Member>, c: Control)
    requires StableMembers(ms)
    ensures ControlRun(c, Events(Obj(ms)))
         == Some(Control(c.saved, Advance(c.ctx, 1), FlagAfterMembers(ms, c.required)))
    decreases ms, 1
  {
    var c1 := Control(c.saved + [c.ctx], Object, c.required);
    var c2 := c1.(required := FlagAfterMembers(ms, c.required));
    var body := MembersEvents(ms);
    var close := [EndObject(|ms|)];
    assert Events(Obj(ms)) == [StartObject] + (body + close);
    ControlRunAppend(c, [StartObject], body + close);
    ControlRunSingle(c, StartObject);
    ControlRunAppend(c1, body, close);
    MembersRun(ms, c1);
    ControlRunSingle(c2, EndObject(|ms|));
    assert c2.saved[..|c2.saved| - 1] == c.saved;
  }

  /** A kept array pushes and pops one context and submits once; a skipped
      array leaves the context to its elements. */
  lemma {:induction false} ArrayRun(items: seq<Json>, c: Control)
    requires Stable(Arr(items), c.required)
    ensures ControlRun(c, Events(Arr(items)))
         == Some(Control(c.saved, Advance(c.ctx, Count(Arr(items), c.required)), c.required))
    decreases items, 1
  {
    var f := c.required;
    var body := ItemsEvents(items);
    var close := [EndArray(|items|)];
    assert Events(Arr(items)) == [StartArray] + (body + close);
    ControlRunAppend(c, [StartArray], body + close);
    ControlRunSingle(c, StartArray);
    if f {
      var c1 := Control(c.saved + [c.ctx], Array, true);
      ControlRunAppend(c1, body, close);
      ItemsRun(items, c1);
      var c2 := Control(c1.saved, Advance(c1.ctx, CountItems(items, true)), true);
      ControlRunSingle(c2, EndArray(|items|));
      assert c2.saved[..|c2.saved| - 1] == c.saved;
    } else {
      ControlRunAppend(c, body, close);
      ItemsRun(items, c);
      var c2 := Control(c.saved, Advance(c.ctx, CountItems(items, false)), false);
      ControlRunSingle(c2, EndArray(|items|));
    }
  }

  /** The members of an object, handled in its object context, leave stack_
      and the context as they were. */
  lemma {:induction false} MembersRun(ms: seq<Member>, c: Control)
    requires c.ctx.fn == ObjectFn && StableMembers(ms)
    ensures ControlRun(c, MembersEvents(ms)) == Some(c.(required := FlagAfterMembers(ms, c.required)))
    decreases ms, 0
  {
    if ms != [] {
      var c1 := c.(required := IsRequired(ms[0].key));
      ValueRun(ms[0].value, c1);
      var c2 := Control(c.saved, c.ctx, FlagAfter(ms[0].value, c1.required));
      MembersRun(ms[1..], c2);
      assert MembersEvents(ms) == [Key(ms[0].key)] + (Events(ms[0].value) + MembersEvents(ms[1..]));
      ControlRunAppend(c, [Key(ms[0].key)], Events(ms[0].value) + MembersEvents(ms[1..]));
      ControlRunAppend(c1, Events(ms[0].value), MembersEvents(ms[1..]));
    }
  }

  /** The elements of an array, handled one after another. */
  lemma {:induction false} ItemsRun(items: seq<Json>, c: Control)
    requires StableItems(items, c.required)
    ensures ControlRun(c, ItemsEvents(items))
         == Some(Control(c.saved, Advance(c.ctx, CountItems(items, c.required)), FlagAfterItems(items, c.required)))
    decreases items, 0
  {
    if items != [] {
      ValueRun(items[0], c);
      var c1 := Control(c.saved, Advance(c.ctx, Count(items[0], c.required)), FlagAfter(items[0], c.required));
      ItemsRun(items[1..], c1);
      ControlRunAppend(c, Events(items[0]), ItemsEvents(items[1..]));
    }
  }

  /** A stable record handled from a fresh handler ends with stack_ empty
      and the top context current again, without popping an empty stack_
      or failing the assert. */
  lemma RecordBalanced(j: Json)
    requires Stable(j, false)
    ensures ControlRun(Control([], Top, false), Events(j)) == Some(Control([], Top, FlagAfter(j, false)))
  {
    ValueRun(j, Control([], Top, false));
  }

  /** The same for the full handler: a completed run over a stable record
      ends with stack_ empty and context_ the top context. */
  lemma CompletedRunIsBalanced(j: Json, L0: Lua, rooms: seq<bool>, w: nat, slots: Slots)
    requires Stable(j, false) && |rooms| == |Events(j)| && Numbers.IsIntegerWidth(w)
    ensures var o := Run(HState(L0, [], Top, false), Events(j), rooms, w, slots);
      o.Next? ==> o.state.saved == [] && o.state.ctx == Top
  {
    RecordBalanced(j);
    RunRefinesControl(HState(L0, [], Top, false), Events(j), rooms, w, slots);
  }

  /** The three opening events of Nested, stepped one at a time. */
  lemma HeadRun(c: Control, outer: string)
    ensures ControlRun(c, [StartObject, Key(outer), StartArray])
         == ControlStep(Control(c.saved + [c.ctx], Object, IsRequired(outer)), StartArray)
  {
    var c1 := Control(c.saved + [c.ctx], Object, c.required);
    var c2 := c1.(required := IsRequired(outer));
    assert [StartObject, Key(outer), StartArray] == [StartObject] + ([Key(outer)] + [StartArray]);
    ControlRunAppend(c, [StartObject], [Key(outer)] + [StartArray]);
    ControlRunSingle(c, StartObject);
    ControlRunAppend(c1, [Key(outer)], [StartArray]);
    ControlRunSingle(c1, Key(outer));
    ControlRunSingle(c2, StartArray);
  }

  lemma {:induction false} RunCons(c: Control, e: Event, rest: seq<Event>)
    ensures ControlRun(c, [e] + rest) == Then(ControlStep(c, e), rest)
  {
    assert ([e] + rest)[0] == e && ([e] + rest)[1..] == rest;
  }

  /** {outer: [{inner: v}]}: one kept or skipped array holding one object. */
  function Nested(outer: string, inner: string, v: Event): Json
  {
    Obj([Member(outer, Arr([Obj([Member(inner, Scalar(v))])]))])
  }

  lemma NestedEvents(outer: string, inner: string, v: Event)
    ensures Events(Nested(outer, inner, v))
         == [StartObject, Key(outer), StartArray] + Events(Obj([Member(inner, Scalar(v))]))
            + [EndArray(1), EndObject(1)]
  {
    var o := Obj([Member(inner, Scalar(v))]);
    var arr := Arr([o]);
    assert [o][1..] == [];
    assert ItemsEvents([o]) == Events(o);
    assert [Member(outer, arr)][1..] == [];
    assert MembersEvents([Member(outer, arr)]) == [Key(outer)] + Events(arr);
  }

  /** The inner object is stable whatever its key, and leaves the flag as
      its key set it. */
  lemma InnerObject(inner: string, v: Event, c: Control)
    requires IsScalar(v)
    ensures ControlRun(c, Events(Obj([Member(inner, Scalar(v))])))
         == Some(Control(c.saved, Advance(c.ctx, 1), IsRequired(inner)))
  {
    var ms := [Member(inner, Scalar(v))];
    assert ms[0].value == Scalar(v) && ms[1..] == [];
    assert Stable(ms[0].value, IsRequired(inner));
    assert StableMembers(ms[1..]);
    assert StableMembers(ms);
    assert FlagAfter(ms[0].value, IsRequired(inner)) == IsRequired(inner);
    assert FlagAfterMembers(ms, c.required) == FlagAfterMembers([], IsRequired(inner));
    ObjectRun(ms, c);
  }

  /** When the outer key and the inner key disagree on the allow-list, the
      flag leaves the array different from how it entered, so Nested is not
      stable. */
  lemma NestedUnstable(outer: string, inner: string, v: Event)
    requires IsRequired(outer) != IsRequired(inner)
    ensures !Stable(Nested(outer, inner, v), false)
  {
    var f := IsRequired(outer);
    var ms := [Member(inner, Scalar(v))];
    var o := Obj(ms);
    assert ms[0].value == Scalar(v) && ms[1..] == [] && [o][1..] == [];
    assert FlagAfterMembers(ms, f) == FlagAfterMembers([], !f);
    assert FlagAfter(o, f) == !f;
    assert FlagAfterItems([o], f) == FlagAfterItems([], !f);
    assert !Stable(Arr([o]), f);
    var top := [Member(outer, Arr([o]))];
    assert top[0].value == Arr([o]) && Nested(outer, inner, v) == Obj(top);
    assert !StableMembers(top);
  }

  /** Without the condition balance fails. In {"tags": [{"a": 1}]} the key
      "a" clears the flag inside the kept array, so EndArray does not pop:
      the record's context is still open and one context is still saved
      when the record ends. */
  lemma FlagClearedInsideArrayLeavesContextOpen(kept: string, dropped: string, v: Event)
    requires IsRequired(kept) && !IsRequired(dropped) && IsScalar(v)
    ensures !Stable(Nested(kept, dropped, v), false)
    ensures ControlRun(Control([], Top, false), Events(Nested(kept, dropped, v)))
         == Some(Control([Top], Object, false))
  {
    NestedUnstable(kept, dropped, v);
    var o := Obj([Member(dropped, Scalar(v))]);
    var c0 := Control([], Top, false);
    var c3 := Control([Top, Object], Array, true);
    var c6 := Control([Top, Object], Array.(index := 1), false);
    var head := [StartObject, Key(kept), StartArray];
    var tail := [EndArray(1), EndObject(1)];
    assert [] + [Top] == [Top] && [Top] + [Object] == [Top, Object] && [Top, Object][..1] == [Top];
    HeadRun(c0, kept);
    assert ControlRun(c0, head) == Some(c3);
    InnerObject(dropped, v, c3);
    assert ControlRun(c3, Events(o)) == Some(c6);
    RunCons(c6, EndArray(1), [EndObject(1)]);
    ControlRunSingle(c6, EndObject(1));
    assert ControlRun(c6, tail) == Some(Control([Top], Object, false));
    NestedEvents(kept, dropped, v);
    ControlRunAppend(c0, head + Events(o), tail);
    ControlRunAppend(c0, head, Events(o));
  }

  /** In {"x": [{"tags": 1}]} the array is skipped, but the kept key "tags"
      inside it sets the flag, so EndArray runs its assert against the
      record's object context and fails. */
  lemma FlagSetInsideSkippedArrayFailsAssert(dropped: string, kept: string, v: Event)
    requires !IsRequired(dropped) && IsRequired(kept) && IsScalar(v)
    ensures !Stable(Nested(dropped, kept, v), false)
    ensures ControlRun(Control([], Top, false), Events(Nested(dropped, kept, v))) == None
  {
    NestedUnstable(dropped, kept, v);
    var o := Obj([Member(kept, Scalar(v))]);
    var c0 := Control([], Top, false);
    var c1 := Control([Top], Object, false);
    var c6 := Control([Top], Object, true);
    var head := [StartObject, Key(dropped), StartArray];
    var tail := [EndArray(1), EndObject(1)];
    assert [] + [Top] == [Top];
    HeadRun(c0, dropped);
    assert ControlRun(c0, head) == Some(c1);
    InnerObject(kept, v, c1);
    assert ControlRun(c1, Events(o)) == Some(c6);
    RunCons(c6, EndArray(1), [EndObject(1)]);
    assert ControlRun(c6, tail) == None;
    NestedEvents(dropped, kept, v);
    ControlRunAppend(c0, head + Events(o), tail);
    ControlRunAppend(c0, head, Events(o));
  }
}
