/**
 * calibre::ToLuaHandler (src/calibre.hpp): the SAX callbacks, first as
 * pure steps on a handler state (the specification), then as a class whose
 * methods update the fields in place and are proved to follow the steps.
 *
 * lua_checkstack is opaque: its answer is the `room` argument of the two
 * callbacks that call it. The Lua slots used by the submit functions are
 * the `slots` parameter (see module Context).
 */
module Handler {
  import opened LuaApi
  import opened Numbers
  import opened Fields
  import opened Context

  /** The calls the RapidJSON reader makes on its handler, one per parse
      event, with their arguments. RawNumber carries the text and the value
      that the global tonumber returned for it. */
  datatype Event =
    | Null
    | Bool(b: bool)
    | Int(i: int32)
    | Uint(u: uint32)
    | Int64(l: int64)
    | Uint64(ul: uint64)
    | Double
    | RawNumber(text: string, converted: Value)
    | String(s: string)
    | StartObject
    | Key(key: string)
    | EndObject(memberCount: nat)
    | StartArray
    | EndArray(elementCount: nat)

  predicate IsScalar(e: Event)
  {
    !(e.StartObject? || e.Key? || e.EndObject? || e.StartArray? || e.EndArray?)
  }

  /** The value a scalar callback pushes when the current field is kept. */
  function ScalarValue(e: Event, w: nat): Value
    requires IsScalar(e) && IsIntegerWidth(w)
  {
    match e
    case Null => JsonNull
    case Bool(b) => Boolean(b)
    case Int(i) => Integer(i)
    case Uint(u) => UintValue(w, u)
    case Int64(l) => Int64Value(w, l)
    case Uint64(ul) => Uint64Value(w, ul)
    case Double => Float
    case RawNumber(_, converted) => converted
    case String(s) => Str(s)
  }

  /** The handler's state: the Lua state it drives, stack_, context_ and
      required_field. */
  datatype HState = HState(lua: Lua, saved: seq<Ctx>, ctx: Ctx, required: bool)

  /** A callback either returns true with a new state, returns false (the
      reader then stops), fails its assert, or reaches behaviour C++ or the
      Lua C API leave undefined (back() of an empty vector, a raw set whose
      slot holds no table). */
  datatype Outcome = Next(state: HState) | Rejected | AssertionFailed | Undefined

  predicate Safe(o: Outcome)
  {
    o.Next? || o.Rejected?
  }

  /** Null, Bool, Int, Uint, Int64, Uint64, Double, RawNumber, String: do
      nothing unless the current field is kept; otherwise push one value and
      submit it once through the current context. */
  function ScalarStep(s: HState, v: Value, slots: Slots): (o: Outcome)
    ensures !s.required ==> o == Next(s)
    ensures s.required ==> (o.Next? <==> CanSubmit(s.ctx, Push(s.lua, v), slots)) && Safe(o) == o.Next?
    ensures o.Next? ==>
      && o.state.saved == s.saved && o.state.required == s.required
      && o.state.ctx == Advance(s.ctx, if s.required then 1 else 0)
    ensures s.required && o.Next? ==> o.state.lua == Submit(s.ctx, Push(s.lua, v), slots).1
  {
    if !s.required then Next(s)
    else
      var L := Push(s.lua, v);
      if !CanSubmit(s.ctx, L, slots) then Undefined
      else
        var r := Submit(s.ctx, L, slots);
        Next(s.(lua := r.1, ctx := r.0))
  }

  /** Key: the flag becomes exact membership of the key in the allow-list,
      and the key is pushed exactly when it is a member. */
  function KeyStep(s: HState, key: string): (t: HState)
    ensures t.required <==> key in RequiredFields
    ensures t.lua.heap == s.lua.heap
    ensures t.lua.stack == if key in RequiredFields then s.lua.stack + [Str(key)] else s.lua.stack
    ensures t.saved == s.saved && t.ctx == s.ctx
  {
    if IsRequired(key) then s.(lua := Push(s.lua, Str(key)), required := true)
    else s.(required := false)
  }

  /** StartObject ignores the flag: unless lua_checkstack fails it pushes a
      fresh empty table, saves the context and installs a new object
      context. */
  function StartObjectStep(s: HState, room: bool): (o: Outcome)
    ensures o.Next? <==> room
    ensures !room ==> o == Rejected
    ensures room ==>
      && o.state.saved == s.saved + [s.ctx]
      && o.state.ctx == Object && o.state.ctx.index == 0
      && o.state.required == s.required
      && o.state.lua.stack == s.lua.stack + [TableRef(|s.lua.heap|)]
      && o.state.lua.heap == s.lua.heap + [map[]]
  {
    if !room then Rejected
    else Next(HState(NewTable(s.lua), s.saved + [s.ctx], Object, s.required))
  }

  /** StartArray: a no-op unless the field is kept; otherwise as
      StartObject, with an array context. */
  function StartArrayStep(s: HState, room: bool): (o: Outcome)
    ensures !s.required ==> o == Next(s)
    ensures s.required ==> (o.Next? <==> room) && (!room ==> o == Rejected)
    ensures s.required && room ==>
      && o.state.saved == s.saved + [s.ctx]
      && o.state.ctx == Array && o.state.ctx.index == 0
      && o.state.required
      && o.state.lua.stack == s.lua.stack + [TableRef(|s.lua.heap|)]
      && o.state.lua.heap == s.lua.heap + [map[]]
  {
    if !s.required then Next(s)
    else if !room then Rejected
    else Next(HState(NewTable(s.lua), s.saved + [s.ctx], Array, true))
  }

  /** The tail shared by EndObject and EndArray: restore the last saved
      context, drop it from stack_, and submit the finished container
      through it. */
  function PopAndSubmit(s: HState, slots: Slots): (o: Outcome)
    ensures o.Next? || o == Undefined
    ensures o.Next? <==> |s.saved| > 0 && CanSubmit(s.saved[|s.saved| - 1], s.lua, slots)
    ensures o.Next? ==>
      && o.state.lua == Submit(s.saved[|s.saved| - 1], s.lua, slots).1
      && o.state.saved == s.saved[..|s.saved| - 1]
      && o.state.ctx == Advance(s.saved[|s.saved| - 1], 1)
      && o.state.required == s.required
  {
    if |s.saved| == 0 then Undefined
    else
      var c := s.saved[|s.saved| - 1];
      if !CanSubmit(c, s.lua, slots) then Undefined
      else
        var r := Submit(c, s.lua, slots);
        Next(HState(r.1, s.saved[..|s.saved| - 1], r.0, s.required))
  }

  /** EndObject is not gated by the flag: whatever required_field says, it
      pops stack_, submits the finished table through the restored context
      and advances it, and the flag comes out as it went in. The call is
      undefined when stack_ is empty (back() on an empty vector) or when the
      submit has no table to store into. */
  function EndObjectStep(s: HState, slots: Slots): (o: Outcome)
    ensures |s.saved| == 0 ==> o == Undefined
    ensures |s.saved| > 0 ==>
      var last := s.saved[|s.saved| - 1];
      && (o.Next? <==> CanSubmit(last, s.lua, slots))
      && (!CanSubmit(last, s.lua, slots) ==> o == Undefined)
      && (CanSubmit(last, s.lua, slots) ==>
            o.state == HState(Submit(last, s.lua, slots).1, s.saved[..|s.saved| - 1], Advance(last, 1), s.required))
  {
    PopAndSubmit(s, slots)
  }

  /** EndArray: a no-op unless the flag holds NOW; then it asserts that the
      reported element count equals index_ before popping. */
  function EndArrayStep(s: HState, elementCount: nat, slots: Slots): (o: Outcome)
    ensures !s.required ==> o == Next(s)
    ensures s.required && elementCount != s.ctx.index ==> o == AssertionFailed
    ensures s.required && elementCount == s.ctx.index ==> o == PopAndSubmit(s, slots)
  {
    if !s.required then Next(s)
    else if elementCount != s.ctx.index then AssertionFailed
    else PopAndSubmit(s, slots)
  }

  /** One callback. */
  function Step(s: HState, e: Event, room: bool, w: nat, slots: Slots): Outcome
    requires IsIntegerWidth(w)
  {
    match e
    case StartObject => StartObjectStep(s, room)
    case Key(key) => Next(KeyStep(s, key))
    case EndObject(_) => EndObjectStep(s, slots)
    case StartArray => StartArrayStep(s, room)
    case EndArray(n) => EndArrayStep(s, n, slots)
    case _ => ScalarStep(s, ScalarValue(e, w), slots)
  }

  /** The callbacks the reader makes, in order; rooms[i] is what
      lua_checkstack answers during events[i]. The reader stops at the
      first callback that does not return true. */
  function Run(s: HState, events: seq<Event>, rooms: seq<bool>, w: nat, slots: Slots): Outcome
    requires |rooms| == |events| && IsIntegerWidth(w)
    decreases |events|
  {
    if events == [] then Next(s)
    else
      var n := |events| - 1;
      match Run(s, events[..n], rooms[..n], w, slots)
      case Next(t) => Step(t, events[n], rooms[n], w, slots)
      case o => o
  }

  /** Once a prefix of the run stops (or goes wrong), the whole run ends
      the same way. */
  lemma {:induction false} RunPrefix(s: HState, events: seq<Event>, rooms: seq<bool>, w: nat, slots: Slots, i: nat)
    requires |rooms| == |events| && IsIntegerWidth(w) && i <= |events|
    ensures !Run(s, events[..i], rooms[..i], w, slots).Next? ==>
      Run(s, events, rooms, w, slots) == Run(s, events[..i], rooms[..i], w, slots)
    decreases |events| - i
  {
    if i < |events| {
      var n := |events| - 1;
      assert events[..n][..i] == events[..i] && rooms[..n][..i] == rooms[..i];
      RunPrefix(s, events[..n], rooms[..n], w, slots, i);
    } else {
      assert events[..i] == events && rooms[..i] == rooms;
    }
  }

  class ToLuaHandler {
    var L: Lua
    var stack: seq<Ctx>
    var context: Ctx
    var requiredField: bool
    const width: nat
    const slots: Slots

    function State(): HState
      reads this
    {
      HState(L, stack, context, requiredField)
    }

    /** A handler starts with no saved contexts, a top context and the flag
        cleared. */
    constructor (L0: Lua, width: nat, slots: Slots)
      ensures State() == HState(L0, [], Top, false)
      ensures this.width == width && this.slots == slots
    {
      L := L0;
      stack := [];
      context := Top;
      requiredField := false;
      this.width := width;
      this.slots := slots;
    }

    /** context_.submit(L) */
    method SubmitCurrent()
      requires CanSubmit(context, L, slots)
      modifies this
      ensures (context, L) == Submit(old(context), old(L), slots)
      ensures stack == old(stack) && requiredField == old(requiredField)
    {
      var r := Submit(context, L, slots);
      context := r.0;
      L := r.1;
    }

    /** The body every scalar callback shares. */
    method PushScalar(v: Value) returns (ok: bool)
      requires requiredField ==> CanSubmit(context, Push(L, v), slots)
      modifies this
      ensures ok && Next(State()) == ScalarStep(old(State()), v, slots)
    {
      if !requiredField {
        return true;
      }
      L := Push(L, v);
      SubmitCurrent();
      return true;
    }

    method Null() returns (ok: bool)
      requires requiredField ==> CanSubmit(context, Push(L, JsonNull), slots)
      modifies this
      ensures ok && Next(State()) == ScalarStep(old(State()), JsonNull, slots)
    {
      ok := PushScalar(JsonNull);
    }

    method Bool(b: bool) returns (ok: bool)
      requires requiredField ==> CanSubmit(context, Push(L, Boolean(b)), slots)
      modifies this
      ensures ok && Next(State()) == ScalarStep(old(State()), Boolean(b), slots)
    {
      ok := PushScalar(Boolean(b));
    }

    method Int(i: int32) returns (ok: bool)
      requires requiredField ==> CanSubmit(context, Push(L, Integer(i)), slots)
      modifies this
      ensures ok && Next(State()) == ScalarStep(old(State()), Integer(i), slots)
    {
      ok := PushScalar(Integer(i));
    }

    method Uint(u: uint32) returns (ok: bool)
      requires IsIntegerWidth(width)
      requires requiredField ==> CanSubmit(context, Push(L, UintValue(width, u)), slots)
      modifies this
      ensures ok && Next(State()) == ScalarStep(old(State()), UintValue(width, u), slots)
    {
      ok := PushScalar(UintValue(width, u));
    }

    method Int64(l: int64) returns (ok: bool)
      requires IsIntegerWidth(width)
      requires requiredField ==> CanSubmit(context, Push(L, Int64Value(width, l)), slots)
      modifies this
      ensures ok && Next(State()) == ScalarStep(old(State()), Int64Value(width, l), slots)
    {
      ok := PushScalar(Int64Value(width, l));
    }

    method Uint64(ul: uint64) returns (ok: bool)
      requires IsIntegerWidth(width)
      requires requiredField ==> CanSubmit(context, Push(L, Uint64Value(width, ul)), slots)
      modifies this
      ensures ok && Next(State()) == ScalarStep(old(State()), Uint64Value(width, ul), slots)
    {
      ok := PushScalar(Uint64Value(width, ul));
    }

    method Double() returns (ok: bool)
      requires requiredField ==> CanSubmit(context, Push(L, Float), slots)
      modifies this
      ensures ok && Next(State()) == ScalarStep(old(State()), Float, slots)
    {
      ok := PushScalar(Float);
    }

    /** `converted` is what the global tonumber returned for the text. */
    method RawNumber(text: string, converted: Value) returns (ok: bool)
      requires requiredField ==> CanSubmit(context, Push(L, converted), slots)
      modifies this
      ensures ok && Next(State()) == ScalarStep(old(State()), converted, slots)
    {
      ok := PushScalar(converted);
    }

    method String(s: string) returns (ok: bool)
      requires requiredField ==> CanSubmit(context, Push(L, Str(s)), slots)
      modifies this
      ensures ok && Next(State()) == ScalarStep(old(State()), Str(s), slots)
    {
      ok := PushScalar(Str(s));
    }

    method StartObject(room: bool) returns (ok: bool)
      modifies this
      ensures (if ok then Next(State()) else Rejected) == StartObjectStep(old(State()), room)
      ensures !ok ==> State() == old(State())
    {
      if !room {
        return false;
      }
      L := NewTable(L);
      stack := stack + [context];
      context := Object;
      return true;
    }

    method Key(key: string) returns (ok: bool)
      modifies this
      ensures ok && State() == KeyStep(old(State()), key)
    {
      if IsRequired(key) {
        L := Push(L, Str(key));
        requiredField := true;
      } else {
        requiredField := false;
      }
      return true;
    }

    method EndObject(memberCount: nat) returns (ok: bool)
      requires |stack| > 0 && CanSubmit(stack[|stack| - 1], L, slots)
      modifies this
      ensures ok && Next(State()) == EndObjectStep(old(State()), slots)
    {
      context := stack[|stack| - 1];
      stack := stack[..|stack| - 1];
      SubmitCurrent();
      return true;
    }

    method StartArray(room: bool) returns (ok: bool)
      modifies this
      ensures (if ok then Next(State()) else Rejected) == StartArrayStep(old(State()), room)
      ensures !ok ==> State() == old(State())
    {
      if !requiredField {
        return true;
      }
      if !room {
        return false;
      }
      L := NewTable(L);
      stack := stack + [context];
      context := Array;
      return true;
    }

    /** The assert on the element count is a demand on the caller. */
    method EndArray(elementCount: nat) returns (ok: bool)
      requires requiredField ==>
        elementCount == context.index && |stack| > 0 && CanSubmit(stack[|stack| - 1], L, slots)
      modifies this
      ensures ok && Next(State()) == EndArrayStep(old(State()), elementCount, slots)
    {
      if !requiredField {
        return true;
      }
      context := stack[|stack| - 1];
      stack := stack[..|stack| - 1];
      SubmitCurrent();
      return true;
    }

    /** The reader's call for one event. */
    method Handle(e: Event, room: bool) returns (ok: bool)
      requires IsIntegerWidth(width)
      requires Safe(Step(State(), e, room, width, slots))
      modifies this
      ensures Step(old(State()), e, room, width, slots) == if ok then Next(State()) else Rejected
      ensures !ok ==> State() == old(State())
    {
      match e
      case Null => ok := Null();
      case Bool(b) => ok := Bool(b);
      case Int(i) => ok := Int(i);
      case Uint(u) => ok := Uint(u);
      case Int64(l) => ok := Int64(l);
      case Uint64(ul) => ok := Uint64(ul);
      case Double => ok := Double();
      case RawNumber(text, converted) => ok := RawNumber(text, converted);
      case String(s) => ok := String(s);
      case StartObject => ok := StartObject(room);
      case Key(key) => ok := Key(key);
      case EndObject(n) => ok := EndObject(n);
      case StartArray => ok := StartArray(room);
      case EndArray(n) => ok := EndArray(n);
    }

    /** The reader driving the handler through a whole event sequence; it
        stops at the first callback that returns false. */
    method Feed(events: seq<Event>, rooms: seq<bool>) returns (ok: bool)
      requires |rooms| == |events| && IsIntegerWidth(width)
      requires Safe(Run(State(), events, rooms, width, slots))
      modifies this
      ensures Run(old(State()), events, rooms, width, slots) == if ok then Next(State()) else Rejected
    {
      ghost var s0 := State();
      var i := 0;
      while i < |events|
        invariant 0 <= i <= |events|
        invariant Run(s0, events[..i], rooms[..i], width, slots) == Next(State())
      {
        assert events[..i + 1][..i] == events[..i] && rooms[..i + 1][..i] == rooms[..i];
        RunPrefix(s0, events, rooms, width, slots, i + 1);
        ok := Handle(events[i], rooms[i]);
        if !ok {
          return;
        }
        i := i + 1;
      }
      assert events[..i] == events && rooms[..i] == rooms;
      ok := true;
    }
  }
}
