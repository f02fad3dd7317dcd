/**
 * pushDecoded (src/calibre.hpp): run the reader over a document with a
 * fresh ToLuaHandler and leave either the decoded value (one result) or
 * nil and an error message (two results) on the Lua stack.
 *
 * The reader itself is not modelled: the events it emits, what
 * lua_checkstack answers during each of them, and its final verdict are
 * parameters. The message text for an error code (GetParseError_En) is
 * the `description` carried by the verdict.
 */
module Decode {
  import opened LuaApi
  import opened Numbers
  import opened Context
  import opened Handler

  /** The reader's verdict: success, or an error code's description and
      the byte offset at which parsing stopped. */
  datatype ParseResult = Ok | Error(description: string, offset: nat)

  predicate IsDigit(c: char)
  {
    '0' <= c <= '9'
  }

  function DigitChar(d: nat): (c: char)
    requires d < 10
    ensures IsDigit(c) && c as int - '0' as int == d
  {
    ('0' as int + d) as char
  }

  /** The decimal text %d produces for a non-negative number: no sign, no
      leading zeros. */
  function Decimal(n: nat): (s: string)
    ensures |s| >= 1 && forall i :: 0 <= i < |s| ==> IsDigit(s[i])
    ensures (s[0] == '0') == (n == 0)
  {
    if n < 10 then [DigitChar(n)] else Decimal(n / 10) + [DigitChar(n % 10)]
  }

  /** Reading decimal digits back as a number. */
  function ParseDecimal(s: string): nat
    requires forall i :: 0 <= i < |s| ==> IsDigit(s[i])
    decreases |s|
  {
    if s == [] then 0
    else
      assert IsDigit(s[|s| - 1]);
      10 * ParseDecimal(s[..|s| - 1]) + (s[|s| - 1] as int - '0' as int)
  }

  lemma {:induction false} DecimalRoundTrip(n: nat)
    ensures ParseDecimal(Decimal(n)) == n
  {
    var s := Decimal(n);
    if n < 10 {
      assert s[..|s| - 1] == [];
    } else {
      DecimalRoundTrip(n / 10);
      assert s[..|s| - 1] == Decimal(n / 10);
    }
  }

  /** The "%s (%d)" message pushed on failure. */
  function Message(description: string, offset: nat): string
  {
    description + " (" + Decimal(offset) + ")"
  }

  /** Where the parts of a message sit: "(" just before the digits, and
      the digits just before the closing ")". */
  lemma MessageLayout(d: string, o: nat)
    ensures var m := Message(d, o); var s := Decimal(o);
      && |m| == |d| + 3 + |s|
      && m[|d| + 1] == '('
      && m[..|d|] == d
      && m[|d| + 2..|m| - 1] == s
  {
  }

  /** The message determines both the description and the offset: the
      digits between the last "(" and the closing ")" are the offset, and
      everything before " (" is the description, whatever it contains. */
  lemma MessageDetermines(d1: string, o1: nat, d2: string, o2: nat)
    requires Message(d1, o1) == Message(d2, o2)
    ensures d1 == d2 && o1 == o2
  {
    var m := Message(d1, o1);
    var s1 := Decimal(o1);
    var s2 := Decimal(o2);
    MessageLayout(d1, o1);
    MessageLayout(d2, o2);
    if |s1| != |s2| {
      assert false;
    } else {
      assert d1 == m[..|d1|] == d2;
      assert s1 == m[|d1| + 2..|m| - 1] == s2;
      DecimalRoundTrip(o1);
      DecimalRoundTrip(o2);
    }
  }

  /** The handler run pushDecoded performs: a fresh handler over the Lua
      state as given. `slots` chooses between the stack slots the submit
      functions pass as written (SourceSlots) and the slots the containers
      actually sit at (IntendedSlots). */
  function Decoded(L0: Lua, events: seq<Event>, rooms: seq<bool>, width: nat, slots: Slots): Outcome
    requires |rooms| == |events| && IsIntegerWidth(width)
  {
    Run(HState(L0, [], Top, false), events, rooms, width, slots)
  }

  /** pushDecoded. The reader reports an error whenever a callback returns
      false, so a rejected run always comes with an Error verdict. On
      success one result is left: the Lua state the handler built. On
      failure the stack is cut back to where it was and nil and the message
      are pushed: two results. */
  method PushDecoded(L0: Lua, events: seq<Event>, rooms: seq<bool>, width: nat, slots: Slots, verdict: ParseResult)
    returns (results: nat, L: Lua)
    requires |rooms| == |events| && IsIntegerWidth(width)
    requires Safe(Decoded(L0, events, rooms, width, slots))
    requires Decoded(L0, events, rooms, width, slots).Rejected? ==> verdict.Error?
    ensures verdict.Ok? ==>
      results == 1 && Decoded(L0, events, rooms, width, slots).Next? && Decoded(L0, events, rooms, width, slots).state.lua == L
    ensures verdict.Error? ==>
      && results == 2
      && |L.stack| == |L0.stack| + 2
      && L.stack[|L0.stack|] == Nil
      && L.stack[|L0.stack| + 1] == Str(Message(verdict.description, verdict.offset))
  {
    var top := |L0.stack|;
    var handler := new ToLuaHandler(L0, width, slots);
    var ok := handler.Feed(events, rooms);
    if verdict.Error? {
      L := SetTop(handler.L, top);
      L := Push(L, Nil);
      L := Push(L, Str(Message(verdict.description, verdict.offset)));
      return 2, L;
    }
    L := handler.L;
    return 1, L;
  }
}
