/**
 * How the integer callbacks choose between a Lua integer and a Lua float
 * (src/calibre.hpp, Uint, Int64 and Uint64). The width of lua_Integer is a
 * parameter: it is fixed by the Lua build, not by the decoder.
 */
module Numbers {
  import opened LuaApi

  type int32 = x: int | -0x8000_0000 <= x < 0x8000_0000
  type uint32 = x: int | 0 <= x < 0x1_0000_0000
  type int64 = x: int | -0x8000_0000_0000_0000 <= x < 0x8000_0000_0000_0000
  type uint64 = x: int | 0 <= x < 0x1_0000_0000_0000_0000

  function Pow2(n: nat): (r: nat)
    ensures r >= 1
  {
    if n == 0 then 1 else 2 * Pow2(n - 1)
  }

  /** A possible bit width of lua_Integer: a whole number of bytes, and at
      least as wide as a C int (the Int callback pushes an int unchanged). */
  predicate IsIntegerWidth(w: nat)
  {
    w >= 32 && w % 8 == 0
  }

  /** std::numeric_limits<lua_Integer>::max() and min() for a two's
      complement integer of w bits. */
  function MaxInteger(w: nat): int
    requires IsIntegerWidth(w)
  {
    Pow2(w - 1) - 1
  }

  function MinInteger(w: nat): int
    requires IsIntegerWidth(w)
  {
    -(Pow2(w - 1) as int)
  }

  /** x is representable as a lua_Integer of w bits. */
  predicate Fits(w: nat, x: int)
    requires IsIntegerWidth(w)
  {
    MinInteger(w) <= x <= MaxInteger(w)
  }

  /** The value Uint(u) pushes. The size test compares bytes, which for
      whole-byte widths is the same as comparing bits; the static_cast of
      the maximum to unsigned is reduction modulo 2^32. */
  function UintValue(w: nat, u: uint32): Value
    requires IsIntegerWidth(w)
  {
    if w > 32 || u <= MaxInteger(w) % Pow2(32) then Integer(u) else Float
  }

  /** The value Int64(i) pushes; the comparisons are done in int64_t, to
      which lua_Integer's limits convert without change. */
  function Int64Value(w: nat, i: int64): Value
    requires IsIntegerWidth(w)
  {
    if w >= 64 || (i <= MaxInteger(w) && i >= MinInteger(w)) then Integer(i) else Float
  }

  /** The value Uint64(u) pushes; the cast of the maximum to uint64_t is
      reduction modulo 2^64. */
  function Uint64Value(w: nat, u: uint64): Value
    requires IsIntegerWidth(w)
  {
    if w > 64 || u <= MaxInteger(w) % Pow2(64) then Integer(u) else Float
  }

  lemma {:induction false} Pow2Monotone(a: nat, b: nat)
    requires a <= b
    ensures Pow2(a) <= Pow2(b)
  {
    if a < b {
      Pow2Monotone(a, b - 1);
    }
  }

  lemma {:induction false} Pow2Add(a: nat, b: nat)
    ensures Pow2(a + b) == Pow2(a) * Pow2(b)
  {
    if b > 0 {
      Pow2Add(a, b - 1);
    }
  }

  lemma Pow2Values()
    ensures Pow2(31) == 0x8000_0000
    ensures Pow2(32) == 0x1_0000_0000
    ensures Pow2(63) == 0x8000_0000_0000_0000
    ensures Pow2(64) == 0x1_0000_0000_0000_0000
  {
    assert Pow2(8) == 256;
    Pow2Add(8, 8);
    Pow2Add(16, 16);
    Pow2Add(32, 32);
    Pow2Add(31, 1);
    Pow2Add(63, 1);
  }

  /** Uint yields an integer exactly when u is representable, and then the
      integer is u itself: the cast to lua_Integer never wraps. */
  lemma UintSelection(w: nat, u: uint32)
    requires IsIntegerWidth(w)
    ensures UintValue(w, u) == if Fits(w, u) then Integer(u) else Float
  {
    Pow2Values();
    if w > 32 {
      Pow2Monotone(32, w - 1);
    } else {
      assert w == 32;
    }
  }

  /** Int64 yields an integer exactly when i is representable. */
  lemma Int64Selection(w: nat, i: int64)
    requires IsIntegerWidth(w)
    ensures Int64Value(w, i) == if Fits(w, i) then Integer(i) else Float
  {
    Pow2Values();
    if w >= 64 {
      Pow2Monotone(63, w - 1);
    }
  }

  /** Uint64 yields an integer exactly when u is representable. */
  lemma Uint64Selection(w: nat, u: uint64)
    requires IsIntegerWidth(w)
    ensures Uint64Value(w, u) == if Fits(w, u) then Integer(u) else Float
  {
    Pow2Values();
    if w > 64 {
      Pow2Monotone(64, w - 1);
    } else {
      Pow2Monotone(w - 1, 63);
    }
  }

  /** With a 64-bit lua_Integer the largest int64 stays an integer while the
      largest uint64 falls back to a float. */
  lemma SixtyFourBitBoundary()
    ensures Uint64Value(64, 0x7FFF_FFFF_FFFF_FFFF) == Integer(0x7FFF_FFFF_FFFF_FFFF)
    ensures Uint64Value(64, 0xFFFF_FFFF_FFFF_FFFF) == Float
    ensures Int64Value(64, -0x8000_0000_0000_0000) == Integer(-0x8000_0000_0000_0000)
  {
    Pow2Values();
  }

  /** With a 32-bit lua_Integer an unsigned above 2^31 - 1 becomes a float,
      and so does an int64 outside [-2^31, 2^31 - 1]; everything else stays
      an integer. */
  lemma ThirtyTwoBitBoundary()
    ensures forall u: uint32 :: UintValue(32, u) == if u <= 0x7FFF_FFFF then Integer(u) else Float
    ensures forall i: int64 ::
      Int64Value(32, i) == if -0x8000_0000 <= i <= 0x7FFF_FFFF then Integer(i) else Float
  {
    Pow2Values();
    forall u: uint32
      ensures UintValue(32, u) == if u <= 0x7FFF_FFFF then Integer(u) else Float
    {
      UintSelection(32, u);
    }
    forall i: int64
      ensures Int64Value(32, i) == if -0x8000_0000 <= i <= 0x7FFF_FFFF then Integer(i) else Float
    {
      Int64Selection(32, i);
    }
  }
}
