/**
 * The 128-bit adapter bitmaps: the mask expressions of AdapterRegistry.sol, bitmap.move and bitmap.rs,
 * the popcount loop, and the agreement of a bitmap with a plain set of adapters.
 */
module Bitmaps {
  import opened Numbers
  import opened Bits

  const MAX_U128: u128 := 0xFFFF_FFFF_FFFF_FFFF_FFFF_FFFF_FFFF_FFFF
  const MAX_U256: u256 :=
    0xFFFF_FFFF_FFFF_FFFF_FFFF_FFFF_FFFF_FFFF_FFFF_FFFF_FFFF_FFFF_FFFF_FFFF_FFFF_FFFF

  ghost predicate BitSetAt(before: nat, after: nat, index: nat) {
    forall k: nat :: Bit(after, k) <==> k == index || Bit(before, k)
  }

  ghost predicate BitClearedAt(before: nat, after: nat, index: nat) {
    forall k: nat :: Bit(after, k) <==> k != index && Bit(before, k)
  }

  // ---------------------------------------------------------------- masks

  /** `b | (1 << index)`, on any number. */
  lemma OrMask(b: nat, index: nat)
    ensures BitSetAt(b, Or(b, Pow2(index)), index)
  {
    forall k: nat
      ensures Bit(Or(b, Pow2(index)), k) <==> k == index || Bit(b, k)
    {
      BitOfOr(b, Pow2(index), k);
      BitOfPow2(index, k);
    }
  }

  /** `b & (1 << index)` is nonzero exactly when the bit is set. */
  lemma AndMask(b: nat, index: nat)
    ensures And(b, Pow2(index)) > 0 <==> Bit(b, index)
  {
    var r := And(b, Pow2(index));
    BitOfAnd(b, Pow2(index), index);
    BitOfPow2(index, index);
    if r > 0 {
      SomeBit(r);
      var k: nat :| Bit(r, k);
      BitOfAnd(b, Pow2(index), k);
      BitOfPow2(index, k);
    } else {
      NoBits(index);
    }
  }

  /** A set bit below 128 added to a 128-bit number keeps it a 128-bit number. */
  lemma StaysU128(before: u128, after: nat, index: nat)
    requires index < 128
    requires forall k: nat :: Bit(after, k) ==> k == index || Bit(before, k)
    ensures after <= MAX_U128
  {
    Width128();
    forall k: nat | 128 <= k
      ensures !Bit(after, k)
    {
      HighBitsClear(before, 128, k);
    }
    Bounded(after, 128);
  }

  /** `(1 << index) ^ MAX_U128`: ones everywhere but at `index`. */
  function ClearMask(index: nat): nat {
    Xor(Pow2(index), MAX_U128)
  }

  /** The two ways of writing the clearing mask agree. */
  lemma MaskComplement(index: nat)
    requires index < 128
    ensures Pow2(index) <= MAX_U128
    ensures ClearMask(index) == MAX_U128 - Pow2(index)
  {
    Width128();
    Pow2Monotone(index, 127);
    assert Pow2(127) + Pow2(127) == Pow2(128);
    XorComplement(Pow2(index), 128);
  }

  lemma {:induction false} XorComplement(b: nat, n: nat)
    requires b < Pow2(n)
    ensures Xor(b, Pow2(n) - 1) == Pow2(n) - 1 - b
  {
    if n > 0 {
      hide Xor;
      XorOdd(b, Pow2(n - 1) - 1);
      XorComplement(b / 2, n - 1);
    }
  }

  lemma XorOdd(b: nat, q: nat)
    ensures Xor(b, 2 * q + 1) == 1 - b % 2 + 2 * Xor(b / 2, q)
  {
  }

  /** `b & ((1 << index) ^ MAX_U128)` */
  lemma AndClearMask(b: u128, index: nat)
    ensures BitClearedAt(b, And(b, ClearMask(index)), index)
  {
    Width128();
    forall k: nat
      ensures Bit(And(b, ClearMask(index)), k) <==> k != index && Bit(b, k)
    {
      BitOfAnd(b, ClearMask(index), k);
      BitOfXor(Pow2(index), MAX_U128, k);
      BitOfPow2(index, k);
      BitOfOnes(128, k);
      if 128 <= k {
        HighBitsClear(b, 128, k);
      }
    }
  }

  // ---------------------------------------------------------------- AdapterRegistry.sol

  /** `uint128(1 << index)`: a 256-bit shift, truncated. */
  function EvmMask(index: u8): u128 {
    Pow2(index) % 0x1_0000_0000_0000_0000_0000_0000_0000_0000
  }

  /** No shift by an index below 128 is truncated. */
  lemma EvmMaskExact(index: u8)
    requires index < 128
    ensures EvmMask(index) == Pow2(index)
  {
    hide Pow2, Xor;
    MaskComplement(index);
  }

  /** `bitmap | uint128(1 << index)` */
  function EvmSet(bitmap: u128, index: u8): (r: u128)
    requires index < 128
    ensures BitSetAt(bitmap, r, index)
  {
    EvmSetBit(bitmap, index);
    Or(bitmap, EvmMask(index))
  }

  lemma EvmSetBit(bitmap: u128, index: u8)
    requires index < 128
    ensures BitSetAt(bitmap, Or(bitmap, EvmMask(index)), index) && Or(bitmap, EvmMask(index)) <= MAX_U128
  {
    hide Pow2, Or, EvmMask;
    EvmMaskExact(index);
    OrMask(bitmap, index);
    StaysU128(bitmap, Or(bitmap, Pow2(index)), index);
  }

  /** `(bitmap & uint128(1 << index)) > 0` */
  predicate EvmGet(bitmap: u128, index: u8)
    requires index < 128
    ensures EvmGet(bitmap, index) <==> Bit(bitmap, index)
  {
    EvmGetBit(bitmap, index);
    And(bitmap, EvmMask(index)) > 0
  }

  lemma EvmGetBit(bitmap: u128, index: u8)
    requires index < 128
    ensures And(bitmap, EvmMask(index)) > 0 <==> Bit(bitmap, index)
  {
    hide Pow2, And, EvmMask, Bit;
    EvmMaskExact(index);
    AndMask(bitmap, index);
  }

  /** `uint128(~(1 << index))`: the complement is taken at 256 bits, then truncated. */
  function EvmClearMask(index: u8): u128
    requires index < 128
  {
    MaskComplement(index);
    (MAX_U256 - Pow2(index)) % 0x1_0000_0000_0000_0000_0000_0000_0000_0000
  }

  /** `bitmap & uint128(~(1 << index))` */
  function EvmClear(bitmap: u128, index: u8): (r: u128)
    requires index < 128
    ensures BitClearedAt(bitmap, r, index)
    ensures r >= bitmap <==> !Bit(bitmap, index)
  {
    EvmClearBit(bitmap, index);
    And(bitmap, EvmClearMask(index))
  }

  lemma EvmClearBit(bitmap: u128, index: u8)
    requires index < 128
    ensures var r := And(bitmap, EvmClearMask(index));
            BitClearedAt(bitmap, r, index) && r <= MAX_U128 && (r >= bitmap <==> !Bit(bitmap, index))
  {
    hide Pow2, And, Xor, Bit, BitClearedAt;
    MaskComplement(index);
    TruncatedComplement(Pow2(index));
    AndClearMask(bitmap, index);
    ClearShrinks(bitmap, And(bitmap, ClearMask(index)), index);
  }

  lemma TruncatedComplement(x: nat)
    requires x <= MAX_U128
    ensures (MAX_U256 - x) % 0x1_0000_0000_0000_0000_0000_0000_0000_0000 == MAX_U128 - x
  {
  }

  /** The disable test of the source compares numbers, `updated >= bitmap`; it holds only for a clear bit. */
  lemma {:induction false} ClearShrinks(before: nat, after: nat, index: nat)
    requires BitClearedAt(before, after, index)
    ensures after <= before
    ensures after == before <==> !Bit(before, index)
    decreases before + after
  {
    if before + after > 0 {
      assert Bit(after, 0) ==> Bit(before, 0);
      if index > 0 {
        assert Bit(after, 0) <==> Bit(before, 0);
        forall k: nat
          ensures Bit(after / 2, k) <==> k != index - 1 && Bit(before / 2, k)
        {
          assert Bit(after, k + 1) <==> k + 1 != index && Bit(before, k + 1);
        }
        ClearShrinks(before / 2, after / 2, index - 1);
      } else {
        assert !Bit(after, 0);
        forall k: nat
          ensures Bit(after / 2, k) <==> Bit(before / 2, k)
        {
          assert Bit(after, k + 1) <==> Bit(before, k + 1);
        }
        SameBits(before / 2, after / 2);
      }
    } else {
      NoBits(index);
    }
  }

  /** The popcount loop: it ends for every 128-bit value and the uint8 counter never overflows. */
  method CountBits(bitmap: u128) returns (result: u8)
    ensures result == PopCount(bitmap) <= 128
  {
    Width128();
    PopCountBound(bitmap, 128);
    var b: nat := bitmap;
    result := 0;
    while b != 0
      invariant b <= bitmap
      invariant result + PopCount(b) == PopCount(bitmap)
    {
      ClearLowest(b);
      b := And(b, b - 1);
      result := result + 1;
    }
  }

  // ---------------------------------------------------------------- bitmap.move

  /** Aborts (None) when the shift is out of range or the bit is already set. */
  function MoveEnable(bitmap: u128, index: u8): (r: Option<u128>)
    ensures r.None? <==> index >= 128 || Bit(bitmap, index)
    ensures r.Some? ==> BitSetAt(bitmap, r.value, index)
  {
    if index >= 128 then None else
    MaskComplement(index);
    AndMask(bitmap, index);
    OrMask(bitmap, index);
    StaysU128(bitmap, Or(bitmap, Pow2(index)), index);
    if And(bitmap, Pow2(index)) == 0 then Some(Or(bitmap, Pow2(index))) else None
  }

  function MoveDisable(bitmap: u128, index: u8): (r: Option<u128>)
    ensures r.None? <==> index >= 128 || !Bit(bitmap, index)
    ensures r.Some? ==> BitClearedAt(bitmap, r.value, index)
  {
    if index >= 128 then None else
    MaskComplement(index);
    AndMask(bitmap, index);
    AndClearMask(bitmap, index);
    StaysU128(bitmap, And(bitmap, ClearMask(index)), index);
    if And(bitmap, Pow2(index)) > 0 then Some(And(bitmap, ClearMask(index))) else None
  }

  function MoveGet(bitmap: u128, index: u8): (r: Option<bool>)
    ensures r == if index >= 128 then None else Some(Bit(bitmap, index))
  {
    if index >= 128 then None else
    AndMask(bitmap, index);
    Some(And(bitmap, Pow2(index)) > 0)
  }

  // ---------------------------------------------------------------- bitmap.rs

  function RustSet(bitmap: u128, index: u8, value: bool): (r: Option<u128>)
    ensures r.None? <==> index >= 128
    ensures r.Some? && value ==> BitSetAt(bitmap, r.value, index)
    ensures r.Some? && !value ==> BitClearedAt(bitmap, r.value, index)
  {
    if index >= 128 then None else
    OrMask(bitmap, index);
    AndClearMask(bitmap, index);
    StaysU128(bitmap, Or(bitmap, Pow2(index)), index);
    StaysU128(bitmap, And(bitmap, ClearMask(index)), index);
    if value then Some(Or(bitmap, Pow2(index))) else Some(And(bitmap, ClearMask(index)))
  }

  function RustGet(bitmap: u128, index: u8): Option<bool> {
    if index >= 128 then None else Some(Bit(bitmap, index))
  }

  // ---------------------------------------------------------------- bitmaps as sets

  /** Bit k is set exactly when the k-th registered adapter is in the set. */
  ghost predicate Holds<T>(bitmap: nat, adapters: seq<T>, members: set<T>) {
    forall k: nat :: Bit(bitmap, k) <==> k < |adapters| && adapters[k] in members
  }

  lemma HoldsEmpty<T>(adapters: seq<T>)
    ensures Holds(0, adapters, {})
  {
    forall k: nat
      ensures !Bit(0, k)
    {
      NoBits(k);
    }
  }

  lemma HoldsInsert<T>(before: nat, after: nat, adapters: seq<T>, members: set<T>, index: nat)
    requires Holds(before, adapters, members) && Distinct(adapters) && index < |adapters|
    requires BitSetAt(before, after, index)
    ensures Holds(after, adapters, members + {adapters[index]})
  {
  }

  lemma HoldsRemove<T>(before: nat, after: nat, adapters: seq<T>, members: set<T>, index: nat)
    requires Holds(before, adapters, members) && Distinct(adapters) && index < |adapters|
    requires BitClearedAt(before, after, index)
    ensures Holds(after, adapters, members - {adapters[index]})
  {
  }

  /** Indices never move: a bitmap keeps its meaning when adapters are appended. */
  lemma HoldsExtend<T>(bitmap: nat, adapters: seq<T>, longer: seq<T>, members: set<T>)
    requires Holds(bitmap, adapters, members) && adapters <= longer && Distinct(longer)
    requires forall a :: a in members ==> a in adapters
    ensures Holds(bitmap, longer, members)
  {
  }

  /** A bitmap depends only on the list and the set, not on the order in which bits were set. */
  lemma HoldsUnique<T>(b: nat, c: nat, adapters: seq<T>, members: set<T>)
    requires Holds(b, adapters, members) && Holds(c, adapters, members)
    ensures b == c
  {
    SameBits(b, c);
  }

  lemma HoldsNonempty<T>(bitmap: nat, adapters: seq<T>, members: set<T>)
    requires Holds(bitmap, adapters, members)
    requires forall a :: a in members ==> a in adapters
    ensures bitmap == 0 <==> members == {}
  {
    if bitmap > 0 {
      SomeBit(bitmap);
    } else if members != {} {
      var a :| a in members;
      var k :| 0 <= k < |adapters| && adapters[k] == a;
      NoBits(k);
    }
  }

  /** The popcount of a bitmap is the size of the set. */
  lemma {:induction false} HoldsCount<T>(bitmap: nat, adapters: seq<T>, members: set<T>)
    requires Holds(bitmap, adapters, members) && Distinct(adapters)
    requires forall a :: a in members ==> a in adapters
    ensures PopCount(bitmap) == |members| <= |adapters|
    decreases |adapters|
  {
    HoldsNonempty(bitmap, adapters, members);
    if |adapters| > 0 {
      var rest := members - {adapters[0]};
      assert Bit(bitmap, 0) <==> adapters[0] in members;
      forall k: nat
        ensures Bit(bitmap / 2, k) <==> k < |adapters[1..]| && adapters[1..][k] in rest
      {
        assert Bit(bitmap, k + 1) <==> Bit(bitmap / 2, k);
      }
      HoldsCount(bitmap / 2, adapters[1..], rest);
      assert adapters[0] !in members ==> rest == members;
    } else {
      assert members == {};
    }
  }
}
