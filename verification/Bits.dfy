/** Find-first-set over a byte table, and the ready bitmaps that the scheduler reads
    through it.

    A word has bit p when its conjunction with Mask(p) is not zero.
 */
module Bits {

  /** The lowest set bit of each byte; entry 0 is never looked up. */
  const LOWEST_BIT: seq<seq<nat>> := [
    [0, 0, 1, 0, 2, 0, 1, 0, 3, 0, 1, 0, 2, 0, 1, 0],
    [4, 0, 1, 0, 2, 0, 1, 0, 3, 0, 1, 0, 2, 0, 1, 0],
    [5, 0, 1, 0, 2, 0, 1, 0, 3, 0, 1, 0, 2, 0, 1, 0],
    [4, 0, 1, 0, 2, 0, 1, 0, 3, 0, 1, 0, 2, 0, 1, 0],
    [6, 0, 1, 0, 2, 0, 1, 0, 3, 0, 1, 0, 2, 0, 1, 0],
    [4, 0, 1, 0, 2, 0, 1, 0, 3, 0, 1, 0, 2, 0, 1, 0],
    [5, 0, 1, 0, 2, 0, 1, 0, 3, 0, 1, 0, 2, 0, 1, 0],
    [4, 0, 1, 0, 2, 0, 1, 0, 3, 0, 1, 0, 2, 0, 1, 0],
    [7, 0, 1, 0, 2, 0, 1, 0, 3, 0, 1, 0, 2, 0, 1, 0],
    [4, 0, 1, 0, 2, 0, 1, 0, 3, 0, 1, 0, 2, 0, 1, 0],
    [5, 0, 1, 0, 2, 0, 1, 0, 3, 0, 1, 0, 2, 0, 1, 0],
    [4, 0, 1, 0, 2, 0, 1, 0, 3, 0, 1, 0, 2, 0, 1, 0],
    [6, 0, 1, 0, 2, 0, 1, 0, 3, 0, 1, 0, 2, 0, 1, 0],
    [4, 0, 1, 0, 2, 0, 1, 0, 3, 0, 1, 0, 2, 0, 1, 0],
    [5, 0, 1, 0, 2, 0, 1, 0, 3, 0, 1, 0, 2, 0, 1, 0],
    [4, 0, 1, 0, 2, 0, 1, 0, 3, 0, 1, 0, 2, 0, 1, 0]]

  function Mask(p: nat): bv32
    requires p < 32
  {
    1 << p
  }

  /** w with the bits of m set. */
  function With(w: bv32, m: bv32): bv32 {
    w | m
  }

  /** w with the bits of m cleared. */
  function Minus(w: bv32, m: bv32): bv32 {
    w & !m
  }

  /** What w and m share. */
  function Common(w: bv32, m: bv32): bv32 {
    w & m
  }

  ghost predicate Meets(w: bv32, m: bv32) {
    Common(w, m) != 0
  }

  ghost predicate Bit(w: bv32, p: nat)
    requires p < 32
  {
    Meets(w, Mask(p))
  }

  /** Table lookup for the byte b. */
  function LowestBit(b: bv32): nat
    requires b < 256
  {
    LOWEST_BIT[(b >> 4) as nat][(b & 15) as nat]
  }

  /** __rt_ffs. */
  function Ffs(value: bv32): nat {
    if value == 0 then 0
    else if value & 0xff != 0 then LowestBit(value & 0xff) + 1
    else if value & 0xff00 != 0 then LowestBit((value & 0xff00) >> 8) + 9
    else if value & 0xff0000 != 0 then LowestBit((value & 0xff0000) >> 16) + 17
    else LowestBit((value & 0xff000000) >> 24) + 25
  }

  // ----- the table is right -----

  /** The lowest set bit of a byte, bit by bit. */
  ghost function Low(b: bv32): (k: nat)
    ensures k < 8
  {
    if b & 1 != 0 then 0 else if b & 2 != 0 then 1 else if b & 4 != 0 then 2 else if b & 8 != 0 then 3
    else if b & 16 != 0 then 4 else if b & 32 != 0 then 5 else if b & 64 != 0 then 6 else 7
  }

  lemma Nibble(x: bv32)
    requires x < 16
    ensures forall h :: 0 <= h < 16 && x != 0 ==> LOWEST_BIT[h][x as nat] == Low(x)
    ensures x != 0 ==> LOWEST_BIT[x as nat][0] == 4 + Low(x)
  {
  }

  lemma TableIsLow(b: bv32)
    requires 0 < b < 256
    ensures LowestBit(b) == Low(b)
  {
    Nibble(b & 15);
    Nibble(b >> 4);
  }

  /** Bit p is set and no lower bit is. */
  ghost predicate IsLowest(w: bv32, p: nat)
    requires p < 32
  {
    Bit(w, p) && forall q :: 0 <= q < p ==> !Bit(w, q)
  }

  lemma Byte0(w: bv32, q: nat)
    requires w & 0xff != 0 && q < 32
    ensures Bit(w, Low(w & 0xff)) && (q < Low(w & 0xff) ==> !Bit(w, q))
  {
  }

  lemma Byte1(w: bv32, q: nat)
    requires w & 0xff == 0 && w & 0xff00 != 0 && q < 32
    ensures Bit(w, Low((w & 0xff00) >> 8) + 8) && (q < Low((w & 0xff00) >> 8) + 8 ==> !Bit(w, q))
  {
  }

  lemma Byte2(w: bv32, q: nat)
    requires w & 0xffff == 0 && w & 0xff0000 != 0 && q < 32
    ensures Bit(w, Low((w & 0xff0000) >> 16) + 16) && (q < Low((w & 0xff0000) >> 16) + 16 ==> !Bit(w, q))
  {
  }

  lemma Byte3(w: bv32, q: nat)
    requires w & 0xffffff == 0 && w != 0 && q < 32
    ensures Bit(w, Low((w & 0xff000000) >> 24) + 24) && (q < Low((w & 0xff000000) >> 24) + 24 ==> !Bit(w, q))
  {
  }

  lemma FfsAt(w: bv32, q: nat)
    requires w != 0 && q < 32
    ensures 1 <= Ffs(w) <= 32 && Bit(w, Ffs(w) - 1) && (q < Ffs(w) - 1 ==> !Bit(w, q))
  {
    hide Bit, Low, LowestBit;
    if w & 0xff != 0 {
      TableIsLow(w & 0xff);
      Byte0(w, q);
    } else if w & 0xff00 != 0 {
      TableIsLow((w & 0xff00) >> 8);
      Byte1(w, q);
    } else if w & 0xff0000 != 0 {
      TableIsLow((w & 0xff0000) >> 16);
      Byte2(w, q);
    } else {
      TableIsLow((w & 0xff000000) >> 24);
      Byte3(w, q);
    }
  }

  /** __rt_ffs returns one more than the index of the lowest set bit, and 0 for 0. */
  lemma FfsIsLowest(w: bv32)
    ensures w == 0 ==> Ffs(w) == 0
    ensures w != 0 ==> 1 <= Ffs(w) <= 32 && IsLowest(w, Ffs(w) - 1)
  {
    hide Bit, Ffs;
    if w != 0 {
      FfsAt(w, 0);
      forall q | 0 <= q < Ffs(w) - 1
        ensures !Bit(w, q)
      {
        FfsAt(w, q);
      }
    } else {
      FfsZero();
    }
  }

  lemma FfsZero()
    ensures Ffs(0) == 0
  {
  }

  // ----- setting and clearing one bit -----

  ghost predicate Disjoint(m: bv32, k: bv32) {
    Common(m, k) == 0
  }

  lemma MaskDisjoint(p: nat, q: nat)
    requires p < 32 && q < 32 && p != q
    ensures Disjoint(Mask(p), Mask(q))
  {
  }

  lemma MaskNonZero(p: nat)
    requires p < 32
    ensures Mask(p) != 0
  {
  }

  lemma SetCommon(w: bv32, m: bv32, k: bv32)
    requires Common(m, k) == 0
    ensures Common(With(w, m), k) == Common(w, k)
  {
    SetCommonBits(w, m, k);
  }

  lemma SetCommonBits(w: bv32, m: bv32, k: bv32)
    requires m & k == 0
    ensures (w | m) & k == w & k
  {
  }

  lemma ClearCommon(w: bv32, m: bv32, k: bv32)
    requires Common(m, k) == 0
    ensures Common(Minus(w, m), k) == Common(w, k)
  {
    ClearCommonBits(w, m, k);
  }

  lemma ClearCommonBits(w: bv32, m: bv32, k: bv32)
    requires m & k == 0
    ensures (w & !m) & k == w & k
  {
  }

  lemma SetDisjoint(w: bv32, m: bv32, k: bv32)
    requires Disjoint(m, k)
    ensures Meets(With(w, m), k) == Meets(w, k)
  {
    hide With, Common;
    SetCommon(w, m, k);
  }

  lemma ClearDisjoint(w: bv32, m: bv32, k: bv32)
    requires Disjoint(m, k)
    ensures Meets(Minus(w, m), k) == Meets(w, k)
  {
    hide Minus, Common;
    ClearCommon(w, m, k);
  }

  lemma SetOne(w: bv32, p: nat)
    requires p < 32
    ensures Bit(With(w, Mask(p)), p)
  {
    MaskNonZero(p);
  }

  lemma ClearOne(w: bv32, p: nat)
    requires p < 32
    ensures !Bit(Minus(w, Mask(p)), p)
  {
  }

  lemma SetOther(w: bv32, p: nat, q: nat)
    requires p < 32 && q < 32 && p != q
    ensures Bit(With(w, Mask(p)), q) == Bit(w, q)
  {
    hide Mask, Meets, Disjoint, With, Minus;
    MaskDisjoint(p, q);
    SetDisjoint(w, Mask(p), Mask(q));
  }

  lemma ClearOther(w: bv32, p: nat, q: nat)
    requires p < 32 && q < 32 && p != q
    ensures Bit(Minus(w, Mask(p)), q) == Bit(w, q)
  {
    hide Mask, Meets, Disjoint, With, Minus;
    MaskDisjoint(p, q);
    ClearDisjoint(w, Mask(p), Mask(q));
  }

  /** Setting or clearing bit p changes bit p only. */
  lemma BitUpdate(w: bv32, p: nat, q: nat)
    requires p < 32 && q < 32
    ensures Bit(With(w, Mask(p)), q) <==> q == p || Bit(w, q)
    ensures Bit(Minus(w, Mask(p)), q) <==> q != p && Bit(w, q)
  {
    hide Bit, Mask, With, Minus;
    if p == q {
      SetOne(w, p);
      ClearOne(w, p);
    } else {
      SetOther(w, p, q);
      ClearOther(w, p, q);
    }
  }

  lemma NoBits(w: bv32)
    ensures w == 0 <==> forall p :: 0 <= p < 32 ==> !Bit(w, p)
  {
    if w != 0 { FfsIsLowest(w); }
  }
}
