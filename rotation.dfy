/** Model of `rotl_32` in src/hash_table.c: the 32-bit left rotation used by
    MurmurHash3. */
module Rotation {

  // ---------------------------------------------------------------------
  // rotl_32
  // ---------------------------------------------------------------------

  /** `rotl_32(x, n)`: `(x << n) | (x >> (32 - n))`. For n = 0 the C
      expression shifts by 32, which C leaves undefined; Dafny defines
      `x >> 32` as 0, so the model yields x there. */
  function Rotl32(x: bv32, n: bv32): bv32
    requires n < 32
  {
    (x << n) | (x >> (32 - n))
  }

  // One more position, one shift amount at a time.
  lemma RotlStep1(x: bv32) ensures Rotl32(x, 2) == Rotl32(Rotl32(x, 1), 1) {}
  lemma RotlStep2(x: bv32) ensures Rotl32(x, 3) == Rotl32(Rotl32(x, 2), 1) {}
  lemma RotlStep3(x: bv32) ensures Rotl32(x, 4) == Rotl32(Rotl32(x, 3), 1) {}
  lemma RotlStep4(x: bv32) ensures Rotl32(x, 5) == Rotl32(Rotl32(x, 4), 1) {}
  lemma RotlStep5(x: bv32) ensures Rotl32(x, 6) == Rotl32(Rotl32(x, 5), 1) {}
  lemma RotlStep6(x: bv32) ensures Rotl32(x, 7) == Rotl32(Rotl32(x, 6), 1) {}
  lemma RotlStep7(x: bv32) ensures Rotl32(x, 8) == Rotl32(Rotl32(x, 7), 1) {}
  lemma RotlStep8(x: bv32) ensures Rotl32(x, 9) == Rotl32(Rotl32(x, 8), 1) {}
  lemma RotlStep9(x: bv32) ensures Rotl32(x, 10) == Rotl32(Rotl32(x, 9), 1) {}
  lemma RotlStep10(x: bv32) ensures Rotl32(x, 11) == Rotl32(Rotl32(x, 10), 1) {}
  lemma RotlStep11(x: bv32) ensures Rotl32(x, 12) == Rotl32(Rotl32(x, 11), 1) {}
  lemma RotlStep12(x: bv32) ensures Rotl32(x, 13) == Rotl32(Rotl32(x, 12), 1) {}
  lemma RotlStep13(x: bv32) ensures Rotl32(x, 14) == Rotl32(Rotl32(x, 13), 1) {}
  lemma RotlStep14(x: bv32) ensures Rotl32(x, 15) == Rotl32(Rotl32(x, 14), 1) {}
  lemma RotlStep15(x: bv32) ensures Rotl32(x, 16) == Rotl32(Rotl32(x, 15), 1) {}
  lemma RotlStep16(x: bv32) ensures Rotl32(x, 17) == Rotl32(Rotl32(x, 16), 1) {}
  lemma RotlStep17(x: bv32) ensures Rotl32(x, 18) == Rotl32(Rotl32(x, 17), 1) {}
  lemma RotlStep18(x: bv32) ensures Rotl32(x, 19) == Rotl32(Rotl32(x, 18), 1) {}
  lemma RotlStep19(x: bv32) ensures Rotl32(x, 20) == Rotl32(Rotl32(x, 19), 1) {}
  lemma RotlStep20(x: bv32) ensures Rotl32(x, 21) == Rotl32(Rotl32(x, 20), 1) {}
  lemma RotlStep21(x: bv32) ensures Rotl32(x, 22) == Rotl32(Rotl32(x, 21), 1) {}
  lemma RotlStep22(x: bv32) ensures Rotl32(x, 23) == Rotl32(Rotl32(x, 22), 1) {}
  lemma RotlStep23(x: bv32) ensures Rotl32(x, 24) == Rotl32(Rotl32(x, 23), 1) {}
  lemma RotlStep24(x: bv32) ensures Rotl32(x, 25) == Rotl32(Rotl32(x, 24), 1) {}
  lemma RotlStep25(x: bv32) ensures Rotl32(x, 26) == Rotl32(Rotl32(x, 25), 1) {}
  lemma RotlStep26(x: bv32) ensures Rotl32(x, 27) == Rotl32(Rotl32(x, 26), 1) {}
  lemma RotlStep27(x: bv32) ensures Rotl32(x, 28) == Rotl32(Rotl32(x, 27), 1) {}
  lemma RotlStep28(x: bv32) ensures Rotl32(x, 29) == Rotl32(Rotl32(x, 28), 1) {}
  lemma RotlStep29(x: bv32) ensures Rotl32(x, 30) == Rotl32(Rotl32(x, 29), 1) {}
  lemma RotlStep30(x: bv32) ensures Rotl32(x, 31) == Rotl32(Rotl32(x, 30), 1) {}

  /** Rotating by n + 1 is rotating by n and then by one more position.
      For a symbolic n the bit-level query is beyond the solver's budget, so
      the proof goes through the concrete shift amounts. */
  lemma RotlStep(x: bv32, n: bv32)
    requires 0 < n < 31
    ensures Rotl32(x, n + 1) == Rotl32(Rotl32(x, n), 1)
  {
    if n == 1 {
      RotlStep1(x);
    } else if n == 2 {
      RotlStep2(x);
    } else if n == 3 {
      RotlStep3(x);
    } else if n == 4 {
      RotlStep4(x);
    } else if n == 5 {
      RotlStep5(x);
    } else if n == 6 {
      RotlStep6(x);
    } else if n == 7 {
      RotlStep7(x);
    } else if n == 8 {
      RotlStep8(x);
    } else if n == 9 {
      RotlStep9(x);
    } else if n == 10 {
      RotlStep10(x);
    } else if n == 11 {
      RotlStep11(x);
    } else if n == 12 {
      RotlStep12(x);
    } else if n == 13 {
      RotlStep13(x);
    } else if n == 14 {
      RotlStep14(x);
    } else if n == 15 {
      RotlStep15(x);
    } else if n == 16 {
      RotlStep16(x);
    } else if n == 17 {
      RotlStep17(x);
    } else if n == 18 {
      RotlStep18(x);
    } else if n == 19 {
      RotlStep19(x);
    } else if n == 20 {
      RotlStep20(x);
    } else if n == 21 {
      RotlStep21(x);
    } else if n == 22 {
      RotlStep22(x);
    } else if n == 23 {
      RotlStep23(x);
    } else if n == 24 {
      RotlStep24(x);
    } else if n == 25 {
      RotlStep25(x);
    } else if n == 26 {
      RotlStep26(x);
    } else if n == 27 {
      RotlStep27(x);
    } else if n == 28 {
      RotlStep28(x);
    } else if n == 29 {
      RotlStep29(x);
    } else {
      RotlStep30(x);
    }
  }

  // Rotating back, one shift amount at a time.
  lemma RotlInverse1(x: bv32) ensures Rotl32(Rotl32(x, 1), 31) == x {}
  lemma RotlInverse2(x: bv32) ensures Rotl32(Rotl32(x, 2), 30) == x {}
  lemma RotlInverse3(x: bv32) ensures Rotl32(Rotl32(x, 3), 29) == x {}
  lemma RotlInverse4(x: bv32) ensures Rotl32(Rotl32(x, 4), 28) == x {}
  lemma RotlInverse5(x: bv32) ensures Rotl32(Rotl32(x, 5), 27) == x {}
  lemma RotlInverse6(x: bv32) ensures Rotl32(Rotl32(x, 6), 26) == x {}
  lemma RotlInverse7(x: bv32) ensures Rotl32(Rotl32(x, 7), 25) == x {}
  lemma RotlInverse8(x: bv32) ensures Rotl32(Rotl32(x, 8), 24) == x {}
  lemma RotlInverse9(x: bv32) ensures Rotl32(Rotl32(x, 9), 23) == x {}
  lemma RotlInverse10(x: bv32) ensures Rotl32(Rotl32(x, 10), 22) == x {}
  lemma RotlInverse11(x: bv32) ensures Rotl32(Rotl32(x, 11), 21) == x {}
  lemma RotlInverse12(x: bv32) ensures Rotl32(Rotl32(x, 12), 20) == x {}
  lemma RotlInverse13(x: bv32) ensures Rotl32(Rotl32(x, 13), 19) == x {}
  lemma RotlInverse14(x: bv32) ensures Rotl32(Rotl32(x, 14), 18) == x {}
  lemma RotlInverse15(x: bv32) ensures Rotl32(Rotl32(x, 15), 17) == x {}
  lemma RotlInverse16(x: bv32) ensures Rotl32(Rotl32(x, 16), 16) == x {}
  lemma RotlInverse17(x: bv32) ensures Rotl32(Rotl32(x, 17), 15) == x {}
  lemma RotlInverse18(x: bv32) ensures Rotl32(Rotl32(x, 18), 14) == x {}
  lemma RotlInverse19(x: bv32) ensures Rotl32(Rotl32(x, 19), 13) == x {}
  lemma RotlInverse20(x: bv32) ensures Rotl32(Rotl32(x, 20), 12) == x {}
  lemma RotlInverse21(x: bv32) ensures Rotl32(Rotl32(x, 21), 11) == x {}
  lemma RotlInverse22(x: bv32) ensures Rotl32(Rotl32(x, 22), 10) == x {}
  lemma RotlInverse23(x: bv32) ensures Rotl32(Rotl32(x, 23), 9) == x {}
  lemma RotlInverse24(x: bv32) ensures Rotl32(Rotl32(x, 24), 8) == x {}
  lemma RotlInverse25(x: bv32) ensures Rotl32(Rotl32(x, 25), 7) == x {}
  lemma RotlInverse26(x: bv32) ensures Rotl32(Rotl32(x, 26), 6) == x {}
  lemma RotlInverse27(x: bv32) ensures Rotl32(Rotl32(x, 27), 5) == x {}
  lemma RotlInverse28(x: bv32) ensures Rotl32(Rotl32(x, 28), 4) == x {}
  lemma RotlInverse29(x: bv32) ensures Rotl32(Rotl32(x, 29), 3) == x {}
  lemma RotlInverse30(x: bv32) ensures Rotl32(Rotl32(x, 30), 2) == x {}
  lemma RotlInverse31(x: bv32) ensures Rotl32(Rotl32(x, 31), 1) == x {}

  /** Rotating by n and then by 32 - n restores every bit: a true rotation. */
  lemma RotlInverse(x: bv32, n: bv32)
    requires 0 < n < 32
    ensures Rotl32(Rotl32(x, n), 32 - n) == x
  {
    if n == 1 {
      RotlInverse1(x);
    } else if n == 2 {
      RotlInverse2(x);
    } else if n == 3 {
      RotlInverse3(x);
    } else if n == 4 {
      RotlInverse4(x);
    } else if n == 5 {
      RotlInverse5(x);
    } else if n == 6 {
      RotlInverse6(x);
    } else if n == 7 {
      RotlInverse7(x);
    } else if n == 8 {
      RotlInverse8(x);
    } else if n == 9 {
      RotlInverse9(x);
    } else if n == 10 {
      RotlInverse10(x);
    } else if n == 11 {
      RotlInverse11(x);
    } else if n == 12 {
      RotlInverse12(x);
    } else if n == 13 {
      RotlInverse13(x);
    } else if n == 14 {
      RotlInverse14(x);
    } else if n == 15 {
      RotlInverse15(x);
    } else if n == 16 {
      RotlInverse16(x);
    } else if n == 17 {
      RotlInverse17(x);
    } else if n == 18 {
      RotlInverse18(x);
    } else if n == 19 {
      RotlInverse19(x);
    } else if n == 20 {
      RotlInverse20(x);
    } else if n == 21 {
      RotlInverse21(x);
    } else if n == 22 {
      RotlInverse22(x);
    } else if n == 23 {
      RotlInverse23(x);
    } else if n == 24 {
      RotlInverse24(x);
    } else if n == 25 {
      RotlInverse25(x);
    } else if n == 26 {
      RotlInverse26(x);
    } else if n == 27 {
      RotlInverse27(x);
    } else if n == 28 {
      RotlInverse28(x);
    } else if n == 29 {
      RotlInverse29(x);
    } else if n == 30 {
      RotlInverse30(x);
    } else {
      RotlInverse31(x);
    }
  }

  /** The rotation table of the test suite: 0x33eaeb09 rotated by 0 to 31. */
  lemma RotlTable()
    ensures Rotl32(0x33eaeb09, 0) == 0x33eaeb09 && Rotl32(0x33eaeb09, 1) == 0x67d5d612
    ensures Rotl32(0x33eaeb09, 2) == 0xcfabac24 && Rotl32(0x33eaeb09, 3) == 0x9f575849
    ensures Rotl32(0x33eaeb09, 4) == 0x3eaeb093 && Rotl32(0x33eaeb09, 5) == 0x7d5d6126
    ensures Rotl32(0x33eaeb09, 6) == 0xfabac24c && Rotl32(0x33eaeb09, 7) == 0xf5758499
    ensures Rotl32(0x33eaeb09, 8) == 0xeaeb0933 && Rotl32(0x33eaeb09, 9) == 0xd5d61267
    ensures Rotl32(0x33eaeb09, 10) == 0xabac24cf && Rotl32(0x33eaeb09, 11) == 0x5758499f
    ensures Rotl32(0x33eaeb09, 12) == 0xaeb0933e && Rotl32(0x33eaeb09, 13) == 0x5d61267d
    ensures Rotl32(0x33eaeb09, 14) == 0xbac24cfa && Rotl32(0x33eaeb09, 15) == 0x758499f5
    ensures Rotl32(0x33eaeb09, 16) == 0xeb0933ea && Rotl32(0x33eaeb09, 17) == 0xd61267d5
    ensures Rotl32(0x33eaeb09, 18) == 0xac24cfab && Rotl32(0x33eaeb09, 19) == 0x58499f57
    ensures Rotl32(0x33eaeb09, 20) == 0xb0933eae && Rotl32(0x33eaeb09, 21) == 0x61267d5d
    ensures Rotl32(0x33eaeb09, 22) == 0xc24cfaba && Rotl32(0x33eaeb09, 23) == 0x8499f575
    ensures Rotl32(0x33eaeb09, 24) == 0x0933eaeb && Rotl32(0x33eaeb09, 25) == 0x1267d5d6
    ensures Rotl32(0x33eaeb09, 26) == 0x24cfabac && Rotl32(0x33eaeb09, 27) == 0x499f5758
    ensures Rotl32(0x33eaeb09, 28) == 0x933eaeb0 && Rotl32(0x33eaeb09, 29) == 0x267d5d61
    ensures Rotl32(0x33eaeb09, 30) == 0x4cfabac2 && Rotl32(0x33eaeb09, 31) == 0x99f57584
  {
  }
}
