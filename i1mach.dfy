/** `i1mach`, the table of integer machine constants (the PORT library
    convention) of src/i1mach.rs, for a target with 32-bit `int`, 8-bit
    `char`, IEEE single precision `float` and IEEE double precision `double`. */
module I1mach {
  const CharBit: int := 8
  const SizeofChar: int := 1
  const SizeofInt: int := 4

  function I1mach(i: int): int
  {
    match i
    case 1 => 5
    case 2 => 6
    case 3 => 0
    case 4 => 0
    case 5 => CharBit * SizeofInt
    case 6 => SizeofInt / SizeofChar
    case 7 => 2
    case 8 => CharBit * SizeofInt - 1
    case 9 => 2147483647
    case 10 => 2
    case 11 => 24
    case 12 => -125
    case 13 => 128
    case 14 => 53
    case 15 => -1021
    case 16 => 1024
    case _ => 0
  }

  function Pow(b: int, n: nat): int
  {
    if n == 0 then 1 else b * Pow(b, n - 1)
  }

  /** The table entries, by group. */
  lemma Entries()
    ensures I1mach(1) == 5 && I1mach(2) == 6 && I1mach(3) == 0 && I1mach(4) == 0 && I1mach(7) == 2
    ensures I1mach(5) == 32 && I1mach(6) == 4 && I1mach(8) == 31 && I1mach(9) == 2147483647
    ensures I1mach(10) == 2 && I1mach(11) == 24 && I1mach(12) == -125 && I1mach(13) == 128
    ensures I1mach(14) == 53 && I1mach(15) == -1021 && I1mach(16) == 1024
  {
  }

  /** Every argument outside 1..16 gives 0. */
  lemma OutOfRange(i: int)
    requires i < 1 || i > 16
    ensures I1mach(i) == 0
  {
  }

  /** The entries are mutually consistent: the bits of an int are the bits of
      a char times its size, the largest int is 2^(digits) - 1, and the double
      and single exponent ranges are those of IEEE-754 binary64 and binary32
      (emin = 3 - emax, the `MIN_EXP`/`MAX_EXP` convention). */
  lemma Consistent()
    ensures I1mach(5) == CharBit * I1mach(6)
    ensures I1mach(8) == I1mach(5) - 1
    ensures I1mach(9) == Pow(2, I1mach(8)) - 1
    ensures I1mach(15) == 3 - I1mach(16) && I1mach(12) == 3 - I1mach(13)
  {
    var p3 := Pow(2, 3);
    assert p3 == 8;
    PowAdd(2, 3, 3);
    PowAdd(2, 6, 6);
    PowAdd(2, 12, 12);
    PowAdd(2, 24, 3);
    PowAdd(2, 27, 3);
    PowAdd(2, 30, 1);
    assert Pow(2, 31) == 2147483648;
  }

  lemma {:induction false} PowAdd(b: int, m: nat, n: nat)
    ensures Pow(b, m + n) == Pow(b, m) * Pow(b, n)
  {
    if m > 0 {
      PowAdd(b, m - 1, n);
    }
  }
}
