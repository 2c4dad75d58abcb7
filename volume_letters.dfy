/** Decoding of the 32-bit logical-drive bitmask that Windows reports
    (the result of GetLogicalDrives and the unit mask of a volume broadcast)
    into the string of drive letters it names. Bit i stands for the drive
    whose letter is 'A' + i. */
module VolumeLetters {

  /** How many letters the decoder visits: from 'A' up to, but not including,
      'Z'. Bit 25 (drive Z) is therefore never reported. */
  const LetterCount: nat := 25

  /** The bits of a mask the decoder reads: bits 0 to 24. */
  const LowBits: bv32 := 0x1FF_FFFF

  /** Bit i of a DWORD mask: `(mask >> i) & 1` is set. */
  predicate Bit(mask: bv32, i: bv32)
    requires i < 32
  {
    (mask >> i) & 1 == 1
  }

  /** The bit that stands for drive letter number i. */
  predicate DriveBit(mask: bv32, i: nat)
    requires i < LetterCount
  {
    Bit(mask, i as bv32)
  }

  /** The drive letter that bit i stands for. */
  function Letter(i: nat): (c: char)
    requires i < LetterCount
    ensures 'A' <= c <= 'Y' && c as int - 'A' as int == i
  {
    ('A' as int + i) as char
  }

  /** The specification of the decoder: c is reported for `mask` exactly when
      it is one of the letters the loop visits and its bit is set. */
  predicate IsReported(mask: bv32, c: char) {
    'A' <= c <= 'Y' && DriveBit(mask, c as int - 'A' as int)
  }

  predicate Ascending(s: string) {
    forall i, j :: 0 <= i < j < |s| ==> s[i] < s[j]
  }

  /** The letters of drives 0 .. n-1 whose bit is set, lowest first. */
  function LettersBelow(mask: bv32, n: nat): seq<char>
    requires n <= LetterCount
  {
    if n == 0 then []
    else LettersBelow(mask, n - 1) + (if DriveBit(mask, n - 1) then [Letter(n - 1)] else [])
  }

  /** What the decoder returns for `mask`. */
  function Unmasked(mask: bv32): string {
    LettersBelow(mask, LetterCount)
  }

  lemma {:induction false} LettersBelowMembers(mask: bv32, n: nat, c: char)
    requires n <= LetterCount
    ensures c in LettersBelow(mask, n) <==>
              'A' <= c && c as int - 'A' as int < n && DriveBit(mask, c as int - 'A' as int)
  {
    if n > 0 {
      LettersBelowMembers(mask, n - 1, c);
    }
  }

  lemma {:induction false} LettersBelowShape(mask: bv32, n: nat)
    requires n <= LetterCount
    ensures Ascending(LettersBelow(mask, n))
    ensures |LettersBelow(mask, n)| <= n
  {
    if n > 0 {
      LettersBelowShape(mask, n - 1);
      var prefix := LettersBelow(mask, n - 1);
      forall k | 0 <= k < |prefix|
        ensures prefix[k] < Letter(n - 1)
      {
        LettersBelowMembers(mask, n - 1, prefix[k]);
      }
    }
  }

  lemma {:induction false} LettersBelowAgree(m1: bv32, m2: bv32, n: nat)
    requires n <= LetterCount
    requires forall i :: 0 <= i < n ==> DriveBit(m1, i) == DriveBit(m2, i)
    ensures LettersBelow(m1, n) == LettersBelow(m2, n)
  {
    if n > 0 {
      LettersBelowAgree(m1, m2, n - 1);
    }
  }

  lemma {:induction false} LettersBelowZero(n: nat)
    requires n <= LetterCount
    ensures LettersBelow(0, n) == []
  {
    if n > 0 {
      LettersBelowZero(n - 1);
    }
  }

  /** A letter is in the decoded string exactly when it lies in 'A'..'Y' and
      its bit is set; in particular 'Z' never appears. */
  lemma UnmaskedMembers(mask: bv32, c: char)
    ensures c in Unmasked(mask) <==> IsReported(mask, c)
    ensures 'Z' !in Unmasked(mask)
  {
    LettersBelowMembers(mask, LetterCount, c);
    LettersBelowMembers(mask, LetterCount, 'Z');
  }

  /** The decoded string is strictly ascending, so it has no repeated letter,
      and it is at most 25 letters long. */
  lemma UnmaskedShape(mask: bv32)
    ensures Ascending(Unmasked(mask))
    ensures forall i, j :: 0 <= i < j < |Unmasked(mask)| ==> Unmasked(mask)[i] != Unmasked(mask)[j]
    ensures |Unmasked(mask)| <= LetterCount
  {
    LettersBelowShape(mask, LetterCount);
  }

  lemma XorBit(m1: bv32, m2: bv32, i: bv32)
    requires i < 32
    ensures Bit(m1, i) == Bit(m2, i) <==> !Bit(m1 ^ m2, i)
  {
  }

  lemma LowBitsClear(x: bv32)
    requires forall i: bv32 :: i < 25 ==> !Bit(x, i)
    ensures x & LowBits == 0
  {
    assert !Bit(x, 0) && !Bit(x, 1) && !Bit(x, 2) && !Bit(x, 3) && !Bit(x, 4);
    assert !Bit(x, 5) && !Bit(x, 6) && !Bit(x, 7) && !Bit(x, 8) && !Bit(x, 9);
    assert !Bit(x, 10) && !Bit(x, 11) && !Bit(x, 12) && !Bit(x, 13) && !Bit(x, 14);
    assert !Bit(x, 15) && !Bit(x, 16) && !Bit(x, 17) && !Bit(x, 18) && !Bit(x, 19);
    assert !Bit(x, 20) && !Bit(x, 21) && !Bit(x, 22) && !Bit(x, 23) && !Bit(x, 24);
  }

  lemma LowBit(m: bv32, j: bv32)
    requires j < 25
    ensures Bit(m, j) == Bit(m & LowBits, j)
  {
  }

  lemma {:induction false} LowBitsEqualAgree(m1: bv32, m2: bv32, i: nat)
    requires i < LetterCount && m1 & LowBits == m2 & LowBits
    ensures DriveBit(m1, i) == DriveBit(m2, i)
  {
    var j := i as bv32;
    LowBit(m1, j);
    LowBit(m2, j);
  }

  lemma XorDriveBit(m1: bv32, m2: bv32, i: bv32)
    requires i < 25 && DriveBit(m1, i as int) == DriveBit(m2, i as int)
    ensures !Bit(m1 ^ m2, i)
  {
    assert (i as int) as bv32 == i;
    XorBit(m1, m2, i);
  }

  lemma AgreeLowBitsEqual(m1: bv32, m2: bv32)
    requires forall i :: 0 <= i < LetterCount ==> DriveBit(m1, i) == DriveBit(m2, i)
    ensures m1 & LowBits == m2 & LowBits
  {
    var x := m1 ^ m2;
    forall i: bv32 | i < 25
      ensures !Bit(x, i)
    {
      XorDriveBit(m1, m2, i);
    }
    LowBitsClear(x);
  }

  /** Two masks decode to the same string exactly when they agree on bits 0
      to 24: bit 25 (drive Z) and every higher bit never affect the result,
      and every lower bit does. */
  lemma UnmaskedDeterminesLowBits(m1: bv32, m2: bv32)
    ensures Unmasked(m1) == Unmasked(m2) <==> m1 & LowBits == m2 & LowBits
  {
    if Unmasked(m1) == Unmasked(m2) {
      forall i | 0 <= i < LetterCount
        ensures DriveBit(m1, i) == DriveBit(m2, i)
      {
        UnmaskedMembers(m1, Letter(i));
        UnmaskedMembers(m2, Letter(i));
      }
      AgreeLowBitsEqual(m1, m2);
    }
    if m1 & LowBits == m2 & LowBits {
      forall i | 0 <= i < LetterCount
        ensures DriveBit(m1, i) == DriveBit(m2, i)
      {
        LowBitsEqualAgree(m1, m2, i);
      }
      LettersBelowAgree(m1, m2, LetterCount);
    }
  }

  /** Only the 25 low bits are read. */
  lemma UnmaskedIgnoresHighBits(mask: bv32)
    ensures Unmasked(mask) == Unmasked(mask & LowBits)
  {
    assert (mask & LowBits) & LowBits == mask & LowBits;
    UnmaskedDeterminesLowBits(mask, mask & LowBits);
  }

  /** The decoded string is empty (the caller then reports that no volumes
      were mounted) exactly when none of bits 0 to 24 is set; the zero mask
      and a mask naming only drive Z both decode to "". */
  lemma UnmaskedEmpty(mask: bv32)
    ensures Unmasked(mask) == [] <==> mask & LowBits == 0
    ensures Unmasked(0) == [] && Unmasked(1 << 25) == []
  {
    LettersBelowZero(LetterCount);
    UnmaskedDeterminesLowBits(mask, 0);
    UnmaskedDeterminesLowBits(1 << 25, 0);
  }

  /** The decoder as the source writes it: a loop over the letters 'A' to 'Y'
      (the guard is `letter < 'Z'`) that appends each letter whose bit is set
      to the accumulated string. */
  method UnmaskVolumeLetters(mask: bv32) returns (ret: string)
    ensures ret == Unmasked(mask)
    ensures forall c :: c in ret <==> IsReported(mask, c)
    ensures Ascending(ret) && |ret| <= LetterCount
  {
    ret := "";
    var letter := 'A';
    while letter < 'Z'
      invariant 'A' <= letter <= 'Z'
      invariant ret == LettersBelow(mask, letter as int - 'A' as int)
    {
      if DriveBit(mask, letter as int - 'A' as int) {
        ret := ret + [letter];
      }
      letter := (letter as int + 1) as char;
    }
    forall c ensures c in ret <==> IsReported(mask, c) {
      UnmaskedMembers(mask, c);
    }
    UnmaskedShape(mask);
  }
}
