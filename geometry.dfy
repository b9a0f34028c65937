// Pixel geometry of the four-digit seven-segment clock and its digit font.
// The same constants, segment map and font appear in src/main.cpp and in
// src/effects.h / src/effects.cpp; they are modelled here once.

module Geometry {

  const LedsPerSegment: nat := 3
  const SegmentsPerDigit: nat := 7
  const DigitCount: nat := 4
  /** 84 pixels belong to digit segments. */
  const TotalSegmentLeds: nat := DigitCount * SegmentsPerDigit * LedsPerSegment

  /** The blinking two-pixel separator between the hour and the minute digits. */
  const Display3Start: nat := 42
  const Display3Leds: nat := 2
  /** The spare pixel after the separator, always driven black. */
  const Display4Start: nat := 44
  const Display4Leds: nat := 1

  /** Length of the strip buffer. */
  const PixelCount: nat := 90
  /** Pixels 0 .. AddressedPixels - 1 are written by the renderer; 87..89 never are. */
  const AddressedPixels: nat := TotalSegmentLeds + Display3Leds + Display4Leds

  // Column order of the font table: G, B, A, F, E, D, C.
  const SegG: nat := 0
  const SegB: nat := 1
  const SegA: nat := 2
  const SegF: nat := 3
  const SegE: nat := 4
  const SegD: nat := 5
  const SegC: nat := 6

  /** DIGITS[10][7]: row n says which columns (in the order above) numeral n lights. */
  const Digits: seq<seq<int>> := [
    [0,1,1,1,1,1,1],
    [0,1,0,0,0,0,1],
    [1,1,1,0,1,1,0],
    [1,1,1,0,0,1,1],
    [1,1,0,1,0,0,1],
    [1,0,1,1,0,1,1],
    [1,0,1,1,1,1,1],
    [0,1,1,0,0,0,1],
    [1,1,1,1,1,1,1],
    [1,1,1,1,0,1,1]
  ]

  /** Whether numeral `number` lights font column `seg`. */
  predicate Lit(number: nat, seg: nat)
    requires number < 10 && seg < SegmentsPerDigit
  {
    Digits[number][seg] == 1
  }

  /** getSegmentStart: first pixel of the 3-pixel run of (digit slot, segment).
      Slots 2 and 3 are shifted by 3 to skip the separator and the spare. */
  function SegmentStart(digit: nat, segment: nat): (start: nat)
    ensures digit < DigitCount && segment < SegmentsPerDigit ==>
      start + LedsPerSegment <= AddressedPixels &&
      (digit < 2 ==> start + LedsPerSegment <= Display3Start) &&
      (digit >= 2 ==> Display4Start + Display4Leds <= start)
  {
    if digit < 2 then
      (digit * SegmentsPerDigit + segment) * LedsPerSegment
    else
      (digit * SegmentsPerDigit + segment) * LedsPerSegment + 3
  }

  /** What a pixel of the strip is used for. */
  datatype Region = Segment(slot: nat, seg: nat) | Separator | Spare | Unused

  /** The inverse of SegmentStart: which segment run, if any, pixel p belongs to. */
  function Owner(p: nat): (r: Region)
    ensures r.Segment? ==>
      r.slot < DigitCount && r.seg < SegmentsPerDigit &&
      SegmentStart(r.slot, r.seg) <= p < SegmentStart(r.slot, r.seg) + LedsPerSegment
    ensures r == Separator <==> Display3Start <= p < Display3Start + Display3Leds
    ensures r == Spare <==> p == Display4Start
    ensures r == Unused <==> AddressedPixels <= p
  {
    if p < Display3Start then
      Segment(p / 21, p % 21 / 3)
    else if p < Display3Start + Display3Leds then
      Separator
    else if p == Display4Start then
      Spare
    else if p < AddressedPixels then
      Segment((p - 3) / 21, (p - 3) % 21 / 3)
    else
      Unused
  }

  /** Every pixel of a segment run is owned by exactly that segment:
      together with Owner's contract, p is in the run of (s, k) iff Owner(p) == Segment(s, k). */
  lemma OwnerOfRun(s: nat, k: nat, p: nat)
    requires s < DigitCount && k < SegmentsPerDigit
    ensures Owner(p) == Segment(s, k) <==> SegmentStart(s, k) <= p < SegmentStart(s, k) + LedsPerSegment
  {
    if SegmentStart(s, k) <= p < SegmentStart(s, k) + LedsPerSegment {
      var q := if s < 2 then p else p - 3;
      assert q == 21 * s + 3 * k + (q - 21 * s - 3 * k);
      assert q / 21 == s;
      assert q % 21 == 3 * k + (q - 21 * s - 3 * k);
    }
  }

  /** The 28 segment runs are pairwise disjoint. */
  lemma RunsDisjoint(s1: nat, k1: nat, s2: nat, k2: nat, p: nat)
    requires s1 < DigitCount && k1 < SegmentsPerDigit
    requires s2 < DigitCount && k2 < SegmentsPerDigit
    requires (s1, k1) != (s2, k2)
    requires SegmentStart(s1, k1) <= p < SegmentStart(s1, k1) + LedsPerSegment
    ensures !(SegmentStart(s2, k2) <= p < SegmentStart(s2, k2) + LedsPerSegment)
  {
    OwnerOfRun(s1, k1, p);
    OwnerOfRun(s2, k2, p);
  }

  /** The separator and the spare sit exactly between slot 1 and slot 2, and the
      addressed pixels fit in the strip with three left over. */
  lemma LayoutConstants()
    ensures Display3Start == 2 * SegmentsPerDigit * LedsPerSegment
    ensures Display4Start == Display3Start + Display3Leds
    ensures SegmentStart(2, 0) == Display4Start + Display4Leds
    ensures SegmentStart(1, SegG + 6) + LedsPerSegment == Display3Start
    ensures AddressedPixels == 87 && AddressedPixels + 3 == PixelCount
  {
  }

  /** The seven segment names of a seven-segment digit. */
  datatype Letter = A | B | C | D | E | F | G

  /** The SEG_* constants: the font column that holds each segment. */
  function Column(l: Letter): (k: nat)
    ensures k < SegmentsPerDigit
  {
    match l
    case A => SegA
    case B => SegB
    case C => SegC
    case D => SegD
    case E => SegE
    case F => SegF
    case G => SegG
  }

  /** The segment stored in font column k. */
  function LetterAt(k: nat): Letter
    requires k < SegmentsPerDigit
  {
    [G, B, A, F, E, D, C][k]
  }

  /** Column is a bijection from the seven letters onto the columns 0..6,
      with LetterAt as its inverse. */
  lemma ColumnsArePermutation()
    ensures forall l1: Letter, l2: Letter :: Column(l1) == Column(l2) ==> l1 == l2
    ensures forall l: Letter :: LetterAt(Column(l)) == l
    ensures forall k :: 0 <= k < SegmentsPerDigit ==> Column(LetterAt(k)) == k
  {
  }

  /** The conventional seven-segment encoding of the numerals, by segment letter. */
  function StandardSegments(n: nat): set<Letter>
    requires n < 10
  {
    match n
    case 0 => {A, B, C, D, E, F}
    case 1 => {B, C}
    case 2 => {A, B, D, E, G}
    case 3 => {A, B, C, D, G}
    case 4 => {B, C, F, G}
    case 5 => {A, C, D, F, G}
    case 6 => {A, C, D, E, F, G}
    case 7 => {A, B, C}
    case 8 => {A, B, C, D, E, F, G}
    case _ => {A, B, C, D, F, G}
  }

  /** The font table, read through the SEG_* column order, is the conventional
      seven-segment encoding, and every entry is 0 or 1. */
  lemma FontIsStandard(n: nat, l: Letter)
    requires n < 10
    ensures Digits[n][Column(l)] == 0 || Digits[n][Column(l)] == 1
    ensures Lit(n, Column(l)) <==> l in StandardSegments(n)
  {
  }
}
