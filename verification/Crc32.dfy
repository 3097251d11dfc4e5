/**
  The table-driven CRC-32 against bit-serial division. The code keeps the shift register reflected
  (lowest bit first) and works through a table of 256 remainders; the reference feeds one message
  bit at a time, lowest bit of each byte first, into the unreflected register of the polynomial.
 */
module Crc32 {

  // ---------------------------------------------------------------------------------------
  // Bit reversal

  /** Exchanges nibbles, then bit pairs, then bits. */
  function ReverseByte(b: bv8): bv8 {
    var b := ((b & 0xF0) >> 4) | ((b & 0x0F) << 4);
    var b := ((b & 0xCC) >> 2) | ((b & 0x33) << 2);
    ((b & 0xAA) >> 1) | ((b & 0x55) << 1)
  }

  /** The reversal of all 32 bits. */
  function Reflect(x: bv32): bv32 {
    var x := (x >> 16) | (x << 16);
    var x := ((x & 0xFF00_FF00) >> 8) | ((x & 0x00FF_00FF) << 8);
    var x := ((x & 0xF0F0_F0F0) >> 4) | ((x & 0x0F0F_0F0F) << 4);
    var x := ((x & 0xCCCC_CCCC) >> 2) | ((x & 0x3333_3333) << 2);
    ((x & 0xAAAA_AAAA) >> 1) | ((x & 0x5555_5555) << 1)
  }

  lemma ReflectTwice(x: bv32)
    ensures Reflect(Reflect(x)) == x
  {
  }

  lemma ReflectIsLinear(x: bv32, y: bv32)
    ensures Reflect(x ^ y) == Reflect(x) ^ Reflect(y)
  {
  }

  lemma ReflectTurnsShift(x: bv32)
    ensures Reflect(x >> 1) == Reflect(x) << 1
  {
  }

  lemma ReflectEnds(x: bv32)
    ensures x & 1 == 1 <==> Reflect(x) & 0x8000_0000 != 0
  {
  }

  lemma ReverseByteReflects(b: bv8)
    ensures ReverseByte(b) as bv32 == Reflect(b as bv32) >> 24
  {
  }

  method ReversePolynomial(polynomial: bv32) returns (rev: bv32)
    ensures rev == Reflect(polynomial)
  {
    rev := 0;
    var p, i := polynomial, 0;
    while i < 4
      invariant 0 <= i <= 4
      invariant i == 0 ==> rev == 0 && p == polynomial
      invariant i == 1 ==> rev == Reflect(polynomial & 0xFF) >> 24 && p == polynomial >> 8
      invariant i == 2 ==> rev == Reflect(polynomial & 0xFFFF) >> 16 && p == polynomial >> 16
      invariant i == 3 ==> rev == Reflect(polynomial & 0xFF_FFFF) >> 8 && p == polynomial >> 24
      invariant i == 4 ==> rev == Reflect(polynomial)
    {
      ReverseByteReflects((p & 0xFF) as bv8);
      rev := (rev << 8) | (ReverseByte((p & 0xFF) as bv8) as bv32);
      p := p >> 8;
      i := i + 1;
    }
  }

  // ---------------------------------------------------------------------------------------
  // The reflected register. The bit operations are named so that proofs about the register can
  // treat them as opaque and leave bit-level facts to lemmas of their own.

  function Xor(x: bv32, y: bv32): bv32 { x ^ y }
  function Half(x: bv32): bv32 { x >> 1 }
  predicate Odd(x: bv32) { x & 1 == 1 }

  /** One shift of the reflected register. */
  function Shift(rev: bv32, x: bv32): bv32 {
    if Odd(x) then Xor(Half(x), rev) else Half(x)
  }

  function Shifts(rev: bv32, x: bv32, n: nat): bv32
    decreases n
  {
    if n == 0 then x else Shifts(rev, Shift(rev, x), n - 1)
  }

  lemma XorSame(x: bv32, y: bv32, r: bv32)
    ensures Xor(Xor(x, r), Xor(y, r)) == Xor(x, y)
  {
    assert (x ^ r) ^ (y ^ r) == x ^ y;
  }

  lemma XorRight(x: bv32, y: bv32, r: bv32)
    ensures Xor(x, Xor(y, r)) == Xor(Xor(x, y), r)
  {
    assert x ^ (y ^ r) == (x ^ y) ^ r;
  }

  lemma XorCommutes(x: bv32, y: bv32)
    ensures Xor(x, y) == Xor(y, x)
  {
    assert x ^ y == y ^ x;
  }

  lemma XorAlgebra(x: bv32, y: bv32, r: bv32)
    ensures Xor(Xor(x, r), Xor(y, r)) == Xor(x, y)
    ensures Xor(Xor(x, r), y) == Xor(Xor(x, y), r)
    ensures Xor(x, Xor(y, r)) == Xor(Xor(x, y), r)
  {
    hide Xor;
    XorSame(x, y, r);
    XorRight(x, y, r);
    XorRight(x, r, y);
    XorCommutes(r, y);
  }

  lemma XorParts(x: bv32, y: bv32)
    ensures Half(Xor(x, y)) == Xor(Half(x), Half(y))
    ensures Odd(Xor(x, y)) <==> Odd(x) != Odd(y)
  {
  }

  /** Shifting distributes over exclusive or. */
  lemma ShiftIsLinear(rev: bv32, x: bv32, y: bv32)
    ensures Shift(rev, Xor(x, y)) == Xor(Shift(rev, x), Shift(rev, y))
  {
    hide Xor, Half, Odd;
    XorParts(x, y);
    XorAlgebra(Half(x), Half(y), rev);
  }

  lemma {:induction false} ShiftsAreLinear(rev: bv32, x: bv32, y: bv32, n: nat)
    ensures Shifts(rev, Xor(x, y), n) == Xor(Shifts(rev, x, n), Shifts(rev, y, n))
    decreases n
  {
    hide Xor, Shift;
    if n > 0 {
      ShiftIsLinear(rev, x, y);
      ShiftsAreLinear(rev, Shift(rev, x), Shift(rev, y), n - 1);
    }
  }

  lemma ClearByteIsEven(x: bv32)
    requires x & 0xFF == 0
    ensures !Odd(x) && !Odd(Half(x)) && !Odd(Half(Half(x))) && !Odd(Half(Half(Half(x))))
    ensures Half(Half(Half(Half(x)))) & 0xF == 0
  {
  }

  lemma ClearNibbleIsEven(x: bv32)
    requires x & 0xF == 0
    ensures !Odd(x) && !Odd(Half(x)) && !Odd(Half(Half(x))) && !Odd(Half(Half(Half(x))))
    ensures Half(Half(Half(Half(x)))) == x >> 4
  {
  }

  /** Four shifts of a register whose low four bits are clear move it down unchanged. */
  lemma ShiftsOfClearNibble(rev: bv32, x: bv32)
    requires x & 0xF == 0
    ensures Shifts(rev, x, 4) == x >> 4
  {
    ClearNibbleIsEven(x);
    FourEvenShifts(rev, x, 0);
  }

  lemma FourEvenShifts(rev: bv32, x: bv32, n: nat)
    requires !Odd(x) && !Odd(Half(x)) && !Odd(Half(Half(x))) && !Odd(Half(Half(Half(x))))
    ensures Shifts(rev, x, n + 4) == Shifts(rev, Half(Half(Half(Half(x)))), n)
  {
    hide Odd, Half, Xor;
    assert Shifts(rev, x, n + 4) == Shifts(rev, Half(x), n + 3);
    assert Shifts(rev, Half(x), n + 3) == Shifts(rev, Half(Half(x)), n + 2);
    assert Shifts(rev, Half(Half(x)), n + 2) == Shifts(rev, Half(Half(Half(x))), n + 1);
  }

  lemma NibbleShifts(x: bv32)
    ensures Half(Half(Half(Half(x)))) >> 4 == x >> 8
  {
  }

  /** Eight shifts of a register whose low byte is clear move it down unchanged. */
  lemma ShiftsOfClearByte(rev: bv32, x: bv32)
    requires x & 0xFF == 0
    ensures Shifts(rev, x, 8) == x >> 8
  {
    hide Shifts, Half, Odd;
    ClearByteIsEven(x);
    FourEvenShifts(rev, x, 4);
    ShiftsOfClearNibble(rev, Half(Half(Half(Half(x)))));
    NibbleShifts(x);
  }

  /** The register after one message byte, bit by bit. */
  function AddByte(rev: bv32, crc: bv32, b: bv8): bv32 {
    Shifts(rev, Xor(crc, b as bv32), 8)
  }

  function AddBytes(rev: bv32, crc: bv32, data: seq<bv8>): bv32
    decreases |data|
  {
    if data == [] then crc
    else AddByte(rev, AddBytes(rev, crc, data[..|data| - 1]), data[|data| - 1])
  }

  function LowPart(crc: bv32, b: bv8): bv32 { (b ^ ((crc & 0xFF) as bv8)) as bv32 }
  function HighPart(crc: bv32): bv32 { crc & 0xFFFF_FF00 }

  lemma SplitRegister(crc: bv32, b: bv8)
    ensures Xor(crc, b as bv32) == Xor(LowPart(crc, b), HighPart(crc))
    ensures HighPart(crc) & 0xFF == 0
    ensures HighPart(crc) >> 8 == crc >> 8
  {
  }

  /** One table lookup does the work of eight shifts, for every polynomial. */
  lemma LookupIsEightShifts(rev: bv32, crc: bv32, b: bv8)
    ensures Xor(Shifts(rev, LowPart(crc, b), 8), crc >> 8) == AddByte(rev, crc, b)
  {
    hide Xor, Shifts, LowPart, HighPart;
    SplitRegister(crc, b);
    ShiftsAreLinear(rev, LowPart(crc, b), HighPart(crc), 8);
    ShiftsOfClearByte(rev, HighPart(crc));
  }

  /** Adding data in pieces is adding the concatenation. */
  lemma {:induction false} AddingInPieces(rev: bv32, crc: bv32, first: seq<bv8>, second: seq<bv8>)
    ensures AddBytes(rev, AddBytes(rev, crc, first), second) == AddBytes(rev, crc, first + second)
    decreases |second|
  {
    hide AddByte;
    if second == [] {
      assert first + second == first;
    } else {
      var n := |second| - 1;
      AddingInPieces(rev, crc, first, second[..n]);
      assert (first + second)[..|first + second| - 1] == first + second[..n];
    }
  }

  // ---------------------------------------------------------------------------------------
  // The reference: one message bit at a time into the unreflected register

  predicate TopBit(reg: bv32) { reg & 0x8000_0000 != 0 }
  function Double(reg: bv32): bv32 { reg << 1 }

  /** Long division: the bit shifted out decides whether the polynomial is subtracted. */
  function Feed(polynomial: bv32, reg: bv32, bit: bool): bv32 {
    if TopBit(reg) != bit then Xor(Double(reg), polynomial) else Double(reg)
  }

  predicate LowBit(b: bv8) { b & 1 == 1 }
  function HalfByte(b: bv8): bv8 { b >> 1 }

  /** Feeds the n lowest bits of b, lowest first. */
  function FeedBits(polynomial: bv32, reg: bv32, b: bv8, n: nat): bv32
    decreases n
  {
    if n == 0 then reg else FeedBits(polynomial, Feed(polynomial, reg, LowBit(b)), HalfByte(b), n - 1)
  }

  function FeedBytes(polynomial: bv32, reg: bv32, data: seq<bv8>): bv32
    decreases |data|
  {
    if data == [] then reg
    else FeedBits(polynomial, FeedBytes(polynomial, reg, data[..|data| - 1]), data[|data| - 1], 8)
  }

  lemma ReflectParts(x: bv32, y: bv32)
    ensures Reflect(Half(x)) == Double(Reflect(x))
    ensures Odd(x) <==> TopBit(Reflect(x))
    ensures Reflect(Xor(x, y)) == Xor(Reflect(x), Reflect(y))
  {
    hide Reflect;
    ReflectTurnsShift(x);
    ReflectEnds(x);
    ReflectIsLinear(x, y);
  }

  lemma ByteParts(b: bv8)
    ensures Half(b as bv32) == HalfByte(b) as bv32
    ensures Odd(b as bv32) <==> LowBit(b)
  {
  }

  /** Shifting a register that already holds the message bits is feeding the lowest one and keeping the rest. */
  lemma ShiftFeeds(polynomial: bv32, crc: bv32, b: bv8)
    ensures var next := if Odd(crc) != LowBit(b) then Xor(Half(crc), Reflect(polynomial)) else Half(crc);
            && Shift(Reflect(polynomial), Xor(crc, b as bv32)) == Xor(next, HalfByte(b) as bv32)
            && Reflect(next) == Feed(polynomial, Reflect(crc), LowBit(b))
  {
    hide Xor, Half, Odd, Reflect, TopBit, Double, LowBit, HalfByte;
    var rev := Reflect(polynomial);
    XorParts(crc, b as bv32);
    ByteParts(b);
    XorAlgebra(Half(crc), HalfByte(b) as bv32, rev);
    ReflectParts(crc, crc);
    ReflectParts(Half(crc), rev);
    ReflectTwice(polynomial);
  }

  lemma {:induction false} ShiftsFeedBits(polynomial: bv32, crc: bv32, b: bv8, n: nat) returns (rest: bv8)
    requires n <= 8
    ensures Reflect(Xor(Shifts(Reflect(polynomial), Xor(crc, b as bv32), n), rest as bv32))
         == FeedBits(polynomial, Reflect(crc), b, n)
    ensures rest == ShiftByte(b, n)
    decreases n
  {
    hide Xor, Half, Odd, Reflect, Shift, Feed, LowBit, HalfByte;
    if n == 0 {
      rest := b;
      XorCancels(crc, b as bv32);
    } else {
      ShiftFeeds(polynomial, crc, b);
      var next := if Odd(crc) != LowBit(b) then Xor(Half(crc), Reflect(polynomial)) else Half(crc);
      rest := ShiftsFeedBits(polynomial, next, HalfByte(b), n - 1);
    }
  }

  function ShiftByte(b: bv8, n: nat): bv8
    decreases n
  {
    if n == 0 then b else ShiftByte(HalfByte(b), n - 1)
  }

  lemma XorCancels(x: bv32, y: bv32)
    ensures Xor(Xor(x, y), y) == x
    ensures Xor(x, 0) == x
  {
    assert (x ^ y) ^ y == x;
    assert x ^ 0 == x;
  }

  lemma ShiftByteClears(b: bv8)
    ensures ShiftByte(b, 8) == 0
  {
    assert HalfByte(HalfByte(HalfByte(HalfByte(HalfByte(HalfByte(HalfByte(HalfByte(b)))))))) == 0;
    assert ShiftByte(b, 8) == ShiftByte(HalfByte(HalfByte(HalfByte(HalfByte(b)))), 4);
  }

  /** Eight shifts of the reflected register are eight steps of the division, mirrored. */
  lemma AddByteIsDivision(polynomial: bv32, crc: bv32, b: bv8)
    ensures Reflect(AddByte(Reflect(polynomial), crc, b)) == FeedBits(polynomial, Reflect(crc), b, 8)
  {
    hide Xor, Reflect, Shifts, FeedBits, ShiftByte;
    var rest := ShiftsFeedBits(polynomial, crc, b, 8);
    ShiftByteClears(b);
    XorCancels(Shifts(Reflect(polynomial), Xor(crc, b as bv32), 8), 0);
  }

  lemma {:induction false} AddBytesIsDivision(polynomial: bv32, crc: bv32, data: seq<bv8>)
    ensures Reflect(AddBytes(Reflect(polynomial), crc, data)) == FeedBytes(polynomial, Reflect(crc), data)
    decreases |data|
  {
    hide Reflect, AddByte, FeedBits;
    if data != [] {
      var n := |data| - 1;
      AddBytesIsDivision(polynomial, crc, data[..n]);
      AddByteIsDivision(polynomial, AddBytes(Reflect(polynomial), crc, data[..n]), data[n]);
    }
  }

  // ---------------------------------------------------------------------------------------
  // Polynomials with coefficients 0 and 1, as the sets of their exponents

  type Polynomial = set<nat>

  function Sum(a: Polynomial, b: Polynomial): Polynomial { (a - b) + (b - a) }
  function TimesX(a: Polynomial): Polynomial { set i | i in a :: i + 1 }
  function Term(c: bool, p: Polynomial): Polynomial { if c then p else {} }

  /** The product of p with the polynomial whose coefficients, highest first, are q. */
  function Product(q: seq<bool>, p: Polynomial): Polynomial {
    if q == [] then {} else Sum(TimesX(Product(q[..|q| - 1], p)), Term(q[|q| - 1], p))
  }

  predicate Bit(x: bv32, i: nat) {
    if i == 0 then Odd(x) else Bit(Half(x), i - 1)
  }

  /** The polynomial of degree below 32 whose coefficients are the bits of a register. */
  function Coefficients(x: bv32): Polynomial {
    set i: nat | i < 32 && Bit(x, i)
  }

  /** The polynomial that a 32-bit word stands for: its highest coefficient is not stored. */
  function Generator(polynomial: bv32): Polynomial {
    {32} + Coefficients(polynomial)
  }

  /** The message, first bit highest, times x^32, added to the initial register times x^n. */
  function Dividend(reg: bv32, message: seq<bool>): Polynomial {
    Sum(set i | i in Coefficients(reg) :: i + |message|,
        set k | 0 <= k < |message| && message[k] :: 31 + |message| - k)
  }

  /** The dividend is a multiple of the generator plus the polynomial, of smaller degree, of a register. */
  ghost predicate IsRemainder(polynomial: bv32, reg: bv32, message: seq<bool>, rest: bv32) {
    exists q: seq<bool> :: Dividend(reg, message) == Sum(Product(q, Generator(polynomial)), Coefficients(rest))
  }

  function FeedAll(polynomial: bv32, reg: bv32, message: seq<bool>): bv32 {
    if message == [] then reg
    else Feed(polynomial, FeedAll(polynomial, reg, message[..|message| - 1]), message[|message| - 1])
  }

  lemma {:induction false} BitOfXor(x: bv32, y: bv32, i: nat)
    ensures Bit(Xor(x, y), i) <==> Bit(x, i) != Bit(y, i)
    decreases i
  {
    hide Xor, Half, Odd;
    XorParts(x, y);
    if i > 0 { BitOfXor(Half(x), Half(y), i - 1); }
  }

  function And(x: bv32, y: bv32): bv32 { x & y }

  lemma AndParts(x: bv32, y: bv32)
    ensures Half(And(x, y)) == And(Half(x), Half(y)) && (Odd(And(x, y)) <==> Odd(x) && Odd(y))
  {
  }

  lemma {:induction false} BitOfAnd(x: bv32, y: bv32, i: nat)
    ensures Bit(And(x, y), i) <==> Bit(x, i) && Bit(y, i)
    decreases i
  {
    hide And, Half, Odd;
    AndParts(x, y);
    if i > 0 { BitOfAnd(Half(x), Half(y), i - 1); }
  }

  lemma DoubleParts(x: bv32)
    ensures !Odd(Double(x)) && Half(Double(x)) == And(x, 0x7FFF_FFFF)
  {
  }

  predicate AllOnes(x: bv32, n: nat)
    decreases n
  {
    n == 0 || (Odd(x) && AllOnes(Half(x), n - 1))
  }

  lemma {:induction false} BitOfOnes(x: bv32, n: nat, i: nat)
    requires AllOnes(x, n) && i < n
    ensures Bit(x, i)
    decreases i
  {
    if i > 0 { BitOfOnes(Half(x), n - 1, i - 1); }
  }

  lemma ThirtyOneOnes()
    ensures AllOnes(0x7FFF_FFFF, 31)
  {
    assert AllOnes(0x7F, 7);
    assert AllOnes(0x7FFF, 15);
    assert AllOnes(0x7F_FFFF, 23);
  }

  lemma BitOfDouble(x: bv32, i: nat)
    requires i < 32
    ensures Bit(Double(x), i) <==> i > 0 && Bit(x, i - 1)
  {
    hide And, Half, Odd, Double;
    DoubleParts(x);
    if i > 0 {
      BitOfAnd(x, 0x7FFF_FFFF, i - 1);
      ThirtyOneOnes();
      BitOfOnes(0x7FFF_FFFF, 31, i - 1);
    }
  }

  function DropByte(x: bv32): bv32 { x >> 8 }

  lemma EightHalves(x: bv32)
    ensures Half(Half(Half(Half(Half(Half(Half(Half(x)))))))) == DropByte(x)
  {
  }

  lemma BitFourUp(x: bv32, i: nat)
    ensures Bit(x, i + 4) <==> Bit(Half(Half(Half(Half(x)))), i)
  {
    hide Half, Odd;
    assert Bit(x, i + 4) <==> Bit(Half(Half(x)), i + 2);
  }

  lemma BitEightUp(x: bv32, i: nat)
    ensures Bit(x, i + 8) <==> Bit(DropByte(x), i)
  {
    hide Half, Odd, Bit, DropByte;
    EightHalves(x);
    BitFourUp(x, i + 4);
    BitFourUp(Half(Half(Half(Half(x)))), i);
  }

  lemma BitSeven(x: bv32)
    ensures Bit(x, 7) <==> Odd(Half(Half(Half(Half(Half(Half(Half(x))))))))
  {
    hide Half, Odd;
    BitFourUp(x, 3);
    var y := Half(Half(Half(Half(x))));
    assert Bit(y, 3) <==> Bit(Half(Half(y)), 1);
    assert Bit(Half(Half(y)), 1) <==> Bit(Half(Half(Half(y))), 0);
  }

  lemma TopIsBit31(x: bv32)
    ensures TopBit(x) <==> Bit(x, 31)
  {
    hide Half, Odd, Bit, TopBit, DropByte;
    BitEightUp(x, 23);
    BitEightUp(DropByte(x), 15);
    BitEightUp(DropByte(DropByte(x)), 7);
    BitSeven(DropByte(DropByte(DropByte(x))));
    LastOfTop(x);
  }

  lemma LastOfTop(x: bv32)
    ensures TopBit(x) <==> Odd(Half(Half(Half(Half(Half(Half(Half(DropByte(DropByte(DropByte(x)))))))))))
  {
  }

  /** One step of the register is one step of the long division. */
  lemma FeedDivides(polynomial: bv32, reg: bv32, bit: bool)
    ensures Sum(TimesX(Coefficients(reg)), Term(bit, {32}))
      == Sum(Term(TopBit(reg) != bit, Generator(polynomial)), Coefficients(Feed(polynomial, reg, bit)))
  {
    hide Xor, Double, TopBit, Bit;
    var next := Feed(polynomial, reg, bit);
    TopIsBit31(reg);
    forall i: nat | i < 32 ensures Bit(next, i) <==>
      (i > 0 && Bit(reg, i - 1)) != (TopBit(reg) != bit && Bit(polynomial, i))
    {
      BitOfDouble(reg, i);
      BitOfXor(Double(reg), polynomial, i);
    }
    var left := Sum(TimesX(Coefficients(reg)), Term(bit, {32}));
    var right := Sum(Term(TopBit(reg) != bit, Generator(polynomial)), Coefficients(next));
    forall i: nat ensures i in left <==> i in right {
      TimesXHas(Coefficients(reg), i);
    }
  }

  lemma TimesXHas(a: Polynomial, i: nat)
    ensures i in TimesX(a) <==> i > 0 && i - 1 in a
  {
    if i > 0 && i - 1 in a { assert (i - 1) + 1 in TimesX(a); }
  }

  lemma TimesXOfSum(a: Polynomial, b: Polynomial)
    ensures TimesX(Sum(a, b)) == Sum(TimesX(a), TimesX(b))
  {
    forall i: nat ensures i in TimesX(Sum(a, b)) <==> i in Sum(TimesX(a), TimesX(b)) {
      TimesXHas(Sum(a, b), i);
      TimesXHas(a, i);
      TimesXHas(b, i);
    }
  }

  lemma SumAssociates(a: Polynomial, b: Polynomial, c: Polynomial)
    ensures Sum(Sum(a, b), c) == Sum(a, Sum(b, c))
  {
  }

  lemma DividendHas(reg: bv32, message: seq<bool>, i: nat)
    ensures var n := |message|;
      i in Dividend(reg, message) <==>
        (i >= n && i - n in Coefficients(reg)) != (31 < i <= 31 + n && message[31 + n - i])
  {
    hide Coefficients;
    var n := |message|;
    var high := set j | j in Coefficients(reg) :: j + n;
    var low := set k | 0 <= k < n && message[k] :: 31 + n - k;
    if i >= n && i - n in Coefficients(reg) { assert (i - n) + n in high; }
    if 31 < i <= 31 + n && message[31 + n - i] { assert 31 + n - (31 + n - i) in low; }
  }

  /** One more message bit: the dividend is multiplied by x and the bit added at x^32. */
  lemma DividendStep(reg: bv32, message: seq<bool>)
    requires message != []
    ensures var n := |message| - 1;
      Dividend(reg, message) == Sum(TimesX(Dividend(reg, message[..n])), Term(message[n], {32}))
  {
    hide Coefficients, Dividend, TimesX;
    var n := |message| - 1;
    var before, after := Dividend(reg, message[..n]), Dividend(reg, message);
    forall i: nat ensures i in after <==> i in Sum(TimesX(before), Term(message[n], {32})) {
      DividendHas(reg, message, i);
      TimesXHas(before, i);
      if i > 0 { DividendHas(reg, message[..n], i - 1); }
    }
  }

  lemma NoMessage(reg: bv32)
    ensures Dividend(reg, []) == Coefficients(reg)
  {
    hide Coefficients, Dividend;
    forall i: nat ensures i in Dividend(reg, []) <==> i in Coefficients(reg) { DividendHas(reg, [], i); }
  }

  /** The register fed with a message holds the remainder of the division, for every initial register. */
  lemma {:induction false} FeedAllDivides(polynomial: bv32, reg: bv32, message: seq<bool>) returns (q: seq<bool>)
    ensures Dividend(reg, message) ==
      Sum(Product(q, Generator(polynomial)), Coefficients(FeedAll(polynomial, reg, message)))
    decreases |message|
  {
    hide Dividend, Coefficients, Generator, Feed, TimesX;
    if message == [] {
      NoMessage(reg);
      q := [];
    } else {
      var n := |message| - 1;
      var g, bit := Generator(polynomial), message[n];
      var most := FeedAllDivides(polynomial, reg, message[..n]);
      var rest := FeedAll(polynomial, reg, message[..n]);
      var c := TopBit(rest) != bit;
      q := most + [c];
      assert q[..|q| - 1] == most;
      DividendStep(reg, message);
      TimesXOfSum(Product(most, g), Coefficients(rest));
      SumAssociates(TimesX(Product(most, g)), TimesX(Coefficients(rest)), Term(bit, {32}));
      FeedDivides(polynomial, rest, bit);
      SumAssociates(TimesX(Product(most, g)), Term(c, g), Coefficients(Feed(polynomial, rest, bit)));
    }
  }

  /** The bits of a message in the order they are sent: lowest bit of each byte first. */
  function BitsOf(data: seq<bv8>): seq<bool> {
    if data == [] then [] else BitsOf(data[..|data| - 1]) + ByteBits(data[|data| - 1], 8)
  }

  function ByteBits(b: bv8, n: nat): seq<bool>
    decreases n
  {
    if n == 0 then [] else [LowBit(b)] + ByteBits(HalfByte(b), n - 1)
  }

  lemma {:induction false} FeedAllMore(polynomial: bv32, reg: bv32, a: seq<bool>, b: seq<bool>)
    ensures FeedAll(polynomial, reg, a + b) == FeedAll(polynomial, FeedAll(polynomial, reg, a), b)
    decreases |b|
  {
    hide Feed;
    if b == [] {
      assert a + b == a;
    } else {
      FeedAllMore(polynomial, reg, a, b[..|b| - 1]);
      assert (a + b)[..|a + b| - 1] == a + b[..|b| - 1];
    }
  }

  lemma {:induction false} FeedBitsIsFeedAll(polynomial: bv32, reg: bv32, b: bv8, n: nat)
    ensures FeedBits(polynomial, reg, b, n) == FeedAll(polynomial, reg, ByteBits(b, n))
    decreases n
  {
    hide Feed, LowBit, HalfByte;
    if n > 0 {
      FeedBitsIsFeedAll(polynomial, Feed(polynomial, reg, LowBit(b)), HalfByte(b), n - 1);
      FeedAllMore(polynomial, reg, [LowBit(b)], ByteBits(HalfByte(b), n - 1));
      assert [LowBit(b)][..0] == [];
    }
  }

  lemma {:induction false} FeedBytesIsFeedAll(polynomial: bv32, reg: bv32, data: seq<bv8>)
    ensures FeedBytes(polynomial, reg, data) == FeedAll(polynomial, reg, BitsOf(data))
    decreases |data|
  {
    hide Feed, FeedBits, ByteBits;
    if data != [] {
      var n := |data| - 1;
      FeedBytesIsFeedAll(polynomial, reg, data[..n]);
      FeedBitsIsFeedAll(polynomial, FeedBytes(polynomial, reg, data[..n]), data[n], 8);
      FeedAllMore(polynomial, reg, BitsOf(data[..n]), ByteBits(data[n], 8));
    }
  }

  /** The register after any byte string is the remainder of dividing its polynomial by the generator. */
  lemma FeedBytesIsRemainder(polynomial: bv32, reg: bv32, data: seq<bv8>)
    ensures IsRemainder(polynomial, reg, BitsOf(data), FeedBytes(polynomial, reg, data))
  {
    hide FeedBytes, BitsOf, FeedAll, Dividend, Product, Coefficients, Generator, Sum;
    FeedBytesIsFeedAll(polynomial, reg, data);
    var q := FeedAllDivides(polynomial, reg, BitsOf(data));
  }

  // ---------------------------------------------------------------------------------------
  // The objects

  method ShiftOnce(rev: bv32, x: bv32) returns (y: bv32)
    ensures y == Shift(rev, x)
  {
    if x & 1 == 1 {
      y := (x >> 1) ^ rev;
    } else {
      y := x >> 1;
    }
  }

  /** The remainder of one byte value, by eight shifts. */
  method Remainder(rev: bv32, b: bv32) returns (remainder: bv32)
    ensures remainder == Shifts(rev, b, 8)
  {
    hide Shift;
    remainder := b;
    var bit := 8;
    while bit > 0
      invariant 0 <= bit <= 8
      invariant Shifts(rev, remainder, bit) == Shifts(rev, b, 8)
    {
      remainder := ShiftOnce(rev, remainder);
      bit := bit - 1;
    }
  }

  lemma LowPartIsIndex(crc: bv32, b: bv8)
    ensures var k := LowPart(crc, b) as int; k < 256 && k as bv32 == LowPart(crc, b)
  {
  }

  /** The remainders of all byte values. */
  class Crc32Polynomial {
    ghost const polynomial: bv32
    const table: array<bv32>

    ghost predicate Valid()
      reads this, table
    {
      && table.Length == 256
      && (forall i: nat :: i < 256 ==> table[i] == Shifts(Reflect(polynomial), i as bv32, 8))
    }

    constructor (polynomial: bv32)
      ensures Valid() && this.polynomial == polynomial && fresh(table)
    {
      hide Shifts, Reflect;
      var rev := ReversePolynomial(polynomial);
      var t := new bv32[256];
      var b := 0;
      while b < 256
        invariant 0 <= b <= 256 && fresh(t) && t.Length == 256
        invariant forall i: nat :: i < b ==> t[i] == Shifts(rev, i as bv32, 8)
      {
        t[b] := Remainder(rev, b as bv32);
        b := b + 1;
      }
      this.polynomial := polynomial;
      this.table := t;
    }
  }

  class Crc32 {
    const polynomial: Crc32Polynomial
    var crc: bv32
    /** Everything added since the last reset. */
    ghost var added: seq<bv8>

    ghost predicate Valid()
      reads this, polynomial, polynomial.table
    {
      polynomial.Valid() && crc == AddBytes(Reflect(polynomial.polynomial), 0xFFFF_FFFF, added)
    }

    constructor (polynomial: Crc32Polynomial)
      requires polynomial.Valid()
      ensures Valid() && this.polynomial == polynomial && added == []
    {
      this.polynomial := polynomial;
      crc, added := 0xFFFF_FFFF, [];
    }

    /** Forgets everything added. */
    method Reset()
      requires polynomial.Valid()
      modifies this
      ensures Valid() && added == []
    {
      crc, added := 0xFFFF_FFFF, [];
    }

    method Add(data: seq<bv8>)
      requires Valid()
      modifies this
      ensures Valid() && added == old(added) + data
    {
      hide Xor, Shifts, Reflect, LowPart, AddByte;
      ghost var rev := Reflect(polynomial.polynomial);
      var i := 0;
      while i < |data|
        invariant 0 <= i <= |data| && polynomial.Valid()
        invariant crc == AddBytes(rev, old(crc), data[..i]) && added == old(added)
      {
        LookupIsEightShifts(rev, crc, data[i]);
        LowPartIsIndex(crc, data[i]);
        assert data[..i + 1][..i] == data[..i];
        crc := Xor(polynomial.table[LowPart(crc, data[i]) as int], crc >> 8);
        i := i + 1;
      }
      assert data[..i] == data;
      AddingInPieces(rev, 0xFFFF_FFFF, added, data);
      added := added + data;
    }

    /** The complement of the mirrored remainder of everything added. */
    method Compute() returns (r: bv32)
      requires Valid()
      ensures r == Complement(Reflect(FeedBytes(polynomial.polynomial, 0xFFFF_FFFF, added)))
      ensures IsRemainder(polynomial.polynomial, 0xFFFF_FFFF, BitsOf(added), Reflect(Complement(r)))
    {
      hide Complement, Reflect, AddBytes, FeedBytes, IsRemainder, BitsOf;
      RegisterIsRemainder(polynomial.polynomial, crc, added);
      r := Complement(crc);
    }
  }

  lemma RegisterIsRemainder(polynomial: bv32, crc: bv32, added: seq<bv8>)
    requires crc == AddBytes(Reflect(polynomial), 0xFFFF_FFFF, added)
    ensures crc == Reflect(FeedBytes(polynomial, 0xFFFF_FFFF, added))
    ensures IsRemainder(polynomial, 0xFFFF_FFFF, BitsOf(added), Reflect(Complement(Complement(crc))))
  {
    hide Complement, Reflect, AddBytes, FeedBytes, IsRemainder, BitsOf;
    ChecksumIsDivision(polynomial, added, []);
    assert added + [] == added;
    AddsNothing(Reflect(polynomial), crc);
    ReflectTwice(FeedBytes(polynomial, 0xFFFF_FFFF, added));
    FeedBytesIsRemainder(polynomial, 0xFFFF_FFFF, added);
    NotTwice(crc);
  }

  function Complement(x: bv32): bv32 { !x }

  lemma NotTwice(x: bv32)
    ensures Complement(Complement(x)) == x
  {
  }

  lemma AddsNothing(rev: bv32, crc: bv32)
    ensures AddBytes(rev, crc, []) == crc
  {
  }

  /** The checksum of a message, however it is split into pieces, is the mirrored remainder of the division. */
  lemma ChecksumIsDivision(polynomial: bv32, first: seq<bv8>, second: seq<bv8>)
    ensures var rev := Reflect(polynomial);
            AddBytes(rev, AddBytes(rev, 0xFFFF_FFFF, first), second)
            == Reflect(FeedBytes(polynomial, 0xFFFF_FFFF, first + second))
  {
    hide Reflect, AddBytes, FeedBytes;
    var rev := Reflect(polynomial);
    AddingInPieces(rev, 0xFFFF_FFFF, first, second);
    AddBytesIsDivision(polynomial, 0xFFFF_FFFF, first + second);
    ReflectOnes();
    ReflectTwice(AddBytes(rev, 0xFFFF_FFFF, first + second));
  }

  lemma ReflectOnes()
    ensures Reflect(0xFFFF_FFFF) == 0xFFFF_FFFF
  {
  }
}
