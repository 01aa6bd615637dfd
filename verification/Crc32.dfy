/** The checksum of packaged files: a bitwise loop without branches, against the
    table-driven form of section 8 of RFC 1952. */
module Crc32 {
  /* ---------- words ---------- */

  function Xor(a: bv32, b: bv32): bv32 { a ^ b }

  function Half(c: bv32): bv32 { c >> 1 }

  predicate Odd(c: bv32) { c & 1 == 1 }

  const Polynomial: bv32 := 0xedb88320

  lemma XorHalf(a: bv32, b: bv32)
    ensures Half(Xor(a, b)) == Xor(Half(a), Half(b))
  {}

  lemma XorOdd(a: bv32, b: bv32)
    ensures Odd(Xor(a, b)) <==> Odd(a) != Odd(b)
  {}

  lemma XorAssociative(a: bv32, b: bv32, c: bv32)
    ensures Xor(Xor(a, b), c) == Xor(a, Xor(b, c))
  {}

  lemma XorCommutative(a: bv32, b: bv32)
    ensures Xor(a, b) == Xor(b, a)
  {}

  lemma XorSelf(a: bv32)
    ensures Xor(a, a) == 0 && Xor(0, a) == a && Xor(a, 0) == a
  {}

  /** A common part of two words leaves their sum. */
  lemma XorCommon(p: bv32, a: bv32, b: bv32)
    ensures Xor(Xor(p, a), Xor(p, b)) == Xor(a, b)
  {
    hide Xor;
    XorCommutative(p, a);
    XorAssociative(a, p, Xor(p, b));
    XorAssociative(p, p, b);
    XorSelf(p);
    XorSelf(b);
  }

  /** What is xored in can be taken out again. */
  lemma XorCancels(a: bv32, b: bv32, x: bv32)
    ensures Xor(a, x) == Xor(b, x) ==> a == b
    ensures Xor(x, a) == Xor(x, b) ==> a == b
  {}

  /* ---------- one bit ---------- */

  /** One turn of the inner loop. */
  function Shift(c: bv32): bv32 {
    (c >> 1) ^ (0xedb88320 & (0 - (c & 1)))
  }

  /** The same step as the standard writes it. */
  function TableShift(c: bv32): bv32 {
    if Odd(c) then Xor(Polynomial, Half(c)) else Half(c)
  }

  lemma ShiftIsTableShift(c: bv32)
    ensures Shift(c) == TableShift(c)
  {
    if c & 1 == 1 {} else { assert c & 1 == 0; }
  }

  lemma ShiftLinear(a: bv32, b: bv32)
    ensures Shift(Xor(a, b)) == Xor(Shift(a), Shift(b))
  {
    hide Shift, Xor, Half, Odd;
    ShiftIsTableShift(a);
    ShiftIsTableShift(b);
    ShiftIsTableShift(Xor(a, b));
    XorHalf(a, b);
    XorOdd(a, b);
    XorCommon(Polynomial, Half(a), Half(b));
    XorAssociative(Polynomial, Half(a), Half(b));
    XorAssociative(Half(a), Polynomial, Half(b));
    XorCommutative(Half(a), Polynomial);
  }

  lemma ShiftInjective(a: bv32, b: bv32)
    requires Shift(a) == Shift(b)
    ensures a == b
  {
    ShiftIsTableShift(a);
    ShiftIsTableShift(b);
  }

  lemma ShiftEven(c: bv32)
    requires c & 1 == 0
    ensures Shift(c) == c >> 1
  {}

  /* ---------- several bits ---------- */

  function Shifts(n: nat, c: bv32): bv32 {
    if n == 0 then c else Shifts(n - 1, Shift(c))
  }

  lemma {:induction false} ShiftsLinear(n: nat, a: bv32, b: bv32)
    ensures Shifts(n, Xor(a, b)) == Xor(Shifts(n, a), Shifts(n, b))
  {
    hide Shift, Xor;
    if n > 0 {
      ShiftLinear(a, b);
      ShiftsLinear(n - 1, Shift(a), Shift(b));
    }
  }

  lemma {:induction false} ShiftsInjective(n: nat, a: bv32, b: bv32)
    requires Shifts(n, a) == Shifts(n, b)
    ensures a == b
  {
    hide Shift;
    if n > 0 {
      ShiftsInjective(n - 1, Shift(a), Shift(b));
      ShiftInjective(a, b);
    }
  }

  lemma {:induction false} ShiftsAdd(m: nat, n: nat, c: bv32)
    ensures Shifts(m + n, c) == Shifts(n, Shifts(m, c))
  {
    hide Shift;
    if m > 0 { ShiftsAdd(m - 1, n, Shift(c)); }
  }

  lemma EightShifts(c: bv32)
    ensures Shifts(8, c) == Shift(Shift(Shift(Shift(Shift(Shift(Shift(Shift(c))))))))
  {
    hide *;
    var c4 := Shift(Shift(Shift(Shift(c))));
    FourShifts(c);
    FourShifts(c4);
    ShiftsAdd(4, 4, c);
  }

  lemma TwoShifts(c: bv32)
    ensures Shifts(2, c) == Shift(Shift(c))
  {
    hide Shift;
    assert Shifts(1, Shift(c)) == Shifts(0, Shift(Shift(c)));
  }

  lemma FourShifts(c: bv32)
    ensures Shifts(4, c) == Shift(Shift(Shift(Shift(c))))
  {
    hide *;
    TwoShifts(c);
    TwoShifts(Shift(Shift(c)));
    ShiftsAdd(2, 2, c);
  }

  /** Zero bits are only shifted out. */
  lemma ShiftsOut(c: bv32)
    requires c & 0xff == 0
    ensures Shifts(8, c) == c >> 8
  {
    hide Shift;
    var c1 := c >> 1;
    var c2 := c1 >> 1;
    var c3 := c2 >> 1;
    var c4 := c3 >> 1;
    var c5 := c4 >> 1;
    var c6 := c5 >> 1;
    var c7 := c6 >> 1;
    ShiftEven(c);
    ShiftEven(c1);
    ShiftEven(c2);
    ShiftEven(c3);
    ShiftEven(c4);
    ShiftEven(c5);
    ShiftEven(c6);
    ShiftEven(c7);
    EightShifts(c);
  }

  /* ---------- bytes ---------- */

  function Wide(b: bv8): bv32 { b as bv32 }

  function ByteStep(c: bv32, b: bv8): bv32 { Shifts(8, Xor(c, Wide(b))) }

  function Update(c: bv32, bytes: seq<bv8>): bv32
    decreases |bytes|
  {
    if bytes == [] then c else Update(ByteStep(c, bytes[0]), bytes[1..])
  }

  /** The checksum of the bitwise loop. */
  function Bitwise(bytes: seq<bv8>): bv32 { !Update(0xffffffff, bytes) }

  method Crc32(bytes: seq<bv8>) returns (crc: bv32)
    ensures crc == Bitwise(bytes)
  {
    hide Update, Shift, Shifts, Xor;
    crc := 0xffffffff;
    assert bytes[0..] == bytes;
    for i := 0 to |bytes|
      invariant Update(crc, bytes[i..]) == Update(0xffffffff, bytes)
    {
      UpdateStep(crc, bytes, i);
      crc := Xor(crc, Wide(bytes[i]));
      ghost var start := crc;
      for j := 0 to 8
        invariant Shifts(8 - j, crc) == Shifts(8, start)
      {
        ShiftsStep(8 - j, crc);
        crc := Shift(crc);
      }
      NoShifts(crc);
    }
    NoBytes(crc);
    assert bytes[|bytes|..] == [];
    crc := !crc;
  }

  lemma UpdateStep(c: bv32, bytes: seq<bv8>, i: nat)
    requires i < |bytes|
    ensures Update(c, bytes[i..]) == Update(ByteStep(c, bytes[i]), bytes[i + 1..])
  {
    hide ByteStep;
    assert bytes[i..][1..] == bytes[i + 1..];
  }

  lemma NoBytes(c: bv32)
    ensures Update(c, []) == c
  {}

  lemma ShiftsStep(n: nat, c: bv32)
    requires n > 0
    ensures Shifts(n, c) == Shifts(n - 1, Shift(c))
  {}

  lemma NoShifts(c: bv32)
    ensures Shifts(0, c) == c
  {}

  /* ---------- the table-driven form of the standard ---------- */

  function TableShifts(n: nat, c: bv32): bv32 {
    if n == 0 then c else TableShifts(n - 1, TableShift(c))
  }

  /** Entry `n` of the table. */
  function Table(n: bv32): bv32
    requires n < 256
  {
    TableShifts(8, n)
  }

  function LowByte(c: bv32): bv32 { c & 0xff }

  function Rest(c: bv32): bv32 { c >> 8 }

  lemma LowByteSmall(c: bv32)
    ensures LowByte(c) < 256
  {}

  function TableStep(c: bv32, b: bv8): bv32 {
    LowByteSmall(Xor(c, Wide(b)));
    Xor(Table(LowByte(Xor(c, Wide(b)))), Rest(c))
  }

  function TableUpdate(c: bv32, bytes: seq<bv8>): bv32
    decreases |bytes|
  {
    if bytes == [] then c else TableUpdate(TableStep(c, bytes[0]), bytes[1..])
  }

  /** `crc` of the standard: the complement of the table-driven update. */
  function TableDriven(bytes: seq<bv8>): bv32 { Xor(TableUpdate(0xffffffff, bytes), 0xffffffff) }

  lemma {:induction false} ShiftsAreTableShifts(n: nat, c: bv32)
    ensures Shifts(n, c) == TableShifts(n, c)
  {
    hide Shift, TableShift;
    if n > 0 {
      ShiftIsTableShift(c);
      ShiftsAreTableShifts(n - 1, Shift(c));
    }
  }

  function HighPart(c: bv32): bv32 { c & 0xffffff00 }

  lemma SplitWord(c: bv32)
    ensures Xor(LowByte(c), HighPart(c)) == c
    ensures LowByte(HighPart(c)) == 0 && Rest(HighPart(c)) == Rest(c)
  {}

  lemma RestOfXor(c: bv32, b: bv8)
    ensures Rest(Xor(c, Wide(b))) == Rest(c)
  {}

  /** Eight shifts are one look into the table. */
  lemma EightShiftsLookUp(x: bv32)
    ensures LowByte(x) < 256 && Shifts(8, x) == Xor(Table(LowByte(x)), Rest(x))
  {
    LowByteSmall(x);
    SplitWord(x);
    ShiftsLinear(8, LowByte(x), HighPart(x));
    ShiftsOutHigh(x);
    ShiftsAreTableShifts(8, LowByte(x));
    hide Xor, LowByte, HighPart, Shifts, TableShifts, Rest;
  }

  lemma ShiftsOutHigh(x: bv32)
    ensures Shifts(8, HighPart(x)) == Rest(x)
  {
    hide Shifts;
    SplitWord(x);
    ShiftsOut(HighPart(x));
  }

  lemma StepIsTableStep(c: bv32, b: bv8)
    ensures ByteStep(c, b) == TableStep(c, b)
  {
    hide Xor, LowByte, Shifts, Table, Rest, Wide;
    EightShiftsLookUp(Xor(c, Wide(b)));
    RestOfXor(c, b);
  }

  lemma {:induction false} UpdateIsTableUpdate(c: bv32, bytes: seq<bv8>)
    ensures Update(c, bytes) == TableUpdate(c, bytes)
    decreases |bytes|
  {
    hide ByteStep, TableStep;
    if bytes != [] {
      StepIsTableStep(c, bytes[0]);
      UpdateIsTableUpdate(ByteStep(c, bytes[0]), bytes[1..]);
    }
  }

  /** The bitwise loop computes the checksum of the standard. */
  lemma BitwiseIsTableDriven(bytes: seq<bv8>)
    ensures Bitwise(bytes) == TableDriven(bytes)
  {
    hide Update, TableUpdate;
    UpdateIsTableUpdate(0xffffffff, bytes);
  }

  /* ---------- which differences are noticed ---------- */

  function Up(x: bv32): bv32 { x << 8 }

  /** Up to four bytes as one little-endian word. */
  function Word(w: seq<bv8>): bv32 {
    if w == [] then 0 else Xor(Wide(w[0]), Up(Word(w[1..])))
  }

  lemma UpSmall(x: bv32, b: bv8)
    ensures x < 0x100 ==> Xor(Wide(b), Up(x)) < 0x10000
    ensures x < 0x10000 ==> Xor(Wide(b), Up(x)) < 0x1000000
  {}

  lemma WordSmall(w: seq<bv8>)
    ensures |w| == 1 ==> Word(w) < 0x100
    ensures |w| == 2 ==> Word(w) < 0x10000
    ensures |w| <= 3 ==> Word(w) < 0x1000000
  {
    hide Xor, Up, Wide;
    if w == [] {
    } else if |w| == 1 {
      WordOne(w);
    } else if |w| <= 3 {
      WordSmall(w[1..]);
      UpSmall(Word(w[1..]), w[0]);
    }
  }

  lemma WordOne(w: seq<bv8>)
    requires |w| == 1
    ensures Word(w) < 0x100
  {
    assert Word(w[1..]) == 0;
  }

  lemma UpOut(x: bv32)
    requires x < 0x1000000
    ensures Shifts(8, Up(x)) == x
  {
    hide Shifts;
    UpBits(x);
    ShiftsOut(Up(x));
  }

  lemma UpBits(x: bv32)
    requires x < 0x1000000
    ensures Up(x) & 0xff == 0 && Up(x) >> 8 == x
  {}

  lemma NoWord()
    ensures Word([]) == 0
  {}

  lemma WordStep(w: seq<bv8>)
    requires w != []
    ensures Word(w) == Xor(Wide(w[0]), Up(Word(w[1..])))
  {
    hide Xor, Wide, Up;
  }

  lemma ByteStepIs(c: bv32, b: bv8)
    ensures ByteStep(c, b) == Shifts(8, Xor(c, Wide(b)))
  {
    hide Shifts, Xor, Wide;
  }

  /** Up to four bytes are taken in as if their word came first. */
  lemma {:induction false} UpdateIsShifts(c: bv32, w: seq<bv8>)
    requires |w| <= 4
    ensures Update(c, w) == Shifts(8 * |w|, Xor(c, Word(w)))
    decreases |w|
  {
    hide *;
    if w == [] {
      NoBytes(c);
      NoWord();
      XorSelf(c);
      NoShifts(c);
    } else {
      var rest := w[1..];
      var word := Word(rest);
      assert w[0..] == w;
      UpdateStep(c, w, 0);
      UpdateIsShifts(ByteStep(c, w[0]), rest);
      WordSmall(rest);
      UpOut(word);
      ShiftsLinear(8, Xor(c, Wide(w[0])), Up(word));
      XorAssociative(c, Wide(w[0]), Up(word));
      ShiftsAdd(8, 8 * |rest|, Xor(c, Word(w)));
      WordStep(w);
      ByteStepIs(c, w[0]);
    }
  }

  lemma WordParts(a: bv8, x: bv32, b: bv8, y: bv32)
    requires Xor(Wide(a), Up(x)) == Xor(Wide(b), Up(y)) && x < 0x1000000 && y < 0x1000000
    ensures a == b && x == y
  {}

  lemma {:induction false} WordInjective(a: seq<bv8>, b: seq<bv8>)
    requires |a| == |b| <= 4 && Word(a) == Word(b)
    ensures a == b
  {
    hide Xor, Up, Wide;
    if a != [] {
      WordSmall(a[1..]);
      WordSmall(b[1..]);
      WordParts(a[0], Word(a[1..]), b[0], Word(b[1..]));
      WordInjective(a[1..], b[1..]);
      assert a == [a[0]] + a[1..] && b == [b[0]] + b[1..];
    }
  }

  lemma {:induction false} UpdateAppend(c: bv32, a: seq<bv8>, b: seq<bv8>)
    ensures Update(c, a + b) == Update(Update(c, a), b)
    decreases |a|
  {
    hide ByteStep;
    if a == [] {
      assert a + b == b;
    } else {
      assert (a + b)[1..] == a[1..] + b;
      UpdateAppend(ByteStep(c, a[0]), a[1..], b);
    }
  }

  /** Different registers stay different over the same bytes. */
  lemma {:induction false} UpdateInjective(c: bv32, d: bv32, bytes: seq<bv8>)
    requires Update(c, bytes) == Update(d, bytes)
    ensures c == d
    decreases |bytes|
  {
    hide Shifts, Xor, Wide;
    if bytes != [] {
      UpdateInjective(ByteStep(c, bytes[0]), ByteStep(d, bytes[0]), bytes[1..]);
      ShiftsInjective(8, Xor(c, Wide(bytes[0])), Xor(d, Wide(bytes[0])));
      XorCancels(c, d, Wide(bytes[0]));
    }
  }

  /** Two files that differ, and only within four neighbouring bytes, never have
      the same checksum; in particular when they differ in a single byte. */
  lemma BurstIsNoticed(before: seq<bv8>, a: seq<bv8>, b: seq<bv8>, after: seq<bv8>)
    requires |a| == |b| <= 4 && a != b
    ensures Bitwise(before + a + after) != Bitwise(before + b + after)
  {
    var c := Update(0xffffffff, before);
    if Bitwise(before + a + after) == Bitwise(before + b + after) {
      hide *;
      SameRegister(before + a + after, before + b + after);
      UpdateAppend(0xffffffff, before + a, after);
      UpdateAppend(0xffffffff, before + b, after);
      UpdateAppend(0xffffffff, before, a);
      UpdateAppend(0xffffffff, before, b);
      UpdateInjective(Update(c, a), Update(c, b), after);
      UpdateIsShifts(c, a);
      UpdateIsShifts(c, b);
      ShiftsInjective(8 * |a|, Xor(c, Word(a)), Xor(c, Word(b)));
      XorCancels(Word(a), Word(b), c);
      WordInjective(a, b);
      assert false;
    }
  }

  lemma SameRegister(a: seq<bv8>, b: seq<bv8>)
    requires Bitwise(a) == Bitwise(b)
    ensures Update(0xffffffff, a) == Update(0xffffffff, b)
  {
    hide Update;
  }
}
