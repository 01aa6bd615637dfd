/** The checksum of theme files: one uniform loop over registers that rotate,
    against the four rounds of section 3.4 of RFC 1321, and the padding of its
    sections 3.1 and 3.2. */
module Md5 {
  import opened Bytes

  /* ---------- constants ---------- */

  /** The shifts of the four rounds. */
  const S: seq<nat> :=
    [7, 12, 17, 22, 7, 12, 17, 22, 7, 12, 17, 22, 7, 12, 17, 22]
    + [5, 9, 14, 20, 5, 9, 14, 20, 5, 9, 14, 20, 5, 9, 14, 20]
    + [4, 11, 16, 23, 4, 11, 16, 23, 4, 11, 16, 23, 4, 11, 16, 23]
    + [6, 10, 15, 21, 6, 10, 15, 21, 6, 10, 15, 21, 6, 10, 15, 21]

  /** The sine table, used by both forms. */
  const K: seq<bv32> :=
    [0xd76aa478, 0xe8c7b756, 0x242070db, 0xc1bdceee, 0xf57c0faf, 0x4787c62a, 0xa8304613, 0xfd469501,
     0x698098d8, 0x8b44f7af, 0xffff5bb1, 0x895cd7be, 0x6b901122, 0xfd987193, 0xa679438e, 0x49b40821,
     0xf61e2562, 0xc040b340, 0x265e5a51, 0xe9b6c7aa, 0xd62f105d, 0x02441453, 0xd8a1e681, 0xe7d3fbc8,
     0x21e1cde6, 0xc33707d6, 0xf4d50d87, 0x455a14ed, 0xa9e3e905, 0xfcefa3f8, 0x676f02d9, 0x8d2a4c8a,
     0xfffa3942, 0x8771f681, 0x6d9d6122, 0xfde5380c, 0xa4beea44, 0x4bdecfa9, 0xf6bb4b60, 0xbebfbc70,
     0x289b7ec6, 0xeaa127fa, 0xd4ef3085, 0x04881d05, 0xd9d4d039, 0xe6db99e5, 0x1fa27cf8, 0xc4ac5665,
     0xf4292244, 0x432aff97, 0xab9423a7, 0xfc93a039, 0x655b59c3, 0x8f0ccc92, 0xffeff47d, 0x85845dd1,
     0x6fa87e4f, 0xfe2ce6e0, 0xa3014314, 0x4e0811a1, 0xf7537e82, 0xbd3af235, 0x2ad7d2bb, 0xeb86d391]

  lemma Sizes()
    ensures |S| == 64 && |K| == 64
  {}

  datatype Four<T> = Regs(a: T, b: T, c: T, d: T)

  type Regs = Four<bv32>

  const Start: Regs := Regs(0x67452301, 0xefcdab89, 0x98badcfe, 0x10325476)

  function Rotate(x: bv32, s: nat): bv32
    requires s <= 32
  {
    x.RotateLeft(s)
  }

  function Add(x: bv32, y: bv32): bv32 { x + y }

  function AddAll(x: bv32, y: bv32, z: bv32, w: bv32): bv32 { x + y + z + w }

  /* ---------- the four rounds of the standard ---------- */

  function F(x: bv32, y: bv32, z: bv32): bv32 { (x & y) | (!x & z) }
  function G(x: bv32, y: bv32, z: bv32): bv32 { (x & z) | (y & !z) }
  function H(x: bv32, y: bv32, z: bv32): bv32 { x ^ y ^ z }
  function I(x: bv32, y: bv32, z: bv32): bv32 { y ^ (x | !z) }

  /** Word and shift of each operation, as the standard lists them. */
  const Round1: seq<(nat, nat)> :=
    [(0, 7), (1, 12), (2, 17), (3, 22), (4, 7), (5, 12), (6, 17), (7, 22),
     (8, 7), (9, 12), (10, 17), (11, 22), (12, 7), (13, 12), (14, 17), (15, 22)]

  const Round2: seq<(nat, nat)> :=
    [(1, 5), (6, 9), (11, 14), (0, 20), (5, 5), (10, 9), (15, 14), (4, 20),
     (9, 5), (14, 9), (3, 14), (8, 20), (13, 5), (2, 9), (7, 14), (12, 20)]

  const Round3: seq<(nat, nat)> :=
    [(5, 4), (8, 11), (11, 16), (14, 23), (1, 4), (4, 11), (7, 16), (10, 23),
     (13, 4), (0, 11), (3, 16), (6, 23), (9, 4), (12, 11), (15, 16), (2, 23)]

  const Round4: seq<(nat, nat)> :=
    [(0, 6), (7, 10), (14, 15), (5, 21), (12, 6), (3, 10), (10, 15), (1, 21),
     (8, 6), (15, 10), (6, 15), (13, 21), (4, 6), (11, 10), (2, 15), (9, 21)]

  /** Operation `i` of the 64. */
  function Listed(i: nat): (nat, nat)
    requires i < 64
  {
    if i < 16 then Round1[i] else if i < 32 then Round2[i - 16] else if i < 48 then Round3[i - 32] else Round4[i - 48]
  }

  function Aux(i: nat, x: bv32, y: bv32, z: bv32): bv32 {
    if i < 16 then F(x, y, z) else if i < 32 then G(x, y, z) else if i < 48 then H(x, y, z) else I(x, y, z)
  }

  /* ---------- the uniform loop ---------- */

  function WordIndex(i: nat): nat {
    if i < 16 then i else if i < 32 then (5 * i + 1) % 16 else if i < 48 then (3 * i + 5) % 16 else (7 * i) % 16
  }

  lemma FirstRound(i: nat)
    requires i < 16
    ensures Listed(i) == (WordIndex(i), S[i])
  {}

  lemma SecondRound(i: nat)
    requires 16 <= i < 32
    ensures Listed(i) == (WordIndex(i), S[i])
  {}

  lemma ThirdRound(i: nat)
    requires 32 <= i < 48
    ensures Listed(i) == (WordIndex(i), S[i])
  {}

  lemma FourthRound(i: nat)
    requires 48 <= i < 64
    ensures Listed(i) == (WordIndex(i), S[i])
  {}

  lemma ListedIsUniform(i: nat)
    requires i < 64
    ensures |S| == 64 && |K| == 64
    ensures Listed(i) == (WordIndex(i), S[i]) && WordIndex(i) < 16 && S[i] <= 32
  {
    hide Listed;
    Sizes();
    ShiftsSmall(i);
    if i < 16 { FirstRound(i); } else if i < 32 { SecondRound(i); } else if i < 48 { ThirdRound(i); }
    else { FourthRound(i); }
  }

  lemma ShiftsSmall(i: nat)
    requires i < |S|
    ensures S[i] <= 32
  {}

  function Mix1(b: bv32, c: bv32, d: bv32): bv32 { (b & c) | (!b & d) }
  function Mix2(b: bv32, c: bv32, d: bv32): bv32 { (d & b) | (!d & c) }
  function Mix3(b: bv32, c: bv32, d: bv32): bv32 { b ^ c ^ d }
  function Mix4(b: bv32, c: bv32, d: bv32): bv32 { c ^ (b | !d) }

  function Mixed(i: nat, b: bv32, c: bv32, d: bv32): bv32 {
    if i < 16 then Mix1(b, c, d) else if i < 32 then Mix2(b, c, d) else if i < 48 then Mix3(b, c, d) else Mix4(b, c, d)
  }

  lemma FirstMix(b: bv32, c: bv32, d: bv32)
    ensures Mix1(b, c, d) == F(b, c, d)
  {}

  lemma SecondMix(b: bv32, c: bv32, d: bv32)
    ensures Mix2(b, c, d) == G(b, c, d)
  {}

  lemma ThirdMix(b: bv32, c: bv32, d: bv32)
    ensures Mix3(b, c, d) == H(b, c, d)
  {}

  lemma FourthMix(b: bv32, c: bv32, d: bv32)
    ensures Mix4(b, c, d) == I(b, c, d)
  {}

  lemma MixedIsAux(i: nat, b: bv32, c: bv32, d: bv32)
    ensures Mixed(i, b, c, d) == Aux(i, b, c, d)
  {
    hide Mix1, Mix2, Mix3, Mix4, F, G, H, I;
    FirstMix(b, c, d);
    SecondMix(b, c, d);
    ThirdMix(b, c, d);
    FourthMix(b, c, d);
  }

  /** One turn of the loop: every register moves on. */
  function Turn(i: nat, r: Regs, m: seq<bv32>): Regs
    requires i < 64 && |m| == 16
  {
    ListedIsUniform(i);
    Regs(r.d,
         Add(r.b, Rotate(AddAll(r.a, Mixed(i, r.b, r.c, r.d), K[i], m[WordIndex(i)]), S[i])),
         r.b, r.c)
  }

  /* ---------- the standard's operations in place ---------- */

  /** `a = b + ((a + Aux(b,c,d) + X[k] + T[i]) <<< s)`. */
  function Operation(i: nat, a: bv32, b: bv32, c: bv32, d: bv32, x: seq<bv32>): bv32
    requires i < 64 && |x| == 16
  {
    ListedIsUniform(i);
    Add(b, Rotate(AddAll(a, Aux(i, b, c, d), x[Listed(i).0], K[i]), Listed(i).1))
  }

  /** The operations take the registers in the orders ABCD, DABC, CDAB, BCDA. */
  function InOrder<T>(turn: nat, r: Four<T>): Four<T>
    requires turn < 4
  {
    match turn
    case 0 => r
    case 1 => Regs(r.d, r.a, r.b, r.c)
    case 2 => Regs(r.c, r.d, r.a, r.b)
    case 3 => Regs(r.b, r.c, r.d, r.a)
  }

  /** The register named first gets a new value. */
  function WithFirst<T>(turn: nat, r: Four<T>, value: T): Four<T>
    requires turn < 4
  {
    match turn
    case 0 => r.(a := value)
    case 1 => r.(d := value)
    case 2 => r.(c := value)
    case 3 => r.(b := value)
  }

  function Ordered(i: nat, r: Regs): Regs { InOrder(i % 4, r) }

  function Operate(i: nat, r: Regs, x: seq<bv32>): Regs
    requires i < 64 && |x| == 16
  {
    var o := Ordered(i, r);
    WithFirst(i % 4, r, Operation(i, o.a, o.b, o.c, o.d, x))
  }

  function Operations(n: nat, r: Regs, x: seq<bv32>): Regs
    requires n <= 64 && |x| == 16
  {
    if n == 0 then r else Operate(n - 1, Operations(n - 1, r, x), x)
  }

  function Sum(r: Regs, q: Regs): Regs {
    Regs(Add(r.a, q.a), Add(r.b, q.b), Add(r.c, q.c), Add(r.d, q.d))
  }

  /** Section 3.4: the four rounds over one block, and the additions after them. */
  function Block(r: Regs, x: seq<bv32>): Regs
    requires |x| == 16
  {
    Sum(r, Operations(64, r, x))
  }

  lemma AddSwap(x: bv32, y: bv32, z: bv32, w: bv32)
    ensures AddAll(x, y, z, w) == AddAll(x, y, w, z)
  {}

  lemma TurnIsOperation(i: nat, r: Regs, x: seq<bv32>)
    requires i < 64 && |x| == 16
    ensures Turn(i, r, x) == Regs(r.d, Operation(i, r.a, r.b, r.c, r.d, x), r.b, r.c)
  {
    ListedIsUniform(i);
    MixedIsAux(i, r.b, r.c, r.d);
    AddSwap(r.a, Mixed(i, r.b, r.c, r.d), K[i], x[WordIndex(i)]);
    hide Mixed, Aux, Add, AddAll, Rotate, Listed, WordIndex;
  }

  lemma Reordered<T>(turn: nat, r: Four<T>, value: T)
    requires turn < 4
    ensures var o := InOrder(turn, r);
            InOrder(if turn == 3 then 0 else turn + 1, WithFirst(turn, r, value)) == Regs(o.d, value, o.b, o.c)
  {}

  lemma NextOrder(i: nat)
    ensures 0 <= i % 4 < 4 && (i + 1) % 4 == if i % 4 == 3 then 0 else i % 4 + 1
  {}

  /** A turn of the loop is an operation of the standard, seen in the order of the
      next operation. */
  lemma TurnFollows(i: nat, r: Regs, x: seq<bv32>)
    requires i < 64 && |x| == 16
    ensures Turn(i, Ordered(i, r), x) == Ordered(i + 1, Operate(i, r, x))
  {
    hide Turn, Operation, InOrder, WithFirst;
    var o := Ordered(i, r);
    TurnIsOperation(i, o, x);
    NextOrder(i);
    Reordered(i % 4, r, Operation(i, o.a, o.b, o.c, o.d, x));
  }

  /* ---------- words, padding, and the whole checksum ---------- */

  /** Four bytes as a word, low-order byte first. */
  function Word(s: seq<bv8>): bv32
    requires |s| == 4
  {
    (s[0] as bv32) | ((s[1] as bv32) << 8) | ((s[2] as bv32) << 16) | ((s[3] as bv32) << 24)
  }

  function Words(s: seq<bv8>): (x: seq<bv32>)
    requires |s| % 4 == 0
    ensures |x| == |s| / 4
  {
    if s == [] then [] else [Word(s[..4])] + Words(s[4..])
  }

  function BytesOf(x: bv32): (s: seq<bv8>)
    ensures |s| == 4
  {
    [(x & 0xff) as bv8, ((x >> 8) & 0xff) as bv8, ((x >> 16) & 0xff) as bv8, ((x >> 24) & 0xff) as bv8]
  }

  function Zeros(n: nat): (s: seq<bv8>)
    ensures |s| == n
  {
    if n == 0 then [] else Zeros(n - 1) + [0]
  }

  /** The bytes between the marker and the length. */
  function Gap(length: nat): nat {
    if length % 64 < 56 then 55 - length % 64 else 119 - length % 64
  }

  /** The gap is the first that leaves eight bytes of the last block. */
  lemma GapFills(length: nat, n: nat)
    requires n <= Gap(length)
    ensures (length + 1 + n) % 64 == 56 <==> n == Gap(length)
  {
    var q, r := length / 64, length % 64;
    assert length == 64 * q + r;
    Remainder(q, r + 1 + n);
  }

  lemma Remainder(q: nat, n: nat)
    requires n < 128
    ensures (64 * q + n) % 64 == if n < 64 then n else n - 64
  {}


  function BitLength(length: nat): nat { (length * 8) % 0x1_0000_0000_0000_0000 }

  /** Sections 3.1 and 3.2. */
  function Padded(input: seq<bv8>): seq<bv8> {
    input + [0x80] + Zeros(Gap(|input|)) + LittleEndian(8, BitLength(|input|))
  }

  function Blocks(r: Regs, message: seq<bv8>): Regs
    requires |message| % 64 == 0
    decreases |message|
  {
    if message == [] then r else Blocks(Block(r, Words(message[..64])), message[64..])
  }

  lemma AddEight(n: nat)
    requires n % 64 == 56
    ensures (n + 8) % 64 == 0
  {}

  lemma PaddedLength(input: seq<bv8>)
    ensures |Padded(input)| == |input| + 9 + Gap(|input|) && |Padded(input)| % 64 == 0
  {
    GapFills(|input|, Gap(|input|));
    AddEight(|input| + 1 + Gap(|input|));
    hide Gap;
  }

  /** The registers of the standard after the last block, as bytes. */
  function Rfc1321(input: seq<bv8>): seq<bv8> {
    PaddedLength(input);
    var r := Blocks(Start, Padded(input));
    BytesOf(r.a) + BytesOf(r.b) + BytesOf(r.c) + BytesOf(r.d)
  }

  method ReadWords(chunk: seq<bv8>) returns (m: seq<bv32>)
    requires |chunk| == 64
    ensures m == Words(chunk)
  {
    hide Word;
    m := [];
    assert chunk[0..] == chunk;
    for index := 0 to 16
      invariant |m| == index && m + Words(chunk[4 * index..]) == Words(chunk)
    {
      var offset := 4 * index;
      var rest := chunk[offset..];
      assert rest[..4] == chunk[offset..offset + 4] && rest[4..] == chunk[offset + 4..];
      m := m + [Word(chunk[offset..offset + 4])];
    }
    assert chunk[64..] == [];
  }

  lemma OperationsStep(i: nat, r: Regs, x: seq<bv32>)
    requires i < 64 && |x| == 16
    ensures Operations(i + 1, r, x) == Operate(i, Operations(i, r, x), x)
  {
    hide Operate;
  }

  lemma OrderedEnds(r: Regs, x: seq<bv32>)
    requires |x| == 16
    ensures Ordered(0, Operations(0, r, x)) == r && Ordered(64, Operations(64, r, x)) == Operations(64, r, x)
  {
    hide Operate;
  }

  method ProcessBlock(r: Regs, m: seq<bv32>) returns (next: Regs)
    requires |m| == 16
    ensures next == Block(r, m)
  {
    hide Turn, Operate, Operations, Ordered, Sum;
    var t := r;
    OrderedEnds(r, m);
    for i := 0 to 64
      invariant t == Ordered(i, Operations(i, r, m))
    {
      TurnFollows(i, Operations(i, r, m), m);
      OperationsStep(i, r, m);
      t := Turn(i, t, m);
    }
    next := Sum(r, t);
  }

  method Pad(input: seq<bv8>) returns (message: seq<bv8>)
    ensures message == Padded(input)
  {
    hide Gap, BitLength;
    message := input + [0x80];
    ghost var n := 0;
    GapFills(|input|, 0);
    while |message| % 64 != 56
      invariant n <= Gap(|input|) && message == input + [0x80] + Zeros(n)
      invariant |message| % 64 == 56 <==> n == Gap(|input|)
      decreases Gap(|input|) - n
    {
      message := message + [0];
      n := n + 1;
      GapFills(|input|, n);
    }
    message := message + LittleEndian(8, BitLength(|input|));
  }

  /** The loop computes the checksum of the standard. */
  method Md5(input: seq<bv8>) returns (output: seq<bv8>)
    ensures output == Rfc1321(input)
  {
    hide Padded, Block, Words, BytesOf;
    PaddedLength(input);
    var message := Pad(input);
    var r := Start;
    var i := 0;
    assert message[0..] == message;
    while i < |message|
      invariant 0 <= i <= |message| && i % 64 == 0
      invariant Blocks(r, message[i..]) == Blocks(Start, message)
    {
      var chunk := message[i..i + 64];
      assert message[i..][..64] == chunk && message[i..][64..] == message[i + 64..];
      var m := ReadWords(chunk);
      r := ProcessBlock(r, m);
      i := i + 64;
    }
    assert message[|message|..] == [];
    output := BytesOf(r.a) + BytesOf(r.b) + BytesOf(r.c) + BytesOf(r.d);
  }

  lemma MultiplesApart(m: nat, n: nat)
    requires m % 64 == 0 && n % 64 == 0 && m + 64 > n
    ensures n <= m
  {
    var a, b := m / 64, n / 64;
    assert m == 64 * a && n == 64 * b;
  }

  /** The padded message is as short as a marker, a length and whole blocks allow. */
  lemma PaddingIsLeast(input: seq<bv8>, m: nat)
    requires m % 64 == 0 && m >= |input| + 9
    ensures |Padded(input)| % 64 == 0 && |Padded(input)| <= m
  {
    PaddedLength(input);
    assert Gap(|input|) < 64;
    MultiplesApart(m, |Padded(input)|);
  }

  lemma SameRemainder(a: nat, b: nat)
    requires a % 0x1_0000_0000_0000_0000 == b % 0x1_0000_0000_0000_0000
    requires a < b + 0x1_0000_0000_0000_0000 && b < a + 0x1_0000_0000_0000_0000
    ensures a == b
  {
    var p, q := a / 0x1_0000_0000_0000_0000, b / 0x1_0000_0000_0000_0000;
    assert a - b == 0x1_0000_0000_0000_0000 * (p - q);
  }

  lemma LengthsFit(n: nat)
    ensures BitLength(n) < Power(8)
  {
    Power8();
  }

  lemma Power8()
    ensures Power(8) == 0x1_0000_0000_0000_0000
  {
    assert Power(2) == 0x1_0000;
    assert Power(4) == 0x1_0000_0000;
    assert Power(6) == 0x1_0000_0000_0000;
  }

  /** Different inputs of any length have different padded messages. */
  lemma PaddingIsInjective(a: seq<bv8>, b: seq<bv8>)
    requires Padded(a) == Padded(b)
    ensures a == b
  {
    PaddedLength(a);
    PaddedLength(b);
    assert Gap(|a|) < 64 && Gap(|b|) < 64;
    var p, n := Padded(a), |Padded(a)| - 8;
    assert p[n..] == LittleEndian(8, BitLength(|a|)) && Padded(b)[n..] == LittleEndian(8, BitLength(|b|));
    LengthsFit(|a|);
    LengthsFit(|b|);
    NumberRoundTrip(8, BitLength(|a|));
    NumberRoundTrip(8, BitLength(|b|));
    SameRemainder(|a| * 8, |b| * 8);
    assert p[..|a|] == a && Padded(b)[..|b|] == b;
  }
}
