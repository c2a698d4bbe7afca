/** The software checksum (src/base/cksum.c, little-endian form): slicing by eight bytes against
    the bit-at-a-time CRC32C of section 12.1 of RFC 3720.

    Words and bytes are sequences of bits, least significant bit first, so a right shift drops
    the first bits and a little-endian load puts bytes one after another. */
module Cksum {

  type Word = w: seq<bool> | |w| == 32 witness Zeros(32)
  type Byte = b: seq<bool> | |b| == 8 witness Zeros(8)

  function Zeros(n: nat): (r: seq<bool>)
    ensures |r| == n && forall i :: 0 <= i < n ==> !r[i]
  {
    if n == 0 then [] else [false] + Zeros(n - 1)
  }

  /** Bit i of a number. */
  function BitAt(x: bv32, i: nat): bool
  {
    if i == 0 then x & 1 == 1 else BitAt(Half(x), i - 1)
  }

  function Half(x: bv32): bv32
  {
    x >> 1
  }

  function XorOf(x: bv32, y: bv32): bv32
  {
    x ^ y
  }

  function WordOf(x: bv32): Word
  {
    seq(32, i requires 0 <= i < 32 => BitAt(x, i))
  }

  function ByteOf(x: bv32): Byte
  {
    seq(8, i requires 0 <= i < 8 => BitAt(x, i))
  }

  function Xor(a: Word, b: Word): (r: Word)
    ensures forall i :: 0 <= i < 32 ==> r[i] == (a[i] != b[i])
  {
    seq(32, i requires 0 <= i < 32 => a[i] != b[i])
  }

  function Not(a: Word): Word
  {
    seq(32, i requires 0 <= i < 32 => !a[i])
  }

  /** A byte as a word. */
  function Wide(b: Byte): Word
  {
    b + Zeros(24)
  }

  // ----- The reference -----------------------------------------------------------------------------

  /** The polynomial 0x1EDC6F41, reflected. */
  function Poly(): Word
  {
    WordOf(0x82F6_3B78)
  }

  /** Shift one bit out of the remainder. */
  function Bit(x: Word): Word
  {
    var y: Word := x[1..] + [false];
    if x[0] then Xor(y, Poly()) else y
  }

  function Bits(x: Word, n: nat): Word
    decreases n
  {
    if n == 0 then x else Bits(Bit(x), n - 1)
  }

  /** Shift out one byte. */
  function Step(x: Word): Word
  {
    Bits(x, 8)
  }

  /** The remainder after some bytes, bit by bit. */
  function Remainder(crc: Word, data: seq<Byte>): Word
  {
    if data == [] then crc else Step(Xor(Remainder(crc, data[..|data| - 1]), Wide(data[|data| - 1])))
  }

  /** CRC32C. */
  function Crc(data: seq<Byte>): Word
  {
    Not(Remainder(Not(Zeros(32)), data))
  }

  // ----- Linearity -----------------------------------------------------------------------------------

  lemma XorSwap(a: Word, b: Word, c: Word)
    ensures Xor(Xor(a, b), c) == Xor(Xor(a, c), b) && Xor(Xor(a, b), c) == Xor(a, Xor(b, c)) && Xor(a, b) == Xor(b, a)
  {}

  lemma BitLinear(x: Word, y: Word)
    ensures Bit(Xor(x, y)) == Xor(Bit(x), Bit(y))
  {
    hide BitAt;
    assert forall i :: 0 <= i < 31 ==> Xor(x, y)[1..][i] == (x[1..][i] != y[1..][i]);
  }

  lemma {:induction false} BitsLinear(x: Word, y: Word, n: nat)
    ensures Bits(Xor(x, y), n) == Xor(Bits(x, n), Bits(y, n))
    decreases n
  {
    hide Xor, Bit;
    if n > 0 {
      BitLinear(x, y);
      BitsLinear(Bit(x), Bit(y), n - 1);
    }
  }

  /** Without low bits a step is a plain shift. */
  lemma {:induction false} BitsShift(x: Word, n: nat)
    requires n <= 32 && forall i :: 0 <= i < n ==> !x[i]
    ensures Bits(x, n) == x[n..] + Zeros(n)
    decreases n
  {
    hide Xor;
    if n > 0 {
      var y := Bit(x);
      assert y == x[1..] + [false];
      BitsShift(y, n - 1);
      assert [false] + Zeros(n - 1) == Zeros(n);
    }
  }

  // ----- Tables --------------------------------------------------------------------------------------

  function Low(x: Word): Byte
  {
    x[..8]
  }

  /** x >> 8 */
  function Shift(x: Word): Word
  {
    x[8..] + Zeros(8)
  }

  /** The slicing tables: the first one has the remainder of every byte, and each other one is
      the one before it with a zero byte appended. */
  function Table(k: nat, b: Byte): Word
  {
    if k == 0 then Step(Wide(b))
    else
      var t := Table(k - 1, b);
      Xor(Shift(t), Table(0, Low(t)))
  }

  function Steps(x: Word, k: nat): Word
    decreases k
  {
    if k == 0 then x else Steps(Step(x), k - 1)
  }

  lemma {:induction false} StepsLinear(x: Word, y: Word, k: nat)
    ensures Steps(Xor(x, y), k) == Xor(Steps(x, k), Steps(y, k))
    decreases k
  {
    hide Xor, Step;
    if k > 0 {
      StepLinear(x, y);
      StepsLinear(Step(x), Step(y), k - 1);
    }
  }

  lemma StepLinear(x: Word, y: Word)
    ensures Step(Xor(x, y)) == Xor(Step(x), Step(y))
  {
    hide Xor, Bits;
    BitsLinear(x, y, 8);
  }

  /** A word without low byte shifts. */
  lemma StepShifts(r: seq<bool>)
    requires |r| == 24
    ensures Step(Zeros(8) + r) == r + Zeros(8)
  {
    hide Bits;
    var x: Word := Zeros(8) + r;
    BitsShift(x, 8);
    assert x[8..] == r;
  }

  /** Feeding a word: its first byte counts now, the others stay as they are. */
  lemma Absorb(c: Word, b: Byte, r: seq<bool>)
    requires |r| == 24
    ensures Step(Xor(c, b + r)) == Xor(Step(Xor(c, Wide(b))), r + Zeros(8))
  {
    hide Step;
    assert Xor(c, b + r) == Xor(Xor(c, Wide(b)), Zeros(8) + r);
    StepLinear(Xor(c, Wide(b)), Zeros(8) + r);
    StepShifts(r);
  }

  /** One byte by table, as the byte-wise loops do it. */
  lemma StepByTable(x: Word)
    ensures Step(x) == Xor(Table(0, Low(x)), Shift(x))
  {
    hide Step;
    assert Xor(Zeros(32), Low(x) + x[8..]) == x;
    assert Xor(Zeros(32), Wide(Low(x))) == Wide(Low(x));
    Absorb(Zeros(32), Low(x), x[8..]);
  }

  lemma {:induction false} StepsNext(x: Word, k: nat)
    ensures Steps(x, k + 1) == Step(Steps(x, k))
    decreases k
  {
    hide Step;
    if k > 0 {
      StepsNext(Step(x), k - 1);
    }
  }

  lemma {:induction false} TableSteps(k: nat, b: Byte)
    ensures Table(k, b) == Steps(Wide(b), k + 1)
  {
    hide Step, Xor;
    if k > 0 {
      TableSteps(k - 1, b);
      StepByTable(Table(k - 1, b));
      StepsNext(Wide(b), k);
      XorSwap(Shift(Table(k - 1, b)), Table(0, Low(Table(k - 1, b))), Zeros(32));
    }
  }

  /** Entry 128 of the first table is the polynomial itself. */
  lemma TableTop()
    ensures Table(0, Zeros(7) + [true]) == WordOf(0x82F6_3B78)
  {
    hide BitAt;
    var x: Word := Wide(Zeros(7) + [true]);
    BitsShift(x, 7);
    BitsTwice(x, 7, 1);
    var y: Word := x[7..] + Zeros(7);
    assert Bits(y, 1) == Bit(y);
    assert y[1..] + [false] == Zeros(32);
    XorZero(Poly());
    XorSwap(Zeros(32), Poly(), Zeros(32));
  }

  lemma {:induction false} BitsTwice(x: Word, j: nat, k: nat)
    ensures Bits(Bits(x, j), k) == Bits(x, j + k)
    decreases j
  {
    hide Bit;
    if j > 0 {
      BitsTwice(Bit(x), j - 1, k);
    }
  }

  /** The low byte by table, the rest by fewer steps. */
  lemma Peel(x: Word, k: nat)
    ensures Steps(x, k + 1) == Xor(Table(k, Low(x)), Steps(Shift(x), k))
  {
    hide Step, Xor, Shift, Low, Table;
    StepByTable(x);
    TableSteps(0, Low(x));
    StepsLinear(Table(0, Low(x)), Shift(x), k);
    TableSteps(k, Low(x));
    TableZero(Low(x));
  }

  lemma TableZero(b: Byte)
    ensures Table(0, b) == Step(Wide(b))
  {}

  lemma ZerosJoin(a: nat, b: nat)
    ensures Zeros(a) + Zeros(b) == Zeros(a + b)
  {
    hide Zeros;
  }

  lemma {:induction false} StepsZero(k: nat)
    ensures Steps(Zeros(32), k) == Zeros(32)
  {
    hide Step, Zeros;
    if k > 0 {
      StepShifts(Zeros(24));
      ZerosJoin(8, 24);
      ZerosJoin(24, 8);
      StepsZero(k - 1);
    }
  }

  function ByteAt(x: Word, i: nat): Byte
    requires i < 4
  {
    x[8 * i..8 * i + 8]
  }

  /** Four table lookups for the four bytes of a word. */
  function Lookups(x: Word, k: nat): Word
    requires k >= 3
  {
    Xor(Xor(Xor(Table(k, ByteAt(x, 0)), Table(k - 1, ByteAt(x, 1))), Table(k - 2, ByteAt(x, 2))),
        Table(k - 3, ByteAt(x, 3)))
  }

  /** A shift moves every byte down by one. */
  lemma ShiftBytes(x: Word)
    ensures Low(x) == ByteAt(x, 0) && ByteAt(Shift(x), 0) == ByteAt(x, 1) && ByteAt(Shift(x), 1) == ByteAt(x, 2)
    ensures ByteAt(Shift(x), 2) == ByteAt(x, 3) && ByteAt(Shift(x), 3) == Zeros(8)
  {
    hide Zeros;
  }

  lemma NoBytes(x: Word)
    requires ByteAt(x, 0) == Zeros(8) && ByteAt(x, 1) == Zeros(8) && ByteAt(x, 2) == Zeros(8)
             && ByteAt(x, 3) == Zeros(8)
    ensures x == Zeros(32)
  {
    hide Zeros;
    assert x == ByteAt(x, 0) + x[8..16] + x[16..24] + x[24..32];
    ZerosJoin(8, 8);
    ZerosJoin(16, 8);
    ZerosJoin(24, 8);
  }

  lemma LookupsStep(x: Word, k: nat)
    requires k >= 3
    ensures Steps(x, k + 1) == Lookups(x, k)
  {
    hide Step, Xor, Table, Steps, Zeros, Shift, Low, ByteAt;
    Peel(x, k);
    var x1 := Shift(x);
    Peel(x1, k - 1);
    var x2 := Shift(x1);
    Peel(x2, k - 2);
    var x3 := Shift(x2);
    Peel(x3, k - 3);
    ShiftBytes(x);
    ShiftBytes(x1);
    ShiftBytes(x2);
    ShiftBytes(x3);
    NoBytes(Shift(x3));
    StepsZero(k - 3);
    var a, b, c, d := Table(k, ByteAt(x, 0)), Table(k - 1, ByteAt(x, 1)), Table(k - 2, ByteAt(x, 2)),
        Table(k - 3, ByteAt(x, 3));
    XorZero(d);
    XorSwap(a, b, Xor(c, d));
    XorSwap(Xor(a, b), c, d);
  }

  lemma XorZero(a: Word)
    ensures Xor(a, Zeros(32)) == a
  {}

  // ----- The checksum ----------------------------------------------------------------------------------

  /** A little-endian load of four bytes. */
  function Load(b: seq<Byte>): Word
    requires |b| == 4
  {
    var b0: seq<bool>, b1: seq<bool>, b2: seq<bool>, b3: seq<bool> := b[0], b[1], b[2], b[3];
    b0 + b1 + b2 + b3
  }

  /** Four bytes one by one are four steps on the whole word. */
  lemma FourBytes(c: Word, b: seq<Byte>)
    requires |b| == 4
    ensures Remainder(c, b) == Steps(Xor(c, Load(b)), 4)
  {
    hide Step, Xor, Remainder, Zeros;
    var c1 := Step(Xor(c, Wide(b[0])));
    var c2 := Step(Xor(c1, Wide(b[1])));
    var c3 := Step(Xor(c2, Wide(b[2])));
    RemainderOf4(c, b);
    var b0: seq<bool>, b1: seq<bool>, b2: seq<bool>, b3: seq<bool> := b[0], b[1], b[2], b[3];
    var z := Zeros(8);
    assert z + z + z == Zeros(24) && b3 + z + z + z == b3 + (z + z + z);
    Absorb(c, b[0], b1 + b2 + b3);
    assert b0 + (b1 + b2 + b3) == Load(b);
    Absorb(c1, b[1], b2 + b3 + z);
    assert b1 + b2 + b3 + z == b1 + (b2 + b3 + z);
    Absorb(c2, b[2], b3 + z + z);
    assert b2 + b3 + z + z == b2 + (b3 + z + z);
    assert b3 + z + z + z == Wide(b[3]);
  }

  lemma RemainderOf4(c: Word, b: seq<Byte>)
    requires |b| == 4
    ensures Remainder(c, b)
         == Step(Xor(Step(Xor(Step(Xor(Step(Xor(c, Wide(b[0]))), Wide(b[1]))), Wide(b[2]))), Wide(b[3])))
  {
    hide Step, Xor;
    assert b[..3][..2] == b[..2] && b[..2][..1] == b[..1] && b[..1][..0] == [];
    assert Remainder(c, b[..1]) == Step(Xor(c, Wide(b[0])));
    assert Remainder(c, b[..2]) == Step(Xor(Remainder(c, b[..1]), Wide(b[1])));
    assert Remainder(c, b[..3]) == Step(Xor(Remainder(c, b[..2]), Wide(b[2])));
  }

  /** Eight bytes at once: the effect of the unrolled loop body. */
  lemma EightBytes(c: Word, b: seq<Byte>)
    requires |b| == 8
    ensures Remainder(c, b) == Xor(Lookups(Xor(c, Load(b[..4])), 7), Lookups(Load(b[4..]), 3))
  {
    hide Step, Xor, Remainder, Lookups, Steps, Load;
    var x := Xor(c, Load(b[..4]));
    RemainderAppend(c, b[..4], b[4..]);
    assert b[..4] + b[4..] == b;
    FourBytes(c, b[..4]);
    FourBytes(Steps(x, 4), b[4..]);
    StepsLinear(Steps(x, 4), Load(b[4..]), 4);
    StepsTwice(x, 4, 4);
    LookupsStep(x, 7);
    LookupsStep(Load(b[4..]), 3);
  }

  lemma {:induction false} StepsTwice(x: Word, j: nat, k: nat)
    ensures Steps(Steps(x, j), k) == Steps(x, j + k)
    decreases j
  {
    hide Step;
    if j > 0 {
      StepsTwice(Step(x), j - 1, k);
    }
  }

  lemma {:induction false} RemainderAppend(c: Word, a: seq<Byte>, b: seq<Byte>)
    ensures Remainder(c, a + b) == Remainder(Remainder(c, a), b)
    decreases |b|
  {
    hide Step, Xor;
    if b == [] {
      assert a + b == a;
    } else {
      var n := |b| - 1;
      RemainderAppend(c, a, b[..n]);
      assert (a + b)[..|a + b| - 1] == a + b[..n];
    }
  }

  /** One byte in the byte-wise loops. */
  function ByteStep(crc: Word, b: Byte): Word
  {
    Xor(Table(0, Low(Xor(crc, Wide(b)))), Shift(crc))
  }

  lemma ByteStepOk(c: Word, data: seq<Byte>, i: nat)
    requires i < |data|
    ensures ByteStep(Remainder(c, data[..i]), data[i]) == Remainder(c, data[..i + 1])
  {
    hide Step, Xor, Table;
    var crc := Remainder(c, data[..i]);
    assert data[..i + 1][..i] == data[..i];
    StepByTable(Xor(crc, Wide(data[i])));
    ShiftByte(crc, data[i]);
  }

  lemma ShiftByte(crc: Word, b: Byte)
    ensures Shift(Xor(crc, Wide(b))) == Shift(crc)
  {}

  /** The checksum of data at the given address: bytes up to a multiple of four, then eight bytes
      at a time, then the trailing bytes. */
  method Checksum(data: seq<Byte>, address: nat) returns (r: Word)
    ensures r == Crc(data)
  {
    hide Step, Xor, Remainder, ByteStep, Lookups, Load;
    var start := Not(Zeros(32));
    var crc := start;
    var i := 0;
    RemainderNone(start, data);
    while (address + i) % 4 != 0 && i < |data|
      invariant 0 <= i <= |data| && crc == Remainder(start, data[..i])
      decreases |data| - i
    {
      ByteStepOk(start, data, i);
      crc := ByteStep(crc, data[i]);
      i := i + 1;
    }
    var nqwords := (|data| - i) / 8;
    while nqwords > 0
      invariant 0 <= i <= |data| && nqwords == (|data| - i) / 8 && crc == Remainder(start, data[..i])
    {
      var block := data[i..i + 8];
      EightBytes(crc, block);
      RemainderAppend(start, data[..i], block);
      assert data[..i] + block == data[..i + 8];
      crc := Xor(Lookups(Xor(crc, Load(block[..4])), 7), Lookups(Load(block[4..]), 3));
      i := i + 8;
      nqwords := nqwords - 1;
    }
    while i < |data|
      invariant 0 <= i <= |data| && crc == Remainder(start, data[..i])
    {
      ByteStepOk(start, data, i);
      crc := ByteStep(crc, data[i]);
      i := i + 1;
    }
    assert data[..i] == data;
    return Not(crc);
  }

  lemma RemainderNone(c: Word, data: seq<Byte>)
    ensures Remainder(c, data[..0]) == c
  {}

  // ----- Numbers ---------------------------------------------------------------------------------------

  lemma BitAtNext(x: bv32, i: nat)
    ensures BitAt(x, 0) <==> x & 1 == 1
    ensures BitAt(x, i + 1) == BitAt(Half(x), i)
  {}

  lemma {:induction false} BitAtXor(x: bv32, y: bv32, i: nat)
    ensures BitAt(XorOf(x, y), i) == (BitAt(x, i) != BitAt(y, i))
    decreases i
  {
    hide BitAt, XorOf, Half;
    if i == 0 {
      LowXor(x, y);
    } else {
      ShiftXor(x, y);
      BitAtNext(x, i - 1);
      BitAtNext(y, i - 1);
      BitAtNext(XorOf(x, y), i - 1);
      BitAtXor(Half(x), Half(y), i - 1);
    }
  }

  lemma LowXor(x: bv32, y: bv32)
    ensures BitAt(XorOf(x, y), 0) == (BitAt(x, 0) != BitAt(y, 0))
  {}

  lemma ShiftXor(x: bv32, y: bv32)
    ensures Half(XorOf(x, y)) == XorOf(Half(x), Half(y))
  {}

  lemma {:induction false} BitAtZero(i: nat)
    ensures !BitAt(0, i)
  {
    if i > 0 {
      assert Half(0) == 0;
      BitAtZero(i - 1);
    }
  }

  function Shr4(x: bv32): bv32
  {
    x >> 4
  }

  function Shr16(x: bv32): bv32
  {
    x >> 16
  }

  lemma Shifts(x: bv32)
    ensures Half(Half(Half(Half(x)))) == Shr4(x) && Shr4(Shr4(Shr4(Shr4(x)))) == Shr16(x) && Shr16(Shr16(x)) == 0
  {}

  lemma BitAtFour(x: bv32, i: nat)
    ensures BitAt(x, i + 4) == BitAt(Shr4(x), i)
  {
    hide BitAt, Half, Shr4, Shr16;
    BitAtNext(x, i + 3);
    BitAtNext(Half(x), i + 2);
    BitAtNext(Half(Half(x)), i + 1);
    BitAtNext(Half(Half(Half(x))), i);
    Shifts(x);
  }

  lemma BitAtSixteen(x: bv32, i: nat)
    ensures BitAt(x, i + 16) == BitAt(Shr16(x), i)
  {
    hide BitAt, Half, Shr4, Shr16;
    BitAtFour(x, i + 12);
    BitAtFour(Shr4(x), i + 8);
    BitAtFour(Shr4(Shr4(x)), i + 4);
    BitAtFour(Shr4(Shr4(Shr4(x))), i);
    Shifts(x);
  }

  /** There is no bit 32. */
  lemma BitAtTop(x: bv32, i: nat)
    ensures !BitAt(x, i + 32)
  {
    hide BitAt, Half, Shr4, Shr16;
    BitAtSixteen(x, i + 16);
    BitAtSixteen(Shr16(x), i);
    Shifts(x);
    BitAtZero(i);
  }

  /** One bit of the division, on numbers. */
  function StepOf(x: bv32): bv32
  {
    if x & 1 == 1 then XorOf(Half(x), 0x82F6_3B78) else Half(x)
  }

  function EightOf(x: bv32): bv32
  {
    StepOf(StepOf(StepOf(StepOf(StepOf(StepOf(StepOf(StepOf(x))))))))
  }

  lemma BitOf(x: bv32)
    ensures Bit(WordOf(x)) == WordOf(StepOf(x))
  {
    hide BitAt, Half, XorOf;
    forall i | 0 <= i < 32 ensures Bit(WordOf(x))[i] == WordOf(StepOf(x))[i] {
      if i == 31 {
        BitAtTop(x, 0);
      }
      BitAtNext(x, i);
      BitAtXor(Half(x), 0x82F6_3B78, i);
    }
  }

  lemma StepIs(x: bv32)
    ensures Step(WordOf(x)) == WordOf(EightOf(x))
  {
    hide Bit, WordOf, StepOf;
    var a := StepOf(x);
    var b := StepOf(a);
    var c := StepOf(b);
    var d := StepOf(c);
    BitOf(x);
    BitOf(a);
    BitOf(b);
    BitOf(c);
    FourIs(d);
    assert Bits(WordOf(x), 8) == Bits(WordOf(a), 7) == Bits(WordOf(b), 6) == Bits(WordOf(c), 5) == Bits(WordOf(d), 4);
  }

  lemma FourIs(x: bv32)
    ensures Bits(WordOf(x), 4) == WordOf(StepOf(StepOf(StepOf(StepOf(x)))))
  {
    hide Bit, WordOf, StepOf;
    var a := StepOf(x);
    var b := StepOf(a);
    var c := StepOf(b);
    BitOf(x);
    BitOf(a);
    BitOf(b);
    BitOf(c);
    assert Bits(WordOf(x), 4) == Bits(WordOf(a), 3) == Bits(WordOf(b), 2) == Bits(WordOf(c), 1);
  }

  /** A byte as a word is the same number. */
  lemma WideIs(b: bv32)
    requires b <= 0xFF
    ensures Wide(ByteOf(b)) == WordOf(b)
  {
    hide BitAt;
    assert Shr4(Shr4(b)) == 0;
    hide Shr4;
    forall i | 0 <= i < 32 ensures Wide(ByteOf(b))[i] == WordOf(b)[i] {
      if i >= 8 {
        BitAtFour(b, i - 4);
        BitAtFour(Shr4(b), i - 8);
        BitAtZero(i - 8);
      }
    }
  }

  // ----- The tables as numbers -------------------------------------------------------------------------

  function Entry(k: nat, b: bv32): bv32
  {
    if k == 0 then EightOf(b) else EightOf(Entry(k - 1, b))
  }

  lemma {:induction false} EntrySteps(k: nat, b: bv32)
    ensures Steps(WordOf(b), k + 1) == WordOf(Entry(k, b))
  {
    hide Step, WordOf, EightOf;
    if k == 0 {
      StepIs(b);
    } else {
      EntrySteps(k - 1, b);
      StepsNext(WordOf(b), k);
      StepIs(Entry(k - 1, b));
    }
  }

  /** The entries of table k at 1, 2, 4, ..., 128, as the source has them. */
  function Literals(k: nat): seq<bv32>
  {
    if k == 0 then [0xF26B8303, 0xE13B70F7, 0xC79A971F, 0x8AD958CF, 0x105EC76F, 0x20BD8EDE, 0x417B1DBC, 0x82F63B78]
    else if k == 1 then [0x13A29877, 0x274530EE, 0x4E8A61DC, 0x9D14C3B8, 0x3FC5F181, 0x7F8BE302, 0xFF17C604, 0xFBC3FAF9]
    else if k == 2 then [0xA541927E, 0x4F6F520D, 0x9EDEA41A, 0x38513EC5, 0x70A27D8A, 0xE144FB14, 0xC76580D9, 0x8B277743]
    else if k == 3 then [0xDD45AAB8, 0xBF672381, 0x7B2231F3, 0xF64463E6, 0xE964B13D, 0xD725148B, 0xABA65FE7, 0x52A0C93F]
    else if k == 4 then [0x38116FAC, 0x7022DF58, 0xE045BEB0, 0xC5670B91, 0x8F2261D3, 0x1BA8B557, 0x37516AAE, 0x6EA2D55C]
    else if k == 5 then [0xEF306B19, 0xDB8CA0C3, 0xB2F53777, 0x6006181F, 0xC00C303E, 0x85F4168D, 0x0E045BEB, 0x1C08B7D6]
    else if k == 6 then [0x68032CC8, 0xD0065990, 0xA5E0C5D1, 0x4E2DFD53, 0x9C5BFAA6, 0x3D5B83BD, 0x7AB7077A, 0xF56E0EF4]
    else [0x493C7D27, 0x9278FA4E, 0x211D826D, 0x423B04DA, 0x847609B4, 0x0D006599, 0x1A00CB32, 0x34019664]
  }

  /** The same entries, from the division. */
  function Row(k: nat): seq<bv32>
  {
    [Entry(k, 1), Entry(k, 2), Entry(k, 4), Entry(k, 8), Entry(k, 16), Entry(k, 32), Entry(k, 64), Entry(k, 128)]
  }

  lemma {:induction false} LiteralsAgree(k: nat)
    requires k < 8
    ensures Row(k) == Literals(k)
  {
    hide EightOf;
    Literals0();
    if k > 0 {
      LiteralsAgree(k - 1);
      if k == 1 { Literals1(); } else if k == 2 { Literals2(); } else if k == 3 { Literals3(); }
      else if k == 4 { Literals4(); } else if k == 5 { Literals5(); } else if k == 6 { Literals6(); }
      else { Literals7(); }
    }
  }

  // The entries of a table are eight steps from those of the one before it.

  lemma Literals0()
    ensures EightOf(1) == 0xF26B_8303 && EightOf(2) == 0xE13B_70F7
    ensures EightOf(4) == 0xC79A_971F && EightOf(8) == 0x8AD9_58CF
    ensures EightOf(16) == 0x105E_C76F && EightOf(32) == 0x20BD_8EDE
    ensures EightOf(64) == 0x417B_1DBC && EightOf(128) == 0x82F6_3B78
  {}

  lemma Literals1()
    ensures EightOf(0xF26B_8303) == 0x13A2_9877 && EightOf(0xE13B_70F7) == 0x2745_30EE
    ensures EightOf(0xC79A_971F) == 0x4E8A_61DC && EightOf(0x8AD9_58CF) == 0x9D14_C3B8
    ensures EightOf(0x105E_C76F) == 0x3FC5_F181 && EightOf(0x20BD_8EDE) == 0x7F8B_E302
    ensures EightOf(0x417B_1DBC) == 0xFF17_C604 && EightOf(0x82F6_3B78) == 0xFBC3_FAF9
  {}

  lemma Literals2()
    ensures EightOf(0x13A2_9877) == 0xA541_927E && EightOf(0x2745_30EE) == 0x4F6F_520D
    ensures EightOf(0x4E8A_61DC) == 0x9EDE_A41A && EightOf(0x9D14_C3B8) == 0x3851_3EC5
    ensures EightOf(0x3FC5_F181) == 0x70A2_7D8A && EightOf(0x7F8B_E302) == 0xE144_FB14
    ensures EightOf(0xFF17_C604) == 0xC765_80D9 && EightOf(0xFBC3_FAF9) == 0x8B27_7743
  {}

  lemma Literals3()
    ensures EightOf(0xA541_927E) == 0xDD45_AAB8 && EightOf(0x4F6F_520D) == 0xBF67_2381
    ensures EightOf(0x9EDE_A41A) == 0x7B22_31F3 && EightOf(0x3851_3EC5) == 0xF644_63E6
    ensures EightOf(0x70A2_7D8A) == 0xE964_B13D && EightOf(0xE144_FB14) == 0xD725_148B
    ensures EightOf(0xC765_80D9) == 0xABA6_5FE7 && EightOf(0x8B27_7743) == 0x52A0_C93F
  {}

  lemma Literals4()
    ensures EightOf(0xDD45_AAB8) == 0x3811_6FAC && EightOf(0xBF67_2381) == 0x7022_DF58
    ensures EightOf(0x7B22_31F3) == 0xE045_BEB0 && EightOf(0xF644_63E6) == 0xC567_0B91
    ensures EightOf(0xE964_B13D) == 0x8F22_61D3 && EightOf(0xD725_148B) == 0x1BA8_B557
    ensures EightOf(0xABA6_5FE7) == 0x3751_6AAE && EightOf(0x52A0_C93F) == 0x6EA2_D55C
  {}

  lemma Literals5()
    ensures EightOf(0x3811_6FAC) == 0xEF30_6B19 && EightOf(0x7022_DF58) == 0xDB8C_A0C3
    ensures EightOf(0xE045_BEB0) == 0xB2F5_3777 && EightOf(0xC567_0B91) == 0x6006_181F
    ensures EightOf(0x8F22_61D3) == 0xC00C_303E && EightOf(0x1BA8_B557) == 0x85F4_168D
    ensures EightOf(0x3751_6AAE) == 0x0E04_5BEB && EightOf(0x6EA2_D55C) == 0x1C08_B7D6
  {}

  lemma Literals6()
    ensures EightOf(0xEF30_6B19) == 0x6803_2CC8 && EightOf(0xDB8C_A0C3) == 0xD006_5990
    ensures EightOf(0xB2F5_3777) == 0xA5E0_C5D1 && EightOf(0x6006_181F) == 0x4E2D_FD53
    ensures EightOf(0xC00C_303E) == 0x9C5B_FAA6 && EightOf(0x85F4_168D) == 0x3D5B_83BD
    ensures EightOf(0x0E04_5BEB) == 0x7AB7_077A && EightOf(0x1C08_B7D6) == 0xF56E_0EF4
  {}

  lemma Literals7()
    ensures EightOf(0x6803_2CC8) == 0x493C_7D27 && EightOf(0xD006_5990) == 0x9278_FA4E
    ensures EightOf(0xA5E0_C5D1) == 0x211D_826D && EightOf(0x4E2D_FD53) == 0x423B_04DA
    ensures EightOf(0x9C5B_FAA6) == 0x8476_09B4 && EightOf(0x3D5B_83BD) == 0x0D00_6599
    ensures EightOf(0x7AB7_077A) == 0x1A00_CB32 && EightOf(0xF56E_0EF4) == 0x3401_9664
  {}

  /** Every table is linear. */
  lemma TableLinear(k: nat, a: Byte, b: Byte)
    ensures var c: Byte := seq(8, i requires 0 <= i < 8 => a[i] != b[i]); Table(k, c) == Xor(Table(k, a), Table(k, b))
  {
    hide Table, Steps;
    var c: Byte := seq(8, i requires 0 <= i < 8 => a[i] != b[i]);
    TableSteps(k, a);
    TableSteps(k, b);
    TableSteps(k, c);
    assert Wide(c) == Xor(Wide(a), Wide(b));
    StepsLinear(Wide(a), Wide(b), k + 1);
  }

  /** The tables of the source are those of the division: their entries for single bits agree, and by
      linearity all the others. */
  lemma TablesAgree(k: nat, j: nat)
    requires k < 8 && j < 8
    ensures |Literals(k)| == 8 && Table(k, ByteOf(PowerOf(j))) == WordOf(Literals(k)[j])
  {
    hide Table, WordOf, ByteOf, Literals, Entry, PowerOf, Steps;
    LiteralsAgree(k);
    RowIs(k, j);
    TableSteps(k, ByteOf(PowerOf(j)));
    WideIs(PowerOf(j));
    EntrySteps(k, PowerOf(j));
  }

  lemma RowIs(k: nat, j: nat)
    requires j < 8
    ensures |Row(k)| == 8 && Row(k)[j] == Entry(k, PowerOf(j)) && PowerOf(j) <= 0xFF
  {
    hide Entry;
  }

  function PowerOf(j: nat): bv32
    requires j < 8
  {
    if j == 0 then 1 else if j == 1 then 2 else if j == 2 then 4 else if j == 3 then 8
    else if j == 4 then 16 else if j == 5 then 32 else if j == 6 then 64 else 128
  }

  // ----- Known values ----------------------------------------------------------------------------------

  lemma ByteIs(c: bv32, b: bv32)
    requires b <= 0xFF
    ensures Remainder(WordOf(c), [ByteOf(b)]) == WordOf(EightOf(XorOf(c, b)))
  {
    hide Step, EightOf, BitAt, XorOf, ByteOf;
    WideIs(b);
    forall i | 0 <= i < 32 ensures Xor(WordOf(c), WordOf(b))[i] == WordOf(XorOf(c, b))[i] {
      BitAtXor(c, b, i);
    }
    assert Xor(WordOf(c), WordOf(b)) == WordOf(XorOf(c, b));
    StepIs(XorOf(c, b));
    assert [ByteOf(b)][..0] == [];
  }

  lemma NotIs(x: bv32)
    ensures Not(WordOf(x)) == WordOf(XorOf(x, 0xFFFF_FFFF))
  {
    hide BitAt, XorOf;
    forall i | 0 <= i < 32 ensures Not(WordOf(x))[i] == WordOf(XorOf(x, 0xFFFF_FFFF))[i] {
      BitAtXor(x, 0xFFFF_FFFF, i);
      AllOnes(i);
    }
  }

  lemma AllOnes(i: nat)
    requires i < 32
    ensures BitAt(0xFFFF_FFFF, i)
  {
    OnesBit(8, i);
  }

  function Ones(n: nat): bv32
  {
    if n == 1 then 0xF else if n == 2 then 0xFF else if n == 3 then 0xFFF else if n == 4 then 0xFFFF
    else if n == 5 then 0xF_FFFF else if n == 6 then 0xFF_FFFF else if n == 7 then 0xFFF_FFFF else 0xFFFF_FFFF
  }

  lemma {:induction false} OnesBit(n: nat, i: nat)
    requires 1 <= n <= 8 && i < 4 * n
    ensures BitAt(Ones(n), i)
  {
    hide BitAt;
    assert Ones(n) & 0xF == 0xF;
    if i < 4 {
      LowOnes(Ones(n), i);
    } else {
      BitAtFour(Ones(n), i - 4);
      assert Shr4(Ones(n)) == Ones(n - 1);
      OnesBit(n - 1, i - 4);
    }
  }

  lemma LowOnes(x: bv32, i: nat)
    requires i < 4 && x & 0xF == 0xF
    ensures BitAt(x, i)
  {
    hide BitAt;
    assert x & 1 == 1 && Half(x) & 1 == 1 && Half(Half(x)) & 1 == 1 && Half(Half(Half(x))) & 1 == 1;
    hide Half;
    BitAtNext(x, 0);
    BitAtNext(x, 1);
    BitAtNext(x, 2);
    BitAtNext(Half(x), 0);
    BitAtNext(Half(x), 1);
    BitAtNext(Half(Half(x)), 0);
    BitAtNext(Half(Half(Half(x))), 0);
  }

  /** The checksum of nothing is zero. */
  lemma EmptyIs()
    ensures Crc([]) == WordOf(0)
  {
    hide BitAt;
    forall i | 0 <= i < 32 ensures Crc([])[i] == WordOf(0)[i] {
      BitAtZero(i);
    }
  }

  /** The bytes of the string "123456789". */
  function Digits(): seq<Byte>
  {
    [ByteOf(0x31), ByteOf(0x32), ByteOf(0x33), ByteOf(0x34), ByteOf(0x35), ByteOf(0x36), ByteOf(0x37), ByteOf(0x38),
     ByteOf(0x39)]
  }

  lemma DigitValues()
    ensures EightOf(XorOf(0xFFFF_FFFF, 0x31)) == 0x6F0A_661C && EightOf(XorOf(0x6F0A_661C, 0x32)) == 0x8CAA_3B9F
    ensures EightOf(XorOf(0x8CAA_3B9F, 0x33)) == 0xEF84_D04D && EightOf(XorOf(0xEF84_D04D, 0x34)) == 0x09C5_0B11
    ensures EightOf(XorOf(0x09C5_0B11, 0x35)) == 0xE72E_DCCA && EightOf(XorOf(0xE72E_DCCA, 0x36)) == 0xBECA_8E79
    ensures EightOf(XorOf(0xBECA_8E79, 0x37)) == 0xEDBD_6815 && EightOf(XorOf(0xEDBD_6815, 0x38)) == 0x9F78_7F65
    ensures EightOf(XorOf(0x9F78_7F65, 0x39)) == 0x1CF9_6D7C && XorOf(0x1CF9_6D7C, 0xFFFF_FFFF) == 0xE306_9283
  {}

  lemma Extend(c: Word, data: seq<Byte>, k: nat, x: bv32, b: bv32)
    requires k < |data| && Remainder(c, data[..k]) == WordOf(x) && b <= 0xFF && data[k] == ByteOf(b)
    ensures Remainder(c, data[..k + 1]) == WordOf(EightOf(XorOf(x, b)))
  {
    hide Step, EightOf, XorOf, WordOf, ByteOf;
    ByteIs(x, b);
    RemainderAppend(c, data[..k], [data[k]]);
    assert data[..k + 1] == data[..k] + [data[k]];
  }

  lemma HalfDigits()
    ensures Remainder(WordOf(0xFFFF_FFFF), Digits()[..5]) == WordOf(0xE72E_DCCA)
  {
    hide EightOf, XorOf, WordOf, ByteOf, Remainder;
    var d, c := Digits(), WordOf(0xFFFF_FFFF);
    DigitValues();
    RemainderNone(c, d);
    Extend(c, d, 0, 0xFFFF_FFFF, 0x31);
    Extend(c, d, 1, 0x6F0A_661C, 0x32);
    Extend(c, d, 2, 0x8CAA_3B9F, 0x33);
    Extend(c, d, 3, 0xEF84_D04D, 0x34);
    Extend(c, d, 4, 0x09C5_0B11, 0x35);
  }

  /** The well-known check value of CRC32C. */
  lemma CheckValue()
    ensures Crc(Digits()) == WordOf(0xE306_9283)
  {
    hide EightOf, XorOf, WordOf, ByteOf, Remainder, Not;
    var d, c := Digits(), WordOf(0xFFFF_FFFF);
    DigitValues();
    HalfDigits();
    Extend(c, d, 5, 0xE72E_DCCA, 0x36);
    Extend(c, d, 6, 0xBECA_8E79, 0x37);
    Extend(c, d, 7, 0xEDBD_6815, 0x38);
    Extend(c, d, 8, 0x9F78_7F65, 0x39);
    assert d[..9] == d;
    NotIs(0x1CF9_6D7C);
    StartIs();
  }

  lemma StartIs()
    ensures Not(Zeros(32)) == WordOf(0xFFFF_FFFF)
  {
    hide BitAt;
    forall i | 0 <= i < 32 ensures Not(Zeros(32))[i] == WordOf(0xFFFF_FFFF)[i] {
      AllOnes(i);
    }
  }
}
