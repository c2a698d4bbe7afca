/** Chunk sizes of the memory cache and the arithmetic that decodes pointers
    (src/base/memory/cache.c). */
module ChunkRanks {

  const SMALL_RANKS: nat := 16
  const MEDIUM_RANKS: nat := 20
  const BLOCK_RANKS: nat := 36   // small and medium ones
  const RANKS: nat := 72
  const BUDDY_END: nat := 60     // large ranks below this one are split by halving
  const SMALL_TO_MEDIUM: nat := 20

  const UNIT: nat := 1024        // bytes in a unit of the map
  const UNITS: nat := 2048       // units in a heap span
  const SLOTS: nat := 16         // slots 1..15 of a block are handed out; slot 0 is its header

  // ----- Shifts --------------------------------------------------------------------------------

  /** q << k */
  function Shl(q: nat, k: nat): nat
  {
    if k == 0 then q else 2 * Shl(q, k - 1)
  }

  /** n >> k */
  function Shr(n: nat, k: nat): nat
  {
    if k == 0 then n else Shr(n, k - 1) / 2
  }

  lemma {:induction false} ShlAdd(q: nat, r: nat, k: nat)
    ensures Shl(q + r, k) == Shl(q, k) + Shl(r, k)
  {
    if k > 0 {
      ShlAdd(q, r, k - 1);
    }
  }

  lemma {:induction false} ShlTwice(q: nat, k: nat)
    ensures Shl(2 * q, k) == Shl(q, k + 1)
  {
    if k > 0 {
      ShlTwice(q, k - 1);
    }
  }

  lemma {:induction false} ShlMonotone(q: nat, a: nat, b: nat)
    requires a <= b
    ensures Shl(q, a) <= Shl(q, b)
    decreases b - a
  {
    if a < b {
      ShlMonotone(q, a, b - 1);
    }
  }

  lemma {:induction false} ShlPositive(q: nat, k: nat)
    ensures q <= Shl(q, k)
  {
    if k > 0 {
      ShlPositive(q, k - 1);
    }
  }

  /** A right shift rounds down to a multiple of the power. */
  lemma {:induction false} ShrFloor(n: nat, k: nat)
    ensures Shl(Shr(n, k), k) <= n < Shl(Shr(n, k) + 1, k)
  {
    if k > 0 {
      ShrFloor(n, k - 1);
      var h := Shr(n, k - 1);
      assert 2 * (h / 2) <= h < 2 * (h / 2 + 1);
      ShlTwice(h / 2, k - 1);
      ShlTwice(h / 2 + 1, k - 1);
      ShlAdd(2 * (h / 2), h - 2 * (h / 2), k - 1);
      ShlAdd(h + 1, 2 * (h / 2) + 1 - h, k - 1);
    }
  }

  lemma ShlLess(q: nat, r: nat, k: nat)
    requires q <= r
    ensures Shl(q, k) <= Shl(r, k)
  {
    hide Shl;
    ShlAdd(q, r - q, k);
  }

  /** The index of the most significant set bit. */
  function Msb(n: nat): nat
  {
    if n <= 1 then 0 else 1 + Msb(n / 2)
  }

  lemma {:induction false} MsbBounds(n: nat)
    requires n >= 1
    ensures Shl(1, Msb(n)) <= n < Shl(1, Msb(n) + 1)
  {
    if n > 1 {
      var h := n / 2;
      MsbBounds(h);
      assert 2 * h <= n <= 2 * h + 1;
      ShlNext(Msb(h));
      ShlNext(Msb(h) + 1);
    }
  }

  lemma ShlNext(k: nat)
    ensures Shl(1, k + 1) == 2 * Shl(1, k)
  {}

  // ----- Ranks ---------------------------------------------------------------------------------

  /** The size in bytes of the chunks of a rank: four steps in each power of two. */
  function Size(rank: nat): nat
  {
    Shl(4 + rank % 4, rank / 4 + 1)
  }

  /** The rank that serves a request. */
  function GetRank(size: nat): nat
  {
    if size <= 8 then 0 else
    var n := size - 1;
    TopBits(n);
    4 * Msb(n) + Shr(n, Msb(n) - 2) - 15
  }

  lemma MsbAtLeast(n: nat, k: nat)
    requires n >= Shl(1, k) >= 1
    ensures Msb(n) >= k
  {
    hide Shl;
    MsbBounds(n);
    if Msb(n) < k {
      ShlMonotone(1, Msb(n) + 1, k);
      assert false;
    }
  }

  lemma Eight()
    ensures Shl(1, 3) == 8
  {}

  lemma Multiples(k: nat)
    ensures Shl(1, k + 2) == Shl(4, k) && Shl(1, k + 3) == Shl(8, k)
  {
    hide Shl;
    ShlTwice(1, k);
    ShlTwice(2, k);
    ShlTwice(4, k);
    ShlTwice(1, k + 1);
    ShlTwice(1, k + 2);
    ShlTwice(2, k + 1);
  }

  /** The three most significant bits of n. */
  lemma TopBits(n: nat)
    requires n >= 8
    ensures Msb(n) >= 3 && 4 <= Shr(n, Msb(n) - 2) <= 7
  {
    hide Shl, Shr, Msb;
    Eight();
    MsbAtLeast(n, 3);
    var k := Msb(n) - 2;
    MsbBounds(n);
    Multiples(k);
    ShrFloor(n, k);
    TopRange(n, k, Shr(n, k));
  }

  lemma TopRange(n: nat, k: nat, q: nat)
    requires Shl(4, k) <= n < Shl(8, k) && Shl(q, k) <= n < Shl(q + 1, k)
    ensures 4 <= q <= 7
  {
    hide Shl;
    if q < 4 {
      ShlLess(q + 1, 4, k);
      assert false;
    }
    if q > 7 {
      ShlLess(8, q, k);
      assert false;
    }
  }

  lemma SizeNext(rank: nat)
    ensures Size(rank) < Size(rank + 1)
  {
    var k := rank / 4 + 1;
    if rank % 4 == 3 {
      ShlTwice(4, k);
    }
    var m := 4 + rank % 4;
    ShlAdd(m, 1, k);
    ShlPositive(1, k);
  }

  lemma {:induction false} SizeMonotone(a: nat, b: nat)
    requires a < b
    ensures Size(a) < Size(b)
    decreases b - a
  {
    SizeNext(b - 1);
    if a < b - 1 {
      SizeMonotone(a, b - 1);
    }
  }

  /** A request of n bytes gets the least rank whose chunks hold it, which wastes at most a
      quarter of n - 1. */
  lemma GetRankLeast(size: nat)
    ensures var rank := GetRank(size);
            && size <= Size(rank) && (forall r :: 0 <= r < rank ==> Size(r) < size)
            && (size > 8 ==> 4 * Size(rank) <= 5 * (size - 1))
  {
    var rank := GetRank(size);
    if size <= 8 {
      assert Size(0) == 8;
    } else {
      GetRankBounds(size);
      forall r | 0 <= r < rank ensures Size(r) < size {
        if r < rank - 1 {
          SizeMonotone(r, rank - 1);
        }
      }
    }
  }

  lemma GetRankBounds(size: nat)
    requires size > 8
    ensures var rank := GetRank(size); rank >= 1 && Size(rank - 1) < size <= Size(rank)
                                       && 4 * Size(rank) <= 5 * (size - 1)
  {
    hide Shl, Shr, Msb;
    var n := size - 1;
    TopBits(n);
    var k := Msb(n) - 2;
    var q := Shr(n, k);
    ShrFloor(n, k);
    RankSizes(k, q);
    ShlAdd(q, 1, k);
    Quarter(q, k);
  }

  /** The ranks around the three top bits q of a number with k more bits. */
  lemma RankSizes(k: nat, q: nat)
    requires k >= 1 && 4 <= q <= 7
    ensures var rank := 4 * (k + 2) + q - 15; rank >= 1 && Size(rank - 1) == Shl(q, k) && Size(rank) == Shl(q + 1, k)
  {
    hide Shl;
    var rank := 4 * (k + 2) + q - 15;
    assert rank - 1 == 4 * (k - 1) + (q - 4);
    assert (rank - 1) / 4 == k - 1 && (rank - 1) % 4 == q - 4;
    if q == 7 {
      assert rank / 4 == k && rank % 4 == 0;
      ShlTwice(4, k);
    } else {
      assert rank / 4 == k - 1 && rank % 4 == q - 3;
    }
  }

  lemma Quarter(q: nat, k: nat)
    requires q >= 4
    ensures 4 * Shl(1, k) <= Shl(q, k)
  {
    hide Shl;
    ShlLess(4, q, k);
    ShlTwice(1, k);
    ShlTwice(2, k);
    ShlAdd(1, 1, k);
    ShlAdd(2, 2, k);
  }

  // ----- Slots of a block -------------------------------------------------------------------

  lemma ShlFive(q: nat, k: nat)
    ensures Shl(q, k + 5) == 32 * Shl(q, k)
  {
    assert Shl(q, k + 5) == 2 * Shl(q, k + 4) && Shl(q, k + 4) == 2 * Shl(q, k + 3);
    assert Shl(q, k + 3) == 2 * Shl(q, k + 2) && Shl(q, k + 2) == 2 * Shl(q, k + 1);
  }

  /** A chunk that is 20 ranks up holds 32 slots. */
  lemma SizeOfBlock(rank: nat)
    ensures Size(rank + 20) == 32 * Size(rank)
  {
    assert (rank + 20) % 4 == rank % 4 && (rank + 20) / 4 == rank / 4 + 5;
    ShlFive(4 + rank % 4, rank / 4 + 1);
  }

  function Magic(size: nat): nat
    requires size > 0
  {
    (0x4_0000 + size - 1) / size
  }

  /** The slot that an offset falls into, by a multiplication and a shift. */
  function SlotOf(offset: nat, size: nat): nat
    requires size > 0
  {
    offset * Magic(size) / 0x4_0000
  }

  lemma MagicProduct(size: nat)
    requires size > 0
    ensures 0x4_0000 <= Magic(size) * size < 0x4_0000 + size
  {
    var a := 0x4_0000 + size - 1;
    assert a == a / size * size + a % size;
  }

  /** The magic division is exact in the first 16 slots, up to 15/32 of the way into one:
      far enough for every small chunk inside a medium one. */
  lemma SlotExact(size: nat, slot: nat, inside: nat)
    requires 0 < size <= 3584 && slot < SLOTS && 32 * inside <= 15 * size
    ensures SlotOf(slot * size + inside, size) == slot
  {
    hide Magic;
    var m := Magic(size);
    MagicProduct(size);
    SlotProduct(m, size, slot, inside);
  }

  /** If all 32 cells of the largest inner block were used, the division would be wrong for the last
      one in every slot but the first two. */
  lemma LastCellInexact(slot: nat)
    requires slot < 32
    ensures SlotOf(slot * 3584 + 31 * 112, 3584) == slot <==> slot <= 1
  {
    assert Magic(3584) == 74;
    assert (slot * 3584 + 31 * 112) * 74 == slot * 0x4_0000 + (slot * 3072 + 256928);
  }

  lemma SlotProduct(m: nat, size: nat, slot: nat, inside: nat)
    requires 0x4_0000 <= m * size < 0x4_0000 + size
    requires size <= 3584 && slot < SLOTS && 32 * inside <= 15 * size
    ensures (slot * size + inside) * m / 0x4_0000 == slot
  {
    Distribute(slot * size, inside, m);
    Reorder(slot, size, m);
    Scale(32 * inside, 15 * size, m);
    SlotQuotient(m * size, size, slot, inside * m);
  }

  lemma Reorder(slot: nat, size: nat, m: nat)
    ensures slot * size * m == slot * (m * size)
  {}

  lemma SlotQuotient(product: nat, size: nat, slot: nat, rest: nat)
    requires 0x4_0000 <= product < 0x4_0000 + size && size <= 3584 && slot < SLOTS && 32 * rest <= 15 * product
    ensures (slot * product + rest) / 0x4_0000 == slot
  {
    var e := product - 0x4_0000;
    assert slot * product == slot * 0x4_0000 + slot * e;
    assert 0 <= slot * e <= 15 * e by { Scale(slot, 15, e); }
  }

  lemma Distribute(a: nat, b: nat, m: nat)
    ensures (a + b) * m == a * m + b * m
  {}

  lemma Scale(a: nat, b: nat, m: nat)
    requires a <= b
    ensures a * m <= b * m
  {}

  // ----- Large chunks -------------------------------------------------------------------------

  /** The number of units in a large chunk, or in the whole span for rank 72. */
  function Units(rank: nat): nat
    requires BLOCK_RANKS <= rank
  {
    Shl(4 + rank % 4, rank / 4 - 9)
  }

  lemma UnitsBytes(rank: nat)
    requires BLOCK_RANKS <= rank
    ensures Size(rank) == UNIT * Units(rank)
  {
    var k := rank / 4 - 9;
    ShlFive(4 + rank % 4, k);
    ShlFive(4 + rank % 4, k + 5);
  }

  lemma UnitsAtLeastFour(rank: nat)
    requires BLOCK_RANKS <= rank
    ensures 4 <= Units(rank)
  {
    ShlPositive(4 + rank % 4, rank / 4 - 9);
  }

  lemma UnitsDouble(rank: nat)
    requires BLOCK_RANKS <= rank
    ensures Units(rank + 4) == 2 * Units(rank)
  {}

  lemma {:induction false} UnitsMonotone(a: nat, b: nat)
    requires BLOCK_RANKS <= a < b
    ensures Units(a) < Units(b)
  {
    SizeMonotone(a, b);
    UnitsBytes(a);
    UnitsBytes(b);
  }

  /** The rank that a search for a free chunk tries next: by halving first, then one by one. */
  function NextRank(rank: nat): nat
  {
    if rank < BUDDY_END then rank + 4 else rank + 1
  }

  /** The ranks that a search for the required one tries. */
  predicate Reachable(required: nat, rank: nat)
    decreases rank - required
  {
    required == rank || (required < rank && Reachable(NextRank(required), rank))
  }

  /** Which ranks are tried for a request, exactly: every fourth one among the ranks that are split by
      halving, and from the first one above these on all of them. */
  lemma {:induction false} ReachableIff(required: nat, rank: nat)
    ensures Reachable(required, rank) <==>
            required <= rank && ((rank - required) % 4 == 0 || rank >= FirstTop(required))
    decreases rank - required
  {
    if required < rank {
      ReachableIff(NextRank(required), rank);
    }
  }

  /** The first rank from the given one on, in steps of four, that is not split by halving. */
  function FirstTop(rank: nat): nat
  {
    if rank < BUDDY_END then BUDDY_END + rank % 4 else rank
  }

  /** The first rank on the way from the given one that has a free chunk. */
  function Search(chunks: seq<nat>, rank: nat): (r: nat)
    requires |chunks| == 36 && BLOCK_RANKS <= rank
    ensures rank <= r
    decreases RANKS - rank
  {
    if rank >= RANKS || chunks[rank - BLOCK_RANKS] != 0 then rank else Search(chunks, NextRank(rank))
  }

  lemma {:induction false} SearchFinds(chunks: seq<nat>, rank: nat)
    requires |chunks| == 36 && BLOCK_RANKS <= rank < RANKS
    ensures var r := Search(chunks, rank);
            && r <= RANKS && Reachable(rank, r) && (r < RANKS ==> chunks[r - BLOCK_RANKS] != 0)
            && forall x :: rank <= x < r && Reachable(rank, x) ==> chunks[x - BLOCK_RANKS] == 0
    decreases RANKS - rank
  {
    if chunks[rank - BLOCK_RANKS] == 0 && NextRank(rank) < RANKS {
      SearchFinds(chunks, NextRank(rank));
    }
  }

  /** The pieces that are left of a chunk in the top rows after a chunk of rank `running`
      was cut off it. */
  function Remainder(running: nat, original: nat): seq<nat>
    requires BUDDY_END <= running < original <= RANKS
  {
    var m := running % 4;
    match original - running
    case 1 => [running - m - 8]
    case 2 => if m == 0 then [running - 4] else if m == 2 then [running - 6] else [running - 5]
    case 3 => if m == 1 then [running - 3] else [running - 2]
    case 4 => [running]
    case 5 => if m == 3 then [running - 3, running - 2] else [running + 2]
    case 6 =>
      if m == 0 then [running + 4] else if m == 1 then [running - 1, running]
      else if m == 2 then [running + 3] else [running - 2, running + 1]
    case 7 =>
      if m == 0 || m == 2 then [running + 5]
      else if m == 1 then [running - 1, running + 2] else [running - 2, running + 3]
    case 8 =>
      if m == 0 then [running + 6] else if m == 3 then [running - 2, running + 5]
      else [running + 2, running + 3]
    case 9 =>
      if running == RANKS - 12 then [RANKS - 4] else if running == RANKS - 11 then [RANKS - 9, RANKS - 6]
      else if running == RANKS - 10 then [RANKS - 8, RANKS - 5] else [RANKS - 11, RANKS - 3]
    case 10 =>
      if running == RANKS - 12 then [RANKS - 3] else if running == RANKS - 11 then [RANKS - 9, RANKS - 4]
      else [RANKS - 7, RANKS - 4]
    case 11 => if running == RANKS - 12 then [RANKS - 2] else [RANKS - 9, RANKS - 3]
    case _ => [RANKS - 1]
  }

  ghost function TotalUnits(ranks: seq<nat>): nat
    requires 1 <= |ranks| <= 2 && forall i :: 0 <= i < |ranks| ==> BLOCK_RANKS <= ranks[i]
  {
    Units(ranks[0]) + if |ranks| == 2 then Units(ranks[1]) else 0
  }

  lemma UnitsTable()
    ensures Units(52) == 64 && Units(53) == 80 && Units(54) == 96 && Units(55) == 112
    ensures Units(56) == 128 && Units(57) == 160 && Units(58) == 192 && Units(59) == 224
    ensures Units(60) == 256 && Units(61) == 320 && Units(62) == 384 && Units(63) == 448
    ensures Units(64) == 512 && Units(65) == 640 && Units(66) == 768 && Units(67) == 896
    ensures Units(68) == 1024 && Units(69) == 1280 && Units(70) == 1536 && Units(71) == 1792
    ensures Units(72) == 2048
  {
    UnitsDouble(36); UnitsDouble(40); UnitsDouble(44); UnitsDouble(48); UnitsDouble(52);
    UnitsDouble(56); UnitsDouble(60); UnitsDouble(64); UnitsDouble(68);
    UnitsDouble(37); UnitsDouble(41); UnitsDouble(45); UnitsDouble(49); UnitsDouble(53);
    UnitsDouble(57); UnitsDouble(61); UnitsDouble(65);
    UnitsDouble(38); UnitsDouble(42); UnitsDouble(46); UnitsDouble(50); UnitsDouble(54);
    UnitsDouble(58); UnitsDouble(62); UnitsDouble(66);
    UnitsDouble(39); UnitsDouble(43); UnitsDouble(47); UnitsDouble(51); UnitsDouble(55);
    UnitsDouble(59); UnitsDouble(63); UnitsDouble(67);
  }

  /** Every case of the split table conserves size. */
  lemma RemainderConserves(running: nat, original: nat)
    requires BUDDY_END <= running < original <= RANKS
    ensures var rest := Remainder(running, original);
            && 1 <= |rest| <= 2 && (forall i :: 0 <= i < |rest| ==> BLOCK_RANKS <= rest[i] < RANKS)
            && Units(running) + TotalUnits(rest) == Units(original)
  {
    hide Units;
    UnitsTable();
  }

  /** The ranks of the pieces that are left of a chunk after one of rank `running` was cut off its
      start: one of the same size, one of twice that, and so on, and then one or two of the top ranks. */
  function RestOf(running: nat, original: nat): seq<nat>
    requires BLOCK_RANKS <= running <= original <= RANKS && Reachable(running, original)
    decreases original - running
  {
    if running == original then []
    else if running < BUDDY_END then ReachableUp(running + 4, original); [running] + RestOf(running + 4, original)
    else Remainder(running, original)
  }

  lemma ReachableUp(required: nat, rank: nat)
    requires Reachable(required, rank)
    ensures required <= rank
  {}

  lemma RestNext(running: nat, original: nat)
    requires BLOCK_RANKS <= running < original <= RANKS && running < BUDDY_END && Reachable(running, original)
    ensures Reachable(running + 4, original) && running + 4 <= original
    ensures RestOf(running, original) == [running] + RestOf(running + 4, original)
  {}

  lemma RestEnds(running: nat, original: nat)
    requires BLOCK_RANKS <= running <= original <= RANKS && Reachable(running, original)
    ensures running == original ==> RestOf(running, original) == []
    ensures BUDDY_END <= running < original ==> RestOf(running, original) == Remainder(running, original)
  {}
}
