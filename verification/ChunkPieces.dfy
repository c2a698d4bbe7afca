/** The chunks that a heap span has handed out: where they are, and how a pointer leads back to
    its chunk (src/base/memory/cache.c). */
module ChunkPieces {
  import opened ChunkRanks
  import opened UnitMap
  import opened BlockSlots

  /** A large chunk, a slot of a block, or a cell of an inner block. */
  datatype Piece = Large(base: nat) | Medium(base: nat, slot: nat) | Small(base: nat, slot: nat, cell: nat)

  ghost predicate Live(v: Blocks, tiles: map<nat, Tile>, p: Piece)
  {
    match p
    case Large(b) => b in tiles && tiles[b].kind == Used && b != 0
    case Medium(b, s) =>
      && IsBlock(tiles, b) && 1 <= s < SLOTS && b in v.chunkFree && b in v.innerUsed
      && s !in v.chunkFree[b] && s !in v.innerUsed[b]
    case Small(b, s, k) =>
      && IsBlock(tiles, b) && b in v.innerUsed && s in v.innerUsed[b] && 1 <= k < SLOTS
      && (b, s) in v.free && k !in v.free[(b, s)]
  }

  /** Space that is not handed out: free chunks, slots and cells, and the headers. */
  ghost predicate Reserved(v: Blocks, tiles: map<nat, Tile>, p: Piece)
  {
    match p
    case Large(b) => b in tiles && (b == 0 || tiles[b].kind == Free)
    case Medium(b, s) => IsBlock(tiles, b) && (s == 0 || (b in v.chunkFree && s in v.chunkFree[b]))
    case Small(b, s, k) =>
      && IsBlock(tiles, b) && b in v.innerUsed && s in v.innerUsed[b]
      && (k == 0 || ((b, s) in v.free && k in v.free[(b, s)]))
  }

  // ----- What each operation hands out or takes back ---------------------------------------------

  ghost predicate Gains(v: Blocks, tiles: map<nat, Tile>, w: Blocks, after: map<nat, Tile>, p: Piece)
  {
    !Live(v, tiles, p) && forall q :: Live(w, after, q) <==> Live(v, tiles, q) || q == p
  }

  ghost predicate Loses(v: Blocks, tiles: map<nat, Tile>, w: Blocks, after: map<nat, Tile>, p: Piece)
  {
    Live(v, tiles, p) && forall q :: Live(w, after, q) <==> Live(v, tiles, q) && q != p
  }

  ghost predicate Swaps(v: Blocks, tiles: map<nat, Tile>, w: Blocks, p: Piece, r: Piece)
  {
    && Live(v, tiles, p) && !Live(v, tiles, r)
    && forall q :: Live(w, tiles, q) <==> (Live(v, tiles, q) && q != p) || q == r
  }

  lemma TakeSlotGains(v: Blocks, tiles: map<nat, Tile>, b: nat, i: nat, s: nat)
    requires IsBlock(tiles, b) && HeaderOk(v, b, tiles[b].rank) && s in v.chunkFree[b]
    requires i < |v.heads| && i < |v.cached| && v.cached[i] != []
    ensures Gains(v, tiles, TakeSlot(v, b, i, s), tiles, Medium(b, s))
  {}

  lemma AddSlotLoses(v: Blocks, tiles: map<nat, Tile>, b: nat, i: nat, s: nat)
    requires IsBlock(tiles, b) && HeaderOk(v, b, tiles[b].rank) && Live(v, tiles, Medium(b, s))
    requires i < |v.heads| && i < |v.cached|
    ensures Loses(v, tiles, AddSlot(v, b, i, s), tiles, Medium(b, s))
  {}

  lemma TakeCellGains(v: Blocks, tiles: map<nat, Tile>, b: nat, i: nat, s: nat, k: nat)
    requires IsBlock(tiles, b) && HeaderOk(v, b, tiles[b].rank) && s in v.innerUsed[b] && k in v.free[(b, s)]
    requires i < |v.heads| && i < |v.cached| && v.cached[i] != []
    ensures Gains(v, tiles, TakeCell(v, b, i, s, k), tiles, Small(b, s, k))
  {
    hide AllSlots, Bits;
    assert InnerOk(v.free[(b, s)], s in v.innerFree[b]);
    EverySlot(k);
  }

  lemma AddCellLoses(v: Blocks, tiles: map<nat, Tile>, b: nat, i: nat, s: nat, k: nat)
    requires IsBlock(tiles, b) && HeaderOk(v, b, tiles[b].rank) && Live(v, tiles, Small(b, s, k))
    requires i < |v.heads| && i < |v.cached|
    ensures Loses(v, tiles, AddCell(v, b, i, s, k), tiles, Small(b, s, k))
  {
    hide AllSlots, Bits, InnerOk;
  }

  lemma OpenInnerSwaps(v: Blocks, tiles: map<nat, Tile>, b: nat, i: nat, s: nat)
    requires IsBlock(tiles, b) && HeaderOk(v, b, tiles[b].rank) && Live(v, tiles, Medium(b, s))
    requires i < |v.heads| && i < |v.cached|
    ensures Swaps(v, tiles, OpenInner(v, b, i, s), Medium(b, s), Small(b, s, 1))
  {
    hide Bits;
    NewCells();
  }

  lemma NewCells()
    ensures forall k :: 1 <= k < SLOTS && k !in Bits(2, SLOTS) <==> k == 1
  {}

  /** Closing an inner block whose last live cell is k. */
  lemma CloseInnerSwaps(v: Blocks, w: Blocks, tiles: map<nat, Tile>, b: nat, i: nat, s: nat, k: nat)
    requires IsBlock(tiles, b) && HeaderOk(v, b, tiles[b].rank) && Live(v, tiles, Small(b, s, k))
    requires v.free[(b, s)] + {k} == AllSlots() && i < |v.heads| && i < |v.cached|
    requires w.chunkFree == v.chunkFree && w.free == v.free
    requires w.innerUsed == v.innerUsed[b := v.innerUsed[b] - {s}]
    ensures Swaps(v, tiles, w, Small(b, s, k), Medium(b, s))
  {
    hide Bits;
    assert forall x :: 1 <= x < SLOTS && x !in v.free[(b, s)] ==> x == k by {
      forall x | 1 <= x < SLOTS && x !in v.free[(b, s)] ensures x == k {
        EverySlot(x);
      }
    }
  }

  lemma EverySlot(x: nat)
    ensures x in AllSlots() <==> 1 <= x < SLOTS
  {}

  lemma NewBlockGains(v: Blocks, tiles: map<nat, Tile>, after: map<nat, Tile>, b: nat, i: nat)
    requires SameBlocks(tiles, after, b) && IsBlock(after, b) && i < |v.heads| && i < |v.cached|
    requires forall c :: (c in tiles && tiles[c].kind == Used) <==> (c in after && after[c].kind == Used)
    ensures Gains(v, tiles, NewBlock(v, b, i), after, Medium(b, 1))
  {
    hide Bits;
    NewCells();
  }

  // ----- Addresses ---------------------------------------------------------------------------------

  /** The size of the slots of a block of the given rank, and of the cells of its inner blocks. */
  function SlotSize(rank: nat): nat
    requires 20 <= rank
  {
    Size(rank - 20)
  }

  function CellSize(rank: nat): nat
    requires 40 <= rank
  {
    Size(rank - 40)
  }

  function Times(n: nat, size: nat): nat
  {
    n * size
  }

  /** The piece lies in a tile that can hold it. */
  ghost predicate Placed(tiles: map<nat, Tile>, p: Piece)
  {
    && p.base in tiles && BLOCK_RANKS <= tiles[p.base].rank < RANKS && tiles[p.base].len == Units(tiles[p.base].rank)
    && match p
       case Large(_) => true
       case Medium(b, s) => IsBlock(tiles, b) && tiles[b].rank < 56 && s < SLOTS
       case Small(b, s, k) => IsBlock(tiles, b) && 40 <= tiles[b].rank < 56 && s < SLOTS && k < SLOTS
  }

  ghost function Address(tiles: map<nat, Tile>, p: Piece): nat
    requires Placed(tiles, p)
  {
    match p
    case Large(b) => b * UNIT
    case Medium(b, s) => b * UNIT + Times(s, SlotSize(tiles[b].rank))
    case Small(b, s, k) => b * UNIT + Times(s, SlotSize(tiles[b].rank)) + Times(k, CellSize(tiles[b].rank))
  }

  ghost function Bytes(tiles: map<nat, Tile>, p: Piece): nat
    requires Placed(tiles, p)
  {
    match p
    case Large(b) => Size(tiles[b].rank)
    case Medium(b, _) => SlotSize(tiles[b].rank)
    case Small(b, _, _) => CellSize(tiles[b].rank)
  }

  ghost predicate Apart(tiles: map<nat, Tile>, p: Piece, q: Piece)
    requires Placed(tiles, p) && Placed(tiles, q)
  {
    || Address(tiles, p) + Bytes(tiles, p) <= Address(tiles, q)
    || Address(tiles, q) + Bytes(tiles, q) <= Address(tiles, p)
  }

  /** The piece p is made of pieces such as q. */
  predicate Contains(p: Piece, q: Piece)
  {
    p == q || p == Large(q.base) || (q.Small? && p == Medium(q.base, q.slot))
  }

  lemma SizesOf(rank: nat)
    requires BLOCK_RANKS <= rank
    ensures Size(rank) == UNIT * Units(rank) && Size(rank) == 32 * SlotSize(rank)
    ensures rank >= 40 ==> SlotSize(rank) == 32 * CellSize(rank)
    ensures rank < 56 ==> 0 < SlotSize(rank) <= 3584
    ensures 40 <= rank < 56 ==> 0 < CellSize(rank)
  {
    UnitsBytes(rank);
    SizeOfBlock(rank - 20);
    ShlPositive(4 + (rank - 20) % 4, (rank - 20) / 4 + 1);
    if rank >= 40 {
      SizeOfBlock(rank - 40);
      ShlPositive(4 + (rank - 40) % 4, (rank - 40) / 4 + 1);
    }
    if rank < 55 {
      SizeMonotone(rank - 20, 35);
    }
    LargestSlot();
  }

  lemma LargestSlot()
    ensures Size(35) == 3584
  {
    ShlFive(7, 4);
    assert Shl(7, 4) == 2 * Shl(7, 3) && Shl(7, 3) == 2 * Shl(7, 2);
  }

  lemma StepsApart(i: nat, j: nat, size: nat)
    requires i < j
    ensures Times(i, size) + size <= Times(j, size)
  {
    assert (i + 1) * size <= j * size;
  }

  lemma AllSteps(size: nat)
    ensures Times(SLOTS, size) == 16 * size
  {}

  /** A piece stays within its tile. */
  lemma WithinTile(tiles: map<nat, Tile>, p: Piece)
    requires Placed(tiles, p)
    ensures p.base * UNIT <= Address(tiles, p)
    ensures Address(tiles, p) + Bytes(tiles, p) <= (p.base + tiles[p.base].len) * UNIT
  {
    hide Size, Units, SlotSize, CellSize, Times;
    var rank := tiles[p.base].rank;
    SizesOf(rank);
    if !p.Large? {
      StepsApart(p.slot, SLOTS, SlotSize(rank));
      AllSteps(SlotSize(rank));
      if p.Small? {
        StepsApart(p.cell, SLOTS, CellSize(rank));
        AllSteps(CellSize(rank));
      }
    }
  }

  /** Pieces do not overlap unless one contains the other. */
  lemma PiecesApart(tiles: map<nat, Tile>, owner: seq<nat>, p: Piece, q: Piece)
    requires Tiled(tiles, owner) && Placed(tiles, p) && Placed(tiles, q) && !Contains(p, q) && !Contains(q, p)
    ensures Apart(tiles, p, q)
  {
    hide Address, Bytes, Tiled;
    WithinTile(tiles, p);
    WithinTile(tiles, q);
    if p.base != q.base {
      TilesDisjoint(tiles, owner, p.base, q.base);
    } else {
      SameTileApart(tiles, p, q);
    }
  }

  lemma SameTileApart(tiles: map<nat, Tile>, p: Piece, q: Piece)
    requires Placed(tiles, p) && Placed(tiles, q) && !Contains(p, q) && !Contains(q, p) && p.base == q.base
    ensures Apart(tiles, p, q)
  {
    hide Size, Units, SlotSize, CellSize, Times;
    var rank := tiles[p.base].rank;
    SizesOf(rank);
    if p.slot != q.slot {
      if p.slot < q.slot {
        StepsApart(p.slot, q.slot, SlotSize(rank));
      } else {
        StepsApart(q.slot, p.slot, SlotSize(rank));
      }
      if p.Small? {
        StepsApart(p.cell, SLOTS, CellSize(rank));
        AllSteps(CellSize(rank));
      }
      if q.Small? {
        StepsApart(q.cell, SLOTS, CellSize(rank));
        AllSteps(CellSize(rank));
      }
    } else if p.cell < q.cell {
      StepsApart(p.cell, q.cell, CellSize(rank));
    } else {
      StepsApart(q.cell, p.cell, CellSize(rank));
    }
  }

  /** Chunks that are handed out overlap neither each other nor free space nor a header. */
  lemma LiveApart(m: Map, v: Blocks, p: Piece, q: Piece)
    requires Good(m, {}) && BlocksOk(v, m.tiles) && Live(v, m.tiles, p)
    requires (Live(v, m.tiles, q) && q != p) || Reserved(v, m.tiles, q)
    ensures Placed(m.tiles, p) && Placed(m.tiles, q) && Apart(m.tiles, p, q)
  {
    hide Address, Bytes, Good, BlocksOk, Placed;
    IsPlaced(m, v, p);
    IsPlaced(m, v, q);
    GoodTiled(m);
    HeaderOf(v, m.tiles, p.base);
    Separate(v, m.tiles, p, q);
    PiecesApart(m.tiles, m.owner, p, q);
  }

  lemma GoodTiled(m: Map)
    requires Good(m, {})
    ensures Tiled(m.tiles, m.owner)
  {}

  /** Neither of a live piece and another one, or free space, contains the other. */
  lemma Separate(v: Blocks, tiles: map<nat, Tile>, p: Piece, q: Piece)
    requires !IsBlock(tiles, 0) && (IsBlock(tiles, p.base) ==> HeaderOk(v, p.base, tiles[p.base].rank))
    requires Live(v, tiles, p) && ((Live(v, tiles, q) && q != p) || Reserved(v, tiles, q))
    ensures !Contains(p, q) && !Contains(q, p)
  {
    hide InnerOk, Bits;
    EverySlot(0);
  }

  lemma HeaderOf(v: Blocks, tiles: map<nat, Tile>, b: nat)
    requires BlocksOk(v, tiles)
    ensures !IsBlock(tiles, 0) && (IsBlock(tiles, b) ==> HeaderOk(v, b, tiles[b].rank))
  {}

  lemma IsPlaced(m: Map, v: Blocks, p: Piece)
    requires Good(m, {}) && BlocksOk(v, m.tiles) && (Live(v, m.tiles, p) || Reserved(v, m.tiles, p))
    ensures Placed(m.tiles, p)
  {
    hide CacheOk, ListsOk, Tiled, Units;
    assert TileOk(m.units, p.base, m.tiles[p.base]);
    if !p.Large? {
      assert HeaderOk(v, p.base, m.tiles[p.base].rank);
    }
  }

  // ----- From a pointer back to its chunk ------------------------------------------------------------

  /** The tag of a block in the second byte of a chunk. */
  predicate IsBlockMark(mark: nat)
  {
    BASE_TAG <= mark < NEXT_TAG
  }

  /** The unit map gives the chunk of a live pointer and tells a block from a large chunk. */
  lemma PointerFindsBase(m: Map, v: Blocks, p: Piece)
    requires Good(m, {}) && BlocksOk(v, m.tiles) && Live(v, m.tiles, p) && Placed(m.tiles, p)
    ensures var u := Address(m.tiles, p) / UNIT;
            && u < |m.units| && (u == 0 ==> 32 <= m.units[0] < BASE_TAG) && DeduceBase(m.units, u) == p.base
    ensures p.base + 2 < |m.units| && m.units[p.base] == m.tiles[p.base].rank
    ensures IsBlockMark(m.units[p.base + 1]) <==> !p.Large?
  {
    hide Address, Bytes, CacheOk, ListsOk, Tiled, Units, DeduceBase;
    var u := Address(m.tiles, p) / UNIT;
    assert TileOk(m.units, p.base, m.tiles[p.base]);
    UnitOf(m, p);
    DeducesOwner(m, u, {});
    if !p.Large? {
      assert m.units[p.base + 1] == Mark(p.base, 1);
    }
  }

  lemma UnitOf(m: Map, p: Piece)
    requires Tiled(m.tiles, m.owner) && Placed(m.tiles, p)
    ensures var u := Address(m.tiles, p) / UNIT; u < UNITS && m.owner[u] == p.base && (p.Large? ==> u == p.base)
  {
    hide Bytes, Units;
    WithinTile(m.tiles, p);
    PositiveBytes(m.tiles, p);
  }

  lemma PositiveBytes(tiles: map<nat, Tile>, p: Piece)
    requires Placed(tiles, p)
    ensures Bytes(tiles, p) > 0
  {
    hide Size, Units, SlotSize, CellSize;
    SizesOf(tiles[p.base].rank);
    UnitsAtLeastFour(tiles[p.base].rank);
  }

  /** The magic division gives the slot, and for a small chunk its cell. */
  lemma PointerFindsSlot(tiles: map<nat, Tile>, p: Piece)
    requires Placed(tiles, p) && !p.Large?
    ensures var rank := tiles[p.base].rank;
            var offset := Address(tiles, p) - p.base * UNIT;
            && SlotSize(rank) > 0 && SlotOf(offset, SlotSize(rank)) == p.slot
            && (p.Small? ==> CellSize(rank) > 0 && offset >= Times(p.slot, SlotSize(rank))
                             && SlotOf(offset - Times(p.slot, SlotSize(rank)), CellSize(rank)) == p.cell)
  {
    hide Size, Units, SlotSize, CellSize, SlotOf;
    var rank := tiles[p.base].rank;
    SizesOf(rank);
    if p.Medium? {
      SlotExact(SlotSize(rank), p.slot, 0);
    } else {
      CellInside(p.cell, CellSize(rank), SlotSize(rank));
      SlotExact(SlotSize(rank), p.slot, Times(p.cell, CellSize(rank)));
      SlotExact(CellSize(rank), p.cell, 0);
    }
  }

  lemma CellInside(cell: nat, size: nat, slotSize: nat)
    requires cell < SLOTS && slotSize == 32 * size
    ensures 32 * Times(cell, size) <= 15 * slotSize
  {
    assert cell * size <= 15 * size;
  }
}
