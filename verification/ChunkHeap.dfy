/** A heap span of the memory cache: large chunks, blocks of medium chunks, and blocks of small
    chunks inside medium ones (src/base/memory/cache.c). */
module ChunkHeap {
  import opened ChunkRanks
  import opened UnitMap
  import opened BlockSlots
  import opened ChunkPieces

  class Heap {
    const units: array<nat>
    const chunks: array<nat>

    // The heads of the lists of cached blocks, and the headers of the blocks and inner blocks,
    // which live in the blocks themselves.
    const blocks: array<nat>
    var next: map<nat, nat>
    var innerNext: map<nat, nat>
    var chunkFree: map<nat, set<nat>>
    var innerUsed: map<nat, set<nat>>
    var innerFree: map<nat, set<nat>>
    var free: map<(nat, nat), set<nat>>
    ghost var cached: seq<seq<nat>>

    // What the unit map encodes.
    ghost var tiles: map<nat, Tile>
    ghost var owner: seq<nat>
    ghost var lists: seq<seq<nat>>

    ghost function Layout(): Map
      reads this, units, chunks
    {
      Map(units[..], chunks[..], tiles, owner, lists)
    }

    ghost predicate Arrays()
      reads this
    {
      && units.Length == UNITS && chunks.Length == 36 && blocks.Length == BLOCK_RANKS
      && units != chunks && blocks != units && blocks != chunks
    }

    /** Put a chunk on the free list of its rank. */
    method FreeChunk(base: nat, rank: nat, ghost loose: set<nat>)
      requires Arrays() && Good(Layout(), loose) && base != 0 && base in tiles && tiles[base].kind != Free
      requires BLOCK_RANKS <= rank < RANKS && tiles[base].len == Units(rank) && base < UNITS && units[base] == rank
      modifies units, chunks, this`tiles, this`lists
      ensures Good(Layout(), loose - {base})
      ensures tiles == old(tiles)[base := Tile(Units(rank), rank, Free)]
      ensures SameOutside(old(units[..]), units[..], base, Units(rank))
    {
      hide Good, Units, Relabels;
      ghost var m := Layout();
      Fits(m, base, rank, loose);
      ghost var i := rank - BLOCK_RANKS;
      var next := chunks[rank - BLOCK_RANKS];
      units[base + 1] := NEXT_TAG + next % 64;
      units[base + 2] := next / 64;
      chunks[rank - BLOCK_RANKS] := base;
      tiles := tiles[base := Tile(Units(rank), rank, Free)];
      lists := lists[i := [base] + lists[i]];
      FreeBytes(m, Layout(), base, rank, NEXT_TAG + next % 64, next / 64);
      Pushed(m, Layout(), base, rank, loose);
    }

    ghost method CutLoose(base: nat, n: nat, loose: set<nat>)
      requires Arrays() && Good(Layout(), loose) && base in loose && base in tiles && 0 < n < tiles[base].len
      modifies this`tiles, this`owner
      ensures Good(Layout(), loose + {base + n}) && base + n !in old(tiles)
      ensures tiles == CutTiles(old(tiles), base, n)
    {
      hide Good;
      var m := Layout();
      owner := CutOwner(tiles, owner, base, n);
      tiles := CutTiles(tiles, base, n);
      Cut(m, Layout(), base, n, loose);
    }

    /** Write the rank of a loose chunk. */
    method SetRank(base: nat, rank: nat, ghost loose: set<nat>)
      requires Arrays() && Good(Layout(), loose) && base in tiles && base in loose && base < UNITS
      modifies units, this`tiles
      ensures Good(Layout(), loose) && units[base] == rank
      ensures tiles == old(tiles)[base := old(tiles)[base].(rank := rank)]
      ensures forall u :: 0 <= u < UNITS && u != base ==> units[u] == old(units[u])
    {
      hide Good, TileOk;
      ghost var m := Layout();
      LooseTile(m, base, loose);
      units[base] := rank;
      tiles := tiles[base := tiles[base].(rank := rank)];
      LooseBytes(m, Layout(), base, rank);
      Relabelled(m, Layout(), base, Loose, rank, loose);
      assert loose + {base} == loose;
    }

    /** Make a free chunk of the given rank at the start of a loose one. */
    method MakeChunk(base: nat, rank: nat, ghost loose: set<nat>)
      requires Arrays() && Good(Layout(), loose) && base != 0 && base in loose && base in tiles
      requires BLOCK_RANKS <= rank < RANKS && Units(rank) <= tiles[base].len
      modifies units, chunks, this`tiles, this`owner, this`lists
      ensures base in tiles && tiles[base] == Tile(Units(rank), rank, Free)
      ensures SameOutside(old(units[..]), units[..], base, Units(rank)) && OnlyCut(old(tiles), tiles, base)
      ensures var rest := old(tiles)[base].len - Units(rank);
              if rest == 0 then Good(Layout(), loose - {base})
              else && Good(Layout(), loose - {base} + {base + Units(rank)})
                   && base + Units(rank) in tiles && tiles[base + Units(rank)] == Tile(rest, 0, Loose)
                   && base + Units(rank) !in old(tiles)
    {
      hide Good, Units;
      ghost var m := Layout();
      Fits(m, base, rank, loose);
      LooseTile(m, base, loose);
      ghost var now := loose;
      if tiles[base].len > Units(rank) {
        CutLoose(base, Units(rank), loose);
        now := now + {base + Units(rank)};
      }
      SetRank(base, rank, now);
      FreeChunk(base, rank, now);
      assert loose + {base + Units(rank)} - {base} == loose - {base} + {base + Units(rank)};
    }

    /** The rank of a chunk to cut the required one from, or at least RANKS if there is none. */
    method FindChunk(required: nat) returns (rank: nat)
      requires Arrays() && BLOCK_RANKS <= required < RANKS
      ensures rank == Search(chunks[..], required)
    {
      rank := required;
      while rank < BUDDY_END
        invariant required <= rank < RANKS && Search(chunks[..], rank) == Search(chunks[..], required)
      {
        if chunks[rank - BLOCK_RANKS] != 0 {
          return;
        }
        rank := rank + 4;
      }
      while rank < RANKS
        invariant required <= rank && Search(chunks[..], rank) == Search(chunks[..], required)
      {
        if chunks[rank - BLOCK_RANKS] != 0 {
          return;
        }
        rank := rank + 1;
      }
    }

    /** Free the rest of a chunk in the top rows, as one piece or as two. */
    method FreeTop(base: nat, rest: nat, original: nat, running: nat)
      requires Arrays() && BUDDY_END <= running < original <= RANKS && base < rest
      requires rest in tiles && tiles[rest].len == Units(original) - Units(running)
      requires Good(Layout(), {base, rest})
      modifies units, chunks, this`tiles, this`owner, this`lists
      ensures OnlyCut(old(tiles), tiles, rest) && rest in tiles && tiles[rest].kind == Free
      ensures forall u :: 0 <= u < rest && u < UNITS ==> units[u] == old(units[u])
      ensures Good(Layout(), {base}) && Laid(tiles, rest, Remainder(running, original))
    {
      hide Good, Units, Remainder;
      RemainderConserves(running, original);
      var pieces := Remainder(running, original);
      UnitsAtLeastFour(pieces[0]);
      MakeChunk(rest, pieces[0], {base, rest});
      assert {base, rest} - {rest} == {base};
      if |pieces| == 2 {
        UnitsBytes(pieces[0]);
        UnitsAtLeastFour(pieces[1]);
        var second := rest + Size(pieces[0]) / UNIT;
        assert {base} + {second} == {base, second};
        MakeChunk(second, pieces[1], {base, second});
        assert {base, second} - {second} == {base};
        assert Laid(tiles, second, pieces[1..]);
      }
    }

    /** Free the rest of a chunk, piece by piece, after one of rank `required` was cut off. */
    method FreeRest(base: nat, rest: nat, original: nat, required: nat)
      requires Arrays() && BLOCK_RANKS <= required < original <= RANKS && Reachable(required, original)
      requires rest in tiles && rest == base + Units(required) && tiles[rest].len == Units(original) - Units(required)
      requires Good(Layout(), {base, rest})
      modifies units, chunks, this`tiles, this`owner, this`lists
      ensures OnlyCut(old(tiles), tiles, rest) && rest in tiles && tiles[rest].kind == Free
      ensures forall u :: 0 <= u < rest && u < UNITS ==> units[u] == old(units[u])
      ensures Good(Layout(), {base}) && Laid(tiles, rest, RestOf(required, original))
    {
      hide Good, Units, Remainder, Laid, RestOf, EndOf;
      UnitsAtLeastFour(required);
      var running, runningBase := required, rest;
      ghost var done: seq<nat> := [];
      assert Laid(tiles, rest, done) && EndOf(rest, done) == rest by { NothingLaid(tiles, rest); }
      while running < BUDDY_END
        invariant required <= running < original && Reachable(running, original)
        invariant base < rest <= runningBase == base + Units(running) && runningBase in tiles && rest in tiles
        invariant tiles[runningBase].len == Units(original) - Units(running)
        invariant OnlyCut(old(tiles), tiles, rest)
        invariant runningBase == rest || (runningBase !in old(tiles) && tiles[rest].kind == Free)
        invariant forall u :: 0 <= u < rest && u < UNITS ==> units[u] == old(units[u])
        invariant Good(Layout(), {base, runningBase})
        invariant Laid(tiles, rest, done) && EndOf(rest, done) == runningBase
        invariant RestOf(required, original) == done + RestOf(running, original)
      {
        ghost var before := tiles;
        UnitsDouble(running);
        if running + 4 < original {
          UnitsMonotone(running + 4, original);
        }
        MakeChunk(runningBase, running, {base, runningBase});
        assert {base, runningBase} - {runningBase} == {base};
        assert {base} + {runningBase + Units(running)} == {base, runningBase + Units(running)};
        UnitsBytes(running);
        OneLaid(tiles, runningBase, running);
        LaidJoin(before, tiles, rest, done, [running]);
        EndOfMore(rest, done, running);
        RestNext(running, original);
        assert done + ([running] + RestOf(running + 4, original)) == done + [running] + RestOf(running + 4, original);
        done := done + [running];
        runningBase := runningBase + Size(running) / UNIT;
        running := running + 4;
        if running == original {
          RestEnds(running, original);
          assert done + [] == done;
          return;
        }
      }
      ghost var before := tiles;
      FreeTop(base, runningBase, original, running);
      RestEnds(running, original);
      LaidJoin(before, tiles, rest, done, Remainder(running, original));
    }

    /** Cut a chunk of the required rank off a loose one and free the rest. */
    method SplitChunk(base: nat, original: nat, required: nat)
      requires Arrays() && BLOCK_RANKS <= required < original <= RANKS && Reachable(required, original)
      requires base in tiles && base < UNITS && tiles[base].len == Units(original)
      requires Good(Layout(), {base})
      modifies units, chunks, this`tiles, this`owner, this`lists
      ensures OnlyCut(old(tiles), tiles, base) && base in tiles
      ensures tiles[base] == Tile(Units(required), required, Loose) && units[base] == required
      ensures forall u :: base < u < base + Units(required) && u < UNITS ==> units[u] == old(units[u])
      ensures Good(Layout(), {base}) && Laid(tiles, base + Units(required), RestOf(required, original))
    {
      hide Good, Units, Laid, RestOf;
      UnitsMonotone(required, original);
      UnitsAtLeastFour(required);
      LooseTile(Layout(), base, {base});
      var rest := base + Size(required) / UNIT;
      UnitsBytes(required);
      CutLoose(base, Units(required), {base});
      assert {base} + {rest} == {base, rest};
      SetRank(base, required, {base, rest});
      FreeRest(base, rest, original, required);
    }

    /** Take the first chunk off a free list. */
    method TakeChunk(rank: nat) returns (base: nat)
      requires Arrays() && BLOCK_RANKS <= rank < RANKS && chunks[rank - BLOCK_RANKS] != 0
      requires Good(Layout(), {})
      modifies chunks, this`tiles, this`lists
      ensures base != 0 && base in old(tiles) && base + 2 < UNITS && units[base] == rank
      ensures old(tiles)[base] == Tile(Units(rank), rank, Free)
      ensures tiles == old(tiles)[base := Tile(Units(rank), rank, Loose)]
      ensures Good(Layout(), {base})
    {
      hide Good, Units;
      ghost var m := Layout();
      var i := rank - BLOCK_RANKS;
      HeadOfList(m, i, {});
      Sizes(m, {});
      base := chunks[i];
      chunks[i] := DecodeBase(units[base + 2], units[base + 1]);
      tiles := tiles[base := tiles[base].(kind := Loose)];
      lists := lists[i := lists[i][1..]];
      Popped(m, Layout(), i, {});
      assert {} + {base} == {base};
    }

    /** Mark a loose chunk as used. */
    method UseLarge(base: nat, rank: nat)
      requires Arrays() && BLOCK_RANKS <= rank < RANKS && base + 2 < UNITS && units[base] == rank
      requires base in tiles && tiles[base] == Tile(Units(rank), rank, Loose)
      requires Good(Layout(), {base})
      modifies units, this`tiles
      ensures tiles == old(tiles)[base := Tile(Units(rank), rank, Used)]
      ensures Good(Layout(), {})
    {
      hide Good, Units, Relabels;
      ghost var m := Layout();
      Fits(m, base, rank, {base});
      units[base + 1] := 0;
      units[base + 2] := 0;
      tiles := tiles[base := Tile(Units(rank), rank, Used)];
      UsedBytes(m, Layout(), base, rank);
      Relabelled(m, Layout(), base, Used, rank, {base});
      assert {base} - {base} == {};
    }

    /** Mark a loose chunk as a block: fill the unit map with its base, four bytes at a time. */
    method UseBlock(base: nat, rank: nat)
      requires Arrays() && BLOCK_RANKS <= rank < 56 && base < UNITS && units[base] == rank
      requires base in tiles && tiles[base] == Tile(Units(rank), rank, Loose) && base != 0
      requires Good(Layout(), {base})
      modifies units, this`tiles
      ensures tiles == old(tiles)[base := Tile(Units(rank), rank, Block)]
      ensures Good(Layout(), {})
    {
      hide Good, Units, Relabels, Marked;
      ghost var m := Layout();
      Fits(m, base, rank, {base});
      UnitsBytes(rank);
      Fill(base, Size(rank) / UNIT - 1);
      tiles := tiles[base := Tile(Units(rank), rank, Block)];
      BlockBytes(m, Layout(), base, rank);
      Relabelled(m, Layout(), base, Block, rank, {base});
      assert {base} - {base} == {};
    }

    method Fill(base: nat, end: nat)
      requires units.Length == UNITS && base + end < UNITS
      modifies units
      ensures Marked(old(units[..]), units[..], base, end)
    {
      hide Mark, Marked;
      ghost var before := units[..];
      var loopEnd, tail := end - end % 4, end % 4;
      var i := 0;
      MarkedNone(before, base);
      while i < loopEnd
        invariant 0 <= i <= loopEnd && i % 4 == 0 && Marked(before, units[..], base, i)
      {
        FillTwo(base, i, before);
        FillTwo(base, i + 2, before);
        i := i + 4;
      }
      if tail >= 2 {
        FillTwo(base, i, before);
        i := i + 2;
      }
      if tail % 2 == 1 {
        ghost var now: seq<nat> := units[..];
        MarkedOne(before, now, base, i);
        units[base + 1 + i] := BASE_TAG + base % 64;
        assert units[..] == now[base + 1 + i := BASE_TAG + base % 64];
      }
    }

    method FillTwo(base: nat, i: nat, ghost before: seq<nat>)
      requires units.Length == UNITS && base + i + 2 < UNITS && i % 2 == 0 && Marked(before, units[..], base, i)
      modifies units
      ensures Marked(before, units[..], base, i + 2)
    {
      hide Mark, Marked;
      ghost var now: seq<nat> := units[..];
      MarkedOne(before, now, base, i);
      units[base + 1 + i] := BASE_TAG + base % 64;
      assert units[..] == now[base + 1 + i := BASE_TAG + base % 64];
      now := units[..];
      MarkedTwo(before, now, base, i + 1);
      units[base + 2 + i] := base / 64;
      assert units[..] == now[base + 2 + i := base / 64];
    }

    /** Allocate a chunk of the required rank, to be used as such or as a block.  The result
        is zero if no chunk is found. */
    method AllocLarge(required: nat, block: bool) returns (base: nat)
      requires Arrays() && BLOCK_RANKS <= required < RANKS && (block ==> required < 56)
      requires Good(Layout(), {})
      modifies units, chunks, this`tiles, this`owner, this`lists
      ensures if base == 0 then tiles == old(tiles) else
                && base in old(tiles) && old(tiles)[base].kind == Free && OnlyCut(old(tiles), tiles, base)
                && base in tiles && tiles[base] == Tile(Units(required), required, if block then Block else Used)
      ensures base == 0 <==> Search(old(chunks[..]), required) >= RANKS
      ensures Good(Layout(), {}) && (base != 0 ==> CutFrom(old(chunks[..]), old(tiles), tiles, base, required))
    {
      hide Good, Units, Reachable, Search;
      var original := FindChunk(required);
      SearchFinds(chunks[..], required);
      if original >= RANKS {
        return 0;
      }
      base := TakeChunk(original);
      if original != required {
        SplitChunk(base, original, required);
      } else {
        RestEnds(required, original);
        NothingLaid(tiles, base + Units(required));
      }
      UnitsAtLeastFour(required);
      LaidBehind(tiles, base + Units(required), RestOf(required, original), base,
        Tile(Units(required), required, if block then Block else Used));
      if !block {
        UseLarge(base, required);
      } else {
        UseBlock(base, required);
      }
    }

    // ----- Blocks -----------------------------------------------------------------------------

    ghost function Slots(): Blocks
      reads this, blocks
    {
      Blocks(blocks[..], next, innerNext, chunkFree, innerUsed, innerFree, free, cached)
    }

    ghost predicate Valid()
      reads this, units, chunks, blocks
    {
      Arrays() && Good(Layout(), {}) && BlocksOk(Slots(), tiles)
    }

    /** Set up the header of a new block, its first slot taken, and cache it. */
    method SetUpBlock(block: nat, rank: nat)
      requires blocks.Length == BLOCK_RANKS == |cached| && rank < BLOCK_RANKS
      modifies this`next, this`innerNext, this`chunkFree, this`innerUsed, this`innerFree, this`cached, blocks
      ensures Slots() == NewBlock(old(Slots()), block, rank)
      ensures forall i :: 0 <= i < BLOCK_RANKS && i != rank ==> blocks[i] == old(blocks[i])
    {
      next, innerNext := next[block := 0], innerNext[block := 0];
      innerUsed, innerFree := innerUsed[block := {}], innerFree[block := {}];
      chunkFree := chunkFree[block := Bits(2, SLOTS)];
      blocks[rank] := block;
      cached := cached[rank := [block]];
    }

    /** Allocate a block, its first slot taken. */
    method AllocBlock(rank: nat) returns (block: nat)
      requires Valid() && SMALL_RANKS <= rank < BLOCK_RANKS && blocks[rank] == 0
      modifies this, units, chunks, blocks
      ensures Valid() && Steady(old(tiles), tiles)
      ensures if block == 0 then Slots() == old(Slots()) && tiles == old(tiles) else
                && IsBlock(tiles, block) && tiles[block].rank == BlockRank(rank)
                && Gains(old(Slots()), old(tiles), Slots(), tiles, Medium(block, 1))
      ensures block == 0 <==> Search(old(chunks[..]), rank + MEDIUM_RANKS) >= RANKS
      ensures forall i :: 0 <= i < SMALL_RANKS ==> blocks[i] == old(blocks[i])
    {
      hide Good, BlocksOk, Units, Search, Gains, OnlyCut, Steady, NewBlock, CutFrom;
      ghost var v, before := Slots(), tiles;
      BlockSizes(v, tiles);
      block := AllocLarge(rank + MEDIUM_RANKS, true);
      if block == 0 {
        StaysSteady(tiles);
        return;
      }
      BlockAllocated(v, before, tiles, block, rank);
      SetUpBlock(block, rank);
    }

    /** Take a slot of a block: s is the lowest free one. */
    method TakeFreeSlot(b: nat, rank: nat) returns (s: nat)
      requires blocks.Length == BLOCK_RANKS == |cached| && rank < BLOCK_RANKS && cached[rank] != []
      requires b in chunkFree && b in next && chunkFree[b] != {} && chunkFree[b] <= AllSlots()
      modifies this`chunkFree, this`cached, blocks
      ensures s in old(chunkFree)[b] && Slots() == TakeSlot(old(Slots()), b, rank, s)
      ensures forall i :: 0 <= i < BLOCK_RANKS && i != rank ==> blocks[i] == old(blocks[i])
    {
      hide AllSlots;
      s := Lowest(chunkFree[b]);
      chunkFree := chunkFree[b := chunkFree[b] - {s}];
      if chunkFree[b] == {} {
        blocks[rank] := next[b];
        cached := cached[rank := cached[rank][1..]];
      }
    }

    /** Take a slot of a medium rank, from a cached block or from a new one. */
    method GetSlot(rank: nat) returns (b: nat, s: nat)
      requires Valid() && SMALL_RANKS <= rank < BLOCK_RANKS
      modifies this, units, chunks, blocks
      ensures Valid() && Steady(old(tiles), tiles)
      ensures if b == 0 then Slots() == old(Slots()) && tiles == old(tiles) else
                && IsBlock(tiles, b) && tiles[b].rank == BlockRank(rank)
                && Gains(old(Slots()), old(tiles), Slots(), tiles, Medium(b, s))
      ensures b == 0 <==> NoRoom(old(blocks[..]), old(chunks[..]), rank)
      ensures forall i :: 0 <= i < SMALL_RANKS ==> blocks[i] == old(blocks[i])
    {
      hide Good, BlocksOk, Gains, Steady, TakeSlot;
      if blocks[rank] == 0 {
        b := AllocBlock(rank);
        s := 1;
        return;
      }
      ghost var v := Slots();
      b := blocks[rank];
      BlockSizes(v, tiles);
      HeadBlock(v, tiles, rank);
      StaysSteady(tiles);
      s := TakeFreeSlot(b, rank);
      TakeSlotOk(v, tiles, b, rank, s);
      TakeSlotGains(v, tiles, b, rank, s);
    }

    /** Take the lowest free cell of the first inner block of b that has one. */
    method TakeFreeCell(b: nat, rank: nat) returns (s: nat, k: nat)
      requires blocks.Length == BLOCK_RANKS == |cached| && rank < BLOCK_RANKS && cached[rank] != []
      requires b in innerFree && b in innerNext && innerFree[b] != {} && innerFree[b] <= AllSlots()
      requires forall x :: x in innerFree[b] ==> (b, x) in free && free[(b, x)] != {} && free[(b, x)] <= AllSlots()
      modifies this`free, this`innerFree, this`cached, blocks
      ensures s in old(innerFree)[b] && (b, s) in old(free) && k in old(free)[(b, s)]
      ensures Slots() == TakeCell(old(Slots()), b, rank, s, k)
    {
      hide AllSlots;
      s := Lowest(innerFree[b]);
      k := Lowest(free[(b, s)]);
      free := free[(b, s) := free[(b, s)] - {k}];
      if free[(b, s)] == {} {
        innerFree := innerFree[b := innerFree[b] - {s}];
        if innerFree[b] == {} {
          blocks[rank] := innerNext[b];
          cached := cached[rank := cached[rank][1..]];
        }
      }
    }

    /** Use slot s as an inner block, its first cell taken, and cache its block. */
    method OpenSlot(b: nat, rank: nat, s: nat)
      requires blocks.Length == BLOCK_RANKS == |cached| && rank < BLOCK_RANKS && b in innerUsed && b in innerFree
      modifies this`innerUsed, this`innerFree, this`free, this`innerNext, this`cached, blocks
      ensures Slots() == OpenInner(old(Slots()), b, rank, s)
    {
      innerUsed := innerUsed[b := innerUsed[b] + {s}];
      innerFree := innerFree[b := innerFree[b] + {s}];
      free := free[(b, s) := Bits(2, SLOTS)];
      blocks[rank] := b;
      cached := cached[rank := [b]];
      innerNext := innerNext[b := 0];
    }

    /** Take a cell of a small rank, from a cached inner block or from a new one. */
    method GetCell(rank: nat) returns (b: nat, s: nat, k: nat)
      requires Valid() && rank < SMALL_RANKS
      modifies this, units, chunks, blocks
      ensures Valid() && Steady(old(tiles), tiles)
      ensures if b == 0 then Slots() == old(Slots()) && tiles == old(tiles) else
                && IsBlock(tiles, b) && tiles[b].rank == BlockRank(rank)
                && Gains(old(Slots()), old(tiles), Slots(), tiles, Small(b, s, k))
      ensures b == 0 <==> NoRoom(old(blocks[..]), old(chunks[..]), rank)
    {
      hide Good, BlocksOk, Gains, Steady, TakeCell, OpenInner, AllSlots;
      ghost var v, before := Slots(), tiles;
      if blocks[rank] != 0 {
        b := blocks[rank];
        BlockSizes(v, tiles);
        HeadBlock(v, tiles, rank);
        StaysSteady(tiles);
        s, k := TakeFreeCell(b, rank);
        TakeCellOk(v, tiles, b, rank, s, k);
        TakeCellGains(v, tiles, b, rank, s, k);
        return;
      }
      b, s := GetSlot(rank + SMALL_TO_MEDIUM);
      k := 1;
      if b == 0 {
        return;
      }
      ghost var w := Slots();
      BlockSizes(w, tiles);
      BlockHeader(w, tiles, b);
      GainsLive(v, before, w, tiles, Medium(b, s));
      OpenInnerOk(w, tiles, b, rank, s);
      OpenInnerSwaps(w, tiles, b, rank, s);
      OpenSlot(b, rank, s);
      GainsThenSwaps(v, before, w, tiles, Slots(), Medium(b, s), Small(b, s, 1));
    }

    /** A span all of whose bytes are zero. */
    ghost predicate Zeroed()
      reads this, units, chunks, blocks
    {
      && Arrays() && (forall u :: 0 <= u < UNITS ==> units[u] == 0)
      && (forall i :: 0 <= i < 36 ==> chunks[i] == 0 && blocks[i] == 0)
      && |lists| == 36 && |cached| == BLOCK_RANKS && (forall i :: 0 <= i < 36 ==> lists[i] == [] && cached[i] == [])
      && tiles == map[0 := Tile(UNITS, 0, Loose)] && |owner| == UNITS && forall u :: 0 <= u < UNITS ==> owner[u] == 0
    }

    constructor ()
      ensures Zeroed() && fresh(units) && fresh(chunks) && fresh(blocks)
    {
      units, chunks, blocks := new nat[UNITS](_ => 0), new nat[36](_ => 0), new nat[BLOCK_RANKS](_ => 0);
      next, innerNext, chunkFree, innerUsed, innerFree, free := map[], map[], map[], map[], map[], map[];
      cached := seq(BLOCK_RANKS, _ => []);
      tiles := map[0 := Tile(UNITS, 0, Loose)];
      owner := seq(UNITS, _ => 0);
      lists := seq(36, _ => []);
    }

    /** Lay out a fresh span.  The first chunk holds the span's own header. */
    method Prepare()
      requires Zeroed()
      modifies units, chunks, this`tiles, this`owner, this`lists
      ensures Valid() && forall p :: !Live(Slots(), tiles, p)
      ensures 0 in tiles && tiles[0] == Tile(Units(BLOCK_RANKS), BLOCK_RANKS, Used)
      ensures forall b :: b in tiles && b != 0 ==> tiles[b].kind == Free
      ensures Laid(tiles, 4, [36, 40, 44, 48, 52, 56, 71])
    {
      hide Good, BlocksOk, Units, Reachable, Live, Laid, RestOf;
      InitialLayout(Layout());
      WholeSpan();
      SetRank(0, BLOCK_RANKS, {0});
      SplitChunk(0, RANKS, BLOCK_RANKS);
      FirstRest();
      LaidBehind(tiles, 4, RestOf(BLOCK_RANKS, RANKS), 0, Tile(Units(BLOCK_RANKS), BLOCK_RANKS, Used));
      assert units[1] == 0 && units[2] == 0;
      ClaimHeader();
      NoBlocks(Slots(), tiles);
    }

    /** The chunk at the start of the span is in use from now on. */
    ghost method ClaimHeader()
      requires Arrays() && units[0] == BLOCK_RANKS && units[1] == 0 && units[2] == 0
      requires 0 in tiles && tiles[0] == Tile(Units(BLOCK_RANKS), BLOCK_RANKS, Loose)
      requires Good(Layout(), {0})
      modifies this`tiles
      ensures tiles == old(tiles)[0 := Tile(Units(BLOCK_RANKS), BLOCK_RANKS, Used)]
      ensures Good(Layout(), {}) && forall b :: b in tiles ==> tiles[b].kind != Loose
    {
      hide Good, Units, Relabels;
      ghost var m := Layout();
      Fits(m, 0, BLOCK_RANKS, {0});
      tiles := tiles[0 := Tile(Units(BLOCK_RANKS), BLOCK_RANKS, Used)];
      assert units[..] == units[..][1 := 0][2 := 0];
      UsedBytes(m, Layout(), 0, BLOCK_RANKS);
      Relabelled(m, Layout(), 0, Used, BLOCK_RANKS, {0});
      assert {0} - {0} == {};
      NoneLoose(Layout());
    }

    // ----- Allocation ---------------------------------------------------------------------------

    /** Allocate a chunk for the given size.  On success p is the new chunk. */
    method Alloc(size: nat) returns (r: Result, ghost p: Piece)
      requires Valid()
      modifies this, units, chunks, blocks
      ensures Valid() && Steady(old(tiles), tiles)
      ensures r.Huge? <==> GetRank(size) >= RANKS
      ensures r.NoMemory? <==> GetRank(size) < RANKS && NoRoom(old(blocks[..]), old(chunks[..]), GetRank(size))
      ensures if r.Chunk? then Gains(old(Slots()), old(tiles), Slots(), tiles, p) && Serves(tiles, p, r.ptr, size)
              else Slots() == old(Slots()) && tiles == old(tiles)
    {
      hide Good, BlocksOk, Gains, Steady, GetRank, Size, Units, Search, OnlyCut, Serves, Times;
      hide NoRoom, BlockRank, Live, IsBlock;
      var rank := GetRank(size);
      StaysSteady(tiles);
      p := Large(0);
      if rank >= RANKS {
        return Huge, p;
      } else if rank >= BLOCK_RANKS {
        var base := GetLarge(rank);
        if base == 0 {
          return NoMemory, p;
        }
        p := Large(base);
        LargeServes(tiles, p, size);
        return Chunk(base * UNIT), p;
      } else if rank >= SMALL_RANKS {
        var b, s := GetSlot(rank);
        if b == 0 {
          return NoMemory, p;
        }
        p := Medium(b, s);
        GainsLive(old(Slots()), old(tiles), Slots(), tiles, p);
        PieceServes(Layout(), Slots(), p, size);
        return Chunk(b * UNIT + Times(s, Size(rank))), p;
      } else {
        var b, s, k := GetCell(rank);
        if b == 0 {
          return NoMemory, p;
        }
        p := Small(b, s, k);
        GainsLive(old(Slots()), old(tiles), Slots(), tiles, p);
        PieceServes(Layout(), Slots(), p, size);
        return Chunk(b * UNIT + Times(s, Size(rank + SMALL_TO_MEDIUM)) + Times(k, Size(rank))), p;
      }
    }

    method GetLarge(rank: nat) returns (base: nat)
      requires Valid() && BLOCK_RANKS <= rank < RANKS
      modifies units, chunks, this`tiles, this`owner, this`lists
      ensures Valid() && Steady(old(tiles), tiles)
      ensures if base == 0 then tiles == old(tiles) else
                && base in tiles && tiles[base] == Tile(Units(rank), rank, Used)
                && Gains(old(Slots()), old(tiles), Slots(), tiles, Large(base))
      ensures base == 0 <==> NoRoom(old(blocks[..]), old(chunks[..]), rank)
    {
      hide Good, BlocksOk, Gains, Steady, Units, Search, OnlyCut;
      StaysSteady(tiles);
      ghost var before := tiles;
      base := AllocLarge(rank, false);
      if base != 0 {
        TilesAfterAlloc(before, tiles, base);
        SameBlocksOk(Slots(), before, tiles, base);
        LargeGains(Slots(), before, tiles, base);
      }
    }

    // ----- Deallocation -------------------------------------------------------------------------

    /** The chunk that a live pointer leads to, from the unit map and the block's bit set. */
    method Identify(ptr: nat, ghost p: Piece) returns (q: Piece)
      requires Valid() && Live(Slots(), tiles, p) && Placed(tiles, p) && Address(tiles, p) == ptr
      ensures q == p
    {
      hide Good, BlocksOk, Size, Units, DeduceBase, SlotOf, Times;
      PointerFindsBase(Layout(), Slots(), p);
      var base := DeduceBase(units[..], ptr / UNIT);
      var rank := units[base];
      if !IsBlockMark(units[base + 1]) {
        return Large(base);
      }
      PointerFindsSlot(tiles, p);
      BlockHeader(Slots(), tiles, base);
      var offset := ptr - base * UNIT;
      var slot := SlotOf(offset, SlotSize(rank));
      if slot !in innerUsed[base] {
        return Medium(base, slot);
      }
      return Small(base, slot, SlotOf(offset - Times(slot, SlotSize(rank)), CellSize(rank)));
    }

    method ReturnSlot(b: nat, rank: nat, s: nat)
      requires blocks.Length == BLOCK_RANKS == |cached| && rank < BLOCK_RANKS && b in chunkFree
      modifies this`chunkFree, this`next, this`cached, blocks
      ensures Slots() == AddSlot(old(Slots()), b, rank, s)
    {
      if chunkFree[b] == {} {
        next := next[b := blocks[rank]];
        blocks[rank] := b;
        cached := cached[rank := [b] + cached[rank]];
      }
      chunkFree := chunkFree[b := chunkFree[b] + {s}];
    }

    method ReturnCell(b: nat, rank: nat, s: nat, k: nat)
      requires blocks.Length == BLOCK_RANKS == |cached| && rank < BLOCK_RANKS && b in innerFree && (b, s) in free
      modifies this`free, this`innerFree, this`innerNext, this`cached, blocks
      ensures Slots() == AddCell(old(Slots()), b, rank, s, k)
    {
      free := free[(b, s) := free[(b, s)] + {k}];
      if innerFree[b] == {} {
        innerNext := innerNext[b := blocks[rank]];
        blocks[rank] := b;
        cached := cached[rank := [b] + cached[rank]];
      }
      innerFree := innerFree[b := innerFree[b] + {s}];
    }

    /** Unlink a block from a list of blocks with free cells; `at` is its position. */
    method UnlinkBlock(b: nat, rank: nat) returns (ghost at: nat)
      requires blocks.Length == BLOCK_RANKS == |cached| && rank < BLOCK_RANKS
      requires Chain(blocks[rank], cached[rank], innerNext) && b in cached[rank] && b != 0
      modifies this`innerNext, this`cached, blocks
      ensures at < |old(cached)[rank]| && old(cached)[rank][at] == b && b in old(innerNext)
      ensures Slots() == Unlink(old(Slots()), rank, at)
    {
      ghost var list := cached[rank];
      at := 0;
      if blocks[rank] == b {
        blocks[rank] := innerNext[b];
        cached := cached[rank := Skip(list, 0)];
        return;
      }
      var prev := blocks[rank];
      while innerNext[prev] != b
        invariant at + 1 < |list| && prev == list[at] && prev in innerNext && b in list[at + 1..]
        decreases |list| - at
      {
        prev := innerNext[prev];
        at := at + 1;
      }
      at := at + 1;
      innerNext := innerNext[prev := innerNext[b]];
      cached := cached[rank := Skip(list, at)];
    }

    /** Stop using slot s as an inner block, all of whose cells but k are free already. */
    method CloseSlot(b: nat, rank: nat, s: nat, ghost k: nat)
      requires Valid() && IsBlock(tiles, b) && rank < SMALL_RANKS && tiles[b].rank == BlockRank(rank)
      requires Live(Slots(), tiles, Small(b, s, k)) && free[(b, s)] + {k} == AllSlots()
      modifies this`innerUsed, this`innerFree, this`innerNext, this`cached, blocks
      ensures Valid() && Swaps(old(Slots()), tiles, Slots(), Small(b, s, k), Medium(b, s))
    {
      hide Good, BlocksOk, AllSlots, Swaps, Chain, Skip;
      ghost var v := Slots();
      BlockSizes(v, tiles);
      BlockHeader(v, tiles, b);
      CellsListed(v, tiles, b, rank, s, k);
      innerUsed := innerUsed[b := innerUsed[b] - {s}];
      innerFree := innerFree[b := innerFree[b] - {s}];
      ghost var w := Slots();
      assert w == CloseInner(v, b, rank, s);
      if innerFree[b] == {} {
        assert v.innerFree[b] == {s};
        ghost var at := UnlinkBlock(b, rank);
        UnlinkOk(v, tiles, b, rank, s, at);
      } else {
        assert v.innerFree[b] != {s};
        CloseInnerOk(v, tiles, b, rank, s);
      }
      CloseInnerSwaps(v, Slots(), tiles, b, rank, s, k);
    }

    method FreeLarge(base: nat)
      requires Valid() && Live(Slots(), tiles, Large(base))
      modifies units, chunks, this`tiles, this`lists
      ensures Valid() && Loses(old(Slots()), old(tiles), Slots(), tiles, Large(base))
      ensures base in tiles && tiles == old(tiles)[base := tiles[base]]
    {
      hide Good, BlocksOk, Units, Loses;
      ghost var before := tiles;
      UsedTile(Layout(), base);
      FreeChunk(base, units[base], {});
      assert {} - {base} == {};
      SameBlocksOk(Slots(), before, tiles, base);
      LargeLoses(Slots(), before, tiles, base);
    }

    method FreeSlot(b: nat, s: nat)
      requires Valid() && Live(Slots(), tiles, Medium(b, s))
      modifies this`chunkFree, this`next, this`cached, blocks
      ensures Valid() && Loses(old(Slots()), tiles, Slots(), tiles, Medium(b, s))
    {
      hide Good, BlocksOk, Loses, AllSlots;
      ghost var v := Slots();
      BlockSizes(v, tiles);
      BlockHeader(v, tiles, b);
      BlockRankByte(Layout(), b);
      EverySlot(s);
      var rank := units[b] - MEDIUM_RANKS;
      ReturnSlot(b, rank, s);
      AddSlotOk(v, tiles, b, rank, s);
      AddSlotLoses(v, tiles, b, rank, s);
    }

    method FreeCell(b: nat, s: nat, k: nat)
      requires Valid() && Live(Slots(), tiles, Small(b, s, k))
      modifies this, blocks
      ensures Valid() && Loses(old(Slots()), tiles, Slots(), tiles, Small(b, s, k)) && tiles == old(tiles)
    {
      hide Good, BlocksOk, Loses, AllSlots, Swaps;
      ghost var v := Slots();
      BlockSizes(v, tiles);
      BlockHeader(v, tiles, b);
      BlockRankByte(Layout(), b);
      EverySlot(k);
      var rank := units[b] - MEDIUM_RANKS - SMALL_TO_MEDIUM;
      if free[(b, s)] + {k} != AllSlots() {
        ReturnCell(b, rank, s, k);
        AddCellOk(v, tiles, b, rank, s, k);
        AddCellLoses(v, tiles, b, rank, s, k);
      } else {
        CloseSlot(b, rank, s, k);
        ghost var w := Slots();
        SwapsLive(v, tiles, w, Small(b, s, k), Medium(b, s));
        FreeSlot(b, s);
        SwapsThenLoses(v, tiles, w, Slots(), Small(b, s, k), Medium(b, s));
      }
    }

    /** Free the chunk p at ptr: exactly p is no longer handed out. */
    method Release(ptr: nat, ghost p: Piece)
      requires Valid() && Live(Slots(), tiles, p) && Placed(tiles, p) && Address(tiles, p) == ptr
      modifies this, units, chunks, blocks
      ensures Valid() && Loses(old(Slots()), old(tiles), Slots(), tiles, p)
      ensures forall b :: b in old(tiles) && p != Large(b) ==> b in tiles && tiles[b] == old(tiles)[b]
    {
      hide Good, BlocksOk, Loses, Live, Placed, Address;
      var q := Identify(ptr, p);
      match q
      case Large(b) => FreeLarge(b);
      case Medium(b, s) => FreeSlot(b, s);
      case Small(b, s, k) => FreeCell(b, s, k);
    }

    /** The size of the chunk at ptr. */
    method ChunkSize(ptr: nat, ghost p: Piece) returns (size: nat)
      requires Valid() && Live(Slots(), tiles, p) && Placed(tiles, p) && Address(tiles, p) == ptr
      ensures size == Bytes(tiles, p)
    {
      hide Good, BlocksOk, Size;
      PointerFindsBase(Layout(), Slots(), p);
      var q := Identify(ptr, p);
      var rank := units[q.base];
      match q
      case Large(_) => return Size(rank);
      case Medium(_, _) => return SlotSize(rank);
      case Small(_, _, _) => return CellSize(rank);
    }
  }

  lemma UsedTile(m: Map, b: nat)
    requires Good(m, {}) && b in m.tiles && m.tiles[b].kind == Used
    ensures b + 2 < UNITS == |m.units| && BLOCK_RANKS <= m.tiles[b].rank < RANKS && m.units[b] == m.tiles[b].rank
    ensures m.tiles[b].len == Units(m.tiles[b].rank)
  {
    hide Units;
    assert TileOk(m.units, b, m.tiles[b]);
  }

  lemma BlockRankByte(m: Map, b: nat)
    requires Good(m, {}) && IsBlock(m.tiles, b)
    ensures b < UNITS == |m.units| && m.units[b] == m.tiles[b].rank
  {
    hide Units;
    assert TileOk(m.units, b, m.tiles[b]);
  }

  lemma LargeLoses(v: Blocks, before: map<nat, Tile>, after: map<nat, Tile>, b: nat)
    requires Live(v, before, Large(b)) && b in after && after[b].kind == Free && after == before[b := after[b]]
    ensures Loses(v, before, v, after, Large(b))
  {}

  lemma SwapsLive(v: Blocks, tiles: map<nat, Tile>, w: Blocks, p: Piece, q: Piece)
    requires Swaps(v, tiles, w, p, q)
    ensures Live(w, tiles, q)
  {}

  lemma SwapsThenLoses(v: Blocks, tiles: map<nat, Tile>, w: Blocks, x: Blocks, p: Piece, q: Piece)
    requires Swaps(v, tiles, w, p, q) && Loses(w, tiles, x, tiles, q)
    ensures Loses(v, tiles, x, tiles, p)
  {}

  /** A block with free cells in slot s is on the list for its cells. */
  lemma CellsListed(v: Blocks, tiles: map<nat, Tile>, b: nat, i: nat, s: nat, k: nat)
    requires BlocksOk(v, tiles) && IsBlock(tiles, b) && i < SMALL_RANKS && tiles[b].rank == BlockRank(i)
    requires Live(v, tiles, Small(b, s, k)) && v.free[(b, s)] + {k} == AllSlots()
    ensures Closes(v, tiles, b, i, s) && b in v.cached[i] && Chain(v.heads[i], v.cached[i], v.innerNext)
  {
    hide AllSlots, Bits;
    assert HeaderOk(v, b, tiles[b].rank);
    assert InnerOk(v.free[(b, s)], s in v.innerFree[b]);
    assert v.free[(b, s)] != {} by {
      EverySlot(1);
      EverySlot(2);
      assert 1 in v.free[(b, s)] + {k} && 2 in v.free[(b, s)] + {k};
    }
    assert CacheOk(v, tiles, i);
  }

  lemma InitialLayout(m: Map)
    requires |m.units| == UNITS && |m.chunks| == 36 && |m.lists| == 36
    requires forall i :: 0 <= i < 36 ==> m.chunks[i] == 0 && m.lists[i] == []
    requires m.tiles == map[0 := Tile(UNITS, 0, Loose)] && |m.owner| == UNITS
    requires forall u :: 0 <= u < UNITS ==> m.owner[u] == 0
    ensures Good(m, {0})
  {
    hide Units;
  }

  /** The chunk that is cut is of the first rank found by the search, and the rest of it is free. */
  ghost predicate CutFrom(chunks: seq<nat>, before: map<nat, Tile>, after: map<nat, Tile>, base: nat, required: nat)
    requires |chunks| == 36 && BLOCK_RANKS <= required < RANKS
  {
    var original := Search(chunks, required);
    && base in before && before[base] == Tile(Units(original), original, Free)
    && original <= RANKS && Reachable(required, original)
    && Laid(after, base + Units(required), RestOf(required, original))
  }

  /** What is left of a whole span behind its header. */
  lemma FirstRest()
    ensures Reachable(BLOCK_RANKS, RANKS) && RestOf(BLOCK_RANKS, RANKS) == [36, 40, 44, 48, 52, 56, 71]
  {
    hide Remainder;
    WholeSpan();
    RestNext(36, 72); RestNext(40, 72); RestNext(44, 72); RestNext(48, 72); RestNext(52, 72); RestNext(56, 72);
    RestEnds(60, 72);
    LastRest();
  }

  lemma LastRest()
    ensures Remainder(60, 72) == [71]
  {}

  lemma WholeSpan()
    ensures Units(RANKS) == UNITS && Reachable(BLOCK_RANKS, RANKS) && Units(BLOCK_RANKS) == 4
  {
    UnitsTable();
    assert Reachable(68, 72) && Reachable(64, 72) && Reachable(60, 72);
    assert Reachable(56, 72) && Reachable(52, 72) && Reachable(48, 72) && Reachable(44, 72) && Reachable(40, 72);
  }

  lemma NoneLoose(m: Map)
    requires Good(m, {})
    ensures forall b :: b in m.tiles ==> m.tiles[b].kind != Loose
  {}

  /** Without blocks and with the header as the only chunk in use, nothing is handed out. */
  lemma NoBlocks(v: Blocks, tiles: map<nat, Tile>)
    requires |v.heads| == BLOCK_RANKS && |v.cached| == BLOCK_RANKS
    requires forall i :: 0 <= i < BLOCK_RANKS ==> v.heads[i] == 0 && v.cached[i] == []
    requires forall b :: b in tiles && b != 0 ==> tiles[b].kind == Free
    requires 0 in tiles && tiles[0].kind == Used
    ensures BlocksOk(v, tiles) && forall p :: !Live(v, tiles, p)
  {
    forall b ensures !IsBlock(tiles, b) {}
    forall i | 0 <= i < BLOCK_RANKS ensures CacheOk(v, tiles, i) {}
  }

  datatype Result = Chunk(ptr: nat) | Huge | NoMemory

  /** There is no cached block for a rank and no free chunk to make one from. */
  predicate NoRoom(heads: seq<nat>, chunks: seq<nat>, rank: nat)
    requires |heads| == BLOCK_RANKS && |chunks| == 36
  {
    if rank >= BLOCK_RANKS then Search(chunks, rank) >= RANKS
    else if rank >= SMALL_RANKS then heads[rank] == 0 && Search(chunks, rank + 20) >= RANKS
    else heads[rank] == 0 && heads[rank + 20] == 0 && Search(chunks, rank + 40) >= RANKS
  }

  /** Without room for a rank, every chunk that could be cut for it is in use. */
  lemma NoRoomMeans(m: Map, v: Blocks, rank: nat)
    requires Good(m, {}) && BlocksOk(v, m.tiles) && rank < RANKS && |v.heads| == BLOCK_RANKS && |m.chunks| == 36
    requires NoRoom(v.heads, m.chunks, rank)
    ensures var large := if rank >= BLOCK_RANKS then rank else BlockRank(rank);
            forall b :: b in m.tiles && m.tiles[b].kind == Free ==> !Reachable(large, m.tiles[b].rank)
    ensures rank < BLOCK_RANKS ==>
              forall b :: IsBlock(m.tiles, b) && m.tiles[b].rank == BlockRank(rank) && b in Offer(v, rank)
                  ==> Offer(v, rank)[b] == {}
    ensures rank < SMALL_RANKS ==>
              forall b :: IsBlock(m.tiles, b) && m.tiles[b].rank == BlockRank(rank + 20) && b in Offer(v, rank + 20)
                  ==> Offer(v, rank + 20)[b] == {}
  {
    hide Good, BlocksOk, Search, Reachable;
    var large := if rank >= BLOCK_RANKS then rank else BlockRank(rank);
    SearchFinds(m.chunks, large);
    forall b | b in m.tiles && m.tiles[b].kind == Free ensures !Reachable(large, m.tiles[b].rank) {
      FreeHead(m, b);
      ReachableUp(large, m.tiles[b].rank);
    }
    if rank < BLOCK_RANKS {
      EmptyList(v, m.tiles, rank);
    }
    if rank < SMALL_RANKS {
      EmptyList(v, m.tiles, rank + 20);
    }
  }

  /** A request may fail although a larger chunk is free: below rank 60 the search goes up by four
      ranks at a time, so that for rank 37 it does not come to rank 56. */
  lemma SearchSkips(chunks: seq<nat>)
    requires |chunks| == 36 && forall i :: 0 <= i < 36 && i != 20 ==> chunks[i] == 0
    ensures Search(chunks, 37) >= RANKS && !Reachable(37, 56) && Size(37) < Size(56)
  {
    hide Search, Size;
    SizeMonotone(37, 56);
    SearchFinds(chunks, 37);
  }

  lemma FreeHead(m: Map, b: nat)
    requires Good(m, {}) && b in m.tiles && m.tiles[b].kind == Free
    ensures BLOCK_RANKS <= m.tiles[b].rank < RANKS && |m.chunks| == 36 && m.chunks[m.tiles[b].rank - BLOCK_RANKS] != 0
  {
    hide Units, Linked, Tiled;
    var i := m.tiles[b].rank - BLOCK_RANKS;
    assert ListOk(m.lists[i], BLOCK_RANKS + i, m.chunks[i], m.units, m.tiles);
  }

  lemma ReachableUp(a: nat, b: nat)
    ensures Reachable(a, b) ==> a <= b
  {}

  /** The chunk p at address ptr has the least size that serves a request. */
  ghost predicate Serves(tiles: map<nat, Tile>, p: Piece, ptr: nat, size: nat)
  {
    Placed(tiles, p) && Address(tiles, p) == ptr && Bytes(tiles, p) == Size(GetRank(size))
  }

  lemma LargeServes(tiles: map<nat, Tile>, p: Piece, size: nat)
    requires p.Large? && BLOCK_RANKS <= GetRank(size) < RANKS
    requires p.base in tiles && tiles[p.base] == Tile(Units(GetRank(size)), GetRank(size), Used)
    ensures Serves(tiles, p, p.base * UNIT, size)
  {}

  lemma PieceServes(m: Map, v: Blocks, p: Piece, size: nat)
    requires Good(m, {}) && BlocksOk(v, m.tiles) && Live(v, m.tiles, p) && IsBlock(m.tiles, p.base) && !p.Large?
    requires GetRank(size) < BLOCK_RANKS && m.tiles[p.base].rank == BlockRank(GetRank(size))
    requires p.Small? <==> GetRank(size) < SMALL_RANKS
    ensures p.Medium? ==> Serves(m.tiles, p, p.base * UNIT + Times(p.slot, Size(GetRank(size))), size)
    ensures p.Small? ==> Serves(m.tiles, p, p.base * UNIT + Times(p.slot, Size(GetRank(size) + 20)) + Times(p.cell,
            Size(GetRank(size))), size)
  {
    hide Good, BlocksOk, GetRank, Size, Units, Times;
    IsPlaced(m, v, p);
  }

  lemma LargeGains(v: Blocks, before: map<nat, Tile>, after: map<nat, Tile>, b: nat)
    requires SameBlocks(before, after, b) && b in before && before[b].kind == Free && b != 0
    requires b in after && after[b].kind == Used && Steady(before, after)
    requires forall c :: c != b && c in after && after[c].kind == Used ==> c in before && before[c] == after[c]
    ensures Gains(v, before, v, after, Large(b))
  {}

  lemma BlockHeader(v: Blocks, tiles: map<nat, Tile>, b: nat)
    requires BlocksOk(v, tiles) && IsBlock(tiles, b)
    ensures HeaderOk(v, b, tiles[b].rank) && BLOCK_RANKS <= tiles[b].rank < 56 && b != 0
  {}

  lemma GainsLive(v: Blocks, tiles: map<nat, Tile>, w: Blocks, after: map<nat, Tile>, p: Piece)
    requires Gains(v, tiles, w, after, p)
    ensures Live(w, after, p)
    ensures p.Medium? ==> p.slot in AllSlots()
  {
    EverySlot(if p.Medium? then p.slot else 0);
  }

  lemma GainsThenSwaps(v: Blocks, before: map<nat, Tile>, w: Blocks, tiles: map<nat, Tile>, x: Blocks, p: Piece,
      q: Piece)
    requires Gains(v, before, w, tiles, p) && Swaps(w, tiles, x, p, q)
    ensures Gains(v, before, x, tiles, q)
  {}

  /** The head of a list is a block of the list's rank that has something to offer. */
  lemma HeadBlock(v: Blocks, tiles: map<nat, Tile>, i: nat)
    requires BlocksOk(v, tiles) && i < BLOCK_RANKS && v.heads[i] != 0
    ensures var b := v.heads[i];
            && IsBlock(tiles, b) && tiles[b].rank == BlockRank(i) && v.cached[i] != [] && HeaderOk(v, b, tiles[b].rank)
            && b in v.chunkFree && b in v.innerFree && b in v.next && b in v.innerNext && Offer(v, i)[b] != {}
  {
    assert CacheOk(v, tiles, i);
    assert v.heads[i] in v.cached[i];
  }

  lemma BlockSizes(v: Blocks, tiles: map<nat, Tile>)
    requires BlocksOk(v, tiles)
    ensures |v.heads| == BLOCK_RANKS && |v.cached| == BLOCK_RANKS
  {}

  lemma StaysSteady(tiles: map<nat, Tile>)
    ensures Steady(tiles, tiles)
  {}

  /** What the blocks see of a large allocation. */
  lemma TilesAfterAlloc(before: map<nat, Tile>, after: map<nat, Tile>, b: nat)
    requires b in before && before[b].kind == Free && b in after && OnlyCut(before, after, b)
    ensures SameBlocks(before, after, b) && Steady(before, after)
    ensures forall c :: c != b && c in after && after[c].kind == Used ==> c in before && before[c] == after[c]
  {}

  lemma BlockAllocated(v: Blocks, before: map<nat, Tile>, after: map<nat, Tile>, b: nat, i: nat)
    requires BlocksOk(v, before) && SMALL_RANKS <= i < BLOCK_RANKS && b != 0 && v.heads[i] == 0
    requires b in before && before[b].kind == Free && OnlyCut(before, after, b)
    requires IsBlock(after, b) && after[b].rank == BlockRank(i)
    ensures BlocksOk(NewBlock(v, b, i), after) && Steady(before, after)
    ensures Gains(v, before, NewBlock(v, b, i), after, Medium(b, 1))
  {
    hide BlocksOk, NewBlock, Gains, OnlyCut;
    BlockSizes(v, before);
    TilesAfterAlloc(before, after, b);
    NewBlockOk(v, before, after, b, i);
    NewBlockGains(v, before, after, b, i);
  }

  /** Chunks in use stay where they are. */
  ghost predicate Steady(before: map<nat, Tile>, after: map<nat, Tile>)
  {
    forall b :: b in before && before[b].kind in {Used, Block} ==> b in after && after[b] == before[b]
  }

  /** The i units after the base are marked, and only they have changed. */
  ghost predicate Marked(before: seq<nat>, now: seq<nat>, base: nat, i: nat)
  {
    && |now| == |before| && (forall u :: base < u <= base + i && u < |now| ==> now[u] == Mark(base, u - base))
    && (forall u :: 0 <= u < |now| && !(base < u <= base + i) ==> now[u] == before[u])
  }

  lemma MarkedNone(units: seq<nat>, base: nat)
    ensures Marked(units, units, base, 0)
  {}

  lemma MarkedOne(before: seq<nat>, now: seq<nat>, base: nat, i: nat)
    requires Marked(before, now, base, i) && base + 1 + i < |now| && i % 2 == 0
    ensures Marked(before, now[base + 1 + i := BASE_TAG + base % 64], base, i + 1)
  {}

  lemma MarkedTwo(before: seq<nat>, now: seq<nat>, base: nat, i: nat)
    requires Marked(before, now, base, i) && base + 1 + i < |now| && i % 2 == 1
    ensures Marked(before, now[base + 1 + i := base / 64], base, i + 1)
  {}

  lemma BlockBytes(m: Map, w: Map, b: nat, rank: nat)
    requires b in m.tiles && BLOCK_RANKS <= rank < 56 && m.tiles[b].len == Units(rank) >= 4
    requires b + Units(rank) <= |m.units| == |w.units| && m.units[b] == rank
    requires w.tiles == m.tiles[b := Tile(Units(rank), rank, Block)] && w.owner == m.owner
    requires Marked(m.units, w.units, b, Units(rank) - 1)
    ensures Relabels(m, w, b, Block, rank)
  {
    hide Units, Mark;
  }

  lemma Sizes(m: Map, loose: set<nat>)
    requires Good(m, loose)
    ensures |m.units| == UNITS && |m.chunks| == 36 && |m.lists| == 36
  {}

  lemma UsedBytes(m: Map, w: Map, b: nat, rank: nat)
    requires b in m.tiles && BLOCK_RANKS <= rank < RANKS && m.tiles[b].len == Units(rank) >= 4
    requires b + Units(rank) <= |m.units| && m.units[b] == rank
    requires w.tiles == m.tiles[b := Tile(Units(rank), rank, Used)] && w.owner == m.owner
    requires w.units == m.units[b + 1 := 0][b + 2 := 0]
    ensures Relabels(m, w, b, Used, rank)
  {}

  lemma LooseTile(m: Map, b: nat, loose: set<nat>)
    requires Good(m, loose) && b in m.tiles && b in loose
    ensures m.tiles[b].kind == Loose && 0 < m.tiles[b].len && b + m.tiles[b].len <= UNITS && |m.units| == UNITS
  {}

  lemma LooseBytes(m: Map, w: Map, b: nat, rank: nat)
    requires b in m.tiles && m.tiles[b].kind == Loose && 0 < m.tiles[b].len && b + m.tiles[b].len <= |m.units|
    requires w.units == m.units[b := rank]
    requires w.tiles == m.tiles[b := m.tiles[b].(rank := rank)] && w.owner == m.owner
    ensures Relabels(m, w, b, Loose, rank)
  {}

  lemma Fits(m: Map, b: nat, rank: nat, loose: set<nat>)
    requires Good(m, loose) && b in m.tiles && BLOCK_RANKS <= rank < RANKS && Units(rank) <= m.tiles[b].len
    ensures 4 <= Units(rank) && b + Units(rank) <= UNITS
    ensures |m.lists| == 36
  {
    UnitsAtLeastFour(rank);
  }

  lemma FreeBytes(m: Map, w: Map, b: nat, rank: nat, x: nat, y: nat)
    requires b in m.tiles && BLOCK_RANKS <= rank < RANKS && m.tiles[b].len == Units(rank) >= 4
    requires b + Units(rank) <= |m.units| && m.units[b] == rank
    requires w.tiles == m.tiles[b := Tile(Units(rank), rank, Free)] && w.owner == m.owner
    requires w.units == m.units[b + 1 := x][b + 2 := y]
    ensures Relabels(m, w, b, Free, rank) && SameOutside(m.units, w.units, b, Units(rank))
  {}
}
