/** The unit map of a heap span: large chunks and their free lists (src/base/memory/cache.c).

    The map has one byte per unit.  The first byte of a chunk holds its rank, the next two tell
    a used chunk, a block, or a free chunk with the link to the next one of its rank. */
module UnitMap {
  import opened ChunkRanks

  // ----- Tiles ---------------------------------------------------------------------------------

  /** What a chunk is used for.  A loose chunk is being taken apart or handed out. */
  datatype Kind = Free | Used | Block | Loose

  datatype Tile = Tile(len: nat, rank: nat, kind: Kind)

  /** Every unit belongs to exactly one tile: its owner. */
  ghost predicate Tiled(tiles: map<nat, Tile>, owner: seq<nat>)
  {
    && |owner| == UNITS
    && (forall u :: 0 <= u < UNITS ==> owner[u] in tiles && owner[u] <= u < owner[u] + tiles[owner[u]].len)
    && (forall b :: b in tiles ==> 0 < tiles[b].len && b + tiles[b].len <= UNITS)
    && (forall b, u :: b in tiles && b <= u < b + tiles[b].len ==> owner[u] == b)
  }

  /** Tiles do not overlap. */
  lemma TilesDisjoint(tiles: map<nat, Tile>, owner: seq<nat>, b: nat, c: nat)
    requires Tiled(tiles, owner) && b in tiles && c in tiles && b != c
    ensures b + tiles[b].len <= c || c + tiles[c].len <= b
  {
    var u := if b < c then c else b;
    assert owner[u] == u;
    assert b + tiles[b].len <= u || b > u || owner[u] == b;
    assert c + tiles[c].len <= u || c > u || owner[u] == c;
  }

  ghost function CutTiles(tiles: map<nat, Tile>, b: nat, n: nat): map<nat, Tile>
    requires b in tiles && 0 < n < tiles[b].len
  {
    tiles[b := tiles[b].(len := n)][b + n := Tile(tiles[b].len - n, 0, Loose)]
  }

  ghost function CutOwner(tiles: map<nat, Tile>, owner: seq<nat>, b: nat, n: nat): seq<nat>
    requires b in tiles
  {
    seq(|owner|, u requires 0 <= u < |owner| => if b + n <= u < b + tiles[b].len then b + n else owner[u])
  }

  lemma CutTiled(tiles: map<nat, Tile>, owner: seq<nat>, b: nat, n: nat)
    requires Tiled(tiles, owner) && b in tiles && 0 < n < tiles[b].len
    ensures Tiled(CutTiles(tiles, b, n), CutOwner(tiles, owner, b, n)) && b + n !in tiles
  {
    var cut := CutTiles(tiles, b, n);
    var own := CutOwner(tiles, owner, b, n);
    assert owner[b + n] == b;
    forall c, u | c in cut && c <= u < c + cut[c].len ensures own[u] == c {
      if c != b && c != b + n {
        assert owner[u] == c;
        TilesDisjoint(tiles, owner, b, c);
      }
    }
  }

  // ----- The encoding of a tile -----------------------------------------------------------------

  const BASE_TAG: nat := 128
  const NEXT_TAG: nat := 192

  /** The mark of the j-th unit of a block: the block's own base, in two alternating bytes. */
  function Mark(b: nat, j: nat): nat
  {
    if j % 2 == 1 then BASE_TAG + b % 64 else b / 64
  }

  function DecodeBase(hi: nat, lo: nat): nat
  {
    hi * 64 + lo % 64
  }

  ghost predicate TileOk(units: seq<nat>, b: nat, t: Tile)
  {
    && b + t.len <= |units|
    && (t.kind != Loose ==> BLOCK_RANKS <= t.rank < RANKS && t.len == Units(t.rank) && 4 <= t.len && units[b] == t.rank)
    && (t.kind == Used ==> units[b + 1] == 0 && units[b + 2] == 0)
    && (t.kind == Block ==> t.rank < 56 && forall u :: b < u < b + t.len ==> units[u] == Mark(b, u - b))
  }

  // ----- Free lists -------------------------------------------------------------------------------

  /** The element of a list, or zero past its end. */
  function At(list: seq<nat>, j: nat): nat
  {
    if j < |list| then list[j] else 0
  }

  ghost predicate Linked(units: seq<nat>, b: nat, next: nat)
  {
    b + 2 < |units| && units[b + 1] == NEXT_TAG + next % 64 && units[b + 2] == next / 64
  }

  ghost predicate ListOk(list: seq<nat>, rank: nat, head: nat, units: seq<nat>, tiles: map<nat, Tile>)
  {
    && head == At(list, 0)
    && (forall j :: 0 <= j < |list| ==> list[j] in tiles && tiles[list[j]].kind == Free && tiles[list[j]].rank == rank)
    && (forall j, k :: 0 <= j < k < |list| ==> list[j] != list[k])
    && (forall j :: 0 <= j < |list| ==> Linked(units, list[j], At(list, j + 1)))
  }

  /** The state of the unit map, with the tiles and the free lists that it encodes. */
  datatype Map = Map(units: seq<nat>, chunks: seq<nat>,
                     tiles: map<nat, Tile>, owner: seq<nat>, lists: seq<seq<nat>>)

  ghost predicate TilesOk(m: Map, loose: set<nat>)
  {
    && |m.units| == UNITS && Tiled(m.tiles, m.owner)
    && (forall b :: b in m.tiles ==> TileOk(m.units, b, m.tiles[b]))
    && (forall b :: b in m.tiles ==> (m.tiles[b].kind == Loose <==> b in loose))
    && loose <= m.tiles.Keys
    && 0 in m.tiles && m.tiles[0].kind in {Used, Loose}
  }

  ghost predicate ListsOk(m: Map)
  {
    && |m.chunks| == 36 && |m.lists| == 36
    && (forall i :: 0 <= i < 36 ==> ListOk(m.lists[i], BLOCK_RANKS + i, m.chunks[i], m.units, m.tiles))
    && (forall b :: b in m.tiles && m.tiles[b].kind == Free ==>
          BLOCK_RANKS <= m.tiles[b].rank < RANKS && b in m.lists[m.tiles[b].rank - BLOCK_RANKS])
  }

  ghost predicate Good(m: Map, loose: set<nat>)
  {
    TilesOk(m, loose) && ListsOk(m)
  }

  // ----- Frames --------------------------------------------------------------------------------------

  /** The two maps of units differ only inside one tile. */
  ghost predicate SameOutside(units: seq<nat>, later: seq<nat>, b: nat, len: nat)
  {
    |later| == |units| && forall u :: 0 <= u < |units| && !(b <= u < b + len) ==> later[u] == units[u]
  }

  lemma OtherTileKept(m: Map, later: seq<nat>, b: nat, c: nat, loose: set<nat>)
    requires TilesOk(m, loose) && b in m.tiles && c in m.tiles && b != c
    requires SameOutside(m.units, later, b, m.tiles[b].len)
    ensures TileOk(later, c, m.tiles[c])
    ensures m.tiles[c].kind == Free ==> forall next :: Linked(m.units, c, next) ==> Linked(later, c, next)
  {
    TilesDisjoint(m.tiles, m.owner, b, c);
    assert TileOk(m.units, c, m.tiles[c]);
  }

  /** Tile b gets a new label and new bytes. */
  ghost predicate Relabels(m: Map, w: Map, b: nat, kind: Kind, rank: nat)
  {
    && b in m.tiles && w.tiles == m.tiles[b := Tile(m.tiles[b].len, rank, kind)]
    && w.owner == m.owner && SameOutside(m.units, w.units, b, m.tiles[b].len)
    && TileOk(w.units, b, w.tiles[b])
  }

  lemma RelabelTiles(m: Map, w: Map, b: nat, kind: Kind, rank: nat, loose: set<nat>)
    requires TilesOk(m, loose) && Relabels(m, w, b, kind, rank) && (b == 0 ==> kind in {Used, Loose})
    ensures TilesOk(w, if kind == Loose then loose + {b} else loose - {b})
  {
    hide Units, Mark, TileOk;
    forall c | c in w.tiles ensures TileOk(w.units, c, w.tiles[c]) {
      if c != b {
        OtherTileKept(m, w.units, b, c, loose);
      }
    }
    assert Tiled(w.tiles, w.owner) by {
      forall c, u | c in w.tiles && c <= u < c + w.tiles[c].len ensures w.owner[u] == c {
        assert c in m.tiles;
      }
    }
  }

  /** A list that b is not on does not notice what happens to b. */
  lemma OtherListKept(m: Map, w: Map, b: nat, i: nat, loose: set<nat>)
    requires TilesOk(m, loose) && b in m.tiles && b in w.tiles && w.tiles == m.tiles[b := w.tiles[b]]
    requires SameOutside(m.units, w.units, b, m.tiles[b].len)
    requires i < |m.lists| && i < |m.chunks| && ListOk(m.lists[i], BLOCK_RANKS + i, m.chunks[i], m.units, m.tiles)
    requires b !in m.lists[i]
    ensures ListOk(m.lists[i], BLOCK_RANKS + i, m.chunks[i], w.units, w.tiles)
  {
    hide Linked, TileOk, Tiled;
    var list := m.lists[i];
    forall j | 0 <= j < |list| ensures Linked(w.units, list[j], At(list, j + 1)) {
      assert list[j] in m.lists[i];
      OtherTileKept(m, w.units, b, list[j], loose);
      assert Linked(m.units, list[j], At(list, j + 1));
    }
  }

  /** A tile that is not free is on no list. */
  lemma NotListed(m: Map, b: nat, i: nat)
    requires ListsOk(m) && b in m.tiles && i < 36
    requires m.tiles[b].kind != Free || m.tiles[b].rank != BLOCK_RANKS + i
    ensures b !in m.lists[i]
  {
    assert ListOk(m.lists[i], BLOCK_RANKS + i, m.chunks[i], m.units, m.tiles);
  }

  lemma ListsUntouched(m: Map, w: Map, b: nat, kind: Kind, rank: nat, loose: set<nat>)
    requires Good(m, loose) && Relabels(m, w, b, kind, rank)
    requires m.tiles[b].kind != Free && kind != Free && w.chunks == m.chunks && w.lists == m.lists
    ensures ListsOk(w)
  {
    hide Linked, TileOk, Tiled, TilesOk, ListOk, SameOutside;
    forall i | 0 <= i < 36 ensures ListOk(w.lists[i], BLOCK_RANKS + i, w.chunks[i], w.units, w.tiles) {
      NotListed(m, b, i);
      OtherListKept(m, w, b, i, loose);
    }
  }

  /** Labelling a chunk that is on no list and goes to none. */
  lemma Relabelled(m: Map, w: Map, b: nat, kind: Kind, rank: nat, loose: set<nat>)
    requires Good(m, loose) && Relabels(m, w, b, kind, rank) && (b == 0 ==> kind in {Used, Loose})
    requires m.tiles[b].kind != Free && kind != Free && w.chunks == m.chunks && w.lists == m.lists
    ensures Good(w, if kind == Loose then loose + {b} else loose - {b})
  {
    RelabelTiles(m, w, b, kind, rank, loose);
    ListsUntouched(m, w, b, kind, rank, loose);
  }

  /** Pushing b to the list of its rank. */
  lemma Pushed(m: Map, w: Map, b: nat, rank: nat, loose: set<nat>)
    requires Good(m, loose) && BLOCK_RANKS <= rank < RANKS && b != 0
    requires Relabels(m, w, b, Free, rank) && m.tiles[b].kind != Free
    requires Linked(w.units, b, m.chunks[rank - BLOCK_RANKS])
    requires w.chunks == m.chunks[rank - BLOCK_RANKS := b]
    requires w.lists == m.lists[rank - BLOCK_RANKS := [b] + m.lists[rank - BLOCK_RANKS]]
    ensures Good(w, loose - {b})
  {
    hide Linked, TileOk, Tiled, TilesOk, ListOk, SameOutside;
    RelabelTiles(m, w, b, Free, rank, loose);
    var r := rank - BLOCK_RANKS;
    forall i | 0 <= i < 36 ensures ListOk(w.lists[i], BLOCK_RANKS + i, w.chunks[i], w.units, w.tiles) {
      NotListed(m, b, i);
      OtherListKept(m, w, b, i, loose);
      if i == r {
        PushedList(m.lists[r], rank, m.chunks[r], w.units, w.tiles, b);
      }
    }
  }

  lemma PushedList(list: seq<nat>, rank: nat, head: nat, units: seq<nat>, tiles: map<nat, Tile>, b: nat)
    requires ListOk(list, rank, head, units, tiles) && b !in list && Linked(units, b, head)
    requires b in tiles && tiles[b].kind == Free && tiles[b].rank == rank
    ensures ListOk([b] + list, rank, b, units, tiles)
  {
    hide Linked;
    var l := [b] + list;
    forall j | 0 <= j < |l| ensures Linked(units, l[j], At(l, j + 1)) {
      if j > 0 {
        assert Linked(units, list[j - 1], At(list, j));
      }
    }
  }

  /** The link of a free chunk, as the source decodes it. */
  function NextOf(units: seq<nat>, b: nat): nat
    requires b + 2 < |units|
  {
    DecodeBase(units[b + 2], units[b + 1])
  }

  lemma NextDecodes(units: seq<nat>, b: nat, next: nat)
    requires Linked(units, b, next)
    ensures NextOf(units, b) == next
  {}

  /** The head of a list is a free chunk of the list's rank. */
  lemma HeadOfList(m: Map, i: nat, loose: set<nat>)
    requires Good(m, loose) && i < 36 && m.chunks[i] != 0
    ensures var b := m.chunks[i];
            && b in m.tiles && m.tiles[b].kind == Free && m.tiles[b].rank == BLOCK_RANKS + i && b + 2 < UNITS
            && m.lists[i] != [] && m.lists[i][0] == b && m.tiles[b].len == Units(BLOCK_RANKS + i)
            && |m.units| == UNITS && m.units[b] == BLOCK_RANKS + i
  {
    hide Units, Linked, Tiled;
    assert ListOk(m.lists[i], BLOCK_RANKS + i, m.chunks[i], m.units, m.tiles);
    assert TileOk(m.units, m.chunks[i], m.tiles[m.chunks[i]]);
  }

  /** Setting a label to loose needs no change of bytes. */
  lemma Loosens(m: Map, w: Map, b: nat, loose: set<nat>)
    requires TilesOk(m, loose) && b in m.tiles && w.units == m.units && w.owner == m.owner
    requires w.tiles == m.tiles[b := m.tiles[b].(kind := Loose)]
    ensures Relabels(m, w, b, Loose, m.tiles[b].rank)
  {
    assert TileOk(m.units, b, m.tiles[b]);
  }

  /** Taking the first chunk off a list. */
  lemma Popped(m: Map, w: Map, i: nat, loose: set<nat>)
    requires Good(m, loose) && i < 36 && m.chunks[i] != 0
    requires var b := m.chunks[i];
             && b + 2 < |m.units| && b in m.tiles && m.lists[i] != []
             && w == m.(chunks := m.chunks[i := NextOf(m.units, b)], lists := m.lists[i := m.lists[i][1..]],
                        tiles := m.tiles[b := m.tiles[b].(kind := Loose)])
    ensures Good(w, loose + {m.chunks[i]})
  {
    hide TilesOk, TileOk, NextOf, Units, Relabels, ListOk;
    var b := m.chunks[i];
    HeadOfList(m, i, loose);
    Loosens(m, w, b, loose);
    RelabelTiles(m, w, b, Loose, m.tiles[b].rank, loose);
    forall k | 0 <= k < 36 ensures ListOk(w.lists[k], BLOCK_RANKS + k, w.chunks[k], w.units, w.tiles) {
      if k != i {
        NotListed(m, b, k);
        ListRelabelled(m.lists[k], BLOCK_RANKS + k, m.chunks[k], m.units, m.tiles, w.tiles, b);
      } else {
        PoppedList(m.lists[i], BLOCK_RANKS + i, b, m.units, m.tiles, w.tiles);
      }
    }
    StillListed(m, w, i);
  }

  lemma StillListed(m: Map, w: Map, i: nat)
    requires ListsOk(m) && i < 36 && m.lists[i] != [] && w.lists == m.lists[i := m.lists[i][1..]]
    requires m.lists[i][0] in m.tiles && w.tiles == m.tiles[m.lists[i][0] := m.tiles[m.lists[i][0]].(kind := Loose)]
    ensures forall b :: b in w.tiles && w.tiles[b].kind == Free ==>
              BLOCK_RANKS <= w.tiles[b].rank < RANKS && b in w.lists[w.tiles[b].rank - BLOCK_RANKS]
  {
    hide ListOk;
    forall b | b in w.tiles && w.tiles[b].kind == Free
      ensures BLOCK_RANKS <= w.tiles[b].rank < RANKS && b in w.lists[w.tiles[b].rank - BLOCK_RANKS]
    {
      assert b in m.lists[m.tiles[b].rank - BLOCK_RANKS];
      var j :| 0 <= j < |m.lists[m.tiles[b].rank - BLOCK_RANKS]| && m.lists[m.tiles[b].rank - BLOCK_RANKS][j] == b;
      if m.tiles[b].rank - BLOCK_RANKS == i {
        assert m.lists[i][1..][j - 1] == b;
      }
    }
  }

  lemma ListRelabelled(list: seq<nat>, rank: nat, head: nat, units: seq<nat>,
                       tiles: map<nat, Tile>, after: map<nat, Tile>, b: nat)
    requires ListOk(list, rank, head, units, tiles) && b !in list && b in after && after == tiles[b := after[b]]
    ensures ListOk(list, rank, head, units, after)
  {
    hide Linked;
    forall j | 0 <= j < |list| ensures list[j] != b {}
  }

  lemma PoppedList(list: seq<nat>, rank: nat, b: nat, units: seq<nat>, tiles: map<nat, Tile>, after: map<nat, Tile>)
    requires ListOk(list, rank, b, units, tiles) && list != [] && b + 2 < |units|
    requires b in after && after == tiles[b := after[b]]
    ensures ListOk(list[1..], rank, NextOf(units, b), units, after)
  {
    hide Linked, NextOf;
    var l := list[1..];
    assert Linked(units, list[0], At(list, 1));
    NextDecodes(units, b, At(list, 1));
    forall j | 0 <= j < |l| ensures Linked(units, l[j], At(l, j + 1)) {
      assert Linked(units, list[j + 1], At(list, j + 2));
    }
  }

  /** Cutting a loose chunk in two. */
  lemma Cut(m: Map, w: Map, b: nat, n: nat, loose: set<nat>)
    requires Good(m, loose) && b in m.tiles && b in loose && 0 < n < m.tiles[b].len
    requires w == m.(tiles := CutTiles(m.tiles, b, n), owner := CutOwner(m.tiles, m.owner, b, n))
    ensures Good(w, loose + {b + n}) && b + n !in m.tiles
  {
    hide TileOk, ListOk, CutOwner, CutTiles;
    CutTiled(m.tiles, m.owner, b, n);
    CutTilesOk(m, w, b, n, loose);
    CutLists(m, w, b, n);
  }

  lemma CutTilesOk(m: Map, w: Map, b: nat, n: nat, loose: set<nat>)
    requires TilesOk(m, loose) && b in m.tiles && b in loose && 0 < n < m.tiles[b].len && b + n !in m.tiles
    requires w.units == m.units && w.tiles == CutTiles(m.tiles, b, n) && Tiled(w.tiles, w.owner)
    ensures TilesOk(w, loose + {b + n})
  {
    hide Tiled, Units, Mark;
    forall c | c in w.tiles ensures TileOk(w.units, c, w.tiles[c]) {
      assert TileOk(m.units, b, m.tiles[b]);
      if c != b && c != b + n {
        assert TileOk(m.units, c, m.tiles[c]);
      }
    }
  }

  lemma CutLists(m: Map, w: Map, b: nat, n: nat)
    requires ListsOk(m) && b in m.tiles && m.tiles[b].kind == Loose && 0 < n < m.tiles[b].len && b + n !in m.tiles
    requires w.units == m.units && w.tiles == CutTiles(m.tiles, b, n) && w.chunks == m.chunks && w.lists == m.lists
    ensures ListsOk(w)
  {
    hide ListOk;
    forall i | 0 <= i < 36 ensures ListOk(w.lists[i], BLOCK_RANKS + i, w.chunks[i], w.units, w.tiles) {
      ListFollows(m.lists[i], BLOCK_RANKS + i, m.chunks[i], m.units, m.tiles, w.tiles);
    }
  }

  lemma ListFollows(list: seq<nat>, rank: nat, head: nat, units: seq<nat>,
                    tiles: map<nat, Tile>, after: map<nat, Tile>)
    requires ListOk(list, rank, head, units, tiles)
    requires forall c :: c in tiles && tiles[c].kind == Free ==> c in after && after[c] == tiles[c]
    ensures ListOk(list, rank, head, units, after)
  {
    hide Linked;
  }

  // ----- From a unit to its chunk ------------------------------------------------------------------

  /** The base of the chunk that a pointer into the given unit belongs to. */
  function DeduceBase(units: seq<nat>, u: nat): nat
    requires u < |units| && (u == 0 ==> 32 <= units[0] < BASE_TAG)
  {
    var x := units[u];
    if x <= 31 then DecodeBase(x, units[u - 1])
    else if x >= BASE_TAG then
      if units[u - 1] <= 31 then DecodeBase(units[u - 1], x) else u - 1
    else u
  }

  /** Every unit of a block, and the first unit of any chunk, leads to its base. */
  lemma DeducesOwner(m: Map, u: nat, loose: set<nat>)
    requires TilesOk(m, loose) && u < UNITS
    requires var t := m.tiles[m.owner[u]]; t.kind == Block || (t.kind != Loose && u == m.owner[u])
    ensures u == 0 ==> 32 <= m.units[0] < BASE_TAG
    ensures DeduceBase(m.units, u) == m.owner[u]
  {
    hide Units, Tiled, Mark, DecodeBase;
    OwnerOf(m.tiles, m.owner, u);
    var b: nat := m.owner[u];
    assert TileOk(m.units, b, m.tiles[b]);
    if u != b {
      MarkDecodes(b, u - b);
      if u - 1 != b {
        assert m.units[u - 1] == Mark(b, u - 1 - b);
      }
    }
  }

  lemma OwnerOf(tiles: map<nat, Tile>, owner: seq<nat>, u: nat)
    requires Tiled(tiles, owner) && u < UNITS
    ensures |owner| == UNITS && owner[u] in tiles && owner[u] <= u < owner[u] + tiles[owner[u]].len <= UNITS
  {}

  lemma MarkDecodes(b: nat, j: nat)
    requires b < UNITS && j >= 1
    ensures if j % 2 == 1 then Mark(b, j) >= BASE_TAG else Mark(b, j) <= 31
    ensures j > 1 ==> if j % 2 == 1 then Mark(b, j - 1) <= 31 && DecodeBase(Mark(b, j - 1), Mark(b, j)) == b
                      else DecodeBase(Mark(b, j), Mark(b, j - 1)) == b
  {}

  // ----- The effect of an operation on the tiles -------------------------------------------------------

  /** Only tile b was taken apart: the other tiles stay, and what is new is free. */
  ghost predicate OnlyCut(before: map<nat, Tile>, after: map<nat, Tile>, b: nat)
  {
    && (forall c :: c in before && c != b ==> c in after && after[c] == before[c])
    && (forall c :: c in after && c !in before ==> after[c].kind in {Free, Loose})
  }

  /** Free chunks of the given ranks, one after the other. */
  ghost predicate Laid(tiles: map<nat, Tile>, at: nat, ranks: seq<nat>)
    decreases |ranks|
  {
    ranks == [] ||
    (&& ranks[0] >= BLOCK_RANKS && at in tiles && tiles[at] == Tile(Units(ranks[0]), ranks[0], Free)
     && Laid(tiles, at + Units(ranks[0]), ranks[1..]))
  }

  /** Where such chunks end. */
  ghost function EndOf(at: nat, ranks: seq<nat>): nat
    decreases |ranks|
  {
    if ranks == [] then at else EndOf(at + if ranks[0] < BLOCK_RANKS then 0 else Units(ranks[0]), ranks[1..])
  }

  /** Chunks laid out before a place are not changed by a cut there. */
  lemma {:induction false} LaidJoin(before: map<nat, Tile>, after: map<nat, Tile>, at: nat, ranks: seq<nat>,
                                    more: seq<nat>)
    requires Laid(before, at, ranks) && OnlyCut(before, after, EndOf(at, ranks)) && Laid(after, EndOf(at, ranks), more)
    ensures at <= EndOf(at, ranks) && Laid(after, at, ranks + more)
    decreases |ranks|
  {
    hide Units, OnlyCut;
    if ranks == [] {
      assert ranks + more == more;
    } else {
      UnitsAtLeastFour(ranks[0]);
      LaidJoin(before, after, at + Units(ranks[0]), ranks[1..], more);
      OtherKept(before, after, EndOf(at, ranks), at);
      assert (ranks + more)[1..] == ranks[1..] + more;
    }
  }

  lemma NothingLaid(tiles: map<nat, Tile>, at: nat)
    ensures Laid(tiles, at, []) && EndOf(at, []) == at
  {}

  lemma OneLaid(tiles: map<nat, Tile>, at: nat, rank: nat)
    requires rank >= BLOCK_RANKS && at in tiles && tiles[at] == Tile(Units(rank), rank, Free)
    ensures Laid(tiles, at, [rank])
  {}

  lemma {:induction false} LaidBehind(tiles: map<nat, Tile>, at: nat, ranks: seq<nat>, b: nat, tile: Tile)
    requires Laid(tiles, at, ranks) && b < at
    ensures Laid(tiles[b := tile], at, ranks)
    decreases |ranks|
  {
    hide Units;
    if ranks != [] {
      LaidBehind(tiles, at + Units(ranks[0]), ranks[1..], b, tile);
    }
  }

  lemma OtherKept(before: map<nat, Tile>, after: map<nat, Tile>, b: nat, c: nat)
    requires OnlyCut(before, after, b) && c in before && c != b
    ensures c in after && after[c] == before[c]
  {}

  lemma {:induction false} EndOfMore(at: nat, ranks: seq<nat>, rank: nat)
    requires rank >= BLOCK_RANKS
    ensures EndOf(at, ranks + [rank]) == EndOf(at, ranks) + Units(rank)
    decreases |ranks|
  {
    hide Units;
    if ranks == [] {
      assert ranks + [rank] == [rank] && [rank][1..] == [];
    } else {
      EndOfMore(at + if ranks[0] < BLOCK_RANKS then 0 else Units(ranks[0]), ranks[1..], rank);
      assert (ranks + [rank])[1..] == ranks[1..] + [rank];
    }
  }

  // ----- What a consistent map says about the span ---------------------------------------------------

  /** Every unit of the span is in exactly one chunk. */
  lemma SpanIsTiled(m: Map, loose: set<nat>, u: nat)
    requires Good(m, loose) && u < UNITS
    ensures exists b :: b in m.tiles && b <= u < b + m.tiles[b].len
    ensures forall b, c :: b in m.tiles && c in m.tiles && b <= u < b + m.tiles[b].len && c <= u < c + m.tiles[c].len
                           ==> b == c
  {
    assert m.owner[u] in m.tiles;
    forall b | b in m.tiles && b <= u < b + m.tiles[b].len ensures b == m.owner[u] {}
  }

  /** Following the links of a free list from its head. */
  ghost function Walk(units: seq<nat>, head: nat, steps: nat): nat
    requires |units| == UNITS
  {
    if steps == 0 then head
    else
      var b := Walk(units, head, steps - 1);
      if b == 0 || b + 2 >= UNITS then 0 else NextOf(units, b)
  }

  lemma OnFreeList(m: Map, loose: set<nat>, i: nat, j: nat)
    requires Good(m, loose) && i < 36
    ensures |m.units| == UNITS && m.chunks[i] == At(m.lists[i], 0)
    ensures j < |m.lists[i]| ==>
              var b := m.lists[i][j]; b != 0 && b + 2 < UNITS && NextOf(m.units, b) == At(m.lists[i], j + 1)
  {
    hide Units, NextOf, Tiled, TileOk;
    var list := m.lists[i];
    assert ListOk(list, BLOCK_RANKS + i, m.chunks[i], m.units, m.tiles);
    if j < |list| {
      assert Linked(m.units, list[j], At(list, j + 1));
      NextDecodes(m.units, list[j], At(list, j + 1));
    }
  }

  /** Following the links visits the chunks of the list one by one, and ends. */
  lemma {:induction false} WalkFollowsList(m: Map, loose: set<nat>, i: nat, steps: nat)
    requires Good(m, loose) && i < 36
    ensures Walk(m.units, m.chunks[i], steps) == At(m.lists[i], steps)
  {
    hide Good, NextOf;
    OnFreeList(m, loose, i, 0);
    if steps > 0 {
      WalkFollowsList(m, loose, i, steps - 1);
      OnFreeList(m, loose, i, steps - 1);
    }
  }

  /** A free list holds exactly the free chunks of its rank, each of them once. */
  lemma FreeListExact(m: Map, loose: set<nat>, i: nat)
    requires Good(m, loose) && i < 36
    ensures forall b :: b in m.lists[i] <==> b in m.tiles && m.tiles[b].kind == Free
                                             && m.tiles[b].rank == BLOCK_RANKS + i
    ensures forall j, k :: 0 <= j < k < |m.lists[i]| ==> m.lists[i][j] != m.lists[i][k]
  {
    assert ListOk(m.lists[i], BLOCK_RANKS + i, m.chunks[i], m.units, m.tiles);
  }
}
