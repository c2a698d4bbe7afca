/** Blocks of medium chunks, and medium chunks that serve as blocks of small ones
    (src/base/memory/cache.c).

    A block keeps the bit set of its free slots, the bit set of the slots that are inner blocks,
    and the bit set of the inner blocks that have free cells.  Bit sets are modelled as sets of
    bit numbers.  Blocks with something free are cached on a list per rank. */
module BlockSlots {
  import opened ChunkRanks
  import opened UnitMap

  /** The bits from lo up to, but not including, hi. */
  function Bits(lo: nat, hi: nat): (r: set<nat>)
    ensures forall s :: s in r <==> lo <= s < hi
    decreases hi
  {
    if hi <= lo then {} else Bits(lo, hi - 1) + {hi - 1}
  }

  /** Bits 1 to 15: slot 0 holds the header, and the upper 16 bits are never used. */
  function AllSlots(): set<nat>
  {
    Bits(1, SLOTS)
  }

  /** The lowest set bit. */
  method Lowest(s: set<nat>) returns (k: nat)
    requires s != {} && s <= AllSlots()
    ensures k in s && forall x :: x in s ==> k <= x
  {
    k := 1;
    while k !in s
      invariant 1 <= k < SLOTS && forall x :: x in s ==> k <= x
      decreases SLOTS - k
    {
      k := k + 1;
    }
  }

  /** The block headers, field by field, with the cached lists; `free` has the headers of inner
      blocks. */
  datatype Blocks = Blocks(heads: seq<nat>, next: map<nat, nat>, innerNext: map<nat, nat>,
                           chunkFree: map<nat, set<nat>>, innerUsed: map<nat, set<nat>>, innerFree: map<nat, set<nat>>,
                           free: map<(nat, nat), set<nat>>, cached: seq<seq<nat>>)

  predicate IsBlock(tiles: map<nat, Tile>, b: nat)
  {
    b in tiles && tiles[b].kind == Block
  }

  ghost predicate InnerOk(free: set<nat>, listed: bool)
  {
    free <= AllSlots() && free != AllSlots() && (listed <==> free != {})
  }

  ghost predicate HeaderOk(v: Blocks, b: nat, rank: nat)
  {
    && b in v.next && b in v.innerNext && b in v.chunkFree && b in v.innerUsed && b in v.innerFree
    && v.chunkFree[b] <= AllSlots() && v.innerUsed[b] <= AllSlots() && v.innerFree[b] <= v.innerUsed[b]
    && v.chunkFree[b] !! v.innerUsed[b]
    && (v.innerUsed[b] != {} ==> rank >= BLOCK_RANKS + 4)
    && forall s :: s in v.innerUsed[b] ==> (b, s) in v.free && InnerOk(v.free[(b, s)], s in v.innerFree[b])
  }

  // ----- Cached lists ---------------------------------------------------------------------------

  /** The rank of the large chunks that are blocks for chunks of rank i. */
  function BlockRank(i: nat): nat
  {
    if i < SMALL_RANKS then i + 40 else i + 20
  }

  /** What a block has to offer to the list of rank i. */
  ghost function Offer(v: Blocks, i: nat): map<nat, set<nat>>
  {
    if i < SMALL_RANKS then v.innerFree else v.chunkFree
  }

  ghost function Links(v: Blocks, i: nat): map<nat, nat>
  {
    if i < SMALL_RANKS then v.innerNext else v.next
  }

  ghost predicate Chain(head: nat, list: seq<nat>, next: map<nat, nat>)
  {
    && head == At(list, 0)
    && (forall j, k :: 0 <= j < k < |list| ==> list[j] != list[k])
    && forall j :: 0 <= j < |list| ==> list[j] in next && next[list[j]] == At(list, j + 1)
  }

  /** A list holds exactly the blocks of its rank that have something to offer. */
  ghost predicate Lists(list: seq<nat>, rank: nat, offer: map<nat, set<nat>>, tiles: map<nat, Tile>)
  {
    forall b :: b in list <==> IsBlock(tiles, b) && tiles[b].rank == rank && b in offer && offer[b] != {}
  }

  ghost predicate CacheOk(v: Blocks, tiles: map<nat, Tile>, i: nat)
    requires i < |v.heads| && i < |v.cached|
  {
    Chain(v.heads[i], v.cached[i], Links(v, i)) && Lists(v.cached[i], BlockRank(i), Offer(v, i), tiles)
  }

  ghost predicate BlocksOk(v: Blocks, tiles: map<nat, Tile>)
  {
    && |v.heads| == BLOCK_RANKS && |v.cached| == BLOCK_RANKS && !IsBlock(tiles, 0)
    && (forall b :: IsBlock(tiles, b) ==> HeaderOk(v, b, tiles[b].rank) && BLOCK_RANKS <= tiles[b].rank < 56)
    && (forall i :: 0 <= i < BLOCK_RANKS ==> CacheOk(v, tiles, i))
  }

  // ----- Chains ------------------------------------------------------------------------------------

  lemma ChainPop(head: nat, list: seq<nat>, next: map<nat, nat>)
    requires Chain(head, list, next) && list != []
    ensures head in next && head == list[0] && Chain(next[head], list[1..], next) && head !in list[1..]
  {
    var l := list[1..];
    assert next[list[0]] == At(list, 1);
    forall j | 0 <= j < |l| ensures l[j] in next && next[l[j]] == At(l, j + 1) && l[j] != head {
      assert l[j] == list[j + 1];
    }
  }

  lemma ChainPush(head: nat, list: seq<nat>, next: map<nat, nat>, b: nat)
    requires Chain(head, list, next) && b !in list
    ensures Chain(b, [b] + list, next[b := head])
  {
    var l := [b] + list;
    var n := next[b := head];
    forall j | 0 <= j < |l| ensures l[j] in n && n[l[j]] == At(l, j + 1) {
      if j > 0 {
        assert l[j] == list[j - 1];
      }
    }
  }

  lemma ChainOther(head: nat, list: seq<nat>, next: map<nat, nat>, b: nat, x: nat)
    requires Chain(head, list, next) && b !in list
    ensures Chain(head, list, next[b := x])
  {}

  /** Leaving out the k-th element. */
  ghost function Skip(list: seq<nat>, k: nat): (l: seq<nat>)
    requires k < |list|
    ensures |l| == |list| - 1 && forall j :: 0 <= j < |l| ==> l[j] == list[if j < k then j else j + 1]
  {
    list[..k] + list[k + 1..]
  }

  lemma SkipNext(list: seq<nat>, k: nat, j: nat)
    requires k < |list| && j < |list|
    ensures At(Skip(list, k), j) == At(list, if j < k then j else j + 1)
  {}

  /** Unlinking the k-th block. */
  lemma ChainCut(head: nat, list: seq<nat>, next: map<nat, nat>, k: nat)
    requires Chain(head, list, next) && 0 < k < |list|
    ensures Chain(head, Skip(list, k), next[list[k - 1] := next[list[k]]])
  {
    hide At, Skip;
    var l := Skip(list, k);
    var n := next[list[k - 1] := next[list[k]]];
    SkipNext(list, k, 0);
    forall j | 0 <= j < |l| ensures l[j] in n && n[l[j]] == At(l, j + 1) {
      SkipNext(list, k, j + 1);
    }
  }

  // ----- Lists that an operation leaves alone ------------------------------------------------------

  /** A list keeps holding the right blocks when the offer of b changes, but not whether there
      is one, or when b is not of its rank. */
  lemma ListsKept(list: seq<nat>, rank: nat, offer: map<nat, set<nat>>, tiles: map<nat, Tile>, b: nat, x: set<nat>)
    requires Lists(list, rank, offer, tiles) && IsBlock(tiles, b) && b in offer
    requires tiles[b].rank != rank || (offer[b] == {} <==> x == {})
    ensures Lists(list, rank, offer[b := x], tiles)
  {}

  lemma ListsPopped(list: seq<nat>, rank: nat, offer: map<nat, set<nat>>, tiles: map<nat, Tile>, k: nat)
    requires Lists(list, rank, offer, tiles) && k < |list|
    requires forall i, j :: 0 <= i < j < |list| ==> list[i] != list[j]
    ensures Lists(Skip(list, k), rank, offer[list[k] := {}], tiles)
  {
    var l := Skip(list, k);
    forall c ensures c in l <==> c in list && c != list[k] {
      if c in list && c != list[k] {
        var j :| 0 <= j < |list| && list[j] == c;
        assert l[if j < k then j else j - 1] == c;
      }
    }
  }

  lemma ListsPushed(list: seq<nat>, rank: nat, offer: map<nat, set<nat>>, tiles: map<nat, Tile>, b: nat, x: set<nat>)
    requires Lists(list, rank, offer, tiles) && IsBlock(tiles, b) && tiles[b].rank == rank
    requires b in offer && offer[b] == {} && x != {}
    ensures Lists([b] + list, rank, offer[b := x], tiles) && b !in list
  {}

  // ----- Taking and returning a slot -----------------------------------------------------------------

  ghost function TakeSlot(v: Blocks, b: nat, i: nat, s: nat): Blocks
    requires b in v.chunkFree && b in v.next && i < |v.heads| && i < |v.cached| && v.cached[i] != []
  {
    var left := v.chunkFree[b] - {s};
    var w := v.(chunkFree := v.chunkFree[b := left]);
    if left == {} then w.(heads := w.heads[i := w.next[b]], cached := w.cached[i := w.cached[i][1..]]) else w
  }

  lemma TakeSlotOk(v: Blocks, tiles: map<nat, Tile>, b: nat, i: nat, s: nat)
    requires BlocksOk(v, tiles) && SMALL_RANKS <= i < BLOCK_RANKS && v.heads[i] == b && b != 0
    requires b in v.chunkFree ==> s in v.chunkFree[b]
    ensures IsBlock(tiles, b) && tiles[b].rank == BlockRank(i) && HeaderOk(v, b, tiles[b].rank) && v.cached[i] != []
    ensures v.chunkFree[b] != {} && BlocksOk(TakeSlot(v, b, i, s), tiles)
  {
    assert CacheOk(v, tiles, i);
    assert b in v.cached[i];
    assert HeaderOk(v, b, tiles[b].rank);
    var w := TakeSlot(v, b, i, s);
    forall c | IsBlock(tiles, c) ensures HeaderOk(w, c, tiles[c].rank) {
      assert HeaderOk(v, c, tiles[c].rank);
    }
    forall k | 0 <= k < BLOCK_RANKS ensures CacheOk(w, tiles, k) {
      assert CacheOk(v, tiles, k);
      if k == i && w.chunkFree[b] == {} {
        ChainPop(b, v.cached[i], v.next);
        ListsPopped(v.cached[i], BlockRank(i), v.chunkFree, tiles, 0);
      } else if k >= SMALL_RANKS {
        ListsKept(v.cached[k], BlockRank(k), v.chunkFree, tiles, b, w.chunkFree[b]);
      }
    }
  }

  ghost function AddSlot(v: Blocks, b: nat, i: nat, s: nat): Blocks
    requires b in v.chunkFree && i < |v.heads| && i < |v.cached|
  {
    var w := v.(chunkFree := v.chunkFree[b := v.chunkFree[b] + {s}]);
    if v.chunkFree[b] != {} then w
    else w.(next := w.next[b := w.heads[i]], heads := w.heads[i := b], cached := w.cached[i := [b] + w.cached[i]])
  }

  lemma AddSlotOk(v: Blocks, tiles: map<nat, Tile>, b: nat, i: nat, s: nat)
    requires BlocksOk(v, tiles) && IsBlock(tiles, b) && SMALL_RANKS <= i < BLOCK_RANKS && tiles[b].rank == BlockRank(i)
    requires HeaderOk(v, b, tiles[b].rank) && s in AllSlots() && s !in v.innerUsed[b]
    ensures BlocksOk(AddSlot(v, b, i, s), tiles)
  {
    hide AllSlots;
    var w := AddSlot(v, b, i, s);
    forall c | IsBlock(tiles, c) ensures HeaderOk(w, c, tiles[c].rank) {
      assert HeaderOk(v, c, tiles[c].rank);
    }
    forall k | 0 <= k < BLOCK_RANKS ensures CacheOk(w, tiles, k) {
      assert CacheOk(v, tiles, k);
      if k == i && v.chunkFree[b] == {} {
        ListsPushed(v.cached[i], BlockRank(i), v.chunkFree, tiles, b, w.chunkFree[b]);
        ChainPush(v.heads[i], v.cached[i], v.next, b);
      } else if k >= SMALL_RANKS {
        ListsKept(v.cached[k], BlockRank(k), v.chunkFree, tiles, b, w.chunkFree[b]);
        if v.chunkFree[b] == {} {
          ChainOther(v.heads[k], v.cached[k], v.next, b, v.heads[i]);
        }
      }
    }
  }

  // ----- Taking and returning a cell of an inner block --------------------------------------------------

  ghost function TakeCell(v: Blocks, b: nat, i: nat, s: nat, k: nat): Blocks
    requires b in v.innerFree && (b, s) in v.free && b in v.innerNext
    requires i < |v.heads| && i < |v.cached| && v.cached[i] != []
  {
    var left := v.free[(b, s)] - {k};
    var w := v.(free := v.free[(b, s) := left]);
    if left != {} then w else
    var inner := w.innerFree[b] - {s};
    var x := w.(innerFree := w.innerFree[b := inner]);
    if inner != {} then x
    else x.(heads := x.heads[i := x.innerNext[b]], cached := x.cached[i := x.cached[i][1..]])
  }

  lemma TakeCellOk(v: Blocks, tiles: map<nat, Tile>, b: nat, i: nat, s: nat, k: nat)
    requires BlocksOk(v, tiles) && i < SMALL_RANKS && v.heads[i] == b && b != 0
    requires b in v.innerFree ==> s in v.innerFree[b]
    requires (b, s) in v.free ==> k in v.free[(b, s)]
    ensures IsBlock(tiles, b) && tiles[b].rank == BlockRank(i) && HeaderOk(v, b, tiles[b].rank) && v.cached[i] != []
    ensures v.innerFree[b] != {} && (b, s) in v.free && BlocksOk(TakeCell(v, b, i, s, k), tiles)
  {
    hide AllSlots;
    assert CacheOk(v, tiles, i);
    assert b in v.cached[i];
    assert HeaderOk(v, b, tiles[b].rank);
    assert InnerOk(v.free[(b, s)], true);
    var w := TakeCell(v, b, i, s, k);
    forall c | IsBlock(tiles, c) ensures HeaderOk(w, c, tiles[c].rank) {
      TakeCellHeader(v, tiles, b, i, s, k, c);
    }
    forall j | 0 <= j < BLOCK_RANKS ensures CacheOk(w, tiles, j) {
      assert CacheOk(v, tiles, j);
      if j == i && w.innerFree[b] == {} {
        ChainPop(b, v.cached[i], v.innerNext);
        ListsPopped(v.cached[i], BlockRank(i), v.innerFree, tiles, 0);
      } else if j < SMALL_RANKS {
        ListsKept(v.cached[j], BlockRank(j), v.innerFree, tiles, b, w.innerFree[b]);
      }
    }
  }

  lemma TakeCellHeader(v: Blocks, tiles: map<nat, Tile>, b: nat, i: nat, s: nat, k: nat, c: nat)
    requires IsBlock(tiles, b) && IsBlock(tiles, c) && HeaderOk(v, b, tiles[b].rank) && HeaderOk(v, c, tiles[c].rank)
    requires s in v.innerFree[b] && k in v.free[(b, s)]
    requires i < |v.heads| && i < |v.cached| && v.cached[i] != []
    ensures HeaderOk(TakeCell(v, b, i, s, k), c, tiles[c].rank)
  {
    hide AllSlots;
    var w := TakeCell(v, b, i, s, k);
    assert InnerOk(v.free[(b, s)], true);
    forall r | r in w.innerUsed[c] ensures (c, r) in w.free && InnerOk(w.free[(c, r)], r in w.innerFree[c]) {
      assert InnerOk(v.free[(c, r)], r in v.innerFree[c]);
    }
  }

  ghost function AddCell(v: Blocks, b: nat, i: nat, s: nat, k: nat): Blocks
    requires b in v.innerFree && (b, s) in v.free && i < |v.heads| && i < |v.cached|
  {
    var w := v.(free := v.free[(b, s) := v.free[(b, s)] + {k}], innerFree := v.innerFree[b := v.innerFree[b] + {s}]);
    if v.innerFree[b] != {} then w
    else w.(innerNext := w.innerNext[b := w.heads[i]], heads := w.heads[i := b],
        cached := w.cached[i := [b] + w.cached[i]])
  }

  lemma AddCellOk(v: Blocks, tiles: map<nat, Tile>, b: nat, i: nat, s: nat, k: nat)
    requires BlocksOk(v, tiles) && IsBlock(tiles, b) && i < SMALL_RANKS && tiles[b].rank == BlockRank(i)
    requires HeaderOk(v, b, tiles[b].rank) && s in v.innerUsed[b] && k in AllSlots()
    requires v.free[(b, s)] + {k} != AllSlots()
    ensures BlocksOk(AddCell(v, b, i, s, k), tiles)
  {
    hide AllSlots;
    var w := AddCell(v, b, i, s, k);
    forall c | IsBlock(tiles, c) ensures HeaderOk(w, c, tiles[c].rank) {
      assert HeaderOk(v, c, tiles[c].rank);
      forall r | r in w.innerUsed[c] ensures (c, r) in w.free && InnerOk(w.free[(c, r)], r in w.innerFree[c]) {
        assert InnerOk(v.free[(c, r)], r in v.innerFree[c]);
      }
    }
    forall j | 0 <= j < BLOCK_RANKS ensures CacheOk(w, tiles, j) {
      assert CacheOk(v, tiles, j);
      if j == i && v.innerFree[b] == {} {
        ListsPushed(v.cached[i], BlockRank(i), v.innerFree, tiles, b, w.innerFree[b]);
        ChainPush(v.heads[i], v.cached[i], v.innerNext, b);
      } else if j < SMALL_RANKS {
        ListsKept(v.cached[j], BlockRank(j), v.innerFree, tiles, b, w.innerFree[b]);
        if v.innerFree[b] == {} {
          ChainOther(v.heads[j], v.cached[j], v.innerNext, b, v.heads[i]);
        }
      }
    }
  }

  // ----- Turning a slot into an inner block and back ---------------------------------------------------

  /** Open an inner block in slot s, its first cell taken. */
  ghost function OpenInner(v: Blocks, b: nat, i: nat, s: nat): Blocks
    requires b in v.innerUsed && b in v.innerFree && i < |v.heads| && i < |v.cached|
  {
    v.(innerUsed := v.innerUsed[b := v.innerUsed[b] + {s}], innerFree := v.innerFree[b := v.innerFree[b] + {s}],
       free := v.free[(b, s) := Bits(2, SLOTS)], innerNext := v.innerNext[b := 0],
       heads := v.heads[i := b], cached := v.cached[i := [b]])
  }

  lemma NewInnerOk()
    ensures InnerOk(Bits(2, SLOTS), true)
  {
    assert 1 in AllSlots() && 1 !in Bits(2, SLOTS) && 2 in Bits(2, SLOTS);
  }

  lemma OpenInnerOk(v: Blocks, tiles: map<nat, Tile>, b: nat, i: nat, s: nat)
    requires BlocksOk(v, tiles) && IsBlock(tiles, b) && i < SMALL_RANKS && tiles[b].rank == BlockRank(i)
    requires HeaderOk(v, b, tiles[b].rank) && s in AllSlots() && s !in v.chunkFree[b] && s !in v.innerUsed[b]
    requires v.heads[i] == 0
    ensures BlocksOk(OpenInner(v, b, i, s), tiles)
  {
    hide AllSlots, Bits, InnerOk;
    var w := OpenInner(v, b, i, s);
    NewInnerOk();
    EmptyList(v, tiles, i);
    forall c | IsBlock(tiles, c) ensures HeaderOk(w, c, tiles[c].rank) {
      assert HeaderOk(v, c, tiles[c].rank);
      forall r | r in w.innerUsed[c] ensures (c, r) in w.free && InnerOk(w.free[(c, r)], r in w.innerFree[c]) {
        assert r in v.innerUsed[c] ==> InnerOk(v.free[(c, r)], r in v.innerFree[c]);
      }
    }
    forall j | 0 <= j < BLOCK_RANKS ensures CacheOk(w, tiles, j) {
      assert CacheOk(v, tiles, j);
      if j == i {
        ListsPushed(v.cached[i], BlockRank(i), v.innerFree, tiles, b, w.innerFree[b]);
        ChainPush(0, [], v.innerNext, b);
      } else if j < SMALL_RANKS {
        ListsKept(v.cached[j], BlockRank(j), v.innerFree, tiles, b, w.innerFree[b]);
        ChainOther(v.heads[j], v.cached[j], v.innerNext, b, 0);
      }
    }
  }

  /** A list without a head is empty: no block has anything to offer to it. */
  lemma EmptyList(v: Blocks, tiles: map<nat, Tile>, i: nat)
    requires BlocksOk(v, tiles) && i < BLOCK_RANKS && v.heads[i] == 0
    ensures v.cached[i] == []
    ensures forall b :: IsBlock(tiles, b) && tiles[b].rank == BlockRank(i) && b in Offer(v, i) ==> Offer(v, i)[b] == {}
  {
    assert CacheOk(v, tiles, i);
    assert 0 !in v.cached[i];
  }

  /** Close the inner block in slot s, all of whose cells are free by now. */
  ghost function CloseInner(v: Blocks, b: nat, i: nat, s: nat): Blocks
    requires b in v.innerUsed && b in v.innerFree && i < |v.heads| && i < |v.cached|
  {
    v.(innerUsed := v.innerUsed[b := v.innerUsed[b] - {s}], innerFree := v.innerFree[b := v.innerFree[b] - {s}])
  }

  /** Unlink the k-th block of list i. */
  ghost function Unlink(v: Blocks, i: nat, k: nat): Blocks
    requires i < |v.heads| && i < |v.cached| && k < |v.cached[i]| && v.cached[i][k] in v.innerNext
  {
    var list := v.cached[i];
    var next := v.innerNext[list[k]];
    var w := v.(cached := v.cached[i := Skip(list, k)]);
    if k == 0 then w.(heads := w.heads[i := next]) else w.(innerNext := w.innerNext[list[k - 1] := next])
  }

  /** A block whose last inner block with free cells is being closed. */
  ghost predicate Closes(v: Blocks, tiles: map<nat, Tile>, b: nat, i: nat, s: nat)
  {
    && BlocksOk(v, tiles) && IsBlock(tiles, b) && i < SMALL_RANKS && tiles[b].rank == BlockRank(i)
    && HeaderOk(v, b, tiles[b].rank) && b in v.innerUsed && b in v.innerFree && b in v.innerNext && s in v.innerFree[b]
  }

  lemma CloseHeaders(v: Blocks, w: Blocks, tiles: map<nat, Tile>, b: nat, i: nat, s: nat)
    requires Closes(v, tiles, b, i, s)
    requires w == CloseInner(v, b, i, s).(heads := w.heads, cached := w.cached, innerNext := w.innerNext)
    requires w.innerNext.Keys == v.innerNext.Keys
    ensures forall c :: IsBlock(tiles, c) ==> HeaderOk(w, c, tiles[c].rank)
  {
    hide AllSlots;
    forall c | IsBlock(tiles, c) ensures HeaderOk(w, c, tiles[c].rank) {
      assert HeaderOk(v, c, tiles[c].rank);
      forall r | r in w.innerUsed[c] ensures (c, r) in w.free && InnerOk(w.free[(c, r)], r in w.innerFree[c]) {
        assert InnerOk(v.free[(c, r)], r in v.innerFree[c]);
      }
    }
  }

  lemma CloseInnerOk(v: Blocks, tiles: map<nat, Tile>, b: nat, i: nat, s: nat)
    requires Closes(v, tiles, b, i, s) && v.innerFree[b] != {s}
    ensures BlocksOk(CloseInner(v, b, i, s), tiles)
  {
    hide AllSlots, HeaderOk;
    var w := CloseInner(v, b, i, s);
    CloseHeaders(v, w, tiles, b, i, s);
    assert w.innerFree[b] != {} by {
      assert v.innerFree[b] == w.innerFree[b] + {s};
    }
    forall j | 0 <= j < BLOCK_RANKS ensures CacheOk(w, tiles, j) {
      assert CacheOk(v, tiles, j);
      if j < SMALL_RANKS {
        ListsKept(v.cached[j], BlockRank(j), v.innerFree, tiles, b, w.innerFree[b]);
      }
    }
  }

  lemma UnlinkOk(v: Blocks, tiles: map<nat, Tile>, b: nat, i: nat, s: nat, k: nat)
    requires Closes(v, tiles, b, i, s) && v.innerFree[b] == {s}
    requires k < |v.cached[i]| && v.cached[i][k] == b
    ensures b in v.innerNext && BlocksOk(Unlink(CloseInner(v, b, i, s), i, k), tiles)
  {
    hide HeaderOk, Lists, Chain, Skip;
    var c := CloseInner(v, b, i, s);
    var w := Unlink(c, i, k);
    assert CacheOk(v, tiles, i);
    OnChain(v.heads[i], v.cached[i], v.innerNext, k);
    assert w.innerNext.Keys == v.innerNext.Keys;
    CloseHeaders(v, w, tiles, b, i, s);
    assert w.innerFree == v.innerFree[b := {}] by { assert v.innerFree[b] - {s} == {}; }
    forall j | 0 <= j < BLOCK_RANKS ensures CacheOk(w, tiles, j) {
      assert CacheOk(v, tiles, j);
      if j == i {
        UnlinkChain(v.heads[i], v.cached[i], v.innerNext, k);
        OnChain(v.heads[i], v.cached[i], v.innerNext, k);
        ListsPopped(v.cached[i], BlockRank(i), v.innerFree, tiles, k);
      } else if j < SMALL_RANKS {
        ListsKept(v.cached[j], BlockRank(j), v.innerFree, tiles, b, {});
        if k > 0 {
          ListsApart(v, tiles, i, j, k - 1);
          ChainOther(v.heads[j], v.cached[j], v.innerNext, v.cached[i][k - 1], v.innerNext[b]);
        }
      }
    }
  }

  lemma OnChain(head: nat, list: seq<nat>, next: map<nat, nat>, k: nat)
    requires Chain(head, list, next) && k < |list|
    ensures list[k] in next && (k > 0 ==> list[k - 1] in next)
    ensures forall i, j :: 0 <= i < j < |list| ==> list[i] != list[j]
  {}

  lemma UnlinkChain(head: nat, list: seq<nat>, next: map<nat, nat>, k: nat)
    requires Chain(head, list, next) && k < |list| && list[k] in next
    ensures if k == 0 then Chain(next[list[0]], Skip(list, 0), next)
            else Chain(head, Skip(list, k), next[list[k - 1] := next[list[k]]])
  {
    if k == 0 {
      ChainPop(head, list, next);
      assert Skip(list, 0) == list[1..];
    } else {
      ChainCut(head, list, next, k);
    }
  }

  /** A block is on one list of its kind only. */
  lemma ListsApart(v: Blocks, tiles: map<nat, Tile>, i: nat, j: nat, k: nat)
    requires BlocksOk(v, tiles) && i < SMALL_RANKS && j < SMALL_RANKS && i != j && k < |v.cached[i]|
    ensures v.cached[i][k] !in v.cached[j]
  {
    hide HeaderOk, Chain;
    assert CacheOk(v, tiles, i) && CacheOk(v, tiles, j);
    assert v.cached[i][k] in v.cached[i];
  }

  // ----- New blocks ------------------------------------------------------------------------------------

  /** Set up a block, its first slot taken. */
  ghost function NewBlock(v: Blocks, b: nat, i: nat): Blocks
    requires i < |v.heads| && i < |v.cached|
  {
    Blocks(v.heads[i := b], v.next[b := 0], v.innerNext[b := 0], v.chunkFree[b := Bits(2, SLOTS)],
           v.innerUsed[b := {}], v.innerFree[b := {}], v.free, v.cached[i := [b]])
  }

  /** The two sets of tiles have the same blocks, except that b may become one. */
  ghost predicate SameBlocks(tiles: map<nat, Tile>, after: map<nat, Tile>, b: nat)
  {
    && !IsBlock(tiles, b)
    && forall c :: c != b ==> (IsBlock(tiles, c) <==> IsBlock(after, c)) && (IsBlock(tiles, c) ==> after[c] == tiles[c])
  }

  lemma SameBlocksOk(v: Blocks, tiles: map<nat, Tile>, after: map<nat, Tile>, b: nat)
    requires BlocksOk(v, tiles) && SameBlocks(tiles, after, b) && !IsBlock(after, b)
    ensures BlocksOk(v, after)
  {
    hide HeaderOk, Chain;
    forall c ensures IsBlock(tiles, c) <==> IsBlock(after, c) {
      if c == b {}
    }
    forall j | 0 <= j < BLOCK_RANKS ensures CacheOk(v, after, j) {
      assert CacheOk(v, tiles, j);
    }
  }

  lemma NewBlockOk(v: Blocks, tiles: map<nat, Tile>, after: map<nat, Tile>, b: nat, i: nat)
    requires BlocksOk(v, tiles) && SameBlocks(tiles, after, b) && b != 0
    requires SMALL_RANKS <= i < BLOCK_RANKS && IsBlock(after, b) && after[b].rank == BlockRank(i) && v.heads[i] == 0
    ensures BlocksOk(NewBlock(v, b, i), after)
  {
    hide Bits;
    var w := NewBlock(v, b, i);
    EmptyList(v, tiles, i);
    NewSlots();
    forall c | IsBlock(after, c) ensures HeaderOk(w, c, after[c].rank) {
      if c != b {
        assert HeaderOk(v, c, tiles[c].rank);
      }
    }
    forall j | 0 <= j < BLOCK_RANKS ensures CacheOk(w, after, j) {
      assert CacheOk(v, tiles, j);
      NewBlockLists(v, w, tiles, after, b, i, j);
      if j == i {
        ChainPush(0, [], v.next, b);
      } else {
        assert b !in v.cached[j];
        ChainOther(v.heads[j], v.cached[j], Links(v, j), b, 0);
      }
    }
  }

  lemma NewSlots()
    ensures Bits(2, SLOTS) <= AllSlots() && Bits(2, SLOTS) != {}
  {
    assert 2 in Bits(2, SLOTS);
  }

  lemma NewBlockLists(v: Blocks, w: Blocks, tiles: map<nat, Tile>, after: map<nat, Tile>, b: nat, i: nat, j: nat)
    requires SameBlocks(tiles, after, b) && IsBlock(after, b) && after[b].rank == BlockRank(i)
    requires SMALL_RANKS <= i < BLOCK_RANKS && j < BLOCK_RANKS == |v.heads| == |v.cached|
    requires w == NewBlock(v, b, i) && v.cached[i] == [] && Lists(v.cached[j], BlockRank(j), Offer(v, j), tiles)
    requires Bits(2, SLOTS) != {}
    ensures Lists(w.cached[j], BlockRank(j), Offer(w, j), after)
  {
    hide Bits;
    forall c ensures c in w.cached[j] <==>
                     IsBlock(after, c) && after[c].rank == BlockRank(j) && c in Offer(w, j) && Offer(w, j)[c] != {}
    {
      assert c in v.cached[j] <==>
             IsBlock(tiles, c) && tiles[c].rank == BlockRank(j) && c in Offer(v, j) && Offer(v, j)[c] != {};
    }
  }
}
