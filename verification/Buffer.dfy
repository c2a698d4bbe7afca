/** The segmented data buffer (src/base/memory/buffer.c, src/base/memory/buffer.h) against a queue
    of bytes.

    The segments of all chunks are one sequence: a segment is followed by the adjacent one, and
    the terminal segment of a chunk by the first segment of the next chunk. */
module Buffer {

  type Byte = b: nat | b < 256

  datatype SpanResult = Spanned | Refused | Fatal

  datatype Kind = Internal | Embedded | Terminal

  /** A segment: its room, and the data written to it. */
  datatype Segment = Segment(kind: Kind, room: nat, data: seq<Byte>)

  const HEADER: nat := 8          // the size of a segment header, and the unit of areas
  const MIN_CHUNK: nat := 1000    // 1 KiB without the overhead of a chunk
  const MAX_CHUNK: nat := 524264  // 512 KiB without the overhead of a chunk

  function RoundUp(size: nat): (r: nat)
    ensures r % HEADER == 0 && size <= r < size + HEADER
  {
    (size + HEADER - 1) / HEADER * HEADER
  }

  // ----- Contents ----------------------------------------------------------------------------------

  ghost function Flat(segs: seq<Segment>): seq<Byte>
  {
    if segs == [] then [] else segs[0].data + Flat(segs[1..])
  }

  lemma {:induction false} FlatAppend(a: seq<Segment>, b: seq<Segment>)
    ensures Flat(a + b) == Flat(a) + Flat(b)
  {
    if a == [] {
      assert a + b == b;
    } else {
      FlatAppend(a[1..], b);
      assert (a + b)[1..] == a[1..] + b && (a + b)[0] == a[0];
      assert Flat(a + b) == a[0].data + (Flat(a[1..]) + Flat(b));
    }
  }

  lemma FlatOne(s: Segment)
    ensures Flat([s]) == s.data
  {
    assert [s][1..] == [];
  }

  lemma {:induction false} FlatNone(segs: seq<Segment>)
    requires forall i :: 0 <= i < |segs| ==> segs[i].data == []
    ensures Flat(segs) == []
  {
    if segs != [] {
      FlatNone(segs[1..]);
    }
  }

  /** Positions: the head segment with an offset, and the tail segment. */
  ghost predicate Placed(segs: seq<Segment>, h: nat, p: nat, t: nat)
  {
    h <= t < |segs| && p <= |segs[h].data|
  }

  ghost predicate SegmentOk(s: Segment)
  {
    |s.data| <= s.room && s.room % HEADER == 0 && (s.kind != Internal ==> s.data == [])
        && (s.kind == Terminal ==> s.room == 0)
  }

  /** What follows the tail is empty and not embedded, up to the last terminal segment. */
  ghost predicate TailOk(segs: seq<Segment>, t: nat)
  {
    && t < |segs| && segs[t].kind != Embedded && segs[|segs| - 1].kind == Terminal
    && (forall i :: t < i < |segs| ==> segs[i].data == [] && segs[i].kind != Embedded)
    && (forall i :: t <= i < |segs| - 1 && segs[i].kind == Terminal ==> segs[i + 1].kind == Internal
                                                                        && segs[i + 1].room > 0)
  }

  ghost predicate SegmentsOk(segs: seq<Segment>)
  {
    forall i :: 0 <= i < |segs| ==> SegmentOk(segs[i])
  }

  /** The data between the head and the tail. */
  ghost function Queue(segs: seq<Segment>, h: nat, p: nat, t: nat): seq<Byte>
    requires Placed(segs, h, p, t)
  {
    segs[h].data[p..] + Flat(segs[h + 1..t + 1])
  }

  /** Moving the tail over empty segments does not matter. */
  lemma QueueTail(segs: seq<Segment>, h: nat, p: nat, t: nat, u: nat)
    requires Placed(segs, h, p, t) && t <= u < |segs| && forall i :: t < i <= u ==> segs[i].data == []
    ensures Queue(segs, h, p, u) == Queue(segs, h, p, t)
  {
    FlatAppend(segs[h + 1..t + 1], segs[t + 1..u + 1]);
    assert segs[h + 1..t + 1] + segs[t + 1..u + 1] == segs[h + 1..u + 1];
    FlatNone(segs[t + 1..u + 1]);
  }

  /** Writing to the tail segment appends. */
  lemma QueueWrite(segs: seq<Segment>, h: nat, p: nat, t: nat, data: seq<Byte>)
    requires Placed(segs, h, p, t)
    ensures var w := segs[t := segs[t].(data := segs[t].data + data)];
            Placed(w, h, p, t) && Queue(w, h, p, t) == Queue(segs, h, p, t) + data
  {
    hide Flat;
    var s := segs[t].(data := segs[t].data + data);
    var w := segs[t := s];
    if h == t {
      assert segs[h + 1..t + 1] == [] && w[h + 1..t + 1] == [];
      EmptyFlat();
      DropAppend(segs[t].data, data, p);
    } else {
      FlatNext(segs, h + 1, t);
      FlatNext(w, h + 1, t);
      assert w[h + 1..t] == segs[h + 1..t];
      assert segs[h].data[p..] + (Flat(segs[h + 1..t]) + segs[t].data + data) == Queue(segs, h, p, t) + data;
    }
  }

  lemma DropAppend(a: seq<Byte>, b: seq<Byte>, p: nat)
    requires p <= |a|
    ensures (a + b)[p..] == a[p..] + b
  {}

  /** The first cnt unread bytes, or all of them if there are fewer, are next to each other in the
      head segment; and if there are fewer, the rest is room to write to. */
  ghost predicate InOnePiece(segs: seq<Segment>, h: nat, p: nat, t: nat, cnt: nat)
    requires Placed(segs, h, p, t)
  {
    var unread := Queue(segs, h, p, t);
    var m := if cnt < |unread| then cnt else |unread|;
    && p + m <= |segs[h].data| && segs[h].data[p..p + m] == unread[..m]
    && (cnt > |unread| ==> h == t && p + cnt <= segs[h].room)
  }

  lemma OnePiece(segs: seq<Segment>, h: nat, p: nat, t: nat, cnt: nat)
    requires Placed(segs, h, p, t) && (if h != t then |segs[h].data| else segs[t].room) - p >= cnt
    ensures InOnePiece(segs, h, p, t, cnt)
  {
    if h == t {
      assert segs[h + 1..t + 1] == [];
      assert Queue(segs, h, p, t) == segs[h].data[p..];
    }
  }

  lemma HeadFits(segs: seq<Segment>, h: nat)
    requires SegmentsOk(segs) && h < |segs|
    ensures |segs[h].data| <= segs[h].room
  {
    assert SegmentOk(segs[h]);
  }

  lemma JoinParts(a: seq<Byte>, b: seq<Byte>, c: seq<Byte>)
    ensures a + (b + c) == a + b + c
  {}

  /** Leaving an exhausted head segment. */
  lemma QueueNext(segs: seq<Segment>, h: nat, p: nat, t: nat)
    requires Placed(segs, h, p, t) && h < t && p == |segs[h].data|
    ensures Queue(segs, h, p, t) == Queue(segs, h + 1, 0, t)
  {
    assert segs[h + 1..t + 1][1..] == segs[h + 2..t + 1];
  }

  class Buffer {
    var segs: seq<Segment>
    var headSeg: nat
    var headPtr: nat
    var tailSeg: nat
    var chunkSize: nat

    ghost predicate Valid()
      reads this
    {
      && Placed(segs, headSeg, headPtr, tailSeg) && SegmentsOk(segs) && TailOk(segs, tailSeg)
      && 0 < chunkSize <= MAX_CHUNK
    }

    /** The bytes that are written and not read yet. */
    ghost function Unread(): seq<Byte>
      requires Placed(segs, headSeg, headPtr, tailSeg)
      reads this
    {
      Queue(segs, headSeg, headPtr, tailSeg)
    }

    constructor (size: nat)
      ensures Valid() && Unread() == []
      ensures chunkSize == size || (size == 0 && chunkSize == MIN_CHUNK) || (size > MAX_CHUNK && chunkSize == MAX_CHUNK)
    {
      segs, headSeg, headPtr, tailSeg := [Segment(Terminal, 0, [])], 0, 0, 0;
      chunkSize := if size == 0 then MIN_CHUNK else if size > MAX_CHUNK then MAX_CHUNK else size;
    }

    // ----- Reading --------------------------------------------------------------------------------

    /** Advance to the next viable read segment if any. */
    method ReaderNext() returns (n: nat)
      requires Valid() && headPtr == |segs[headSeg].data|
      modifies this`headSeg, this`headPtr
      ensures Valid() && Unread() == old(Unread()) && n == |segs[headSeg].data| - headPtr
      ensures n == 0 ==> Unread() == []
      ensures old(headSeg) < tailSeg ==> headSeg > old(headSeg) && headPtr == 0
    {
      hide Flat, SegmentsOk, TailOk;
      if headSeg == tailSeg {
        assert segs[headSeg + 1..tailSeg + 1] == [];
        EmptyFlat();
        return 0;
      }
      QueueNext(segs, headSeg, headPtr, tailSeg);
      headSeg, headPtr := headSeg + 1, 0;
      while |segs[headSeg].data| == 0 && headSeg != tailSeg
        invariant headPtr == 0 && old(headSeg) < headSeg && Placed(segs, headSeg, headPtr, tailSeg)
        invariant Queue(segs, headSeg, headPtr, tailSeg) == old(Unread())
        decreases tailSeg - headSeg
      {
        QueueNext(segs, headSeg, headPtr, tailSeg);
        headSeg := headSeg + 1;
      }
      if headSeg == tailSeg {
        assert segs[headSeg + 1..tailSeg + 1] == [];
        EmptyFlat();
      }
      return |segs[headSeg].data|;
    }

    /** Find a viable read segment; n is the number of bytes that can be read from it. */
    method ReaderReady() returns (n: nat)
      requires Valid()
      modifies this`headSeg, this`headPtr
      ensures Valid() && Unread() == old(Unread()) && n == |segs[headSeg].data| - headPtr
      ensures n == 0 ==> Unread() == []
    {
      n := |segs[headSeg].data| - headPtr;
      if n == 0 {
        n := ReaderNext();
      }
    }

    /** Take n bytes of the head segment. */
    method TakeBytes(n: nat) returns (data: seq<Byte>)
      requires Valid() && headPtr + n <= |segs[headSeg].data|
      modifies this`headPtr
      ensures Valid() && old(Unread()) == data + Unread() && |data| == n && headPtr == old(headPtr) + n
    {
      hide Flat;
      data := segs[headSeg].data[headPtr..headPtr + n];
      assert segs[headSeg].data[headPtr..] == data + segs[headSeg].data[headPtr + n..];
      headPtr := headPtr + n;
    }

    /** Read up to `size` bytes. */
    method Read(size: nat) returns (data: seq<Byte>)
      requires Valid()
      modifies this`headSeg, this`headPtr
      ensures Valid() && old(Unread()) == data + Unread()
      ensures |data| == size || (|data| < size && Unread() == [])
    {
      hide Flat, Queue, SegmentsOk, TailOk;
      data := [];
      var left := size;
      var n := ReaderReady();
      while n < left && n != 0
        invariant Valid() && old(Unread()) == data + Unread() && |data| + left == size
        invariant n == |segs[headSeg].data| - headPtr && (n == 0 ==> Unread() == [])
        decreases left
      {
        var part := TakeBytes(n);
        JoinParts(data, part, Unread());
        data, left := data + part, left - n;
        n := ReaderNext();
      }
      if n != 0 {
        var part := TakeBytes(left);
        JoinParts(data, part, Unread());
        data := data + part;
      }
    }

    /** Skip up to `size` bytes. */
    method Skip(size: nat) returns (count: nat)
      requires Valid()
      modifies this`headSeg, this`headPtr
      ensures Valid() && count == (if size < |old(Unread())| then size else |old(Unread())|)
      ensures Unread() == old(Unread())[count..]
    {
      hide Flat, Queue, SegmentsOk, TailOk;
      ghost var skipped: seq<Byte> := [];
      var left := size;
      var n := ReaderReady();
      while n < left && n != 0
        invariant Valid() && old(Unread()) == skipped + Unread() && |skipped| + left == size
        invariant n == |segs[headSeg].data| - headPtr && (n == 0 ==> Unread() == [])
        decreases left
      {
        var part := TakeBytes(n);
        JoinParts(skipped, part, Unread());
        skipped, left := skipped + part, left - n;
        n := ReaderNext();
      }
      if n != 0 {
        var part := TakeBytes(left);
        JoinParts(skipped, part, Unread());
        skipped, left := skipped + part, 0;
      }
      count := size - left;
      assert old(Unread())[count..] == Unread();
    }

    /** The number of unread bytes. */
    method Size() returns (size: nat)
      requires Valid()
      ensures size == |Unread()|
    {
      hide Flat, SegmentsOk, TailOk;
      size := |segs[headSeg].data| - headPtr;
      var i := headSeg;
      assert segs[headSeg + 1..i + 1] == [];
      EmptyFlat();
      while i != tailSeg
        invariant headSeg <= i <= tailSeg && size == |segs[headSeg].data[headPtr..]| + |Flat(segs[headSeg + 1..i + 1])|
        decreases tailSeg - i
      {
        FlatNext(segs, headSeg + 1, i + 1);
        i := i + 1;
        size := size + |segs[i].data|;
      }
    }

    // ----- Writing --------------------------------------------------------------------------------

    /** Append a chunk after the last terminal segment, where the tail is.  The new first segment
        has room for `size` bytes at least, as far as a chunk can have it; the allocator may give
        more, which is the `extra` room. */
    method Grow(size: nat, extra: nat)
      requires Valid() && tailSeg == |segs| - 1
      modifies this`segs, this`tailSeg
      ensures Valid() && Unread() == old(Unread()) && tailSeg == old(tailSeg) + 1 < |segs|
      ensures segs[tailSeg].data == [] && segs[tailSeg].kind == Internal && segs[tailSeg].room >= chunkSize
      ensures size <= MAX_CHUNK ==> segs[tailSeg].room >= size
    {
      hide Flat, Queue;
      var n := if size < chunkSize then chunkSize else if size > MAX_CHUNK then MAX_CHUNK else size;
      var room := RoundUp(n + HEADER) - HEADER + extra / HEADER * HEADER;
      ghost var before := segs;
      segs := segs + [Segment(Internal, room, []), Segment(Terminal, 0, [])];
      QueueExtend(before, segs, headSeg, headPtr, tailSeg);
      QueueTail(segs, headSeg, headPtr, tailSeg, tailSeg + 1);
      tailSeg := tailSeg + 1;
    }

    /** Move the tail over empty segments. */
    method MoveTail(u: nat)
      requires Valid() && tailSeg <= u < |segs|
      modifies this`tailSeg
      ensures Valid() && Unread() == old(Unread()) && tailSeg == u
    {
      hide Flat, Queue, SegmentsOk, TailOk;
      TailMoved(segs, tailSeg, u);
      QueueTail(segs, headSeg, headPtr, tailSeg, u);
      tailSeg := u;
    }

    /** Move the tail over segments without room, to one that has room or to the last one. */
    method WriterNext() returns (room: nat)
      requires Valid()
      modifies this`tailSeg
      ensures Valid() && Unread() == old(Unread()) && room == segs[tailSeg].room && old(tailSeg) <= tailSeg
      ensures room > 0 ==> old(tailSeg) < tailSeg && segs[tailSeg].data == [] && segs[tailSeg].kind == Internal
      ensures room == 0 ==> tailSeg == |segs| - 1
    {
      hide Flat, Queue, SegmentsOk, TailOk;
      var seg := tailSeg;
      LastTerminal(segs, tailSeg);
      while segs[seg].kind != Terminal
        invariant tailSeg <= seg < |segs|
        decreases |segs| - seg
      {
        seg := seg + 1;
        if segs[seg].room > 0 {
          AfterTail(segs, tailSeg, seg);
          MoveTail(seg);
          return segs[seg].room;
        }
      }
      TerminalNext(segs, tailSeg, seg);
      if seg + 1 < |segs| {
        seg := seg + 1;
        AfterTail(segs, tailSeg, seg);
      }
      MoveTail(seg);
      return segs[seg].room;
    }

    /** Advance to the next write segment, creating it if needed. */
    method Bump(size: nat, extra: nat) returns (room: nat)
      requires Valid()
      modifies this`segs, this`tailSeg
      ensures Valid() && Unread() == old(Unread()) && room == segs[tailSeg].room > 0
      ensures old(tailSeg) < tailSeg && segs[tailSeg].data == [] && segs[tailSeg].kind == Internal
      ensures segs == old(segs) || (size <= MAX_CHUNK ==> room >= size)
    {
      hide Flat, Queue, TailOk, SegmentsOk;
      room := WriterNext();
      if room == 0 {
        Grow(size, extra);
        room := segs[tailSeg].room;
      }
    }

    /** Copy data into the tail segment. */
    method Fill(data: seq<Byte>)
      requires Valid() && |segs[tailSeg].data| + |data| <= segs[tailSeg].room
      modifies this`segs
      ensures Valid() && Unread() == old(Unread()) + data && |segs| == |old(segs)|
              && segs[tailSeg].kind == old(segs)[tailSeg].kind
    {
      hide Flat, Queue;
      QueueWrite(segs, headSeg, headPtr, tailSeg, data);
      segs := segs[tailSeg := segs[tailSeg].(data := segs[tailSeg].data + data)];
    }

    /** Proceed with the segment after the tail. */
    method Proceed()
      requires Valid() && tailSeg + 1 < |segs|
      modifies this`tailSeg
      ensures Valid() && Unread() == old(Unread()) && tailSeg == old(tailSeg) + 1 && segs[tailSeg].data == []
    {
      hide Flat, Queue, SegmentsOk, TailOk;
      AfterTail(segs, tailSeg, tailSeg + 1);
      MoveTail(tailSeg + 1);
    }

    /** Append data. */
    method Write(data: seq<Byte>, extra: nat)
      requires Valid()
      modifies this`segs, this`tailSeg
      ensures Valid() && Unread() == old(Unread()) + data
      ensures old(segs[tailSeg].room - |segs[tailSeg].data|) >= |data| ==>
                tailSeg == old(tailSeg) && |segs| == |old(segs)|
    {
      hide Flat, Queue, TailOk, SegmentsOk;
      var k := 0;
      RoomLeft();
      var n := segs[tailSeg].room - |segs[tailSeg].data|;
      while n < |data| - k
        invariant Valid() && 0 <= k <= |data| && Unread() == old(Unread()) + data[..k]
        invariant n == segs[tailSeg].room - |segs[tailSeg].data|
        invariant old(segs[tailSeg].room - |segs[tailSeg].data|) >= |data| ==>
                    segs == old(segs) && tailSeg == old(tailSeg)
        decreases |data| - k, if n == 0 then 1 + |segs| - tailSeg else 0
      {
        RoomLeft();
        if n == 0 {
          if tailSeg == |segs| - 1 {
            Grow(|data| - k, extra);
          } else {
            Proceed();
          }
        } else {
          Fill(data[k..k + n]);
          assert data[..k] + data[k..k + n] == data[..k + n];
          k := k + n;
          RoomLeft();
          Proceed();
        }
        RoomLeft();
        n := segs[tailSeg].room;
      }
      Fill(data[k..]);
      assert data[..k] + data[k..] == data;
    }

    lemma RoomLeft()
      requires Valid()
      ensures |segs[tailSeg].data| <= segs[tailSeg].room
      ensures segs[tailSeg].room > 0 ==> tailSeg + 1 < |segs|
    {
      assert SegmentOk(segs[tailSeg]);
    }

    /** Allocate a block of memory in a segment of its own, which readers do not see.  The result
        is its segment.  The buffer is lost exactly if the block has no bytes and the tail is a
        terminal segment. */
    method Embed(size: nat, extra: nat) returns (seg: nat)
      requires Valid() && size <= MAX_CHUNK
      modifies this`segs, this`tailSeg
      ensures Valid() <==> !(old(segs[tailSeg].kind) == Terminal && size == 0)
      ensures if Valid() then Unread() == old(Unread())
              else segs == old(segs[..tailSeg]) + [Segment(Embedded, 0, [])] && tailSeg == |segs|
      ensures seg < |segs| && segs[seg].kind == Embedded && segs[seg].room >= size
    {
      hide Flat, Queue, TailOk, SegmentsOk, RoundUp;
      var area := RoundUp(size + HEADER);
      SplitFits(segs, tailSeg);
      TailKind(segs, tailSeg);
      OverTerminal(segs[tailSeg], size);
      var used := if segs[tailSeg].data == [] then 0 else RoundUp(|segs[tailSeg].data| + HEADER);
      var free := segs[tailSeg].room + HEADER - used;
      if free < area {
        var room := Bump(area - HEADER, extra);
        while room + HEADER < area
          invariant Valid() && Unread() == old(Unread()) && room == segs[tailSeg].room && segs[tailSeg].data == []
          invariant segs[tailSeg].kind == Internal
          decreases if room + HEADER < area then |segs| - tailSeg else 0
        {
          room := Bump(area - HEADER, extra);
        }
        used, free := 0, room + HEADER;
      }
      seg := PlaceEmbedded(area, used, free);
    }

    /** Put an embedded segment of the given area into the free part of the tail segment. */
    method PlaceEmbedded(area: nat, used: nat, free: nat) returns (seg: nat)
      requires Valid() && Takes(segs[tailSeg], area, used, free)
      modifies this`segs, this`tailSeg
      ensures Valid() <==> old(segs[tailSeg].kind) == Internal
      ensures if Valid() then Unread() == old(Unread())
              else segs == old(segs[..tailSeg]) + [Segment(Embedded, area - HEADER, [])] && tailSeg == |segs|
      ensures seg < |segs| && segs[seg] == Segment(Embedded, area - HEADER, [])
    {
      hide Flat, Queue, Pieces, TailOk, SegmentsOk, RoundUp;
      TailKind(segs, tailSeg);
      InsertionKeeps(segs, headSeg, headPtr, tailSeg, area, used, free);
      seg := if used > 0 then tailSeg + 1 else tailSeg;
      segs := Inserted(segs, tailSeg, area, used, free);
      tailSeg := seg + 1;
    }

    // ----- Contiguous access ----------------------------------------------------------------------

    /** Cut the unread data off the head segment, which is not the tail, and go on. */
    method Detach() returns (part: seq<Byte>)
      requires Valid() && headSeg < tailSeg
      modifies this`segs, this`headSeg, this`headPtr
      ensures Valid() && old(Unread()) == part + Unread() && |segs| == |old(segs)|
              && segs[tailSeg] == old(segs)[tailSeg]
      ensures headSeg > old(headSeg) && headPtr == 0
    {
      hide Flat, Queue;
      part := segs[headSeg].data[headPtr..];
      QueueDetach(segs, headSeg, headPtr, tailSeg);
      segs := segs[headSeg := segs[headSeg].(data := segs[headSeg].data[..headPtr])];
      var n := ReaderNext();
    }

    /** Move all unread data to the tail segment, which has room for it. */
    method Consolidate()
      requires Valid() && headSeg < tailSeg && |Unread()| <= segs[tailSeg].room && 0 < segs[tailSeg].room
      modifies this`segs, this`headSeg, this`headPtr
      ensures Valid() && Unread() == old(Unread()) && headSeg == tailSeg && headPtr == 0
      ensures segs[tailSeg].room == old(segs)[tailSeg].room
    {
      hide Flat, Queue, SegmentsOk, TailOk;
      var acc: seq<Byte> := [];
      while headSeg != tailSeg
        invariant Valid() && acc + Unread() == old(Unread()) && segs[tailSeg] == old(segs)[tailSeg]
        invariant headSeg == tailSeg ==> headPtr == 0
        decreases tailSeg - headSeg
      {
        var part := Detach();
        acc := acc + part;
      }
      QueueOne(segs, tailSeg);
      TailKind(segs, tailSeg);
      ghost var before := segs;
      segs := segs[tailSeg := segs[tailSeg].(data := acc + segs[tailSeg].data)];
      TailFilled(before, segs, tailSeg);
      QueueOne(segs, tailSeg);
    }

    /** There are cnt bytes at the read position without a break, unread data or room. */
    predicate Contiguous(cnt: nat)
      reads this
    {
      && headSeg < |segs| && tailSeg < |segs|
      && (if headSeg != tailSeg then |segs[headSeg].data| else segs[tailSeg].room) - headPtr >= cnt
    }

    /** Have a contiguous span of cnt bytes at the read position.  There is none for more than the
        size of a chunk; and the program stops if so much data would have to be moved. */
    method Span(cnt: nat, extra: nat) returns (r: SpanResult)
      requires Valid()
      modifies this`segs, this`headSeg, this`headPtr, this`tailSeg
      ensures Valid() && Unread() == old(Unread()) && (r == Spanned <==> Contiguous(cnt))
      ensures r == Refused <==> !old(Contiguous(cnt)) && cnt > MAX_CHUNK
      ensures r == Fatal <==> !old(Contiguous(cnt)) && cnt <= MAX_CHUNK < |Unread()|
      ensures r == Spanned ==> InOnePiece(segs, headSeg, headPtr, tailSeg, cnt)
      ensures old(|segs[headSeg].data| - headPtr) >= cnt ==> r == Spanned && segs == old(segs) && tailSeg == old(tailSeg)
    {
      hide Flat, Queue, SegmentsOk, TailOk, InOnePiece;
      HeadFits(segs, headSeg);
      if Contiguous(cnt) {
        OnePiece(segs, headSeg, headPtr, tailSeg, cnt);
        return Spanned;
      }
      if cnt > MAX_CHUNK {
        return Refused;
      }
      RoomLeft();
      var left := Size();
      if left > MAX_CHUNK {
        return Fatal;
      }
      var size := if left > cnt then left else cnt;
      var room := if tailSeg != headSeg then segs[tailSeg].room else segs[tailSeg].room - headPtr;
      while room < size
        invariant Valid() && Unread() == old(Unread())
        invariant room == segs[tailSeg].room - if tailSeg != headSeg then 0 else headPtr
        decreases if room < size then |segs| - tailSeg else 0
      {
        room := Bump(size, extra);
      }
      if tailSeg != headSeg {
        Consolidate();
      }
      OnePiece(segs, headSeg, headPtr, tailSeg, cnt);
      return Spanned;
    }
  }

  lemma QueueDetach(segs: seq<Segment>, h: nat, p: nat, t: nat)
    requires Placed(segs, h, p, t) && h < t
    ensures var w := segs[h := segs[h].(data := segs[h].data[..p])];
            Placed(w, h, p, t) && Queue(segs, h, p, t) == segs[h].data[p..] + Queue(w, h, p, t)
  {
    var w := segs[h := segs[h].(data := segs[h].data[..p])];
    assert w[h + 1..t + 1] == segs[h + 1..t + 1] && w[h].data[p..] == [];
  }

  lemma QueueOne(segs: seq<Segment>, t: nat)
    requires t < |segs|
    ensures Queue(segs, t, 0, t) == segs[t].data
  {
    assert segs[t + 1..t + 1] == [];
  }

  lemma TailFilled(segs: seq<Segment>, w: seq<Segment>, t: nat)
    requires SegmentsOk(segs) && TailOk(segs, t) && segs[t].kind == Internal && |w| == |segs|
    requires w == segs[t := segs[t].(data := w[t].data)] && |w[t].data| <= segs[t].room
    ensures SegmentsOk(w) && TailOk(w, t)
  {
    assert SegmentOk(segs[t]);
  }

  /** What becomes of a segment with an embedded one in its free part: it is cut off if it has
      data, and the spare room comes last. */
  function Pieces(s: Segment, area: nat, used: nat, free: nat): seq<Segment>
    requires HEADER <= area <= free && (used > 0 ==> used >= HEADER)
  {
    (if used > 0 then [s.(room := used - HEADER)] else [])
    + [Segment(Embedded, area - HEADER, [])]
    + (if free - area >= HEADER then [Segment(Internal, free - area - HEADER, [])] else [])
  }

  /** The segments after an insertion at t.  Behind the header of a terminal segment is the link to
      the next chunk, so that nothing can be reached from a segment that is put over it. */
  function Inserted(segs: seq<Segment>, t: nat, area: nat, used: nat, free: nat): seq<Segment>
    requires t < |segs| && HEADER <= area <= free && (used > 0 ==> used >= HEADER)
  {
    segs[..t] + Pieces(segs[t], area, used, free) + if segs[t].kind == Terminal then [] else segs[t + 1..]
  }

  /** An insertion of the given area fits into what is free of a segment. */
  predicate Takes(s: Segment, area: nat, used: nat, free: nat)
  {
    && area % HEADER == 0 && HEADER <= area <= free && used + free == s.room + HEADER
    && used == if s.data == [] then 0 else RoundUp(|s.data| + HEADER)
  }

  /** The tail is a segment, what follows it is as it should be, and readers see the same data. */
  ghost predicate Keeps(segs: seq<Segment>, w: seq<Segment>, h: nat, p: nat, t: nat, u: nat)
    requires Placed(segs, h, p, t)
  {
    SegmentsOk(w) && TailOk(w, u) && Placed(w, h, p, u) && Queue(w, h, p, u) == Queue(segs, h, p, t)
  }

  /** An insertion at the tail keeps the buffer exactly if the tail is not a terminal segment. */
  lemma InsertionKeeps(segs: seq<Segment>, h: nat, p: nat, t: nat, area: nat, used: nat, free: nat)
    requires Placed(segs, h, p, t) && SegmentsOk(segs) && TailOk(segs, t) && Takes(segs[t], area, used, free)
    ensures used > 0 ==> used >= HEADER
    ensures var w := Inserted(segs, t, area, used, free);
            var u := if used > 0 then t + 2 else t + 1;
            && u - 1 < |w| && w[u - 1] == Segment(Embedded, area - HEADER, [])
            && (Keeps(segs, w, h, p, t, u) <==> segs[t].kind != Terminal)
            && (segs[t].kind == Terminal ==> w == segs[..t] + [w[u - 1]] && u == |w|)
  {
    hide Flat, Queue, SegmentsOk;
    TailKind(segs, t);
    UsedArea(segs[t], used);
    var w := Inserted(segs, t, area, used, free);
    if segs[t].kind == Terminal {
      hide RoundUp, TailOk;
      TerminalPieces(segs[t], area, used, free);
      NoSegment(w, |w|);
    } else {
      hide TailOk, Pieces, RoundUp;
      var u := if used > 0 then t + 2 else t + 1;
      InsertedOk(segs, t, area, used, free);
      QueueSame(segs, w, h, p, t, u);
    }
  }

  lemma UsedArea(s: Segment, used: nat)
    requires used == if s.data == [] then 0 else RoundUp(|s.data| + HEADER)
    ensures used > 0 ==> used >= HEADER
  {}

  lemma TerminalPieces(s: Segment, area: nat, used: nat, free: nat)
    requires SegmentOk(s) && s.kind == Terminal && Takes(s, area, used, free)
    ensures used == 0 && Pieces(s, area, used, free) == [Segment(Embedded, area - HEADER, [])]
  {}

  lemma NoSegment(w: seq<Segment>, u: nat)
    requires u >= |w|
    ensures !TailOk(w, u)
  {}

  lemma PiecesOk(s: Segment, area: nat, used: nat, free: nat)
    requires SegmentOk(s) && s.kind == Internal && area % HEADER == 0 && HEADER <= area <= free
    requires used == (if s.data == [] then 0 else RoundUp(|s.data| + HEADER)) && used + free == s.room + HEADER
    ensures var m := Pieces(s, area, used, free);
            var e := if used > 0 then 1 else 0;
            && SegmentsOk(m) && e < |m| <= e + 2 && m[e] == Segment(Embedded, area - HEADER, [])
            && m[0].data == s.data && (forall i :: 1 <= i < |m| ==> m[i].data == [])
            && (e + 1 < |m| ==> m[e + 1].kind == Internal)
  {
    hide RoundUp;
    RoundedDifference(s.room + HEADER, used);
    RoundedDifference(free, area);
    RoundedDifference(area, HEADER);
    if used > 0 {
      RoundedDifference(used, HEADER);
    }
    if free - area >= HEADER {
      RoundedDifference(free - area, HEADER);
    }
  }

  lemma RoundedDifference(a: nat, b: nat)
    requires b <= a && a % HEADER == 0 && b % HEADER == 0
    ensures (a - b) % HEADER == 0
  {}

  /** The end of the segments after a cut. */
  ghost predicate RestOk(z: seq<Segment>)
  {
    && z != [] && z[|z| - 1].kind == Terminal && (forall i :: 0 <= i < |z| ==> z[i].data == [] && z[i].kind != Embedded)
    && (forall i :: 0 <= i < |z| - 1 && z[i].kind == Terminal ==> z[i + 1].kind == Internal && z[i + 1].room > 0)
  }

  lemma JoinTail(a: seq<Segment>, z: seq<Segment>, u: nat)
    requires RestOk(z) && (u == |a| || (u + 1 == |a| && a[u].kind == Internal))
    ensures TailOk(a + z, u)
  {
    var w := a + z;
    forall i | |a| <= i < |w| ensures w[i] == z[i - |a|] {}
    forall i | u <= i < |w| - 1 && w[i].kind == Terminal ensures w[i + 1].kind == Internal && w[i + 1].room > 0 {
      assert w[i] == z[i - |a|] && w[i + 1] == z[i + 1 - |a|];
    }
  }

  lemma InsertedOk(segs: seq<Segment>, t: nat, area: nat, used: nat, free: nat)
    requires SegmentsOk(segs) && TailOk(segs, t) && segs[t].kind == Internal && area % HEADER == 0
             && HEADER <= area <= free
    requires used == (if segs[t].data == [] then 0 else RoundUp(|segs[t].data| + HEADER))
    requires used + free == segs[t].room + HEADER
    ensures var w := Inserted(segs, t, area, used, free);
            var u := if used > 0 then t + 2 else t + 1;
            && u < |w| && SegmentsOk(w) && TailOk(w, u) && w[u - 1] == Segment(Embedded, area - HEADER, [])
            && (forall i :: 0 <= i <= t ==> w[i].data == segs[i].data) && (forall i :: t < i <= u ==> w[i].data == [])
  {
    hide Pieces, SegmentOk, RoundUp;
    assert SegmentOk(segs[t]);
    var m := Pieces(segs[t], area, used, free);
    PiecesOk(segs[t], area, used, free);
    var z := segs[t + 1..];
    assert RestOk(z);
    var u := if used > 0 then t + 2 else t + 1;
    JoinTail(segs[..t] + m, z, u);
    SegmentsJoin(segs, t, m);
    PiecesPlaced(segs, t, m, u);
  }

  lemma PiecesPlaced(segs: seq<Segment>, t: nat, m: seq<Segment>, u: nat)
    requires t + 1 < |segs| && m != [] && segs[t + 1].data == [] && t < u <= t + |m|
    requires m[0].data == segs[t].data && forall i :: 1 <= i < |m| ==> m[i].data == []
    ensures var w := segs[..t] + m + segs[t + 1..];
            && u < |w| && w[u - 1] == m[u - 1 - t]
            && (forall i :: 0 <= i <= t ==> w[i].data == segs[i].data) && (forall i :: t < i <= u ==> w[i].data == [])
  {
    var w := segs[..t] + m + segs[t + 1..];
    forall i | t < i <= u ensures w[i].data == [] {
      if i < t + |m| {
        assert w[i] == m[i - t];
      } else {
        assert w[i] == segs[t + 1];
      }
    }
  }

  lemma SegmentsJoin(segs: seq<Segment>, t: nat, m: seq<Segment>)
    requires SegmentsOk(segs) && SegmentsOk(m) && t < |segs|
    ensures SegmentsOk(segs[..t] + m + segs[t + 1..])
  {
    hide SegmentOk;
    var w := segs[..t] + m + segs[t + 1..];
    forall i | 0 <= i < |w| ensures SegmentOk(w[i]) {
      if i < t {
        assert w[i] == segs[i];
      } else if i < t + |m| {
        assert w[i] == m[i - t];
      } else {
        assert w[i] == segs[i - |m| + 1];
      }
    }
  }

  lemma TailKind(segs: seq<Segment>, t: nat)
    requires SegmentsOk(segs) && TailOk(segs, t)
    ensures SegmentOk(segs[t]) && segs[t].kind != Embedded
  {}

  /** The area of a segment that is not taken by its data. */
  function FreeArea(s: Segment): int
  {
    s.room + HEADER - if s.data == [] then 0 else RoundUp(|s.data| + HEADER)
  }

  /** A terminal segment is taken as free area exactly by a block of no bytes. */
  lemma OverTerminal(s: Segment, size: nat)
    requires SegmentOk(s)
    ensures RoundUp(size + HEADER) >= size + HEADER && RoundUp(size + HEADER) % HEADER == 0
    ensures s.kind == Terminal ==> (RoundUp(size + HEADER) <= FreeArea(s) <==> size == 0)
  {}

  /** Embedding a block keeps the buffer if and only if the block has some bytes or the tail is not
      a terminal segment; with too little free area the code goes to another segment first. */
  lemma EmbedKeepsIff(segs: seq<Segment>, h: nat, p: nat, t: nat, size: nat)
    requires Placed(segs, h, p, t) && SegmentsOk(segs) && TailOk(segs, t) && RoundUp(size + HEADER) <= FreeArea(segs[t])
    ensures var used := segs[t].room + HEADER - FreeArea(segs[t]);
            && used >= 0 && (used > 0 ==> used >= HEADER)
            && (Keeps(segs, Inserted(segs, t, RoundUp(size + HEADER), used, FreeArea(segs[t])), h, p, t,
                      if used > 0 then t + 2 else t + 1)
                <==> !(segs[t].kind == Terminal && size == 0))
  {
    hide Flat, Queue, Keeps, TailOk, SegmentsOk, RoundUp;
    TailKind(segs, t);
    OverTerminal(segs[t], size);
    var used := segs[t].room + HEADER - FreeArea(segs[t]);
    UsedArea(segs[t], used);
    InsertionKeeps(segs, h, p, t, RoundUp(size + HEADER), used, FreeArea(segs[t]));
  }

  /** A new buffer has only a terminal segment, and is lost by a first block of no bytes. */
  lemma FirstEmbedFails()
    ensures var segs := [Segment(Terminal, 0, [])];
            && Placed(segs, 0, 0, 0) && SegmentsOk(segs) && TailOk(segs, 0)
            && RoundUp(HEADER) == HEADER == FreeArea(segs[0])
            && !Keeps(segs, Inserted(segs, 0, HEADER, 0, HEADER), 0, 0, 0, 1)
  {
    EmbedKeepsIff([Segment(Terminal, 0, [])], 0, 0, 0, 0);
  }

  /** The room of a segment with data can be cut at the next multiple of the header size. */
  lemma SplitFits(segs: seq<Segment>, t: nat)
    requires SegmentsOk(segs) && t < |segs|
    ensures segs[t].data != [] ==> RoundUp(|segs[t].data| + HEADER) <= segs[t].room + HEADER
    ensures segs[t].room % HEADER == 0
  {
    assert SegmentOk(segs[t]);
  }

  lemma {:induction false} FlatSame(a: seq<Segment>, b: seq<Segment>)
    requires |a| == |b| && forall i :: 0 <= i < |a| ==> a[i].data == b[i].data
    ensures Flat(a) == Flat(b)
  {
    if a != [] {
      FlatSame(a[1..], b[1..]);
    }
  }

  /** The data up to the tail is the same, and there is none in the segments added. */
  lemma QueueSame(segs: seq<Segment>, w: seq<Segment>, h: nat, p: nat, t: nat, u: nat)
    requires Placed(segs, h, p, t) && t <= u < |w| && (forall i :: 0 <= i <= t ==> w[i].data == segs[i].data)
    requires forall i :: t < i <= u ==> w[i].data == []
    ensures Placed(w, h, p, u) && Queue(w, h, p, u) == Queue(segs, h, p, t)
  {
    hide Flat;
    FlatSame(w[h + 1..t + 1], segs[h + 1..t + 1]);
    QueueTail(w, h, p, t, u);
  }

  lemma TailMoved(segs: seq<Segment>, t: nat, u: nat)
    requires TailOk(segs, t) && t <= u < |segs|
    ensures TailOk(segs, u) && forall i :: t < i <= u ==> segs[i].data == []
  {}

  lemma LastTerminal(segs: seq<Segment>, t: nat)
    requires TailOk(segs, t)
    ensures segs[|segs| - 1].kind == Terminal
  {}

  lemma AfterTail(segs: seq<Segment>, t: nat, i: nat)
    requires TailOk(segs, t) && SegmentsOk(segs) && t < i < |segs|
    ensures segs[i].data == [] && (segs[i].room > 0 ==> segs[i].kind == Internal)
  {
    assert SegmentOk(segs[i]);
  }

  lemma TerminalNext(segs: seq<Segment>, t: nat, i: nat)
    requires TailOk(segs, t) && SegmentsOk(segs) && t <= i < |segs| && segs[i].kind == Terminal
    ensures segs[i].room == 0 && (i + 1 < |segs| ==> segs[i + 1].room > 0)
  {
    assert SegmentOk(segs[i]);
  }

  /** Segments after the tail do not matter. */
  lemma QueueExtend(segs: seq<Segment>, longer: seq<Segment>, h: nat, p: nat, t: nat)
    requires Placed(segs, h, p, t) && |segs| <= |longer| && longer[..|segs|] == segs
    ensures Placed(longer, h, p, t) && Queue(longer, h, p, t) == Queue(segs, h, p, t)
  {
    assert longer[h] == segs[h];
    forall i | h < i <= t ensures longer[i] == segs[i] {}
    assert longer[h + 1..t + 1] == segs[h + 1..t + 1];
  }

  lemma FlatNext(segs: seq<Segment>, i: nat, j: nat)
    requires i <= j < |segs|
    ensures Flat(segs[i..j + 1]) == Flat(segs[i..j]) + segs[j].data
  {
    hide Flat;
    FlatAppend(segs[i..j], [segs[j]]);
    assert segs[i..j] + [segs[j]] == segs[i..j + 1];
    FlatOne(segs[j]);
  }

  lemma EmptyFlat()
    ensures Flat([]) == []
  {}
}
