/** The bounded multi-producer multi-consumer ring (src/base/ring.h, src/base/ring.c).

    Threads run any mix of the non-blocking (put, get), the busy-waiting (enqueue, dequeue)
    and the relaxed single-party forms; each access to a shared word is one step, including
    every data word.  Tickets are unbounded, and `tail & mask` is written as a remainder. */
module Ring {

  type Word = int

  /** The number of data words in a ring node. */
  const DATA_SIZE: nat := 7

  /** The number of nodes. */
  type Size = n: nat | 1 <= n witness 1

  datatype Pc =
    | Idle
    // Producers.
    | PutLoaded(t: nat, words: seq<Word>, solo: bool)  // loaded the tail
    | PutReady(t: nat, words: seq<Word>, solo: bool)   // found the node free
    | EnqLoaded(t: nat, words: seq<Word>)              // loaded the tail, single producer
    | EnqWait(t: nat, words: seq<Word>)                // owns ticket t, waits for the node
    | Writing(t: nat, words: seq<Word>, i: nat)        // owns the node, i words are stored
    // Consumers.
    | GetLoaded(h: nat, want: nat, solo: bool)
    | GetReady(h: nat, want: nat, solo: bool)
    | DeqLoaded(h: nat, want: nat)
    | DeqWait(h: nat, want: nat)
    | Reading(h: nat, want: nat, read: seq<Word>)

  /** Which threads may produce or consume: any, or only one of them for the relaxed forms. */
  datatype Role = Shared | Solo(owner: nat)

  /** `sent` and `got` are history: the words passed in with each claimed ticket and the
      words taken out with each released one. */
  datatype State = State(
    n: Size, producers: Role, consumers: Role,
    head: nat, tail: nat, lock: seq<nat>, data: seq<seq<Word>>, pc: seq<Pc>,
    sent: map<nat, seq<Word>>, got: map<nat, seq<Word>>)

  datatype Act =
    | PutLoad(words: seq<Word>, solo: bool) | PutCheck | PutClaim
    | EnqClaim(words: seq<Word>) | EnqLoad(words: seq<Word>) | EnqStore | EnqSpin
    | WriteWord | Publish
    | GetLoad(want: nat, solo: bool) | GetCheck | GetClaim
    | DeqClaim(want: nat) | DeqLoad(want: nat) | DeqStore | DeqSpin
    | ReadWord | Release

  /** The node of a ticket: the remainder of t by n. */
  function Slot(t: nat, n: Size): (i: nat)
    ensures i < n && i <= t
  {
    if t < n then t else Slot(t - n, n)
  }

  lemma {:induction false} SlotGap(a: nat, b: nat, n: Size)
    requires a < b && Slot(a, n) == Slot(b, n)
    ensures a + n <= b
  {
    if a >= n {
      SlotGap(a - n, b - n, n);
    }
  }

  lemma SlotNext(t: nat, n: Size)
    requires n >= 2
    ensures Slot(t + 1, n) != Slot(t, n)
  {
    if Slot(t + 1, n) == Slot(t, n) {
      SlotGap(t, t + 1, n);
    }
  }

  // ----- Steps -------------------------------------------------------------------------

  predicate MayProduce(s: State, p: nat, solo: bool)
  {
    match s.producers
    case Shared => !solo
    case Solo(o) => p == o
  }

  predicate MayConsume(s: State, p: nat, solo: bool)
  {
    match s.consumers
    case Shared => !solo
    case Solo(o) => p == o
  }

  predicate Enabled(s: State, p: nat, act: Act)
  {
    p < |s.pc| && |s.lock| == s.n == |s.data| &&
    var pc := s.pc[p];
    match act
    case PutLoad(words, solo) => pc.Idle? && MayProduce(s, p, solo) && |words| <= DATA_SIZE
    case PutCheck => pc.PutLoaded?
    case PutClaim => pc.PutReady?
    case EnqClaim(words) => pc.Idle? && MayProduce(s, p, false) && |words| <= DATA_SIZE
    case EnqLoad(words) => pc.Idle? && MayProduce(s, p, true) && |words| <= DATA_SIZE
    case EnqStore => pc.EnqLoaded?
    case EnqSpin => pc.EnqWait?
    case WriteWord => pc.Writing? && pc.i < |pc.words| && |pc.words| <= |s.data[Slot(pc.t, s.n)]|
    case Publish => pc.Writing? && pc.i == |pc.words|
    case GetLoad(want, solo) => pc.Idle? && MayConsume(s, p, solo) && want <= DATA_SIZE
    case GetCheck => pc.GetLoaded?
    case GetClaim => pc.GetReady?
    case DeqClaim(want) => pc.Idle? && MayConsume(s, p, false) && want <= DATA_SIZE
    case DeqLoad(want) => pc.Idle? && MayConsume(s, p, true) && want <= DATA_SIZE
    case DeqStore => pc.DeqLoaded?
    case DeqSpin => pc.DeqWait?
    case ReadWord => pc.Reading? && |pc.read| < pc.want && |pc.read| < |s.data[Slot(pc.h, s.n)]|
    case Release => pc.Reading? && |pc.read| == pc.want
  }

  function Goto(s: State, p: nat, pc: Pc): State
    requires p < |s.pc|
  {
    s.(pc := s.pc[p := pc])
  }

  /** Move the tail to t + 1: ticket t now belongs to thread p. */
  function ClaimTail(s: State, p: nat, t: nat, words: seq<Word>, pc: Pc): State
    requires p < |s.pc|
  {
    Goto(s, p, pc).(tail := t + 1, sent := s.sent[t := words])
  }

  function ClaimHead(s: State, p: nat, h: nat, pc: Pc): State
    requires p < |s.pc|
  {
    Goto(s, p, pc).(head := h + 1)
  }

  function Apply(s: State, p: nat, act: Act): State
    requires Enabled(s, p, act)
  {
    var pc := s.pc[p];
    match act
    case PutLoad(words, solo) => Goto(s, p, PutLoaded(s.tail, words, solo))
    case PutCheck =>
      Goto(s, p, if s.lock[Slot(pc.t, s.n)] == pc.t then PutReady(pc.t, pc.words, pc.solo) else Idle)
    case PutClaim =>
      // A compare-and-swap, or for a single producer a plain store.
      if pc.solo || s.tail == pc.t then ClaimTail(s, p, pc.t, pc.words, Writing(pc.t, pc.words, 0))
      else Goto(s, p, Idle)
    case EnqClaim(words) => ClaimTail(s, p, s.tail, words, EnqWait(s.tail, words))
    case EnqLoad(words) => Goto(s, p, EnqLoaded(s.tail, words))
    case EnqStore => ClaimTail(s, p, pc.t, pc.words, EnqWait(pc.t, pc.words))
    case EnqSpin => if s.lock[Slot(pc.t, s.n)] == pc.t then Goto(s, p, Writing(pc.t, pc.words, 0)) else s
    case WriteWord =>
      var i := Slot(pc.t, s.n);
      Goto(s, p, Writing(pc.t, pc.words, pc.i + 1)).(data := s.data[i := s.data[i][pc.i := pc.words[pc.i]]])
    case Publish => Goto(s, p, Idle).(lock := s.lock[Slot(pc.t, s.n) := pc.t + 1])
    case GetLoad(want, solo) => Goto(s, p, GetLoaded(s.head, want, solo))
    case GetCheck =>
      Goto(s, p, if s.lock[Slot(pc.h, s.n)] == pc.h + 1 then GetReady(pc.h, pc.want, pc.solo) else Idle)
    case GetClaim =>
      if pc.solo || s.head == pc.h then ClaimHead(s, p, pc.h, Reading(pc.h, pc.want, []))
      else Goto(s, p, Idle)
    case DeqClaim(want) => ClaimHead(s, p, s.head, DeqWait(s.head, want))
    case DeqLoad(want) => Goto(s, p, DeqLoaded(s.head, want))
    case DeqStore => ClaimHead(s, p, pc.h, DeqWait(pc.h, pc.want))
    case DeqSpin => if s.lock[Slot(pc.h, s.n)] == pc.h + 1 then Goto(s, p, Reading(pc.h, pc.want, [])) else s
    case ReadWord => Goto(s, p, Reading(pc.h, pc.want, pc.read + [s.data[Slot(pc.h, s.n)][|pc.read|]]))
    case Release =>
      // The stored stamp is head + 1 + mask.
      Goto(s, p, Idle).(lock := s.lock[Slot(pc.h, s.n) := pc.h + s.n], got := s.got[pc.h := pc.read])
  }

  /** mm_ring_mpmc_prepare: node i is free for ticket i. */
  function Init(n: Size, threads: nat, producers: Role, consumers: Role): State
  {
    State(n, producers, consumers, 0, 0, seq(n, i => i), seq(n, i => seq(DATA_SIZE, j => 0)),
          seq(threads, i => Idle), map[], map[])
  }

  // ----- The invariant -----------------------------------------------------------------

  /** The stamp says that the node is free for ticket `stamp`. */
  predicate Free(stamp: nat, i: nat, n: Size)
  {
    Slot(stamp, n) == i
  }

  /** The stamp says that the node holds ticket `stamp - 1`. */
  predicate Full(stamp: nat, i: nat, n: Size)
  {
    stamp >= 1 && Slot(stamp - 1, n) == i
  }

  /** The ticket a node is currently used for. */
  function Ticket(stamp: nat, i: nat, n: Size): int
  {
    if Free(stamp, i, n) then stamp else stamp - 1
  }

  /** What the consumer asked for and what the producer supplied agree. */
  predicate Agree(a: seq<Word>, b: seq<Word>)
  {
    forall i :: 0 <= i < |a| && i < |b| ==> a[i] == b[i]
  }

  ghost predicate NodeOk(s: State, i: nat)
    requires i < |s.lock| && i < |s.data|
  {
    var stamp := s.lock[i];
    && |s.data[i]| == DATA_SIZE
    && (Free(stamp, i, s.n) || Full(stamp, i, s.n))
    && (Full(stamp, i, s.n) ==> stamp - 1 < s.tail && stamp - 1 in s.sent && Agree(s.data[i], s.sent[stamp - 1]))
  }

  /** The released tickets are those before the ticket their node is now used for. */
  ghost predicate GotIsPast(lock: seq<nat>, got: set<nat>, n: Size)
    requires |lock| == n
  {
    forall k: nat {:trigger k in got} :: k in got <==> k < Ticket(lock[Slot(k, n)], Slot(k, n), n)
  }

  ghost predicate SentOk(s: State)
  {
    && (forall t: nat :: t in s.sent <==> t < s.tail)
    && (forall t :: t in s.sent ==> |s.sent[t]| <= DATA_SIZE)
  }

  ghost predicate HistoryOk(s: State)
    requires |s.lock| == s.n
  {
    && SentOk(s)
    && GotIsPast(s.lock, s.got.Keys, s.n)
    && (forall k :: k in s.got ==> k < s.head && k in s.sent && Agree(s.got[k], s.sent[k]))
  }

  ghost predicate PcOk(s: State, p: nat)
    requires p < |s.pc| && |s.lock| == s.n == |s.data|
  {
    match s.pc[p]
    case Idle => true
    case PutLoaded(t, words, solo) => t <= s.tail && (solo ==> t == s.tail && s.producers == Solo(p))
        && |words| <= DATA_SIZE
    case PutReady(t, words, solo) =>
      && t <= s.tail && (solo ==> t == s.tail && s.producers == Solo(p)) && |words| <= DATA_SIZE
      && (t == s.tail ==> s.lock[Slot(t, s.n)] == t)
    case EnqLoaded(t, words) => t == s.tail && s.producers == Solo(p) && |words| <= DATA_SIZE
    case EnqWait(t, words) =>
      t < s.tail && s.lock[Slot(t, s.n)] <= t && t in s.sent && s.sent[t] == words && |words| <= DATA_SIZE
    case Writing(t, words, i) =>
      && t < s.tail && s.lock[Slot(t, s.n)] == t && t in s.sent && s.sent[t] == words
          && i <= |words| <= |s.data[Slot(t, s.n)]|
      && Agree(s.data[Slot(t, s.n)], words[..i])
    case GetLoaded(h, want, solo) => h <= s.head && (solo ==> h == s.head && s.consumers == Solo(p))
        && want <= DATA_SIZE
    case GetReady(h, want, solo) =>
      && h <= s.head && (solo ==> h == s.head && s.consumers == Solo(p)) && want <= DATA_SIZE
      && (h == s.head ==> s.lock[Slot(h, s.n)] == h + 1)
    case DeqLoaded(h, want) => h == s.head && s.consumers == Solo(p) && want <= DATA_SIZE
    case DeqWait(h, want) => h < s.head && s.lock[Slot(h, s.n)] <= h + 1 && want <= DATA_SIZE
    case Reading(h, want, read) =>
      && h < s.head && s.lock[Slot(h, s.n)] == h + 1 && |read| <= want <= DATA_SIZE
      && Agree(s.data[Slot(h, s.n)], read)
  }

  predicate Producing(pc: Pc)
  {
    pc.PutLoaded? || pc.PutReady? || pc.EnqLoaded? || pc.EnqWait? || pc.Writing?
  }

  predicate Consuming(pc: Pc)
  {
    pc.GetLoaded? || pc.GetReady? || pc.DeqLoaded? || pc.DeqWait? || pc.Reading?
  }

  predicate OwnsTail(pc: Pc, t: nat)
  {
    (pc.EnqWait? || pc.Writing?) && pc.t == t
  }

  predicate OwnsHead(pc: Pc, h: nat)
  {
    (pc.DeqWait? || pc.Reading?) && pc.h == h
  }

  ghost predicate RolesOk(s: State)
  {
    && (forall p :: 0 <= p < |s.pc| && Producing(s.pc[p]) ==> s.producers == Shared || s.producers == Solo(p))
    && (forall p :: 0 <= p < |s.pc| && Consuming(s.pc[p]) ==> s.consumers == Shared || s.consumers == Solo(p))
  }

  /** A claimed ticket belongs to one thread. */
  ghost predicate TicketsOk(s: State)
  {
    && (forall p, q, t: nat :: 0 <= p < |s.pc| && 0 <= q < |s.pc| && p != q && OwnsTail(s.pc[p], t)
                               ==> !OwnsTail(s.pc[q], t))
    && (forall p, q, h: nat :: 0 <= p < |s.pc| && 0 <= q < |s.pc| && p != q && OwnsHead(s.pc[p], h)
                               ==> !OwnsHead(s.pc[q], h))
  }

  ghost predicate NodesOk(s: State)
  {
    2 <= s.n == |s.lock| == |s.data| && forall i :: 0 <= i < s.n ==> NodeOk(s, i)
  }

  ghost predicate PcsOk(s: State)
    requires |s.lock| == s.n == |s.data|
  {
    forall p :: 0 <= p < |s.pc| ==> PcOk(s, p)
  }

  ghost predicate Inv(s: State)
  {
    NodesOk(s) && HistoryOk(s) && RolesOk(s) && TicketsOk(s) && PcsOk(s)
  }

  lemma InitInv(n: Size, threads: nat, producers: Role, consumers: Role)
    requires n >= 2
    ensures Inv(Init(n, threads, producers, consumers))
  {
  }

  /** No ticket from the tail on has been written, and none from the head on released. */
  lemma Ahead(s: State, t: nat)
    requires NodesOk(s) && HistoryOk(s)
    ensures t >= s.tail ==> s.lock[Slot(t, s.n)] <= t
    ensures t >= s.head ==> s.lock[Slot(t, s.n)] <= t + 1
  {
    var i := Slot(t, s.n);
    assert NodeOk(s, i);
    assert t in s.got.Keys <==> t < Ticket(s.lock[i], i, s.n);
  }

  /** A stamp cannot mean both. */
  lemma FreeNotFull(stamp: nat, i: nat, n: Size)
    requires n >= 2
    ensures !(Free(stamp, i, n) && Full(stamp, i, n))
  {
    if stamp >= 1 {
      SlotNext(stamp - 1, n);
    }
  }

  lemma RolesKept(s: State, p: nat, act: Act)
    requires RolesOk(s) && Enabled(s, p, act)
    ensures RolesOk(Apply(s, p, act))
  {
    hide Enabled, Apply;
    InRange(s, p, act);
    SameRoles(s, p, act);
    if Producing(Apply(s, p, act).pc[p]) {
      OwnProducing(s, p, act);
    }
    if Consuming(Apply(s, p, act).pc[p]) {
      OwnConsuming(s, p, act);
    }
    var t := Apply(s, p, act);
    forall q | 0 <= q < |s.pc| && q != p ensures t.pc[q] == s.pc[q] {
      OtherPcsSame(s, p, act, q);
    }
  }

  lemma InRange(s: State, p: nat, act: Act)
    requires Enabled(s, p, act)
    ensures p < |s.pc|
  {}

  lemma SameRoles(s: State, p: nat, act: Act)
    requires Enabled(s, p, act)
    ensures var t := Apply(s, p, act); |t.pc| == |s.pc| && t.producers == s.producers && t.consumers == s.consumers
  {
    hide Slot, MayProduce, MayConsume;
  }

  lemma OwnProducing(s: State, p: nat, act: Act)
    requires Enabled(s, p, act) && p < |Apply(s, p, act).pc| && Producing(Apply(s, p, act).pc[p])
    ensures Producing(s.pc[p]) || s.producers == Shared || s.producers == Solo(p)
  {
    hide Slot, MayConsume;
  }

  lemma OwnConsuming(s: State, p: nat, act: Act)
    requires Enabled(s, p, act) && p < |Apply(s, p, act).pc| && Consuming(Apply(s, p, act).pc[p])
    ensures Consuming(s.pc[p]) || s.consumers == Shared || s.consumers == Solo(p)
  {
    hide Slot, MayProduce;
  }

  // ----- Effects: what a step does to the shared words ---------------------------------

  datatype Effect =
    | Quiet
    | TailClaimed(words: seq<Word>)
    | HeadClaimed
    | Wrote(t: nat, i: nat, w: Word)
    | Published(t: nat)
    | Released(h: nat, read: seq<Word>)

  ghost predicate Changed(s: State, t: State, e: Effect)
    requires |s.lock| == s.n == |s.data|
  {
    && t.n == s.n && t.producers == s.producers && t.consumers == s.consumers
    && t.tail == (if e.TailClaimed? then s.tail + 1 else s.tail)
    && t.sent == (if e.TailClaimed? then s.sent[s.tail := e.words] else s.sent)
    && t.head == (if e.HeadClaimed? then s.head + 1 else s.head)
    && (e.Wrote? ==> e.i < |s.data[Slot(e.t, s.n)]|)
    && t.data == (if e.Wrote? then var i := Slot(e.t, s.n); s.data[i := s.data[i][e.i := e.w]] else s.data)
    && t.lock == (match e
                  case Published(k) => s.lock[Slot(k, s.n) := k + 1]
                  case Released(h, _) => s.lock[Slot(h, s.n) := h + s.n]
                  case _ => s.lock)
    && t.got == (if e.Released? then s.got[e.h := e.read] else s.got)
  }

  /** What thread p must have done before, for each effect. */
  ghost predicate Justified(s: State, p: nat, e: Effect)
    requires p < |s.pc|
  {
    match e
    case Quiet => true
    case TailClaimed(words) => (s.producers == Shared || s.producers == Solo(p)) && |words| <= DATA_SIZE
    case HeadClaimed => s.consumers == Shared || s.consumers == Solo(p)
    case Wrote(t, i, w) =>
      s.pc[p].Writing? && s.pc[p].t == t && i == s.pc[p].i < |s.pc[p].words| && w == s.pc[p].words[i]
    case Published(t) => s.pc[p].Writing? && s.pc[p].t == t && s.pc[p].i == |s.pc[p].words|
    case Released(h, read) => s.pc[p].Reading? && s.pc[p].h == h && s.pc[p].read == read
  }

  function EffectOf(s: State, p: nat, act: Act): Effect
    requires Enabled(s, p, act)
  {
    var pc := s.pc[p];
    match act
    case PutClaim => if s.tail == pc.t then TailClaimed(pc.words) else Quiet
    case EnqClaim(words) => TailClaimed(words)
    case EnqStore => TailClaimed(pc.words)
    case GetClaim => if s.head == pc.h then HeadClaimed else Quiet
    case DeqClaim(_) => HeadClaimed
    case DeqStore => HeadClaimed
    case WriteWord => Wrote(pc.t, pc.i, pc.words[pc.i])
    case Publish => Published(pc.t)
    case Release => Released(pc.h, pc.read)
    case _ => Quiet
  }

  lemma StepEffect(s: State, p: nat, act: Act)
    requires Enabled(s, p, act) && PcOk(s, p) && RolesOk(s)
    ensures Changed(s, Apply(s, p, act), EffectOf(s, p, act)) && Justified(s, p, EffectOf(s, p, act))
  {}

  lemma NodeKept(s: State, t: State, p: nat, e: Effect, i: nat)
    requires 2 <= s.n == |s.lock| == |s.data| && p < |s.pc| && i < s.n
    requires Changed(s, t, e) && Justified(s, p, e) && PcOk(s, p) && NodeOk(s, i)
    ensures NodeOk(t, i)
  {
    FreeNotFull(s.lock[i], i, s.n);
    match e
    case Published(k) => assert Full(k + 1, Slot(k, s.n), s.n);
    case Released(h, _) => assert Free(h + s.n, Slot(h, s.n), s.n); FreeNotFull(h + s.n, Slot(h, s.n), s.n);
    case _ =>
  }

  lemma GotPublished(lock: seq<nat>, got: set<nat>, n: Size, k: nat)
    requires n >= 2 && |lock| == n && GotIsPast(lock, got, n) && lock[Slot(k, n)] == k
    ensures GotIsPast(lock[Slot(k, n) := k + 1], got, n)
  {
    SlotNext(k, n);
    var lock' := lock[Slot(k, n) := k + 1];
    forall j: nat
      ensures j in got <==> j < Ticket(lock'[Slot(j, n)], Slot(j, n), n)
    {
      assert j in got <==> j < Ticket(lock[Slot(j, n)], Slot(j, n), n);
    }
  }

  lemma GotReleased(lock: seq<nat>, got: set<nat>, n: Size, h: nat)
    requires n >= 2 && |lock| == n && GotIsPast(lock, got, n) && lock[Slot(h, n)] == h + 1
    ensures GotIsPast(lock[Slot(h, n) := h + n], got + {h}, n) && h !in got
  {
    var i := Slot(h, n);
    SlotNext(h, n);
    assert Ticket(h + 1, i, n) == h && Ticket(h + n, i, n) == h + n;
    var lock' := lock[i := h + n];
    assert h in got <==> h < h;
    forall j: nat
      ensures j in got + {h} <==> j < Ticket(lock'[Slot(j, n)], Slot(j, n), n)
    {
      if Slot(j, n) == i {
        assert j in got <==> j < h;
        if j > h {
          SlotGap(h, j, n);
        }
      } else {
        assert j in got <==> j < Ticket(lock[Slot(j, n)], Slot(j, n), n);
      }
    }
  }

  lemma SentKept(s: State, t: State, p: nat, e: Effect)
    requires |s.lock| == s.n == |s.data| && p < |s.pc| && SentOk(s) && Changed(s, t, e) && Justified(s, p, e)
    ensures SentOk(t) && forall k :: k in s.sent ==> k in t.sent && t.sent[k] == s.sent[k]
  {}

  lemma HistoryKept(s: State, t: State, p: nat, e: Effect)
    requires 2 <= s.n == |s.lock| == |s.data| && p < |s.pc| && HistoryOk(s) && Changed(s, t, e) && Justified(s, p, e)
    requires e.Published? ==> s.lock[Slot(e.t, s.n)] == e.t
    requires e.Released? ==>
               s.lock[Slot(e.h, s.n)] == e.h + 1 && e.h < s.head && e.h in s.sent && Agree(e.read, s.sent[e.h])
    ensures HistoryOk(t)
  {
    hide GotIsPast, SentOk, Slot;
    SentKept(s, t, p, e);
    if e.Published? {
      GotPublished(s.lock, s.got.Keys, s.n, e.t);
    } else if e.Released? {
      GotReleased(s.lock, s.got.Keys, s.n, e.h);
      assert t.got.Keys == s.got.Keys + {e.h};
    }
  }

  /** What a consumer has read from a full node is what its producer stored. */
  lemma ReadAgrees(s: State, p: nat)
    requires NodesOk(s) && p < |s.pc| && PcOk(s, p) && s.pc[p].Reading?
    ensures s.pc[p].h in s.sent && Agree(s.pc[p].read, s.sent[s.pc[p].h])
  {
    var h, read := s.pc[p].h, s.pc[p].read;
    var i := Slot(h, s.n);
    assert NodeOk(s, i) && Full(h + 1, i, s.n);
    forall j | 0 <= j < |read| && j < |s.sent[h]|
      ensures read[j] == s.sent[h][j]
    {
      assert s.data[i][j] == read[j];
    }
  }

  lemma OwnTickets(s: State, p: nat, act: Act)
    requires Enabled(s, p, act) && PcOk(s, p)
    ensures forall k: nat :: OwnsTail(Apply(s, p, act).pc[p], k) ==> OwnsTail(s.pc[p], k) || k == s.tail
    ensures forall k: nat :: OwnsHead(Apply(s, p, act).pc[p], k) ==> OwnsHead(s.pc[p], k) || k == s.head
  {}

  lemma OtherPcsSame(s: State, p: nat, act: Act, q: nat)
    requires Enabled(s, p, act) && q < |s.pc|
    ensures |Apply(s, p, act).pc| == |s.pc| && (q != p ==> Apply(s, p, act).pc[q] == s.pc[q])
  {}

  lemma TicketsKept(s: State, t: State, p: nat)
    requires |s.lock| == s.n == |s.data| && TicketsOk(s) && PcsOk(s) && p < |s.pc| == |t.pc|
    requires forall q :: 0 <= q < |s.pc| && q != p ==> t.pc[q] == s.pc[q]
    requires forall k: nat :: OwnsTail(t.pc[p], k) ==> OwnsTail(s.pc[p], k) || k == s.tail
    requires forall k: nat :: OwnsHead(t.pc[p], k) ==> OwnsHead(s.pc[p], k) || k == s.head
    ensures TicketsOk(t)
  {
    forall q, k: nat | 0 <= q < |s.pc| && q != p
      ensures OwnsTail(t.pc[q], k) ==> k < s.tail && OwnsTail(s.pc[q], k)
      ensures OwnsHead(t.pc[q], k) ==> k < s.head && OwnsHead(s.pc[q], k)
    {
      assert PcOk(s, q);
    }
  }

  lemma ProducerPcKept(s: State, p: nat, act: Act)
    requires Enabled(s, p, act) && PcOk(s, p) && RolesOk(s) && (Producing(s.pc[p]) || s.pc[p].Idle?)
    requires s.lock[Slot(s.tail, s.n)] <= s.tail && s.lock[Slot(s.head, s.n)] <= s.head + 1
    requires forall i :: 0 <= i < s.n ==> |s.data[i]| == DATA_SIZE
    ensures PcOk(Apply(s, p, act), p)
  {}

  lemma ConsumerPcKept(s: State, p: nat, act: Act)
    requires Enabled(s, p, act) && PcOk(s, p) && RolesOk(s) && Consuming(s.pc[p])
    requires s.lock[Slot(s.head, s.n)] <= s.head + 1
    requires forall i :: 0 <= i < s.n ==> |s.data[i]| == DATA_SIZE
    ensures PcOk(Apply(s, p, act), p)
  {}

  lemma PcKept(s: State, p: nat, act: Act)
    requires Enabled(s, p, act) && NodesOk(s) && HistoryOk(s) && PcOk(s, p) && RolesOk(s)
    ensures PcOk(Apply(s, p, act), p)
  {
    Ahead(s, s.tail);
    Ahead(s, s.head);
    forall i | 0 <= i < s.n
      ensures |s.data[i]| == DATA_SIZE
    {
      assert NodeOk(s, i);
    }
    if Consuming(s.pc[p]) {
      ConsumerPcKept(s, p, act);
    } else {
      ProducerPcKept(s, p, act);
    }
  }

  function TicketOf(pc: Pc): nat
  {
    match pc
    case Idle => 0
    case PutLoaded(t, _, _) => t
    case PutReady(t, _, _) => t
    case EnqLoaded(t, _) => t
    case EnqWait(t, _) => t
    case Writing(t, _, _) => t
    case GetLoaded(h, _, _) => h
    case GetReady(h, _, _) => h
    case DeqLoaded(h, _) => h
    case DeqWait(h, _) => h
    case Reading(h, _, _) => h
  }

  /** Another thread's step leaves the promises about a thread's position intact. */
  lemma OtherPcKept(s: State, t: State, p: nat, e: Effect, q: nat)
    requires NodesOk(s) && p < |s.pc| && q < |s.pc| && q != p && q < |t.pc| && t.pc[q] == s.pc[q]
    requires Changed(s, t, e) && Justified(s, p, e) && PcOk(s, p) && PcOk(s, q)
    requires RolesOk(s) && TicketsOk(s)
    ensures PcOk(t, q)
  {
    var y := TicketOf(s.pc[q]);
    SlotNext(y, s.n);
    match e
    case Wrote(k, i, w) =>
      assert OwnsTail(s.pc[p], k);
    case Published(k) =>
      assert OwnsTail(s.pc[p], k);
    case Released(h, _) =>
      assert OwnsHead(s.pc[p], h);
      SlotNext(h, s.n);
      if y > h && Slot(y, s.n) == Slot(h, s.n) {
        SlotGap(h, y, s.n);
      }
    case _ =>
  }

  lemma StepInv(s: State, p: nat, act: Act)
    requires Inv(s) && Enabled(s, p, act)
    ensures Inv(Apply(s, p, act))
  {
    var t, e := Apply(s, p, act), EffectOf(s, p, act);
    assert PcOk(s, p);
    StepEffect(s, p, act);
    forall i | 0 <= i < s.n
      ensures NodeOk(t, i)
    {
      assert NodeOk(s, i);
      NodeKept(s, t, p, e, i);
    }
    if s.pc[p].Reading? {
      ReadAgrees(s, p);
    }
    HistoryKept(s, t, p, e);
    RolesKept(s, p, act);
    OwnTickets(s, p, act);
    forall q | 0 <= q < |s.pc|
      ensures |t.pc| == |s.pc| && (q != p ==> t.pc[q] == s.pc[q])
    {
      OtherPcsSame(s, p, act, q);
    }
    TicketsKept(s, t, p);
    PcKept(s, p, act);
    forall q | 0 <= q < |s.pc|
      ensures PcOk(t, q)
    {
      assert PcOk(s, q);
      if q != p {
        OtherPcKept(s, t, p, e, q);
      }
    }
  }

  // ----- Runs --------------------------------------------------------------------------

  datatype Move = Move(p: nat, act: Act)

  /** An interleaving on a ring of n nodes. */
  ghost predicate Run(n: Size, states: seq<State>, moves: seq<Move>)
  {
    && |states| == |moves| + 1
    && (exists threads, producers, consumers :: states[0] == Init(n, threads, producers, consumers))
    && forall m :: 0 <= m < |moves| ==>
         && Enabled(states[m], moves[m].p, moves[m].act)
         && states[m + 1] == Apply(states[m], moves[m].p, moves[m].act)
  }

  lemma {:induction false} RunInv(n: Size, states: seq<State>, moves: seq<Move>, m: nat)
    requires Run(n, states, moves) && m < |states| && n >= 2
    ensures Inv(states[m])
  {
    if m == 0 {
      var threads, producers, consumers :| states[0] == Init(n, threads, producers, consumers);
      InitInv(n, threads, producers, consumers);
    } else {
      RunInv(n, states, moves, m - 1);
      StepInv(states[m - 1], moves[m - 1].p, moves[m - 1].act);
    }
  }

  /** The consumer that releases ticket k has read exactly the words its producer passed in,
      as many of them as both sides asked for. */
  lemma DeliversSent(n: Size, states: seq<State>, moves: seq<Move>, m: nat, k: nat)
    requires Run(n, states, moves) && n >= 2 && m < |states| && k in states[m].got
    ensures k in states[m].sent
    ensures forall i :: 0 <= i < |states[m].got[k]| && i < |states[m].sent[k]| ==>
              states[m].got[k][i] == states[m].sent[k][i]
  {
    RunInv(n, states, moves, m);
  }

  /** Move m of a run stores a data word into a node that ticket k used earlier. */
  ghost predicate Reuses(n: Size, states: seq<State>, moves: seq<Move>, m: nat, k: nat)
  {
    && Run(n, states, moves) && m < |moves| && moves[m].act.WriteWord?
    && var t := states[m].pc[moves[m].p].t; k < t && Slot(k, n) == Slot(t, n)
  }

  /** A node is written only after every earlier ticket that used it was read and released. */
  ghost predicate NeverOverwrites(n: Size)
  {
    forall states: seq<State>, moves: seq<Move>, m: nat, k: nat :: Reuses(n, states, moves, m, k) ==> k in states[m].got
  }

  lemma {:induction false} SizeFixed(n: Size, states: seq<State>, moves: seq<Move>, m: nat)
    requires Run(n, states, moves) && m < |states|
    ensures states[m].n == n
  {
    if m > 0 {
      SizeFixed(n, states, moves, m - 1);
    }
  }

  lemma NoOverwrite(n: Size, states: seq<State>, moves: seq<Move>, m: nat, k: nat)
    requires Reuses(n, states, moves, m, k) && n >= 2
    ensures k in states[m].got
  {
    RunInv(n, states, moves, m);
    SizeFixed(n, states, moves, m);
    var s := states[m];
    assert PcOk(s, moves[m].p);
    assert k in s.got.Keys <==> k < Ticket(s.lock[Slot(k, s.n)], Slot(k, s.n), s.n);
  }

  /** A one-node, one-thread ring before anything is read; x is the first word in the node. */
  function Single(x: Word, tail: nat, stamp: nat, pc: Pc, sent: map<nat, seq<Word>>): State
  {
    State(1, Shared, Shared, 0, tail, [stamp], [seq(DATA_SIZE, j => if j == 0 then x else 0)], [pc], sent, map[])
  }

  /** The steps of an enqueue of one word into a free node. */
  lemma SingleEnqueue(x: Word, t: nat, y: Word, sent: map<nat, seq<Word>>)
    requires Slot(t, 1) == 0
    ensures var s := Single(x, t, t, Idle, sent);
            && Enabled(s, 0, EnqClaim([y]))
            && Apply(s, 0, EnqClaim([y])) == Single(x, t + 1, t, EnqWait(t, [y]), sent[t := [y]])
    ensures var s := Single(x, t + 1, t, EnqWait(t, [y]), sent[t := [y]]);
            Enabled(s, 0, EnqSpin) && Apply(s, 0, EnqSpin) == Single(x, t + 1, t, Writing(t, [y], 0), sent[t := [y]])
  {
    hide Slot;
  }

  lemma SingleStore(x: Word, t: nat, y: Word, sent: map<nat, seq<Word>>)
    requires Slot(t, 1) == 0
    ensures var s := Single(x, t + 1, t, Writing(t, [y], 0), sent);
            Enabled(s, 0, WriteWord) && Apply(s, 0, WriteWord) == Single(y, t + 1, t, Writing(t, [y], 1), sent)
  {
    hide Slot;
    var s := Single(x, t + 1, t, Writing(t, [y], 0), sent);
    assert s.data[0][0 := y] == Single(y, t + 1, t, Writing(t, [y], 1), sent).data[0];
  }

  lemma SinglePublish(t: nat, y: Word, sent: map<nat, seq<Word>>)
    requires Slot(t, 1) == 0
    ensures var s := Single(y, t + 1, t, Writing(t, [y], 1), sent);
            Enabled(s, 0, Publish) && Apply(s, 0, Publish) == Single(y, t + 1, t + 1, Idle, sent)
  {
    hide Slot;
  }

  lemma Extend(n: Size, states: seq<State>, moves: seq<Move>, act: Act, next: State)
    requires Run(n, states, moves) && Enabled(states[|moves|], 0, act) && next == Apply(states[|moves|], 0, act)
    ensures Run(n, states + [next], moves + [Move(0, act)])
  {}

  /** One thread claims a ticket and writes a word to its node. */
  lemma SingleWrite(states: seq<State>, moves: seq<Move>, x: Word, t: nat, y: Word, sent: map<nat, seq<Word>>)
    returns (states': seq<State>, moves': seq<Move>)
    requires Run(1, states, moves) && states[|moves|] == Single(x, t, t, Idle, sent) && Slot(t, 1) == 0
    ensures Run(1, states', moves') && |moves'| > 0 && moves'[|moves'| - 1] == Move(0, WriteWord)
    ensures states'[|moves'| - 1] == Single(x, t + 1, t, Writing(t, [y], 0), sent[t := [y]])
    ensures states'[|moves'|] == Single(y, t + 1, t, Writing(t, [y], 1), sent[t := [y]])
  {
    SingleEnqueue(x, t, y, sent);
    var s1 := Single(x, t + 1, t, EnqWait(t, [y]), sent[t := [y]]);
    Extend(1, states, moves, EnqClaim([y]), s1);
    states', moves' := states + [s1], moves + [Move(0, EnqClaim([y]))];
    var s2 := Single(x, t + 1, t, Writing(t, [y], 0), sent[t := [y]]);
    Extend(1, states', moves', EnqSpin, s2);
    states', moves' := states' + [s2], moves' + [Move(0, EnqSpin)];
    var s3 := Single(y, t + 1, t, Writing(t, [y], 1), sent[t := [y]]);
    SingleStore(x, t, y, sent[t := [y]]);
    Extend(1, states', moves', WriteWord, s3);
    states', moves' := states' + [s3], moves' + [Move(0, WriteWord)];
  }

  /** With one node the stamps for "holds ticket 0" and "free for ticket 1" coincide. */
  lemma SingleFilled(y: Word) returns (states: seq<State>, moves: seq<Move>)
    ensures Run(1, states, moves) && states[|moves|] == Single(y, 1, 1, Idle, map[0 := [y]])
  {
    var none: map<nat, seq<Word>> := map[];
    var s0 := Single(0, 0, 0, Idle, none);
    assert s0.data[0] == Init(1, 1, Shared, Shared).data[0] && s0 == Init(1, 1, Shared, Shared);
    states, moves := SingleWrite([s0], [], 0, 0, y, none);
    SinglePublish(0, y, none[0 := [y]]);
    var next := Single(y, 1, 1, Idle, none[0 := [y]]);
    Extend(1, states, moves, Publish, next);
    states, moves := states + [next], moves + [Move(0, Publish)];
  }

  /** The second enqueue of a thread overwrites the word of the first, which nobody has read. */
  lemma SingleNodeOverwrites(y: Word, z: Word) returns (states: seq<State>, moves: seq<Move>, m: nat)
    ensures Reuses(1, states, moves, m, 0) && 0 !in states[m].got
    ensures 0 in states[m].sent && states[m].sent[0] == [y]
    ensures |states[m].data| == |states[m + 1].data| == 1 && states[m].data[0] != [] && states[m + 1].data[0] != []
    ensures states[m].data[0][0] == y && states[m + 1].data[0][0] == z
  {
    states, moves := SingleFilled(y);
    states, moves := SingleWrite(states, moves, y, 1, z, map[0 := [y]]);
    m := |moves| - 1;
  }

  /** The ring keeps unread data exactly when it has at least two nodes. */
  lemma NeverOverwritesIff(n: Size)
    ensures NeverOverwrites(n) <==> n >= 2
  {
    if n == 1 {
      var states, moves, m := SingleNodeOverwrites(5, 7);
    } else {
      forall states: seq<State>, moves: seq<Move>, m: nat, k: nat | Reuses(n, states, moves, m, k)
        ensures k in states[m].got
      {
        NoOverwrite(n, states, moves, m, k);
      }
    }
  }

  /** No ticket is released, hence read, twice; and no ticket is claimed twice by producers. */
  lemma ReadOnce(n: Size, states: seq<State>, moves: seq<Move>, m: nat)
    requires Run(n, states, moves) && n >= 2 && m < |moves|
    ensures moves[m].act.Release? ==>
              var pc := states[m].pc[moves[m].p];
              && pc.h !in states[m].got && pc.h in states[m + 1].got
              && states[m + 1].got[pc.h] == pc.read && |pc.read| == pc.want
    ensures forall t :: t in states[m].sent ==> t in states[m + 1].sent && states[m + 1].sent[t] == states[m].sent[t]
    ensures forall t :: t in states[m].got ==> t in states[m + 1].got && states[m + 1].got[t] == states[m].got[t]
  {
    RunInv(n, states, moves, m);
    var s, p, act := states[m], moves[m].p, moves[m].act;
    assert PcOk(s, p);
    StepEffect(s, p, act);
    SentKept(s, states[m + 1], p, EffectOf(s, p, act));
    if act.Release? {
      GotReleased(s.lock, s.got.Keys, s.n, s.pc[p].h);
      assert s.pc[p].h !in s.got.Keys;
    }
  }

  /** Two threads are never in the same node at once. */
  lemma NodeExclusive(n: Size, states: seq<State>, moves: seq<Move>, m: nat, p: nat, q: nat)
    requires Run(n, states, moves) && n >= 2 && m < |states| && p < |states[m].pc| && q < |states[m].pc| && p != q
    requires states[m].pc[p].Writing? && (states[m].pc[q].Writing? || states[m].pc[q].Reading?)
    ensures Slot(TicketOf(states[m].pc[p]), states[m].n) != Slot(TicketOf(states[m].pc[q]), states[m].n)
  {
    RunInv(n, states, moves, m);
    var s := states[m];
    assert PcOk(s, p) && PcOk(s, q);
    assert OwnsTail(s.pc[p], s.pc[p].t);
    SlotNext(TicketOf(s.pc[q]), s.n);
  }

  // ----- Calls without interference ------------------------------------------------------

  /** Thread p gets from s to t by the given acts. */
  ghost predicate Leads(s: State, p: nat, acts: seq<Act>, t: State)
    decreases |acts|
  {
    if acts == [] then s == t else Enabled(s, p, acts[0]) && Leads(Apply(s, p, acts[0]), p, acts[1..], t)
  }

  lemma {:induction false} LeadsOn(s: State, p: nat, a: seq<Act>, t: State, b: seq<Act>, u: State)
    requires Leads(s, p, a, t) && Leads(t, p, b, u)
    ensures Leads(s, p, a + b, u)
    decreases |a|
  {
    hide Apply, Enabled;
    if a == [] {
      assert a + b == b;
    } else {
      LeadsOn(Apply(s, p, a[0]), p, a[1..], t, b, u);
      assert (a + b)[0] == a[0] && (a + b)[1..] == a[1..] + b;
    }
  }

  lemma LeadsOne(s: State, p: nat, act: Act)
    requires Enabled(s, p, act)
    ensures Leads(s, p, [act], Apply(s, p, act))
  {
    assert [act][1..] == [];
    assert Leads(Apply(s, p, act), p, [], Apply(s, p, act));
  }

  lemma LeadsThen(s: State, p: nat, act: Act, acts: seq<Act>, t: State)
    requires Enabled(s, p, act) && Leads(Apply(s, p, act), p, acts, t)
    ensures Leads(s, p, [act] + acts, t)
  {
    assert ([act] + acts)[1..] == acts;
  }

  /** The node is written and published. */
  lemma {:induction false} WriteAll(s: State, p: nat) returns (acts: seq<Act>, t: State)
    requires p < |s.pc| && |s.lock| == s.n == |s.data| && s.pc[p].Writing?
    requires s.pc[p].i <= |s.pc[p].words| <= |s.data[Slot(s.pc[p].t, s.n)]|
    ensures Leads(s, p, acts, t)
    ensures t == s.(pc := s.pc[p := Idle], lock := s.lock[Slot(s.pc[p].t, s.n) := s.pc[p].t + 1], data := t.data)
    decreases |s.pc[p].words| - s.pc[p].i
  {
    hide Slot;
    if s.pc[p].i == |s.pc[p].words| {
      LeadsOne(s, p, Publish);
      acts, t := [Publish], Apply(s, p, Publish);
    } else {
      acts, t := WriteAll(Apply(s, p, WriteWord), p);
      LeadsThen(s, p, WriteWord, acts, t);
      acts := [WriteWord] + acts;
    }
  }

  /** A node is read and released. */
  lemma {:induction false} ReadAll(s: State, p: nat) returns (acts: seq<Act>, t: State)
    requires p < |s.pc| && |s.lock| == s.n == |s.data| && s.pc[p].Reading?
    requires var pc := s.pc[p];
             var node := s.data[Slot(pc.h, s.n)];
             |pc.read| <= pc.want <= |node| && pc.read == node[..|pc.read|]
    ensures Leads(s, p, acts, t)
    ensures var pc := s.pc[p];
            var i := Slot(pc.h, s.n);
            t == s.(pc := s.pc[p := Idle], lock := s.lock[i := pc.h + s.n], got := s.got[pc.h := s.data[i][..pc.want]])
    decreases s.pc[p].want - |s.pc[p].read|
  {
    hide Slot;
    if |s.pc[p].read| == s.pc[p].want {
      LeadsOne(s, p, Release);
      acts, t := [Release], Apply(s, p, Release);
    } else {
      acts, t := ReadAll(Apply(s, p, ReadWord), p);
      LeadsThen(s, p, ReadWord, acts, t);
      acts := [ReadWord] + acts;
    }
  }

  /** Thread p may produce or consume with a single-party or a shared call. */
  ghost predicate MayCall(s: State, p: nat)
  {
    Inv(s) && p < |s.pc| && s.pc[p].Idle?
  }

  /** What a put or an enqueue of a ticket leaves. */
  ghost predicate Sent(s: State, t: State, words: seq<Word>)
    requires |s.lock| == s.n
  {
    t == s.(tail := s.tail + 1, sent := s.sent[s.tail := words], data := t.data,
            lock := s.lock[Slot(s.tail, s.n) := s.tail + 1])
  }

  /** What a get or a dequeue of a ticket leaves. */
  ghost predicate Got(s: State, t: State, want: nat)
    requires |s.lock| == s.n == |s.data| && want <= |s.data[Slot(s.head, s.n)]|
  {
    var i := Slot(s.head, s.n);
    t == s.(head := s.head + 1, lock := s.lock[i := s.head + s.n], got := s.got[s.head := s.data[i][..want]])
  }

  lemma NodeSizes(s: State, i: nat)
    requires Inv(s) && i < s.n
    ensures |s.lock| == s.n == |s.data| && |s.data[i]| == DATA_SIZE
  {
    assert NodeOk(s, i);
  }

  /** A put without interference succeeds if and only if the node at the tail is free. */
  lemma PutWorks(s: State, p: nat, words: seq<Word>, solo: bool) returns (acts: seq<Act>, t: State)
    requires MayCall(s, p) && MayProduce(s, p, solo) && |words| <= DATA_SIZE
    ensures Leads(s, p, acts, t) && |s.lock| == s.n
    ensures if s.lock[Slot(s.tail, s.n)] == s.tail then Sent(s, t, words) else t == s
  {
    hide Inv, Slot, Leads;
    NodeSizes(s, Slot(s.tail, s.n));
    var a := Apply(s, p, PutLoad(words, solo));
    var b := Apply(a, p, PutCheck);
    LeadsOne(s, p, PutLoad(words, solo));
    LeadsOne(a, p, PutCheck);
    acts := [PutLoad(words, solo)] + [PutCheck];
    LeadsOn(s, p, [PutLoad(words, solo)], a, [PutCheck], b);
    t := b;
    if s.lock[Slot(s.tail, s.n)] == s.tail {
      var c := Apply(b, p, PutClaim);
      LeadsOne(b, p, PutClaim);
      LeadsOn(s, p, acts, b, [PutClaim], c);
      var more, d := WriteAll(c, p);
      LeadsOn(s, p, acts + [PutClaim], c, more, d);
      acts, t := acts + [PutClaim] + more, d;
    }
    assert t.pc == s.pc;
  }

  /** A get without interference succeeds if and only if the node at the head is full. */
  lemma GetWorks(s: State, p: nat, want: nat, solo: bool) returns (acts: seq<Act>, t: State)
    requires MayCall(s, p) && MayConsume(s, p, solo) && want <= DATA_SIZE
    ensures Leads(s, p, acts, t) && |s.lock| == s.n == |s.data| && |s.data[Slot(s.head, s.n)]| == DATA_SIZE
    ensures if s.lock[Slot(s.head, s.n)] == s.head + 1 then Got(s, t, want) else t == s
  {
    hide Inv, Slot, Leads;
    NodeSizes(s, Slot(s.head, s.n));
    var a := Apply(s, p, GetLoad(want, solo));
    var b := Apply(a, p, GetCheck);
    LeadsOne(s, p, GetLoad(want, solo));
    LeadsOne(a, p, GetCheck);
    acts := [GetLoad(want, solo)] + [GetCheck];
    LeadsOn(s, p, [GetLoad(want, solo)], a, [GetCheck], b);
    t := b;
    if s.lock[Slot(s.head, s.n)] == s.head + 1 {
      var c := Apply(b, p, GetClaim);
      LeadsOne(b, p, GetClaim);
      LeadsOn(s, p, acts, b, [GetClaim], c);
      var more, d := ReadAll(c, p);
      LeadsOn(s, p, acts + [GetClaim], c, more, d);
      acts, t := acts + [GetClaim] + more, d;
    }
    assert t.pc == s.pc;
  }

  /** An enqueue into a free node, without interference. */
  lemma EnqueueWorks(s: State, p: nat, words: seq<Word>, solo: bool) returns (acts: seq<Act>, t: State)
    requires MayCall(s, p) && MayProduce(s, p, solo) && |words| <= DATA_SIZE
    requires |s.lock| == s.n && s.lock[Slot(s.tail, s.n)] == s.tail
    ensures Leads(s, p, acts, t) && Sent(s, t, words)
  {
    hide Inv, Slot, Leads;
    NodeSizes(s, Slot(s.tail, s.n));
    var b: State;
    if solo {
      var a := Apply(s, p, EnqLoad(words));
      b := Apply(a, p, EnqStore);
      LeadsOne(s, p, EnqLoad(words));
      LeadsOne(a, p, EnqStore);
      acts := [EnqLoad(words)] + [EnqStore];
      LeadsOn(s, p, [EnqLoad(words)], a, [EnqStore], b);
    } else {
      b := Apply(s, p, EnqClaim(words));
      LeadsOne(s, p, EnqClaim(words));
      acts := [EnqClaim(words)];
    }
    var c := Apply(b, p, EnqSpin);
    LeadsOne(b, p, EnqSpin);
    LeadsOn(s, p, acts, b, [EnqSpin], c);
    var more, d := WriteAll(c, p);
    LeadsOn(s, p, acts + [EnqSpin], c, more, d);
    acts, t := acts + [EnqSpin] + more, d;
    assert t.pc == s.pc;
  }

  /** A dequeue of a full node, without interference. */
  lemma DequeueWorks(s: State, p: nat, want: nat, solo: bool) returns (acts: seq<Act>, t: State)
    requires MayCall(s, p) && MayConsume(s, p, solo) && want <= DATA_SIZE
    requires |s.lock| == s.n && s.lock[Slot(s.head, s.n)] == s.head + 1
    ensures Leads(s, p, acts, t) && |s.data| == s.n && |s.data[Slot(s.head, s.n)]| == DATA_SIZE && Got(s, t, want)
  {
    hide Inv, Slot, Leads;
    NodeSizes(s, Slot(s.head, s.n));
    var b: State;
    if solo {
      var a := Apply(s, p, DeqLoad(want));
      b := Apply(a, p, DeqStore);
      LeadsOne(s, p, DeqLoad(want));
      LeadsOne(a, p, DeqStore);
      acts := [DeqLoad(want)] + [DeqStore];
      LeadsOn(s, p, [DeqLoad(want)], a, [DeqStore], b);
    } else {
      b := Apply(s, p, DeqClaim(want));
      LeadsOne(s, p, DeqClaim(want));
      acts := [DeqClaim(want)];
    }
    var c := Apply(b, p, DeqSpin);
    LeadsOne(b, p, DeqSpin);
    LeadsOn(s, p, acts, b, [DeqSpin], c);
    var more, d := ReadAll(c, p);
    LeadsOn(s, p, acts + [DeqSpin], c, more, d);
    acts, t := acts + [DeqSpin] + more, d;
    assert t.pc == s.pc;
  }

  // ----- A ring at rest ---------------------------------------------------------------------

  ghost predicate Owned(s: State, p: int, t: nat)
  {
    0 <= p < |s.pc| && OwnsTail(s.pc[p], t)
  }

  ghost predicate Awaited(s: State, p: int, h: nat)
  {
    0 <= p < |s.pc| && OwnsHead(s.pc[p], h)
  }

  /** A claimed ticket is published, or a thread is about to do it. */
  ghost predicate TailServed(s: State, t: nat)
  {
    |s.lock| == s.n && (s.lock[Slot(t, s.n)] > t || exists p :: Owned(s, p, t))
  }

  /** A claimed ticket is released, or a thread is about to do it. */
  ghost predicate HeadServed(s: State, h: nat)
  {
    h in s.got || exists p :: Awaited(s, p, h)
  }

  /** No claimed ticket is forgotten. */
  ghost predicate Served(s: State)
  {
    (forall t: nat :: t < s.tail ==> TailServed(s, t)) && (forall h: nat :: h < s.head ==> HeadServed(s, h))
  }

  lemma TailServedKept(s: State, p: nat, act: Act, t: nat)
    requires Inv(s) && Enabled(s, p, act) && t < Apply(s, p, act).tail && (t < s.tail ==> TailServed(s, t))
    ensures TailServed(Apply(s, p, act), t)
  {
    hide Slot, HistoryOk, RolesOk, TicketsOk, NodesOk;
    var w := Apply(s, p, act);
    assert PcOk(s, p);
    if t == s.tail {
      assert Owned(w, p, t);
    } else if s.lock[Slot(t, s.n)] <= t {
      var q :| Owned(s, q, t);
      if q != p || w.lock[Slot(t, s.n)] <= t {
        assert Owned(w, q, t);
      }
    }
  }

  lemma HeadServedKept(s: State, p: nat, act: Act, h: nat)
    requires Inv(s) && Enabled(s, p, act) && h < Apply(s, p, act).head && (h < s.head ==> HeadServed(s, h))
    ensures HeadServed(Apply(s, p, act), h)
  {
    hide Slot, HistoryOk, RolesOk, TicketsOk, NodesOk;
    var w := Apply(s, p, act);
    assert PcOk(s, p);
    if h == s.head {
      assert Awaited(w, p, h);
    } else if h !in w.got {
      var q :| Awaited(s, q, h);
      assert Awaited(w, q, h);
    }
  }

  lemma {:induction false} RunServed(n: Size, states: seq<State>, moves: seq<Move>, m: nat)
    requires Run(n, states, moves) && m < |states| && n >= 2
    ensures Served(states[m])
  {
    hide Inv, Enabled, Apply, TailServed, HeadServed;
    if m == 0 {
      var threads, producers, consumers :| states[0] == Init(n, threads, producers, consumers);
    } else {
      RunServed(n, states, moves, m - 1);
      RunInv(n, states, moves, m - 1);
      var s, p, act := states[m - 1], moves[m - 1].p, moves[m - 1].act;
      forall t: nat | t < states[m].tail ensures TailServed(states[m], t) {
        TailServedKept(s, p, act, t);
      }
      forall h: nat | h < states[m].head ensures HeadServed(states[m], h) {
        HeadServedKept(s, p, act, h);
      }
    }
  }

  ghost predicate AtRest(s: State)
  {
    forall p :: 0 <= p < |s.pc| ==> s.pc[p].Idle?
  }

  /** When no call is under way the ring is a queue of the tickets from head to tail: the node at the
      tail is free if and only if there are fewer than n of them, and the node at the head is full if
      and only if there is one. */
  lemma RingAtRest(n: Size, states: seq<State>, moves: seq<Move>, m: nat)
    requires Run(n, states, moves) && m < |states| && n >= 2 && AtRest(states[m])
    ensures var s := states[m];
            && s.head <= s.tail <= s.head + n && |s.lock| == s.n == n
            && (s.lock[Slot(s.tail, n)] == s.tail <==> s.tail - s.head < n)
            && (s.lock[Slot(s.head, n)] == s.head + 1 <==> s.head < s.tail)
  {
    hide Run;
    RunInv(n, states, moves, m);
    RunServed(n, states, moves, m);
    SizeFixed(n, states, moves, m);
    RestHead(states[m]);
    RestTail(states[m]);
  }

  lemma RestHead(s: State)
    requires Inv(s) && Served(s) && AtRest(s)
    ensures s.head <= s.tail && |s.lock| == s.n
    ensures s.lock[Slot(s.head, s.n)] == s.head + 1 <==> s.head < s.tail
  {
    hide Slot, Agree;
    assert s.head > s.tail ==> HeadServed(s, s.tail);
    var i := Slot(s.head, s.n);
    assert NodeOk(s, i);
    Ahead(s, s.head);
    if s.head < s.tail {
      assert TailServed(s, s.head);
    }
  }

  lemma RestTail(s: State)
    requires Inv(s) && Served(s) && AtRest(s) && s.head <= s.tail
    ensures s.tail <= s.head + s.n && |s.lock| == s.n
    ensures s.lock[Slot(s.tail, s.n)] == s.tail <==> s.tail - s.head < s.n
  {
    hide Agree, Slot;
    NotOverfull(s);
    var i := Slot(s.tail, s.n);
    assert NodeOk(s, i);
    Ahead(s, s.tail);
    var ticket := Ticket(s.lock[i], i, s.n);
    assert Slot(ticket, s.n) == i;
    if s.tail < s.n {
      SlotSmall(s.tail, ticket, s.n);
    } else {
      var k := s.tail - s.n;
      SlotBack(s.tail, s.n);
      assert k in s.got.Keys <==> k < ticket;
      if k < s.head {
        assert HeadServed(s, k);
        SlotGap(k, ticket, s.n);
      }
    }
  }

  /** A node is not used twice between head and tail. */
  lemma NotOverfull(s: State)
    requires Inv(s) && Served(s) && AtRest(s) && s.head <= s.tail
    ensures s.tail <= s.head + s.n
  {
    hide Agree, Slot;
    var k := s.head + s.n;
    SlotBack(k, s.n);
    var i := Slot(k, s.n);
    assert NodeOk(s, i);
    assert k < s.tail ==> TailServed(s, k);
    assert s.head in s.got.Keys <==> s.head < Ticket(s.lock[i], i, s.n);
  }

  lemma SlotBack(t: nat, n: Size)
    requires t >= n
    ensures Slot(t, n) == Slot(t - n, n)
  {}

  lemma SlotSmall(t: nat, k: nat, n: Size)
    requires t < n && Slot(k, n) == Slot(t, n)
    ensures t <= k
  {}
}
