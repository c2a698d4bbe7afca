/** The combining synchronizer (src/base/combiner.c, mm_combiner_execute).

    Threads publish requests in the nodes of a ring; the thread whose ticket equals the head
    executes its own request and up to `handoff` successive ones, then hands the head over.
    Each access to a shared word and each run of a request routine is one step; the two data words
    of a node, the routine and its argument, are written together and read together. */
module Combiner {
  import R = Ring

  type Size = n: nat | 2 <= n witness 2

  /** A request: the routine and its argument. */
  type Request = int

  datatype Pc =
    | Idle
    | Waiting(t: nat, req: Request)         // has ticket t, waits for its node
    | Storing(t: nat, req: Request)         // owns the node, has not stored the request
    | Stored(t: nat, req: Request)          // has stored the request, has not published it
    | Spinning(t: nat)                      // published, about to load the head
    | Checking(t: nat)                      // not its turn, about to look at its node
    | Looking(t: nat, h: nat)               // executor, about to look at node h
    | Taking(t: nat, h: nat)                // executor, found request h
    | Releasing(t: nat, h: nat, req: Request) // executor, loaded request h
    | Running(t: nat, h: nat, req: Request) // executor, released node h, about to run
    | Leaving(t: nat, h: nat)               // executor, about to store the head

  /** `sent`, `taken` and `ran` are history: the request passed in with each ticket, the
      set and number of requests taken out of their nodes, and the tickets and requests of
      the routines run so far, in order. */
  datatype State = State(
    n: Size, handoff: nat, head: nat, tail: nat, lock: seq<nat>, data: seq<Request>, pc: seq<Pc>,
    sent: map<nat, Request>, out: set<nat>, taken: nat, ran: seq<(nat, Request)>)

  datatype Act =
    | Claim(req: Request) | Ready | Store | Publish | LoadHead | CheckNode
    | Look | Take | Release | Execute | Leave

  predicate Enabled(s: State, p: nat, act: Act)
  {
    p < |s.pc| && |s.lock| == s.n == |s.data| &&
    var pc := s.pc[p];
    match act
    case Claim(_) => pc.Idle?
    case Ready => pc.Waiting? && s.lock[R.Slot(pc.t, s.n)] == pc.t
    case Store => pc.Storing?
    case Publish => pc.Stored?
    case LoadHead => pc.Spinning?
    case CheckNode => pc.Checking?
    case Look => pc.Looking?
    case Take => pc.Taking?
    case Release => pc.Releasing?
    case Execute => pc.Running?
    case Leave => pc.Leaving?
  }

  function Apply(s: State, p: nat, act: Act): State
    requires Enabled(s, p, act)
  {
    var pc := s.pc[p];
    var s' := s.(pc := s.pc[p := NextPc(s, p, act)]);
    match act
    case Claim(req) => s'.(tail := s.tail + 1, sent := s.sent[s.tail := req])
    case Store => s'.(data := s.data[R.Slot(pc.t, s.n) := pc.req])
    case Publish => s'.(lock := s.lock[R.Slot(pc.t, s.n) := pc.t + 1])
    case Release => s'.(lock := s.lock[R.Slot(pc.h, s.n) := pc.h + s.n], out := s.out + {pc.h}, taken := s.taken + 1)
    case Execute => s'.(ran := s.ran + [(pc.h, pc.req)])
    case Leave => s'.(head := pc.h)
    case _ => s'
  }

  function NextPc(s: State, p: nat, act: Act): Pc
    requires Enabled(s, p, act)
  {
    var pc := s.pc[p];
    match act
    case Claim(req) => Waiting(s.tail, req)
    case Ready => Storing(pc.t, pc.req)
    case Store => Stored(pc.t, pc.req)
    case Publish => Spinning(pc.t)
    case LoadHead => if s.head == pc.t then Looking(pc.t, pc.t) else Checking(pc.t)
    case CheckNode => if s.lock[R.Slot(pc.t, s.n)] != pc.t + 1 then Idle else Spinning(pc.t)
    case Look =>
      if pc.h != pc.t + s.handoff && s.lock[R.Slot(pc.h, s.n)] == pc.h + 1 then Taking(pc.t, pc.h)
      else Leaving(pc.t, pc.h)
    case Take => Releasing(pc.t, pc.h, s.data[R.Slot(pc.h, s.n)])
    case Release => Running(pc.t, pc.h, pc.req)
    case Execute => Looking(pc.t, pc.h + 1)
    case Leave => Idle
  }

  /** mm_combiner_prepare: the hand-off count is at least 4. */
  function Init(n: Size, handoff: nat, threads: nat): State
  {
    State(n, if handoff == 0 then 16 else if handoff < 4 then 4 else handoff, 0, 0,
          seq(n, i => i), seq(n, i => 0), seq(threads, i => Idle), map[], {}, 0, [])
  }

  // ----- The invariant -----------------------------------------------------------------

  predicate IsExecutor(pc: Pc)
  {
    pc.Looking? || pc.Taking? || pc.Releasing? || pc.Running? || pc.Leaving?
  }

  ghost predicate NodeOk(s: State, i: nat)
    requires i < |s.lock| && i < |s.data|
  {
    var stamp := s.lock[i];
    && (R.Free(stamp, i, s.n) || R.Full(stamp, i, s.n))
    && (R.Full(stamp, i, s.n) ==> stamp - 1 < s.tail && stamp - 1 in s.sent && s.data[i] == s.sent[stamp - 1])
  }

  ghost predicate SharedOk(s: State)
  {
    && |s.lock| == s.n == |s.data| && s.handoff >= 1
    && (forall t: nat :: t in s.sent <==> t < s.tail)
    && R.GotIsPast(s.lock, s.out, s.n)
    && (forall t: nat :: t in s.out <==> t < s.taken)
    && |s.ran| <= s.taken <= s.tail
    && (forall i :: 0 <= i < |s.ran| ==> i in s.sent && s.ran[i] == (i, s.sent[i]))
  }

  ghost predicate NodesOk(s: State)
    requires |s.lock| == s.n == |s.data|
  {
    forall i :: 0 <= i < s.n ==> NodeOk(s, i)
  }

  /** The executor's ticket is the head, and its position is the next request to run. */
  ghost predicate ExecutorOk(s: State, pc: Pc)
    requires IsExecutor(pc)
  {
    && pc.t == s.head && pc.t <= pc.h == |s.ran| && pc.h <= pc.t + s.handoff
    && s.taken == (if pc.Running? then |s.ran| + 1 else |s.ran|)
    && (pc.Leaving? ==> pc.t < pc.h)
    && (pc.Taking? || pc.Releasing? || pc.Running? ==> pc.h < pc.t + s.handoff)
  }

  ghost predicate PcOk(s: State, pc: Pc)
    requires |s.lock| == s.n == |s.data|
  {
    && (!pc.Idle? ==> pc.t < s.tail && pc.t in s.sent)
    && (IsExecutor(pc) ==> ExecutorOk(s, pc) && s.lock[R.Slot(pc.t, s.n)] >= pc.t + 1)
    && match pc
       case Idle => true
       case Waiting(t, req) => s.lock[R.Slot(t, s.n)] <= t && s.sent[t] == req
       case Storing(t, req) => s.lock[R.Slot(t, s.n)] == t && s.sent[t] == req
       case Stored(t, req) => s.lock[R.Slot(t, s.n)] == t && s.sent[t] == req && s.data[R.Slot(t, s.n)] == req
       case Spinning(t) => s.lock[R.Slot(t, s.n)] >= t + 1
       case Checking(t) => s.lock[R.Slot(t, s.n)] >= t + 1
       case Looking(t, h) => true
       case Taking(t, h) => s.lock[R.Slot(h, s.n)] == h + 1
       case Releasing(t, h, req) => s.lock[R.Slot(h, s.n)] == h + 1 && h in s.sent && s.sent[h] == req
       case Running(t, h, req) => h in s.sent && s.sent[h] == req
       case Leaving(t, h) => true
  }

  ghost predicate PcsOk(s: State)
    requires |s.lock| == s.n == |s.data|
  {
    && (forall p :: 0 <= p < |s.pc| ==> PcOk(s, s.pc[p]))
    && (forall p, q :: 0 <= p < |s.pc| && 0 <= q < |s.pc| && p != q && !s.pc[p].Idle? && !s.pc[q].Idle? ==>
          s.pc[p].t != s.pc[q].t)
    && ((forall p :: 0 <= p < |s.pc| ==> !IsExecutor(s.pc[p])) ==> s.head == |s.ran| == s.taken)
  }

  ghost predicate Inv(s: State)
  {
    SharedOk(s) && NodesOk(s) && PcsOk(s)
  }

  lemma InitInv(n: Size, handoff: nat, threads: nat)
    ensures Inv(Init(n, handoff, threads))
    ensures var h := Init(n, handoff, threads).handoff; if handoff >= 4 then h == handoff else 4 <= h <= 16
  {}

  /** What the stamps say about a ticket: it is free or unused from the tail on, and not yet
      taken from `taken` on. */
  lemma Stamps(s: State, t: nat)
    requires SharedOk(s) && NodesOk(s)
    ensures t >= s.tail ==> s.lock[R.Slot(t, s.n)] <= t
    ensures t >= s.taken ==> s.lock[R.Slot(t, s.n)] <= t + 1
    ensures t < s.taken ==> s.lock[R.Slot(t, s.n)] > t + 1
  {
    var i := R.Slot(t, s.n);
    assert NodeOk(s, i);
    assert t in s.out <==> t < R.Ticket(s.lock[i], i, s.n);
    R.SlotNext(t, s.n);
  }

  lemma PastKept(s: State, p: nat, act: Act)
    requires Enabled(s, p, act) && PcOk(s, s.pc[p]) && R.GotIsPast(s.lock, s.out, s.n)
    ensures R.GotIsPast(Apply(s, p, act).lock, Apply(s, p, act).out, s.n)
  {
    match act
    case Publish => R.GotPublished(s.lock, s.out, s.n, s.pc[p].t);
    case Release => R.GotReleased(s.lock, s.out, s.n, s.pc[p].h);
    case _ =>
  }

  lemma SharedKept(s: State, p: nat, act: Act)
    requires SharedOk(s) && Enabled(s, p, act) && PcOk(s, s.pc[p])
    requires act.Release? ==> s.pc[p].h < s.tail
    ensures SharedOk(Apply(s, p, act))
  {
    PastKept(s, p, act);
  }

  lemma NodeKept(s: State, p: nat, act: Act, i: nat)
    requires Enabled(s, p, act) && PcOk(s, s.pc[p]) && i < s.n && NodeOk(s, i)
    requires forall t: nat :: t in s.sent <==> t < s.tail
    ensures NodeOk(Apply(s, p, act), i)
  {
    R.FreeNotFull(s.lock[i], i, s.n);
    var pc := s.pc[p];
    match act
    case Publish =>
      assert R.Full(pc.t + 1, R.Slot(pc.t, s.n), s.n);
    case Release =>
      assert R.Free(pc.h + s.n, R.Slot(pc.h, s.n), s.n);
      R.FreeNotFull(pc.h + s.n, R.Slot(pc.h, s.n), s.n);
    case _ =>
  }

  lemma OwnPcKept(s: State, p: nat, act: Act)
    requires Enabled(s, p, act) && PcOk(s, s.pc[p]) && s.handoff >= 1 && |s.ran| <= s.taken
    requires forall t: nat :: t in s.sent <==> t < s.tail
    requires s.lock[R.Slot(s.tail, s.n)] <= s.tail
    requires var pc := s.pc[p];
             && (IsExecutor(pc) && s.lock[R.Slot(pc.h, s.n)] == pc.h + 1 ==>
                   pc.h in s.sent && s.data[R.Slot(pc.h, s.n)] == s.sent[pc.h])
             && (act.LoadHead? && s.head == pc.t ==> s.head == |s.ran| == s.taken)
             && (act.Look? && pc.h == pc.t ==> s.lock[R.Slot(pc.t, s.n)] == pc.t + 1)
    ensures PcOk(Apply(s, p, act), NextPc(s, p, act))
  {}

  /** A step of thread p leaves the promises about another thread's position intact. */
  lemma OtherPcKept(s: State, p: nat, act: Act, pc: Pc)
    requires Enabled(s, p, act) && PcOk(s, s.pc[p]) && PcOk(s, pc)
    requires forall t: nat :: t in s.sent <==> t < s.tail
    requires !pc.Idle? && !s.pc[p].Idle? ==> pc.t != s.pc[p].t
    ensures PcOk(Apply(s, p, act), pc)
  {
    if act.Publish? {
      OtherPcPublish(s, p, pc);
    } else if act.Release? {
      OtherPcRelease(s, p, pc);
    } else {
      OtherPcRest(s, p, act, pc);
    }
  }

  lemma OtherPcRest(s: State, p: nat, act: Act, pc: Pc)
    requires Enabled(s, p, act) && PcOk(s, s.pc[p]) && PcOk(s, pc) && !act.Publish? && !act.Release?
    requires forall t: nat :: t in s.sent <==> t < s.tail
    requires !pc.Idle? && !s.pc[p].Idle? ==> pc.t != s.pc[p].t
    ensures PcOk(Apply(s, p, act), pc)
  {
    hide R.Slot;
  }

  lemma OtherPcPublish(s: State, p: nat, pc: Pc)
    requires Enabled(s, p, Publish) && PcOk(s, s.pc[p]) && PcOk(s, pc)
    requires !pc.Idle? && !s.pc[p].Idle? ==> pc.t != s.pc[p].t
    ensures PcOk(Apply(s, p, Publish), pc)
  {
    hide R.Slot;
    if pc.Taking? || pc.Releasing? {
      R.SlotNext(pc.h, s.n);
    }
    if !pc.Idle? {
      R.SlotNext(pc.t, s.n);
    }
  }

  lemma OtherPcRelease(s: State, p: nat, pc: Pc)
    requires Enabled(s, p, Release) && PcOk(s, s.pc[p]) && PcOk(s, pc)
    requires !pc.Idle? && !s.pc[p].Idle? ==> pc.t != s.pc[p].t
    ensures PcOk(Apply(s, p, Release), pc)
  {
    hide R.Slot;
    var me := s.pc[p];
    R.SlotNext(me.h, s.n);
    if pc.Waiting? && pc.t > me.h && R.Slot(pc.t, s.n) == R.Slot(me.h, s.n) {
      R.SlotGap(me.h, pc.t, s.n);
    }
  }

  /** At most one thread executes requests. */
  lemma OneExecutor(s: State, p: nat, q: nat)
    requires |s.lock| == s.n == |s.data| && PcsOk(s) && p < |s.pc| && q < |s.pc|
    requires IsExecutor(s.pc[p]) && IsExecutor(s.pc[q])
    ensures p == q
  {
    assert PcOk(s, s.pc[p]) && PcOk(s, s.pc[q]);
  }

  lemma PremisesHold(s: State, p: nat, act: Act)
    requires Inv(s) && Enabled(s, p, act)
    ensures PcOk(s, s.pc[p]) && s.lock[R.Slot(s.tail, s.n)] <= s.tail
    ensures act.Release? ==> s.pc[p].h < s.tail
    ensures var pc := s.pc[p];
            && (IsExecutor(pc) && s.lock[R.Slot(pc.h, s.n)] == pc.h + 1 ==>
                  pc.h in s.sent && s.data[R.Slot(pc.h, s.n)] == s.sent[pc.h])
            && (act.LoadHead? && s.head == pc.t ==> s.head == |s.ran| == s.taken)
            && (act.Look? && pc.h == pc.t ==> s.lock[R.Slot(pc.t, s.n)] == pc.t + 1)
  {
    var pc := s.pc[p];
    assert PcOk(s, pc);
    Stamps(s, s.tail);
    if IsExecutor(pc) {
      Stamps(s, pc.t);
      assert NodeOk(s, R.Slot(pc.h, s.n));
    }
    if act.LoadHead? && s.head == pc.t {
      forall q | 0 <= q < |s.pc|
        ensures !IsExecutor(s.pc[q])
      {
        assert PcOk(s, s.pc[q]);
      }
    }
  }

  lemma TicketsKept(s: State, p: nat, act: Act, q: nat)
    requires Inv(s) && Enabled(s, p, act) && q < |s.pc| && q != p
    requires !NextPc(s, p, act).Idle? && !s.pc[q].Idle?
    ensures s.pc[q].t != NextPc(s, p, act).t
  {
    assert PcOk(s, s.pc[q]);
  }

  lemma ExecutorKept(s: State, p: nat, act: Act)
    requires Inv(s) && Enabled(s, p, act)
    ensures var t := Apply(s, p, act);
            (forall q :: 0 <= q < |t.pc| ==> !IsExecutor(t.pc[q])) ==> t.head == |t.ran| == t.taken
  {
    var t := Apply(s, p, act);
    assert PcOk(s, s.pc[p]);
    if act.Leave? {
    } else if forall q :: 0 <= q < |t.pc| ==> !IsExecutor(t.pc[q]) {
      assert !IsExecutor(t.pc[p]) && !IsExecutor(s.pc[p]);
      assert forall q :: 0 <= q < |s.pc| && q != p ==> t.pc[q] == s.pc[q];
    }
  }

  lemma StepShape(s: State, p: nat, act: Act)
    requires Enabled(s, p, act)
    ensures var t := Apply(s, p, act);
            && p < |s.pc| == |t.pc| && |s.lock| == s.n == |s.data| && t.n == s.n && |t.lock| == t.n == |t.data|
            && t.pc[p] == NextPc(s, p, act) && forall q :: 0 <= q < |s.pc| && q != p ==> t.pc[q] == s.pc[q]
  {}

  lemma PcsKept(s: State, p: nat, act: Act)
    requires Inv(s) && Enabled(s, p, act)
    ensures PcsOk(Apply(s, p, act))
  {
    hide PcOk, NodeOk, Apply, NextPc, Enabled;
    var t := Apply(s, p, act);
    StepShape(s, p, act);
    PremisesHold(s, p, act);
    OwnPcKept(s, p, act);
    forall q | 0 <= q < |t.pc|
      ensures PcOk(t, t.pc[q])
      ensures q != p ==> t.pc[q] == s.pc[q]
      ensures q != p && !t.pc[p].Idle? && !t.pc[q].Idle? ==> t.pc[q].t != t.pc[p].t
    {
      assert PcOk(s, s.pc[q]);
      if q != p {
        OtherPcKept(s, p, act, s.pc[q]);
        if !t.pc[p].Idle? && !t.pc[q].Idle? {
          TicketsKept(s, p, act, q);
        }
      }
    }
    ExecutorKept(s, p, act);
  }

  lemma StepInv(s: State, p: nat, act: Act)
    requires Inv(s) && Enabled(s, p, act)
    ensures Inv(Apply(s, p, act))
  {
    PremisesHold(s, p, act);
    SharedKept(s, p, act);
    forall i | 0 <= i < s.n
      ensures NodeOk(Apply(s, p, act), i)
    {
      assert NodeOk(s, i);
      NodeKept(s, p, act, i);
    }
    PcsKept(s, p, act);
  }

  // ----- Runs --------------------------------------------------------------------------

  datatype Move = Move(p: nat, act: Act)

  ghost predicate Run(states: seq<State>, moves: seq<Move>)
  {
    && |states| == |moves| + 1
    && (exists n: Size, handoff, threads :: states[0] == Init(n, handoff, threads))
    && forall m :: 0 <= m < |moves| ==>
         && Enabled(states[m], moves[m].p, moves[m].act)
         && states[m + 1] == Apply(states[m], moves[m].p, moves[m].act)
  }

  lemma {:induction false} RunInv(states: seq<State>, moves: seq<Move>, m: nat)
    requires Run(states, moves) && m < |states|
    ensures Inv(states[m])
  {
    if m == 0 {
      var n: Size, handoff, threads :| states[0] == Init(n, handoff, threads);
      InitInv(n, handoff, threads);
    } else {
      RunInv(states, moves, m - 1);
      StepInv(states[m - 1], moves[m - 1].p, moves[m - 1].act);
    }
  }

  /** Mutual exclusion: in every state of every run at most one thread is executing. */
  lemma MutualExclusion(states: seq<State>, moves: seq<Move>, m: nat, p: nat, q: nat)
    requires Run(states, moves) && m < |states| && p < |states[m].pc| && q < |states[m].pc|
    requires IsExecutor(states[m].pc[p]) && IsExecutor(states[m].pc[q])
    ensures p == q
  {
    RunInv(states, moves, m);
    OneExecutor(states[m], p, q);
  }

  /** The routines run are the requests of tickets 0, 1, 2, ... in this order, each once,
      across all hand-offs of the executor role. */
  lemma TicketOrder(states: seq<State>, moves: seq<Move>, m: nat, i: nat)
    requires Run(states, moves) && m < |states| && i < |states[m].ran|
    ensures i in states[m].sent && states[m].ran[i] == (i, states[m].sent[i])
  {
    RunInv(states, moves, m);
  }

  /** An executor hands over the head after at least its own request and at most `handoff`. */
  lemma HandOff(states: seq<State>, moves: seq<Move>, m: nat)
    requires Run(states, moves) && m < |moves| && moves[m].act.Leave?
    ensures states[m].head < states[m + 1].head <= states[m].head + states[m].handoff
    ensures states[m + 1].head == |states[m].ran|
  {
    RunInv(states, moves, m);
    assert PcOk(states[m], states[m].pc[moves[m].p]);
  }

  /** A move by which a call of mm_combiner_execute returns, and its ticket. */
  ghost predicate Returns(s: State, move: Move)
  {
    && Enabled(s, move.p, move.act)
    && (move.act.Leave? || (move.act.CheckNode? && NextPc(s, move.p, move.act).Idle?))
  }

  ghost predicate BeingRun(s: State, t: nat)
  {
    exists q :: 0 <= q < |s.pc| && s.pc[q].Running? && s.pc[q].h == t
  }

  /** When a call returns its request has been taken by an executor.  Its routine has run
      unless it is just being run: the node is released before the routine is called. */
  lemma ReturnsWhenTaken(states: seq<State>, moves: seq<Move>, m: nat)
    requires Run(states, moves) && m < |moves| && Returns(states[m], moves[m])
    ensures var s, t := states[m], states[m].pc[moves[m].p].t;
            && t <= |s.ran|
            && (t < |s.ran| <==> !BeingRun(s, t))
  {
    RunInv(states, moves, m);
    var s, p := states[m], moves[m].p;
    var t := s.pc[p].t;
    assert PcOk(s, s.pc[p]);
    Stamps(s, t);
    assert forall q :: 0 <= q < |s.pc| && s.pc[q].Running? ==> PcOk(s, s.pc[q]) && s.pc[q].h == |s.ran|;
    if t >= |s.ran| {
      var q :| 0 <= q < |s.pc| && IsExecutor(s.pc[q]);
      assert PcOk(s, s.pc[q]);
    }
  }

  /** A call that returns as the executor has had its routine called. */
  lemma ExecutorReturnsLate(states: seq<State>, moves: seq<Move>, m: nat)
    requires Run(states, moves) && m < |moves| && moves[m].act.Leave?
    ensures states[m].pc[moves[m].p].t < |states[m].ran|
  {
    RunInv(states, moves, m);
    assert PcOk(states[m], states[m].pc[moves[m].p]);
  }

  // ----- Requests served ----------------------------------------------------------------

  ghost predicate Attends(s: State, p: int, t: nat)
  {
    0 <= p < |s.pc| && !s.pc[p].Idle? && s.pc[p].t == t
  }

  /** Every request that is not taken yet belongs to a call that has not returned. */
  ghost predicate Attended(s: State)
  {
    forall t: nat :: s.taken <= t < s.tail ==> HasCall(s, t)
  }

  ghost predicate HasCall(s: State, t: nat)
  {
    exists p :: Attends(s, p, t)
  }

  /** A thread keeps its ticket until it returns, and by then its request is taken. */
  lemma TicketHeld(s: State, p: nat, act: Act)
    requires Inv(s) && Enabled(s, p, act)
    ensures var t := Apply(s, p, act);
            && s.taken <= t.taken && t.tail == (if act.Claim? then s.tail + 1 else s.tail)
            && (act.Claim? ==> s.pc[p].Idle? && Attends(t, p, s.tail))
            && (!act.Claim? ==> !s.pc[p].Idle? && (Attends(t, p, s.pc[p].t) || s.pc[p].t < s.taken))
  {
    assert PcOk(s, s.pc[p]);
    if !act.Claim? {
      Stamps(s, s.pc[p].t);
    }
  }

  lemma AttendedKept(s: State, p: nat, act: Act)
    requires Inv(s) && Enabled(s, p, act) && Attended(s)
    ensures Attended(Apply(s, p, act))
  {
    hide Inv, Enabled, Apply, NextPc;
    var w := Apply(s, p, act);
    TicketHeld(s, p, act);
    StepShape(s, p, act);
    forall t: nat | w.taken <= t < w.tail ensures HasCall(w, t) {
      if t == s.tail {
        assert Attends(w, p, t);
      } else {
        assert HasCall(s, t);
        var q :| Attends(s, q, t);
        assert Attends(w, q, t);
      }
    }
  }

  lemma InitAttended(n: Size, handoff: nat, threads: nat)
    ensures Attended(Init(n, handoff, threads))
  {}

  lemma {:induction false} RunAttended(states: seq<State>, moves: seq<Move>, m: nat)
    requires Run(states, moves) && m < |states|
    ensures Attended(states[m])
  {
    hide Inv, Attended, Apply, Enabled;
    if m == 0 {
      var n: Size, handoff, threads :| states[0] == Init(n, handoff, threads);
      InitAttended(n, handoff, threads);
    } else {
      RunAttended(states, moves, m - 1);
      RunInv(states, moves, m - 1);
      AttendedKept(states[m - 1], moves[m - 1].p, moves[m - 1].act);
    }
  }

  /** When all calls have returned, every request has been executed: none is left behind. */
  lemma AllServed(states: seq<State>, moves: seq<Move>, m: nat)
    requires Run(states, moves) && m < |states|
    requires forall p :: 0 <= p < |states[m].pc| ==> states[m].pc[p].Idle?
    ensures |states[m].ran| == states[m].tail
    ensures forall t: nat :: t < states[m].tail ==> t in states[m].sent && states[m].ran[t] == (t, states[m].sent[t])
  {
    RunInv(states, moves, m);
    RunAttended(states, moves, m);
    var s := states[m];
    assert s.taken < s.tail ==> HasCall(s, s.taken);
  }

  // ----- Early return -------------------------------------------------------------------

  ghost predicate RunOf(n: Size, handoff: nat, threads: nat, states: seq<State>, moves: seq<Move>)
  {
    Run(states, moves) && states[0] == Init(n, handoff, threads)
  }

  /** A call returns, and its routine has not been called yet. */
  ghost predicate EarlyAt(states: seq<State>, moves: seq<Move>, m: nat)
  {
    && m < |moves| && m < |states| && Returns(states[m], moves[m])
    && states[m].pc[moves[m].p].t >= |states[m].ran|
  }

  ghost predicate NeverEarly(n: Size, handoff: nat, threads: nat)
  {
    forall states, moves, m :: RunOf(n, handoff, threads, states, moves) ==> !EarlyAt(states, moves, m)
  }

  /** The routine has always been called when a call returns if and only if there is one thread. */
  lemma NeverEarlyIff(n: Size, handoff: nat, threads: nat)
    ensures NeverEarly(n, handoff, threads) <==> threads <= 1
  {
    if threads <= 1 {
      forall states, moves, m | RunOf(n, handoff, threads, states, moves) ensures !EarlyAt(states, moves, m) {
        if EarlyAt(states, moves, m) {
          AloneReturnsLate(n, handoff, threads, states, moves, m);
        }
      }
    } else {
      var states, moves, m := ReturnsEarly(n, handoff, threads);
      assert RunOf(n, handoff, threads, states, moves) && EarlyAt(states, moves, m);
    }
  }

  lemma {:induction false} ThreadsFixed(states: seq<State>, moves: seq<Move>, m: nat)
    requires Run(states, moves) && m < |states|
    ensures |states[m].pc| == |states[0].pc|
  {
    if m > 0 {
      ThreadsFixed(states, moves, m - 1);
    }
  }

  lemma AloneReturnsLate(n: Size, handoff: nat, threads: nat, states: seq<State>, moves: seq<Move>, m: nat)
    requires RunOf(n, handoff, threads, states, moves) && threads <= 1
    requires m < |moves| && Returns(states[m], moves[m])
    ensures states[m].pc[moves[m].p].t < |states[m].ran|
  {
    ReturnsWhenTaken(states, moves, m);
    ThreadsFixed(states, moves, m);
  }

  lemma Extend(states: seq<State>, moves: seq<Move>, p: nat, act: Act) returns (states': seq<State>, moves': seq<Move>)
    requires Run(states, moves) && Enabled(states[|moves|], p, act)
    ensures Run(states', moves') && |moves'| == |moves| + 1 && states'[0] == states[0]
    ensures states'[|moves'|] == Apply(states[|moves|], p, act)
    ensures states'[|moves|] == states[|moves|] && moves'[|moves|] == Move(p, act)
  {
    states', moves' := states + [Apply(states[|moves|], p, act)], moves + [Move(p, act)];
  }

  lemma PublishPhase(states: seq<State>, moves: seq<Move>, p: nat, req: Request)
    returns (states': seq<State>, moves': seq<Move>)
    requires Run(states, moves)
    requires var s := states[|moves|];
             && p < |s.pc| && |s.lock| == s.n == |s.data|
             && s.pc[p].Idle? && s.lock[R.Slot(s.tail, s.n)] == s.tail
    ensures Run(states', moves') && states'[0] == states[0]
    ensures var s, i := states[|moves|], R.Slot(states[|moves|].tail, states[|moves|].n);
            states'[|moves'|] == s.(tail := s.tail + 1, sent := s.sent[s.tail := req], data := s.data[i := req],
                                    lock := s.lock[i := s.tail + 1], pc := s.pc[p := Spinning(s.tail)])
  {
    hide Run, R.Slot;
    states', moves' := Extend(states, moves, p, Claim(req));
    states', moves' := Extend(states', moves', p, Ready);
    states', moves' := Extend(states', moves', p, Store);
    states', moves' := Extend(states', moves', p, Publish);
  }

  lemma TakePhase(states: seq<State>, moves: seq<Move>, p: nat)
    returns (states': seq<State>, moves': seq<Move>)
    requires Run(states, moves)
    requires var s := states[|moves|];
             && p < |s.pc| && |s.lock| == s.n == |s.data|
             && s.pc[p].Looking? && s.pc[p].h != s.pc[p].t + s.handoff
             && s.lock[R.Slot(s.pc[p].h, s.n)] == s.pc[p].h + 1
    ensures Run(states', moves') && states'[0] == states[0]
    ensures var s, i := states[|moves|], R.Slot(states[|moves|].pc[p].h, states[|moves|].n);
            var h := s.pc[p].h;
            states'[|moves'|] == s.(lock := s.lock[i := h + s.n], out := s.out + {h}, taken := s.taken + 1,
                                    pc := s.pc[p := Running(s.pc[p].t, h, s.data[i])])
  {
    hide Run, R.Slot;
    states', moves' := Extend(states, moves, p, Look);
    states', moves' := Extend(states', moves', p, Take);
    states', moves' := Extend(states', moves', p, Release);
  }

  /** Two threads have published; thread 1 has found that it is not its turn. */
  lemma BothPublished(n: Size, handoff: nat, threads: nat) returns (states: seq<State>, moves: seq<Move>)
    requires threads >= 2
    ensures RunOf(n, handoff, threads, states, moves)
    ensures var s := states[|moves|];
            && s.n == n && s.handoff >= 4 && |s.lock| == n == |s.data| && s.ran == [] && s.head == 0
            && s.lock[0] == 1 && s.lock[1] == 2
            && |s.pc| == threads && s.pc[0] == Spinning(0) && s.pc[1] == Checking(1)
  {
    hide Run;
    var s0 := Init(n, handoff, threads);
    assert R.Slot(0, n) == 0 && R.Slot(1, n) == 1;
    RunBegins(n, handoff, threads);
    states, moves := PublishPhase([s0], [], 0, 5);
    states, moves := PublishPhase(states, moves, 1, 5);
    states, moves := Extend(states, moves, 1, LoadHead);
  }

  lemma RunBegins(n: Size, handoff: nat, threads: nat)
    ensures Run([Init(n, handoff, threads)], [])
  {}

  /** With two threads or more, thread 1 can return while thread 0 has yet to call its routine. */
  lemma ReturnsEarly(n: Size, handoff: nat, threads: nat) returns (states: seq<State>, moves: seq<Move>, m: nat)
    requires threads >= 2
    ensures RunOf(n, handoff, threads, states, moves) && EarlyAt(states, moves, m)
  {
    hide Run;
    states, moves := BothPublished(n, handoff, threads);
    assert R.Slot(0, n) == 0 && R.Slot(1, n) == 1;
    states, moves := Extend(states, moves, 0, LoadHead);
    states, moves := TakePhase(states, moves, 0);
    states, moves := Extend(states, moves, 0, Execute);
    states, moves := TakePhase(states, moves, 0);
    RunSize(states, moves);
    m := |moves|;
    var s := states[m];
    assert s.pc[1] == Checking(1) && s.lock[1] == 1 + n && |s.ran| == 1;
    states, moves := Extend(states, moves, 1, CheckNode);
    RunSize(states, moves);
  }

  lemma RunSize(states: seq<State>, moves: seq<Move>)
    requires Run(states, moves)
    ensures |states| == |moves| + 1
  {}

  // ----- Batches and calls without interference -----------------------------------------

  /** The moves of thread p, one for each act, lead from s to t. */
  ghost predicate Leads(s: State, p: nat, acts: seq<Act>, t: State)
    decreases |acts|
  {
    if acts == [] then s == t
    else Enabled(s, p, acts[0]) && Leads(Apply(s, p, acts[0]), p, acts[1..], t)
  }

  lemma LeadsMore(s: State, p: nat, act: Act, acts: seq<Act>, t: State)
    requires Enabled(s, p, act) && Leads(Apply(s, p, act), p, acts, t)
    ensures Leads(s, p, [act] + acts, t)
  {
    assert ([act] + acts)[1..] == acts;
  }

  predicate Published(s: State, t: nat)
    requires |s.lock| == s.n
  {
    s.lock[R.Slot(t, s.n)] == t + 1
  }

  /** The requests from h on are published up to `end`, where the batch of the executor ends. */
  ghost predicate Batch(s: State, h: nat, end: nat, last: nat)
    requires |s.lock| == s.n
  {
    && h <= end <= last && (forall i: nat :: h <= i < end ==> Published(s, i))
    && (end < last ==> !Published(s, end))
  }

  /** Nothing but the executor moves: it has left, and has run the requests before `end`. */
  ghost predicate BatchRun(s: State, p: nat, end: nat, t: State)
  {
    && p < |s.pc| && t.pc == s.pc[p := Idle] && t.n == s.n && t.tail == s.tail && t.sent == s.sent
    && t.head == end == |t.ran| && s.ran <= t.ran
  }

  /** One request of a batch: it is taken and run, and the rest of the batch stays published. */
  lemma RunsOne(s: State, p: nat, end: nat) returns (t: State)
    requires Inv(s) && p < |s.pc| && s.pc[p].Looking? && s.pc[p].h < end
    requires Batch(s, s.pc[p].h, end, s.pc[p].t + s.handoff)
    ensures Leads(s, p, [Look] + ([Take] + ([Release] + ([Execute] + []))), t) && Inv(t)
    ensures t.pc == s.pc[p := Looking(s.pc[p].t, s.pc[p].h + 1)] && t.handoff == s.handoff && t.n == s.n
    ensures t.tail == s.tail && t.sent == s.sent && t.head == s.head && s.ran <= t.ran
    ensures Batch(t, s.pc[p].h + 1, end, s.pc[p].t + s.handoff)
  {
    hide Inv, Leads, R.Slot;
    var h := s.pc[p].h;
    Sizes(s);
    assert Published(s, h);
    var s1 := Apply(s, p, Look);
    StepInv(s, p, Look);
    var s2 := Apply(s1, p, Take);
    StepInv(s1, p, Take);
    var s3 := Apply(s2, p, Release);
    StepInv(s2, p, Release);
    t := Apply(s3, p, Execute);
    StepInv(s3, p, Execute);
    assert Leads(t, p, [], t) by { LeadsNone(t, p); }
    LeadsMore(s3, p, Execute, [], t);
    LeadsMore(s2, p, Release, [Execute] + [], t);
    LeadsMore(s1, p, Take, [Release] + ([Execute] + []), t);
    LeadsMore(s, p, Look, [Take] + ([Release] + ([Execute] + [])), t);
    RestPublished(s, h, end, s.pc[p].t + s.handoff, t);
  }

  /** Giving back the node of one ticket leaves the requests after it as they are. */
  lemma RestPublished(s: State, h: nat, end: nat, last: nat, t: State)
    requires |s.lock| == s.n && t.n == s.n && t.lock == s.lock[R.Slot(h, s.n) := h + s.n]
    requires h < end && Batch(s, h, end, last)
    ensures Batch(t, h + 1, end, last)
  {
    hide R.Slot;
    assert Published(s, h);
    forall i: nat | h < i < end ensures Published(t, i) {
      assert Published(s, i);
    }
    if R.Slot(end, s.n) == R.Slot(h, s.n) {
      R.SlotGap(h, end, s.n);
    }
  }

  lemma LeadsNone(s: State, p: nat)
    ensures Leads(s, p, [], s)
  {}

  lemma Sizes(s: State)
    requires Inv(s)
    ensures |s.lock| == s.n == |s.data|
  {}

  /** An executor runs all requests that it finds published one after the other, to the hand-off count
      at most, and hands the head over to the next one. */
  lemma {:induction false} RunsBatch(s: State, p: nat, end: nat) returns (acts: seq<Act>, t: State)
    requires Inv(s) && p < |s.pc| && s.pc[p].Looking? && Batch(s, s.pc[p].h, end, s.pc[p].t + s.handoff)
    ensures Leads(s, p, acts, t) && Inv(t) && BatchRun(s, p, end, t)
    decreases end - s.pc[p].h
  {
    hide Inv, Published, Leads, R.Slot;
    if s.pc[p].h < end {
      var s1 := RunsOne(s, p, end);
      acts, t := RunsBatch(s1, p, end);
      LeadsJoin(s, p, [Look] + ([Take] + ([Release] + ([Execute] + []))), s1, acts, t);
      acts := [Look] + ([Take] + ([Release] + ([Execute] + []))) + acts;
    } else {
      acts, t := Leaves(s, p);
    }
  }

  lemma Leaves(s: State, p: nat) returns (acts: seq<Act>, t: State)
    requires Inv(s) && p < |s.pc| && s.pc[p].Looking? && Batch(s, s.pc[p].h, s.pc[p].h, s.pc[p].t + s.handoff)
    ensures Leads(s, p, acts, t) && Inv(t) && BatchRun(s, p, s.pc[p].h, t)
  {
    hide Inv, Leads, R.Slot;
    Sizes(s);
    Position(s, p);
    var s1 := Apply(s, p, Look);
    StepInv(s, p, Look);
    t := Apply(s1, p, Leave);
    StepInv(s1, p, Leave);
    LeadsNone(t, p);
    LeadsMore(s1, p, Leave, [], t);
    LeadsMore(s, p, Look, [Leave] + [], t);
    acts := [Look] + ([Leave] + []);
  }

  lemma Position(s: State, p: nat)
    requires Inv(s) && p < |s.pc| && s.pc[p].Looking?
    ensures s.pc[p].h == |s.ran| && s.pc[p].t == s.head
  {
    assert PcOk(s, s.pc[p]);
  }

  lemma {:induction false} LeadsJoin(s: State, p: nat, acts: seq<Act>, t: State, more: seq<Act>, u: State)
    requires Leads(s, p, acts, t) && Leads(t, p, more, u)
    ensures Leads(s, p, acts + more, u)
    decreases |acts|
  {
    hide Enabled, Apply;
    if acts == [] {
      assert acts + more == more;
    } else {
      LeadsJoin(Apply(s, p, acts[0]), p, acts[1..], t, more, u);
      assert (acts + more)[1..] == acts[1..] + more;
    }
  }

  ghost predicate AtRest(s: State)
  {
    forall q :: 0 <= q < |s.pc| ==> s.pc[q].Idle?
  }

  /** With no call under way the node for the next ticket is free, and the one after it not full. */
  lemma NextIsFree(s: State)
    requires Inv(s) && Attended(s) && AtRest(s)
    ensures |s.lock| == s.n && s.lock[R.Slot(s.tail, s.n)] == s.tail == s.head == |s.ran|
  {
    hide R.Slot;
    var i := R.Slot(s.tail, s.n);
    assert s.taken < s.tail ==> HasCall(s, s.taken);
    assert NodeOk(s, i);
    Stamps(s, s.tail);
    var k := R.Ticket(s.lock[i], i, s.n);
    assert k in s.out <==> k < R.Ticket(s.lock[R.Slot(k, s.n)], R.Slot(k, s.n), s.n);
  }

  /** A call that finds no other under way runs its own request, and only that, and returns. */
  lemma CallReturns(s: State, p: nat, req: Request) returns (acts: seq<Act>, t: State)
    requires Inv(s) && Attended(s) && AtRest(s) && p < |s.pc|
    ensures Leads(s, p, acts, t) && Inv(t) && AtRest(t)
    ensures t.ran == s.ran + [(s.tail, req)] && t.tail == s.tail + 1
  {
    hide Inv, Attended, Leads, R.Slot;
    Sizes(s);
    NextIsFree(s);
    var s1 := Apply(s, p, Claim(req));
    StepInv(s, p, Claim(req));
    var s2 := Apply(s1, p, Ready);
    StepInv(s1, p, Ready);
    var s3 := Apply(s2, p, Store);
    StepInv(s2, p, Store);
    var s4 := Apply(s3, p, Publish);
    StepInv(s3, p, Publish);
    var s5 := Apply(s4, p, LoadHead);
    StepInv(s4, p, LoadHead);
    OwnOnly(s5, s.tail);
    acts, t := RunsBatch(s5, p, s.tail + 1);
    LeadsMore(s4, p, LoadHead, acts, t);
    acts := [LoadHead] + acts;
    LeadsMore(s3, p, Publish, acts, t);
    acts := [Publish] + acts;
    LeadsMore(s2, p, Store, acts, t);
    acts := [Store] + acts;
    LeadsMore(s1, p, Ready, acts, t);
    acts := [Ready] + acts;
    LeadsMore(s, p, Claim(req), acts, t);
    acts := [Claim(req)] + acts;
    RanIs(t, s.tail);
  }

  lemma OwnOnly(s: State, t: nat)
    requires Inv(s) && |s.lock| == s.n && Published(s, t) && s.tail == t + 1
    ensures Batch(s, t, t + 1, t + s.handoff)
  {
    Stamps(s, t + 1);
  }

  lemma RanIs(s: State, i: nat)
    requires Inv(s) && i < |s.ran|
    ensures i in s.sent && s.ran[i] == (i, s.sent[i])
  {}
}
