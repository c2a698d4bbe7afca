/** Epoch-based reclamation of event sinks (src/base/event/epoch.h, src/base/event/epoch.c).

    N listener threads share one global epoch.  Every load or store of a shared word is one
    step, so the enter operation (load the global epoch, then store the local one) may be
    arbitrarily stale, and the scan of the other listeners may stop at any of them and be
    resumed by a later call at the saved index.  Epochs are unbounded odd numbers. */
module Epoch {
  import opened Common

  type Sink = nat

  /** The two limbo lists. */
  type Limbo = p: seq<seq<Sink>> | |p| == 2 witness [[], []]

  /** What a listener thread is about to do; `seen` is its snapshot of the global epoch. */
  datatype Pc =
    | Idle
    | Entering(seen: nat)    // loaded the global epoch, has not stored the local one
    | Reclaiming(seen: nat)  // emptying the limbo list of a past epoch
    | Collecting(seen: nat)  // about to put the retired sinks aside
    | Scanning(seen: nat)    // checking the other listeners

  /** The local epoch record.  `section` and `base` are history: the number of stores made to
      `epoch`, and a value the global epoch had during the current announcement. */
  datatype Local = Local(
    epoch: nat, count: nat, index: nat,
    queue: seq<Sink>, limbo: Limbo,
    pc: Pc, section: nat, base: nat)

  /** `pins`, `tag`, `place` and `reclaimed` are history: for each retired sink the
      announcements that were open when it was retired, the epoch it was put aside at and the
      listener and list it was last put on; and the sinks handed to the reclaim task. */
  datatype State = State(
    global: nat, local: seq<Local>,
    pins: map<Sink, set<(int, nat)>>, tag: map<Sink, nat>, place: map<Sink, (int, int)>,
    reclaimed: set<Sink>)

  datatype Step =
    | EnterLoad(k: nat)
    | EnterStore(k: nat)
    | Leave(k: nat)
    | Retire(k: nat, sink: Sink)
    | AdvanceLoad(k: nat)
    | Reclaim(k: nat)
    | Amend(k: nat)
    | Collect(k: nat)
    | Scan(k: nat)
    | Publish(k: nat)

  const MAX_COUNT: nat := 65535

  /** The limbo list used at an epoch: bit 1 of the epoch. */
  function Slot(epoch: nat): (p: nat)
    ensures p < 2
  {
    (epoch / 2) % 2
  }

  /** The lists of sinks a listener still has to reclaim: two limbo lists and the queue. */
  function List(l: Local, p: int): seq<Sink>
    requires 0 <= p < 3
  {
    if p == 2 then l.queue else l.limbo[p]
  }

  /** The announcements that are open: listener and section number. */
  function OpenSections(local: seq<Local>): set<(int, nat)>
  {
    set i | 0 <= i < |local| && local[i].epoch != 0 :: (i, local[i].section)
  }

  function Init(n: nat): State
  {
    State(1, seq(n, i => Local(0, 0, 0, [], [[], []], Idle, 0, 0)), map[], map[], map[], {})
  }

  predicate Enabled(s: State, step: Step)
  {
    step.k < |s.local| &&
    var l := s.local[step.k];
    match step
    case EnterLoad(_) => l.pc.Idle? && l.epoch == 0
    case EnterStore(_) => l.pc.Entering?
    case Leave(_) => l.pc.Idle? && l.count == 0
    case Retire(_, x) => l.pc.Idle? && l.epoch % 2 == 1 && l.count < MAX_COUNT && x !in s.pins
    case AdvanceLoad(_) => l.pc.Idle? && l.epoch != 0
    case Reclaim(_) => l.pc.Reclaiming? && l.limbo[Slot(l.pc.seen)] != []
    case Amend(_) => l.pc.Reclaiming? && l.limbo[Slot(l.pc.seen)] == []
    case Collect(_) => l.pc.Collecting?
    case Scan(_) => l.pc.Scanning? && l.index < |s.local|
    case Publish(_) => l.pc.Scanning? && l.index >= |s.local|
  }

  /** Store a local epoch: the announcement in force ends and, unless the value is zero,
      a new one begins. */
  function StoreEpoch(l: Local, epoch: nat, base: nat, pc: Pc): Local
  {
    l.(epoch := epoch, index := if epoch == 0 then l.index else 0, pc := pc, section := l.section + 1, base := base)
  }

  function NextLocal(s: State, step: Step): Local
    requires Enabled(s, step)
  {
    var l := s.local[step.k];
    match step
    case EnterLoad(_) => l.(pc := Entering(s.global))
    case EnterStore(_) => StoreEpoch(l, l.pc.seen, s.global, Idle)
    case Leave(_) => StoreEpoch(l, 0, 0, Idle)
    case Retire(_, x) => l.(queue := l.queue + [x], count := l.count + 1)
    case AdvanceLoad(_) => l.(pc := if l.epoch != s.global then Reclaiming(s.global) else Collecting(s.global))
    case Reclaim(_) =>
      var p := Slot(l.pc.seen);
      l.(limbo := l.limbo[p := l.limbo[p][1..]], count := if l.count == 0 then 0 else l.count - 1)
    case Amend(_) =>
      if l.count == 0 then StoreEpoch(l, 0, 0, Idle)
      else StoreEpoch(l, l.pc.seen, l.pc.seen, Collecting(l.pc.seen))
    case Collect(_) =>
      var p := Slot(l.pc.seen);
      l.(limbo := l.limbo[p := l.queue + l.limbo[p]], queue := [], pc := Scanning(l.pc.seen))
    case Scan(_) =>
      var e := s.local[l.index].epoch;
      if e != l.pc.seen && e != 0 then l.(pc := Idle) else l.(index := l.index + 1)
    case Publish(_) => l.(pc := Idle)
  }

  function Apply(s: State, step: Step): State
    requires Enabled(s, step)
  {
    var l := s.local[step.k];
    var s' := s.(local := s.local[step.k := NextLocal(s, step)]);
    match step
    case Retire(_, x) =>
      s'.(pins := s.pins[x := OpenSections(s.local)], place := s.place[x := (step.k, 2)])
    case Reclaim(_) =>
      s'.(reclaimed := s.reclaimed + {l.limbo[Slot(l.pc.seen)][0]})
    case Collect(_) =>
      var moved := set x | x in l.queue;
      s'.(tag := s.tag + map x | x in moved :: l.pc.seen,
          place := s.place + map x | x in moved :: (step.k, Slot(l.pc.seen)))
    case Publish(_) =>
      // Compare-and-swap of the global epoch.
      s'.(global := if s.global == l.pc.seen then s.global + 2 else s.global)
    case _ => s'
  }

  // ----- The invariant ----------------------------------------------------------------

  /** Shape of one local record. */
  ghost predicate Shape(s: State, k: nat)
    requires k < |s.local|
  {
    var l := s.local[k];
    && l.count == |l.queue| + |l.limbo[0]| + |l.limbo[1]|
    && l.epoch <= s.global
    && (l.epoch == 0 || l.epoch % 2 == 1)
    && (l.count > 0 ==> l.epoch != 0)
    && match l.pc
       case Idle => true
       case Entering(t) => l.epoch == 0 && l.count == 0 && t % 2 == 1 && t <= s.global
       case Reclaiming(t) => 0 != l.epoch < t <= s.global && t % 2 == 1
       case Collecting(t) => l.epoch == t && t != 0
       case Scanning(t) => l.epoch == t && t != 0
  }

  /** No scan made at epoch `bound + 2` or later has gone past listener k. */
  ghost predicate NotPassed(s: State, k: nat, bound: nat)
  {
    forall j :: 0 <= j < |s.local| && s.local[j].epoch >= bound + 2 ==> s.local[j].index <= k
  }

  /** While listener k announces an epoch, the global epoch is stuck next to its base. */
  ghost predicate Barrier(s: State, k: nat)
    requires k < |s.local|
  {
    var l := s.local[k];
    && (l.epoch != 0 ==>
          l.epoch <= l.base <= s.global <= l.base + 2 && l.base % 2 == 1 && NotPassed(s, k, l.base))
    && (l.pc.Reclaiming? ==> s.global <= l.pc.seen + 2 && NotPassed(s, k, l.pc.seen))
  }

  /** A pin that has not been released: the announcement is still open. */
  ghost predicate Pinned(s: State, x: Sink, i: int)
  {
    x in s.pins && 0 <= i < |s.local| && (i, s.local[i].section) in s.pins[x]
  }

  ghost predicate PinsKnown(s: State)
  {
    && (forall x, p :: x in s.pins && p in s.pins[x] ==> 0 <= p.0 < |s.local| && p.1 <= s.local[p.0].section)
    && (forall x, i :: Pinned(s, x, i) ==> s.local[i].epoch != 0)
  }

  /** No open announcement that pins the sink began after the global epoch was `bound`. */
  ghost predicate PinsBefore(s: State, x: Sink, bound: nat)
  {
    forall i :: Pinned(s, x, i) ==> s.local[i].base <= bound
  }

  /** A sink put aside carries the epoch of its limbo list. */
  ghost predicate TagOk(s: State, x: Sink, p: int, epoch: nat)
  {
    x in s.tag && s.tag[x] % 2 == 1 && Slot(s.tag[x]) == p && s.tag[x] <= epoch && PinsBefore(s, x, s.tag[x])
  }

  ghost predicate Tagged(s: State, l: Local)
  {
    && (forall p :: 0 <= p < 2 ==> forall x :: x in List(l, p) ==> TagOk(s, x, p, l.epoch))
    && (l.pc.Reclaiming? || l.pc.Collecting? ==> forall x :: x in l.queue ==> PinsBefore(s, x, l.pc.seen))
  }

  /** The sinks of q are retired, not reclaimed, and placed at (k, p). */
  ghost predicate At(s: State, q: seq<Sink>, k: int, p: int)
  {
    forall x :: x in q ==> x in s.pins && x !in s.reclaimed && x in s.place && s.place[x] == (k, p)
  }

  /** A pending sink is on one list of one listener, once, and has not been reclaimed. */
  ghost predicate Placed(s: State, k: nat)
    requires k < |s.local|
  {
    forall p :: 0 <= p < 3 ==>
      Distinct(List(s.local[k], p)) && At(s, List(s.local[k], p), k, p)
  }

  /** A retired sink that is not on a list has been reclaimed. */
  ghost predicate NoneLost(s: State)
  {
    forall x :: x in s.pins ==>
      x in s.reclaimed ||
      (x in s.place && 0 <= s.place[x].0 < |s.local| && 0 <= s.place[x].1 < 3 &&
       x in List(s.local[s.place[x].0], s.place[x].1))
  }

  ghost predicate Shapes(s: State)
  {
    s.global % 2 == 1 && forall k :: 0 <= k < |s.local| ==> Shape(s, k)
  }

  ghost predicate Barriers(s: State)
  {
    forall k :: 0 <= k < |s.local| ==> Barrier(s, k)
  }

  ghost predicate AllTagged(s: State)
  {
    forall k :: 0 <= k < |s.local| ==> Tagged(s, s.local[k])
  }

  ghost predicate AllPlaced(s: State)
  {
    && (forall k :: 0 <= k < |s.local| ==> Placed(s, k))
    && (forall x :: x in s.reclaimed ==> x in s.pins)
  }

  ghost predicate Inv(s: State)
  {
    Shapes(s) && Barriers(s) && PinsKnown(s) && AllTagged(s) && AllPlaced(s) && NoneLost(s)
  }

  lemma InitInv(n: nat)
    ensures Inv(Init(n))
  {}

  lemma ShapesKept(s: State, step: Step)
    requires Shapes(s) && Barriers(s) && Enabled(s, step)
    ensures Shapes(Apply(s, step))
  {
    var t := Apply(s, step);
    assert Shape(s, step.k) && Barrier(s, step.k);
    forall k | 0 <= k < |t.local|
      ensures Shape(t, k)
    {
      assert Shape(s, k);
    }
  }

  /** A listener that announces an epoch below `bound + 2` is not passed at `bound + 2`. */
  lemma NotPassedKept(s: State, step: Step, k: nat, bound: nat)
    requires Enabled(s, step) && Shape(s, step.k) && k < |s.local|
    requires NotPassed(s, k, bound) && 0 != s.local[k].epoch < bound + 2
    ensures NotPassed(Apply(s, step), k, bound)
  {}

  lemma NoneAhead(s: State, k: nat)
    requires Shapes(s)
    ensures NotPassed(s, k, s.global)
  {
    forall j | 0 <= j < |s.local|
      ensures s.local[j].epoch <= s.global
    {
      assert Shape(s, j);
    }
  }

  /** A successful compare-and-swap of the global epoch has seen every announcement. */
  lemma GlobalKept(s: State, step: Step, k: nat, bound: nat)
    requires Enabled(s, step) && Shape(s, step.k) && k < |s.local| && s.global % 2 == 1
    requires s.global <= bound + 2 && NotPassed(s, k, bound) && bound % 2 == 1
    ensures Apply(s, step).global <= bound + 2
  {}

  lemma BarrierKeptAt(s: State, step: Step, k: nat)
    requires Shapes(s) && Barriers(s) && Enabled(s, step) && k < |s.local|
    ensures Barrier(Apply(s, step), k)
  {
    hide NotPassed;
    assert Shape(s, k) && Shape(s, step.k) && Barrier(s, k);
    var l := s.local[k];
    ShapesKept(s, step);
    NoneAhead(Apply(s, step), k);
    if l.epoch != 0 {
      NotPassedKept(s, step, k, l.base);
      GlobalKept(s, step, k, l.base);
      if l.pc.Reclaiming? {
        NotPassedKept(s, step, k, l.pc.seen);
        GlobalKept(s, step, k, l.pc.seen);
      }
    }
  }

  lemma PinsKept(s: State, step: Step)
    requires Enabled(s, step) && PinsKnown(s) && Shape(s, step.k)
    ensures PinsKnown(Apply(s, step))
  {
    var t := Apply(s, step);
    forall x, i | Pinned(t, x, i)
      ensures t.local[i].epoch != 0
    {
      if x in s.pins {
        var p := (i, t.local[i].section);
        assert p in s.pins[x];
        assert Pinned(s, x, i);
      }
    }
  }

  /** A pin still in force was in force before, under the same announcement. */
  lemma PinsOnlyReleased(s: State, step: Step, x: Sink, i: int)
    requires Enabled(s, step) && PinsKnown(s) && Barriers(s)
    requires Pinned(Apply(s, step), x, i) && x in s.pins
    ensures Pinned(s, x, i) && Apply(s, step).local[i].base == s.local[i].base <= s.global
  {
    var p := (i, Apply(s, step).local[i].section);
    assert p in s.pins[x];
    assert Pinned(s, x, i);
    assert Barrier(s, i);
  }

  lemma PinsBeforeKept(s: State, step: Step, x: Sink, bound: nat)
    requires Enabled(s, step) && PinsKnown(s) && Barriers(s) && x in s.pins
    requires PinsBefore(s, x, bound) || bound == s.global
    ensures PinsBefore(Apply(s, step), x, bound)
  {
    forall i | Pinned(Apply(s, step), x, i)
      ensures Apply(s, step).local[i].base <= bound
    {
      PinsOnlyReleased(s, step, x, i);
    }
  }

  /** How a step changes one list: a sink is appended to the queue, the first sink of a limbo
      list is removed, or the queue is moved in front of a limbo list. */
  lemma ListAfter(s: State, step: Step, k: nat, p: int)
    requires Enabled(s, step) && k < |s.local| && 0 <= p < 3
    ensures var l, q, r := s.local[step.k], List(s.local[k], p), List(Apply(s, step).local[k], p);
            if k != step.k then r == q
            else if step.Retire? && p == 2 then r == q + [step.sink]
            else if step.Reclaim? && p == Slot(l.pc.seen) then q != [] && r == q[1..]
            else if step.Collect? && p == 2 then r == []
            else if step.Collect? && p == Slot(l.pc.seen) then r == l.queue + q
            else r == q
  {}

  lemma DistinctTail(q: seq<Sink>)
    requires Distinct(q) && q != []
    ensures Distinct(q[1..])
  {}

  lemma DistinctKept(s: State, step: Step, k: nat, p: int)
    requires Enabled(s, step) && k < |s.local| && 0 <= p < 3
    requires Placed(s, k) && Placed(s, step.k)
    ensures Distinct(List(Apply(s, step).local[k], p))
  {
    ListAfter(s, step, k, p);
    var l, q := s.local[step.k], List(s.local[k], p);
    assert List(l, 2) == l.queue;
    if k == step.k {
      match step
      case Retire(_, x) => DistinctConcat(q, [x]);
      case Reclaim(_) => if q != [] { DistinctTail(q); }
      case Collect(_) => if p != 2 { DistinctConcat(l.queue, q); }
      case _ =>
    }
  }

  lemma AtKept(s: State, step: Step, k: nat, p: int)
    requires Enabled(s, step) && k < |s.local| && 0 <= p < 3
    requires Placed(s, k) && Placed(s, step.k)
    requires forall x :: x in s.reclaimed ==> x in s.pins
    ensures At(Apply(s, step), List(Apply(s, step).local[k], p), k, p)
  {
    ListAfter(s, step, k, p);
    var t := Apply(s, step);
    var l, q, r := s.local[step.k], List(s.local[k], p), List(t.local[k], p);
    assert Distinct(q) && At(s, q, k, p);
    match step
    case Retire(_, _) =>
    case Reclaim(_) =>
      var o := List(l, Slot(l.pc.seen));
      assert o[0] in o && At(s, o, step.k, Slot(l.pc.seen));
      assert forall x :: x in r ==> x in q && x != o[0];
    case Collect(_) =>
      assert List(l, 2) == l.queue && At(s, l.queue, step.k, 2);
    case _ =>
  }

  lemma PlacedKept(s: State, step: Step)
    requires Enabled(s, step) && AllPlaced(s)
    ensures AllPlaced(Apply(s, step))
  {
    var t := Apply(s, step);
    assert Placed(s, step.k);
    forall k | 0 <= k < |t.local|
      ensures Placed(t, k)
    {
      assert Placed(s, k);
      forall p | 0 <= p < 3
        ensures Distinct(List(t.local[k], p)) && At(t, List(t.local[k], p), k, p)
      {
        DistinctKept(s, step, k, p);
        AtKept(s, step, k, p);
      }
    }
    if step.Reclaim? {
      var o := List(s.local[step.k], Slot(s.local[step.k].pc.seen));
      assert o[0] in o;
    }
  }

  lemma NoneLostKept(s: State, step: Step)
    requires Enabled(s, step) && NoneLost(s) && Placed(s, step.k)
    ensures NoneLost(Apply(s, step))
  {
    var t := Apply(s, step);
    var l := s.local[step.k];
    assert List(l, 2) == l.queue;
    forall x | x in t.pins && x !in t.reclaimed
      ensures x in t.place && 0 <= t.place[x].0 < |t.local| && 0 <= t.place[x].1 < 3 &&
              x in List(t.local[t.place[x].0], t.place[x].1)
    {
      if x in s.pins {
        var (k, p) := s.place[x];
        ListAfter(s, step, k, p);
        ListAfter(s, step, step.k, Slot(if l.pc.Idle? then 0 else l.pc.seen));
      } else {
        ListAfter(s, step, step.k, 2);
      }
    }
  }

  /** A Collect step tags the sinks of the queue and no others. */
  lemma TagAfter(s: State, step: Step, k: nat, p: int, x: Sink)
    requires Enabled(s, step) && k < |s.local| && 0 <= p < 2
    requires Placed(s, k) && Placed(s, step.k)
    requires x in List(Apply(s, step).local[k], p)
    ensures x in s.pins
    ensures if k == step.k && step.Collect? && x in s.local[k].queue
            then x in Apply(s, step).tag && Apply(s, step).tag[x] == s.local[k].pc.seen && p == Slot(s.local[k].pc.seen)
            else x in List(s.local[k], p) && (x in s.tag ==> x in Apply(s, step).tag
                                                             && Apply(s, step).tag[x] == s.tag[x])
  {
    var l := s.local[step.k];
    ListAfter(s, step, k, p);
    assert List(l, 2) == l.queue;
    assert x in List(s.local[k], p) || x in List(s.local[k], 2);
    assert x in List(s.local[k], p) ==> s.place[x] == (k as int, p);
    assert x in l.queue ==> s.place[x] == (step.k as int, 2);
  }

  lemma TagOkKept(s: State, step: Step, k: nat, p: int, x: Sink)
    requires Enabled(s, step) && k < |s.local| && 0 <= p < 2
    requires Shape(s, k) && Shape(s, step.k) && Barriers(s) && PinsKnown(s)
    requires Tagged(s, s.local[k]) && Placed(s, k) && Placed(s, step.k)
    requires x in List(Apply(s, step).local[k], p)
    ensures TagOk(Apply(s, step), x, p, Apply(s, step).local[k].epoch)
  {
    TagAfter(s, step, k, p, x);
    if x in List(s.local[k], p) {
      assert TagOk(s, x, p, s.local[k].epoch);
    }
    PinsBeforeKept(s, step, x, Apply(s, step).tag[x]);
  }

  lemma TaggedKeptAt(s: State, step: Step, k: nat)
    requires Enabled(s, step) && k < |s.local|
    requires Shape(s, k) && Shape(s, step.k) && Barriers(s) && PinsKnown(s)
    requires Tagged(s, s.local[k]) && Placed(s, k) && Placed(s, step.k)
    ensures Tagged(Apply(s, step), Apply(s, step).local[k])
  {
    var t := Apply(s, step);
    var l, m := s.local[k], t.local[k];
    forall p, x | 0 <= p < 2 && x in List(m, p)
      ensures TagOk(t, x, p, m.epoch)
    {
      TagOkKept(s, step, k, p, x);
    }
    if m.pc.Reclaiming? || m.pc.Collecting? {
      forall x | x in m.queue
        ensures PinsBefore(t, x, m.pc.seen)
      {
        assert x in List(l, 2);
        PinsBeforeKept(s, step, x, m.pc.seen);
      }
    }
  }

  lemma StepInv(s: State, step: Step)
    requires Inv(s) && Enabled(s, step)
    ensures Inv(Apply(s, step))
  {
    var t := Apply(s, step);
    ShapesKept(s, step);
    assert Shape(s, step.k) && Placed(s, step.k);
    forall k | 0 <= k < |s.local|
      ensures Barrier(t, k) && Tagged(t, t.local[k])
    {
      BarrierKeptAt(s, step, k);
      assert Shape(s, k) && Tagged(s, s.local[k]) && Placed(s, k);
      TaggedKeptAt(s, step, k);
    }
    PinsKept(s, step);
    PlacedKept(s, step);
    NoneLostKept(s, step);
  }

  // ----- Runs --------------------------------------------------------------------------

  /** An interleaving of the listeners' steps from the initial state. */
  ghost predicate Run(n: nat, states: seq<State>, steps: seq<Step>)
  {
    && |states| == |steps| + 1
    && states[0] == Init(n)
    && forall m :: 0 <= m < |steps| ==> Enabled(states[m], steps[m]) && states[m + 1] == Apply(states[m], steps[m])
  }

  lemma {:induction false} RunInv(n: nat, states: seq<State>, steps: seq<Step>, m: nat)
    requires Run(n, states, steps) && m < |states|
    ensures Inv(states[m]) && |states[m].local| == n
  {
    if m == 0 {
      InitInv(n);
    } else {
      RunInv(n, states, steps, m - 1);
      StepInv(states[m - 1], steps[m - 1]);
    }
  }

  /** The number of sinks put aside is the length of the queue and both limbo lists, in every
      state of every run; and every sink ever retired is in exactly one of these lists of
      one listener or has been reclaimed. */
  lemma CountIsPending(n: nat, states: seq<State>, steps: seq<Step>, m: nat, k: nat)
    requires Run(n, states, steps) && m < |states| && k < n
    ensures |states[m].local| == n
    ensures var l := states[m].local[k]; l.count == |l.queue| + |l.limbo[0]| + |l.limbo[1]|
    ensures forall x :: x in states[m].pins ==>
              if x in states[m].reclaimed then OffLists(states[m], x) else OnOneList(states[m], x)
  {
    RunInv(n, states, steps, m);
    var s := states[m];
    assert Shape(s, k);
    forall x | x in s.pins ensures if x in s.reclaimed then OffLists(s, x) else OnOneList(s, x) {
      ListedOnce(s, x);
    }
  }

  /** Sink x is on list p of listener j. */
  ghost predicate OnList(s: State, x: Sink, j: int, p: int)
  {
    0 <= j < |s.local| && 0 <= p < 3 && x in List(s.local[j], p)
  }

  ghost predicate OffLists(s: State, x: Sink)
  {
    forall j, p :: !OnList(s, x, j, p)
  }

  /** The sink is on exactly one list, and once on it. */
  ghost predicate OnOneList(s: State, x: Sink)
  {
    exists j, p :: OnList(s, x, j, p) && Distinct(List(s.local[j], p)) && OnlyList(s, x, j, p)
  }

  ghost predicate OnlyList(s: State, x: Sink, j: int, p: int)
  {
    forall i, q :: OnList(s, x, i, q) ==> i == j && q == p
  }

  lemma ListedOnce(s: State, x: Sink)
    requires AllPlaced(s) && NoneLost(s) && x in s.pins
    ensures if x in s.reclaimed then OffLists(s, x) else OnOneList(s, x)
  {
    forall j, p | OnList(s, x, j, p)
      ensures x !in s.reclaimed && x in s.place && s.place[x] == (j, p) && Distinct(List(s.local[j], p))
    {
      assert Placed(s, j);
      assert At(s, List(s.local[j], p), j, p);
    }
    if x !in s.reclaimed {
      assert OnList(s, x, s.place[x].0, s.place[x].1) && OnlyList(s, x, s.place[x].0, s.place[x].1);
    }
  }

  /** The sink that a Reclaim step hands over. */
  function Reclaimed(s: State, k: nat): Sink
    requires Enabled(s, Reclaim(k))
  {
    s.local[k].limbo[Slot(s.local[k].pc.seen)][0]
  }

  /** The sink in hand is not pinned: the epoch has advanced twice since it was put aside. */
  lemma ReclaimUnpinned(s: State, k: nat, i: int)
    requires Inv(s) && Enabled(s, Reclaim(k))
    ensures !Pinned(s, Reclaimed(s, k), i) && Reclaimed(s, k) !in s.reclaimed && Reclaimed(s, k) in s.pins
  {
    var l := s.local[k];
    var x := Reclaimed(s, k);
    assert Shape(s, k) && Tagged(s, l) && Placed(s, k);
    assert x in List(l, Slot(l.pc.seen));
    assert s.tag[x] + 4 <= l.pc.seen;
    if 0 <= i < |s.local| {
      assert Barrier(s, i);
    }
  }

  /** History only grows. */
  ghost predicate Grown(s: State, t: State)
  {
    && s.reclaimed <= t.reclaimed
    && (forall x :: x in s.pins ==> x in t.pins && t.pins[x] == s.pins[x])
    && |s.local| == |t.local|
    && (forall i :: 0 <= i < |s.local| ==> s.local[i].section <= t.local[i].section)
  }

  lemma StepGrows(s: State, step: Step)
    requires Enabled(s, step)
    ensures Grown(s, Apply(s, step))
  {}

  lemma {:induction false} HistoryGrows(n: nat, states: seq<State>, steps: seq<Step>, m: nat, q: nat)
    requires Run(n, states, steps) && m <= q < |states|
    ensures Grown(states[m], states[q])
    decreases q - m
  {
    if m < q {
      StepGrows(states[m], steps[m]);
      HistoryGrows(n, states, steps, m + 1, q);
    }
  }

  /** A sink is reclaimed at most once. */
  lemma ReclaimedOnce(n: nat, states: seq<State>, steps: seq<Step>, p: nat, q: nat)
    requires Run(n, states, steps) && p < q < |steps| && steps[p].Reclaim? && steps[q].Reclaim?
    ensures Reclaimed(states[p], steps[p].k) != Reclaimed(states[q], steps[q].k)
  {
    RunInv(n, states, steps, q);
    HistoryGrows(n, states, steps, p + 1, q);
    ReclaimUnpinned(states[q], steps[q].k, 0);
    assert Reclaimed(states[p], steps[p].k) in states[p + 1].reclaimed;
  }

  /** Reclaiming comes after retiring, and the pins are those taken at retirement. */
  lemma PinsAtRetirement(n: nat, states: seq<State>, steps: seq<Step>, r: nat, q: nat)
    requires Run(n, states, steps) && r < |steps| && q < |steps| && steps[r].Retire?
    requires steps[r].sink in states[q].pins
    ensures r < q && states[q].pins[steps[r].sink] == OpenSections(states[r].local)
  {
    if q <= r {
      HistoryGrows(n, states, steps, q, r);
      assert false;
    }
    HistoryGrows(n, states, steps, r + 1, q);
  }

  /** Grace period.  If listener i announces an epoch when a sink is retired, it has made a
      new store to its local epoch, which ends that critical section, before the sink is
      reclaimed, whatever the interleaving and however stale the announced epoch is. */
  lemma GracePeriod(n: nat, states: seq<State>, steps: seq<Step>, r: nat, q: nat, i: nat)
    requires Run(n, states, steps) && r < |steps| && q < |steps| && i < |states[r].local|
    requires steps[r].Retire? && steps[q].Reclaim? && Reclaimed(states[q], steps[q].k) == steps[r].sink
    requires states[r].local[i].epoch != 0
    ensures r < q && i < |states[q].local| && states[q].local[i].section > states[r].local[i].section
  {
    RunInv(n, states, steps, q);
    ReclaimUnpinned(states[q], steps[q].k, i);
    PinsAtRetirement(n, states, steps, r, q);
    HistoryGrows(n, states, steps, r, q);
    var pin := (i as int, states[r].local[i].section);
    assert pin in OpenSections(states[r].local);
  }

  /** A section is closed only by a store to the local epoch. */
  lemma SectionEnds(s: State, step: Step, i: nat)
    requires Enabled(s, step) && i < |s.local|
    requires Apply(s, step).local[i].section == s.local[i].section
    ensures Apply(s, step).local[i].epoch == s.local[i].epoch
  {}

  // ----- Progress ---------------------------------------------------------------------

  /** The steps are those of listener k and lead from s to t. */
  ghost predicate Leads(s: State, k: nat, steps: seq<Step>, t: State)
    decreases |steps|
  {
    if steps == [] then s == t
    else steps[0].k == k && Enabled(s, steps[0]) && Leads(Apply(s, steps[0]), k, steps[1..], t)
  }

  lemma {:induction false} LeadsOn(s: State, k: nat, a: seq<Step>, t: State, b: seq<Step>, u: State)
    requires Leads(s, k, a, t) && Leads(t, k, b, u)
    ensures Leads(s, k, a + b, u)
    decreases |a|
  {
    if a == [] {
      assert a + b == b;
    } else {
      LeadsOn(Apply(s, a[0]), k, a[1..], t, b, u);
      assert (a + b)[0] == a[0] && (a + b)[1..] == a[1..] + b;
    }
  }

  lemma LeadsOne(s: State, step: Step)
    requires Enabled(s, step)
    ensures Leads(s, step.k, [step], Apply(s, step))
  {
    assert [step][1..] == [];
    assert Leads(Apply(s, step), step.k, [], Apply(s, step));
  }

  lemma {:induction false} LeadsInv(s: State, k: nat, steps: seq<Step>, t: State)
    requires Inv(s) && Leads(s, k, steps, t)
    ensures Inv(t) && |t.local| == |s.local| && s.reclaimed <= t.reclaimed
    ensures forall j :: 0 <= j < |s.local| && j != k ==> t.local[j] == s.local[j]
    decreases |steps|
  {
    hide Inv;
    if steps != [] {
      StepInv(s, steps[0]);
      LeadsInv(Apply(s, steps[0]), k, steps[1..], t);
    }
  }

  /** Only the listener's own record and the given words of the shared state differ. */
  ghost predicate Moves(s: State, t: State, k: nat, l: Local, global: nat, more: set<Sink>)
    requires k < |s.local|
  {
    t.local == s.local[k := l] && t.global == global && t.reclaimed == s.reclaimed + more
  }

  function Elements(q: seq<Sink>): set<Sink>
  {
    set x | x in q
  }

  /** All sinks of the limbo list of the epoch seen are reclaimed. */
  lemma {:induction false} ReclaimAll(s: State, k: nat) returns (steps: seq<Step>, t: State)
    requires k < |s.local| && s.local[k].pc.Reclaiming?
    requires s.local[k].count >= |s.local[k].limbo[Slot(s.local[k].pc.seen)]|
    ensures Leads(s, k, steps, t)
    ensures var l, p := s.local[k], Slot(s.local[k].pc.seen);
            Moves(s, t, k, l.(limbo := l.limbo[p := []], count := l.count - |l.limbo[p]|), s.global, Elements(l.limbo[p]))
    decreases |s.local[k].limbo[Slot(s.local[k].pc.seen)]|
  {
    var l, p := s.local[k], Slot(s.local[k].pc.seen);
    if l.limbo[p] == [] {
      steps, t := [], s;
      assert l.limbo[p := []] == l.limbo;
    } else {
      LeadsOne(s, Reclaim(k));
      var u := Apply(s, Reclaim(k));
      assert u.local[k].limbo[p] == l.limbo[p][1..];
      steps, t := ReclaimAll(u, k);
      LeadsOn(s, k, [Reclaim(k)], u, steps, t);
      steps := [Reclaim(k)] + steps;
      assert Elements(l.limbo[p]) == {l.limbo[p][0]} + Elements(l.limbo[p][1..]);
      assert l.limbo[p := l.limbo[p][1..]][p := []] == l.limbo[p := []];
    }
  }

  /** The scan passes all listeners that announce nothing or the epoch seen. */
  lemma {:induction false} ScanAll(s: State, k: nat) returns (steps: seq<Step>, t: State)
    requires k < |s.local| && s.local[k].pc.Scanning?
    requires forall j :: 0 <= j < |s.local| ==> s.local[j].epoch == 0 || s.local[j].epoch == s.local[k].pc.seen
    ensures Leads(s, k, steps, t) && k < |t.local|
    ensures Moves(s, t, k, s.local[k].(index := t.local[k].index), s.global, {}) && t.local[k].index >= |s.local|
    decreases |s.local| - s.local[k].index
  {
    if s.local[k].index >= |s.local| {
      steps, t := [], s;
    } else {
      LeadsOne(s, Scan(k));
      var u := Apply(s, Scan(k));
      steps, t := ScanAll(u, k);
      LeadsOn(s, k, [Scan(k)], u, steps, t);
      steps := [Scan(k)] + steps;
    }
  }

  /** The sinks of list p after an advance. */
  function ListAfterAdvance(l: Local, global: nat, p: nat): seq<Sink>
    requires p < 2
  {
    if p != Slot(global) then l.limbo[p] else l.queue + if l.epoch != global then [] else l.limbo[p]
  }

  /** The sinks that an advance reclaims. */
  function Due(l: Local, global: nat): seq<Sink>
  {
    if l.epoch != global then l.limbo[Slot(global)] else []
  }

  /** No other listener holds up an advance of listener k: it announces nothing or the global epoch. */
  ghost predicate Clear(s: State, k: nat)
  {
    forall j :: 0 <= j < |s.local| && j != k ==> s.local[j].epoch == 0 || s.local[j].epoch == s.global
  }

  /** The second half of an advance: put the queue aside, scan, and raise the global epoch. */
  lemma FinishAdvance(s: State, k: nat) returns (steps: seq<Step>, t: State)
    requires k < |s.local| && s.local[k].pc == Collecting(s.global) && s.local[k].epoch == s.global && Clear(s, k)
    ensures Leads(s, k, steps, t) && k < |t.local|
    ensures var l, p := s.local[k], Slot(s.global);
            Moves(s, t, k, l.(queue := [], limbo := l.limbo[p := l.queue + l.limbo[p]], pc := Idle,
                              index := t.local[k].index), s.global + 2, {})
  {
    hide Leads;
    LeadsOne(s, Collect(k));
    var u := Apply(s, Collect(k));
    var more, v := ScanAll(u, k);
    LeadsOn(s, k, [Collect(k)], u, more, v);
    LeadsOne(v, Publish(k));
    t := Apply(v, Publish(k));
    LeadsOn(s, k, [Collect(k)] + more, v, [Publish(k)], t);
    steps := [Collect(k)] + more + [Publish(k)];
  }

  /** An advance that no one holds up.  It reclaims all sinks put aside two epochs ago.  If none is
      left it ends the critical section; otherwise it raises the global epoch. */
  lemma Advances(s: State, k: nat) returns (steps: seq<Step>, t: State)
    requires Inv(s) && k < |s.local| && s.local[k].pc.Idle? && s.local[k].epoch != 0 && Clear(s, k)
    ensures Leads(s, k, steps, t) && Inv(t) && k < |t.local| && t.local[k].pc.Idle?
    ensures t.reclaimed == s.reclaimed + Elements(Due(s.local[k], s.global))
    ensures var l := s.local[k];
            if l.epoch != s.global && l.count == |Due(l, s.global)|
            then t.global == s.global && t.local[k].epoch == 0 && t.local[k].count == 0
            else && t.global == s.global + 2 && t.local[k].epoch == s.global && t.local[k].queue == []
                 && t.local[k].limbo == [ListAfterAdvance(l, s.global, 0), ListAfterAdvance(l, s.global, 1)]
  {
    hide Inv, Leads;
    var l := s.local[k];
    var p := Slot(s.global);
    AdvanceShape(s, k);
    LeadsOne(s, AdvanceLoad(k));
    steps, t := [AdvanceLoad(k)], Apply(s, AdvanceLoad(k));
    if l.epoch != s.global {
      var more, u := ReclaimAll(t, k);
      LeadsOn(s, k, steps, t, more, u);
      steps, t := steps + more, u;
      LeadsOne(t, Amend(k));
      u := Apply(t, Amend(k));
      LeadsOn(s, k, steps, t, [Amend(k)], u);
      steps, t := steps + [Amend(k)], u;
    }
    if t.local[k].pc.Collecting? {
      var more, u := FinishAdvance(t, k);
      LeadsOn(s, k, steps, t, more, u);
      steps, t := steps + more, u;
    }
    LeadsInv(s, k, steps, t);
    assert t.local[k].epoch != 0 ==> t.local[k].limbo == [t.local[k].limbo[0], t.local[k].limbo[1]];
  }

  lemma AdvanceShape(s: State, k: nat)
    requires Inv(s) && k < |s.local|
    ensures s.local[k].count == |s.local[k].queue| + |s.local[k].limbo[0]| + |s.local[k].limbo[1]|
    ensures s.global > 0 && (s.local[k].count > 0 ==> s.local[k].epoch != 0)
  {
    assert Shape(s, k);
  }

  /** The sinks that a listener has to reclaim. */
  function Pending(l: Local): set<Sink>
  {
    Elements(l.queue) + Elements(l.limbo[0]) + Elements(l.limbo[1])
  }

  /** An advance loses no sink: it is reclaimed or still pending. */
  lemma AdvanceKeeps(l: Local, r: Local, global: nat, p: nat)
    requires p == Slot(global) && r.queue == []
    requires r.limbo == [ListAfterAdvance(l, global, 0), ListAfterAdvance(l, global, 1)]
    ensures Elements(Due(l, global)) + Pending(r) == Pending(l)
    ensures r.limbo[1 - p] == l.limbo[1 - p]
  {}

  /** All pending sinks of listener k are reclaimed on the way from s to t, and its section ends. */
  ghost predicate Cleared(s: State, k: nat, steps: seq<Step>, t: State)
  {
    && k < |s.local| && k < |t.local| && Leads(s, k, steps, t) && t.local[k].epoch == 0 && t.local[k].count == 0
    && t.reclaimed == s.reclaimed + Pending(s.local[k])
  }

  ghost predicate Alone(s: State, k: nat)
  {
    && Inv(s) && k < |s.local| && s.local[k].pc.Idle? && s.local[k].epoch != 0
    && forall j :: 0 <= j < |s.local| && j != k ==> s.local[j].epoch == 0
  }

  lemma ClearedOn(s: State, k: nat, steps: seq<Step>, t: State, more: seq<Step>, u: State)
    requires k < |s.local| && k < |t.local| && Leads(s, k, steps, t) && Cleared(t, k, more, u)
    requires t.reclaimed == s.reclaimed + Elements(Due(s.local[k], s.global)) && t.local[k].queue == []
    requires t.local[k].limbo == [ListAfterAdvance(s.local[k], s.global, 0), ListAfterAdvance(s.local[k], s.global, 1)]
    ensures Cleared(s, k, steps + more, u)
  {
    hide Leads, Pending, Due, ListAfterAdvance;
    LeadsOn(s, k, steps, t, more, u);
    AdvanceKeeps(s.local[k], t.local[k], s.global, Slot(s.global));
  }

  lemma LastAdvance(s: State, k: nat) returns (steps: seq<Step>, t: State)
    requires Alone(s, k) && s.local[k].epoch != s.global
    requires s.local[k].queue == [] && s.local[k].limbo[1 - Slot(s.global)] == []
    ensures Cleared(s, k, steps, t) && t.global == s.global
  {
    hide Inv, Leads, Slot;
    AdvanceShape(s, k);
    NoneLeft(s, k);
    steps, t := Advances(s, k);
  }

  lemma NextAdvance(s: State, k: nat) returns (steps: seq<Step>, t: State)
    requires Alone(s, k) && s.local[k].epoch != s.global && s.local[k].queue == []
    ensures Cleared(s, k, steps, t) && s.global <= t.global <= s.global + 2
  {
    hide Inv, Leads;
    AdvanceShape(s, k);
    NoneLeft(s, k);
    steps, t := Advances(s, k);
    if t.local[k].epoch != 0 {
      LeadsInv(s, k, steps, t);
      assert Slot(s.global + 2) == 1 - Slot(s.global);
      var more, u := LastAdvance(t, k);
      ClearedOn(s, k, steps, t, more, u);
      steps, t := steps + more, u;
    }
  }

  /** With all other listeners outside of critical sections, three advances of listener k reclaim
      all its pending sinks and end its critical section. */
  lemma ReclaimsAll(s: State, k: nat) returns (steps: seq<Step>, t: State)
    requires Alone(s, k)
    ensures Cleared(s, k, steps, t) && s.global <= t.global <= s.global + 4
  {
    hide Inv, Leads;
    AdvanceShape(s, k);
    NoneLeft(s, k);
    steps, t := Advances(s, k);
    if t.local[k].epoch != 0 {
      LeadsInv(s, k, steps, t);
      var more, u := NextAdvance(t, k);
      ClearedOn(s, k, steps, t, more, u);
      steps, t := steps + more, u;
    }
  }

  /** A section ends only when no sink is left to reclaim. */
  lemma NoneLeft(s: State, k: nat)
    requires Inv(s) && k < |s.local|
    ensures s.local[k].count == |Due(s.local[k], s.global)| ==>
              Pending(s.local[k]) == Elements(Due(s.local[k], s.global))
  {
    AdvanceShape(s, k);
  }

  /** From the start: any listener can retire any sink and have it reclaimed. */
  lemma ReclaimReached(n: nat, k: nat, x: Sink) returns (steps: seq<Step>, t: State)
    requires k < n
    ensures Leads(Init(n), k, steps, t) && |t.local| == n && t.reclaimed == {x} && t.local[k].epoch == 0
    ensures Retire(k, x) in steps
  {
    hide Inv, Leads;
    var s := Init(n);
    InitInv(n);
    LeadsOne(s, EnterLoad(k));
    var a := Apply(s, EnterLoad(k));
    LeadsOne(a, EnterStore(k));
    var b := Apply(a, EnterStore(k));
    LeadsOne(b, Retire(k, x));
    var c := Apply(b, Retire(k, x));
    LeadsOn(s, k, [EnterLoad(k)], a, [EnterStore(k)], b);
    var first := [EnterLoad(k), EnterStore(k)];
    assert [EnterLoad(k)] + [EnterStore(k)] == first;
    LeadsOn(s, k, first, b, [Retire(k, x)], c);
    LeadsInv(s, k, first + [Retire(k, x)], c);
    steps, t := ReclaimsAll(c, k);
    LeadsInv(c, k, steps, t);
    LeadsOn(s, k, first + [Retire(k, x)], c, steps, t);
    assert Pending(c.local[k]) == {x};
    steps := first + [Retire(k, x)] + steps;
    assert steps[2] == Retire(k, x);
  }

  /** A listener that has entered and left announces nothing, and holds up no one. */
  lemma LeaveClears(s: State, k: nat)
    requires Inv(s) && k < |s.local| && s.local[k].pc.Idle? && s.local[k].epoch == 0
    ensures Enabled(s, EnterLoad(k))
    ensures var a := Apply(s, EnterLoad(k));
            Enabled(a, EnterStore(k)) &&
            var b := Apply(a, EnterStore(k));
            && k < |b.local| && b.local[k].epoch == s.global && Enabled(b, Leave(k))
            && var c := Apply(b, Leave(k));
               c.global == s.global && k < |c.local| && c.local[k].epoch == 0 && c.local[k].pc.Idle?
  {
    assert Shape(s, k);
  }
}
