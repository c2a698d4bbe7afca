/** Ownership of an event sink (src/base/event/listener.c, src/base/event/event.c,
    src/base/task.c mm_task_list_reassign).

    A sink belongs to one context, that is, to one thread.  The thread that holds the poll
    lock may rebind an inactive sink to itself, forward an event to the owner, or handle it;
    the owner may hand a queued task of the sink, and the sink with it, to another context.
    The state below is that of one sink: sinks share no other state than the threads and the
    poll lock.  Every load or store of a shared word is one step. */
module SinkOwnership {

  datatype Dir = Input | Output

  datatype Place =
    | Queued(c: nat)    // in the task list of context c
    | Running(c: nat)   // being executed on context c
    | Flying(c: nat)    // sent to context c, not yet added to its list

  datatype Task = Task(dir: Dir, place: Place)

  /** What a thread is doing with the sink.  `e` numbers the event at hand. */
  datatype Pc =
    | Idle
    | SawStamps(dir: Dir)             // poller, found no event under way
    | SawFlags(dir: Dir)              // poller, found no started task either
    | Receiving(dir: Dir)             // poller, about to count the event as received
    | Routing(e: nat, dir: Dir)       // about to load the owner of the sink
    | Handling(e: nat, dir: Dir)      // found that the event is its own
    | Counting(e: nat, dir: Dir)      // about to count the event as delivered
    | Reassigning(i: nat, target: nat)

  /** `started` is the pair of STARTED flags.  `tasks` and `events` hold the tasks of the sink
      and the forwarded events with their destination; task and event numbers, and `open`,
      the events received and not yet delivered, are history. */
  datatype State = State(
    fixed: bool, owner: nat, started: set<Dir>, pollStamp: nat, taskStamp: nat, poller: int, pc: seq<Pc>,
    tasks: map<nat, Task>, events: map<nat, (Dir, nat)>, open: set<nat>, serial: nat)

  datatype Step =
    | AcquirePoll(c: nat) | ReleasePoll(c: nat)
    | Poll(c: nat, dir: Dir) | CheckFlags(c: nat) | Rebind(c: nat) | Receive(c: nat)
    | TakeEvent(c: nat, e: nat) | Route(c: nat) | Handle(c: nat, fiber: bool) | Deliver(c: nat)
    | Execute(c: nat, i: nat) | Submit(c: nat, i: nat, dir: Dir) | Complete(c: nat, i: nat, again: bool)
    | CheckReassign(c: nat, i: nat, target: nat) | Reassign(c: nat) | Land(c: nat, i: nat)

  const NOBODY: int := -1

  predicate Enabled(s: State, step: Step)
  {
    step.c < |s.pc| &&
    var c := step.c;
    var pc := s.pc[c];
    match step
    case AcquirePoll(_) => pc.Idle? && s.poller == NOBODY
    case ReleasePoll(_) => pc.Idle? && s.poller == c
    case Poll(_, _) => pc.Idle? && s.poller == c
    case CheckFlags(_) => pc.SawStamps?
    case Rebind(_) => pc.SawFlags?
    case Receive(_) => pc.Receiving?
    case TakeEvent(_, e) => pc.Idle? && e in s.events && s.events[e].1 == c
    case Route(_) => pc.Routing?
    case Handle(_, _) => pc.Handling?
    case Deliver(_) => pc.Counting?
    case Execute(_, i) => pc.Idle? && i in s.tasks && s.tasks[i].place == Queued(c)
    // Input and output are requested only by a task of the sink itself.
    case Submit(_, i, _) => pc.Idle? && i in s.tasks && s.tasks[i].place == Running(c)
    case Complete(_, i, _) => pc.Idle? && i in s.tasks && s.tasks[i].place == Running(c)
    case CheckReassign(_, i, target) => pc.Idle? && i in s.tasks && s.tasks[i].place == Queued(c) && target < |s.pc|
    case Reassign(_) => pc.Reassigning? && pc.i in s.tasks
    case Land(_, i) => pc.Idle? && i in s.tasks && s.tasks[i].place == Flying(c)
  }

  function Goto(s: State, c: nat, pc: Pc): State
    requires c < |s.pc|
  {
    s.(pc := s.pc[c := pc])
  }

  /** Set the STARTED flag and queue a task, unless one is started already. */
  function Start(s: State, c: nat, dir: Dir): State
  {
    if dir in s.started then s
    else s.(started := s.started + {dir}, tasks := s.tasks[s.serial := Task(dir, Queued(c))], serial := s.serial + 1)
  }

  function Apply(s: State, step: Step): State
    requires Enabled(s, step)
  {
    var c := step.c;
    var pc := s.pc[c];
    match step
    case AcquirePoll(_) => s.(poller := c)
    case ReleasePoll(_) => s.(poller := NOBODY)
    case Poll(_, dir) =>
      // mm_event_test_binding, up to the load of the task stamp.
      Goto(s, c, if s.fixed || s.pollStamp != s.taskStamp then Receiving(dir) else SawStamps(dir))
    case CheckFlags(_) => Goto(s, c, if s.started == {} then SawFlags(pc.dir) else Receiving(pc.dir))
    case Rebind(_) => Goto(s, c, Receiving(pc.dir)).(owner := c)
    case Receive(_) =>
      Goto(s, c, Routing(s.serial, pc.dir)).(pollStamp := s.pollStamp + 1, open := s.open + {s.serial},
          serial := s.serial + 1)
    case TakeEvent(_, e) => Goto(s, c, Routing(e, s.events[e].0)).(events := s.events - {e})
    case Route(_) =>
      if s.owner == c then Goto(s, c, Handling(pc.e, pc.dir))
      else Goto(s, c, Idle).(events := s.events[pc.e := (pc.dir, s.owner)])
    case Handle(_, fiber) =>
      // A fiber blocked on the sink is run instead of starting a task.
      Goto(if fiber then s else Start(s, c, pc.dir), c, Counting(pc.e, pc.dir))
    case Deliver(_) => Goto(s, c, Idle).(taskStamp := s.taskStamp + 1, open := s.open - {pc.e})
    case Execute(_, i) => s.(tasks := s.tasks[i := s.tasks[i].(place := Running(c))])
    case Submit(_, _, dir) => Start(s, c, dir)
    case Complete(_, i, again) =>
      if again then s.(tasks := s.tasks[i := s.tasks[i].(place := Queued(s.owner))])
      else s.(tasks := s.tasks - {i}, started := s.started - {s.tasks[i].dir})
    case CheckReassign(_, i, target) =>
      // mm_event_reassign_io; one-shot flags can only make it refuse.
      if s.fixed || (Input in s.started && Output in s.started) then s else Goto(s, c, Reassigning(i, target))
    case Reassign(_) =>
      Goto(s, c, Idle).(owner := pc.target, tasks := s.tasks[pc.i := s.tasks[pc.i].(place := Flying(pc.target))])
    case Land(_, i) => s.(tasks := s.tasks[i := s.tasks[i].(place := Queued(c))])
  }

  /** A registered sink with no event seen yet. */
  function Init(fixed: bool, owner: nat, threads: nat): State
  {
    State(fixed, owner, {}, 0, 0, NOBODY, seq(threads, i => Idle), map[], map[], {}, 0)
  }

  // ----- The invariant -----------------------------------------------------------------

  predicate HoldsEvent(pc: Pc)
  {
    pc.Routing? || pc.Handling? || pc.Counting?
  }

  predicate IsPolling(pc: Pc)
  {
    pc.SawStamps? || pc.SawFlags? || pc.Receiving?
  }

  ghost predicate TasksOk(s: State)
  {
    && (forall i :: i in s.tasks ==> i < s.serial && s.tasks[i].dir in s.started && s.tasks[i].place.c == s.owner)
    && (forall i, j :: i in s.tasks && j in s.tasks && i != j ==> s.tasks[i].dir != s.tasks[j].dir)
  }

  ghost predicate StampsOk(s: State)
  {
    && s.taskStamp + |s.open| == s.pollStamp
    && (forall e :: e in s.open ==> e < s.serial)
    && (forall e :: e in s.events ==> e in s.open)
  }

  ghost predicate PcOk(s: State, c: nat)
    requires c < |s.pc|
  {
    var pc := s.pc[c];
    && (IsPolling(pc) ==> s.poller == c)
    && (HoldsEvent(pc) ==> pc.e in s.open && pc.e !in s.events)
    && (pc.Handling? || pc.Counting? ==> s.owner == c)
    && (pc.SawStamps? || pc.SawFlags? ==> s.pollStamp == s.taskStamp)
    && (pc.SawFlags? ==> s.started == {})
    && (pc.Reassigning? ==>
          pc.i in s.tasks && s.tasks[pc.i].place == Queued(c) && s.started == {s.tasks[pc.i].dir})
  }

  ghost predicate PcsOk(s: State)
  {
    && (forall c :: 0 <= c < |s.pc| ==> PcOk(s, c))
    && (forall c, d :: 0 <= c < |s.pc| && 0 <= d < |s.pc| && c != d && HoldsEvent(s.pc[c]) && HoldsEvent(s.pc[d]) ==>
          s.pc[c].e != s.pc[d].e)
  }

  ghost predicate Inv(s: State)
  {
    TasksOk(s) && StampsOk(s) && PcsOk(s)
  }

  lemma InitInv(fixed: bool, owner: nat, threads: nat)
    ensures Inv(Init(fixed, owner, threads))
  {}

  lemma StartKept(s: State, c: nat, dir: Dir)
    requires TasksOk(s) && s.owner == c
    ensures TasksOk(Start(s, c, dir))
  {}

  /** Moving a task about within its owner's context. */
  lemma MoveKept(s: State, i: nat, place: Place)
    requires TasksOk(s) && i in s.tasks && place.c == s.owner
    ensures TasksOk(s.(tasks := s.tasks[i := s.tasks[i].(place := place)]))
  {}

  lemma RemoveKept(s: State, i: nat)
    requires TasksOk(s) && i in s.tasks
    ensures TasksOk(s.(tasks := s.tasks - {i}, started := s.started - {s.tasks[i].dir}))
  {}

  /** The only started task takes the sink along. */
  lemma HandOverKept(s: State, i: nat, target: nat)
    requires TasksOk(s) && i in s.tasks && s.started == {s.tasks[i].dir}
    ensures TasksOk(s.(owner := target, tasks := s.tasks[i := s.tasks[i].(place := Flying(target))]))
  {}

  lemma OneStarted(started: set<Dir>, dir: Dir)
    requires dir in started && !(Input in started && Output in started)
    ensures started == {dir}
  {
    forall d | d in started
      ensures d == dir
    {
      match d
      case Input =>
      case Output =>
    }
  }

  lemma TasksKept(s: State, step: Step)
    requires TasksOk(s) && Enabled(s, step) && PcOk(s, step.c)
    ensures TasksOk(Apply(s, step))
  {
    var c, t := step.c, Apply(s, step);
    match step
    case Handle(_, _) =>
      StartKept(s, c, s.pc[c].dir);
    case Submit(_, _, dir) =>
      StartKept(s, c, dir);
    case Execute(_, i) =>
      MoveKept(s, i, Running(c));
    case Complete(_, i, _) =>
      MoveKept(s, i, Queued(s.owner));
      RemoveKept(s, i);
    case Land(_, i) =>
      MoveKept(s, i, Queued(c));
    case Reassign(_) =>
      HandOverKept(s, s.pc[c].i, s.pc[c].target);
    case Rebind(_) =>
      assert s.tasks.Keys == {};
    case _ =>
      assert t.tasks == s.tasks && t.started == s.started && t.owner == s.owner && t.serial >= s.serial;
  }

  /** The steps that count an event. */
  predicate Counts(step: Step)
  {
    step.Receive? || step.TakeEvent? || step.Route? || step.Deliver?
  }

  lemma StampsKept(s: State, step: Step)
    requires StampsOk(s) && Enabled(s, step) && PcOk(s, step.c)
    ensures StampsOk(Apply(s, step))
  {
    if Counts(step) {
      StampsCounted(s, step);
    } else {
      StampsSame(s, step);
    }
  }

  lemma StampsCounted(s: State, step: Step)
    requires StampsOk(s) && Enabled(s, step) && PcOk(s, step.c) && Counts(step)
    ensures StampsOk(Apply(s, step))
  {}

  lemma StampsSame(s: State, step: Step)
    requires Enabled(s, step) && !Counts(step)
    ensures var t := Apply(s, step);
            t.taskStamp == s.taskStamp && t.pollStamp == s.pollStamp && t.open == s.open && t.events == s.events
                && t.serial >= s.serial
  {
    match step
    case Rebind(_) =>
    case _ =>
  }

  lemma OwnPcKept(s: State, step: Step)
    requires TasksOk(s) && StampsOk(s) && Enabled(s, step) && PcOk(s, step.c)
    ensures PcOk(Apply(s, step), step.c)
  {
    if step.CheckReassign? {
      OwnChecked(s, step);
    } else if Counts(step) || step.Handle? {
      OwnEvent(s, step);
    } else {
      OwnRest(s, step);
    }
  }

  lemma OwnChecked(s: State, step: Step)
    requires TasksOk(s) && Enabled(s, step) && PcOk(s, step.c) && step.CheckReassign?
    ensures PcOk(Apply(s, step), step.c)
  {
    if !(Input in s.started && Output in s.started) {
      OneStarted(s.started, s.tasks[step.i].dir);
    }
  }

  lemma OwnEvent(s: State, step: Step)
    requires StampsOk(s) && Enabled(s, step) && PcOk(s, step.c) && (Counts(step) || step.Handle?)
    ensures PcOk(Apply(s, step), step.c)
  {}

  lemma OwnRest(s: State, step: Step)
    requires Enabled(s, step) && PcOk(s, step.c) && !Counts(step) && !step.Handle? && !step.CheckReassign?
    ensures PcOk(Apply(s, step), step.c)
  {}

  /** A step of another thread does not disturb what a thread relies on. */
  lemma OtherPcKept(s: State, step: Step, c: nat)
    requires Enabled(s, step) && c < |s.pc| == |Apply(s, step).pc| && c != step.c
    requires TasksOk(s) && StampsOk(s) && PcsOk(s)
    ensures PcOk(Apply(s, step), c)
  {
    assert PcOk(s, step.c) && PcOk(s, c);
    var pc, me := s.pc[c], s.pc[step.c];
    if pc.SawStamps? || pc.SawFlags? {
      assert s.open == {};
    }
    match step
    case Deliver(_) =>
    case Receive(_) =>
    case Handle(_, _) =>
    case _ =>
  }

  /** The event a thread holds after its step is the one it held, a new one, or one taken
      from the events in flight. */
  lemma EventAfter(s: State, step: Step)
    requires Enabled(s, step) && HoldsEvent(Apply(s, step).pc[step.c])
    ensures var e := Apply(s, step).pc[step.c].e;
            (HoldsEvent(s.pc[step.c]) && s.pc[step.c].e == e) || e == s.serial || e in s.events
  {}

  lemma OtherPcSame(s: State, step: Step, d: nat)
    requires Enabled(s, step) && d < |s.pc|
    ensures step.c < |s.pc| == |Apply(s, step).pc| && (d != step.c ==> Apply(s, step).pc[d] == s.pc[d])
  {}

  lemma EventsKept(s: State, step: Step, t: State)
    requires StampsOk(s) && PcsOk(s) && step.c < |s.pc| == |t.pc|
    requires forall d :: 0 <= d < |s.pc| && d != step.c ==> t.pc[d] == s.pc[d]
    requires HoldsEvent(t.pc[step.c]) ==>
               (HoldsEvent(s.pc[step.c]) && s.pc[step.c].e == t.pc[step.c].e)
               || t.pc[step.c].e == s.serial || t.pc[step.c].e in s.events
    ensures forall c, d :: 0 <= c < |t.pc| && 0 <= d < |t.pc| && c != d && HoldsEvent(t.pc[c])
                           && HoldsEvent(t.pc[d]) ==>
              t.pc[c].e != t.pc[d].e
  {
    forall d | 0 <= d < |s.pc| && HoldsEvent(s.pc[d])
      ensures s.pc[d].e < s.serial && s.pc[d].e !in s.events
    {
      assert PcOk(s, d);
    }
  }

  lemma InRange(s: State, step: Step)
    requires Enabled(s, step)
    ensures step.c < |s.pc| == |Apply(s, step).pc|
  {}

  lemma StepInv(s: State, step: Step)
    requires Inv(s) && Enabled(s, step)
    ensures Inv(Apply(s, step))
  {
    hide Enabled, Apply, TasksOk, StampsOk, PcOk, HoldsEvent;
    var t := Apply(s, step);
    InRange(s, step);
    assert PcOk(s, step.c);
    TasksKept(s, step);
    StampsKept(s, step);
    forall c | 0 <= c < |t.pc|
      ensures PcOk(t, c)
    {
      if c == step.c {
        OwnPcKept(s, step);
      } else {
        OtherPcKept(s, step, c);
      }
    }
    if HoldsEvent(t.pc[step.c]) {
      EventAfter(s, step);
    }
    forall d | 0 <= d < |s.pc| && d != step.c
      ensures t.pc[d] == s.pc[d]
    {
      OtherPcSame(s, step, d);
    }
    EventsKept(s, step, t);
  }

  // ----- Runs --------------------------------------------------------------------------

  ghost predicate Run(states: seq<State>, steps: seq<Step>)
  {
    && |states| == |steps| + 1
    && (exists fixed, owner, threads :: states[0] == Init(fixed, owner, threads))
    && forall m :: 0 <= m < |steps| ==> Enabled(states[m], steps[m]) && states[m + 1] == Apply(states[m], steps[m])
  }

  lemma {:induction false} RunInv(states: seq<State>, steps: seq<Step>, m: nat)
    requires Run(states, steps) && m < |states|
    ensures Inv(states[m])
  {
    if m == 0 {
      var fixed, owner, threads :| states[0] == Init(fixed, owner, threads);
      InitInv(fixed, owner, threads);
    } else {
      RunInv(states, steps, m - 1);
      StepInv(states[m - 1], steps[m - 1]);
    }
  }

  /** A sink has at most one input and one output task, and every task of the sink, queued,
      running or in flight, belongs to the context that owns the sink. */
  lemma OneTaskPerDirection(states: seq<State>, steps: seq<Step>, m: nat, i: nat, j: nat)
    requires Run(states, steps) && m < |states| && i in states[m].tasks && j in states[m].tasks
    ensures states[m].tasks[i].dir == states[m].tasks[j].dir ==> i == j
    ensures states[m].tasks[i].place.c == states[m].owner
  {
    RunInv(states, steps, m);
  }

  /** Event handlers, task bodies, submissions, completions and hand-overs happen only on the
      thread that owns the sink, despite rebinding, reassignment and forwarding. */
  lemma OnlyOwnerActs(states: seq<State>, steps: seq<Step>, m: nat)
    requires Run(states, steps) && m < |steps|
    requires var step := steps[m];
             step.Handle? || step.Deliver? || step.Execute? || step.Submit? || step.Complete? || step.Reassign?
                 || step.Land?
    ensures states[m].owner == steps[m].c
  {
    RunInv(states, steps, m);
    assert PcOk(states[m], steps[m].c);
  }

  /** The poller takes a sink over only when no event is under way and no task exists. */
  lemma RebindsInactive(states: seq<State>, steps: seq<Step>, m: nat)
    requires Run(states, steps) && m < |steps| && steps[m].Rebind?
    ensures states[m].events == map[] && states[m].tasks == map[]
    ensures forall c :: 0 <= c < |states[m].pc| ==> !HoldsEvent(states[m].pc[c])
  {
    RunInv(states, steps, m);
    var s := states[m];
    assert PcOk(s, steps[m].c) && s.open == {};
    assert s.events.Keys == {} && s.tasks.Keys == {};
    forall c | 0 <= c < |s.pc|
      ensures !HoldsEvent(s.pc[c])
    {
      assert PcOk(s, c);
    }
  }

  // ----- Nothing is lost -----------------------------------------------------------------

  ghost predicate HoldsAt(s: State, c: int, e: nat)
  {
    0 <= c < |s.pc| && HoldsEvent(s.pc[c]) && s.pc[c].e == e
  }

  /** An event is on its way to a context, or in the hands of a thread. */
  ghost predicate UnderWay(s: State, e: nat)
  {
    e in s.events || exists c :: HoldsAt(s, c, e)
  }

  ghost predicate HasTask(s: State, dir: Dir)
  {
    exists i :: i in s.tasks && s.tasks[i].dir == dir
  }

  ghost predicate NothingLost(s: State)
  {
    && (forall e :: e in s.open ==> UnderWay(s, e))
    && (forall dir :: dir in s.started ==> HasTask(s, dir))
  }

  lemma StepKeepsEvent(s: State, step: Step, e: nat)
    requires Inv(s) && Enabled(s, step) && e in Apply(s, step).open && (e in s.open ==> UnderWay(s, e))
    ensures UnderWay(Apply(s, step), e)
  {
    hide Inv;
    var t := Apply(s, step);
    if e in s.open {
      if e in s.events {
        if step.TakeEvent? && step.e == e {
          assert HoldsAt(t, step.c, e);
        }
      } else {
        var c :| HoldsAt(s, c, e);
        if c != step.c {
          OtherPcSame(s, step, c);
          assert HoldsAt(t, c, e);
        } else if e !in t.events {
          assert HoldsAt(t, c, e);
        }
      }
    } else {
      assert HoldsAt(t, step.c, e);
    }
  }

  /** A task of a direction that stays started is still there. */
  lemma TaskStays(s: State, step: Step, i: nat)
    requires Inv(s) && Enabled(s, step) && i in s.tasks && s.tasks[i].dir in Apply(s, step).started
    ensures i in Apply(s, step).tasks && Apply(s, step).tasks[i].dir == s.tasks[i].dir
  {
    hide StampsOk, PcsOk;
    if step.Complete? && !step.again {
      assert i != step.i;
    }
  }

  lemma TaskAdded(s: State, step: Step, dir: Dir)
    requires Enabled(s, step) && dir in Apply(s, step).started && dir !in s.started
    ensures s.serial in Apply(s, step).tasks && Apply(s, step).tasks[s.serial].dir == dir
  {}

  lemma StepKeepsTask(s: State, step: Step, dir: Dir)
    requires Inv(s) && Enabled(s, step) && dir in Apply(s, step).started && (dir in s.started ==> HasTask(s, dir))
    ensures HasTask(Apply(s, step), dir)
  {
    hide Inv, Enabled, Apply;
    if dir in s.started {
      var i :| i in s.tasks && s.tasks[i].dir == dir;
      TaskStays(s, step, i);
    } else {
      TaskAdded(s, step, dir);
    }
  }

  lemma {:induction false} RunKeeps(states: seq<State>, steps: seq<Step>, m: nat)
    requires Run(states, steps) && m < |states|
    ensures NothingLost(states[m])
  {
    hide Inv, Enabled, Apply, UnderWay, HasTask;
    if m == 0 {
      var fixed, owner, threads :| states[0] == Init(fixed, owner, threads);
    } else {
      var s, step := states[m - 1], steps[m - 1];
      RunKeeps(states, steps, m - 1);
      RunInv(states, steps, m - 1);
      forall e | e in states[m].open ensures UnderWay(states[m], e) {
        StepKeepsEvent(s, step, e);
      }
      forall dir | dir in states[m].started ensures HasTask(states[m], dir) {
        StepKeepsTask(s, step, dir);
      }
    }
  }

  /** An event that is received and not yet delivered is on its way to a context or in the hands of a
      thread, in every state of every run; so the stamps differ only as long as this is so. */
  lemma NoEventLost(states: seq<State>, steps: seq<Step>, m: nat)
    requires Run(states, steps) && m < |states|
    ensures forall e :: e in states[m].open ==> UnderWay(states[m], e)
    ensures states[m].pollStamp != states[m].taskStamp ==> exists e :: e in states[m].open
  {
    RunKeeps(states, steps, m);
    RunInv(states, steps, m);
    if states[m].open == {} {
      assert |states[m].open| == 0;
    } else {
      var e :| e in states[m].open;
    }
  }

  /** A direction is started exactly as long as the sink has a task of it; and it is started, with a
      task, once an event of it was handled without a fiber to wake up, or was asked for. */
  lemma StartedHasTask(states: seq<State>, steps: seq<Step>, m: nat)
    requires Run(states, steps) && m < |states|
    ensures forall dir :: dir in states[m].started <==> HasTask(states[m], dir)
    ensures m > 0 && steps[m - 1].Handle? && !steps[m - 1].fiber ==>
              HasTask(states[m], states[m - 1].pc[steps[m - 1].c].dir)
    ensures m > 0 && steps[m - 1].Submit? ==> HasTask(states[m], steps[m - 1].dir)
  {
    RunKeeps(states, steps, m);
    RunInv(states, steps, m);
    if m > 0 {
      assert Enabled(states[m - 1], steps[m - 1]) && states[m] == Apply(states[m - 1], steps[m - 1]);
    }
  }

  // ----- Calls without interference --------------------------------------------------------

  /** The steps lead from s to t. */
  ghost predicate Leads(s: State, steps: seq<Step>, t: State)
    decreases |steps|
  {
    if steps == [] then s == t else Enabled(s, steps[0]) && Leads(Apply(s, steps[0]), steps[1..], t)
  }

  lemma LeadsTwo(s: State, a: Step, b: Step, t: State)
    requires Enabled(s, a) && Enabled(Apply(s, a), b) && t == Apply(Apply(s, a), b)
    ensures Leads(s, [a, b], t)
  {
    assert [a, b][1..] == [b] && [b][1..] == [];
    assert Leads(t, [], t);
  }

  lemma LeadsMore(s: State, a: Step, steps: seq<Step>, t: State)
    requires Enabled(s, a) && Leads(Apply(s, a), steps, t)
    ensures Leads(s, [a] + steps, t)
  {
    assert ([a] + steps)[1..] == steps;
  }

  /** An event that gets to the owner of the sink is handled there: it is delivered, and its direction
      is started unless a fiber was waiting for it. */
  lemma Delivered(s: State, e: nat, fiber: bool) returns (steps: seq<Step>, t: State)
    requires Inv(s) && e in s.events && s.events[e].1 == s.owner < |s.pc| && s.pc[s.owner].Idle?
    ensures Leads(s, steps, t) && |t.pc| == |s.pc| && t.pc == s.pc && t.owner == s.owner
    ensures t.open == s.open - {e} && t.taskStamp == s.taskStamp + 1 && t.events == s.events - {e}
    ensures t.started == if fiber then s.started else s.started + {s.events[e].0}
  {
    hide Inv;
    var c := s.owner;
    var a := Apply(s, TakeEvent(c, e));
    var b := Apply(a, Route(c));
    var d := Apply(b, Handle(c, fiber));
    t := Apply(d, Deliver(c));
    LeadsTwo(b, Handle(c, fiber), Deliver(c), t);
    LeadsMore(a, Route(c), [Handle(c, fiber), Deliver(c)], t);
    steps := [Route(c)] + [Handle(c, fiber), Deliver(c)];
    LeadsMore(s, TakeEvent(c, e), steps, t);
    steps := [TakeEvent(c, e)] + steps;
    assert t.pc == s.pc;
  }

  /** An event that gets to another context is sent on to the owner. */
  lemma SentOn(s: State, e: nat) returns (steps: seq<Step>, t: State)
    requires Inv(s) && e in s.events && s.events[e].1 != s.owner && s.events[e].1 < |s.pc| && s.pc[s.events[e].1].Idle?
    ensures Leads(s, steps, t) && t == s.(events := s.events[e := (s.events[e].0, s.owner)])
  {
    hide Inv;
    var c := s.events[e].1;
    steps, t := [TakeEvent(c, e), Route(c)], Apply(Apply(s, TakeEvent(c, e)), Route(c));
    LeadsTwo(s, TakeEvent(c, e), Route(c), t);
    assert t.pc == s.pc;
  }

  /** A poll takes the sink over if and only if it is not fixed, no event of it is under way and no
      task of it exists; in any case it counts one more event. */
  lemma PollBinds(s: State, c: nat, dir: Dir) returns (steps: seq<Step>, t: State)
    requires Inv(s) && c < |s.pc| && s.pc[c].Idle? && s.poller == c
    ensures Leads(s, steps, t) && |t.pc| == |s.pc| && t.pc[c].Routing? && t.pc[c].dir == dir
    ensures t.pollStamp == s.pollStamp + 1
    ensures t.owner == if !s.fixed && s.open == {} && s.started == {} then c else s.owner
    ensures t.pc[c].e !in s.open && t.open == s.open + {t.pc[c].e} && t.tasks == s.tasks && t.events == s.events
  {
    IsEmpty(s.open);
    var a := Apply(s, Poll(c, dir));
    if a.pc[c].Receiving? {
      t := Apply(a, Receive(c));
      steps := [Poll(c, dir), Receive(c)];
      LeadsTwo(s, Poll(c, dir), Receive(c), t);
    } else {
      var b := Apply(a, CheckFlags(c));
      if b.pc[c].Receiving? {
        t := Apply(b, Receive(c));
        LeadsTwo(a, CheckFlags(c), Receive(c), t);
        steps := [CheckFlags(c), Receive(c)];
      } else {
        var d := Apply(b, Rebind(c));
        t := Apply(d, Receive(c));
        LeadsTwo(b, Rebind(c), Receive(c), t);
        LeadsMore(a, CheckFlags(c), [Rebind(c), Receive(c)], t);
        steps := [CheckFlags(c)] + [Rebind(c), Receive(c)];
      }
      LeadsMore(s, Poll(c, dir), steps, t);
      steps := [Poll(c, dir)] + steps;
    }
  }

  lemma IsEmpty(q: set<nat>)
    ensures |q| == 0 <==> q == {}
  {}

  /** The owner hands a queued task over, and the sink with it, if and only if the sink is not fixed
      and the other direction is not started. */
  lemma HandsOver(s: State, i: nat, target: nat) returns (steps: seq<Step>, t: State)
    requires Inv(s) && s.owner < |s.pc| && s.pc[s.owner].Idle? && target < |s.pc| && s.pc[target].Idle?
    requires i in s.tasks && s.tasks[i].place == Queued(s.owner)
    ensures Leads(s, steps, t)
    ensures if s.fixed || (Input in s.started && Output in s.started) then t == s
            else t == s.(owner := target, tasks := s.tasks[i := s.tasks[i].(place := Queued(target))])
  {
    var c := s.owner;
    var a := Apply(s, CheckReassign(c, i, target));
    if a.pc[c].Idle? {
      steps, t := [CheckReassign(c, i, target)], a;
      assert Leads(t, [], t) && steps[1..] == [];
    } else {
      var b := Apply(a, Reassign(c));
      t := Apply(b, Land(target, i));
      LeadsTwo(a, Reassign(c), Land(target, i), t);
      LeadsMore(s, CheckReassign(c, i, target), [Reassign(c), Land(target, i)], t);
      steps := [CheckReassign(c, i, target)] + [Reassign(c), Land(target, i)];
      assert t.pc == s.pc && t.tasks == s.tasks[i := s.tasks[i].(place := Queued(target))];
    }
  }

  /** A task runs and ends.  It is queued again if there is more to do, and else its direction can be
      started again. */
  lemma Completes(s: State, i: nat, again: bool) returns (steps: seq<Step>, t: State)
    requires Inv(s) && s.owner < |s.pc| && s.pc[s.owner].Idle? && i in s.tasks && s.tasks[i].place == Queued(s.owner)
    ensures Leads(s, steps, t)
    ensures t == if again then s else s.(tasks := s.tasks - {i}, started := s.started - {s.tasks[i].dir})
  {
    hide Inv;
    var c := s.owner;
    var a := Apply(s, Execute(c, i));
    t := Apply(a, Complete(c, i, again));
    LeadsTwo(s, Execute(c, i), Complete(c, i, again), t);
    steps := [Execute(c, i), Complete(c, i, again)];
    assert t.tasks == if again then s.tasks else s.tasks - {i};
  }

  /** Whoever is idle can become the poller, and gives the role back. */
  lemma PollTurns(s: State, c: nat)
    requires c < |s.pc| && s.pc[c].Idle? && s.poller == NOBODY
    ensures Enabled(s, AcquirePoll(c)) && Apply(s, AcquirePoll(c)) == s.(poller := c)
    ensures Leads(s, [AcquirePoll(c), ReleasePoll(c)], s)
  {
    LeadsTwo(s, AcquirePoll(c), ReleasePoll(c), s);
  }
}
