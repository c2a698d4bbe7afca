/** The sleep and wake-up protocol between a listener thread and the threads that send
    asynchronous calls to its context (src/base/event/listener.h, src/base/event/event.c
    mm_event_notify, src/base/async.c MM_SEND).

    A sender claims a ticket of the call queue, publishes the call, loads the context status
    and signals if the status carries its own ticket.  The listener posts its dequeue stamp
    in the status, checks that the queue is empty and sleeps.  Each is a separate step. */
module Wakeup {

  const RUNNING: nat := 0
  const PENDING: nat := 1
  const POLLING: nat := 2
  const WAITING: nat := 3

  /** Listener position.  A sleeping mode is POLLING (event backend) or WAITING. */
  datatype Listener =
    | Working
    | Postured(stamp: nat, mode: nat)
    | Rested(stamp: nat, mode: nat)    // passed the restful check
    | Sleeping(stamp: nat, mode: nat)
    | Leaving

  datatype Sender =
    | Idle
    | Claimed(t: nat)                  // moved the queue tail from t to t + 1
    | Sent(t: nat)                     // published the call
    | Notifying(t: nat, mode: nat)     // found its ticket in the status

  /** `sticky` tells how WAITING is done: on a semaphore, whose signals are kept, or on a
      futex or monitor, whose wait call compares the tail with the stamp and whose signals
      are lost on a thread that does not sleep.  `owner` is history: who claimed a ticket. */
  datatype State = State(
    sticky: bool, head: nat, tail: nat, published: set<nat>, status: nat,
    pollToken: bool, waitToken: bool, listener: Listener, senders: seq<Sender>, owner: map<nat, nat>)

  datatype Step =
    | Claim(p: nat) | Publish(p: nat) | LoadStatus(p: nat) | Signal(p: nat)
    | Dequeue | SetStatus(busy: bool) | Clean | Posture(mode: nat) | Check | Sleep | Timeout | Resume

  /** Is a signal sent now in this mode kept until the listener looks? */
  predicate Kept(s: State, mode: nat)
  {
    mode == POLLING || s.sticky
  }

  predicate Token(s: State, mode: nat)
  {
    if mode == POLLING then s.pollToken else s.waitToken
  }

  function SetToken(s: State, mode: nat, value: bool): State
  {
    if mode == POLLING then s.(pollToken := value) else s.(waitToken := value)
  }

  predicate Enabled(s: State, step: Step)
  {
    match step
    case Claim(p) => p < |s.senders| && s.senders[p].Idle?
    case Publish(p) => p < |s.senders| && s.senders[p].Claimed?
    case LoadStatus(p) => p < |s.senders| && s.senders[p].Sent?
    case Signal(p) => p < |s.senders| && s.senders[p].Notifying?
    case Dequeue => s.listener.Working? && s.head in s.published
    case SetStatus(_) => s.listener.Working?
    case Clean => s.listener.Working?
    case Posture(mode) => s.listener.Working? && (mode == POLLING || mode == WAITING)
    case Check => s.listener.Postured?
    case Sleep => s.listener.Rested?
    case Timeout => s.listener.Sleeping?
    case Resume => s.listener.Leaving?
  }

  function Go(s: State, p: nat, pc: Sender): State
    requires p < |s.senders|
  {
    s.(senders := s.senders[p := pc])
  }

  function Apply(s: State, step: Step): State
    requires Enabled(s, step)
  {
    match step
    case Claim(p) => Go(s, p, Claimed(s.tail)).(tail := s.tail + 1, owner := s.owner[s.tail := p])
    case Publish(p) => Go(s, p, Sent(s.senders[p].t)).(published := s.published + {s.senders[p].t})
    case LoadStatus(p) =>
      // mm_event_notify compares the ticket with the upper bits of the status.
      var t, mode := s.senders[p].t, s.status % 4;
      Go(s, p, if s.status / 4 == t && (mode == POLLING || mode == WAITING) then Notifying(t, mode) else Idle)
    case Signal(p) =>
      var mode := s.senders[p].mode;
      var s' := Go(s, p, Idle);
      if s.listener.Sleeping? && s.listener.mode == mode then s'.(listener := Leaving)
      else if Kept(s, mode) then SetToken(s', mode, true)
      else s'
    case Dequeue => s.(head := s.head + 1)
    case SetStatus(busy) => s.(status := if busy then PENDING else RUNNING)
    case Clean => s.(pollToken := false)
    case Posture(mode) => s.(status := s.head * 4 + mode, listener := Postured(s.head, mode))
    case Check =>
      var l := s.listener;
      s.(listener := if s.tail == l.stamp then Rested(l.stamp, l.mode) else Leaving)
    case Sleep =>
      var l := s.listener;
      if Kept(s, l.mode) then
        if Token(s, l.mode) then SetToken(s, l.mode, false).(listener := Leaving)
        else s.(listener := Sleeping(l.stamp, l.mode))
      else
        // The futex or monitor compares the tail again.
        s.(listener := if s.tail == l.stamp then Sleeping(l.stamp, l.mode) else Leaving)
    case Timeout => s.(listener := Leaving)
    case Resume => s.(status := RUNNING, listener := Working)
  }

  function Init(sticky: bool, senders: nat): State
  {
    State(sticky, 0, 0, {}, PENDING, false, false, Working, seq(senders, i => Idle), map[])
  }

  // ----- The invariant -----------------------------------------------------------------

  predicate HasTicket(pc: Sender, t: nat)
  {
    !pc.Idle? && pc.t == t
  }

  /** The sender of ticket t has not finished its notification in the given mode. */
  ghost predicate Due(s: State, t: nat, mode: nat)
  {
    && t in s.owner && s.owner[t] < |s.senders|
    && var pc := s.senders[s.owner[t]];
       HasTicket(pc, t) && (pc.Notifying? ==> pc.mode == mode)
  }

  ghost predicate SendersOk(s: State)
  {
    && s.head <= s.tail
    && (forall t :: t in s.published ==> t < s.tail)
    && (forall t :: t in s.owner ==> t < s.tail && s.owner[t] < |s.senders|)
    && (forall t: nat :: t < s.tail ==> t in s.owner)
    && (forall p :: 0 <= p < |s.senders| && !s.senders[p].Idle? ==>
          s.senders[p].t < s.tail && s.owner[s.senders[p].t] == p)
  }

  ghost predicate ListenerOk(s: State)
  {
    var l := s.listener;
    && (l.Postured? || l.Rested? || l.Sleeping? ==>
          (l.mode == POLLING || l.mode == WAITING) && s.status == l.stamp * 4 + l.mode && l.stamp == s.head)
    && (l.Rested? && s.tail > l.stamp && Kept(s, l.mode) ==> Due(s, l.stamp, l.mode) || Token(s, l.mode))
    && (l.Sleeping? && s.tail > l.stamp ==> Due(s, l.stamp, l.mode))
  }

  ghost predicate Inv(s: State)
  {
    SendersOk(s) && ListenerOk(s)
  }

  lemma InitInv(sticky: bool, senders: nat)
    ensures Inv(Init(sticky, senders))
  {}

  lemma SendersKept(s: State, step: Step)
    requires SendersOk(s) && Enabled(s, step)
    ensures SendersOk(Apply(s, step))
  {
    if step.Claim? || step.Publish? {
      SendersSend(s, step);
    } else {
      SendersRest(s, step);
    }
  }

  lemma SendersSend(s: State, step: Step)
    requires SendersOk(s) && Enabled(s, step) && (step.Claim? || step.Publish?)
    ensures SendersOk(Apply(s, step))
  {}

  /** Other steps only finish senders and take from the queue. */
  lemma SendersRest(s: State, step: Step)
    requires SendersOk(s) && Enabled(s, step) && !step.Claim? && !step.Publish?
    ensures SendersOk(Apply(s, step))
  {
    hide Apply, Enabled;
    RestFrame(s, step);
    HeadKept(s, step);
    var t := Apply(s, step);
    forall p | 0 <= p < |s.senders| ensures t.senders[p].Idle?
        || (!s.senders[p].Idle? && t.senders[p].t == s.senders[p].t) {
      RestSender(s, step, p);
    }
  }

  lemma RestFrame(s: State, step: Step)
    requires Enabled(s, step) && !step.Claim? && !step.Publish?
    ensures var t := Apply(s, step); t.tail == s.tail && t.published == s.published && t.owner == s.owner
                                     && |t.senders| == |s.senders|
  {}

  lemma HeadKept(s: State, step: Step)
    requires Enabled(s, step)
    ensures Apply(s, step).head == s.head || (s.head in s.published && Apply(s, step).head == s.head + 1)
  {}

  lemma RestSender(s: State, step: Step, p: nat)
    requires Enabled(s, step) && !step.Claim? && !step.Publish? && p < |s.senders| == |Apply(s, step).senders|
    ensures var x := Apply(s, step).senders[p]; x.Idle? || (!s.senders[p].Idle? && x.t == s.senders[p].t)
  {}

  lemma ListenerKept(s: State, step: Step)
    requires Inv(s) && Enabled(s, step)
    ensures ListenerOk(Apply(s, step))
  {
    match step
    case Claim(_) => ListenerSent(s, step);
    case Publish(_) => ListenerSent(s, step);
    case LoadStatus(_) => ListenerLoaded(s, step);
    case Signal(_) => ListenerSent(s, step);
    case _ => ListenerRest(s, step);
  }

  lemma ListenerSent(s: State, step: Step)
    requires Inv(s) && Enabled(s, step) && (step.Claim? || step.Publish? || step.Signal?)
    ensures ListenerOk(Apply(s, step))
  {}

  lemma ListenerLoaded(s: State, step: Step)
    requires Inv(s) && Enabled(s, step) && step.LoadStatus?
    ensures ListenerOk(Apply(s, step))
  {}

  lemma ListenerRest(s: State, step: Step)
    requires Inv(s) && Enabled(s, step) && !(step.Claim? || step.Publish? || step.LoadStatus? || step.Signal?)
    ensures ListenerOk(Apply(s, step))
  {}

  lemma StepInv(s: State, step: Step)
    requires Inv(s) && Enabled(s, step)
    ensures Inv(Apply(s, step))
  {
    SendersKept(s, step);
    ListenerKept(s, step);
  }

  // ----- Runs --------------------------------------------------------------------------

  ghost predicate Run(states: seq<State>, steps: seq<Step>)
  {
    && |states| == |steps| + 1
    && (exists sticky, senders :: states[0] == Init(sticky, senders))
    && forall m :: 0 <= m < |steps| ==> Enabled(states[m], steps[m]) && states[m + 1] == Apply(states[m], steps[m])
  }

  lemma {:induction false} RunInv(states: seq<State>, steps: seq<Step>, m: nat)
    requires Run(states, steps) && m < |states|
    ensures Inv(states[m])
  {
    if m == 0 {
      var sticky, senders :| states[0] == Init(sticky, senders);
      InitInv(sticky, senders);
    } else {
      RunInv(states, steps, m - 1);
      StepInv(states[m - 1], steps[m - 1]);
    }
  }

  /** Sender p will wake the listener: it has the posted ticket, its load of the status will
      match, and its signal finds the listener asleep and ends the sleep. */
  ghost predicate WillWake(s: State, p: nat)
    requires s.listener.Sleeping? && p < |s.senders|
  {
    var t, mode := s.listener.stamp, s.listener.mode;
    match s.senders[p]
    case Idle => false
    case Claimed(u) => u == t && s.status / 4 == t && s.status % 4 == mode
    case Sent(u) => u == t && Apply(s, LoadStatus(p)).senders[p] == Notifying(t, mode)
    case Notifying(u, m) => u == t && Apply(s, Signal(p)).listener.Leaving?
  }

  /** No lost wake-up: whenever the listener sleeps and the tail has moved past its stamp,
      the sender whose ticket is the stamp has yet to finish and will wake it up. */
  lemma NoLostWakeup(states: seq<State>, steps: seq<Step>, m: nat)
    requires Run(states, steps) && m < |states| && states[m].listener.Sleeping?
    requires states[m].tail > states[m].listener.stamp
    ensures exists p :: 0 <= p < |states[m].senders| && WillWake(states[m], p)
  {
    RunInv(states, steps, m);
    var s := states[m];
    var p := s.owner[s.listener.stamp];
    assert s.status / 4 == s.listener.stamp && s.status % 4 == s.listener.mode;
    assert WillWake(s, p);
  }

  /** Once no sender is under way, a sleeping listener has nothing to do. */
  lemma QuiescentQueueIsEmpty(states: seq<State>, steps: seq<Step>, m: nat)
    requires Run(states, steps) && m < |states| && states[m].listener.Sleeping?
    requires forall p :: 0 <= p < |states[m].senders| ==> states[m].senders[p].Idle?
    ensures states[m].tail == states[m].head
  {
    RunInv(states, steps, m);
  }

  // ----- Wake-ups that happen -----------------------------------------------------------

  /** The steps lead from s to t. */
  ghost predicate Leads(s: State, steps: seq<Step>, t: State)
    decreases |steps|
  {
    if steps == [] then s == t
    else Enabled(s, steps[0]) && Leads(Apply(s, steps[0]), steps[1..], t)
  }

  predicate StepOf(step: Step, p: nat)
  {
    match step
    case Publish(q) => q == p
    case LoadStatus(q) => q == p
    case Signal(q) => q == p
    case _ => false
  }

  /** The steps that a sender has yet to take. */
  function ToGo(pc: Sender): nat
  {
    match pc
    case Idle => 0
    case Claimed(_) => 3
    case Sent(_) => 2
    case Notifying(_, _) => 1
  }

  /** A sender that will wake the listener is one step nearer to it after each of its steps. */
  lemma WakesNext(s: State, p: nat) returns (first: Step)
    requires Inv(s) && s.listener.Sleeping? && p < |s.senders| && WillWake(s, p) && !s.senders[p].Notifying?
    ensures Enabled(s, first) && StepOf(first, p)
    ensures var next := Apply(s, first);
            && Inv(next) && next.listener == s.listener && |next.senders| == |s.senders|
            && WillWake(next, p) && ToGo(next.senders[p]) == ToGo(s.senders[p]) - 1
            && next.senders == s.senders[p := next.senders[p]]
  {
    hide Inv;
    first := if s.senders[p].Claimed? then Publish(p) else LoadStatus(p);
    assert Inv(Apply(s, first)) by { StepInv(s, first); }
    StatusParts(s);
  }

  lemma StatusParts(s: State)
    requires Inv(s) && s.listener.Sleeping?
    ensures s.status / 4 == s.listener.stamp && s.status % 4 == s.listener.mode
    ensures s.listener.mode == POLLING || s.listener.mode == WAITING
  {}

  /** The sender that will wake the listener does: its own steps are enough. */
  lemma {:induction false} Wakes(s: State, p: nat) returns (steps: seq<Step>, t: State)
    requires Inv(s) && s.listener.Sleeping? && p < |s.senders| && WillWake(s, p)
    ensures Leads(s, steps, t) && |steps| == ToGo(s.senders[p])
    ensures t.listener.Leaving? && t.senders == s.senders[p := Idle]
    ensures forall i :: 0 <= i < |steps| ==> StepOf(steps[i], p)
    decreases ToGo(s.senders[p])
  {
    hide Inv;
    if s.senders[p].Notifying? {
      steps, t := [Signal(p)], Apply(s, Signal(p));
      assert Leads(t, steps[1..], t);
    } else {
      hide Apply, Enabled, WillWake;
      var first := WakesNext(s, p);
      var rest;
      rest, t := Wakes(Apply(s, first), p);
      steps := [first] + rest;
      assert steps[1..] == rest;
    }
  }

  /** A sleeping listener whose queue has a call in it, or claimed for it, is woken up by the steps of
      one sender. */
  lemma WakeReached(states: seq<State>, steps: seq<Step>, m: nat) returns (more: seq<Step>, t: State)
    requires Run(states, steps) && m < |states| && states[m].listener.Sleeping?
    requires states[m].tail > states[m].listener.stamp
    ensures Leads(states[m], more, t) && |more| <= 3 && t.listener.Leaving?
  {
    RunInv(states, steps, m);
    NoLostWakeup(states, steps, m);
    var p :| 0 <= p < |states[m].senders| && WillWake(states[m], p);
    more, t := Wakes(states[m], p);
  }

  /** With an empty queue and no signal kept from before, a listener does go to sleep, in the mode
      that it wants, and posts where it waits. */
  lemma FallsAsleep(s: State, mode: nat) returns (t: State)
    requires s.listener.Working? && s.head == s.tail && (mode == POLLING || mode == WAITING)
    requires Kept(s, mode) ==> !Token(s, mode)
    ensures Leads(s, [Posture(mode), Check, Sleep], t)
    ensures t == s.(status := s.head * 4 + mode, listener := Sleeping(s.head, mode))
  {
    var s1 := Apply(s, Posture(mode));
    var s2 := Apply(s1, Check);
    t := Apply(s2, Sleep);
    var steps := [Posture(mode), Check, Sleep];
    assert steps[1..] == [Check, Sleep] && steps[1..][1..] == [Sleep];
    assert Leads(s2, [Sleep], t) && Leads(s1, [Check, Sleep], t);
  }

  /** A signal kept from before wakes the listener up once and is gone then; before polling it is
      dropped. */
  lemma SignalSpent(s: State, mode: nat) returns (t: State)
    requires s.listener.Working? && s.head == s.tail && (mode == POLLING || mode == WAITING)
    requires Kept(s, mode) && Token(s, mode)
    ensures Leads(s, [Posture(mode), Check, Sleep, Resume], t)
    ensures t == SetToken(s, mode, false).(status := RUNNING)
    ensures mode == POLLING ==> Leads(s, [Clean], SetToken(s, mode, false))
  {
    var s1 := Apply(s, Posture(mode));
    var s2 := Apply(s1, Check);
    var s3 := Apply(s2, Sleep);
    t := Apply(s3, Resume);
    var steps := [Posture(mode), Check, Sleep, Resume];
    assert steps[1..] == [Check, Sleep, Resume] && [Check, Sleep, Resume][1..] == [Sleep, Resume];
    assert [Sleep, Resume][1..] == [Resume];
    assert Leads(s3, [Resume], t) && Leads(s2, [Sleep, Resume], t) && Leads(s1, [Check, Sleep, Resume], t);
    if mode == POLLING {
      assert Leads(Apply(s, Clean), [Clean][1..], Apply(s, Clean));
    }
  }

  /** A call sent to a sleeping listener is taken from the queue: sender p sends it, which ends the
      sleep, and the listener goes back to work. */
  lemma CallTaken(s: State, p: nat) returns (steps: seq<Step>, t: State)
    requires Inv(s) && s.listener.Sleeping? && s.head == s.tail && p < |s.senders| && s.senders[p].Idle?
    ensures Leads(s, steps, t) && t.listener.Working? && t.status == RUNNING && t.senders == s.senders
    ensures t.head == s.head + 1 == t.tail && t.published == s.published + {s.head}
  {
    var s1 := Apply(s, Claim(p));
    var s2 := Apply(s1, Publish(p));
    assert s.status / 4 == s.listener.stamp && s.status % 4 == s.listener.mode;
    var s3 := Apply(s2, LoadStatus(p));
    var s4 := Apply(s3, Signal(p));
    var s5 := Apply(s4, Resume);
    t := Apply(s5, Dequeue);
    assert t.senders == s.senders;
    steps := [Claim(p), Publish(p), LoadStatus(p), Signal(p), Resume, Dequeue];
    assert Leads(s5, [Dequeue], t);
    assert [Resume, Dequeue][1..] == [Dequeue];
    assert Leads(s4, [Resume, Dequeue], t);
    assert [Signal(p), Resume, Dequeue][1..] == [Resume, Dequeue];
    assert Leads(s3, [Signal(p), Resume, Dequeue], t);
    assert [LoadStatus(p), Signal(p), Resume, Dequeue][1..] == [Signal(p), Resume, Dequeue];
    assert Leads(s2, [LoadStatus(p), Signal(p), Resume, Dequeue], t);
    assert steps[1..] == [Publish(p), LoadStatus(p), Signal(p), Resume, Dequeue];
    assert steps[1..][1..] == [LoadStatus(p), Signal(p), Resume, Dequeue];
    assert Leads(s1, steps[1..], t);
  }
}
