/** Work sharing between contexts (src/base/context.c, src/base/task.c): a context that runs out of
    tasks asks a busy peer for some, and a context with many tasks sends some to an idle one. */
module TaskSharing {
  import opened Common
  import opened TaskList

  const REQUEST_THRESHOLD: nat := 9

  /** Calls that are queued for a context.  A request and the replies to it carry the number of the
      request, which is history; tasks that are distributed are no reply. */
  datatype Message = TasksReq(target: nat, k: nat) | NoTasks(k: nat) | AddTasks(tasks: seq<Task>, reply: Option<nat>)

  /** A context: its task list, its queue of calls, and whether it waits for tasks.  `done` has the
      tasks it has executed, `submitted` those that were first submitted to it, and `requests` is
      the number of its requests. */
  datatype Context = Context(tasks: seq<Task>, calls: seq<Message>, asking: bool,
                             done: seq<Task>, submitted: seq<Task>, requests: nat)

  datatype Step =
    | Submit(c: nat, task: Task)            // a task is added to the list of its context
    | Execute(c: nat)                       // the first task of a list is executed
    | Request(c: nat, source: nat, sent: bool)  // ask a peer for tasks; the call may fail
    | Handle(c: nat, n: nat)                // handle a call; n tasks at most agree to move
    | Distribute(c: nat, target: nat, n: nat)   // send n tasks to an idle peer

  type State = seq<Context>

  predicate Enabled(s: State, step: Step)
  {
    match step
    case Submit(c, _) => c < |s|
    case Execute(c) => c < |s| && s[c].tasks != []
    case Request(c, source, _) => c < |s| && source < |s| && source != c && !s[c].asking
    case Handle(c, n) =>
      && c < |s| && s[c].calls != []
      && (if s[c].calls[0].TasksReq? then s[c].calls[0].target < |s| && n <= SEND_MAX && n <= |s[c].tasks| else n == 0)
    case Distribute(c, target, n) => c < |s| && target < |s| && target != c && n <= SEND_MAX && n <= |s[c].tasks|
  }

  function Call(s: State, c: nat, m: Message): State
    requires c < |s|
  {
    s[c := s[c].(calls := s[c].calls + [m])]
  }

  /** Move n tasks from the front of a list to another context; none sends no call. */
  function Move(s: State, c: nat, target: nat, n: nat, reply: Option<nat>): State
    requires c < |s| && target < |s| && n <= |s[c].tasks|
  {
    if n == 0 then s
    else Call(s[c := s[c].(tasks := s[c].tasks[n..])], target, AddTasks(s[c].tasks[..n], reply))
  }

  /** The context waits for the reply to its next request. */
  function Ask(s: State, c: nat): State
    requires c < |s|
  {
    s[c := s[c].(asking := true, requests := s[c].requests + 1)]
  }

  /** The context has handled its first call. */
  function Dequeue(s: State, c: nat): State
    requires c < |s| && s[c].calls != []
  {
    s[c := s[c].(calls := s[c].calls[1..])]
  }

  function Apply(s: State, step: Step): State
    requires Enabled(s, step)
  {
    match step
    case Submit(c, task) => s[c := s[c].(tasks := s[c].tasks + [task], submitted := s[c].submitted + [task])]
    case Execute(c) => s[c := s[c].(tasks := s[c].tasks[1..], done := s[c].done + [s[c].tasks[0]])]
    case Request(c, source, sent) =>
      if sent then Call(Ask(s, c), source, TasksReq(c, s[c].requests + 1)) else s
    case Handle(c, n) =>
      var d := Dequeue(s, c);
      (match s[c].calls[0]
       case TasksReq(target, k) =>
         if |s[c].tasks| < REQUEST_THRESHOLD || n == 0 then Call(d, target, NoTasks(k))
         else Move(d, c, target, n, Some(k))
       case NoTasks(_) => d[c := d[c].(asking := false)]
       case AddTasks(tasks, _) => d[c := d[c].(tasks := d[c].tasks + tasks, asking := false)])
    case Distribute(c, target, n) => Move(s, c, target, n, None)
  }

  // ----- Conservation --------------------------------------------------------------------------------

  /** The number of times that a task occurs. */
  function Count(q: seq<Task>, t: Task): nat
  {
    if q == [] then 0 else (if q[0] == t then 1 else 0) + Count(q[1..], t)
  }

  lemma {:induction false} CountAppend(a: seq<Task>, b: seq<Task>, t: Task)
    ensures Count(a + b, t) == Count(a, t) + Count(b, t)
  {
    if a == [] {
      assert a + b == b;
    } else {
      CountAppend(a[1..], b, t);
      assert (a + b)[1..] == a[1..] + b;
    }
  }

  function InCall(m: Message, t: Task): nat
  {
    if m.AddTasks? then Count(m.tasks, t) else 0
  }

  function InCalls(calls: seq<Message>, t: Task): nat
  {
    if calls == [] then 0 else InCall(calls[0], t) + InCalls(calls[1..], t)
  }

  lemma {:induction false} InCallsAppend(calls: seq<Message>, m: Message, t: Task)
    ensures InCalls(calls + [m], t) == InCalls(calls, t) + InCall(m, t)
  {
    hide InCall;
    if calls == [] {
      assert (calls + [m])[1..] == [];
    } else {
      InCallsAppend(calls[1..], m, t);
      assert (calls + [m])[1..] == calls[1..] + [m];
    }
  }

  /** How often a task is in the list of a context, in flight to it, or executed there. */
  function Has(x: Context, t: Task): nat
  {
    Count(x.tasks, t) + InCalls(x.calls, t) + Count(x.done, t)
  }

  function Total(s: State, t: Task): nat
  {
    if s == [] then 0 else Total(s[..|s| - 1], t) + Has(s[|s| - 1], t)
  }

  function Submitted(s: State, t: Task): nat
  {
    if s == [] then 0 else Submitted(s[..|s| - 1], t) + Count(s[|s| - 1].submitted, t)
  }

  lemma {:induction false} TotalUpdate(s: State, c: nat, x: Context, t: Task)
    requires c < |s|
    ensures Total(s[c := x], t) == Total(s, t) - Has(s[c], t) + Has(x, t)
    ensures Submitted(s[c := x], t) == Submitted(s, t) - Count(s[c].submitted, t) + Count(x.submitted, t)
  {
    hide Has, Count;
    var n := |s| - 1;
    if c == n {
      assert s[c := x][..n] == s[..n];
    } else {
      TotalUpdate(s[..n], c, x, t);
      assert s[c := x][..n] == s[..n][c := x];
    }
  }

  lemma CallTotal(s: State, c: nat, m: Message, t: Task)
    requires c < |s|
    ensures Total(Call(s, c, m), t) == Total(s, t) + InCall(m, t) && Submitted(Call(s, c, m), t) == Submitted(s, t)
  {
    hide Count, InCalls, InCall;
    TotalUpdate(s, c, s[c].(calls := s[c].calls + [m]), t);
    InCallsAppend(s[c].calls, m, t);
  }

  lemma MoveTotal(s: State, c: nat, target: nat, n: nat, reply: Option<nat>, t: Task)
    requires c < |s| && target < |s| && n <= |s[c].tasks|
    ensures var w := Move(s, c, target, n, reply); Total(w, t) == Total(s, t) && Submitted(w, t) == Submitted(s, t)
  {
    hide Count, InCalls;
    var q := s[c].tasks;
    TotalUpdate(s, c, s[c].(tasks := q[n..]), t);
    CountAppend(q[..n], q[n..], t);
    assert q[..n] + q[n..] == q;
    CallTotal(s[c := s[c].(tasks := q[n..])], target, AddTasks(q[..n], reply), t);
  }

  lemma DequeueTotal(s: State, c: nat, t: Task)
    requires c < |s| && s[c].calls != []
    ensures Total(Dequeue(s, c), t) == Total(s, t) - InCall(s[c].calls[0], t)
            && Submitted(Dequeue(s, c), t) == Submitted(s, t)
  {
    hide Count, InCall;
    TotalUpdate(s, c, s[c].(calls := s[c].calls[1..]), t);
  }

  /** Every task that was submitted is in one list, or in flight, or executed, as often as it was
      submitted. */
  ghost predicate Conserved(s: State)
  {
    forall t :: Total(s, t) == Submitted(s, t)
  }

  lemma StepConserves(s: State, step: Step, t: Task)
    requires Enabled(s, step) && Total(s, t) == Submitted(s, t)
    ensures Total(Apply(s, step), t) == Submitted(Apply(s, step), t)
  {
    hide Count, InCalls, InCall, Total, Submitted, Call, Move, Dequeue;
    match step
    case Submit(c, task) =>
      TotalUpdate(s, c, s[c].(tasks := s[c].tasks + [task], submitted := s[c].submitted + [task]), t);
      CountAppend(s[c].tasks, [task], t);
      CountAppend(s[c].submitted, [task], t);
    case Execute(c) =>
      TotalUpdate(s, c, s[c].(tasks := s[c].tasks[1..], done := s[c].done + [s[c].tasks[0]]), t);
      CountAppend(s[c].done, [s[c].tasks[0]], t);
      CountAppend([s[c].tasks[0]], s[c].tasks[1..], t);
      assert [s[c].tasks[0]] + s[c].tasks[1..] == s[c].tasks;
    case Request(c, source, sent) =>
      TotalUpdate(s, c, s[c].(asking := true, requests := s[c].requests + 1), t);
      CallTotal(Ask(s, c), source, TasksReq(c, s[c].requests + 1), t);
      NoTasksInCall(TasksReq(c, s[c].requests + 1), t);
    case Handle(c, n) => HandleConserves(s, c, n, t);
    case Distribute(c, target, n) => MoveTotal(s, c, target, n, None, t);
  }

  lemma NoTasksInCall(m: Message, t: Task)
    ensures InCall(m, t) == if m.AddTasks? then Count(m.tasks, t) else 0
  {}

  lemma HandleConserves(s: State, c: nat, n: nat, t: Task)
    requires Enabled(s, Handle(c, n))
    ensures Total(Apply(s, Handle(c, n)), t) == Total(s, t) && Submitted(Apply(s, Handle(c, n)), t) == Submitted(s, t)
  {
    hide Count, InCalls, InCall, Total, Submitted, Call, Move;
    var d := Dequeue(s, c);
    DequeueTotal(s, c, t);
    NoTasksInCall(s[c].calls[0], t);
    match s[c].calls[0]
    case TasksReq(target, k) =>
      CallTotal(d, target, NoTasks(k), t);
      NoTasksInCall(NoTasks(k), t);
      MoveTotal(d, c, target, n, Some(k), t);
    case NoTasks(_) => TotalUpdate(d, c, d[c].(asking := false), t);
    case AddTasks(tasks, _) =>
      TotalUpdate(d, c, d[c].(tasks := d[c].tasks + tasks, asking := false), t);
      CountAppend(d[c].tasks, tasks, t);
  }

  // ----- Requests ------------------------------------------------------------------------------------------

  /** A call in the queue of context c is request k of context r, or the reply to it. */
  predicate Concerns(m: Message, c: nat, r: nat, k: nat)
  {
    match m
    case TasksReq(target, j) => target == r && j == k
    case NoTasks(j) => c == r && j == k
    case AddTasks(_, reply) => c == r && reply == Some(k)
  }

  ghost predicate Awaited(s: State, r: nat, k: nat)
  {
    exists c, i :: 0 <= c < |s| && 0 <= i < |s[c].calls| && Concerns(s[c].calls[i], c, r, k)
  }

  /** A context that waits for tasks has its latest request, or the reply to it, in flight. */
  ghost predicate Answered(s: State)
  {
    forall r :: 0 <= r < |s| && s[r].asking ==> Awaited(s, r, s[r].requests)
  }

  /** Nothing in flight is lost from one state to the other. */
  ghost predicate CallsKept(s: State, t: State)
  {
    |t| == |s| && forall c :: 0 <= c < |s| ==> s[c].calls <= t[c].calls
  }

  lemma AwaitedKept(s: State, t: State, r: nat, k: nat)
    requires CallsKept(s, t) && Awaited(s, r, k)
    ensures Awaited(t, r, k)
  {
    var c, i :| 0 <= c < |s| && 0 <= i < |s[c].calls| && Concerns(s[c].calls[i], c, r, k);
    assert t[c].calls[i] == s[c].calls[i];
  }

  lemma CallAwaited(s: State, c: nat, m: Message, r: nat, k: nat)
    requires c < |s| && (Concerns(m, c, r, k) || Awaited(s, r, k))
    ensures Awaited(Call(s, c, m), r, k) && CallsKept(s, Call(s, c, m))
  {
    var t := Call(s, c, m);
    if Concerns(m, c, r, k) {
      assert t[c].calls[|s[c].calls|] == m;
    } else {
      AwaitedKept(s, t, r, k);
    }
  }

  lemma DequeueAwaited(s: State, c: nat, r: nat, k: nat)
    requires c < |s| && s[c].calls != [] && Awaited(s, r, k)
    ensures Awaited(Dequeue(s, c), r, k) || Concerns(s[c].calls[0], c, r, k)
  {
    var d := Dequeue(s, c);
    var b, i :| 0 <= b < |s| && 0 <= i < |s[b].calls| && Concerns(s[b].calls[i], b, r, k);
    if b != c {
      assert d[b].calls[i] == s[b].calls[i];
    } else if i > 0 {
      assert d[c].calls[i - 1] == s[c].calls[i];
    }
  }

  lemma HandleAnswered(s: State, c: nat, n: nat, r: nat, k: nat)
    requires Enabled(s, Handle(c, n)) && Awaited(s, r, k)
    ensures var t := Apply(s, Handle(c, n)); |t| == |s| && (r < |s| && t[r].asking ==> s[r].asking && Awaited(t, r, k))
  {
    hide Awaited;
    var d := Dequeue(s, c);
    DequeueAwaited(s, c, r, k);
    match s[c].calls[0]
    case TasksReq(target, j) =>
      if |s[c].tasks| < REQUEST_THRESHOLD || n == 0 {
        CallAwaited(d, target, NoTasks(j), r, k);
      } else {
        var e := d[c := d[c].(tasks := d[c].tasks[n..])];
        if Awaited(d, r, k) { AwaitedKept(d, e, r, k); }
        CallAwaited(e, target, AddTasks(d[c].tasks[..n], Some(j)), r, k);
      }
    case NoTasks(_) =>
      if Awaited(d, r, k) { AwaitedKept(d, d[c := d[c].(asking := false)], r, k); }
    case AddTasks(tasks, _) =>
      if Awaited(d, r, k) { AwaitedKept(d, d[c := d[c].(tasks := d[c].tasks + tasks, asking := false)], r, k); }
  }

  lemma StepAnswered(s: State, step: Step)
    requires Enabled(s, step) && Answered(s)
    ensures Answered(Apply(s, step))
  {
    hide Awaited;
    var t := Apply(s, step);
    forall r | 0 <= r < |t| && t[r].asking ensures Awaited(t, r, t[r].requests) {
      match step
      case Request(c, source, sent) =>
        if sent {
          if s[r].asking { AwaitedKept(s, Ask(s, c), r, t[r].requests); }
          CallAwaited(Ask(s, c), source, TasksReq(c, s[c].requests + 1), r, t[r].requests);
        }
      case Handle(c, n) =>
        HandleRequests(s, c, n, r);
        if s[r].asking { HandleAnswered(s, c, n, r, s[r].requests); } else { HandleAsks(s, c, n, r); }
      case _ =>
        AwaitedKept(s, t, r, t[r].requests);
    }
  }

  lemma HandleRequests(s: State, c: nat, n: nat, r: nat)
    requires Enabled(s, Handle(c, n)) && r < |s|
    ensures var t := Apply(s, Handle(c, n)); |t| == |s| && t[r].requests == s[r].requests
  {}

  /** Handling a call makes no one ask. */
  lemma HandleAsks(s: State, c: nat, n: nat, r: nat)
    requires Enabled(s, Handle(c, n)) && r < |s| && !s[r].asking
    ensures var t := Apply(s, Handle(c, n)); |t| == |s| && !t[r].asking
  {}

  // ----- Runs -------------------------------------------------------------------------------------------------

  predicate Init(s: State)
  {
    forall c :: 0 <= c < |s| ==> s[c] == Context([], [], false, [], [], 0)
  }

  ghost predicate Run(states: seq<State>, steps: seq<Step>)
  {
    && |states| == |steps| + 1 && Init(states[0])
    && forall i :: 0 <= i < |steps| ==> Enabled(states[i], steps[i]) && states[i + 1] == Apply(states[i], steps[i])
  }

  lemma {:induction false} InitCounts(s: State, t: Task)
    requires Init(s)
    ensures Total(s, t) == 0 && Submitted(s, t) == 0
  {
    if s != [] {
      InitCounts(s[..|s| - 1], t);
    }
  }

  /** In every run no task is lost or duplicated, however it moves between the contexts. */
  lemma {:induction false} TasksConserved(states: seq<State>, steps: seq<Step>, i: nat)
    requires Run(states, steps) && i < |states|
    ensures Conserved(states[i])
  {
    hide Enabled, Apply;
    forall t ensures Total(states[i], t) == Submitted(states[i], t) {
      if i == 0 {
        InitCounts(states[0], t);
      } else {
        TasksConserved(states, steps, i - 1);
        StepConserves(states[i - 1], steps[i - 1], t);
      }
    }
  }

  /** In every run a context that waits for tasks has its latest request, or the reply to it, in
      flight, so it is not stuck. */
  lemma {:induction false} RequestsAnswered(states: seq<State>, steps: seq<Step>, i: nat)
    requires Run(states, steps) && i < |states|
    ensures Answered(states[i])
  {
    hide Enabled, Apply, Awaited;
    if i > 0 {
      RequestsAnswered(states, steps, i - 1);
      StepAnswered(states[i - 1], steps[i - 1]);
    }
  }

  // ----- Requests that are served -------------------------------------------------------------------------

  /** The steps lead from s to t. */
  ghost predicate Leads(s: State, steps: seq<Step>, t: State)
    decreases |steps|
  {
    if steps == [] then s == t
    else Enabled(s, steps[0]) && Leads(Apply(s, steps[0]), steps[1..], t)
  }

  /** One state is the other but for the first m tasks of context a, which are now last at context b;
      and this one does not wait for tasks. */
  ghost predicate Moved(s: State, t: State, a: nat, b: nat, m: nat)
    requires a < |s| && b < |s| && a != b && m <= |s[a].tasks|
  {
    && |t| == |s|
    && t[a] == s[a].(tasks := s[a].tasks[m..])
    && t[b] == s[b].(tasks := s[b].tasks + s[a].tasks[..m], asking := false, requests := t[b].requests)
    && forall i :: 0 <= i < |s| && i != a && i != b ==> t[i] == s[i]
  }

  /** A request is served: with the threshold met and n tasks that agree, these go to the context that
      asked; otherwise none move.  In either case the context no longer waits and may ask again. */
  lemma RequestServed(s: State, c: nat, source: nat, n: nat) returns (steps: seq<Step>, t: State)
    requires c < |s| && source < |s| && c != source && !s[c].asking && s[c].calls == [] && s[source].calls == []
    requires n <= SEND_MAX && n <= |s[source].tasks|
    ensures Leads(s, steps, t) && |steps| == 3
    ensures Moved(s, t, source, c, if |s[source].tasks| < 9 then 0 else n)
    ensures Enabled(t, Request(c, source, true)) && t[c].requests == s[c].requests + 1
  {
    var first := Request(c, source, true);
    var s1 := Apply(s, first);
    var s2 := Apply(s1, Handle(source, n));
    t := Apply(s2, Handle(c, 0));
    steps := [first, Handle(source, n), Handle(c, 0)];
    assert Leads(s2, [Handle(c, 0)], t);
    assert steps[1..][1..] == [Handle(c, 0)];
    assert Leads(s1, steps[1..], t);
  }

  /** Tasks that are distributed arrive. */
  lemma DistributionServed(s: State, c: nat, target: nat, n: nat) returns (steps: seq<Step>, t: State)
    requires c < |s| && target < |s| && c != target && s[target].calls == []
    requires 0 < n <= SEND_MAX && n <= |s[c].tasks|
    ensures Leads(s, steps, t) && |steps| == 2 && Moved(s, t, c, target, n)
    ensures t[target].requests == s[target].requests
  {
    var first := Distribute(c, target, n);
    var s1 := Apply(s, first);
    t := Apply(s1, Handle(target, 0));
    steps := [first, Handle(target, 0)];
    assert steps[1..] == [Handle(target, 0)];
    assert Leads(s1, steps[1..], t);
  }
}
