/** The intrusive multi-producer single-consumer queue (src/base/list.h, mm_mpsc_queue_*).

    An append is an exchange of the tail followed, in a later step, by the store that links
    the new span behind the old tail; any number of appends may be half done at a time.  The
    consumer's remove is split at every access to a shared word, and its own re-append of the
    stub is also done in two steps. */
module MpscQueue {
  import opened Common

  type Node = nat

  /** The stub node embedded in the queue. */
  const STUB: Node := 0

  /** The thread number of the consumer in `links`. */
  const CONSUMER: int := -1

  /** An append between its exchange and its link: `next` of prev is to be set to first. */
  datatype Link = Link(prev: Node, first: Node)

  datatype Pc =
    | Idle
    | Loaded(h: Node, next: Option<Node>)  // loaded the head and its next pointer
    | Skipped(h: Node)                     // moved the head past the stub to h
    | Last(h: Node)                        // h has no next, about to load the tail
    | Alone(h: Node)                       // the tail was h
    | Cleared(h: Node)                     // reset the stub, about to exchange the tail
    | Stubbed(h: Node)                     // exchanged the tail, about to link the stub
    | Relinked(h: Node)                    // about to load the next pointer of h again

  /** The list itself.  A missing key of `next` is a null pointer.  `chain` is history: the
      nodes from head to tail in the order of the exchanges; `links` and `waits` name the
      links that are due, by thread and by node. */
  datatype Queue = Queue(
    head: Node, tail: Node, next: map<Node, Node>, links: map<int, Link>, waits: map<Node, int>, chain: seq<Node>)

  /** `log`, `returned` and `gap` are history: all items ever appended, all items returned,
      and whether the queue was seen empty or an append half done at some moment since the
      current remove began. */
  datatype State = State(q: Queue, pc: Pc, log: seq<Node>, returned: seq<Node>, gap: bool)

  datatype Step =
    | Exchange(p: nat, span: seq<Node>) | LinkSpan(p: nat)
    | Begin | Decide | Reload | LoadTail | ClearStub | ExchangeStub | LinkStub | Finish

  function Get(next: map<Node, Node>, x: Node): Option<Node>
  {
    if x in next then Some(next[x]) else None
  }

  function Items(chain: seq<Node>): seq<Node>
  {
    if chain == [] then [] else (if chain[0] == STUB then [] else [chain[0]]) + Items(chain[1..])
  }

  /** Links inside a span are set by the producer beforehand, and its end has none. */
  function SpanLinks(next: map<Node, Node>, span: seq<Node>): map<Node, Node>
    requires span != []
  {
    if |span| == 1 then next - {span[0]} else SpanLinks(next, span[1..])[span[0] := span[1]]
  }

  predicate HalfDone(q: Queue)
  {
    exists p :: p in q.links && p != CONSUMER
  }

  predicate Empty(q: Queue)
  {
    Items(q.chain) == []
  }

  predicate Enabled(s: State, step: Step)
  {
    match step
    case Exchange(p, span) =>
      // The span is private to the producer.
      && p !in s.q.links && span != [] && Distinct(span) && STUB !in span
      && (forall x :: x in span ==> x !in s.q.chain)
    case LinkSpan(p) => p in s.q.links
    case Begin => s.pc.Idle?
    case Decide => s.pc.Loaded?
    case Reload => s.pc.Skipped?
    case LoadTail => s.pc.Last?
    case ClearStub => s.pc.Alone?
    case ExchangeStub => s.pc.Cleared?
    case LinkStub => s.pc.Stubbed? && CONSUMER in s.q.links
    case Finish => s.pc.Relinked?
  }

  /** Exchange the tail and remember which link is due. */
  function Append(q: Queue, thread: int, span: seq<Node>): Queue
    requires span != []
  {
    q.(tail := span[|span| - 1], next := SpanLinks(q.next, span),
       links := q.links[thread := Link(q.tail, span[0])], waits := q.waits[q.tail := thread],
       chain := q.chain + span)
  }

  function DoLink(q: Queue, thread: int): Queue
    requires thread in q.links
  {
    var l := q.links[thread];
    q.(next := q.next[l.prev := l.first], links := q.links - {thread}, waits := q.waits - {l.prev})
  }

  /** Move the head to the next node. */
  function Pop(q: Queue, next: Node): Queue
  {
    q.(head := next, chain := if q.chain == [] then [] else q.chain[1..])
  }

  function Apply(s: State, step: Step): State
    requires Enabled(s, step)
  {
    match step
    case Exchange(p, span) => s.(q := Append(s.q, p, span), log := s.log + span, gap := true)
    case LinkSpan(p) => s.(q := DoLink(s.q, p))
    case Begin => s.(pc := Loaded(s.q.head, Get(s.q.next, s.q.head)), gap := Empty(s.q) || HalfDone(s.q))
    case Decide =>
      if s.pc.h == STUB then
        if s.pc.next.None? then s.(pc := Idle)
        else s.(q := Pop(s.q, s.pc.next.value), pc := Skipped(s.pc.next.value))
      else if s.pc.next.Some? then
        s.(q := Pop(s.q, s.pc.next.value), returned := s.returned + [s.pc.h], pc := Idle)
      else s.(pc := Last(s.pc.h))
    case Reload => s.(pc := Loaded(s.pc.h, Get(s.q.next, s.pc.h)))
    case LoadTail => s.(pc := if s.q.tail != s.pc.h then Idle else Alone(s.pc.h))
    case ClearStub => s.(q := s.q.(next := s.q.next - {STUB}), pc := Cleared(s.pc.h))
    case ExchangeStub => s.(q := Append(s.q, CONSUMER, [STUB]), pc := Stubbed(s.pc.h))
    case LinkStub => s.(q := DoLink(s.q, CONSUMER), pc := Relinked(s.pc.h))
    case Finish =>
      if s.pc.h in s.q.next then
        s.(q := Pop(s.q, s.q.next[s.pc.h]), returned := s.returned + [s.pc.h], pc := Idle)
      else s.(pc := Idle)
  }

  function Init(): State
  {
    State(Queue(STUB, STUB, map[], map[], map[], [STUB]), Idle, [], [], false)
  }

  lemma {:induction false} SpanLinked(next: map<Node, Node>, span: seq<Node>)
    requires span != [] && Distinct(span)
    ensures var r := SpanLinks(next, span);
            && span[|span| - 1] !in r
            && (forall i :: 0 <= i < |span| - 1 ==> span[i] in r && r[span[i]] == span[i + 1])
            && (forall x :: x !in span ==> (x in r <==> x in next) && (x in next ==> r[x] == next[x]))
  {
    if |span| > 1 {
      SpanLinked(next, span[1..]);
      var t := SpanLinks(next, span[1..]);
      assert span[|span| - 1] == span[1..][|span| - 2];
      forall i | 0 < i < |span| - 1
        ensures span[i] in t && t[span[i]] == span[i + 1]
      {
        assert span[i] == span[1..][i - 1] && span[i + 1] == span[1..][i];
      }
    }
  }

  lemma ItemsFirst(a: seq<Node>)
    ensures a == [] ==> Items(a) == []
    ensures a != [] ==> Items(a) == (if a[0] == STUB then [] else [a[0]]) + Items(a[1..])
  {}

  lemma {:induction false} ItemsConcat(a: seq<Node>, b: seq<Node>)
    ensures Items(a + b) == Items(a) + Items(b)
  {
    hide Items;
    ItemsFirst(a);
    if a == [] {
      assert a + b == b;
    } else {
      ItemsConcat(a[1..], b);
      ItemsFirst(a + b);
      assert (a + b)[0] == a[0] && (a + b)[1..] == a[1..] + b;
    }
  }

  lemma {:induction false} ItemsAll(a: seq<Node>)
    requires STUB !in a
    ensures Items(a) == a
  {
    if a != [] {
      ItemsAll(a[1..]);
      assert a == [a[0]] + a[1..];
    }
  }

  // ----- The invariant -----------------------------------------------------------------

  /** Node i of the chain is linked to the next one, or its link is due. */
  ghost predicate Joined(q: Queue, i: int)
    requires 0 <= i < |q.chain| - 1
  {
    var a, b := q.chain[i], q.chain[i + 1];
    if a in q.next then q.next[a] == b && a !in q.waits
    else a in q.waits && q.waits[a] in q.links && q.links[q.waits[a]] == Link(a, b)
  }

  ghost predicate ChainOk(q: Queue)
  {
    && q.chain != [] && Distinct(q.chain)
    && q.chain[0] == q.head && q.chain[|q.chain| - 1] == q.tail
    && q.tail !in q.next && q.tail !in q.waits
    && (forall i :: 0 <= i < |q.chain| - 1 ==> Joined(q, i))
  }

  ghost predicate LinksOk(q: Queue)
  {
    && (forall p :: p in q.links ==>
          q.links[p].prev in q.waits && q.waits[q.links[p].prev] == p && q.links[p].prev !in q.next)
    && (forall a :: a in q.waits ==> a in q.chain)
  }

  ghost predicate PcOk(s: State)
  {
    && (CONSUMER in s.q.links <==> s.pc.Stubbed?)
    && (HalfDone(s.q) && !s.pc.Idle? ==> s.gap)
    && (!s.pc.Idle? ==> s.pc.h == s.q.head)
    && match s.pc
       case Idle => true
       case Loaded(h, n) =>
         && (n.Some? ==> h in s.q.next && s.q.next[h] == n.value)
         && (n.None? ==> s.gap || (s.q.chain == [h] && h != STUB))
       case Skipped(h) => h != STUB
       case Last(h) => h != STUB && (s.gap || s.q.chain == [h])
       case Alone(h) => h != STUB && STUB !in s.q.chain
       case Cleared(h) => h != STUB && STUB !in s.q.chain
       case Stubbed(h) => h != STUB && |s.q.chain| >= 2
       case Relinked(h) => h != STUB && |s.q.chain| >= 2
  }

  ghost predicate Inv(s: State)
  {
    ChainOk(s.q) && LinksOk(s.q) && PcOk(s) && s.log == s.returned + Items(s.q.chain)
  }

  lemma InitInv()
    ensures Inv(Init())
  {}

  lemma AppendKept(q: Queue, thread: int, span: seq<Node>)
    requires ChainOk(q) && LinksOk(q) && span != [] && Distinct(span) && thread !in q.links
    requires forall x :: x in span ==> x !in q.chain
    ensures ChainOk(Append(q, thread, span)) && LinksOk(Append(q, thread, span))
  {
    SpanLinked(q.next, span);
    DistinctConcat(q.chain, span);
    var t, k := Append(q, thread, span), |q.chain|;
    assert q.tail in q.chain && q.tail !in span;
    forall i | 0 <= i < |t.chain| - 1
      ensures Joined(t, i)
    {
      if i < k - 1 {
        assert Joined(q, i) && q.chain[i] !in span && q.chain[i] != q.tail;
      } else if i >= k {
        assert t.chain[i] == span[i - k] && t.chain[i + 1] == span[i - k + 1];
        assert t.chain[i] in span;
      }
    }
  }

  lemma LinkKept(q: Queue, thread: int)
    requires ChainOk(q) && LinksOk(q) && thread in q.links
    ensures ChainOk(DoLink(q, thread)) && LinksOk(DoLink(q, thread))
  {
    forall i | 0 <= i < |q.chain| - 1
      ensures Joined(DoLink(q, thread), i)
    {
      assert Joined(q, i);
    }
  }

  lemma PopKept(q: Queue)
    requires ChainOk(q) && LinksOk(q) && q.head in q.next
    ensures |q.chain| >= 2 && q.next[q.head] == q.chain[1]
    ensures ChainOk(Pop(q, q.next[q.head])) && LinksOk(Pop(q, q.next[q.head]))
    ensures Items(q.chain) == (if q.head == STUB then [] else [q.head]) + Items(q.chain[1..])
  {
    var t := Pop(q, q.next[q.head]);
    assert |q.chain| >= 2 && Joined(q, 0);
    forall i | 0 <= i < |t.chain| - 1
      ensures Joined(t, i)
    {
      assert Joined(q, i + 1);
    }
    forall a | a in t.waits
      ensures a in t.chain
    {
      assert a in q.chain && a != q.head;
      assert q.chain == [q.head] + t.chain;
    }
  }

  lemma ClearKept(q: Queue)
    requires ChainOk(q) && LinksOk(q) && STUB !in q.chain
    ensures ChainOk(q.(next := q.next - {STUB})) && LinksOk(q.(next := q.next - {STUB}))
  {
    forall i | 0 <= i < |q.chain| - 1
      ensures Joined(q.(next := q.next - {STUB}), i)
    {
      assert Joined(q, i) && q.chain[i] in q.chain;
    }
  }

  /** The first node has no next pointer only if it is alone or its link is due. */
  lemma HeadUnlinked(q: Queue)
    requires ChainOk(q) && q.head !in q.next && |q.chain| >= 2 && CONSUMER !in q.links
    ensures HalfDone(q)
  {
    assert Joined(q, 0);
    var p := q.waits[q.head];
    assert p in q.links && p != CONSUMER;
  }

  lemma ExchangePc(s: State, step: Step)
    requires PcOk(s) && Enabled(s, step) && step.Exchange? && s.q.head in s.q.chain
    ensures PcOk(Apply(s, step))
  {
    SpanLinked(s.q.next, step.span);
  }

  lemma ExchangeInv(s: State, step: Step)
    requires Inv(s) && Enabled(s, step) && step.Exchange?
    ensures Inv(Apply(s, step))
  {
    var t := Apply(s, step);
    assert ChainOk(t.q) && LinksOk(t.q) by {
      AppendKept(s.q, step.p, step.span);
    }
    assert PcOk(t) by {
      ExchangePc(s, step);
    }
    assert Items(t.q.chain) == Items(s.q.chain) + step.span by {
      ItemsConcat(s.q.chain, step.span);
      ItemsAll(step.span);
    }
    assert t.log == s.log + step.span && t.returned == s.returned;
  }

  lemma LinkInv(s: State, step: Step)
    requires Inv(s) && Enabled(s, step) && (step.LinkSpan? || step.LinkStub?)
    ensures Inv(Apply(s, step))
  {
    LinkKept(s.q, if step.LinkSpan? then step.p else CONSUMER);
  }

  lemma StubInv(s: State, step: Step)
    requires Inv(s) && Enabled(s, step) && (step.ClearStub? || step.ExchangeStub?)
    ensures Inv(Apply(s, step))
  {
    if step.ClearStub? {
      ClearKept(s.q);
    } else {
      AppendKept(s.q, CONSUMER, [STUB]);
      ItemsConcat(s.q.chain, [STUB]);
    }
  }

  lemma PopInv(s: State, step: Step)
    requires Inv(s) && Enabled(s, step)
    requires (step.Decide? && s.pc.next.Some?) || (step.Finish? && s.pc.h in s.q.next)
    ensures Inv(Apply(s, step))
  {
    PopKept(s.q);
    assert s.q.chain[1] != s.q.chain[0];
  }

  lemma LoadInv(s: State, step: Step)
    requires Inv(s) && Enabled(s, step)
    requires step.Begin? || (step.Decide? && s.pc.next.None?) || step.Reload? || step.LoadTail?
             || (step.Finish? && s.pc.h !in s.q.next)
    ensures Inv(Apply(s, step))
  {
    if |s.q.chain| >= 2 && s.q.head !in s.q.next {
      HeadUnlinked(s.q);
    }
    assert s.q.chain == [s.q.head] || (|s.q.chain| >= 2 && s.q.head != s.q.tail);
    assert Items([STUB]) == [];
  }

  lemma StepInv(s: State, step: Step)
    requires Inv(s) && Enabled(s, step)
    ensures Inv(Apply(s, step))
  {
    match step
    case Exchange(_, _) => ExchangeInv(s, step);
    case LinkSpan(_) => LinkInv(s, step);
    case LinkStub => LinkInv(s, step);
    case ClearStub => StubInv(s, step);
    case ExchangeStub => StubInv(s, step);
    case Decide => if s.pc.next.Some? { PopInv(s, step); } else { LoadInv(s, step); }
    case Finish => if s.pc.h in s.q.next { PopInv(s, step); } else { LoadInv(s, step); }
    case _ => LoadInv(s, step);
  }

  // ----- Runs --------------------------------------------------------------------------

  ghost predicate Run(states: seq<State>, steps: seq<Step>)
  {
    && |states| == |steps| + 1
    && states[0] == Init()
    && forall m :: 0 <= m < |steps| ==> Enabled(states[m], steps[m]) && states[m + 1] == Apply(states[m], steps[m])
  }

  lemma {:induction false} RunInv(states: seq<State>, steps: seq<Step>, m: nat)
    requires Run(states, steps) && m < |states|
    ensures Inv(states[m])
  {
    if m == 0 {
      InitInv();
    } else {
      RunInv(states, steps, m - 1);
      StepInv(states[m - 1], steps[m - 1]);
    }
  }

  /** The items returned so far are the items appended, in the order of the tail exchanges,
      each once; the ones not yet returned are still on the chain, in the same order. */
  lemma FirstInFirstOut(states: seq<State>, steps: seq<Step>, m: nat)
    requires Run(states, steps) && m < |states|
    ensures states[m].log == states[m].returned + Items(states[m].q.chain)
    ensures states[m].returned <= states[m].log
  {
    RunInv(states, steps, m);
  }

  /** A remove that ends without an item: it is idle again and nothing was returned. */
  ghost predicate ReturnsNull(s: State, step: Step)
  {
    Enabled(s, step) && !s.pc.Idle? && Apply(s, step).pc.Idle? && Apply(s, step).returned == s.returned
  }

  lemma NullSeesGap(s: State, step: Step)
    requires Inv(s) && ReturnsNull(s, step)
    ensures s.gap
  {
    if |s.q.chain| >= 2 && s.q.head !in s.q.next && CONSUMER !in s.q.links {
      HeadUnlinked(s.q);
    }
  }

  /** The remove under way at m was under way at j already. */
  ghost predicate SameCall(states: seq<State>, j: int, m: int)
  {
    0 <= j <= m < |states| && forall i :: j <= i <= m ==> !states[i].pc.Idle?
  }

  lemma StepGap(s: State, step: Step)
    requires Enabled(s, step) && !Apply(s, step).pc.Idle? && Apply(s, step).gap
    ensures (!s.pc.Idle? && s.gap) || Empty(Apply(s, step).q) || HalfDone(Apply(s, step).q)
  {
    match step
    case Exchange(p, _) =>
      assert p in Apply(s, step).q.links && p != CONSUMER;
    case _ =>
  }

  lemma {:induction false} GapSeen(states: seq<State>, steps: seq<Step>, m: nat)
    requires Run(states, steps) && m < |states| && !states[m].pc.Idle? && states[m].gap
    ensures exists j :: SameCall(states, j, m) && (Empty(states[j].q) || HalfDone(states[j].q))
  {
    if Empty(states[m].q) || HalfDone(states[m].q) {
      assert SameCall(states, m, m);
    } else {
      var s, step := states[m - 1], steps[m - 1];
      StepGap(s, step);
      GapSeen(states, steps, m - 1);
      var j :| SameCall(states, j, m - 1) && (Empty(states[j].q) || HalfDone(states[j].q));
      assert SameCall(states, j, m);
    }
  }

  /** A null result is given only if, at some moment of the same call, the queue was empty
      or some producer's append was half done. */
  lemma NullOnlyIfGap(states: seq<State>, steps: seq<Step>, m: nat)
    requires Run(states, steps) && m < |steps| && ReturnsNull(states[m], steps[m])
    ensures exists j :: SameCall(states, j, m) && (Empty(states[j].q) || HalfDone(states[j].q))
  {
    RunInv(states, steps, m);
    NullSeesGap(states[m], steps[m]);
    GapSeen(states, steps, m);
  }

  /** A null result from a queue that has an item and no append half done: the consumer has found no
      next node of the stub, and a whole append comes before it decides. */
  lemma NullFromNonempty() returns (states: seq<State>, steps: seq<Step>, m: nat)
    ensures Run(states, steps) && m < |steps| && ReturnsNull(states[m], steps[m])
    ensures Items(states[m].q.chain) == [1] && !HalfDone(states[m].q)
  {
    var s0 := Init();
    var s1 := Apply(s0, Begin);
    assert Enabled(s1, Exchange(0, [1]));
    var s2 := Apply(s1, Exchange(0, [1]));
    var s3 := Apply(s2, LinkSpan(0));
    assert s3.q.chain == [STUB, 1] && s3.q.links == map[];
    assert s3.q.chain[1..] == [1] && [1][1..] == [];
    states, steps, m := [s0, s1, s2, s3, Apply(s3, Decide)], [Begin, Exchange(0, [1]), LinkSpan(0), Decide], 3;
  }

  // ----- A call without interference ------------------------------------------------------

  /** The call that begins with step a has not returned before step m, and no producer takes a step
      in the meantime. */
  ghost predicate QuietCall(states: seq<State>, steps: seq<Step>, a: nat, m: nat)
  {
    && a < m < |steps| && |states| == |steps| + 1 && steps[a].Begin?
    && (forall i :: a < i <= m ==> !states[i].pc.Idle?)
    && (forall i :: a <= i <= m ==> !steps[i].Exchange? && !steps[i].LinkSpan?)
  }

  lemma {:induction false} QuietSoFar(states: seq<State>, steps: seq<Step>, a: nat, m: nat, i: nat)
    requires Run(states, steps) && QuietCall(states, steps, a, m) && a < i <= m + 1
    ensures states[i].gap == (Empty(states[a].q) || HalfDone(states[a].q)) && states[i].log == states[a].log
    ensures states[i - 1].returned <= states[i].returned && states[a].returned <= states[i].returned
  {
    hide Empty, HalfDone;
    assert Enabled(states[i - 1], steps[i - 1]) && states[i] == Apply(states[i - 1], steps[i - 1]);
    if i > a + 1 {
      assert !states[i - 1].pc.Idle? && !steps[i - 1].Begin?;
      QuietSoFar(states, steps, a, m, i - 1);
    }
  }

  /** If no append is half done when a remove begins, and none takes a step until it returns, then
      the result is null if and only if the queue is empty. */
  lemma NullIffEmpty(states: seq<State>, steps: seq<Step>, a: nat, m: nat)
    requires Run(states, steps) && QuietCall(states, steps, a, m) && !HalfDone(states[a].q)
    requires states[m + 1].pc.Idle?
    ensures ReturnsNull(states[m], steps[m]) <==> Empty(states[a].q)
  {
    hide HalfDone, Items, ChainOk, LinksOk, PcOk;
    assert Enabled(states[m], steps[m]) && states[m + 1] == Apply(states[m], steps[m]);
    RunInv(states, steps, a);
    RunInv(states, steps, m);
    RunInv(states, steps, m + 1);
    QuietSoFar(states, steps, a, m, m);
    QuietSoFar(states, steps, a, m, m + 1);
    if ReturnsNull(states[m], steps[m]) {
      NullSeesGap(states[m], steps[m]);
    }
    if Empty(states[a].q) {
      assert states[m + 1].returned == states[m].returned == states[a].log;
    }
  }

  // ----- Calls that return --------------------------------------------------------------------

  /** The steps lead from s to t. */
  ghost predicate Leads(s: State, steps: seq<Step>, t: State)
    decreases |steps|
  {
    if steps == [] then s == t
    else Enabled(s, steps[0]) && Leads(Apply(s, steps[0]), steps[1..], t)
  }

  lemma LeadsMore(s: State, a: Step, steps: seq<Step>, t: State)
    requires Enabled(s, a) && Leads(Apply(s, a), steps, t)
    ensures Leads(s, [a] + steps, t)
  {
    assert ([a] + steps)[1..] == steps;
  }

  /** What a finished call has returned: the first item of the queue, or nothing if it had none. */
  ghost predicate Removed(s: State, t: State)
  {
    && t.pc.Idle? && t.log == s.log && t.q.links == map[]
    && t.returned == s.returned + First(Items(s.q.chain))
    && t.returned + Items(t.q.chain) == s.returned + Items(s.q.chain)
  }

  function First(items: seq<Node>): (r: seq<Node>)
    ensures |r| <= 1 && r <= items && (r == [] ==> items == [])
  {
    if items == [] then [] else items[..1]
  }

  /** The steps of a consumer that has loaded an item and its next pointer. */
  lemma ItemReturned(s: State) returns (steps: seq<Step>, t: State)
    requires Inv(s) && s.pc.Loaded? && s.pc.h != STUB && s.q.links == map[]
    requires s.pc.next == Get(s.q.next, s.pc.h)
    ensures Leads(s, steps, t) && Inv(t) && Removed(s, t)
  {
    hide Inv, Leads;
    ItemFirst(s);
    if s.pc.next.Some? {
      t := Apply(s, Decide);
      StepInv(s, Decide);
      steps := [Decide];
      OneStep(s, Decide);
      LogSplit(s);
      LogSplit(t);
    } else {
      steps, t := LastReturned(s);
    }
  }

  lemma OneStep(s: State, a: Step)
    requires Enabled(s, a)
    ensures Leads(s, [a], Apply(s, a))
  {
    assert Leads(Apply(s, a), [a][1..], Apply(s, a));
  }

  lemma LogSplit(s: State)
    requires Inv(s)
    ensures s.log == s.returned + Items(s.q.chain)
  {}

  lemma ItemFirst(s: State)
    requires Inv(s) && !s.pc.Idle? && (s.pc.Loaded? ==> s.pc.h != STUB)
    ensures First(Items(s.q.chain)) == [s.pc.h]
  {
    ItemsFirst(s.q.chain);
  }

  lemma Cancel(a: seq<Node>, b: seq<Node>, c: seq<Node>)
    requires a + b == a + c
    ensures b == c
  {
    assert b == (a + b)[|a|..] && c == (a + c)[|a|..];
  }

  /** The last item is returned behind the stub, which is appended for that. */
  lemma LastReturned(s: State) returns (steps: seq<Step>, t: State)
    requires Inv(s) && s.pc.Loaded? && s.pc.h != STUB && s.q.links == map[] && s.pc.next.None? && s.pc.h !in s.q.next
    ensures Leads(s, steps, t) && Inv(t) && Removed(s, t)
  {
    hide Inv, Leads, Items;
    IsAlone(s);
    var s1 := Apply(s, Decide);
    StepInv(s, Decide);
    var s2 := Apply(s1, LoadTail);
    StepInv(s1, LoadTail);
    steps, t := BehindStub(s2);
    LeadsMore(s1, LoadTail, steps, t);
    LeadsMore(s, Decide, [LoadTail] + steps, t);
    steps := [Decide] + ([LoadTail] + steps);
  }

  lemma BehindStub(s: State) returns (steps: seq<Step>, t: State)
    requires Inv(s) && s.pc.Alone? && s.q.links == map[] && s.q.tail == s.pc.h
    ensures Leads(s, steps, t) && Inv(t) && Removed(s, t)
  {
    hide Inv, Leads, Items;
    var s1 := Apply(s, ClearStub);
    StepInv(s, ClearStub);
    var s2 := Apply(s1, ExchangeStub);
    StepInv(s1, ExchangeStub);
    var s3 := Apply(s2, LinkStub);
    StepInv(s2, LinkStub);
    t := Apply(s3, Finish);
    StepInv(s3, Finish);
    OneStep(s3, Finish);
    LeadsMore(s2, LinkStub, [Finish], t);
    steps := [LinkStub] + [Finish];
    LeadsMore(s1, ExchangeStub, steps, t);
    LeadsMore(s, ClearStub, [ExchangeStub] + steps, t);
    steps := [ClearStub] + ([ExchangeStub] + steps);
    ItemFirst(s);
    LogSplit(s);
    LogSplit(t);
  }

  lemma IsAlone(s: State)
    requires Inv(s) && !s.pc.Idle? && s.q.links == map[] && s.pc.h !in s.q.next
    ensures s.q.chain == [s.pc.h] && s.q.tail == s.pc.h
  {
    if |s.q.chain| >= 2 {
      HeadUnlinked(s.q);
    }
  }

  /** A remove that finds no append half done, and is left alone, comes to its end: it returns the first
      item, which leaves the others, or none if the queue was empty. */
  lemma RemoveReturns(s: State) returns (steps: seq<Step>, t: State)
    requires Inv(s) && s.pc.Idle? && s.q.links == map[]
    ensures Leads(s, steps, t) && Inv(t) && Removed(s, t)
  {
    hide Inv, Leads, Items;
    var s1 := Apply(s, Begin);
    StepInv(s, Begin);
    if s1.pc.h != STUB {
      steps, t := ItemReturned(s1);
    } else if s1.pc.next.None? {
      IsAlone(s1);
      t := Apply(s1, Decide);
      StepInv(s1, Decide);
      OneStep(s1, Decide);
      steps := [Decide];
      StubOnly();
    } else {
      var s2 := Apply(s1, Decide);
      StepInv(s1, Decide);
      LogSplit(s1);
      LogSplit(s2);
      Cancel(s.returned, Items(s1.q.chain), Items(s2.q.chain));
      NotStub(s2);
      var s3 := Apply(s2, Reload);
      StepInv(s2, Reload);
      steps, t := ItemReturned(s3);
      LeadsMore(s2, Reload, steps, t);
      LeadsMore(s1, Decide, [Reload] + steps, t);
      steps := [Decide] + ([Reload] + steps);
    }
    LeadsMore(s, Begin, steps, t);
    steps := [Begin] + steps;
  }

  lemma NotStub(s: State)
    requires Inv(s) && s.pc.Skipped?
    ensures s.pc.h != STUB
  {}

  lemma StubOnly()
    ensures Items([STUB]) == []
  {}

  /** An append puts its span at the end of the queue. */
  lemma AppendAppends(s: State, p: nat, span: seq<Node>) returns (t: State)
    requires Inv(s) && Enabled(s, Exchange(p, span))
    ensures Leads(s, [Exchange(p, span), LinkSpan(p)], t) && Inv(t)
    ensures Items(t.q.chain) == Items(s.q.chain) + span && t.q.links == s.q.links && t.returned == s.returned
  {
    hide Inv, Leads, Items;
    var first := Exchange(p, span);
    var s1 := Apply(s, first);
    StepInv(s, first);
    t := Apply(s1, LinkSpan(p));
    StepInv(s1, LinkSpan(p));
    OneStep(s1, LinkSpan(p));
    LeadsMore(s, first, [LinkSpan(p)], t);
    assert [first] + [LinkSpan(p)] == [first, LinkSpan(p)];
    LogSplit(s);
    LogSplit(t);
    Cancel(s.returned, Items(t.q.chain), Items(s.q.chain) + span);
  }
}
