/** The task list of a context: a queue of ring buffers (src/base/task.h, src/base/task.c). */
module TaskList {
  import opened Common

  datatype Task = Task(routine: nat, arg: int)

  const RING_SIZE: nat := 256
  const SEND_MAX: nat := 3
  const WORD: nat := 0x1_0000_0000

  /** A ring buffer.  Head and tail are 32-bit counters that wrap around. */
  class TaskRing {
    var head: nat
    var tail: nat
    const slots: array<Task>
    ghost var items: seq<Task>

    ghost predicate Valid()
      reads this, slots
    {
      && slots.Length == RING_SIZE && head < WORD && |items| <= RING_SIZE && tail == Wrap(head + |items|)
      && forall i :: 0 <= i < |items| ==> slots[SlotOf(head + i)] == items[i]
    }

    constructor ()
      ensures Valid() && items == [] && fresh(slots)
    {
      head, tail, items := 0, 0, [];
      slots := new Task[RING_SIZE](_ => Task(0, 0));
    }

    /** The number of tasks, as the difference of the counters. */
    function Size(): nat
      reads this
    {
      Wrap(tail - head)
    }

    lemma SizeExact()
      requires Valid()
      ensures Size() == |items|
    {}

    method Put(task: Task)
      requires Valid() && |items| < RING_SIZE
      modifies this, slots
      ensures Valid() && items == old(items) + [task]
    {
      hide SlotOf, Wrap;
      ghost var n := |items|;
      WrapNext(head + n);
      OtherSlots(head, n);
      slots[SlotOf(tail)] := task;
      tail := Wrap(tail + 1);
      items := items + [task];
    }

    method Take() returns (task: Task)
      requires Valid() && items != []
      modifies this
      ensures Valid() && task == old(items)[0] && items == old(items)[1..]
    {
      hide SlotOf, Wrap;
      ghost var n := |items|;
      WrapHead(head, n);
      task := slots[SlotOf(head)];
      head := Wrap(head + 1);
      items := items[1..];
      forall i | 0 <= i < |items| ensures slots[SlotOf(head + i)] == items[i] {
        NextSlot(old(head), i);
      }
    }
  }

  /** A 32-bit counter value. */
  function Wrap(x: int): (r: nat)
    ensures r < WORD
  {
    x % WORD
  }

  /** The slot for a counter value. */
  function SlotOf(x: nat): (r: nat)
    ensures r < RING_SIZE
  {
    x % RING_SIZE
  }

  lemma WrapNext(x: nat)
    ensures Wrap(Wrap(x) + 1) == Wrap(x + 1) && SlotOf(Wrap(x)) == SlotOf(x)
  {}

  lemma WrapHead(head: nat, n: nat)
    requires n > 0
    ensures Wrap(Wrap(head + 1) + (n - 1)) == Wrap(head + n) && SlotOf(head + 0) == SlotOf(head)
  {}

  lemma OtherSlots(head: nat, n: nat)
    requires n < RING_SIZE
    ensures forall x :: head <= x < head + n ==> SlotOf(x) != SlotOf(head + n)
  {}

  lemma NextSlot(head: nat, i: nat)
    ensures SlotOf(Wrap(head + 1) + i) == SlotOf(head + (i + 1))
  {}

  // ----- The list ---------------------------------------------------------------------------------

  ghost function Flat(parts: seq<seq<Task>>): seq<Task>
  {
    if parts == [] then [] else parts[0] + Flat(parts[1..])
  }

  lemma {:induction false} FlatLast(parts: seq<seq<Task>>, last: seq<Task>)
    ensures Flat(parts + [last]) == Flat(parts) + last
  {
    if parts == [] {
      assert (parts + [last])[1..] == [];
    } else {
      FlatLast(parts[1..], last);
      assert (parts + [last])[1..] == parts[1..] + [last];
    }
  }

  lemma {:induction false} FlatEmpty(parts: seq<seq<Task>>)
    requires forall i :: 0 <= i < |parts| ==> parts[i] == []
    ensures Flat(parts) == []
  {
    if parts != [] {
      FlatEmpty(parts[1..]);
    }
  }

  class TaskList {
    var rings: seq<TaskRing>
    var headCount: nat
    var tailCount: nat
    ghost var parts: seq<seq<Task>>

    /** The tasks of the list, in the order in which they were added. */
    ghost function Contents(): seq<Task>
      reads this`parts
    {
      Flat(parts)
    }

    ghost predicate RingsOk()
      reads this`rings, this`parts, rings, set r | r in rings :: r.slots
    {
      && rings != [] && |parts| == |rings| && (forall i :: 0 <= i < |rings| ==> rings[i].Valid()
                                                                                && rings[i].items == parts[i])
      && (forall i, j :: 0 <= i < j < |rings| ==> rings[i] != rings[j] && rings[i].slots != rings[j].slots)
    }

    /** Only the first ring may be empty. */
    ghost predicate Shape()
      reads this`rings, this`parts, rings, set r | r in rings :: r.slots
    {
      RingsOk() && forall i :: 0 < i < |parts| ==> parts[i] != []
    }

    ghost predicate Valid()
      reads this, rings, set r | r in rings :: r.slots
    {
      Shape() && tailCount == headCount + |Contents()|
    }

    constructor ()
      ensures Valid() && Contents() == []
      ensures fresh(rings) && fresh(set r | r in rings :: r.slots)
    {
      var ring := new TaskRing();
      rings, headCount, tailCount, parts := [ring], 0, 0, [[]];
      new;
      FlatEmpty(parts);
    }

    /** The number of tasks, as the difference of the counters. */
    function Size(): nat
      requires Valid()
      reads this, rings, set r | r in rings :: r.slots
      ensures Size() == |Contents()|
    {
      tailCount - headCount
    }

    method PutLast(task: Task)
      requires RingsOk() && |parts[|parts| - 1]| < RING_SIZE
      modifies rings[|rings| - 1], rings[|rings| - 1].slots, this`parts
      ensures RingsOk() && parts == old(parts)[..|rings| - 1] + [old(parts)[|rings| - 1] + [task]]
    {
      var n := |rings| - 1;
      rings[n].Put(task);
      parts := parts[..n] + [parts[n] + [task]];
    }

    /** Append an empty ring. */
    method AddRing()
      requires RingsOk()
      modifies this`rings, this`parts
      ensures RingsOk() && parts == old(parts) + [[]] && |rings| == |old(rings)| + 1
              && rings[..|old(rings)|] == old(rings)
      ensures fresh(rings[|old(rings)|]) && fresh(rings[|old(rings)|].slots)
    {
      var ring := new TaskRing();
      rings, parts := rings + [ring], parts + [[]];
    }

    /** Have room in the last ring, by a new one if it is full. */
    method MakeRoom()
      requires Shape()
      modifies this`rings, this`parts
      ensures RingsOk() && Contents() == old(Contents()) && parts != [] && |parts[|parts| - 1]| < RING_SIZE
      ensures forall i :: 0 < i < |parts| - 1 ==> parts[i] != []
      ensures rings == old(rings) || NewLast(old(rings), rings)
      ensures rings != old(rings) ==> fresh(rings[|rings| - 1]) && fresh(rings[|rings| - 1].slots)
    {
      hide Flat, RingsOk;
      LastFull();
      if rings[|rings| - 1].Size() == RING_SIZE {
        FlatLast(parts, []);
        AddRing();
      }
    }

    /** Add a task, in a new ring if the last one is full. */
    method Add(task: Task)
      requires Valid()
      modifies this, rings, set r | r in rings :: r.slots
      ensures Valid() && Contents() == old(Contents()) + [task]
      ensures forall r :: r in rings ==> (r in old(rings) || fresh(r)) && (r in old(rings) || fresh(r.slots))
    {
      hide Flat, RingsOk;
      MakeRoom();
      Member();
      FlatPut(parts, task);
      PutLast(task);
      tailCount := tailCount + 1;
    }

    lemma LastFull()
      requires RingsOk()
      ensures rings != [] && |parts| == |rings|
      ensures rings[|rings| - 1].Size() == |parts[|parts| - 1]| <= RING_SIZE
    {
      rings[|rings| - 1].SizeExact();
    }

    lemma Member()
      requires RingsOk()
      ensures rings != [] && |parts| == |rings| && rings[|rings| - 1] in rings && rings[0] in rings
    {}

    method TakeFirst() returns (task: Task)
      requires RingsOk() && parts[0] != []
      modifies rings[0], this`parts
      ensures RingsOk() && task == old(parts)[0][0] && parts == [old(parts)[0][1..]] + old(parts)[1..]
    {
      task := rings[0].Take();
      parts := [parts[0][1..]] + parts[1..];
    }

    /** If the first ring is exhausted then drop it, unless it is the only one. */
    method Advance() returns (more: bool)
      requires Shape()
      modifies this`rings, this`parts
      ensures Shape() && Contents() == old(Contents()) && more == (Contents() != []) && (more ==> parts[0] != [])
      ensures forall r :: r in rings ==> r in old(rings)
    {
      rings[0].SizeExact();
      if rings[0].Size() != 0 {
        assert Flat(parts) == parts[0] + Flat(parts[1..]);
        return true;
      }
      if |rings| == 1 {
        assert parts == [[]];
        return false;
      }
      assert Flat(parts) == Flat(parts[1..]) && Flat(parts[1..]) == parts[1] + Flat(parts[1..][1..]);
      rings, parts := rings[1..], parts[1..];
      return true;
    }

    /** Take the first task off the first ring. */
    method TakeHead() returns (task: Task)
      requires Shape() && parts[0] != []
      modifies rings[0], this`parts
      ensures Shape() && old(Contents()) == [task] + Contents()
    {
      hide Flat, RingsOk;
      Member();
      FlatTake(parts);
      task := TakeFirst();
    }

    /** Remove the first task. */
    method Get() returns (r: Option<Task>)
      requires Valid()
      modifies this, rings
      ensures Valid() && match r
              case None => Contents() == [] == old(Contents())
              case Some(t) => old(Contents()) == [t] + Contents()
      ensures forall x :: x in rings ==> x in old(rings)
    {
      hide Flat, RingsOk, Contents;
      var more := Advance();
      if !more {
        return None;
      }
      Member();
      var task := TakeHead();
      headCount := headCount + 1;
      return Some(task);
    }

    method PeekFirst() returns (task: Task)
      requires RingsOk() && parts[0] != []
      ensures task == parts[0][0]
    {
      task := rings[0].slots[SlotOf(rings[0].head)];
    }

    /** Remove up to three tasks from the front, as long as they agree to move. */
    method Reassign(agrees: Task -> bool) returns (moved: seq<Task>)
      requires Valid()
      modifies this, rings
      ensures Valid() && old(Contents()) == moved + Contents() && |moved| <= 3
      ensures forall t :: t in moved ==> agrees(t)
      ensures |moved| == 3 || Contents() == [] || !agrees(Contents()[0])
      ensures forall x :: x in rings ==> x in old(rings)
    {
      hide Flat, RingsOk;
      moved := [];
      while |moved| < SEND_MAX
        invariant Shape() && old(Contents()) == moved + Contents() && |moved| <= SEND_MAX
        invariant headCount == old(headCount) && tailCount == old(tailCount)
        invariant forall t :: t in moved ==> agrees(t)
        invariant forall x :: x in rings ==> x in old(rings)
      {
        var more := Advance();
        if !more {
          break;
        }
        Member();
        var task := PeekFirst();
        FirstOf(parts);
        if !agrees(task) {
          break;
        }
        task := TakeHead();
        moved := moved + [task];
      }
      headCount := headCount + |moved|;
    }
  }

  ghost predicate NewLast(before: seq<TaskRing>, after: seq<TaskRing>)
  {
    |after| == |before| + 1 && after[..|before|] == before
  }

  lemma FlatPut(parts: seq<seq<Task>>, task: Task)
    requires parts != []
    ensures var n := |parts| - 1; Flat(parts[..n] + [parts[n] + [task]]) == Flat(parts) + [task]
  {
    hide Flat;
    var n := |parts| - 1;
    FlatLast(parts[..n], parts[n] + [task]);
    FlatLast(parts[..n], parts[n]);
    assert parts == parts[..n] + [parts[n]];
  }

  lemma FirstOf(parts: seq<seq<Task>>)
    requires parts != [] && parts[0] != []
    ensures Flat(parts) != [] && Flat(parts)[0] == parts[0][0]
  {}

  lemma FlatTake(parts: seq<seq<Task>>)
    requires parts != [] && parts[0] != []
    ensures Flat(parts) == [parts[0][0]] + Flat([parts[0][1..]] + parts[1..])
  {
    var rest := [parts[0][1..]] + parts[1..];
    assert rest[1..] == parts[1..] && parts[0] == [parts[0][0]] + parts[0][1..];
  }
}
