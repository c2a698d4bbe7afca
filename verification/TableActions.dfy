/** The actions on a partition of the memcache table (src/memcache/action.c).  Each action is one
    atomic step; what it does is told in terms of the map from keys to items. */
module TableActions {
  import opened Common
  import opened LinearHash
  import opened TablePart
  import opened TableClock

  /** What a client sees of an entry. */
  datatype Item = Item(value: seq<char>, flags: nat, exp: nat, stamp: nat)

  function ItemOf(e: Entry): Item
  {
    Item(e.value, e.flags, e.exp, e.stamp)
  }

  predicate ItemExpired(item: Item, time: nat, flushStamp: nat)
  {
    (item.exp != 0 && item.exp <= time) || item.stamp < flushStamp
  }

  /** The second map lacks nothing that is alive at the given time. */
  ghost predicate LessExpired(before: map<Key, Item>, after: map<Key, Item>, time: nat, flushStamp: nat)
  {
    && (forall k :: k in after ==> k in before && after[k] == before[k])
    && (forall k :: k in before && k !in after ==> ItemExpired(before[k], time, flushStamp))
  }

  /** The first n entries of a bucket are neither expired nor flushed. */
  ghost predicate Swept(p: Part, b: nat, n: nat, time: nat, flushStamp: nat)
  {
    && b < |p.buckets| && n <= |p.buckets[b]|
    && forall k :: 0 <= k < n ==> p.buckets[b][k] < |p.entries|
                                  && !IsExpired(p.entries[p.buckets[b][k]], time, flushStamp)
  }

  /** The key has an item that is neither expired nor flushed. */
  ghost predicate Alive(items: map<Key, Item>, key: Key, time: nat, flushStamp: nat)
  {
    key in items && !ItemExpired(items[key], time, flushStamp)
  }

  /** Entry i is the one for a key. */
  ghost predicate Is(p: Part, key: Key, i: nat)
  {
    key in p.table && p.table[key] == i && i < |p.entries| && Linked(p.entries[i]) && p.entries[i].key == key
  }

  ghost predicate OneMoreHold(before: seq<nat>, after: seq<nat>, r: Option<nat>)
  {
    match r
    case None => after == before
    case Some(i) => i < |before| && after == before[i := before[i] + 1]
  }

  class Partition {
    const nparts: nat
    const id: nat

    var entries: seq<Entry>
    var buckets: seq<seq<nat>>
    var freeList: seq<nat>
    var stamp: nat
    var flushStamp: nat
    var volume: int
    var clockHand: nat
    var nfree: nat
    var nvoid: nat
    var nentries: nat

    const nentriesMax: nat
    const increment: nat

    ghost var holds: seq<nat>
    ghost var owned: set<nat>
    ghost var table: map<Key, nat>

    ghost function State(): Part
      reads this
    {
      Part(entries, buckets, freeList, holds, owned, table, stamp, volume, nparts, id)
    }

    ghost predicate Valid()
      reads this
    {
      && Good(State(), {}) && nfree == |freeList| && clockHand <= |entries|
      && nentries == |entries| + nvoid && 0 < nentries <= nentriesMax && flushStamp <= stamp
    }

    /** An empty partition.  It starts with one increment of entries, and half as many buckets. */
    constructor (nparts: nat, id: nat, nentriesMax: nat, increment: nat)
      requires id < nparts && 0 < nentriesMax
      requires var n := if increment > nentriesMax then nentriesMax else increment; n > 1
      ensures Valid() && Items() == map[] && stamp == id + 1 && this.nparts == nparts && this.id == id
    {
      this.nparts, this.id, this.nentriesMax, this.increment := nparts, id, nentriesMax, increment;
      var n := if increment > nentriesMax then nentriesMax else increment;
      entries, freeList, volume, clockHand := [], [], 0, 0;
      nfree, nvoid, nentries := 0, n, n;
      buckets := seq(n / 2, _ => []);
      stamp, flushStamp := id + 1, 0;
      holds, owned, table := [], {}, map[];
      new;
      hide Good;
      EmptyGood(State());
    }

    /** The items of the table, by key. */
    ghost function Items(): map<Key, Item>
      reads this
    {
      ItemsOf(State())
    }

    /** Take the j-th entry out of bucket b. */
    method Unlink(b: nat, j: nat)
      requires b < |buckets| && j < |buckets[b]| && buckets[b][j] < |entries|
      modifies this`entries, this`buckets, this`table, this`volume
      ensures State() == Unlinked(old(State()), b, j)
    {
      var i := buckets[b][j];
      var e := entries[i];
      buckets := buckets[b := CutAt(buckets[b], j)];
      entries := entries[i := e.(state := NOT_USED)];
      volume := volume - EntrySize(e);
      table := table - {e.key};
    }

    /** Look for a key in its bucket; take out the expired entries on the way. */
    method Scan(key: Key, time: nat) returns (found: bool, b: nat, j: nat, out: seq<nat>)
      requires Good(State(), {})
      modifies this`entries, this`buckets, this`table, this`volume
      ensures |entries| == |old(entries)|
      ensures Good(State(), Members(out)) && TakenOut(old(State()), State(), out)
      ensures forall i :: i in out ==> i < |old(entries)| && IsExpired(old(entries)[i], time, flushStamp)
      ensures if found then b < |buckets| && j < |buckets[b]| && Hit(State(), buckets[b][j], key, time, flushStamp)
              else key !in table
      ensures nparts > 0 && b == Bucket(|buckets|, nparts, key) < |buckets|
      ensures Swept(State(), b, if found then j + 1 else |buckets[b]|, time, flushStamp)
      ensures Intact(old(entries), entries, {})
    {
      hide Good, TakenOut, Bucket;
      ghost var p := State();
      BucketOfKey(p, key);
      b := Bucket(|buckets|, nparts, key);
      found, j, out := false, 0, [];
      TakenOutNone(p);
      assert Members([]) == {};
      while j < |buckets[b]|
        invariant |buckets| == |p.buckets| && b < |buckets| && j <= |buckets[b]|
        invariant Good(State(), Members(out)) && TakenOut(p, State(), out) && |entries| == |p.entries|
        invariant forall i :: i in out ==> i < |p.entries| && IsExpired(p.entries[i], time, flushStamp)
        invariant forall k :: 0 <= k < j ==> buckets[b][k] < |entries| && entries[buckets[b][k]].key != key
        invariant Swept(State(), b, j, time, flushStamp)
        decreases |buckets[b]| - j
      {
        ghost var w := State();
        var i := buckets[b][j];
        InTable(p, w, out, b, j);
        if IsExpired(entries[i], time, flushStamp) {
          UnlinkedOk(w, b, j, Members(out));
          TakenOutMore(p, w, out, b, j);
          MoreMembers(i, out);
          Unlink(b, j);
          out := [i] + out;
        } else if entries[i].key == key {
          TakenOutIntact(p, w, out);
          return true, b, j, out;
        } else {
          j := j + 1;
        }
      }
      KeyAbsent(State(), Members(out), key, b);
      TakenOutIntact(p, State(), out);
    }

    /** Drop the reference that an entry has from the table; the last one frees it. */
    method Unref(i: nat)
      requires i < |entries| && entries[i].refs > 0
      modifies this`entries, this`freeList, this`nfree
      ensures |entries| == |old(entries)|
      ensures State() == Released(old(State()), i)
      ensures old(nfree == |freeList|) ==> nfree == |freeList|
    {
      entries := entries[i := entries[i].(refs := entries[i].refs - 1)];
      if entries[i].refs == 0 {
        entries := entries[i := entries[i].(state := FREE)];
        freeList := [i] + freeList;
        nfree := nfree + 1;
      }
    }

    method FreeEntries(out: seq<nat>)
      requires Good(State(), Members(out)) && Distinct(out) && nfree == |freeList|
      modifies this`entries, this`freeList, this`nfree
      ensures Good(State(), {}) && nfree == |freeList| && |entries| == |old(entries)|
      ensures DroppedAll(old(State()), State(), out)
      ensures Intact(old(entries), entries, {})
    {
      hide Good, Released, DroppedAll, Distinct;
      ghost var p := State();
      var k := 0;
      DroppedNone(p);
      assert out[0..] == out;
      while k < |out|
        invariant 0 <= k <= |out| && Good(State(), Members(out[k..]))
        invariant DroppedAll(p, State(), out[..k]) && nfree == |freeList| && |entries| == |old(entries)|
      {
        ghost var w := State();
        RestMembers(out, k);
        DroppedOk(w, out[k], Members(out[k..]));
        DroppedMore(p, w, out, k);
        Unref(out[k]);
        k := k + 1;
      }
      assert out[..k] == out;
      assert Members(out[k..]) == {};
      DroppedIntact(p, State(), out);
    }

    /** A reference to an entry in the table for someone who found it. */
    method Hold(i: nat, access: bool)
      requires i < |entries| == |holds| && Linked(entries[i])
      modifies this`entries, this`holds
      ensures |entries| == |old(entries)|
      ensures Touched(old(State()), State(), i) && SameContent(old(entries)[i], entries[i])
      ensures entries[i].refs == old(entries)[i].refs + 1 && holds == old(holds)[i := old(holds)[i] + 1]
      ensures entries[i].state == if access then Accessed(old(entries)[i].state) else old(entries)[i].state
      ensures Intact(old(entries), entries, {})
    {
      var e := entries[i];
      entries := entries[i := e.(refs := e.refs + 1, state := if access then Accessed(e.state) else e.state)];
      holds := holds[i := holds[i] + 1];
    }

    /** Find an entry and hold it. */
    method Lookup(key: Key, time: nat) returns (r: Option<nat>)
      requires Valid()
      modifies this`entries, this`buckets, this`table, this`volume, this`freeList, this`nfree, this`holds
      ensures Valid() && LessExpired(old(Items()), Items(), time, flushStamp)
      ensures r.Some? <==> Alive(old(Items()), key, time, flushStamp)
      ensures if r.Some? then Is(State(), key, r.value) else key !in Items()
      ensures OneMoreHold(old(holds), holds, r)
      ensures r.Some? ==> r.value < |old(entries)| && Counter(State(), r.value, Accessed(old(entries)[r.value].state))
      ensures Intact(old(entries), entries, {})
    {
      hide Good, TakenOut, DroppedAll, LessExpired, ItemsOf, Touched, Distinct, Swept, Bucket, Intact, TableOk;
      ghost var p := State();
      var found, b, j, out := Scan(key, time);
      ghost var w := State();
      AfterScan(p, w, out, key, time, flushStamp);
      r := None;
      if found {
        r := Some(buckets[b][j]);
        EntryFacts(w, Members(out), r.value);
        Hold(r.value, true);
        HeldOk(w, State(), r.value, Members(out));
        CounterScanned(p, w, out, r.value);
        IntactTwice(p.entries, w.entries, entries, {});
      } else {
        NoItem(w, key);
      }
      ghost var x := State();
      FreeEntries(out);
      ItemsDropped(x, State(), out);
      IntactTwice(p.entries, x.entries, entries, {});
      if r.Some? {
        StillIs(x, State(), out, key, r.value);
        CounterKept(x, State(), out, r.value, Accessed(p.entries[r.value].state));
      }
    }

    /** Finish using a found entry. */
    method Finish(i: nat)
      requires Valid() && i < |holds| && holds[i] > 0
      modifies this`entries, this`freeList, this`nfree, this`holds
      ensures |entries| == |old(entries)|
      ensures Valid() && Items() == old(Items()) && holds == old(holds)[i := old(holds)[i] - 1]
      ensures SameOthers(old(entries), entries, i)
      ensures Intact(old(entries), entries, {})
    {
      hide Good, ItemsOf;
      ghost var p := State();
      HoldSizes(p);
      UnheldOk(p, i);
      ItemsUnheld(p, i);
      Unref(i);
      holds := holds[i := holds[i] - 1];
    }

    /** Take an entry that a scan found out of the table. */
    method TakeOut(b: nat, j: nat, out: seq<nat>) returns (more: seq<nat>)
      requires b < |buckets| && j < |buckets[b]| && Good(State(), Members(out)) && Distinct(out)
      modifies this`entries, this`buckets, this`table, this`volume
      ensures |entries| == |old(entries)|
      ensures buckets != [] && more == [old(buckets)[b][j]] + out && Good(State(), Members(more)) && Distinct(more)
      ensures Took(old(State()), State(), old(buckets)[b][j]) && |table| == |old(table)| - 1
      ensures Intact(old(entries), entries, {})
    {
      hide Good, Unlinked;
      ghost var w := State();
      var i := buckets[b][j];
      UnlinkedOk(w, b, j, Members(out));
      UnlinkedTook(w, b, j, Members(out));
      TookOne(w, Unlinked(w, b, j), i);
      MoreMembers(i, out);
      NotYetOut(w, i, out);
      Unlink(b, j);
      more := [i] + out;
    }

    /** Delete a matching entry if any. */
    method Delete(key: Key, time: nat) returns (found: bool)
      requires Valid()
      modifies this`entries, this`buckets, this`table, this`volume, this`freeList, this`nfree
      ensures Valid() && key !in Items() && (found <==> Alive(old(Items()), key, time, flushStamp))
      ensures LessExpired(old(Items()) - {key}, Items(), time, flushStamp)
      ensures Intact(old(entries), entries, {})
    {
      hide Good, TakenOut, DroppedAll, LessExpired, ItemsOf, Distinct, Took, Swept, Bucket, Intact, TableOk;
      ghost var p := State();
      var b, j, out;
      found, b, j, out := Scan(key, time);
      ghost var w := State();
      AfterScan(p, w, out, key, time, flushStamp);
      if found {
        out := TakeOut(b, j, out);
        ItemsTook(w, State(), key);
        IntactTwice(p.entries, w.entries, entries, {});
      } else {
        NoItem(w, key);
      }
      ghost var x := State();
      FreeEntries(out);
      ItemsDropped(x, State(), out);
      IntactTwice(p.entries, x.entries, entries, {});
      LessExpiredWithout(ItemsOf(p), ItemsOf(w), key, time, flushStamp);
    }

    /** Put an owned entry into its bucket, with the next stamp. */
    method BucketInsert(i: nat, state: nat)
      requires i < |entries| && nparts > 0 && 0 <= Bucket(|buckets|, nparts, entries[i].key) < |buckets|
      modifies this`entries, this`buckets, this`table, this`volume, this`stamp, this`owned
      ensures State() == Inserted(old(State()), i, state)
    {
      hide Bucket;
      var b := Bucket(|buckets|, nparts, entries[i].key);
      entries := entries[i := entries[i].(state := state, stamp := stamp)];
      buckets := buckets[b := [i] + buckets[b]];
      stamp := stamp + nparts;
      volume := volume + EntrySize(entries[i]);
      table := table[entries[i].key := i];
      owned := owned - {i};
    }

    /** Put an owned entry into the table, whose key is not there. */
    method PutIn(i: nat, state: nat, out: seq<nat>)
      requires Good(State(), Members(out)) && i in owned && i < |entries| && entries[i].key !in table
      requires USED_MIN <= state <= USED_MAX
      modifies this`entries, this`buckets, this`table, this`volume, this`stamp, this`owned
      ensures |entries| == |old(entries)|
      ensures Good(State(), Members(out)) && PutItem(old(State()), State(), i, state)
      ensures owned == old(owned) - {i} && stamp == old(stamp) + nparts && Counter(State(), i, state)
      ensures ItemsOf(State()) == ItemsOf(old(State()))[old(entries)[i].key := NewItem(old(entries)[i], old(stamp))]
      ensures Intact(old(entries), entries, {i})
    {
      hide Good, PutItem, ItemsOf, Bucket;
      ghost var w := State();
      InsertedOk(w, i, state, Members(out));
      ItemsInserted(w, i, state, Members(out));
      BucketInsert(i, state);
    }

    /** Abandon a new entry. */
    method Cancel(i: nat)
      requires Valid() && i in owned
      modifies this`entries, this`freeList, this`nfree, this`owned
      ensures |entries| == |old(entries)|
      ensures Valid() && Items() == old(Items()) && owned == old(owned) - {i} && SameOthers(old(entries), entries, i)
      ensures Intact(old(entries), entries, {})
    {
      hide Good, ItemsOf;
      ghost var p := State();
      CancelledOk(p, i);
      ItemsCancelled(p, i);
      entries := entries[i := entries[i].(state := FREE)];
      freeList := [i] + freeList;
      nfree := nfree + 1;
      owned := owned - {i};
    }

    /** Insert a new entry unless its key is there. */
    method Insert(i: nat, time: nat) returns (ok: bool)
      requires Valid() && i in owned && i < |entries|
      modifies this
      ensures Valid() && owned == old(owned) - {i} && holds == old(holds) && flushStamp == old(flushStamp)
      ensures ok <==> !Alive(old(Items()), old(entries)[i].key, time, flushStamp)
      ensures if ok then Puts(old(Items()), Items(), old(entries)[i], old(stamp), time, flushStamp)
              && stamp == old(stamp) + nparts
              else LessExpired(old(Items()), Items(), time, flushStamp) && stamp == old(stamp)
      ensures ok ==> Counter(State(), i, USED_MIN)
      ensures Intact(old(entries), entries, {i})
    {
      hide Good, TakenOut, DroppedAll, LessExpired, ItemsOf, Distinct, PutItem, Counter, Intact, Puts, Swept, Bucket;
      ghost var p := State();
      var found, b, j, out := Scan(entries[i].key, time);
      ghost var w := State();
      AfterScan(p, w, out, p.entries[i].key, time, flushStamp);
      OwnedKept(p, w, out, i);
      ok := !found;
      if !found {
        PutIn(i, USED_MIN, out);
        NoItem(w, p.entries[i].key);
        PutsItem(ItemsOf(p), ItemsOf(w), p.entries[i], p.stamp, time, flushStamp);
        IntactTwice(p.entries, w.entries, entries, {i});
      }
      ghost var x := State();
      FreeEntries(out);
      ItemsDropped(x, State(), out);
      IntactTwice(p.entries, x.entries, entries, {i});
      if found {
        ghost var y := State();
        Cancel(i);
        IntactTwice(p.entries, y.entries, entries, {i});
      } else {
        CounterKept(x, State(), out, i, USED_MIN);
      }
    }

    /** Take the entry at a position of its bucket out of the table and put i in its place. */
    method Exchange(b: nat, j: nat, i: nat, state: nat, out: seq<nat>) returns (more: seq<nat>)
      requires Good(State(), Members(out)) && Distinct(out) && i in owned && i < |entries| && !Linked(entries[i])
      requires b < |buckets| && j < |buckets[b]| && Is(State(), entries[i].key, buckets[b][j])
      requires USED_MIN <= state <= USED_MAX
      modifies this`entries, this`buckets, this`table, this`volume, this`stamp, this`owned
      ensures |entries| == |old(entries)| && Intact(old(entries), entries, {i})
      ensures owned == old(owned) - {i} && stamp == old(stamp) + nparts && Counter(State(), i, state)
      ensures Good(State(), Members(more)) && Distinct(more)
      ensures var k := old(entries)[i].key;
              ItemsOf(State()) == (ItemsOf(old(State())) - {k})[k := NewItem(old(entries)[i], old(stamp))]
    {
      hide Good, ItemsOf, Distinct, PutItem, Took, Intact, TableOk;
      ghost var w := State();
      GoodTable(w, Members(out));
      more := TakeOut(b, j, out);
      ItemsTook(w, State(), w.entries[i].key);
      TookOther(w, State(), w.entries[i].key, i);
      ghost var y := entries;
      PutIn(i, state, more);
      IntactTwice(w.entries, y, entries, {i});
    }

    /** Either replace a matching entry or insert a new one. */
    method Upsert(i: nat, time: nat)
      requires Valid() && i in owned && i < |entries|
      modifies this
      ensures Valid() && owned == old(owned) - {i} && holds == old(holds) && flushStamp == old(flushStamp)
      ensures Puts(old(Items()), Items(), old(entries)[i], old(stamp), time, flushStamp) && stamp == old(stamp) + nparts
      ensures Counter(State(), i, USED_MIN)
      ensures Intact(old(entries), entries, {i})
    {
      hide Good, TakenOut, DroppedAll, LessExpired, ItemsOf, Distinct, PutItem, Intact, TableOk, Puts, Counter;
      hide Swept, Bucket;
      ghost var p := State();
      ghost var key := entries[i].key;
      var found, b, j, out := Scan(entries[i].key, time);
      ghost var w := State();
      AfterScan(p, w, out, key, time, flushStamp);
      OwnedKept(p, w, out, i);
      if found {
        out := Exchange(b, j, i, USED_MIN, out);
      } else {
        PutIn(i, USED_MIN, out);
      }
      PutsItem(ItemsOf(p), ItemsOf(w), p.entries[i], p.stamp, time, flushStamp);
      IntactTwice(p.entries, w.entries, entries, {i});
      ghost var x := State();
      FreeEntries(out);
      ItemsDropped(x, State(), out);
      IntactTwice(p.entries, x.entries, entries, {i});
      CounterKept(x, State(), out, i, USED_MIN);
    }

    /** Replace a matching entry if any; s is the stamp it must have, or zero. */
    method Update(i: nat, s: nat, time: nat) returns (ok: bool)
      requires Valid() && i in owned && i < |entries|
      modifies this
      ensures Valid() && owned == old(owned) - {i} && holds == old(holds) && flushStamp == old(flushStamp)
      ensures ok <==> Alive(old(Items()), old(entries)[i].key, time, flushStamp)
                      && HasStamp(old(Items()), old(entries)[i].key, s)
      ensures if ok then Puts(old(Items()), Items(), old(entries)[i], old(stamp), time, flushStamp)
              && stamp == old(stamp) + nparts
              else LessExpired(old(Items()), Items(), time, flushStamp) && stamp == old(stamp)
      ensures ok ==> InheritsCounter(old(State()), State(), old(entries)[i].key, i)
      ensures Intact(old(entries), entries, {i})
    {
      hide Good, TakenOut, DroppedAll, LessExpired, ItemsOf, Distinct, HasStamp, Intact, TableOk, Puts, Counter;
      hide Swept, Bucket;
      ghost var p := State();
      ghost var key := entries[i].key;
      var found, b, j, out := Scan(entries[i].key, time);
      ghost var w := State();
      AfterScan(p, w, out, key, time, flushStamp);
      OwnedKept(p, w, out, i);
      ok := found && (s == 0 || entries[buckets[b][j]].stamp == s);
      if found {
        FoundStamp(p, w, out, key, s);
      }
      var state := 0;
      if ok {
        // The new entry inherits the access counter, and counts as accessed.
        var o := buckets[b][j];
        ScannedIs(p, w, out, key, o);
        state := Accessed(entries[o].state);
        out := Exchange(b, j, i, state, out);
        assert Is(p, key, o) && Counter(State(), i, Accessed(p.entries[o].state));
        PutsItem(ItemsOf(p), ItemsOf(w), p.entries[i], p.stamp, time, flushStamp);
        IntactTwice(p.entries, w.entries, entries, {i});
      }
      ghost var x := State();
      FreeEntries(out);
      ItemsDropped(x, State(), out);
      IntactTwice(p.entries, x.entries, entries, {i});
      if ok {
        CounterKept(x, State(), out, i, state);
      } else {
        ghost var z := entries;
        Cancel(i);
        IntactTwice(p.entries, z, entries, {i});
      }
    }

    /** The owner of a new entry writes its data. */
    method Write(i: nat, value: seq<char>, flags: nat, exp: nat, ghost pending: set<nat>)
      requires Good(State(), pending) && i in owned
      modifies this`entries
      ensures |entries| == |old(entries)|
      ensures Good(State(), pending) && Items() == old(Items()) && i < |old(entries)|
      ensures entries == old(entries)[i := old(entries)[i].(value := value, flags := flags, exp := exp)]
      ensures Intact(old(entries), entries, {i})
    {
      hide Good, ItemsOf;
      ghost var p := State();
      WrittenOk(p, i, value, flags, exp, pending);
      ItemsWritten(p, i, value, flags, exp, pending);
      entries := entries[i := entries[i].(value := value, flags := flags, exp := exp)];
    }

    /** Replace the entry with stamp s; if there is another one for the key then hold it. */
    method Replace(i: nat, s: nat, flags: nat, exp: nat, time: nat) returns (ok: bool, other: Option<nat>)
      requires Valid() && i in owned && i < |entries|
      modifies this
      ensures Valid() && flushStamp == old(flushStamp)
      ensures ok <==> Alive(old(Items()), old(entries)[i].key, time, flushStamp)
                      && HasStamp(old(Items()), old(entries)[i].key, s)
      ensures if ok
              then Puts(old(Items()), Items(), old(entries)[i].(flags := flags, exp := exp), old(stamp), time, flushStamp)
              else LessExpired(old(Items()), Items(), time, flushStamp)
      ensures stamp == if ok then old(stamp) + nparts else old(stamp)
      ensures ok ==> InheritsCounter(old(State()), State(), old(entries)[i].key, i)
      ensures other.Some? <==> !ok && Alive(old(Items()), old(entries)[i].key, time, flushStamp)
      ensures owned == if other.Some? then old(owned) else old(owned) - {i}
      ensures OneMoreHold(old(holds), holds, other)
      ensures other.Some? ==> Is(State(), old(entries)[i].key, other.value)
      ensures Intact(old(entries), entries, {i})
    {
      hide Good, TakenOut, DroppedAll, LessExpired, ItemsOf, Distinct, HasStamp, Intact, TableOk, Puts, Counter;
      hide Swept, Bucket;
      ghost var p := State();
      ghost var key := entries[i].key;
      var found, b, j, out := Scan(entries[i].key, time);
      ghost var w := State();
      AfterScan(p, w, out, key, time, flushStamp);
      OwnedKept(p, w, out, i);
      var state := 0;
      ok, other := found && (s == 0 || entries[buckets[b][j]].stamp == s), None;
      if found {
        FoundStamp(p, w, out, key, s);
      }
      if ok {
        var o := buckets[b][j];
        ScannedIs(p, w, out, key, o);
        state := Accessed(entries[o].state);
        out := ExchangeInheriting(b, j, i, state, flags, exp, out);
        assert Is(p, key, o) && Counter(State(), i, Accessed(p.entries[o].state));
        PutsItem(ItemsOf(p), ItemsOf(w), p.entries[i].(flags := flags, exp := exp), p.stamp, time, flushStamp);
      } else if found {
        other := HoldFound(b, j, key, time, out);
      }
      if found {
        IntactTwice(p.entries, w.entries, entries, {i});
      }
      ghost var x := State();
      FreeEntries(out);
      ItemsDropped(x, State(), out);
      IntactTwice(p.entries, x.entries, entries, {i});
      if ok {
        CounterKept(x, State(), out, i, state);
      }
      if other.Some? {
        StillIs(x, State(), out, key, other.value);
      }
      if !found {
        ghost var z := entries;
        Cancel(i);
        IntactTwice(p.entries, z, entries, {i});
      }
    }

    method HoldFound(b: nat, j: nat, ghost key: Key, ghost time: nat, ghost out: seq<nat>) returns (other: Option<nat>)
      requires Good(State(), Members(out)) && b < |buckets| && j < |buckets[b]|
      requires Hit(State(), buckets[b][j], key, time, flushStamp)
      modifies this`entries, this`holds
      ensures Good(State(), Members(out)) && Items() == old(Items()) && |entries| == |old(entries)|
      ensures other.Some? && Is(State(), key, other.value) && OneMoreHold(old(holds), holds, other)
      ensures Intact(old(entries), entries, {})
    {
      hide Good, ItemsOf, Intact, Touched;
      ghost var w := State();
      other := Some(buckets[b][j]);
      EntryFacts(w, Members(out), other.value);
      Hold(other.value, false);
      HeldOk(w, State(), other.value, Members(out));
      HitIs(w, State(), other.value, key, time, flushStamp);
    }

    method ExchangeInheriting(b: nat, j: nat, i: nat, state: nat, flags: nat, exp: nat,
        out: seq<nat>) returns (more: seq<nat>)
      requires Good(State(), Members(out)) && Distinct(out) && i in owned && i < |entries| && !Linked(entries[i])
      requires b < |buckets| && j < |buckets[b]| && Is(State(), entries[i].key, buckets[b][j])
      requires USED_MIN <= state <= USED_MAX
      modifies this`entries, this`buckets, this`table, this`volume, this`stamp, this`owned
      ensures |entries| == |old(entries)| && Intact(old(entries), entries, {i})
      ensures owned == old(owned) - {i} && stamp == old(stamp) + nparts && Counter(State(), i, state)
      ensures Good(State(), Members(more)) && Distinct(more)
      ensures ItemsOf(State()) == (ItemsOf(old(State())) - {old(entries)[i].key})
                [old(entries)[i].key := NewItem(old(entries)[i].(flags := flags, exp := exp), old(stamp))]
    {
      hide Good, ItemsOf, Distinct, Intact;
      ghost var y := entries;
      Write(i, entries[i].value, flags, exp, Members(out));
      ghost var z := entries;
      more := Exchange(b, j, i, state, out);
      IntactTwice(y, z, entries, {i});
    }

    /** Replace an entry with stamp s.  The new entry i inherits the flags and the expiration time
        of entry o, which a lookup of the same key has found.  If the stamp is that of o then o
        itself is replaced, or nothing.  If there is another entry now then it is held instead. */
    method Alter(i: nat, o: nat, s: nat, time: nat) returns (ok: bool, other: Option<nat>)
      requires Valid() && i in owned && i < |entries| == |holds|
      requires o < |holds| && holds[o] > 0 && entries[o].key == entries[i].key
      modifies this
      ensures Valid() && flushStamp == old(flushStamp)
      ensures ok <==> Alive(old(Items()), old(entries)[i].key, time, flushStamp)
                      && HasStamp(old(Items()), old(entries)[i].key, s)
      ensures s == old(entries)[o].stamp ==>
                (ok <==> Alive(old(Items()), old(entries)[i].key, time, flushStamp)
                         && Is(old(State()), old(entries)[i].key, o))
      ensures if ok
              then Puts(old(Items()), Items(), Inheriting(old(entries)[i], old(entries)[o]), old(stamp), time, flushStamp)
              else LessExpired(old(Items()), Items(), time, flushStamp)
      ensures stamp == if ok then old(stamp) + nparts else old(stamp)
      ensures other.Some? <==> !ok && Alive(old(Items()), old(entries)[i].key, time, flushStamp)
      ensures owned == if other.Some? then old(owned) else old(owned) - {i}
      ensures OneMoreHold(old(holds)[o := old(holds)[o] - 1], holds, other)
      ensures other.Some? ==> Is(State(), old(entries)[i].key, other.value)
      ensures Intact(old(entries), entries, {i})
    {
      hide Good, LessExpired, ItemsOf, HasStamp, Is, Puts, Alive;
      ghost var p := State();
      var flags, exp := entries[o].flags, entries[o].exp;
      AlterFacts(p, i, o);
      Finish(o);
      ok, other := Replace(i, s, flags, exp, time);
    }

    // ----- Eviction -----------------------------------------------------------------------------

    /** The position of a linked entry in its bucket. */
    method FindInBucket(i: nat, ghost pending: set<nat>) returns (b: nat, j: nat)
      requires Good(State(), pending) && i < |entries| && Linked(entries[i])
      ensures b < |buckets| && j < |buckets[b]| && buckets[b][j] == i
    {
      hide Good, Bucket;
      IsInBucket(State(), i, pending);
      b := Bucket(|buckets|, nparts, entries[i].key);
      j := 0;
      while buckets[b][j] != i
        invariant j < |buckets[b]| && i in buckets[b][j..]
        decreases |buckets[b]| - j
      {
        j := j + 1;
      }
    }

    /** Visit the entry under the clock hand. */
    method Visit(h: nat, time: nat, out: seq<nat>) returns (more: seq<nat>)
      requires Good(State(), Members(out)) && Distinct(out) && h < |entries|
      modifies this`entries, this`buckets, this`table, this`volume
      ensures Good(State(), Members(more)) && Distinct(more)
      ensures entries == old(entries)[h := Cooled(old(entries)[h], 1, IsExpired(old(entries)[h], time, flushStamp))]
      ensures more == if Linked(old(entries)[h]) && !Linked(entries[h]) then [h] + out else out
      ensures |table| + |more| == |old(table)| + |out|
    {
      hide Good, Took, Distinct, ItemsOf;
      more := out;
      if Linked(entries[h]) {
        if entries[h].state == USED_MIN || IsExpired(entries[h], time, flushStamp) {
          var b, j := FindInBucket(h, Members(out));
          ghost var w := State();
          more := TakeOut(b, j, out);
          TookEntries(w, State(), h);
        } else {
          ghost var w := State();
          EntryFacts(w, Members(out), h);
          entries := entries[h := entries[h].(state := entries[h].state - 1)];
          HeldOk(w, State(), h, Members(out));
        }
      }
    }

    /** Visit the entry under the clock hand in a scan of the pool p. */
    method VisitNext(h: nat, time: nat, out: seq<nat>, ghost p: seq<Entry>, ghost start: nat, ghost steps: nat)
      returns (more: seq<nat>)
      requires Good(State(), Members(out)) && Distinct(out) && h < |entries| == |p|
      requires AllCooled(p, entries, start, steps, time, flushStamp) && Victims(p, entries, out)
      requires start <= |p| && start + steps < 2 * |p| && HandAt(start, steps, |p|) == h
      modifies this`entries, this`buckets, this`table, this`volume
      ensures Good(State(), Members(more)) && Distinct(more) && |entries| == |p| && |more| <= |out| + 1
      ensures AllCooled(p, entries, start, steps + 1, time, flushStamp) && Victims(p, entries, more)
      ensures |table| + |more| == |old(table)| + |out|
    {
      hide Good, Distinct, AllCooled, Victims, Cooled, IsExpired, HandAt, Members;
      ghost var before := entries;
      more := Visit(h, time, out);
      CooledMore(p, before, entries, out, more, start, steps, time, flushStamp);
    }

    /** Pick up to n victims.  From the first entry visited on, the hand goes to the end of the
        pool, and once more over the whole pool unless it began at the end.  With fewer victims
        than asked for, every entry was visited. */
    method FindVictims(n: nat, time: nat) returns (out: seq<nat>, ghost start: nat, ghost steps: nat)
      requires Good(State(), {}) && 0 < |entries| && clockHand <= |entries|
      modifies this`entries, this`buckets, this`table, this`volume, this`clockHand
      ensures Good(State(), Members(out)) && Distinct(out) && |out| <= n && |table| + |out| == |old(table)|
      ensures |entries| == |old(entries)| && clockHand <= |entries|
      ensures start == (if old(clockHand) == |entries| then 0 else old(clockHand)) && start + steps <= 2 * |entries|
      ensures AllCooled(old(entries), entries, start, steps, time, flushStamp) && Victims(old(entries), entries, out)
      ensures |out| < n ==> AllVisited(start, steps, |entries|)
      ensures HandIs(old(State()), old(clockHand), steps, clockHand)
      ensures |out| < n ==> HandAfter(|entries|, old(clockHand), steps + 1).None?
    {
      hide Good, Distinct, AllCooled, Victims, Cooled, IsExpired, AllVisited, HandAt, HandAfter, Members;
      out, steps := [], 0;
      ghost var p := entries;
      start := if clockHand == |entries| then 0 else clockHand;
      CooledNone(p, start, time, flushStamp);
      HandAfterIs(|p|, clockHand, 0);
      var end := false;
      while |out| < n
        invariant Good(State(), Members(out)) && Distinct(out) && |out| <= n && |table| + |out| == |old(table)|
        invariant |entries| == |p| && clockHand <= |p| && start <= |p| && start + steps <= 2 * |p|
        invariant HandAfter(|p|, old(clockHand), steps) == Some(Hand(clockHand, end))
        invariant AllCooled(p, entries, start, steps, time, flushStamp) && Victims(p, entries, out)
        decreases !end, |entries| - clockHand
      {
        var hand := clockHand;
        ghost var over := end;
        if hand == |entries| {
          if end {
            break;
          }
          end := true;
          hand := 0;
        }
        HandNext(old(clockHand), clockHand, over, hand, end, start, steps, |p|);
        out := VisitNext(hand, time, out, p, start, steps);
        steps := steps + 1;
        clockHand := hand + 1;
      }
      if |out| < n {
        RoundDone(old(clockHand), start, steps, |p|);
      }
    }

    /** Scan for up to n victims and drop them. */
    method EvictSome(n: nat, time: nat) returns (ghost start: nat, ghost steps: nat)
      requires Valid() && 0 < |entries|
      modifies this`entries, this`buckets, this`table, this`volume, this`clockHand, this`freeList, this`nfree
      ensures Valid() && |entries| == |old(entries)| && Intact(old(entries), entries, {})
      ensures start < |entries| && start + steps <= 2 * |entries|
      ensures Evicted(old(State()), State(), start, steps, time, flushStamp) && |old(table)| - n <= |table|
      ensures |table| == |old(table)| - n || AllVisited(start, steps, |entries|)
      ensures n > 0 && (exists i :: 0 <= i < |old(entries)| && Linked(old(entries)[i]))
              ==> Heat(entries) < Heat(old(entries))
      ensures HandIs(old(State()), old(clockHand), steps, clockHand)
    {
      hide Good, Distinct, AllCooled, DroppedAll, Intact, Evicted, Passes, AllVisited, Victims, IsExpired, Heat, HandIs;
      ghost var p := State();
      var out;
      out, start, steps := FindVictims(n, time);
      ghost var w := State();
      FreeEntries(out);
      EvictedOk(p, w, State(), out, start, steps, time, flushStamp);
      CooledIntact(p.entries, w.entries, start, steps, time, flushStamp);
      IntactTwice(p.entries, w.entries, entries, {});
      CooledHeat(p.entries, w.entries, start, steps, time, flushStamp);
      DroppedHeat(w, State(), out);
      if out != [] {
        FirstVictim(p.entries, w.entries, out);
      }
    }

    /** Evict some entries, as the total size of the entries is over its limit. */
    method Evict(time: nat) returns (ghost start: nat, ghost steps: nat)
      requires Valid() && 0 < |entries|
      modifies this`entries, this`buckets, this`table, this`volume, this`clockHand, this`freeList, this`nfree
      ensures Valid() && Intact(old(entries), entries, {}) && start + steps <= 2 * |entries|
      ensures HandIs(old(State()), old(clockHand), steps, clockHand)
      ensures Evicted(old(State()), State(), start, steps, time, flushStamp) && |old(table)| - 32 <= |table|
      ensures |table| == |old(table)| - 32 || AllVisited(start, steps, |entries|)
      ensures |entries| == |old(entries)| && ((exists i :: 0 <= i < |old(entries)| && Linked(old(entries)[i]))
                                              ==> Heat(entries) < Heat(old(entries)))
    {
      hide Good, Intact, Evicted, AllVisited;
      start, steps := EvictSome(32, time);
    }

    /** The eviction task: evict until there is the given reserve below the limit.  It is posted when
        the volume is over the limit, so that the pool is not empty.  The result tells if it ends;
        with a reserve above the limit the code goes on for ever. */
    method EvictTask(limit: nat, reserve: nat, clock: nat -> nat) returns (ends: bool, ghost last: Part)
      requires Valid() && 0 < |entries|
      modifies this`entries, this`buckets, this`table, this`volume, this`clockHand, this`freeList, this`nfree
      ensures Valid() && ends == (reserve <= limit) && (ends ==> !Due(volume, limit, reserve))
      ensures ends && old(Due(volume, limit, reserve)) ==>
                Due(last.volume, limit, reserve) && LastRound(last, State()) && SubMap(old(Items()), ItemsOf(last))
      ensures SubMap(old(Items()), Items()) && Intact(old(entries), entries, {}) && stamp == old(stamp)
      ensures !old(Due(volume, limit, reserve)) ==> Items() == old(Items())
    {
      hide Good, Intact, Evicted, ItemsOf, SubMap, Heat, AllVisited;
      ghost var p := State();
      IntactSame(p.entries);
      SubMapSame(Items());
      if limit < reserve {
        AlwaysDue(p, limit, reserve);
        return false, p;
      }
      var k := 0;
      last := p;
      while Due(volume, limit, reserve)
        invariant Valid() && |entries| == |p.entries| && holds == p.holds && owned == p.owned && stamp == p.stamp
        invariant SubMap(ItemsOf(p), Items()) && Intact(p.entries, entries, {})
        invariant !old(Due(volume, limit, reserve)) ==> Items() == old(Items()) && volume == old(volume)
        invariant k == 0 ==> volume == old(volume)
        invariant k > 0 ==> Due(last.volume, limit, reserve) && LastRound(last, State())
                            && SubMap(ItemsOf(p), ItemsOf(last))
        decreases Heat(entries)
      {
        ghost var w := State();
        SomeLinked(w);
        var time := clock(k);
        ghost var start, steps := Evict(time);
        k := k + 1;
        EvictedItems(w, State(), start, steps, time, flushStamp);
        SubMapTwice(ItemsOf(p), ItemsOf(w), Items());
        IntactTwice(p.entries, w.entries, entries, {});
        last := w;
      }
      return true, last;
    }

    /** Have more void entries, up to the maximum. */
    method Expand() returns (rc: bool)
      requires Valid() && increment > 0
      modifies this`nentries, this`nvoid
      ensures Valid() && rc == (old(nentries) < nentriesMax) && (rc ==> nvoid > 0)
      ensures old(nentries) + increment <= nentriesMax ==> nentries == old(nentries) + increment
      ensures old(nentries) + increment > nentriesMax ==> nentries == nentriesMax
    {
      var n := if nentries + increment > nentriesMax then nentriesMax else nentries + increment;
      rc := n != nentries;
      nvoid := nvoid + (n - nentries);
      nentries := n;
    }

    /** Reuse a free entry, or use a void one. */
    method NewEntry(key: Key) returns (i: nat)
      requires Valid() && (freeList != [] || nvoid > 0)
      modifies this`entries, this`freeList, this`nfree, this`holds, this`owned, this`nvoid
      ensures Valid() && i < |entries| && i !in old(owned) && owned == old(owned) + {i} && entries[i].key == key
      ensures Items() == old(Items()) && Intact(old(entries), entries, {i}) && HoldsKept(old(holds), holds, i)
      ensures table == old(table) && i == if old(freeList) != [] then old(freeList)[0] else |old(entries)|
    {
      hide Good, ItemsOf;
      ghost var p := State();
      if freeList != [] {
        ReusedOk(p, key);
        ItemsReused(p, key);
        i := freeList[0];
        entries := entries[i := FreshEntry(key, entries[i].stamp)];
        freeList := freeList[1..];
        nfree := nfree - 1;
      } else {
        ExtendedOk(p, key);
        ItemsExtended(p, key);
        i := |entries|;
        entries := entries + [FreshEntry(key, 0)];
        holds := holds + [0];
        nvoid := nvoid - 1;
      }
      owned := owned + {i};
    }

    /** Create a new entry, evicting others if the pool is exhausted.  There is one exactly if the
        pool can grow or has an entry that is neither new nor held by a lookup.  Otherwise no
        result is given, where the code keeps evicting without end. */
    method Create(key: Key, time: nat) returns (r: Option<nat>)
      requires Valid() && increment > 0
      modifies this
      ensures Valid() && SubMap(old(Items()), Items()) && stamp == old(stamp) && flushStamp == old(flushStamp)
      ensures r.Some? <==> old(nvoid > 0 || nentries < nentriesMax || HasUsable(State()))
      ensures match r
              case Some(i) => i < |entries| && i !in old(owned) && owned == old(owned) + {i} && entries[i].key == key
                              && Intact(old(entries), entries, {i}) && HoldsKept(old(holds), holds, i)
              case None => owned == old(owned) && holds == old(holds) && !HasUsable(State()) && table == map[]
                           && freeList == []
                           && |entries| == nentries == nentriesMax
      ensures old(freeList != [] || nvoid > 0 || nentries < nentriesMax) ==> Items() == old(Items())
      ensures r.Some? ==> OnlyLost(old(State()), State(), r.value)
    {
      hide Good, Intact, Evicted, ItemsOf, SubMap, HoldsKept, Heat, HasUsable, Freed, OnlyLost;
      ghost var p := State();
      IntactSame(p.entries);
      SubMapSame(Items());
      FreedNone(p);
      while freeList == [] && nvoid == 0
        invariant Valid() && owned == p.owned && holds == p.holds && stamp == p.stamp && flushStamp == old(flushStamp)
        invariant SubMap(ItemsOf(p), Items()) && Intact(p.entries, entries, {}) && |entries| == |p.entries|
        invariant nvoid == old(nvoid) || (nvoid > 0 && old(nentries) < nentriesMax)
        invariant Freed(p, State())
        invariant old(freeList != [] || nvoid > 0 || nentries < nentriesMax) ==>
                    Items() == old(Items()) && (freeList != [] || nvoid > 0 || nentries < nentriesMax)
        decreases if nvoid == 0 then 1 else 0, Heat(entries)
      {
        var rc := Expand();
        if !rc {
          if forall i :: 0 <= i < |entries| ==> !Linked(entries[i]) {
            NoneLinked(State());
            NoneUsable(State());
            SameUsable(p, State());
            return None;
          }
          ghost var w := State();
          ghost var start, steps := EvictSome(1, time);
          FreedOne(p, w, State(), start, steps, time, flushStamp);
          EvictedItems(w, State(), start, steps, time, flushStamp);
          SubMapTwice(ItemsOf(p), ItemsOf(w), Items());
          IntactTwice(p.entries, w.entries, entries, {});
        }
      }
      ghost var w := State();
      SameUsable(p, w);
      if freeList != [] {
        FreeIsUsable(w);
      }
      var i := NewEntry(key);
      IntactTwice(p.entries, w.entries, entries, {i});
      FreedLost(p, w, State(), i);
      return Some(i);
    }

    /** Entries that are created and neither stored nor abandoned exhaust every pool, up to the
        maximum number of entries; then a further creation does not end. */
    method Exhaust(key: Key, time: nat)
      requires Valid() && increment > 0
      modifies this
      ensures Valid() && |entries| == nentries == nentriesMax && !HasUsable(State())
    {
      hide Good, HasUsable, SubMap, HoldsKept, Intact, ItemsOf;
      var r := Create(key, time);
      while r.Some?
        invariant Valid()
        invariant r.None? ==> |entries| == nentries == nentriesMax && !HasUsable(State())
        decreases r.Some?, nentriesMax - |owned|
      {
        OwnedBound(State());
        r := Create(key, time);
      }
    }

    /** Flush: every entry that is in the table now counts as expired from now on. */
    method Flush()
      requires Valid()
      modifies this`flushStamp
      ensures Valid() && Items() == old(Items()) && forall key, time :: !Alive(Items(), key, time, flushStamp)
    {
      hide Good, ItemsOf;
      flushStamp := stamp;
      AllFlushed(State());
    }

    // ----- Growth ---------------------------------------------------------------------------------

    /** Split a bucket by the index that its entries have for twice the power of two. */
    method SplitBucket(source: nat, n: nat) returns (s: seq<nat>, t: seq<nat>)
      requires nparts > 0 && source < |buckets| && Distinct(buckets[source])
      requires forall i :: i in buckets[source] ==> i < |entries|
      ensures Splits(State(), buckets[source], s, t, source, n)
    {
      hide LowBits, HashOf;
      s, t := [], [];
      var list := buckets[source];
      var k := 0;
      while k < |list|
        invariant 0 <= k <= |list| && Splits(State(), list[..k], s, t, source, n)
      {
        var i := list[k];
        assert i in buckets[source] && i !in list[..k];
        assert list[..k + 1] == list[..k] + [i];
        if LowBits(HashOf(entries[i].key, nparts), n) == source {
          s := [i] + s;
        } else {
          t := [i] + t;
        }
        k := k + 1;
      }
      assert list[..k] == list;
    }

    /** Grow the table by 64 buckets.  The table stays valid exactly if no entry in it is misplaced;
        none is if the stride fits, and a misplaced one is not in the bucket to look for it. */
    method Stride()
      requires Valid()
      modifies this`buckets
      ensures Items() == old(Items()) && |buckets| == |old(buckets)| + STRIDE && nparts > 0
      ensures Valid() <==> AllPlaced(State(), |old(buckets)|)
      ensures Fits(|old(buckets)|) ==> Valid()
      ensures forall i :: 0 <= i < |entries| && Linked(entries[i]) ==>
                (InBucket(State(), i) <==> !Misplaced(|old(buckets)|, HashOf(entries[i].key, nparts)))
    {
      hide Good, LowerPow2, Distinct, Strided, Splits, AllPlaced, Misplaced, InBucket, HashOf;
      ghost var p := State();
      StrideFacts(p);
      var used := |buckets|;
      var half := LowerPow2(used);
      buckets := buckets + seq(STRIDE, _ => []);
      var source, target := used - half, used;
      var count := 0;
      while count < STRIDE
        invariant 0 <= count <= STRIDE && source == used - half + count && target == used + count
        invariant |buckets| == used + STRIDE && Strided(p, buckets, used, count)
      {
        StrideBucket(p, buckets, used, count, source);
        var s, t := SplitBucket(source, 2 * half);
        SplitsSame(p, State(), buckets[source], s, t, source, 2 * half);
        StrideStep(p, buckets, used, count, s, t);
        buckets := buckets[source := s][target := t];
        source, target, count := source + 1, target + 1, count + 1;
      }
      StridedGood(p, State());
    }
  }

  lemma StrideFacts(p: Part)
    requires Good(p, {})
    ensures p.nparts > 0 && |p.buckets| > 0 && LowerPow2(|p.buckets|) <= |p.buckets|
    ensures Strided(p, p.buckets + seq(STRIDE, _ => []), |p.buckets|, 0)
  {
    hide Strided;
    StrideBegins(p);
  }

  lemma StrideBucket(p: Part, buckets: seq<seq<nat>>, used: nat, count: nat, b: nat)
    requires p.nparts > 0 && Strided(p, buckets, used, count) && b < |buckets|
    ensures Distinct(buckets[b]) && forall i :: i in buckets[b] ==> i < |p.entries|
  {
    hide Distinct, Where;
    assert HasAll(p, buckets[b], used, count, b);
    forall i | i in buckets[b] ensures i < |p.entries| {
      assert Goes(p, i, used, count, b);
    }
  }

  lemma SplitsSame(p: Part, w: Part, bucket: seq<nat>, s: seq<nat>, t: seq<nat>, source: nat, n: nat)
    requires p.nparts > 0 && w == p.(buckets := w.buckets) && Splits(w, bucket, s, t, source, n)
    ensures Splits(p, bucket, s, t, source, n)
  {
    hide Distinct, LowBits, HashOf;
    assert forall i: nat :: HasIndex(p, i, n, source) <==> HasIndex(w, i, n, source);
  }

  lemma StridedGood(p: Part, w: Part)
    requires Good(p, {}) && p.nparts > 0 && w == p.(buckets := w.buckets)
    requires Strided(p, w.buckets, |p.buckets|, STRIDE)
    ensures ItemsOf(w) == ItemsOf(p) && (Good(w, {}) <==> AllPlaced(w, |p.buckets|))
    ensures Fits(|p.buckets|) ==> Good(w, {})
    ensures forall i :: 0 <= i < |w.entries| && Linked(w.entries[i]) ==>
              (InBucket(w, i) <==> !Misplaced(|p.buckets|, HashOf(w.entries[i].key, w.nparts)))
  {
    hide Volume, StampOf, Bucket, InBucket, Misplaced, HashOf, Fits;
    assert |p.buckets| > 0;
    StridedOk(p, w);
    hide BucketsOk, Strided;
    forall i | 0 <= i < |w.entries| ensures EntryOk(w, i, {}) {
      assert EntryOk(p, i, {});
    }
    forall i | 0 <= i < |w.entries| ensures Stamped(w, i) <==> Stamped(p, i) {}
    if Fits(|p.buckets|) {
      forall i | 0 <= i < |p.entries| && Linked(p.entries[i])
        ensures !Misplaced(|p.buckets|, HashOf(p.entries[i].key, p.nparts))
      {
        StrideIndex(|p.buckets|, HashOf(p.entries[i].key, p.nparts));
      }
    }
  }

  lemma EmptyGood(p: Part)
    requires p.entries == [] && p.freeList == [] && p.holds == [] && p.owned == {} && p.table == map[] && p.volume == 0
    requires p.id < p.nparts && p.stamp == p.id + 1 && |p.buckets| > 0
    requires forall b :: 0 <= b < |p.buckets| ==> p.buckets[b] == []
    ensures Good(p, {}) && ItemsOf(p) == map[]
  {}

  lemma AllFlushed(p: Part)
    requires Good(p, {})
    ensures forall key, time :: !Alive(ItemsOf(p), key, time, p.stamp)
  {
    hide BucketsOk, FreeOk, Volume, StampOf;
    forall key | key in ItemsOf(p) ensures ItemsOf(p)[key].stamp < p.stamp {
      assert EntryOk(p, p.table[key], {});
      assert Stamped(p, p.table[key]);
    }
  }

  // ----- When an entry can be created ------------------------------------------------------------------

  /** An entry that is neither new nor held: it is free, or it gets free when it is evicted. */
  ghost predicate HasUsable(p: Part)
  {
    exists i :: 0 <= i < |p.entries| && i < |p.holds| && p.holds[i] == 0 && i !in p.owned
  }

  /** Eviction does not change holders and owners, and so not what is usable. */
  lemma SameUsable(p: Part, w: Part)
    requires w.holds == p.holds && w.owned == p.owned && |w.entries| == |p.entries|
    ensures HasUsable(w) <==> HasUsable(p)
  {}

  /** One round of eviction leads from one state to the other: 32 entries are lost at most. */
  ghost predicate LastRound(p: Part, w: Part)
  {
    SubMap(ItemsOf(p), ItemsOf(w)) && |p.table| - 32 <= |w.table|
  }

  /** Of the entries that left the table and that nobody holds, there is only the given one. */
  ghost predicate OnlyLost(p: Part, w: Part, i: nat)
  {
    forall k :: k in p.table && k !in w.table && p.table[k] < |p.holds| && p.holds[p.table[k]] == 0 ==> p.table[k] == i
  }

  /** An entry that left the table and that nobody holds is the only free one. */
  ghost predicate Freed(p: Part, w: Part)
  {
    && (forall k :: k in w.table ==> k in p.table && w.table[k] == p.table[k])
    && forall k :: k in p.table && k !in w.table && p.table[k] < |p.holds| && p.holds[p.table[k]] == 0 ==>
         w.freeList == [p.table[k]]
  }

  lemma FreedNone(p: Part)
    ensures Freed(p, p)
  {}

  lemma FreedLost(p: Part, w: Part, x: Part, i: nat)
    requires Freed(p, w) && x.table == w.table && (w.freeList != [] ==> i == w.freeList[0])
    ensures OnlyLost(p, x, i)
  {}

  /** Evicting one entry without free entries frees at most one. */
  lemma FreedOne(p: Part, w: Part, x: Part, start: nat, steps: nat, time: nat, flushStamp: nat)
    requires Freed(p, w) && w.freeList == [] && w.holds == p.holds && Good(w, {}) && Good(x, {})
    requires Evicted(w, x, start, steps, time, flushStamp) && |w.table| - 1 <= |x.table|
    ensures Freed(p, x)
  {
    hide Good, Stays;
    forall k | k in p.table && k !in x.table && p.table[k] < |p.holds| && p.holds[p.table[k]] == 0
      ensures x.freeList == [p.table[k]]
    {
      assert k in w.table;
      LostIsFree(w, x, k);
      forall j | 0 <= j < |x.freeList| ensures x.freeList[j] == p.table[k] {
        var c := FreeWasLost(w, x, x.freeList[j]);
        if c != k {
          TwoLost(w.table, x.table, c, k);
        }
      }
      FreeDistinct(x);
      OnlyElement(x.freeList, p.table[k]);
    }
  }

  lemma FreeDistinct(p: Part)
    requires Good(p, {})
    ensures Distinct(p.freeList)
  {}

  lemma OnlyElement(q: seq<nat>, x: nat)
    requires Distinct(q) && x in q && forall j :: 0 <= j < |q| ==> q[j] == x
    ensures q == [x]
  {
    FirstTwoDiffer(q);
  }

  lemma FirstTwoDiffer(q: seq<nat>)
    requires Distinct(q)
    ensures |q| >= 2 ==> q[0] != q[1]
  {}

  lemma TwoLost(a: map<Key, nat>, b: map<Key, nat>, c: Key, k: Key)
    requires (forall x :: x in b ==> x in a) && c in a && k in a && c !in b && k !in b && c != k
    ensures |b| <= |a| - 2
  {
    SubsetSize(b.Keys, a.Keys - {c} - {k});
    assert |b| == |b.Keys| && |a| == |a.Keys|;
  }

  lemma SubsetSize(a: set<Key>, b: set<Key>)
    requires a <= b
    ensures |a| <= |b|
  {
    assert b == a + (b - a);
  }

  lemma LostIsFree(p: Part, w: Part, k: Key)
    requires Good(p, {}) && Good(w, {}) && w.holds == p.holds && w.owned == p.owned && |w.entries| == |p.entries|
    requires forall c :: c in w.table ==> c in p.table && w.table[c] == p.table[c]
    requires k in p.table && k !in w.table && p.table[k] < |p.holds| && p.holds[p.table[k]] == 0
    ensures p.table[k] in w.freeList
  {
    hide BucketsOk, StampsOk, Volume;
    assert EntryOk(p, p.table[k], {}) && EntryOk(w, p.table[k], {});
  }

  lemma FreeWasLost(p: Part, w: Part, i: nat) returns (k: Key)
    requires Good(p, {}) && Good(w, {}) && w.holds == p.holds && w.owned == p.owned && |w.entries| == |p.entries|
    requires forall c :: c in w.table ==> c in p.table && w.table[c] == p.table[c]
    requires p.freeList == [] && i in w.freeList
    ensures k in p.table && p.table[k] == i && k !in w.table
  {
    hide BucketsOk, StampsOk, Volume;
    assert i < |w.entries| && w.entries[i].state == FREE;
    assert EntryOk(w, i, {}) && EntryOk(p, i, {});
    k := p.entries[i].key;
  }

  lemma FreeIsUsable(p: Part)
    requires Good(p, {}) && p.freeList != []
    ensures HasUsable(p)
  {
    hide BucketsOk, StampsOk, Volume;
    var i := p.freeList[0];
    assert EntryOk(p, i, {});
  }

  lemma NoneUsable(p: Part)
    requires Good(p, {}) && p.freeList == [] && forall i :: 0 <= i < |p.entries| ==> !Linked(p.entries[i])
    ensures !HasUsable(p)
  {
    hide BucketsOk, StampsOk, Volume;
    forall i | 0 <= i < |p.entries| ensures p.holds[i] > 0 || i in p.owned {
      assert EntryOk(p, i, {});
    }
  }

  /** Without a usable entry no eviction, and no number of them, ever frees one. */
  lemma NeverFreed(p: Part, w: Part)
    requires Good(w, {}) && w.holds == p.holds && w.owned == p.owned && |w.entries| == |p.entries| && !HasUsable(p)
    ensures w.freeList == []
  {
    SameUsable(p, w);
    if w.freeList != [] {
      FreeIsUsable(w);
    }
  }

  /** A pool of any size all of whose entries were deleted while lookups hold them: there is
      nothing to evict. */
  lemma HeldPool(n: nat) returns (p: Part)
    requires n > 0
    ensures Good(p, {}) && |p.entries| == n && p.owned == {} && p.table == map[] && !HasUsable(p)
    ensures forall i :: 0 <= i < n ==> p.holds[i] == 1
  {
    hide StampOf;
    var entries := seq(n, i requires 0 <= i < n => Entry(Key(0, []), [], 0, 0, i + 1, NOT_USED, 1));
    p := Part(entries, [[]], [], seq(n, _ => 1), {}, map[], n + 1, 0, 1, 0);
    NoVolume(entries);
    forall stamp: nat | stamp > 0 ensures StampOf(stamp, 0, 1) {
      AnyStamp(stamp);
    }
    forall i | 0 <= i < n ensures EntryOk(p, i, {}) {}
  }

  lemma {:induction false} NoVolume(entries: seq<Entry>)
    requires forall i :: 0 <= i < |entries| ==> !Linked(entries[i])
    ensures Volume(entries) == 0
  {
    if entries != [] {
      NoVolume(entries[..|entries| - 1]);
    }
  }

  lemma {:induction false} AnyStamp(stamp: nat)
    requires stamp > 0
    ensures StampOf(stamp, 0, 1)
  {
    if stamp > 1 {
      AnyStamp(stamp - 1);
    }
  }

  /** New entries are in the pool. */
  lemma OwnedBound(p: Part)
    requires Good(p, {})
    ensures |p.owned| <= |p.entries|
  {
    hide BucketsOk, StampsOk, FreeOk, Volume, EntryOk;
    BelowSize(p.owned, |p.entries|);
  }

  lemma {:induction false} BelowSize(s: set<nat>, n: nat)
    requires forall i :: i in s ==> i < n
    ensures |s| <= n
  {
    if n == 0 {
      assert s == {};
    } else {
      BelowSize(s - {n - 1}, n - 1);
    }
  }

  // ----- When eviction is due ------------------------------------------------------------------------

  /** The volume leaves less than the reserve below the limit. */
  predicate Due(volume: int, limit: nat, reserve: nat)
  {
    volume + reserve > limit
  }

  lemma {:induction false} VolumeLinked(entries: seq<Entry>)
    requires Volume(entries) > 0
    ensures exists i :: 0 <= i < |entries| && Linked(entries[i])
  {
    var n := |entries| - 1;
    if !Linked(entries[n]) {
      VolumeLinked(entries[..n]);
      var i :| 0 <= i < n && Linked(entries[..n][i]);
      assert Linked(entries[i]);
    }
  }

  /** With some volume there is an entry in the table. */
  lemma SomeLinked(p: Part)
    requires Good(p, {}) && p.volume > 0
    ensures exists i :: 0 <= i < |p.entries| && Linked(p.entries[i])
  {
    VolumeLinked(p.entries);
  }

  /** The eviction task is posted only over a pool that has entries, whatever the limit is. */
  lemma PostedOverPool(p: Part, limit: nat)
    requires Good(p, {}) && Due(p.volume, limit, 0)
    ensures 0 < |p.entries|
  {
    SomeLinked(p);
  }

  /** The limit and the reserve for the volume of a partition, from the configured total. */
  function Limit(volume: nat, nparts: nat): nat
    requires nparts > 0
  {
    if volume / nparts < 4096 then 4096 else volume / nparts
  }

  function Reserve(nparts: nat): nat
    requires nparts > 0
  {
    65536 / nparts
  }

  /** The maximum number of entries of a partition. */
  function EntriesMax(volume: nat, nparts: nat): nat
    requires nparts > 0
  {
    Limit(volume, nparts) / (HEADER + 20)
  }

  /** The number of entries that are added at a time. */
  function Increment(nparts: nat): nat
  {
    if nparts == 1 then 16384 else if nparts == 2 then 8192 else 4096
  }

  /** In every configuration there are two buckets or more; and some stride misplaces an entry
      exactly if the maximum number of entries is odd, below the increment, and half of it does
      not fit a stride. */
  lemma ConfiguredStrides(volume: nat, nparts: nat)
    requires nparts > 0
    ensures EntriesMax(volume, nparts) >= 60
    ensures var n := EntriesMax(volume, nparts);
            (exists k: nat :: BadStride(n, Increment(nparts), k))
            <==> n < Increment(nparts) && n % 2 == 1 && !Fits(n / 2)
  {
    hide Limit;
    assert Limit(volume, nparts) >= 4096 by { LimitAtLeast(volume, nparts); }
    BadStrideIff(EntriesMax(volume, nparts), Increment(nparts));
  }

  lemma LimitAtLeast(volume: nat, nparts: nat)
    requires nparts > 0
    ensures Limit(volume, nparts) >= 4096
  {}

  /** One megabyte in eight partitions: the only stride misplaces entries, and goes past the maximum
      number of buckets.  With two megabytes the only stride fits. */
  lemma OneMegabyte()
    ensures EntriesMax(1048576, 8) == 1927 && BadStride(1927, Increment(8), 0)
    ensures Buckets(1927, Increment(8), 0) == 963 && 963 + STRIDE > LowerPow2(1927)
    ensures EntriesMax(2097152, 8) == 3855 && forall k: nat :: !BadStride(3855, Increment(8), k)
  {
    LowerIs();
    BadStrideAt(1927, 4096, 0);
    BadStrideIff(3855, 4096);
  }

  lemma LowerIs()
    ensures LowerPow2(963) == 512 && LowerPow2(1927) == 1024
  {
    assert IsPow2(512) && IsPow2(1024);
    LowerOfPow2(512, 963);
    LowerOfPow2(1024, 1927);
  }

  /** So the eviction task ends exactly with a total of 64 KiB or with 16 partitions at least. */
  lemma ReserveFitsIff(volume: nat, nparts: nat)
    requires IsPow2(nparts)
    ensures Reserve(nparts) <= Limit(volume, nparts) <==> volume >= 65536 || nparts >= 16
  {
    if nparts >= 16 {
      assert 65536 / nparts <= 4096 by { Quotient(65536, nparts, 4096); }
    } else {
      FewParts(nparts);
    }
  }

  lemma Quotient(a: nat, n: nat, q: nat)
    requires n > 0 && a <= q * 16 && 16 <= n
    ensures a / n <= q
  {
    if a / n > q {
      assert a >= a / n * n >= (q + 1) * 16 by { Product(a / n, q + 1, n); }
    }
  }

  lemma Product(x: nat, y: nat, n: nat)
    requires x >= y && n >= 16
    ensures x * n >= y * 16
  {}

  lemma FewParts(nparts: nat)
    requires IsPow2(nparts) && nparts < 16
    ensures nparts == 1 || nparts == 2 || nparts == 4 || nparts == 8
  {}

  /** With a reserve above the limit the eviction task has more to do in every state. */
  lemma AlwaysDue(p: Part, limit: nat, reserve: nat)
    requires Good(p, {}) && limit < reserve
    ensures Due(p.volume, limit, reserve)
  {}

  /** The second map has some of the items of the first one. */
  ghost predicate SubMap(before: map<Key, Item>, after: map<Key, Item>)
  {
    forall k :: k in after ==> k in before && after[k] == before[k]
  }

  lemma SubMapSame(items: map<Key, Item>)
    ensures SubMap(items, items)
  {}

  lemma SubMapTwice(first: map<Key, Item>, second: map<Key, Item>, third: map<Key, Item>)
    requires SubMap(first, second) && SubMap(second, third)
    ensures SubMap(first, third)
  {}

  lemma IntactSame(entries: seq<Entry>)
    ensures Intact(entries, entries, {})
  {}

  lemma NoneLinked(p: Part)
    requires Good(p, {}) && forall i :: 0 <= i < |p.entries| ==> !Linked(p.entries[i])
    ensures p.table == map[]
  {}

  lemma EvictedItems(p: Part, w: Part, start: nat, steps: nat, time: nat, flushStamp: nat)
    requires Evicted(p, w, start, steps, time, flushStamp) && Intact(p.entries, w.entries, {})
    ensures SubMap(ItemsOf(p), ItemsOf(w)) && w.holds == p.holds && w.owned == p.owned && w.stamp == p.stamp
  {
    hide Stays;
  }

  /** No one holds a new entry, and holders keep theirs. */
  ghost predicate HoldsKept(before: seq<nat>, after: seq<nat>, i: nat)
  {
    && |before| <= |after| && i < |after| && after[i] == 0 && (i < |before| ==> before[i] == 0)
    && forall k :: 0 <= k < |before| ==> after[k] == before[k]
  }

  lemma ItemsReused(p: Part, key: Key)
    requires Good(p, {}) && p.freeList != [] && p.freeList[0] < |p.entries|
    ensures ItemsOf(Reused(p, key)) == ItemsOf(p) && |p.holds| == |p.entries| && p.holds[p.freeList[0]] == 0
  {
    hide BucketsOk, StampsOk, Volume;
    assert EntryOk(p, p.freeList[0], {});
  }

  lemma ItemsExtended(p: Part, key: Key)
    requires Good(p, {})
    ensures ItemsOf(Extended(p, key)) == ItemsOf(p) && |p.holds| == |p.entries|
  {
    hide BucketsOk, StampsOk, Volume;
  }

  lemma FirstVictim(before: seq<Entry>, after: seq<Entry>, out: seq<nat>)
    requires Victims(before, after, out) && out != []
    ensures exists i :: 0 <= i < |before| && Linked(before[i]) && !Linked(after[i])
  {
    assert out[0] in out;
  }

  lemma EvictedOk(p: Part, w: Part, x: Part, out: seq<nat>, start: nat, steps: nat, time: nat, flushStamp: nat)
    requires Good(p, {}) && Good(w, Members(out)) && AllCooled(p.entries, w.entries, start, steps, time, flushStamp)
    requires w.holds == p.holds && w.owned == p.owned && w.stamp == p.stamp && DroppedAll(w, x, out)
    ensures Evicted(p, x, start, steps, time, flushStamp)
  {
    hide BucketsOk, StampsOk, FreeOk, Volume, Passes, IsExpired;
    assert x.table == w.table;
    forall k | k in w.table ensures k in p.table && w.table[k] == p.table[k] {
      assert EntryOk(p, w.table[k], {});
    }
    forall k | k in p.table
      ensures p.table[k] < |p.entries| && (k in w.table <==> Stays(p, p.table[k], start, steps, time, flushStamp))
    {
      assert EntryOk(w, p.table[k], Members(out));
    }
  }

  lemma CooledIntact(before: seq<Entry>, after: seq<Entry>, start: nat, steps: nat, time: nat, flushStamp: nat)
    requires AllCooled(before, after, start, steps, time, flushStamp)
    ensures Intact(before, after, {})
  {
    hide Passes, IsExpired;
  }

  /** A scan that takes an entry out, or that visits every entry, cools the table down. */
  lemma CooledHeat(before: seq<Entry>, after: seq<Entry>, start: nat, steps: nat, time: nat, flushStamp: nat)
    requires AllCooled(before, after, start, steps, time, flushStamp)
    ensures Heat(after) <= Heat(before)
    ensures (exists i :: 0 <= i < |before| && Linked(before[i]) && !Linked(after[i])) ==> Heat(after) < Heat(before)
    ensures AllVisited(start, steps, |before|) && (exists i :: 0 <= i < |before| && Linked(before[i]))
            ==> Heat(after) < Heat(before)
    ensures forall i :: 0 <= i < |before| && Linked(after[i]) ==> Linked(before[i])
  {
    hide Passes, IsExpired, Heat;
    forall i | 0 <= i < |before| ensures HeatOf(after[i]) <= HeatOf(before[i]) {}
    HeatLess(before, after);
    forall i | 0 <= i < |before| && Linked(before[i]) && (!Linked(after[i]) || Passes(start, steps, |before|, i) >= 1)
      ensures HeatOf(after[i]) < HeatOf(before[i])
    {}
  }

  lemma DroppedHeat(p: Part, w: Part, out: seq<nat>)
    requires Good(p, Members(out)) && DroppedAll(p, w, out)
    ensures Heat(w.entries) <= Heat(p.entries) && forall i :: 0 <= i < |p.entries|
                                                              ==> (Linked(w.entries[i]) <==> Linked(p.entries[i]))
  {
    hide BucketsOk, StampsOk, FreeOk, Volume, Heat;
    forall i | 0 <= i < |p.entries| ensures HeatOf(w.entries[i]) <= HeatOf(p.entries[i])
        && (Linked(w.entries[i]) <==> Linked(p.entries[i])) {
      assert EntryOk(p, i, Members(out));
    }
    HeatLess(p.entries, w.entries);
  }

  /** Entry e is still in the table after the given number of visits. */
  ghost predicate Survives(e: Entry, passes: nat, expired: bool)
  {
    passes == 0 || (!expired && passes < e.state)
  }

  /** Exactly the entries that do not survive their visits are gone. */
  ghost predicate Evicted(p: Part, w: Part, start: nat, steps: nat, time: nat, flushStamp: nat)
  {
    && |w.entries| == |p.entries| && w.holds == p.holds && w.owned == p.owned && w.stamp == p.stamp
    && (forall k :: k in w.table ==> k in p.table && w.table[k] == p.table[k])
    && (forall k :: k in p.table ==> p.table[k] < |p.entries|
                                     && (k in w.table <==> Stays(p, p.table[k], start, steps, time, flushStamp)))
  }

  ghost predicate Stays(p: Part, i: nat, start: nat, steps: nat, time: nat, flushStamp: nat)
    requires i < |p.entries|
  {
    Survives(p.entries[i], Passes(start, steps, |p.entries|, i), IsExpired(p.entries[i], time, flushStamp))
  }

  lemma TookEntries(p: Part, w: Part, i: nat)
    requires Took(p, w, i)
    ensures w.entries == p.entries[i := p.entries[i].(state := NOT_USED)]
  {}

  /** Every entry has cooled down by its number of visits. */
  ghost predicate AllCooled(before: seq<Entry>, after: seq<Entry>, start: nat, steps: nat, time: nat, flushStamp: nat)
  {
    && |after| == |before|
    && forall i :: 0 <= i < |before| ==>
         after[i] == Cooled(before[i], Passes(start, steps, |before|, i), IsExpired(before[i], time, flushStamp))
  }

  ghost predicate AllVisited(start: nat, steps: nat, n: nat)
  {
    forall i :: 0 <= i < n ==> Passes(start, steps, n, i) >= 1
  }

  /** The clock hand is where a number of steps has left it; the next scan goes on from there. */
  ghost predicate HandIs(p: Part, first: nat, steps: nat, hand: nat)
  {
    exists end :: HandAfter(|p.entries|, first, steps) == Some(Hand(hand, end))
  }

  /** The victims are the entries that left the table. */
  ghost predicate Victims(before: seq<Entry>, after: seq<Entry>, out: seq<nat>)
  {
    |after| == |before| && forall i: nat :: i in out <==> i < |before| && Linked(before[i]) && !Linked(after[i])
  }

  /** The next step of the scan, as the code takes it, visits the entry at `hand`. */
  lemma HandNext(first: nat, clock: nat, over: bool, hand: nat, end: bool, start: nat, steps: nat, n: nat)
    requires 0 < n && first <= n && start == (if first == n then 0 else first)
    requires HandAfter(n, first, steps) == Some(Hand(clock, over))
    requires if clock == n then !over && hand == 0 && end else hand == clock && end == over
    ensures HandAt(start, steps, n) == hand < n && start + steps < 2 * n
    ensures HandAfter(n, first, steps + 1) == Some(Hand(hand + 1, end))
  {
    HandAfterIs(n, first, steps);
  }

  lemma RoundDone(first: nat, start: nat, steps: nat, n: nat)
    requires 0 < n && first <= n && start == (if first == n then 0 else first)
    requires HandAfter(n, first, steps) == Some(Hand(n, true))
    ensures AllVisited(start, steps, n) && HandAfter(n, first, steps + 1).None?
  {
    HandAfterIs(n, first, steps);
  }

  lemma CooledNone(entries: seq<Entry>, start: nat, time: nat, flushStamp: nat)
    requires start <= |entries|
    ensures AllCooled(entries, entries, start, 0, time, flushStamp) && Victims(entries, entries, []) && Distinct([])
    ensures Members([]) == {}
  {}

  lemma CooledMore(first: seq<Entry>, before: seq<Entry>, after: seq<Entry>, out: seq<nat>, more: seq<nat>,
                   start: nat, steps: nat, time: nat, flushStamp: nat)
    requires AllCooled(first, before, start, steps, time, flushStamp) && Victims(first, before, out)
    requires start <= |first| && start + steps < 2 * |first|
    requires var h := HandAt(start, steps, |first|);
             && 0 <= h < |before| == |after| && after == before[h := after[h]]
             && after[h] == Cooled(before[h], 1, IsExpired(before[h], time, flushStamp))
             && more == if Linked(before[h]) && !Linked(after[h]) then [h] + out else out
    ensures AllCooled(first, after, start, steps + 1, time, flushStamp) && Victims(first, after, more)
  {
    hide IsExpired, Passes;
    forall i | 0 <= i < |first|
      ensures after[i] == Cooled(first[i], Passes(start, steps + 1, |first|, i), IsExpired(first[i], time, flushStamp))
    {
      PassesStep(start, steps, |first|, i);
      CooledOnce(first[i], Passes(start, steps, |first|, i), IsExpired(first[i], time, flushStamp));
      CooledExpired(first[i], Passes(start, steps, |first|, i), time, flushStamp);
    }
    var h := HandAt(start, steps, |first|);
    assert Linked(before[h]) ==> Linked(first[h]);
    forall i: nat ensures i in more <==> i < |first| && Linked(first[i]) && !Linked(after[i]) {
      assert i in out <==> i < |first| && Linked(first[i]) && !Linked(before[i]);
    }
  }

  lemma CooledExpired(e: Entry, passes: nat, time: nat, flushStamp: nat)
    ensures IsExpired(Cooled(e, passes, IsExpired(e, time, flushStamp)), time, flushStamp)
            <==> IsExpired(e, time, flushStamp)
  {}

  lemma IsInBucket(p: Part, i: nat, pending: set<nat>)
    requires Good(p, pending) && i < |p.entries| && Linked(p.entries[i])
    ensures p.nparts > 0 && 0 <= Bucket(|p.buckets|, p.nparts, p.entries[i].key) < |p.buckets|
    ensures i in p.buckets[Bucket(|p.buckets|, p.nparts, p.entries[i].key)]
  {
    hide Bucket, Volume, StampsOk;
    assert InBucket(p, i);
  }

  function Inheriting(e: Entry, o: Entry): Entry
  {
    e.(flags := o.flags, exp := o.exp)
  }

  lemma ItemsWritten(p: Part, i: nat, value: seq<char>, flags: nat, exp: nat, pending: set<nat>)
    requires Good(p, pending) && i in p.owned && i < |p.entries|
    ensures ItemsOf(Written(p, i, value, flags, exp)) == ItemsOf(p)
  {
    hide BucketsOk, StampsOk, FreeOk, Volume, Bucket;
    assert EntryOk(p, i, pending);
  }

  /** A held entry and one in the table with the same stamp are the same. */
  lemma AlterFacts(p: Part, i: nat, o: nat)
    requires Good(p, {}) && i in p.owned && i < |p.entries| && o < |p.entries| == |p.holds| && p.holds[o] > 0
    requires p.entries[o].key == p.entries[i].key
    ensures i != o
    ensures HasStamp(ItemsOf(p), p.entries[i].key, p.entries[o].stamp) <==> Is(p, p.entries[i].key, o)
  {
    hide BucketsOk, FreeOk, Volume, Bucket, StampOf;
    var key := p.entries[i].key;
    assert EntryOk(p, i, {}) && EntryOk(p, o, {});
    assert Stamped(p, o);
    if HasStamp(ItemsOf(p), key, p.entries[o].stamp) {
      assert EntryOk(p, p.table[key], {});
      assert Stamped(p, p.table[key]);
    }
  }

  /** The item of a key has the stamp s, or s is zero. */
  ghost predicate HasStamp(items: map<Key, Item>, key: Key, s: nat)
  {
    key in items && (s == 0 || items[key].stamp == s)
  }

  lemma FoundStamp(p: Part, w: Part, out: seq<nat>, key: Key, s: nat)
    requires Good(p, {}) && TakenOut(p, w, out) && key in w.table && w.table[key] < |w.entries|
    ensures HasStamp(ItemsOf(p), key, s) <==> s == 0 || w.entries[w.table[key]].stamp == s
  {
    hide BucketsOk, StampsOk, FreeOk, EntriesOk, Volume;
  }

  function NewItem(e: Entry, stamp: nat): Item
  {
    Item(e.value, e.flags, e.exp, stamp)
  }

  /** The key of e now has the item of e with the given stamp; otherwise only expired items are
      gone. */
  ghost predicate Puts(before: map<Key, Item>, after: map<Key, Item>, e: Entry, stamp: nat, time: nat, flushStamp: nat)
  {
    e.key in after && after[e.key] == NewItem(e, stamp) && LessExpired(before - {e.key}, after - {e.key}, time,
        flushStamp)
  }

  /** An entry that is not flushed expires at its expiration time and not before, or never if that is
      zero; and it stays expired. */
  lemma ExpiryIs(e: Entry, time: nat, later: nat, flushStamp: nat)
    ensures IsExpired(e, time, flushStamp) == ItemExpired(ItemOf(e), time, flushStamp)
    ensures e.stamp >= flushStamp && e.exp == 0 ==> !IsExpired(e, time, flushStamp)
    ensures e.stamp >= flushStamp && e.exp > 0 ==>
              IsExpired(e, e.exp, flushStamp) && !IsExpired(e, e.exp - 1, flushStamp)
    ensures IsExpired(e, time, flushStamp) && time <= later ==> IsExpired(e, later, flushStamp)
    ensures e.stamp < flushStamp ==> IsExpired(e, time, flushStamp)
  {}

  /** An item that was put is found until it expires: a flush before that has no effect on it. */
  lemma PutIsAlive(before: map<Key, Item>, after: map<Key, Item>, e: Entry, stamp: nat, flushStamp: nat, now: nat, t: nat)
    requires Puts(before, after, e, stamp, now, flushStamp) && flushStamp <= stamp
    ensures Alive(after, e.key, t, flushStamp) <==> e.exp == 0 || t < e.exp
  {}

  lemma PutsItem(before: map<Key, Item>, after: map<Key, Item>, e: Entry, stamp: nat, time: nat, flushStamp: nat)
    requires LessExpired(before, after, time, flushStamp)
    ensures Puts(before, after[e.key := NewItem(e, stamp)], e, stamp, time, flushStamp)
    ensures Puts(before, (after - {e.key})[e.key := NewItem(e, stamp)], e, stamp, time, flushStamp)
  {
    LessExpiredWithout(before, after, e.key, time, flushStamp);
    assert after[e.key := NewItem(e, stamp)] - {e.key} == after - {e.key};
    assert (after - {e.key})[e.key := NewItem(e, stamp)] - {e.key} == after - {e.key};
  }

  /** Entry i is in the table with the given access counter. */
  ghost predicate Counter(p: Part, i: nat, state: nat)
  {
    i < |p.entries| && Linked(p.entries[i]) && p.entries[i].state == state
  }

  /** Entry i has the access counter of the entry that the key had before, plus one. */
  ghost predicate InheritsCounter(p: Part, w: Part, key: Key, i: nat)
  {
    exists o: nat :: Is(p, key, o) && Counter(w, i, Accessed(p.entries[o].state))
  }

  lemma CounterKept(p: Part, w: Part, out: seq<nat>, i: nat, state: nat)
    requires Good(p, Members(out)) && DroppedAll(p, w, out) && Counter(p, i, state)
    ensures Counter(w, i, state)
  {
    hide BucketsOk, StampsOk, FreeOk, Volume;
    assert EntryOk(p, i, Members(out));
  }

  lemma ScannedIs(p: Part, w: Part, out: seq<nat>, key: Key, i: nat)
    requires TakenOut(p, w, out) && Is(w, key, i)
    ensures Is(p, key, i) && p.entries[i] == w.entries[i]
  {}

  lemma CounterScanned(p: Part, w: Part, out: seq<nat>, i: nat)
    requires TakenOut(p, w, out) && i < |w.entries| && Linked(w.entries[i])
    ensures Counter(p, i, w.entries[i].state)
  {}

  /** The owned entry i entered the table. */
  ghost predicate PutItem(p: Part, w: Part, i: nat, state: nat)
  {
    && i < |p.entries| && w.entries == p.entries[i := p.entries[i].(state := state, stamp := p.stamp)]
    && w.table == p.table[p.entries[i].key := i] && w.stamp == p.stamp + p.nparts && w.owned == p.owned - {i}
    && w == p.(entries := w.entries, table := w.table, stamp := w.stamp, owned := w.owned, buckets := w.buckets,
        volume := w.volume)
  }

  lemma ItemsInserted(p: Part, i: nat, state: nat, pending: set<nat>)
    requires Good(p, pending) && i in p.owned && i < |p.entries| && p.entries[i].key !in p.table
    requires 0 <= Bucket(|p.buckets|, p.nparts, p.entries[i].key) < |p.buckets|
    ensures PutItem(p, Inserted(p, i, state), i, state)
    ensures ItemsOf(Inserted(p, i, state)) == ItemsOf(p)[p.entries[i].key := NewItem(p.entries[i], p.stamp)]
  {
    hide BucketsOk, StampsOk, FreeOk, Volume, Bucket;
    assert EntryOk(p, i, pending);
  }

  lemma ItemsCancelled(p: Part, i: nat)
    requires Good(p, {}) && i in p.owned && i < |p.entries|
    ensures ItemsOf(Cancelled(p, i)) == ItemsOf(p)
  {
    hide BucketsOk, StampsOk, FreeOk, Volume, Bucket;
    assert EntryOk(p, i, {});
  }

  lemma OwnedKept(p: Part, w: Part, out: seq<nat>, i: nat)
    requires Good(p, {}) && TakenOut(p, w, out) && i in p.owned && i < |p.entries|
    ensures i < |w.entries| && w.entries[i] == p.entries[i] && !Linked(w.entries[i]) && i in w.owned
            && w.stamp == p.stamp
  {
    hide BucketsOk, StampsOk, FreeOk, Volume, Bucket;
    assert EntryOk(p, i, {});
  }

  lemma TookOther(p: Part, w: Part, key: Key, i: nat)
    requires TableOk(p) && key in p.table && Took(p, w, p.table[key])
    requires i < |p.entries| && p.entries[i].key == key && !Linked(p.entries[i])
    ensures i < |w.entries| && w.entries[i] == p.entries[i] && key !in w.table
  {}

  ghost predicate SameOthers(before: seq<Entry>, after: seq<Entry>, i: nat)
  {
    |after| == |before| && forall k :: 0 <= k < |before| && k != i ==> after[k] == before[k]
  }

  lemma HoldSizes(p: Part)
    requires Good(p, {})
    ensures |p.holds| == |p.entries|
  {}

  lemma ItemsUnheld(p: Part, i: nat)
    requires Good(p, {}) && i < |p.entries| == |p.holds| && p.holds[i] > 0 && p.entries[i].refs > 0
    ensures ItemsOf(Unheld(p, i)) == ItemsOf(p)
  {
    hide BucketsOk, StampsOk, FreeOk, Volume;
    assert EntryOk(p, i, {});
  }

  /** Entry i left the table. */
  ghost predicate Took(p: Part, w: Part, i: nat)
  {
    && i < |p.entries| && Linked(p.entries[i]) && p.entries[i].key in p.table && p.table[p.entries[i].key] == i
    && w == p.(entries := p.entries[i := p.entries[i].(state := NOT_USED)], table := p.table - {p.entries[i].key},
               buckets := w.buckets, volume := w.volume)
    && |w.buckets| == |p.buckets|
  }

  lemma UnlinkedTook(w: Part, b: nat, j: nat, pending: set<nat>)
    requires Good(w, pending) && b < |w.buckets| && j < |w.buckets[b]| && w.buckets[b][j] < |w.entries|
    requires Linked(w.entries[w.buckets[b][j]])
    ensures Took(w, Unlinked(w, b, j), w.buckets[b][j])
  {
    hide BucketsOk, StampsOk, FreeOk, Volume;
    assert EntryOk(w, w.buckets[b][j], pending);
  }

  lemma TookOne(p: Part, w: Part, i: nat)
    requires Took(p, w, i)
    ensures |w.table| == |p.table| - 1
  {
    var key := p.entries[i].key;
    assert w.table.Keys == p.table.Keys - {key};
    assert |w.table| == |w.table.Keys| && |p.table| == |p.table.Keys|;
  }

  lemma NotYetOut(w: Part, i: nat, out: seq<nat>)
    requires Good(w, Members(out)) && i < |w.entries| && Linked(w.entries[i]) && Distinct(out)
    ensures Distinct([i] + out) && i !in out
  {
    hide BucketsOk, StampsOk, FreeOk, Volume;
    assert EntryOk(w, i, Members(out));
  }

  lemma ItemsTook(p: Part, w: Part, key: Key)
    requires TableOk(p) && key in p.table && Took(p, w, p.table[key])
    ensures ItemsOf(w) == ItemsOf(p) - {key}
  {
    assert p.entries[p.table[key]].key == key;
  }

  lemma NoItem(p: Part, key: Key)
    requires key !in p.table
    ensures key !in ItemsOf(p) && ItemsOf(p) - {key} == ItemsOf(p)
  {}

  lemma LessExpiredWithout(before: map<Key, Item>, after: map<Key, Item>, key: Key, time: nat, flushStamp: nat)
    requires LessExpired(before, after, time, flushStamp)
    ensures LessExpired(before - {key}, after - {key}, time, flushStamp)
  {}

  ghost function ItemsOf(p: Part): map<Key, Item>
  {
    map k | k in p.table && p.table[k] < |p.entries| :: ItemOf(p.entries[p.table[k]])
  }

  /** The access counter saturates. */
  function Accessed(state: nat): nat
  {
    if USED_MIN <= state < USED_MAX then state + 1 else state
  }

  /** An access lets an entry survive one more visit of the clock, up to the maximum. */
  lemma AccessSurvives(e: Entry, visits: nat)
    requires Linked(e)
    ensures var f := e.(state := Accessed(e.state));
            && Linked(f) && (e.state == USED_MAX ==> f == e)
            && (e.state < USED_MAX && visits > 0 ==> (Survives(f, visits + 1, false) <==> Survives(e, visits, false)))
  {}

  /** What a scan leaves of the items, and what it tells about the key. */
  lemma AfterScan(p: Part, w: Part, out: seq<nat>, key: Key, time: nat, flushStamp: nat)
    requires Good(p, {}) && Good(w, Members(out)) && TakenOut(p, w, out)
    requires forall i :: i in out ==> i < |p.entries| && IsExpired(p.entries[i], time, flushStamp)
    ensures LessExpired(ItemsOf(p), ItemsOf(w), time, flushStamp) && Distinct(out) && TableOk(w)
    ensures key in w.table && w.table[key] < |w.entries| && !IsExpired(w.entries[w.table[key]], time, flushStamp)
            <==> Alive(ItemsOf(p), key, time, flushStamp)
  {
    hide BucketsOk, StampsOk, FreeOk, EntriesOk, Volume;
  }

  lemma GoodTable(w: Part, pending: set<nat>)
    requires Good(w, pending)
    ensures TableOk(w)
  {}

  lemma HitIs(w: Part, x: Part, i: nat, key: Key, time: nat, flushStamp: nat)
    requires Hit(w, i, key, time, flushStamp) && Touched(w, x, i)
    ensures Is(x, key, i)
  {}

  lemma StillIs(p: Part, w: Part, out: seq<nat>, key: Key, i: nat)
    requires Good(p, Members(out)) && DroppedAll(p, w, out) && Is(p, key, i)
    ensures Is(w, key, i)
  {
    hide BucketsOk, StampsOk, FreeOk, Volume;
    assert EntryOk(p, i, Members(out));
  }

  lemma EntryFacts(w: Part, pending: set<nat>, i: nat)
    requires Good(w, pending) && i < |w.entries| && Linked(w.entries[i])
    ensures |w.holds| == |w.entries| && w.entries[i].refs == 1 + w.holds[i] && i !in pending
  {
    assert EntryOk(w, i, pending);
  }

  lemma HeldOk(w: Part, x: Part, i: nat, pending: set<nat>)
    requires Good(w, pending) && Touched(w, x, i) && x.entries[i].refs == 1 + x.holds[i]
    requires SameContent(w.entries[i], x.entries[i])
    ensures Good(x, pending) && ItemsOf(x) == ItemsOf(w) && x.table == w.table
  {
    hide Good;
    TouchedOk(w, x, i, pending);
  }

  /** Dropped entries were not in the table any more. */
  lemma ItemsDropped(p: Part, w: Part, out: seq<nat>)
    requires Good(p, Members(out)) && DroppedAll(p, w, out)
    ensures ItemsOf(w) == ItemsOf(p)
  {
    hide BucketsOk, StampsOk, FreeOk, Volume;
    forall k | k in p.table ensures p.table[k] !in out {
      assert EntryOk(p, p.table[k], Members(out));
    }
  }

  lemma KeyAbsent(w: Part, pending: set<nat>, key: Key, b: nat)
    requires Good(w, pending) && b < |w.buckets| && w.nparts > 0 && b == Bucket(|w.buckets|, w.nparts, key)
    requires forall k :: 0 <= k < |w.buckets[b]| ==> w.buckets[b][k] < |w.entries|
                                                     && w.entries[w.buckets[b][k]].key != key
    ensures key !in w.table
  {
    hide Bucket, Volume, StampsOk;
  }

  /** The entries `out` lost the reference from the table. */
  ghost predicate DroppedAll(p: Part, w: Part, out: seq<nat>)
  {
    && |w.entries| == |p.entries|
    && (forall i :: 0 <= i < |p.entries| ==>
          if i in out then SameContent(p.entries[i], w.entries[i]) && !Linked(w.entries[i])
              else w.entries[i] == p.entries[i])
    && w == p.(entries := w.entries, freeList := w.freeList)
  }

  /** All entries keep their contents, except for the given ones. */
  ghost predicate Intact(before: seq<Entry>, after: seq<Entry>, except: set<nat>)
  {
    |before| <= |after| && forall k :: 0 <= k < |before| && k !in except ==> SameContent(before[k], after[k])
  }

  lemma TakenOutIntact(p: Part, w: Part, out: seq<nat>)
    requires TakenOut(p, w, out)
    ensures Intact(p.entries, w.entries, {})
  {}

  lemma DroppedIntact(p: Part, w: Part, out: seq<nat>)
    requires DroppedAll(p, w, out)
    ensures Intact(p.entries, w.entries, {})
  {}

  lemma IntactTwice(first: seq<Entry>, second: seq<Entry>, third: seq<Entry>, except: set<nat>)
    requires Intact(first, second, {}) || Intact(first, second, except)
    requires Intact(second, third, {}) || Intact(second, third, except)
    ensures Intact(first, third, except)
  {}

  predicate SameContent(e: Entry, f: Entry)
  {
    e.key == f.key && ItemOf(e) == ItemOf(f)
  }

  lemma DroppedNone(p: Part)
    ensures DroppedAll(p, p, [])
  {}

  lemma RestMembers(out: seq<nat>, k: nat)
    requires k < |out| && Distinct(out)
    ensures out[k] in Members(out[k..]) && Members(out[k..]) - {out[k]} == Members(out[k + 1..]) && out[k] !in out[..k]
  {
    assert out[k..] == [out[k]] + out[k + 1..];
  }

  lemma DroppedMore(p: Part, w: Part, out: seq<nat>, k: nat)
    requires k < |out| && DroppedAll(p, w, out[..k]) && Distinct(out)
    requires out[k] < |w.entries| && w.entries[out[k]].refs > 0 && !Linked(w.entries[out[k]])
    ensures DroppedAll(p, Released(w, out[k]), out[..k + 1])
  {
    assert out[..k + 1] == out[..k] + [out[k]];
    RestMembers(out, k);
  }

  ghost function Members(list: seq<nat>): set<nat>
  {
    set i | i in list
  }

  lemma MoreMembers(i: nat, list: seq<nat>)
    ensures Members([i] + list) == Members(list) + {i}
  {}

  /** The entry i is the live one for a key. */
  ghost predicate Hit(p: Part, i: nat, key: Key, time: nat, flushStamp: nat)
  {
    && i < |p.entries| && Linked(p.entries[i]) && p.entries[i].key == key && !IsExpired(p.entries[i], time, flushStamp)
    && key in p.table && p.table[key] == i
  }

  lemma BucketOfKey(p: Part, key: Key)
    requires Good(p, {})
    ensures p.nparts > 0 && 0 <= Bucket(|p.buckets|, p.nparts, key) < |p.buckets|
  {
    BucketInRange(p, key);
  }

  /** What is known of the j-th entry of a bucket in the middle of a scan. */
  lemma InTable(p: Part, w: Part, out: seq<nat>, b: nat, j: nat)
    requires Good(p, {}) && Good(w, Members(out)) && TakenOut(p, w, out) && b < |w.buckets| && j < |w.buckets[b]|
    ensures TableOk(p) && TableOk(w)
    ensures var i := w.buckets[b][j];
            && i < |w.entries| == |p.entries| && Linked(w.entries[i]) && i !in out && w.entries[i] == p.entries[i]
            && w.entries[i].key in w.table && w.table[w.entries[i].key] == i
  {
    assert BucketOk(w.buckets[b], b, w);
    assert EntryOk(w, w.buckets[b][j], Members(out));
  }
}
