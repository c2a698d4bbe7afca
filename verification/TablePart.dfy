/** The state of a partition of the memcache table, and what each change of one entry keeps
    (src/memcache/action.c, src/memcache/table.h, src/memcache/entry.h). */
module TablePart {
  import opened Common
  import opened LinearHash

  // ----- Entries -----------------------------------------------------------------------------------

  /** A key with its hash value.  Two keys match if both agree. */
  datatype Key = Key(hash: nat, text: seq<char>)

  const FREE: nat := 0
  const USED_MIN: nat := 1
  const USED_MAX: nat := 32
  const NOT_USED: nat := 255

  const HEADER: nat := 48 // the size of the entry structure itself

  datatype Entry = Entry(key: Key, value: seq<char>, flags: nat, exp: nat, stamp: nat, state: nat, refs: nat)

  /** An entry that is in the table. */
  predicate Linked(e: Entry)
  {
    USED_MIN <= e.state <= USED_MAX
  }

  function EntrySize(e: Entry): nat
  {
    HEADER + |e.key.text| + |e.value|
  }

  /** Every byte of the key and of the value counts once, on top of the entry structure. */
  lemma SizeCounts(e: Entry, more: seq<char>)
    ensures EntrySize(e.(value := e.value + more)) == EntrySize(e) + |more|
    ensures EntrySize(e.(key := e.key.(text := e.key.text + more))) == EntrySize(e) + |more|
    ensures e.key.text == e.value == [] ==> EntrySize(e) == 48
  {}

  /** Expired at the given time, or flushed. */
  predicate IsExpired(e: Entry, time: nat, flushStamp: nat)
  {
    (e.exp != 0 && e.exp <= time) || e.stamp < flushStamp
  }

  ghost function Weight(e: Entry): nat
  {
    if Linked(e) then EntrySize(e) else 0
  }

  /** The total size of the entries in the table. */
  ghost function Volume(entries: seq<Entry>): nat
  {
    if entries == [] then 0 else Volume(entries[..|entries| - 1]) + Weight(entries[|entries| - 1])
  }

  lemma {:induction false} VolumeUpdate(entries: seq<Entry>, i: nat, e: Entry)
    requires i < |entries|
    ensures Volume(entries[i := e]) + Weight(entries[i]) == Volume(entries) + Weight(e)
  {
    hide Weight;
    var n := |entries| - 1;
    if i == n {
      assert entries[i := e][..n] == entries[..n];
    } else {
      VolumeUpdate(entries[..n], i, e);
      assert entries[i := e][..n] == entries[..n][i := e];
    }
  }

  lemma VolumeAppend(entries: seq<Entry>, e: Entry)
    ensures Volume(entries + [e]) == Volume(entries) + Weight(e)
  {
    assert (entries + [e])[..|entries|] == entries;
  }

  // ----- The state ------------------------------------------------------------------------------------

  /** A partition.  The pool has the entries in use so far; `holds` counts the lookups that have
      not finished with an entry; `owned` are the new entries that are not in the table yet;
      `table` is the map from keys to the entries in the table. */
  datatype Part = Part(entries: seq<Entry>, buckets: seq<seq<nat>>, freeList: seq<nat>,
                       holds: seq<nat>, owned: set<nat>, table: map<Key, nat>,
                       stamp: nat, volume: int, nparts: nat, id: nat)

  /** The hash value without the low bits, which have the partition number. */
  function HashOf(key: Key, nparts: nat): nat
    requires nparts > 0
  {
    key.hash / nparts
  }

  /** Within a partition no two hash values are taken for the same. */
  lemma HashKept(a: Key, b: Key, nparts: nat)
    requires nparts > 0 && a.hash % nparts == b.hash % nparts
    ensures HashOf(a, nparts) == HashOf(b, nparts) <==> a.hash == b.hash
  {
    assert a.hash == a.hash / nparts * nparts + a.hash % nparts;
    assert b.hash == b.hash / nparts * nparts + b.hash % nparts;
  }

  /** The bucket of a key. */
  function Bucket(n: nat, nparts: nat, key: Key): int
    requires nparts > 0
  {
    Index(n, HashOf(key, nparts))
  }

  /** Who refers to an entry.  Pending entries are out of the table and about to be dropped. */
  ghost predicate EntryOk(p: Part, i: nat, pending: set<nat>)
    requires i < |p.entries| == |p.holds|
  {
    var e := p.entries[i];
    if Linked(e) then
      i !in p.owned && i !in pending && e.refs == 1 + p.holds[i] && e.key in p.table && p.table[e.key] == i
    else if e.state == FREE then
      i !in p.owned && i !in pending && p.holds[i] == 0 && i in p.freeList
    else
      && e.state == NOT_USED
      && if i in p.owned then i !in pending && e.refs == 1 && p.holds[i] == 0
         else if i in pending then e.refs == 1 + p.holds[i]
         else e.refs == p.holds[i] > 0
  }

  ghost predicate EntriesOk(p: Part, pending: set<nat>)
  {
    && |p.holds| == |p.entries|
    && (forall i :: 0 <= i < |p.entries| ==> EntryOk(p, i, pending))
    && (forall i :: i in p.owned || i in pending ==> i < |p.entries|)
  }

  ghost predicate TableOk(p: Part)
  {
    forall k :: k in p.table ==> p.table[k] < |p.entries| && Linked(p.entries[p.table[k]])
                                 && p.entries[p.table[k]].key == k
  }

  /** A bucket has entries that belong there. */
  ghost predicate BucketOk(list: seq<nat>, b: nat, p: Part)
    requires p.nparts > 0
  {
    Distinct(list) && forall j :: 0 <= j < |list| ==>
      && list[j] < |p.entries| && Linked(p.entries[list[j]])
      && Bucket(|p.buckets|, p.nparts, p.entries[list[j]].key) == b
  }

  ghost predicate InBucket(p: Part, i: nat)
    requires p.nparts > 0 && i < |p.entries|
  {
    var b := Bucket(|p.buckets|, p.nparts, p.entries[i].key);
    0 <= b < |p.buckets| && i in p.buckets[b]
  }

  ghost predicate BucketsOk(p: Part)
  {
    && p.nparts > 0 && |p.buckets| > 0
    && (forall b :: 0 <= b < |p.buckets| ==> BucketOk(p.buckets[b], b, p))
    && (forall i :: 0 <= i < |p.entries| && Linked(p.entries[i]) ==> InBucket(p, i))
  }

  ghost predicate FreeOk(p: Part)
  {
    Distinct(p.freeList) && forall j :: 0 <= j < |p.freeList| ==> p.freeList[j] < |p.entries|
                                                                  && p.entries[p.freeList[j]].state == FREE
  }

  /** The entry has been in the table. */
  ghost predicate Stamped(p: Part, i: nat)
    requires i < |p.entries|
  {
    p.entries[i].state != FREE && i !in p.owned
  }

  /** The stamps of partition `id`: id + 1, id + 1 + nparts, and so on. */
  ghost predicate StampOf(stamp: nat, id: nat, nparts: nat)
    requires nparts > 0
  {
    stamp == id + 1 || (stamp > nparts && StampOf(stamp - nparts, id, nparts))
  }

  /** No stamp belongs to two partitions. */
  lemma {:induction false} StampsApart(stamp: nat, a: nat, b: nat, nparts: nat)
    requires a < nparts && b < nparts && StampOf(stamp, a, nparts) && StampOf(stamp, b, nparts)
    ensures a == b
  {
    if stamp > nparts {
      StampsApart(stamp - nparts, a, b, nparts);
    }
  }

  /** Stamps are given out in steps of the number of partitions, each of them once. */
  ghost predicate StampsOk(p: Part)
  {
    && p.id < p.nparts && p.stamp > 0 && StampOf(p.stamp, p.id, p.nparts)
    && (forall i :: 0 <= i < |p.entries| && Stamped(p, i) ==>
          0 < p.entries[i].stamp < p.stamp && StampOf(p.entries[i].stamp, p.id, p.nparts))
    && (forall i, j :: 0 <= i < j < |p.entries| && Stamped(p, i) && Stamped(p, j)
                       ==> p.entries[i].stamp != p.entries[j].stamp)
  }

  ghost predicate Good(p: Part, pending: set<nat>)
  {
    && EntriesOk(p, pending) && TableOk(p) && BucketsOk(p) && FreeOk(p) && StampsOk(p)
    && p.volume == Volume(p.entries)
  }

  /** Every entry of the pool is either free, or in the table, or new, or out of the table and
      in use; there is one reference for the table or the owner, and one for each holder. */
  lemma EntryAccounted(p: Part, i: nat)
    requires Good(p, {}) && i < |p.entries|
    ensures var free := i in p.freeList;
            var linked := p.entries[i].key in p.table && p.table[p.entries[i].key] == i;
            var owned := i in p.owned;
            var used := !linked && p.holds[i] > 0;
            && (free || linked || owned || used)
            && !(free && linked) && !(free && owned) && !(free && used) && !(linked && owned) && !(owned && used)
            && (!free ==> p.entries[i].refs == p.holds[i] + if linked || owned then 1 else 0)
  {
    hide BucketsOk, StampsOk, Volume;
    assert EntryOk(p, i, {});
  }

  // ----- Lists ------------------------------------------------------------------------------------------

  function CutAt(list: seq<nat>, k: nat): (l: seq<nat>)
    requires k < |list|
    ensures |l| == |list| - 1 && forall j :: 0 <= j < |l| ==> l[j] == list[if j < k then j else j + 1]
  {
    list[..k] + list[k + 1..]
  }

  lemma CutDistinct(list: seq<nat>, k: nat)
    requires Distinct(list) && k < |list|
    ensures Distinct(CutAt(list, k)) && forall x :: x in CutAt(list, k) <==> x in list && x != list[k]
  {
    var l := CutAt(list, k);
    forall x ensures x in l <==> x in list && x != list[k] {
      if x in list && x != list[k] {
        var j :| 0 <= j < |list| && list[j] == x;
        assert l[if j < k then j else j - 1] == x;
      }
    }
  }

  // ----- Taking an entry out of the table ------------------------------------------------------------------

  /** Unlink the j-th entry of bucket b. */
  ghost function Unlinked(p: Part, b: nat, j: nat): Part
    requires b < |p.buckets| && j < |p.buckets[b]| && p.buckets[b][j] < |p.entries|
  {
    var i := p.buckets[b][j];
    var e := p.entries[i];
    p.(entries := p.entries[i := e.(state := NOT_USED)], buckets := p.buckets[b := CutAt(p.buckets[b], j)],
       table := p.table - {e.key}, volume := p.volume - EntrySize(e))
  }

  lemma UnlinkedOk(p: Part, b: nat, j: nat, pending: set<nat>)
    requires Good(p, pending) && b < |p.buckets| && j < |p.buckets[b]|
    ensures p.buckets[b][j] < |p.entries| && Linked(p.entries[p.buckets[b][j]])
    ensures Good(Unlinked(p, b, j), pending + {p.buckets[b][j]})
  {
    hide Volume;
    assert BucketOk(p.buckets[b], b, p);
    var i := p.buckets[b][j];
    var w := Unlinked(p, b, j);
    VolumeUpdate(p.entries, i, w.entries[i]);
    UnlinkedEntries(p, w, i, pending);
    UnlinkedBuckets(p, w, b, j);
    UnlinkedStamps(p, w, i);
  }

  lemma UnlinkedEntries(p: Part, w: Part, i: nat, pending: set<nat>)
    requires EntriesOk(p, pending) && TableOk(p) && FreeOk(p) && i < |p.entries| && Linked(p.entries[i])
    requires w == p.(entries := p.entries[i := p.entries[i].(state := NOT_USED)], table := p.table - {p.entries[i].key},
                     buckets := w.buckets, volume := w.volume)
    ensures EntriesOk(w, pending + {i}) && TableOk(w) && FreeOk(w)
  {
    assert EntryOk(p, i, pending);
    forall k | 0 <= k < |w.entries| ensures EntryOk(w, k, pending + {i}) {
      assert EntryOk(p, k, pending);
    }
  }

  lemma UnlinkedBuckets(p: Part, w: Part, b: nat, j: nat)
    requires BucketsOk(p) && b < |p.buckets| && j < |p.buckets[b]| && p.buckets[b][j] < |p.entries|
    requires w == Unlinked(p, b, j)
    ensures BucketsOk(w)
  {
    hide Bucket;
    var i := p.buckets[b][j];
    assert BucketOk(p.buckets[b], b, p);
    CutDistinct(p.buckets[b], j);
    forall c | 0 <= c < |w.buckets| ensures BucketOk(w.buckets[c], c, w) {
      assert BucketOk(p.buckets[c], c, p);
      assert c != b ==> i !in p.buckets[c];
    }
    forall k | 0 <= k < |w.entries| && Linked(w.entries[k]) ensures InBucket(w, k) {
      assert InBucket(p, k);
    }
  }

  lemma UnlinkedStamps(p: Part, w: Part, i: nat)
    requires StampsOk(p) && i < |p.entries| && Linked(p.entries[i])
    requires w.entries == p.entries[i := p.entries[i].(state := NOT_USED)] && w.owned == p.owned && w.stamp == p.stamp
    requires w.id == p.id && w.nparts == p.nparts
    ensures StampsOk(w)
  {
    hide StampOf;
    forall k | 0 <= k < |p.entries| ensures Stamped(w, k) <==> Stamped(p, k) {}
  }

  // ----- Putting an entry into the table ----------------------------------------------------------------------

  /** The owned entry i enters the table with the next stamp. */
  ghost function Inserted(p: Part, i: nat, state: nat): Part
    requires i < |p.entries| && p.nparts > 0
    requires 0 <= Bucket(|p.buckets|, p.nparts, p.entries[i].key) < |p.buckets|
  {
    var e := p.entries[i].(state := state, stamp := p.stamp);
    var b := Bucket(|p.buckets|, p.nparts, e.key);
    p.(entries := p.entries[i := e], buckets := p.buckets[b := [i] + p.buckets[b]], table := p.table[e.key := i],
       stamp := p.stamp + p.nparts, volume := p.volume + EntrySize(e), owned := p.owned - {i})
  }

  lemma BucketInRange(p: Part, key: Key)
    requires BucketsOk(p)
    ensures 0 <= Bucket(|p.buckets|, p.nparts, key) < |p.buckets|
  {
    IndexInRange(|p.buckets|, HashOf(key, p.nparts));
  }

  lemma InsertedOk(p: Part, i: nat, state: nat, pending: set<nat>)
    requires Good(p, pending) && i in p.owned && i < |p.entries| && p.entries[i].key !in p.table
    requires USED_MIN <= state <= USED_MAX
    ensures p.nparts > 0 && 0 <= Bucket(|p.buckets|, p.nparts, p.entries[i].key) < |p.buckets|
    ensures Good(Inserted(p, i, state), pending)
  {
    hide Volume, Bucket, StampOf;
    BucketInRange(p, p.entries[i].key);
    assert EntryOk(p, i, pending);
    var w := Inserted(p, i, state);
    VolumeUpdate(p.entries, i, w.entries[i]);
    InsertedEntries(p, w, i, pending);
    InsertedBuckets(p, w, i, state);
    InsertedStamps(p, w, i);
  }

  lemma InsertedEntries(p: Part, w: Part, i: nat, pending: set<nat>)
    requires EntriesOk(p, pending) && TableOk(p) && FreeOk(p) && i in p.owned && i < |p.entries|
    requires i < |w.entries| && Linked(w.entries[i]) && w.entries[i].key == p.entries[i].key
             && p.entries[i].key !in p.table
    requires w.entries[i].refs == p.entries[i].refs
    requires w == p.(entries := p.entries[i := w.entries[i]], table := p.table[p.entries[i].key := i],
                     owned := p.owned - {i}, buckets := w.buckets, volume := w.volume, stamp := w.stamp)
    ensures EntriesOk(w, pending) && TableOk(w) && FreeOk(w)
  {
    assert EntryOk(p, i, pending);
    forall k | 0 <= k < |w.entries| ensures EntryOk(w, k, pending) {
      assert EntryOk(p, k, pending);
    }
  }

  lemma InsertedBuckets(p: Part, w: Part, i: nat, state: nat)
    requires BucketsOk(p) && i < |p.entries| && !Linked(p.entries[i]) && USED_MIN <= state <= USED_MAX
    requires 0 <= Bucket(|p.buckets|, p.nparts, p.entries[i].key) < |p.buckets| && w == Inserted(p, i, state)
    ensures BucketsOk(w)
  {
    hide Bucket;
    forall c | 0 <= c < |w.buckets| ensures BucketOk(w.buckets[c], c, w) {
      assert BucketOk(p.buckets[c], c, p);
    }
    forall k | 0 <= k < |w.entries| && Linked(w.entries[k]) ensures InBucket(w, k) {
      if k != i {
        assert InBucket(p, k);
      }
    }
  }

  lemma InsertedStamps(p: Part, w: Part, i: nat)
    requires StampsOk(p) && i < |p.entries| == |w.entries| && i in p.owned
    requires w.entries == p.entries[i := w.entries[i]] && w.entries[i].stamp == p.stamp
    requires w.owned == p.owned - {i} && w.stamp == p.stamp + p.nparts && w.id == p.id && w.nparts == p.nparts
    ensures StampsOk(w)
  {
    assert StampOf(w.stamp, w.id, w.nparts);
    hide StampOf;
    forall k | 0 <= k < |p.entries| && k != i ensures Stamped(w, k) <==> Stamped(p, k) {}
  }

  // ----- References -------------------------------------------------------------------------------------------

  /** One reference less to entry i; the last one frees it. */
  ghost function Released(p: Part, i: nat): Part
    requires i < |p.entries| && p.entries[i].refs > 0
  {
    var e := p.entries[i].(refs := p.entries[i].refs - 1);
    if e.refs > 0 then p.(entries := p.entries[i := e])
    else p.(entries := p.entries[i := e.(state := FREE)], freeList := [i] + p.freeList)
  }

  /** Only entry i changes, and it is not in the table. */
  ghost predicate Detached(p: Part, w: Part, i: nat)
  {
    && i < |p.entries| == |w.entries| && w.entries == p.entries[i := w.entries[i]] && !Linked(p.entries[i])
        && !Linked(w.entries[i])
    && w == p.(entries := w.entries, freeList := w.freeList, holds := w.holds, owned := w.owned)
  }

  lemma DetachedOk(p: Part, w: Part, i: nat)
    requires TableOk(p) && BucketsOk(p) && p.volume == Volume(p.entries) && |w.entries| == |p.entries|
             && Detached(p, w, i)
    ensures TableOk(w) && BucketsOk(w) && w.volume == Volume(w.entries)
  {
    hide Bucket, Volume;
    VolumeUpdate(p.entries, i, w.entries[i]);
    forall c | 0 <= c < |w.buckets| ensures BucketOk(w.buckets[c], c, w) {
      assert BucketOk(p.buckets[c], c, p);
    }
    forall k | 0 <= k < |w.entries| && Linked(w.entries[k]) ensures InBucket(w, k) {
      assert InBucket(p, k);
    }
  }

  lemma DetachedStamps(p: Part, w: Part, i: nat)
    requires StampsOk(p) && |w.entries| == |p.entries| && Detached(p, w, i)
    requires w.entries[i].stamp == p.entries[i].stamp && (Stamped(w, i) ==> Stamped(p, i))
    requires forall k :: k != i ==> (k in w.owned <==> k in p.owned)
    ensures StampsOk(w)
  {
    hide StampOf;
    forall k | 0 <= k < |p.entries| && k != i ensures Stamped(w, k) <==> Stamped(p, k) {}
  }

  /** Dropping an entry that was taken out of the table. */
  lemma DroppedOk(p: Part, i: nat, pending: set<nat>)
    requires Good(p, pending) && i in pending
    ensures i < |p.entries| && p.entries[i].refs > 0 && !Linked(p.entries[i]) && Good(Released(p, i), pending - {i})
  {
    assert EntryOk(p, i, pending);
    var w := Released(p, i);
    DetachedOk(p, w, i);
    DetachedStamps(p, w, i);
    ReleasedEntries(p, w, i, pending, pending - {i});
  }

  /** The entries after a reference to i is gone. */
  lemma ReleasedEntries(p: Part, w: Part, i: nat, pending: set<nat>, left: set<nat>)
    requires EntriesOk(p, pending) && FreeOk(p) && i < |p.entries| && p.entries[i].state == NOT_USED && i !in p.owned
    requires p.entries[i].refs > 0
    requires |w.holds| == |p.holds| && w == Released(p, i).(holds := w.holds)
    requires forall k :: 0 <= k < |p.holds| && k != i ==> w.holds[k] == p.holds[k]
    requires w.holds[i] == p.entries[i].refs - 1 && left == pending - {i}
    ensures EntriesOk(w, left) && FreeOk(w)
  {
    forall k | 0 <= k < |w.entries| ensures EntryOk(w, k, left) {
      assert EntryOk(p, k, pending);
    }
  }

  /** Entry i stays in the table under its key and stamp, with its value. */
  ghost predicate Touched(p: Part, w: Part, i: nat)
  {
    && i < |p.entries| == |w.entries| == |p.holds| == |w.holds| && Linked(p.entries[i]) && Linked(w.entries[i])
    && w.entries[i].key == p.entries[i].key && w.entries[i].value == p.entries[i].value
    && w.entries[i].stamp == p.entries[i].stamp
    && w == p.(entries := p.entries[i := w.entries[i]], holds := p.holds[i := w.holds[i]])
  }

  lemma TouchedOk(p: Part, w: Part, i: nat, pending: set<nat>)
    requires Good(p, pending) && Touched(p, w, i) && w.entries[i].refs == 1 + w.holds[i]
    ensures Good(w, pending)
  {
    hide Bucket, Volume, StampOf;
    VolumeUpdate(p.entries, i, w.entries[i]);
    forall k | 0 <= k < |w.entries| ensures EntryOk(w, k, pending) {
      assert EntryOk(p, k, pending);
    }
    forall k | 0 <= k < |p.entries| ensures Stamped(w, k) <==> Stamped(p, k) {}
    TouchedBuckets(p, w, i);
  }

  lemma TouchedBuckets(p: Part, w: Part, i: nat)
    requires BucketsOk(p) && Touched(p, w, i)
    ensures BucketsOk(w)
  {
    hide Bucket;
    forall c | 0 <= c < |w.buckets| ensures BucketOk(w.buckets[c], c, w) {
      assert BucketOk(p.buckets[c], c, p);
    }
    forall k | 0 <= k < |w.entries| && Linked(w.entries[k]) ensures InBucket(w, k) {
      assert InBucket(p, k);
    }
  }

  /** A holder is done with entry i. */
  ghost function Unheld(p: Part, i: nat): Part
    requires i < |p.entries| && i < |p.holds| && p.holds[i] > 0 && p.entries[i].refs > 0
  {
    Released(p, i).(holds := p.holds[i := p.holds[i] - 1])
  }

  lemma UnheldOk(p: Part, i: nat)
    requires Good(p, {}) && i < |p.entries| && p.holds[i] > 0
    ensures p.entries[i].refs > 0 && Good(Unheld(p, i), {})
  {
    assert EntryOk(p, i, {});
    var w := Unheld(p, i);
    if Linked(p.entries[i]) {
      TouchedOk(p, w, i, {});
    } else {
      DetachedOk(p, w, i);
      DetachedStamps(p, w, i);
      ReleasedEntries(p, w, i, {}, {});
    }
  }

  // ----- New entries ----------------------------------------------------------------------------------------------

  function FreshEntry(key: Key, stamp: nat): Entry
  {
    Entry(key, [], 0, 0, stamp, NOT_USED, 1)
  }

  /** Reuse the first free entry. */
  ghost function Reused(p: Part, key: Key): Part
    requires p.freeList != [] && p.freeList[0] < |p.entries|
  {
    var i := p.freeList[0];
    p.(entries := p.entries[i := FreshEntry(key, p.entries[i].stamp)], freeList := p.freeList[1..],
        owned := p.owned + {i})
  }

  lemma ReusedOk(p: Part, key: Key)
    requires Good(p, {}) && p.freeList != []
    ensures p.freeList[0] < |p.entries| && p.freeList[0] !in p.owned && Good(Reused(p, key), {})
  {
    var i := p.freeList[0];
    var w := Reused(p, key);
    assert EntryOk(p, i, {});
    DetachedOk(p, w, i);
    DetachedStamps(p, w, i);
    assert FreeOk(w) by {
      assert forall j :: 0 <= j < |w.freeList| ==> w.freeList[j] == p.freeList[j + 1];
    }
    forall k | 0 <= k < |w.entries| ensures EntryOk(w, k, {}) {
      assert EntryOk(p, k, {});
      if k in p.freeList && k != i {
        StillThere(p.freeList, k);
      }
    }
  }

  lemma StillThere(list: seq<nat>, k: nat)
    requires k in list && list[0] != k
    ensures k in list[1..]
  {
    var j :| 0 <= j < |list| && list[j] == k;
    assert list[1..][j - 1] == k;
  }

  /** Use the next void entry. */
  ghost function Extended(p: Part, key: Key): Part
  {
    p.(entries := p.entries + [FreshEntry(key, 0)], holds := p.holds + [0], owned := p.owned + {|p.entries|})
  }

  lemma ExtendedOk(p: Part, key: Key)
    requires Good(p, {})
    ensures |p.entries| !in p.owned && Good(Extended(p, key), {})
  {
    hide Bucket, Volume, StampOf;
    var w := Extended(p, key);
    var n := |p.entries|;
    assert forall k :: 0 <= k < n ==> w.entries[k] == p.entries[k] && w.holds[k] == p.holds[k];
    VolumeAppend(p.entries, w.entries[n]);
    forall k | 0 <= k < |w.entries| ensures EntryOk(w, k, {}) {
      if k < n {
        assert EntryOk(p, k, {});
      }
    }
    forall k | 0 <= k < n ensures Stamped(w, k) <==> Stamped(p, k) {}
    ExtendedBuckets(p, w, key);
  }

  lemma ExtendedBuckets(p: Part, w: Part, key: Key)
    requires BucketsOk(p) && w == Extended(p, key)
    ensures BucketsOk(w)
  {
    hide Bucket;
    forall c | 0 <= c < |w.buckets| ensures BucketOk(w.buckets[c], c, w) {
      assert BucketOk(p.buckets[c], c, p);
    }
    forall k | 0 <= k < |w.entries| && Linked(w.entries[k]) ensures InBucket(w, k) {
      assert InBucket(p, k);
    }
  }

  /** The owner gives up a new entry. */
  ghost function Cancelled(p: Part, i: nat): Part
    requires i < |p.entries|
  {
    p.(entries := p.entries[i := p.entries[i].(state := FREE)], freeList := [i] + p.freeList, owned := p.owned - {i})
  }

  lemma CancelledOk(p: Part, i: nat)
    requires Good(p, {}) && i in p.owned
    ensures i < |p.entries| && Good(Cancelled(p, i), {})
  {
    assert EntryOk(p, i, {});
    var w := Cancelled(p, i);
    DetachedOk(p, w, i);
    DetachedStamps(p, w, i);
    forall k | 0 <= k < |w.entries| ensures EntryOk(w, k, {}) {
      assert EntryOk(p, k, {});
    }
  }

  /** The owner writes the data of a new entry. */
  ghost function Written(p: Part, i: nat, value: seq<char>, flags: nat, exp: nat): Part
    requires i < |p.entries|
  {
    p.(entries := p.entries[i := p.entries[i].(value := value, flags := flags, exp := exp)])
  }

  lemma WrittenOk(p: Part, i: nat, value: seq<char>, flags: nat, exp: nat, pending: set<nat>)
    requires Good(p, pending) && i in p.owned
    ensures i < |p.entries| && Good(Written(p, i, value, flags, exp), pending)
  {
    assert EntryOk(p, i, pending);
    var w := Written(p, i, value, flags, exp);
    DetachedOk(p, w, i);
    DetachedStamps(p, w, i);
    forall k | 0 <= k < |w.entries| ensures EntryOk(w, k, pending) {
      assert EntryOk(p, k, pending);
    }
  }

  // ----- Scanning a bucket ------------------------------------------------------------------------------------------

  /** The entries `out` left the table and nothing else happened. */
  ghost predicate TakenOut(p: Part, w: Part, out: seq<nat>)
  {
    && |w.entries| == |p.entries| && Distinct(out) && (forall i :: i in out ==> i < |p.entries| && Linked(p.entries[i]))
    && (forall i :: 0 <= i < |p.entries| ==> w.entries[i] == if i in out then p.entries[i].(state := NOT_USED)
        else p.entries[i])
    && (forall k :: k in w.table <==> k in p.table && p.table[k] !in out)
    && (forall k :: k in w.table ==> w.table[k] == p.table[k])
    && w == p.(entries := w.entries, buckets := w.buckets, table := w.table, volume := w.volume)
    && |w.buckets| == |p.buckets|
  }

  lemma TakenOutNone(p: Part)
    ensures TakenOut(p, p, [])
  {}

  lemma TakenOutMore(p: Part, w: Part, out: seq<nat>, b: nat, j: nat)
    requires TakenOut(p, w, out) && TableOk(p) && TableOk(w) && b < |w.buckets| && j < |w.buckets[b]|
    requires var i := w.buckets[b][j];
             i < |w.entries| && Linked(w.entries[i]) && w.entries[i].key in w.table && w.table[w.entries[i].key] == i
    ensures TakenOut(p, Unlinked(w, b, j), [w.buckets[b][j]] + out)
  {
    var i := w.buckets[b][j];
    var x := Unlinked(w, b, j);
    var more := [i] + out;
    assert i !in out;
    assert forall k :: k in more <==> k == i || k in out;
    forall k ensures k in x.table <==> k in p.table && p.table[k] !in more {
      if k in w.table && w.table[k] == i {
        assert w.entries[i].key == k;
      }
    }
  }

  // ----- Growing the table by a stride -------------------------------------------------------------------------------

  /** Entry i is in bucket b after `count` buckets of a stride. */
  ghost predicate Goes(p: Part, i: nat, used: nat, count: nat, b: int)
    requires p.nparts > 0
  {
    i < |p.entries| && Linked(p.entries[i]) && Where(used, count, HashOf(p.entries[i].key, p.nparts)) == b
  }

  /** The bucket has exactly the entries that are there after `count` buckets of a stride. */
  ghost predicate HasAll(p: Part, bucket: seq<nat>, used: nat, count: nat, b: int)
    requires p.nparts > 0
  {
    Distinct(bucket) && forall i: nat :: i in bucket <==> Goes(p, i, used, count, b)
  }

  ghost predicate Strided(p: Part, buckets: seq<seq<nat>>, used: nat, count: nat)
    requires p.nparts > 0
  {
    |buckets| == used + STRIDE && forall b :: 0 <= b < |buckets| ==> HasAll(p, buckets[b], used, count, b)
  }

  lemma StrideBegins(p: Part)
    requires BucketsOk(p)
    ensures Strided(p, p.buckets + seq(STRIDE, _ => []), |p.buckets|, 0)
  {
    hide Index, HashOf;
    var used := |p.buckets|;
    var w := p.buckets + seq(STRIDE, _ => []);
    forall b | 0 <= b < |w| ensures HasAll(p, w[b], used, 0, b) {
      if b < used {
        assert BucketOk(p.buckets[b], b, p);
      }
      forall i: nat ensures i in w[b] <==> Goes(p, i, used, 0, b) {
        if i < |p.entries| && Linked(p.entries[i]) {
          assert InBucket(p, i);
        }
      }
    }
  }

  /** The list of a bucket is cut in two by the index for twice the power of two. */
  ghost predicate Splits(p: Part, bucket: seq<nat>, s: seq<nat>, t: seq<nat>, source: int, n: nat)
    requires p.nparts > 0
  {
    && Distinct(s) && Distinct(t)
    && (forall i :: i in s <==> i in bucket && HasIndex(p, i, n, source))
    && (forall i :: i in t <==> i in bucket && !HasIndex(p, i, n, source))
  }

  predicate HasIndex(p: Part, i: nat, n: nat, index: int)
    requires p.nparts > 0
  {
    i < |p.entries| && LowBits(HashOf(p.entries[i].key, p.nparts), n) == index
  }

  /** Taking one more bucket of a stride. */
  lemma StrideStep(p: Part, before: seq<seq<nat>>, used: nat, count: nat, s: seq<nat>, t: seq<nat>)
    requires p.nparts > 0 && used > 0 && count < STRIDE && Strided(p, before, used, count)
    requires LowerPow2(used) <= used
    requires var b := used - LowerPow2(used) + count; Splits(p, before[b], s, t, b, 2 * LowerPow2(used))
    ensures var b := used - LowerPow2(used) + count;
            && Strided(p, before[b := s][used + count := t], used, count + 1)
            && forall i :: i in t ==> HasIndex(p, i, 2 * LowerPow2(used), used + count)
  {
    hide Where, LowBits, LowerPow2, HashOf, Distinct;
    var half := LowerPow2(used);
    var b := used - half + count;
    var w := before[b := s][used + count := t];
    assert HasAll(p, before[b], used, count, b);
    forall i: nat | i < |p.entries|
      ensures var h := HashOf(p.entries[i].key, p.nparts);
              && Where(used, count, h) != b + half
              && (Where(used, count, h) == b && LowBits(h, 2 * half) != b ==> LowBits(h, 2 * half) == b + half)
              && Where(used, count + 1, h) ==
                   if Where(used, count, h) == b then LowBits(h, 2 * half) else Where(used, count, h)
    {
      WhereStep(used, count, HashOf(p.entries[i].key, p.nparts));
    }
    forall c | 0 <= c < |w| ensures HasAll(p, w[c], used, count + 1, c) {
      assert HasAll(p, before[c], used, count, c);
    }
  }

  /** A linked entry can be found after a stride exactly if it is not misplaced, and the buckets are
      as they should be exactly if no linked entry is misplaced. */
  lemma StridedOk(p: Part, w: Part)
    requires p.nparts > 0 && |p.buckets| > 0 && w == p.(buckets := w.buckets)
    requires Strided(p, w.buckets, |p.buckets|, STRIDE)
    ensures forall i :: 0 <= i < |p.entries| && Linked(p.entries[i]) ==>
              (InBucket(w, i) <==> !Misplaced(|p.buckets|, HashOf(p.entries[i].key, p.nparts)))
    ensures BucketsOk(w) <==> AllPlaced(p, |p.buckets|)
  {
    hide Index, HashOf, Where, Distinct;
    var used := |p.buckets|;
    forall i | 0 <= i < |p.entries| && Linked(p.entries[i])
      ensures InBucket(w, i) <==> !Misplaced(used, HashOf(p.entries[i].key, p.nparts))
    {
      var b := Bucket(|w.buckets|, p.nparts, p.entries[i].key);
      IndexInRange(|w.buckets|, HashOf(p.entries[i].key, p.nparts));
      assert HasAll(p, w.buckets[b], used, STRIDE, b);
    }
    if AllPlaced(p, used) {
      forall b | 0 <= b < |w.buckets| ensures BucketOk(w.buckets[b], b, w) {
        assert HasAll(p, w.buckets[b], used, STRIDE, b);
        forall j | 0 <= j < |w.buckets[b]|
          ensures && w.buckets[b][j] < |w.entries| && Linked(w.entries[w.buckets[b][j]])
                  && Bucket(|w.buckets|, w.nparts, w.entries[w.buckets[b][j]].key) == b
        {
          assert w.buckets[b][j] in w.buckets[b];
          assert Goes(p, w.buckets[b][j], used, STRIDE, b);
        }
      }
    }
  }

  /** No entry in the table has a hash value that a stride misplaces. */
  ghost predicate AllPlaced(p: Part, used: nat)
    requires p.nparts > 0
  {
    forall i :: 0 <= i < |p.entries| && Linked(p.entries[i]) ==> !Misplaced(used, HashOf(p.entries[i].key, p.nparts))
  }
}
