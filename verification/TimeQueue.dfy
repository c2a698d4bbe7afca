/** The three-tier time queue (src/base/timeq.c, src/base/timeq.h).

    Entries live in a sorted front end, in T1 buckets of equal width, or in the unsorted T2
    list.  The queue is specified as a plain stable priority queue: the set of queued entries
    with the order in which they were inserted. */
module TimeQueue {
  import opened Common

  const TIMEVAL_MIN: int := -0x8000_0000_0000_0000
  const TIMEVAL_MAX: int := 0x7fff_ffff_ffff_ffff

  type Time = t: int | TIMEVAL_MIN <= t <= TIMEVAL_MAX

  /** A queue entry; `ident` stands for its identity. */
  datatype Entry = Entry(ident: int, value: Time)

  // Places of an entry other than a T1 bucket number.
  const IN_T2: int := -2
  const IN_FE: int := -3

  const WIDTH_MIN: int := 1
  const COUNT_MIN: int := 4

  // ----- Arithmetic of buckets ----------------------------------------------------------

  /** The lower bound of the bucket that is `k` buckets past the one at `start`. */
  ghost function Low(start: int, width: int, k: int): int
  {
    if k <= 0 then start else Low(start, width, k - 1) + width
  }

  lemma {:induction false} LowProduct(start: int, width: int, k: nat)
    ensures Low(start, width, k) == start + k * width
  {
    if k > 0 {
      LowProduct(start, width, k - 1);
      assert k * width == (k - 1) * width + width;
    }
  }

  lemma {:induction false} LowShift(start: int, width: int, k: nat)
    ensures Low(start + width, width, k) == Low(start, width, k) + width
  {
    if k > 0 {
      LowShift(start, width, k - 1);
    }
  }

  lemma {:induction false} LowMonotone(start: int, width: int, j: int, k: int)
    requires j <= k && width >= 0
    ensures Low(start, width, j) <= Low(start, width, k)
    decreases k - j
  {
    if j < k {
      LowMonotone(start, width, j, k - 1);
    }
  }

  /** The bucket that an insert computes by division contains the value. */
  lemma BucketContains(start: int, width: int, value: int)
    requires width > 0 && start <= value
    ensures var k := (value - start) / width; 0 <= k && Low(start, width, k) <= value < Low(start, width, k) + width
  {
    var a := value - start;
    assert a == (a / width) * width + a % width;
    LowProduct(start, width, a / width);
  }

  lemma BucketInRange(start: int, width: int, value: int, n: int)
    requires width > 0 && start <= value < Low(start, width, n)
    ensures (value - start) / width < n
  {
    BucketContains(start, width, value);
    var k := (value - start) / width;
    if k >= n {
      LowMonotone(start, width, n, k);
    }
  }

  // ----- T1 geometry chosen by a rebuild ------------------------------------------------

  /** A setting keeps to its minimum and maximum if they agree; no maximum is written as zero. */
  predicate Within(x: int, min: int, max: int)
  {
    x >= 1 && (max == 0 || min <= max ==> min <= x) && (min <= max ==> x <= max)
  }

  /** The bucket width for n entries spread over `range`. */
  function NewWidth(range: int, n: nat, widthMin: int, widthMax: int): (w: int)
    requires n > 0 && widthMin >= 1 && widthMax >= 0
    ensures Within(w, widthMin, widthMax)
  {
    var w := range / n;
    if w < widthMin then widthMin else if widthMax != 0 && w > widthMax then widthMax else w
  }

  function NewCount(range: int, width: int, countMin: int, countMax: int): (c: int)
    requires range >= 0 && width >= 1 && countMin >= 1 && countMax >= 0
    ensures Within(c, countMin, countMax)
  {
    var c := range / width;
    if c < countMin then countMin else if countMax != 0 && c > countMax then countMax else c
  }

  /** Without a width cap a rebuild on n entries asks for at most max(countMin, 2n - 1)
      buckets, whatever the spread of the values. */
  lemma RebuildBound(range: int, n: nat, widthMin: int, countMin: int, countMax: int)
    requires n > 0 && range >= 0 && widthMin >= 1 && countMin >= 1 && countMax >= 0
    ensures var c := NewCount(range, NewWidth(range, n, widthMin, 0), countMin, countMax);
            c <= countMin || c <= 2 * n - 1
  {
    var w := NewWidth(range, n, widthMin, 0);
    var q := range / n;
    assert range == q * n + range % n && range % n < n;
    assert q * n <= w * n by { assert q <= w; }
    QuotientBound(range, w, n);
  }

  /** Without a cap on their number the new buckets reach all of T2 but the last part of it, which is
      shorter than one bucket. */
  lemma RebuildCovers(range: int, n: nat, widthMin: int, widthMax: int, countMin: int)
    requires n > 0 && range >= 0 && widthMin >= 1 && widthMax >= 0 && countMin >= 1
    ensures var w := NewWidth(range, n, widthMin, widthMax); range < w * NewCount(range, w, countMin, 0) + w
  {
    var w := NewWidth(range, n, widthMin, widthMax);
    QuotientCovers(range, w, NewCount(range, w, countMin, 0));
  }

  lemma QuotientCovers(a: int, w: int, c: int)
    requires a >= 0 && w >= 1 && a / w <= c
    ensures a < w * c + w
  {
    var q := a / w;
    assert a == q * w + a % w;
    Products(w, w, q, c);
  }

  /** The end of the new buckets is a 64-bit time if the range of the values, times the minimum number
      of buckets, leaves room for it, whatever the other settings. */
  lemma EndInRange(start: int, range: int, n: nat, widthMin: int, widthMax: int, countMin: int, countMax: int)
    requires n > 0 && range >= 0 && widthMin >= 1 && widthMax >= 0 && countMin >= 1 && countMax >= 0
    requires start + countMin * (range + widthMin) <= TIMEVAL_MAX
    ensures var w := NewWidth(range, n, widthMin, widthMax);
            start + w * NewCount(range, w, countMin, countMax) <= TIMEVAL_MAX
  {
    var w := NewWidth(range, n, widthMin, widthMax);
    var c := NewCount(range, w, countMin, countMax);
    assert w <= range + widthMin by { QuotientAtMost(range, n); }
    assert c <= countMin || c <= range / w;
    if c <= countMin {
      Products(w, range + widthMin, c, countMin);
    } else {
      Products(w, w, c, range / w);
      assert w * (range / w) <= range;
      Products(1, countMin, range, range + widthMin);
    }
  }

  lemma QuotientAtMost(a: int, n: nat)
    requires a >= 0 && n > 0
    ensures a / n <= a
  {
    var q := a / n;
    assert a == q * n + a % n;
    Products(1, n, q, q);
  }

  lemma Products(a: int, b: int, c: int, d: int)
    requires 0 <= a <= b && 0 <= c <= d
    ensures a * c <= b * d == d * b
  {}

  /** Two entries at the start and at the end of time are too far apart. */
  lemma EndOverflows()
    ensures var w := NewWidth(TIMEVAL_MAX, 2, WIDTH_MIN, 0);
            0 + w * NewCount(TIMEVAL_MAX, w, COUNT_MIN, 0) > TIMEVAL_MAX
  {}

  lemma QuotientBound(a: int, w: int, n: int)
    requires w >= 1 && n >= 1 && a < w * n + n
    ensures a / w < 2 * n
  {
    assert a == a / w * w + a % w;
    assert n <= n * w;
    assert a < 2 * n * w;
  }

  // ----- Order --------------------------------------------------------------------------

  /** Earlier in the stable order: by value, then by order of insertion. */
  ghost predicate Before(a: Entry, b: Entry, stamp: map<Entry, nat>)
    requires a in stamp && b in stamp
  {
    a.value < b.value || (a.value == b.value && stamp[a] < stamp[b])
  }

  ghost predicate Known(q: seq<Entry>, stamp: map<Entry, nat>)
  {
    forall i :: 0 <= i < |q| ==> q[i] in stamp
  }

  ghost predicate ByStamp(q: seq<Entry>, stamp: map<Entry, nat>)
  {
    Known(q, stamp) && forall i, j :: 0 <= i < j < |q| ==> stamp[q[i]] < stamp[q[j]]
  }

  ghost predicate ByValue(q: seq<Entry>, stamp: map<Entry, nat>)
  {
    Known(q, stamp) && forall i, j :: 0 <= i < j < |q| ==> Before(q[i], q[j], stamp)
  }

  /** Every entry of q was inserted before e. */
  ghost predicate Older(q: seq<Entry>, e: Entry, stamp: map<Entry, nat>)
  {
    e in stamp && forall i :: 0 <= i < |q| ==> q[i] in stamp && stamp[q[i]] < stamp[e]
  }

  ghost predicate Tagged(q: seq<Entry>, tag: int, place: map<Entry, int>)
  {
    forall i :: 0 <= i < |q| ==> q[i] in place && place[q[i]] == tag
  }

  // ----- The state of a queue as a value -------------------------------------------------

  datatype View = View(fe: seq<Entry>,
                       t1: seq<seq<Entry>>, start: int, width: int, index: nat,
                       t2: seq<Entry>, t2Start: int, t2Min: int, t2Max: int, t2Num: int,
                       place: map<Entry, int>, stamp: map<Entry, nat>, clock: nat)

  /** T2 begins where the last T1 bucket ends. */
  ghost predicate Geometry(v: View)
  {
    && v.index <= |v.t1| && v.width >= 0 && (v.index < |v.t1| ==> v.width >= 1)
    && v.t2Start == Low(v.start, v.width, |v.t1| - v.index)
  }

  ghost predicate FrontOk(v: View)
  {
    && ByValue(v.fe, v.stamp) && Tagged(v.fe, IN_FE, v.place)
    && forall i :: 0 <= i < |v.fe| ==> v.fe[i].value < v.start
  }

  ghost predicate BucketOk(q: seq<Entry>, k: int, v: View)
  {
    && ByStamp(q, v.stamp) && Tagged(q, k, v.place) && (k < v.index ==> q == [])
    && forall i :: 0 <= i < |q| ==>
         Low(v.start, v.width, k - v.index) <= q[i].value < Low(v.start, v.width, k - v.index) + v.width
  }

  ghost predicate BucketsOk(v: View)
  {
    forall k :: 0 <= k < |v.t1| ==> BucketOk(v.t1[k], k, v)
  }

  ghost predicate BackOk(v: View)
  {
    && ByStamp(v.t2, v.stamp) && Tagged(v.t2, IN_T2, v.place) && v.t2Num == |v.t2|
    && forall i :: 0 <= i < |v.t2| ==> v.t2Start <= v.t2[i].value && v.t2Min <= v.t2[i].value <= v.t2Max
  }

  ghost predicate OnList(e: Entry, v: View)
  {
    e in v.place &&
    (if v.place[e] == IN_FE then e in v.fe
     else if v.place[e] == IN_T2 then e in v.t2
     else 0 <= v.place[e] < |v.t1| && e in v.t1[v.place[e]])
  }

  /** Every queued entry is on the list its place names; the loose ones are being moved. */
  ghost predicate PlacesOk(v: View, loose: seq<Entry>)
  {
    && (forall e :: e in v.stamp ==> e in loose || OnList(e, v))
    && (forall e :: e in loose ==> e !in v.place)
    && ByStamp(loose, v.stamp)
    && (forall e :: e in v.place ==> e in v.stamp)
    && (forall e :: e in v.stamp ==> v.stamp[e] < v.clock)
  }

  ghost predicate Good(v: View, loose: seq<Entry>)
  {
    Geometry(v) && FrontOk(v) && BucketsOk(v) && BackOk(v) && PlacesOk(v, loose)
  }

  function Elements(q: seq<Entry>): set<Entry>
  {
    set e | e in q
  }

  lemma EmptyGood(v: View)
    requires v.fe == [] && v.t1 == [] && v.t2 == [] && v.index == 0 && v.width == 0 && v.t2Num == 0
    requires v.start == v.t2Start && v.place == map[] && v.stamp == map[]
    ensures Good(v, [])
  {}

  // ----- What each move keeps ------------------------------------------------------------

  /** Filing the first loose entry keeps the other lists and the places. */
  lemma FiledPlaces(v: View, w: View, e: Entry, rest: seq<Entry>, tag: int)
    requires PlacesOk(v, [e] + rest) && OnList(e, w)
    requires w.place == v.place[e := tag] && w.stamp == v.stamp && w.clock == v.clock
    requires |v.t1| <= |w.t1|
    requires forall x :: x in v.fe ==> x in w.fe
    requires forall x :: x in v.t2 ==> x in w.t2
    requires forall k, x :: 0 <= k < |v.t1| && x in v.t1[k] ==> x in w.t1[k]
    ensures PlacesOk(w, rest)
  {
    var loose := [e] + rest;
    assert loose[0] == e && loose[1..] == rest;
    forall x | x in rest ensures x in v.stamp && x !in w.place {
      var i :| 0 <= i < |rest| && rest[i] == x;
      assert loose[i + 1] == x;
    }
    forall x | x in v.stamp && x !in rest ensures OnList(x, w) {
      if x != e {
        assert x !in loose;
        assert OnList(x, v);
      }
    }
  }

  /** Putting e into a list at position i. */
  function PutAt(q: seq<Entry>, i: nat, e: Entry): (r: seq<Entry>)
    requires i <= |q|
    ensures |r| == |q| + 1 && r[i] == e
    ensures forall j :: 0 <= j < |q| ==> r[if j < i then j else j + 1] == q[j]
    ensures forall x :: x in r <==> x in q || x == e
  {
    assert q == q[..i] + q[i..];
    q[..i] + [e] + q[i..]
  }

  lemma FrontSorted(fe: seq<Entry>, e: Entry, i: nat, stamp: map<Entry, nat>)
    requires ByValue(fe, stamp) && Older(fe, e, stamp)
    requires i <= |fe| && (i > 0 ==> fe[i - 1].value <= e.value) && (i < |fe| ==> e.value < fe[i].value)
    ensures ByValue(PutAt(fe, i, e), stamp)
  {
    var r := PutAt(fe, i, e);
    forall j | 0 <= j < |fe| ensures if j < i then Before(fe[j], e, stamp) else Before(e, fe[j], stamp) {
      if j < i - 1 {
        assert Before(fe[j], fe[i - 1], stamp);
      } else if j > i {
        assert Before(fe[i], fe[j], stamp);
      }
    }
    forall j | 0 <= j < |r| ensures r[j] == if j < i then fe[j] else if j == i then e else fe[j - 1] {}
  }

  lemma FrontTagged(fe: seq<Entry>, e: Entry, i: nat, place: map<Entry, int>, start: int)
    requires Tagged(fe, IN_FE, place) && i <= |fe| && e.value < start
    requires forall j :: 0 <= j < |fe| ==> fe[j].value < start
    ensures Tagged(PutAt(fe, i, e), IN_FE, place[e := IN_FE])
    ensures forall j :: 0 <= j <= |fe| ==> PutAt(fe, i, e)[j].value < start
  {
    forall j | 0 <= j <= |fe|
      ensures PutAt(fe, i, e)[j] == if j < i then fe[j] else if j == i then e else fe[j - 1]
    {}
  }

  lemma FrontKept(v: View, w: View, e: Entry, i: nat)
    requires FrontOk(v) && e.value < v.start && Older(v.fe, e, v.stamp)
    requires i <= |v.fe| && (i > 0 ==> v.fe[i - 1].value <= e.value) && (i < |v.fe| ==> e.value < v.fe[i].value)
    requires w == v.(fe := PutAt(v.fe, i, e), place := v.place[e := IN_FE])
    ensures FrontOk(w)
  {
    FrontSorted(v.fe, e, i, v.stamp);
    FrontTagged(v.fe, e, i, v.place, v.start);
  }

  lemma FrontPlaces(v: View, w: View, e: Entry, i: nat, rest: seq<Entry>)
    requires PlacesOk(v, [e] + rest) && i <= |v.fe|
    requires w == v.(fe := PutAt(v.fe, i, e), place := v.place[e := IN_FE])
    ensures PlacesOk(w, rest) && e !in v.place
  {
    assert ([e] + rest)[0] == e;
    FiledPlaces(v, w, e, rest, IN_FE);
  }

  /** Naming a place for an entry that has none keeps the lists it does not join. */
  lemma BucketsKept(v: View, w: View, e: Entry)
    requires BucketsOk(v) && e !in v.place
    requires e in w.place && w.place == v.place[e := w.place[e]]
    requires w == v.(fe := w.fe, t2 := w.t2, t2Min := w.t2Min, t2Max := w.t2Max, t2Num := w.t2Num, place := w.place)
    ensures BucketsOk(w)
  {
    forall k | 0 <= k < |w.t1| ensures BucketOk(w.t1[k], k, w) {
      assert BucketOk(v.t1[k], k, v);
    }
  }

  lemma FrontFiled(v: View, w: View, e: Entry, i: nat, rest: seq<Entry>)
    requires Good(v, [e] + rest) && e.value < v.start && Older(v.fe, e, v.stamp)
    requires i <= |v.fe| && (i > 0 ==> v.fe[i - 1].value <= e.value) && (i < |v.fe| ==> e.value < v.fe[i].value)
    requires w == v.(fe := PutAt(v.fe, i, e), place := v.place[e := IN_FE])
    ensures Good(w, rest)
  {
    FrontPlaces(v, w, e, i, rest);
    FrontKept(v, w, e, i);
    BucketsKept(v, w, e);
  }

  lemma BackKept(v: View, w: View, e: Entry)
    requires BackOk(v) && v.t2Start <= e.value && Older(v.t2, e, v.stamp)
    requires w == v.(t2 := v.t2 + [e], t2Num := v.t2Num + 1, place := v.place[e := IN_T2],
                     t2Min := if v.t2Min > e.value then e.value else v.t2Min,
                     t2Max := if v.t2Max < e.value then e.value else v.t2Max)
    ensures BackOk(w)
  {}

  lemma BackFiled(v: View, w: View, e: Entry, rest: seq<Entry>)
    requires Good(v, [e] + rest) && v.t2Start <= e.value && Older(v.t2, e, v.stamp)
    requires w == v.(t2 := v.t2 + [e], t2Num := v.t2Num + 1, place := v.place[e := IN_T2],
                     t2Min := if v.t2Min > e.value then e.value else v.t2Min,
                     t2Max := if v.t2Max < e.value then e.value else v.t2Max)
    ensures Good(w, rest)
  {
    assert ([e] + rest)[0] == e;
    FiledPlaces(v, w, e, rest, IN_T2);
    BackKept(v, w, e);
    BucketsKept(v, w, e);
  }

  /** The bucket that an insert computes. */
  function BucketOf(v: View, value: int): int
    requires v.width > 0
  {
    v.index + (value - v.start) / v.width
  }

  lemma BucketOfInRange(v: View, value: int)
    requires Geometry(v) && v.start <= value < v.t2Start
    ensures v.width > 0 && v.index <= BucketOf(v, value) < |v.t1|
    ensures var k := BucketOf(v, value) - v.index;
            Low(v.start, v.width, k) <= value < Low(v.start, v.width, k) + v.width
  {
    assert v.index < |v.t1|;
    BucketContains(v.start, v.width, value);
    BucketInRange(v.start, v.width, value, |v.t1| - v.index);
  }

  lemma BucketKept(v: View, w: View, e: Entry, k: int)
    requires BucketsOk(v) && e !in v.place && v.index <= k < |v.t1| && Older(v.t1[k], e, v.stamp)
    requires Low(v.start, v.width, k - v.index) <= e.value < Low(v.start, v.width, k - v.index) + v.width
    requires w == v.(t1 := v.t1[k := v.t1[k] + [e]], place := v.place[e := k])
    ensures BucketsOk(w)
  {
    hide Low;
    forall j | 0 <= j < |w.t1| ensures BucketOk(w.t1[j], j, w) {
      assert BucketOk(v.t1[j], j, v);
    }
  }

  lemma BucketFiled(v: View, w: View, e: Entry, k: int, rest: seq<Entry>)
    requires Good(v, [e] + rest) && v.index <= k < |v.t1| && Older(v.t1[k], e, v.stamp)
    requires Low(v.start, v.width, k - v.index) <= e.value < Low(v.start, v.width, k - v.index) + v.width
    requires w == v.(t1 := v.t1[k := v.t1[k] + [e]], place := v.place[e := k])
    ensures Good(w, rest)
  {
    assert ([e] + rest)[0] == e;
    assert OnList(e, w) by { assert e in v.t1[k] + [e]; }
    FiledPlaces(v, w, e, rest, k);
    BucketKept(v, w, e, k);
  }

  // ----- Entering and leaving the queue ---------------------------------------------------

  lemma Stamped(v: View, w: View, e: Entry)
    requires Good(v, []) && e !in v.stamp
    requires w == v.(stamp := v.stamp[e := v.clock], clock := v.clock + 1)
    ensures Good(w, [e])
    ensures Older(v.fe, e, w.stamp) && Older(v.t2, e, w.stamp)
    ensures forall k :: 0 <= k < |v.t1| ==> Older(v.t1[k], e, w.stamp)
  {
    hide Low, BucketOk, BucketsOk, FrontOk, BackOk;
    forall k | 0 <= k < |w.t1| ensures BucketOk(w.t1[k], k, w) && Older(v.t1[k], e, w.stamp) {
      StampedBucket(v, w, e, k);
    }
    assert BucketsOk(w) by { StampedBuckets(w); }
    forall x | x in w.stamp && x != e ensures OnList(x, w) {
      assert OnList(x, v);
    }
    StampedLists(v, w, e);
  }

  lemma StampedBuckets(w: View)
    requires forall k :: 0 <= k < |w.t1| ==> BucketOk(w.t1[k], k, w)
    ensures BucketsOk(w)
  {}

  lemma StampedBucket(v: View, w: View, e: Entry, k: int)
    requires Good(v, []) && e !in v.stamp && 0 <= k < |v.t1|
    requires w == v.(stamp := v.stamp[e := v.clock], clock := v.clock + 1)
    ensures BucketOk(w.t1[k], k, w) && Older(v.t1[k], e, w.stamp)
  {
    hide Low, FrontOk, BackOk;
    assert BucketOk(v.t1[k], k, v);
  }

  lemma StampedLists(v: View, w: View, e: Entry)
    requires Good(v, []) && e !in v.stamp
    requires w == v.(stamp := v.stamp[e := v.clock], clock := v.clock + 1)
    ensures FrontOk(w) && BackOk(w) && Older(v.fe, e, w.stamp) && Older(v.t2, e, w.stamp)
  {
    hide Low, BucketsOk;
  }

  function CutAt(q: seq<Entry>, i: nat): (r: seq<Entry>)
    requires i < |q|
    ensures |r| == |q| - 1
    ensures forall j :: 0 <= j < |r| ==> r[j] == q[if j < i then j else j + 1]
    ensures forall x :: x in q && x != q[i] ==> x in r
  {
    assert q == q[..i] + [q[i]] + q[i + 1..];
    q[..i] + q[i + 1..]
  }

  lemma CutSorted(q: seq<Entry>, i: nat, tag: int, place: map<Entry, int>, stamp: map<Entry, nat>)
    requires i < |q| && Tagged(q, tag, place) && ByStamp(q, stamp)
    ensures Tagged(CutAt(q, i), tag, place - {q[i]}) && ByStamp(CutAt(q, i), stamp - {q[i]})
  {
    var r := CutAt(q, i);
    forall j | 0 <= j < |r| ensures r[j] != q[i] && r[j] == q[if j < i then j else j + 1] {}
  }

  lemma CutFront(q: seq<Entry>, i: nat, place: map<Entry, int>, stamp: map<Entry, nat>)
    requires i < |q| && Tagged(q, IN_FE, place) && ByValue(q, stamp)
    ensures Tagged(CutAt(q, i), IN_FE, place - {q[i]}) && ByValue(CutAt(q, i), stamp - {q[i]})
  {
    var r := CutAt(q, i);
    forall j | 0 <= j < |r| ensures r[j] != q[i] && r[j] == q[if j < i then j else j + 1] {
      assert j < i ==> Before(q[j], q[i], stamp);
      assert j >= i ==> Before(q[i], q[j + 1], stamp);
    }
    forall j, k | 0 <= j < k < |r| ensures Before(r[j], r[k], stamp - {q[i]}) {
      assert Before(q[if j < i then j else j + 1], q[if k < i then k else k + 1], stamp);
    }
  }

  /** A list that does not hold e does not notice that e leaves. */
  lemma UntouchedSorted(q: seq<Entry>, e: Entry, tag: int, place: map<Entry, int>, stamp: map<Entry, nat>)
    requires Tagged(q, tag, place) && e in place && place[e] != tag
    ensures Tagged(q, tag, place - {e})
    ensures ByStamp(q, stamp) ==> ByStamp(q, stamp - {e})
    ensures ByValue(q, stamp) ==> ByValue(q, stamp - {e})
  {
    forall i | 0 <= i < |q| ensures q[i] != e {}
    if ByValue(q, stamp) {
      forall i, j | 0 <= i < j < |q| ensures Before(q[i], q[j], stamp - {e}) {
        assert Before(q[i], q[j], stamp);
      }
    }
  }

  /** v without e, whose list is yet to be cut. */
  ghost function Gone(v: View, e: Entry): View
  {
    v.(place := v.place - {e}, stamp := v.stamp - {e})
  }

  lemma LeftPlaces(v: View, w: View, e: Entry)
    requires PlacesOk(v, []) && |w.t1| == |v.t1|
    requires w.place == v.place - {e} && w.stamp == v.stamp - {e} && w.clock == v.clock
    requires forall x :: x in v.fe && x != e ==> x in w.fe
    requires forall x :: x in v.t2 && x != e ==> x in w.t2
    requires forall k, x :: 0 <= k < |v.t1| && x in v.t1[k] && x != e ==> x in w.t1[k]
    ensures PlacesOk(w, [])
  {
    forall x | x in w.stamp ensures OnList(x, w) {
      assert OnList(x, v);
    }
  }

  lemma LeftFront(v: View, w: View, e: Entry, i: nat)
    requires Good(v, []) && i < |v.fe| && v.fe[i] == e
    requires w == Gone(v, e).(fe := CutAt(v.fe, i))
    ensures Good(w, [])
  {
    CutFront(v.fe, i, v.place, v.stamp);
    UntouchedSorted(v.t2, e, IN_T2, v.place, v.stamp);
    LeftBuckets(v, w, e);
    LeftPlaces(v, w, e);
  }

  lemma LeftBack(v: View, w: View, e: Entry, i: nat)
    requires Good(v, []) && i < |v.t2| && v.t2[i] == e
    requires w == Gone(v, e).(t2 := CutAt(v.t2, i), t2Num := v.t2Num - 1)
    ensures Good(w, [])
  {
    CutSorted(v.t2, i, IN_T2, v.place, v.stamp);
    UntouchedSorted(v.fe, e, IN_FE, v.place, v.stamp);
    LeftBuckets(v, w, e);
    LeftPlaces(v, w, e);
  }

  lemma LeftBuckets(v: View, w: View, e: Entry)
    requires BucketsOk(v) && e in v.place && v.place[e] < 0
    requires w == Gone(v, e).(fe := w.fe, t2 := w.t2, t2Num := w.t2Num)
    ensures BucketsOk(w)
  {
    forall k | 0 <= k < |w.t1| ensures BucketOk(w.t1[k], k, w) {
      assert BucketOk(v.t1[k], k, v);
      UntouchedSorted(v.t1[k], e, k, v.place, v.stamp);
    }
  }

  lemma LeftBucket(v: View, w: View, e: Entry, k: nat, i: nat)
    requires Good(v, []) && k < |v.t1| && i < |v.t1[k]| && v.t1[k][i] == e
    requires w == Gone(v, e).(t1 := v.t1[k := CutAt(v.t1[k], i)])
    ensures Good(w, [])
  {
    assert BucketOk(v.t1[k], k, v);
    UntouchedSorted(v.fe, e, IN_FE, v.place, v.stamp);
    UntouchedSorted(v.t2, e, IN_T2, v.place, v.stamp);
    LeftItsBucket(v, w, e, k, i);
    LeftPlaces(v, w, e);
  }

  lemma LeftItsBucket(v: View, w: View, e: Entry, k: nat, i: nat)
    requires BucketsOk(v) && k < |v.t1| && i < |v.t1[k]| && v.t1[k][i] == e
    requires w == Gone(v, e).(t1 := v.t1[k := CutAt(v.t1[k], i)])
    ensures BucketsOk(w)
  {
    hide Low;
    assert BucketOk(v.t1[k], k, v);
    CutSorted(v.t1[k], i, k, v.place, v.stamp);
    forall j | 0 <= j < |w.t1| ensures BucketOk(w.t1[j], j, w) {
      assert BucketOk(v.t1[j], j, v);
      if j != k {
        UntouchedSorted(v.t1[j], e, j, v.place, v.stamp);
      }
    }
  }

  /** The list that e is on. */
  ghost function ListOf(v: View, e: Entry): seq<Entry>
    requires OnList(e, v)
  {
    if v.place[e] == IN_FE then v.fe else if v.place[e] == IN_T2 then v.t2 else v.t1[v.place[e]]
  }

  /** v after e, which is at position i of its list, has left. */
  ghost function Without(v: View, e: Entry, i: nat): View
    requires OnList(e, v) && i < |ListOf(v, e)|
  {
    var q := CutAt(ListOf(v, e), i);
    if v.place[e] == IN_FE then Gone(v, e).(fe := q)
    else if v.place[e] == IN_T2 then Gone(v, e).(t2 := q, t2Num := v.t2Num - 1)
    else Gone(v, e).(t1 := v.t1[v.place[e] := q])
  }

  lemma Queued(v: View, e: Entry)
    requires Good(v, []) && e in v.stamp
    ensures OnList(e, v)
  {}

  lemma Left(v: View, e: Entry, i: nat)
    requires Good(v, []) && OnList(e, v) && i < |ListOf(v, e)| && ListOf(v, e)[i] == e
    ensures Good(Without(v, e, i), [])
  {
    hide Good;
    var w := Without(v, e, i);
    if v.place[e] == IN_FE {
      LeftFront(v, w, e, i);
    } else if v.place[e] == IN_T2 {
      LeftBack(v, w, e, i);
    } else {
      LeftBucket(v, w, e, v.place[e], i);
    }
  }

  // ----- The least entry -----------------------------------------------------------------

  /** r is the earliest inserted among the entries of least value. */
  ghost predicate IsLeast(r: Entry, stamp: map<Entry, nat>)
  {
    r in stamp && forall e :: e in stamp && e != r ==> Before(r, e, stamp)
  }

  lemma FrontIsLeast(v: View)
    requires Good(v, []) && v.fe != []
    ensures IsLeast(v.fe[0], v.stamp)
  {
    forall e | e in v.stamp && e != v.fe[0] ensures Before(v.fe[0], e, v.stamp) {
      assert OnList(e, v);
      if e !in v.fe {
        NotBelowStart(v, e);
      }
    }
  }

  /** Entries outside the front end are not below the start of T1, bucket by bucket. */
  lemma NotBelowStart(v: View, e: Entry)
    requires Good(v, []) && e in v.stamp && e !in v.fe
    ensures v.start <= e.value
    ensures v.index < |v.t1| && e !in v.t1[v.index] ==> v.start + v.width <= e.value
  {
    assert OnList(e, v);
    assert Low(v.start, v.width, 0) == v.start && Low(v.start, v.width, 1) == v.start + v.width;
    hide Low;
    if v.place[e] == IN_T2 {
      LowMonotone(v.start, v.width, 0, |v.t1| - v.index);
      if v.index < |v.t1| { LowMonotone(v.start, v.width, 1, |v.t1| - v.index); }
    } else {
      var k := v.place[e];
      assert BucketOk(v.t1[k], k, v);
      LowMonotone(v.start, v.width, 0, k - v.index);
      if v.index < k { LowMonotone(v.start, v.width, 1, k - v.index); }
    }
  }

  lemma BucketIsLeast(v: View)
    requires Good(v, []) && v.fe == [] && v.index < |v.t1| && |v.t1[v.index]| == 1
    ensures IsLeast(v.t1[v.index][0], v.stamp)
  {
    var r := v.t1[v.index][0];
    assert BucketOk(v.t1[v.index], v.index, v);
    assert r.value < v.start + v.width;
    forall e | e in v.stamp && e != r ensures Before(r, e, v.stamp) {
      assert e !in v.t1[v.index];
      NotBelowStart(v, e);
    }
  }

  /** With the front end and all buckets empty, all entries are in T2. */
  lemma OnlyBack(v: View, e: Entry)
    requires Good(v, []) && v.fe == [] && v.index == |v.t1| && e in v.stamp
    ensures e in v.t2
  {
    BucketsEmpty(v);
    assert OnList(e, v);
  }

  lemma BackIsLeast(v: View)
    requires Good(v, []) && v.fe == [] && v.index == |v.t1| && |v.t2| == 1
    ensures IsLeast(v.t2[0], v.stamp)
  {
    forall e | e in v.stamp ensures e == v.t2[0] {
      OnlyBack(v, e);
    }
  }

  lemma NothingQueued(v: View)
    requires Good(v, []) && v.fe == [] && v.index == |v.t1| && v.t2 == []
    ensures v.stamp == map[]
  {
    forall e | e in v.stamp ensures false {
      OnlyBack(v, e);
    }
  }

  // ----- Moves between tiers -------------------------------------------------------------

  lemma Skipped(v: View, w: View)
    requires Good(v, []) && v.fe == [] && v.index < |v.t1| && v.t1[v.index] == []
    requires w == v.(index := v.index + 1, start := v.start + v.width)
    ensures Good(w, [])
  {
    assert w.place == v.place - Elements([]) && w.t1 == v.t1[v.index := []];
    Shifted(v, w);
    forall e | e in w.stamp ensures OnList(e, w) {
      assert OnList(e, v);
    }
  }

  /** Dropping the first bucket keeps the bounds of the others. */
  lemma Shifted(v: View, w: View)
    requires Geometry(v) && BucketsOk(v) && v.index < |v.t1| && w.width == v.width && w.stamp == v.stamp
    requires w.index == v.index + 1 && w.start == v.start + v.width && w.t2Start == v.t2Start
    requires w.t1 == v.t1[v.index := []]
    requires w.place == v.place - Elements(v.t1[v.index])
    ensures Geometry(w) && BucketsOk(w)
  {
    LowShift(v.start, v.width, |w.t1| - w.index);
    forall k | 0 <= k < |w.t1| ensures BucketOk(w.t1[k], k, w) {
      assert BucketOk(v.t1[k], k, v) && BucketOk(v.t1[v.index], v.index, v);
      if w.index <= k {
        LowShift(v.start, v.width, k - w.index);
      }
    }
  }

  lemma Detached(v: View, w: View)
    requires Good(v, []) && v.fe == [] && v.index < |v.t1|
    requires w == v.(t1 := v.t1[v.index := []], index := v.index + 1, start := v.start + v.width,
                     place := v.place - Elements(v.t1[v.index]))
    ensures Good(w, v.t1[v.index]) && ByStamp(v.t1[v.index], v.stamp)
    ensures forall i :: 0 <= i < |v.t1[v.index]| ==> v.t1[v.index][i].value < w.start
  {
    var q := v.t1[v.index];
    assert BucketOk(q, v.index, v);
    Shifted(v, w);
    forall e | e in w.stamp && e !in q ensures OnList(e, w) {
      assert OnList(e, v);
    }
  }

  /** A rebuild starts T1 at the recorded minimum of T2, with all of T2 loose. */
  lemma Rebuilt(v: View, w: View)
    requires Good(v, []) && v.fe == [] && v.index == |v.t1|
    requires w == v.(t1 := w.t1, start := v.t2Min, width := w.width, index := w.index, t2 := [],
                     t2Start := w.t2Start, t2Min := TIMEVAL_MAX, t2Max := TIMEVAL_MIN, t2Num := 0,
                     place := v.place - Elements(v.t2))
    requires Geometry(w)
    requires forall k :: 0 <= k < |w.t1| ==> w.t1[k] == []
    ensures Good(w, v.t2) && ByStamp(v.t2, v.stamp)
    ensures forall i :: 0 <= i < |v.t2| ==> w.start <= v.t2[i].value
  {
    forall e | e in w.stamp ensures e in v.t2 {
      OnlyBack(v, e);
    }
  }

  // ----- Progress of the search ----------------------------------------------------------

  ghost predicate MinExact(t2: seq<Entry>, t2Min: int)
  {
    exists i :: 0 <= i < |t2| && t2[i].value == t2Min
  }

  /** The recorded minimum is exact, or T2 was just emptied. */
  ghost predicate Tight(t2: seq<Entry>, t2Min: int)
  {
    if t2 == [] then t2Min == TIMEVAL_MAX else MinExact(t2, t2Min)
  }

  ghost predicate Bucketed(t1: seq<seq<Entry>>)
  {
    exists k :: 0 <= k < |t1| && t1[k] != []
  }

  /** How many restarts the search may still need. */
  ghost function Stage(v: View): nat
  {
    if v.fe != [] then 0 else if Bucketed(v.t1) then 1 else if MinExact(v.t2, v.t2Min) then 2 else 3
  }

  class TimeQueue {
    var fe: seq<Entry>
    var t1: seq<seq<Entry>>
    var t1Start: int
    var t1Width: int
    var t1Index: nat
    var t2: seq<Entry>
    var t2Start: int
    var t2Min: int
    var t2Max: int
    var t2Num: int
    var widthMin: int
    var widthMax: int
    var countMin: int
    var countMax: int

    /** The index field of every entry that is on a list. */
    var place: map<Entry, int>

    /** The abstract value: the queued entries, numbered in the order of insertion. */
    ghost var stamp: map<Entry, nat>
    ghost var clock: nat

    ghost function State(): View
      reads this
    {
      View(fe, t1, t1Start, t1Width, t1Index, t2, t2Start, t2Min, t2Max, t2Num, place, stamp, clock)
    }

    ghost predicate Settings()
      reads this
    {
      widthMin >= WIDTH_MIN && countMin >= COUNT_MIN && widthMax >= 0 && countMax >= 0
    }

    ghost predicate Valid()
      reads this
    {
      Settings() && Good(State(), [])
    }

    constructor ()
      ensures Valid() && stamp == map[]
    {
      fe, t1, t2 := [], [], [];
      t1Start, t1Width, t1Index := TIMEVAL_MIN, 0, 0;
      t2Start, t2Min, t2Max, t2Num := TIMEVAL_MIN, TIMEVAL_MAX, TIMEVAL_MIN, 0;
      widthMin, widthMax, countMin, countMax := WIDTH_MIN, 0, COUNT_MIN, 0;
      place, stamp, clock := map[], map[], 0;
      new;
      hide Good;
      EmptyGood(State());
    }

    /** Sort a loose entry into the front end, after the entries of equal value. */
    method InsertFe(e: Entry, ghost rest: seq<Entry>)
      requires Good(State(), [e] + rest) && e.value < t1Start && Older(fe, e, stamp)
      modifies this`fe, this`place
      ensures Good(State(), rest)
      ensures fe != [] && forall x :: x in fe <==> x in old(fe) || x == e
    {
      ghost var v := State();
      var i := |fe|;
      while i > 0 && fe[i - 1].value > e.value
        invariant 0 <= i <= |fe|
        invariant i < |fe| ==> e.value < fe[i].value
      {
        i := i - 1;
      }
      fe := PutAt(fe, i, e);
      assert e in fe;
      place := place[e := IN_FE];
      FrontFiled(v, State(), e, i, rest);
    }

    /** Append a loose entry to the bucket for its value. */
    method InsertT1(e: Entry, ghost rest: seq<Entry>)
      requires Good(State(), [e] + rest) && t1Start <= e.value < t2Start
      requires forall k :: 0 <= k < |t1| ==> Older(t1[k], e, stamp)
      modifies this`t1, this`place
      ensures Good(State(), rest)
      ensures |t1| == |old(t1)| && Bucketed(t1)
      ensures forall k, x :: 0 <= k < |t1| && x in t1[k] ==> x in old(t1)[k] || x == e
    {
      ghost var v := State();
      BucketOfInRange(v, e.value);
      var k := t1Index + (e.value - t1Start) / t1Width;
      t1 := t1[k := t1[k] + [e]];
      place := place[e := k];
      BucketFiled(v, State(), e, k, rest);
      assert t1[k] != [];
    }

    /** Append a loose entry to T2. */
    method InsertT2(e: Entry, ghost rest: seq<Entry>)
      requires Good(State(), [e] + rest) && t2Start <= e.value && Older(t2, e, stamp)
      modifies this`t2, this`t2Num, this`t2Min, this`t2Max, this`place
      ensures Good(State(), rest)
      ensures t2 == old(t2) + [e]
      ensures old(Tight(t2, t2Min)) ==> MinExact(t2, t2Min)
    {
      ghost var v := State();
      t2 := t2 + [e];
      place := place[e := IN_T2];
      t2Num := t2Num + 1;
      if t2Min > e.value {
        t2Min := e.value;
      }
      if t2Max < e.value {
        t2Max := e.value;
      }
      BackFiled(v, State(), e, rest);
      if Tight(v.t2, v.t2Min) {
        ExactKept(v.t2, v.t2Min, e);
      }
    }

    method Insert(e: Entry)
      requires Valid() && e !in stamp
      modifies this
      ensures Valid() && stamp == old(stamp)[e := old(clock)] && clock == old(clock) + 1
    {
      hide Good, Older, Tight, MinExact, Bucketed;
      ghost var v := State();
      stamp, clock := stamp[e := clock], clock + 1;
      Stamped(v, State(), e);
      assert [e] + [] == [e];
      if t2Start <= e.value {
        InsertT2(e, []);
      } else if t1Start <= e.value {
        InsertT1(e, []);
      } else {
        InsertFe(e, []);
      }
    }

    method Delete(e: Entry)
      requires Valid() && e in stamp
      modifies this
      ensures Valid() && stamp == old(stamp) - {e} && clock == old(clock)
    {
      hide Good, CutAt;
      ghost var v := State();
      Queued(v, e);
      var p := place[e];
      var i := Find(if p == IN_FE then fe else if p == IN_T2 then t2 else t1[p], e);
      Left(v, e, i);
      place, stamp := place - {e}, stamp - {e};
      if p == IN_FE {
        fe := CutAt(fe, i);
      } else if p == IN_T2 {
        t2Num := t2Num - 1;
        t2 := CutAt(t2, i);
      } else {
        t1 := t1[p := CutAt(t1[p], i)];
      }
      assert State() == Without(v, e, i);
    }

    /** Advance to the first bucket that is not empty. */
    method SkipEmpty()
      requires Good(State(), []) && fe == []
      modifies this`t1Index, this`t1Start
      ensures Good(State(), []) && t1Index <= |t1|
      ensures t1Index < |t1| ==> t1[t1Index] != []
    {
      hide Good;
      IndexInRange(State());
      while t1Index < |t1| && t1[t1Index] == []
        invariant Good(State(), []) && t1Index <= |t1|
      {
        ghost var v := State();
        t1Index := t1Index + 1;
        t1Start := t1Start + t1Width;
        Skipped(v, State());
      }
    }

    /** Move the first bucket to the front end. */
    method MoveBucket()
      requires Good(State(), []) && fe == [] && t1Index < |t1| && t1[t1Index] != []
      modifies this`fe, this`t1, this`t1Index, this`t1Start, this`place
      ensures Good(State(), []) && fe != []
    {
      hide Good, Elements;
      ghost var v := State();
      var q := t1[t1Index];
      t1 := t1[t1Index := []];
      t1Index := t1Index + 1;
      t1Start := t1Start + t1Width;
      place := place - Elements(q);
      Detached(v, State());
      hide ByStamp, Older;
      var i := 0;
      assert q[0..] == q;
      while i < |q|
        invariant 0 <= i <= |q| && Good(State(), q[i..])
        invariant forall x :: x in fe ==> x in q[..i]
        invariant i > 0 ==> fe != []
        modifies this`fe, this`place
      {
        assert q[i..] == [q[i]] + q[i + 1..];
        EarlierOlder(fe, q, i, stamp);
        InsertFe(q[i], q[i + 1..]);
        i := i + 1;
      }
      assert q[i..] == [];
    }

    /** Have at least `count` buckets, all empty. */
    method Grow(count: nat)
      requires forall k :: 0 <= k < |t1| ==> t1[k] == []
      modifies this`t1
      ensures |t1| >= count && forall k :: 0 <= k < |t1| ==> t1[k] == []
      ensures |t1| == |old(t1)| || |t1| == count
    {
      if |t1| < count {
        t1 := seq(count, _ => []);
      }
    }

    /** Lay out new T1 buckets that start at the recorded minimum of T2, and detach T2. */
    method Respread() returns (q: seq<Entry>)
      requires Settings() && Good(State(), []) && fe == [] && t1Index == |t1| && t2Num > 1
      modifies this`t1, this`t1Start, this`t1Width, this`t1Index, this`place
      modifies this`t2, this`t2Start, this`t2Min, this`t2Max, this`t2Num
      ensures Good(State(), q) && q == old(t2) && q != [] && ByStamp(q, stamp)
      ensures t2 == [] && t2Min == TIMEVAL_MAX && forall k :: 0 <= k < |t1| ==> t1[k] == []
      ensures t1Start == old(t2Min) < t2Start && forall i :: 0 <= i < |q| ==> t1Start <= q[i].value
      ensures Within(t1Width, widthMin, widthMax) && Within(|t1| - t1Index, countMin, countMax)
      ensures widthMax == 0 ==> |t1| - t1Index <= countMin || |t1| - t1Index <= 2 * |q| - 1
      ensures countMax == 0 ==> old(t2Max) < t2Start + t1Width
    {
      hide Good, Low, ByStamp, Elements, NewWidth, NewCount, Within;
      BackSize(State());
      ghost var v := State();
      RangeNotNegative(v);
      BucketsEmpty(v);
      var width, count, end := Spread(t2Min, t2Max, t2Num, widthMin, widthMax, countMin, countMax);
      Grow(count);
      t1Width, t1Start, t1Index := width, t2Min, |t1| - count;
      t2Start, t2Min, t2Max, t2Num := end, TIMEVAL_MAX, TIMEVAL_MIN, 0;
      q := t2;
      t2 := [];
      place := place - Elements(q);
      Rebuilt(v, State());
    }

    /** Move T2 into T1 as far as allowed. */
    method Rebuild()
      requires Settings() && Good(State(), []) && fe == [] && t1Index == |t1| && t2Num > 1
      modifies this`t1, this`t1Start, this`t1Width, this`t1Index, this`place
      modifies this`t2, this`t2Start, this`t2Min, this`t2Max, this`t2Num
      ensures Good(State(), [])
      ensures Bucketed(t1) || (MinExact(t2, t2Min) && !old(MinExact(t2, t2Min)))
    {
      hide Good, ByStamp, Bucketed;
      var q := Respread();
      Refile(q);
    }

    /** File what was in T2 into T1 as far as it reaches, and the rest back into T2. */
    method Refile(q: seq<Entry>)
      requires Good(State(), q) && ByStamp(q, stamp) && q != [] && fe == []
      requires t2 == [] && t2Min == TIMEVAL_MAX && forall k :: 0 <= k < |t1| ==> t1[k] == []
      requires forall i :: 0 <= i < |q| ==> t1Start <= q[i].value
      modifies this`t1, this`t2, this`t2Min, this`t2Max, this`t2Num, this`place
      ensures Good(State(), [])
      ensures if exists i :: 0 <= i < |q| && q[i].value < t2Start then Bucketed(t1) else MinExact(t2, t2Min)
    {
      hide Good, ByStamp, Older;
      var i := 0;
      assert q[0..] == q;
      while i < |q|
        invariant 0 <= i <= |q| && Good(State(), q[i..])
        invariant forall x :: x in t2 ==> x in q[..i]
        invariant forall k, x :: 0 <= k < |t1| && x in t1[k] ==> x in q[..i]
        invariant Tight(t2, t2Min)
        invariant (exists j :: 0 <= j < i && q[j].value < t2Start) ==> Bucketed(t1)
        invariant (forall j :: 0 <= j < i ==> t2Start <= q[j].value) ==> |t2| == i
      {
        assert q[i..] == [q[i]] + q[i + 1..];
        assert q[..i + 1] == q[..i] + [q[i]];
        EarlierOlder(t2, q, i, stamp);
        if t2Start <= q[i].value {
          InsertT2(q[i], q[i + 1..]);
        } else {
          forall k | 0 <= k < |t1| ensures Older(t1[k], q[i], stamp) {
            EarlierOlder(t1[k], q, i, stamp);
          }
          InsertT1(q[i], q[i + 1..]);
        }
        i := i + 1;
      }
      assert q[i..] == [];
    }

    /** One pass of the search: either it finds the answer, or it moves entries to a nearer
        tier and the search has to restart. */
    method Pass() returns (found: bool, r: Option<Entry>)
      requires Settings() && Good(State(), [])
      modifies this`fe, this`t1, this`t1Start, this`t1Width, this`t1Index, this`place
      modifies this`t2, this`t2Start, this`t2Min, this`t2Max, this`t2Num
      ensures Good(State(), [])
      ensures found ==> if r.None? then stamp == map[] else IsLeast(r.value, stamp)
      ensures !found ==> Stage(State()) < old(Stage(State()))
    {
      hide Good, IsLeast;
      if fe != [] {
        FrontIsLeast(State());
        return true, Some(fe[0]);
      }
      SkipEmpty();
      if t1Index < |t1| {
        if |t1[t1Index]| == 1 {
          BucketIsLeast(State());
          return true, Some(t1[t1Index][0]);
        }
        assert Bucketed(t1);
        MoveBucket();
        return false, None;
      }
      BackSize(State());
      if t2Num == 1 {
        BackIsLeast(State());
        return true, Some(t2[0]);
      } else if t2Num > 1 {
        BucketsEmpty(State());
        Rebuild();
        return false, None;
      }
      NothingQueued(State());
      return true, None;
    }

    /** The earliest inserted among the queued entries of least value.  The queue's contents
        stay as they are, and the search restarts at most three times: two rebuilds of T1
        from T2, the first of them with a stale minimum, and a move to the front end. */
    method GetMin() returns (r: Option<Entry>, ghost restarts: nat)
      requires Valid()
      modifies this
      ensures Valid() && stamp == old(stamp) && clock == old(clock)
      ensures if r.None? then stamp == map[] else IsLeast(r.value, stamp)
      ensures restarts <= 3
    {
      hide Good, IsLeast, Stage;
      StageBound(State());
      restarts := 0;
      var found := false;
      found, r := Pass();
      while !found
        invariant Valid() && stamp == old(stamp) && clock == old(clock)
        invariant found ==> if r.None? then stamp == map[] else IsLeast(r.value, stamp)
        invariant if found then restarts <= 3 else restarts + Stage(State()) < 3
        decreases !found, Stage(State())
      {
        found, r := Pass();
        restarts := restarts + 1;
      }
    }

    method SetMinBucketWidth(n: int)
      requires Valid()
      modifies this`widthMin
      ensures Valid() && widthMin >= n && (widthMin == n || widthMin == WIDTH_MIN)
    {
      widthMin := if n < WIDTH_MIN then WIDTH_MIN else n;
    }

    method SetMaxBucketWidth(n: nat)
      requires Valid()
      modifies this`widthMax
      ensures Valid() && widthMax == n
    {
      widthMax := n;
    }

    method SetMinBucketCount(n: int)
      requires Valid()
      modifies this`countMin
      ensures Valid() && countMin >= n && (countMin == n || countMin == COUNT_MIN)
    {
      countMin := if n < COUNT_MIN then COUNT_MIN else n;
    }

    method SetMaxBucketCount(n: nat)
      requires Valid()
      modifies this`countMax
      ensures Valid() && countMax == n
    {
      countMax := n;
    }
  }

  lemma StageBound(v: View)
    ensures Stage(v) <= 3
  {}

  lemma BackSize(v: View)
    requires Good(v, [])
    ensures v.t2Num == |v.t2|
  {}

  /** The width and number of the new T1 buckets, and where they end. */
  method Spread(t2Min: int, t2Max: int, n: nat, widthMin: int, widthMax: int, countMin: int, countMax: int)
    returns (width: int, count: int, end: int)
    requires t2Min <= t2Max && n > 0
    requires widthMin >= WIDTH_MIN && countMin >= COUNT_MIN && widthMax >= 0 && countMax >= 0
    ensures width == NewWidth(t2Max - t2Min, n, widthMin, widthMax)
    ensures count == NewCount(t2Max - t2Min, width, countMin, countMax)
    ensures width >= 1 && count >= 1 && t2Min < end == Low(t2Min, width, count)
    ensures widthMax == 0 ==> count <= countMin || count <= 2 * n - 1
    ensures countMax == 0 ==> t2Max < end + width
  {
    width := NewWidth(t2Max - t2Min, n, widthMin, widthMax);
    count := NewCount(t2Max - t2Min, width, countMin, countMax);
    end := t2Min + width * count;
    LowProduct(t2Min, width, count);
    if widthMax == 0 {
      RebuildBound(t2Max - t2Min, n, widthMin, countMin, countMax);
    }
    if countMax == 0 {
      RebuildCovers(t2Max - t2Min, n, widthMin, widthMax, countMin);
    }
  }

  /** Entries that come before position i of a list in stamp order are older than its entry. */
  lemma EarlierOlder(done: seq<Entry>, q: seq<Entry>, i: nat, stamp: map<Entry, nat>)
    requires ByStamp(q, stamp) && i < |q| && forall x :: x in done ==> x in q[..i]
    ensures Older(done, q[i], stamp)
  {
    forall j | 0 <= j < |done| ensures done[j] in stamp && stamp[done[j]] < stamp[q[i]] {
      assert done[j] in q[..i];
    }
  }

  lemma RangeNotNegative(v: View)
    requires Good(v, []) && v.t2Num > 1
    ensures v.t2Min <= v.t2Max && v.t2Num == |v.t2|
  {
    assert v.t2Min <= v.t2[0].value <= v.t2Max;
  }

  lemma BucketsEmpty(v: View)
    requires Good(v, []) && v.index == |v.t1|
    ensures forall k :: 0 <= k < |v.t1| ==> v.t1[k] == []
  {
    forall k | 0 <= k < |v.t1| ensures v.t1[k] == [] {
      assert BucketOk(v.t1[k], k, v);
    }
  }

  lemma IndexInRange(v: View)
    requires Good(v, [])
    ensures v.index <= |v.t1|
  {}

  /** The position of an entry on its list. */
  method Find(q: seq<Entry>, e: Entry) returns (i: nat)
    requires e in q
    ensures i < |q| && q[i] == e
  {
    i := 0;
    while q[i] != e
      invariant i < |q| && e in q[i..]
      decreases |q| - i
    {
      i := i + 1;
    }
  }

  /** Appending to T2 keeps the recorded minimum exact. */
  lemma ExactKept(t2: seq<Entry>, t2Min: int, e: Entry)
    requires Tight(t2, t2Min)
    ensures MinExact(t2 + [e], if t2Min > e.value then e.value else t2Min)
  {
    var r := t2 + [e];
    assert r[|t2|] == e;
    if MinExact(t2, t2Min) {
      var i :| 0 <= i < |t2| && t2[i].value == t2Min;
      assert r[i] == t2[i];
    }
  }
}
