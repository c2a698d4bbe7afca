/** Linear hashing in the memcache table (src/memcache/table.h, src/memcache/action.c,
    src/base/bitops.h): a table of `used` buckets grows by a stride of 64 buckets at a time. */
module LinearHash {

  const STRIDE: nat := 64

  /** Round down to a power of two. */
  function LowerPow2(x: nat): (p: nat)
    ensures x > 0 ==> p <= x < 2 * p
  {
    if x < 2 then x else 2 * LowerPow2(x / 2)
  }

  /** Round up to a power of two. */
  function UpperPow2(x: nat): nat
  {
    if x < 2 then x else 2 * LowerPow2(x - 1)
  }

  /** The low bits of a hash value: hash & (size - 1) for a power of two. */
  function LowBits(hash: nat, size: nat): nat
  {
    if size <= 1 then 0 else hash % 2 + 2 * LowBits(hash / 2, size / 2)
  }

  /** The bucket for a hash value, the partition bits of which are already shifted out. */
  function Index(used: nat, hash: nat): int
  {
    var size := UpperPow2(used);
    var index := LowBits(hash, size);
    if index >= used then index - size / 2 else index
  }

  predicate IsPow2(p: nat)
  {
    p == 1 || (p > 1 && p % 2 == 0 && IsPow2(p / 2))
  }

  lemma {:induction false} LowerIsPow2(x: nat)
    requires x > 0
    ensures IsPow2(LowerPow2(x))
  {
    if x >= 2 {
      LowerIsPow2(x / 2);
    }
  }

  lemma {:induction false} LowerOfPow2(p: nat, x: nat)
    requires IsPow2(p) && p <= x < 2 * p
    ensures LowerPow2(x) == p
  {
    if p > 1 {
      LowerOfPow2(p / 2, x / 2);
    }
  }

  /** The low bits are the remainder. */
  lemma {:induction false} LowBitsIs(hash: nat, p: nat)
    requires IsPow2(p)
    ensures LowBits(hash, p) == hash % p
  {
    if p > 1 {
      LowBitsIs(hash / 2, p / 2);
      Halves(hash, p / 2);
    }
  }

  lemma Halves(hash: nat, q: nat)
    requires q > 0
    ensures hash % (2 * q) == hash % 2 + 2 * (hash / 2 % q)
  {
    var h := hash / 2;
    var d, r := h / q, h % q;
    assert h == d * q + r;
    assert hash == 2 * h + hash % 2;
    assert 2 * (d * q) == d * (2 * q);
    Remainder(hash, 2 * q, d, 2 * r + hash % 2);
  }

  lemma Remainder(x: nat, m: nat, d: nat, r: nat)
    requires m > 0 && x == d * m + r && r < m
    ensures x % m == r
  {
    var e := x / m;
    assert x == e * m + x % m;
    if d < e {
      Multiple(d + 1, e, m);
    } else if e < d {
      Multiple(e + 1, d, m);
    }
  }

  lemma Multiple(a: nat, b: nat, m: nat)
    requires a <= b
    ensures a * m <= b * m && a * m == (a - 1) * m + m
  {}

  /** One bit more. */
  lemma {:induction false} LowBitsDouble(hash: nat, p: nat)
    requires IsPow2(p)
    ensures LowBits(hash, p) < p
    ensures LowBits(hash, 2 * p) == LowBits(hash, p) || LowBits(hash, 2 * p) == LowBits(hash, p) + p
  {
    if p > 1 {
      LowBitsDouble(hash / 2, p / 2);
    }
  }

  /** One rule for every number of buckets between a power of two and the next one: take the
      low bits for the larger power, and fold back if there is no such bucket yet. */
  lemma IndexFolds(used: nat, p: nat, hash: nat)
    requires IsPow2(p) && p <= used <= 2 * p
    ensures var x := LowBits(hash, 2 * p);
            0 <= x < 2 * p && Index(used, hash) == if x < used then x else x - p
  {
    LowBitsDouble(hash, p);
    if used == p {
      if p > 1 {
        LowerOfPow2(p / 2, p - 1);
      }
    } else {
      LowerOfPow2(p, used - 1);
    }
  }

  lemma IndexInRange(used: nat, hash: nat)
    requires used > 0
    ensures 0 <= Index(used, hash) < used
  {
    LowerIsPow2(used);
    IndexFolds(used, LowerPow2(used), hash);
  }

  // ----- A stride ------------------------------------------------------------------------------------

  /** The 64 buckets that a stride adds are below the next power of two. */
  predicate Fits(used: nat)
  {
    used + STRIDE <= 2 * LowerPow2(used)
  }

  /** The bucket of a hash value after `count` buckets of a stride: the code takes the buckets from
      used - half on, and moves an entry to the bucket of its index for twice the power of two. */
  function Where(used: nat, count: nat, hash: nat): int
  {
    var half := LowerPow2(used);
    var s := Index(used, hash);
    if used - half <= s < used - half + count then LowBits(hash, 2 * half) else s
  }

  function AfterStride(used: nat, hash: nat): int
  {
    Where(used, STRIDE, hash)
  }

  /** The stride leaves an entry where a later lookup does not look for it. */
  predicate Misplaced(used: nat, hash: nat)
  {
    AfterStride(used, hash) != Index(used + STRIDE, hash)
  }

  /** One bucket of a stride: an entry of bucket b stays there or goes to b + half, where there was
      none before; no other entry is moved. */
  lemma WhereStep(used: nat, count: nat, hash: nat)
    requires used > 0 && count < STRIDE
    ensures var half := LowerPow2(used);
            var b := used - half + count;
            var x := LowBits(hash, 2 * half);
            var w := Where(used, count, hash);
            && 0 <= w < used + STRIDE && w != b + half && (w == b && x != b ==> x == b + half)
            && Where(used, count + 1, hash) == if w == b then x else w
  {
    hide Index, LowBits, LowerPow2;
    LowerIsPow2(used);
    IndexFolds(used, LowerPow2(used), hash);
  }

  /** What a stride that fits does to the bucket of a hash value: each of the 64 buckets s from
      used - p on splits into s and s + p, by one more bit of the hash; the other buckets stay. */
  lemma StrideIndex(used: nat, hash: nat)
    requires used > 0 && Fits(used)
    ensures !Misplaced(used, hash)
    ensures var p := LowerPow2(used);
            var s := Index(used, hash);
            var t := Index(used + STRIDE, hash);
            if used - p <= s < used - p + STRIDE then t == LowBits(hash, 2 * p) && (t == s || t == s + p) else t == s
  {
    hide Index, LowBits, LowerPow2;
    var p := LowerPow2(used);
    LowerIsPow2(used);
    IndexFolds(used, p, hash);
    IndexFolds(used + STRIDE, p, hash);
  }

  /** A stride leaves every hash value in its bucket if and only if it fits. */
  lemma StrideWorksIff(used: nat)
    requires used > 0
    ensures (forall hash: nat :: !Misplaced(used, hash)) <==> Fits(used)
  {
    if Fits(used) {
      forall hash: nat ensures !Misplaced(used, hash) {
        StrideIndex(used, hash);
      }
    } else {
      MisplacedHash(used);
    }
  }

  /** The hash value of the next power of two stays in bucket 0, and is looked for in a new one. */
  lemma MisplacedHash(used: nat)
    requires used > 0 && !Fits(used)
    ensures var hash := 2 * LowerPow2(used);
            AfterStride(used, hash) == 0 && Index(used + STRIDE, hash) == hash && Misplaced(used, hash)
  {
    hide Index, LowBits, LowerPow2, IsPow2;
    var p := LowerPow2(used);
    LowerIsPow2(used);
    Doubled(p);
    LowBitsOf(2 * p);
    IndexFolds(used, p, 2 * p);
    var q := LowerPow2(used + STRIDE);
    LowerIsPow2(used + STRIDE);
    Doubled(q);
    LowBitsSmall(2 * p, 2 * q);
    IndexFolds(used + STRIDE, q, 2 * p);
  }

  lemma {:induction false} LowBitsOf(p: nat)
    requires IsPow2(p)
    ensures LowBits(p, p) == 0
  {
    if p > 1 {
      LowBitsOf(p / 2);
    }
  }

  lemma {:induction false} LowBitsSmall(x: nat, p: nat)
    requires IsPow2(p) && x < p
    ensures LowBits(x, p) == x
  {
    if p > 1 {
      LowBitsSmall(x / 2, p / 2);
    }
  }

  lemma Doubled(p: nat)
    requires IsPow2(p)
    ensures IsPow2(2 * p)
  {
    assert 2 * p / 2 == p;
  }

  lemma StrideFits(used: nat)
    requires used > 0 && used % STRIDE == 0
    ensures Fits(used)
  {
    hide LowerPow2;
    var u := used / STRIDE;
    LowerDouble(u);
    LowerDouble(2 * u);
    LowerDouble(4 * u);
    LowerDouble(8 * u);
    LowerDouble(16 * u);
    LowerDouble(32 * u);
  }

  // ----- Strides that are started ----------------------------------------------------------------------

  /** The number of buckets after k strides, for a table of at most `max` entries. */
  function Buckets(max: nat, increment: nat, k: nat): nat
  {
    (if increment > max then max else increment) / 2 + STRIDE * k
  }

  /** The check before a stride is started, with ne entries in use. */
  predicate StrideDue(ne: nat, nb: nat, max: nat)
  {
    ne > 2 * nb && nb < LowerPow2(max)
  }

  /** Stride k may be started, and leaves some entry in a wrong bucket. */
  ghost predicate BadStride(max: nat, increment: nat, k: nat)
  {
    && (exists ne: nat :: ne <= max && StrideDue(ne, Buckets(max, increment, k), max))
    && exists hash: nat :: Misplaced(Buckets(max, increment, k), hash)
  }

  /** Some stride that is started misplaces an entry if and only if the table may not have a whole
      increment of entries, their number is odd, and the first stride does not fit. */
  lemma BadStrideIff(max: nat, increment: nat)
    requires max >= 2 && increment > 0 && increment % (2 * STRIDE) == 0
    ensures (exists k: nat :: BadStride(max, increment, k)) <==> max < increment && max % 2 == 1 && !Fits(max / 2)
  {
    forall k: nat ensures BadStride(max, increment, k) <==> k == 0 && max < increment && max % 2 == 1 && !Fits(max / 2)
    {
      BadStrideAt(max, increment, k);
    }
    if max < increment && max % 2 == 1 && !Fits(max / 2) {
      assert BadStride(max, increment, 0);
    }
  }

  lemma BadStrideAt(max: nat, increment: nat, k: nat)
    requires max >= 2 && increment > 0 && increment % (2 * STRIDE) == 0
    ensures BadStride(max, increment, k) <==> k == 0 && max < increment && max % 2 == 1 && !Fits(max / 2)
  {
    hide LowerPow2, Fits, Misplaced;
    var nb := Buckets(max, increment, k);
    StrideWorksIff(nb);
    if max >= increment {
      assert nb % STRIDE == 0;
      StrideFits(nb);
    } else if k == 0 && max % 2 == 1 {
      assert StrideDue(max, nb, max);
    }
  }

  lemma LowerDouble(x: nat)
    requires x > 0
    ensures LowerPow2(2 * x) == 2 * LowerPow2(x)
  {
    assert 2 * x / 2 == x;
  }
}
