/** The clock scan that picks entries for eviction (src/memcache/action.c): the hand goes around
    the pool at most twice; every visit lowers the access counter of an entry in the table, and
    an entry whose counter is at its minimum, or that is expired, is a victim. */
module TableClock {
  import opened Common
  import opened TablePart

  // ----- The way of the hand -----------------------------------------------------------------------

  /** The clock hand, and whether the scan has been at the end of the pool. */
  datatype Hand = Hand(at: nat, end: bool)

  /** The hand after one more step of a scan over n entries, or none if the scan ends: at the end of
      the pool it starts over once.  The entry visited is the one before the new position. */
  function NextHand(n: nat, h: Hand): Option<Hand>
  {
    if h.at != n then Some(Hand(h.at + 1, h.end)) else if h.end then None else Some(Hand(1, true))
  }

  /** The hand after k steps without enough victims. */
  function HandAfter(n: nat, first: nat, k: nat): Option<Hand>
  {
    if k == 0 then Some(Hand(first, false))
    else
      var h := HandAfter(n, first, k - 1);
      if h.None? then None else NextHand(n, h.value)
  }

  /** The scan goes to the end and over the whole pool; it ends there if the pool is not empty. */
  lemma {:induction false} HandAfterIs(n: nat, first: nat, k: nat)
    requires first <= n
    ensures HandAfter(n, first, k) ==
              if n > 0 && k > 2 * n - first then None
              else if k <= n - first then Some(Hand(first + k, false))
              else Some(Hand(first + k - n, true))
  {
    if k > 0 {
      HandAfterIs(n, first, k - 1);
    }
  }

  /** A scan that finds too few victims ends if and only if the pool is not empty.  In an empty pool
      the hand starts over at once, passes the end and does not meet it again. */
  lemma ScanEndsIff(n: nat, first: nat)
    requires first <= n
    ensures (exists k: nat :: HandAfter(n, first, k).None?) <==> n > 0
    ensures n == 0 ==> forall k: nat :: k > 0 ==> HandAfter(n, first, k) == Some(Hand(k, true))
  {
    forall k: nat ensures HandAfter(n, first, k).None? <==> n > 0 && k > 2 * n - first {
      HandAfterIs(n, first, k);
    }
    assert n > 0 ==> HandAfter(n, first, 2 * n - first + 1).None?;
    if n == 0 {
      forall k: nat | k > 0 ensures HandAfter(n, first, k) == Some(Hand(k, true)) {
        HandAfterIs(n, first, k);
      }
    }
  }

  // ----- Visits --------------------------------------------------------------------------------------

  /** The entry that is visited in step t, when the scan begins at `start`. */
  function HandAt(start: nat, t: nat, n: nat): int
  {
    if start + t < n then start + t else start + t - n
  }

  /** How often entry i is visited in the first t steps. */
  function Passes(start: nat, t: nat, n: nat, i: nat): nat
  {
    (if start <= i < start + t then 1 else 0) + (if i + n < start + t then 1 else 0)
  }

  lemma PassesStep(start: nat, t: nat, n: nat, i: nat)
    requires start <= n && start + t < 2 * n && i < n
    ensures 0 <= HandAt(start, t, n) < n
    ensures Passes(start, t + 1, n, i) == Passes(start, t, n, i) + if i == HandAt(start, t, n) then 1 else 0
  {}

  /** What is left of an entry after a number of visits: an entry with counter k that is not
      accessed and not expired is a victim on the k-th visit, an expired one on the first. */
  ghost function Cooled(e: Entry, passes: nat, expired: bool): Entry
  {
    if !Linked(e) || passes == 0 then e
    else if expired || e.state <= passes then e.(state := NOT_USED)
    else e.(state := e.state - passes)
  }

  lemma CooledOnce(e: Entry, passes: nat, expired: bool)
    ensures var f := Cooled(e, passes, expired);
            Cooled(e, passes + 1, expired) ==
              if !Linked(f) then f else if f.state == USED_MIN || expired then f.(state := NOT_USED)
                  else f.(state := f.state - 1)
  {}

  // ----- Progress --------------------------------------------------------------------------------

  ghost function HeatOf(e: Entry): nat
  {
    if Linked(e) then e.state else 0
  }

  /** The sum of the access counters. */
  ghost function Heat(entries: seq<Entry>): nat
  {
    if entries == [] then 0 else Heat(entries[..|entries| - 1]) + HeatOf(entries[|entries| - 1])
  }

  lemma {:induction false} HeatLess(before: seq<Entry>, after: seq<Entry>)
    requires |before| == |after| && forall i :: 0 <= i < |before| ==> HeatOf(after[i]) <= HeatOf(before[i])
    ensures Heat(after) <= Heat(before)
    ensures (exists i :: 0 <= i < |before| && HeatOf(after[i]) < HeatOf(before[i])) ==> Heat(after) < Heat(before)
  {
    hide HeatOf;
    if before != [] {
      var n := |before| - 1;
      HeatLess(before[..n], after[..n]);
      if exists i :: 0 <= i < |before| && HeatOf(after[i]) < HeatOf(before[i]) {
        var i :| 0 <= i < |before| && HeatOf(after[i]) < HeatOf(before[i]);
        if i < n {
          assert HeatOf(after[..n][i]) < HeatOf(before[..n][i]);
        }
      }
    }
  }
}
