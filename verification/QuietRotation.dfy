/**
 Which later pages one quiet refresh visits: a window of four that rotates through
 the pages holding an active import.
 */
module QuietRotation {

  const MAX_QUIET_REFRESH_PAGES := 5
  const ROTATING_CAPACITY := MAX_QUIET_REFRESH_PAGES - 1

  function Start(offset: nat, n: nat): nat {
    if n > 0 then offset % n else 0
  }

  /** The later pages chosen by one pass. */
  function Selected(active: seq<nat>, offset: nat): seq<nat> {
    var n := |active|;
    seq(if n < ROTATING_CAPACITY then n else ROTATING_CAPACITY,
        k requires 0 <= k && 0 < n => active[(Start(offset, n) + k) % n])
  }

  /** The offset left behind by one pass, whether or not the pass used its selection. */
  function NextOffset(offset: nat, n: nat): nat {
    if n > ROTATING_CAPACITY then (Start(offset, n) + ROTATING_CAPACITY) % n else 0
  }

  /** The offset found by pass number `p`, when `n` pages stay active throughout. */
  function OffsetBefore(offset: nat, n: nat, p: nat): nat {
    if p == 0 then offset else NextOffset(OffsetBefore(offset, n, p - 1), n)
  }

  // ---- Modular arithmetic. ----

  lemma ModIs(x: int, q: int, r: nat, n: nat)
    requires r < n && x == q * n + r
    ensures x % n == r
  {
    var k := x / n - q;
    assert k * n == (x / n) * n - q * n;
    assert k * n == r - x % n;
    MultiplesAreFar(k, n);
  }

  lemma MultiplesAreFar(k: int, n: nat)
    ensures k >= 1 ==> k * n >= n
    ensures k <= -1 ==> k * n + n <= 0
  {
  }

  lemma ModAdd(a: int, b: int, n: nat)
    requires n > 0
    ensures (a % n + b) % n == (a + b) % n
  {
    var q, q' := a / n, (a % n + b) / n;
    assert (q + q') * n == q * n + q' * n;
    ModIs(a + b, q + q', (a % n + b) % n, n);
  }

  predicate Hits(s: int, k: nat, j: nat, n: nat)
    requires n > 0
  {
    (s + k) % n == j
  }

  /** The k-th step from `s` is `j` exactly when k is the forward distance, for k below n. */
  lemma StepHits(s: int, k: nat, j: nat, n: nat)
    requires j < n && k < n
    ensures Hits(s, k, j, n) <==> (j - s) % n == k
  {
    if Hits(s, k, j, n) {
      ModAdd(s + k, -s, n);
      ModIs(k, 0, k, n);
    }
    if (j - s) % n == k {
      ModAdd(j - s, s, n);
      ModIs(j, 0, j, n);
    }
  }

  /** Reducing the offset first does not change a forward distance. */
  lemma DistanceModulo(j: int, o: int, o': int, n: nat)
    requires n > 0 && o % n == o' % n
    ensures (j - o) % n == (j - o') % n
  {
    var q, q', r := o / n, o' / n, (j - o) % n;
    assert (q - q') * n == q * n - q' * n;
    assert j - o' == (j - o) + (q - q') * n;
    var t := (j - o) / n;
    assert (t + (q - q')) * n == t * n + (q - q') * n;
    ModIs(j - o', t + (q - q'), r, n);
  }

  // ---- One pass. ----

  /** A quiet pass asks for at most five pages, all different, page 0 among them. */
  lemma PassIsBounded(active: seq<nat>, offset: nat)
    requires forall i :: 0 <= i < |active| ==> active[i] > 0
    requires forall i, j :: 0 <= i < j < |active| ==> active[i] != active[j]
    ensures |[0] + Selected(active, offset)| <= MAX_QUIET_REFRESH_PAGES
    ensures forall i, j :: 0 <= i < j < |[0] + Selected(active, offset)| ==>
                             ([0] + Selected(active, offset))[i] != ([0] + Selected(active, offset))[j]
    ensures forall p :: p in Selected(active, offset) ==> p in active
  {
    var n, sel := |active|, Selected(active, offset);
    forall i, j | 0 <= i < j < |sel|
      ensures sel[i] != sel[j]
    {
      var s := Start(offset, n);
      StepHits(s, i, (s + i) % n, n);
      StepHits(s, j, (s + i) % n, n);
    }
  }

  /** The j-th active page is chosen exactly when it lies in the window. */
  lemma SelectedIsWindow(active: seq<nat>, offset: nat, j: nat)
    requires j < |active|
    requires forall i, k :: 0 <= i < k < |active| ==> active[i] != active[k]
    ensures active[j] in Selected(active, offset) <==>
            |active| <= ROTATING_CAPACITY || (j - offset) % |active| < ROTATING_CAPACITY
  {
    var n, sel := |active|, Selected(active, offset);
    var s, k := Start(offset, n), (j - Start(offset, n)) % n;
    StepHits(s, k, j, n);
    ModIs(s, 0, s, n);
    DistanceModulo(j, s, offset, n);
    if k < |sel| {
      assert sel[k] == active[j];
    }
    if i :| 0 <= i < |sel| && sel[i] == active[j] {
      StepHits(s, i, j, n);
    }
  }

  // ---- Many passes. ----

  lemma {:induction false} OffsetClosedForm(offset: nat, n: nat, p: nat)
    requires n > ROTATING_CAPACITY
    ensures OffsetBefore(offset, n, p) % n == (offset + ROTATING_CAPACITY * p) % n
  {
    if p > 0 {
      OffsetClosedForm(offset, n, p - 1);
      var o, t := OffsetBefore(offset, n, p - 1), offset + ROTATING_CAPACITY * (p - 1);
      ModAdd(o, ROTATING_CAPACITY, n);
      ModAdd(t, ROTATING_CAPACITY, n);
      var o' := (o % n + ROTATING_CAPACITY) % n;
      assert OffsetBefore(offset, n, p) == o';
      ModIs(o', 0, o', n);
    }
  }

  /** Which passes visit a page, for any starting offset and with the active set fixed: a closed form. */
  lemma PassVisits(active: seq<nat>, offset: nat, p: nat, j: nat)
    requires j < |active|
    requires forall i, k :: 0 <= i < k < |active| ==> active[i] != active[k]
    ensures active[j] in Selected(active, OffsetBefore(offset, |active|, p)) <==>
            |active| <= ROTATING_CAPACITY || (j - offset - ROTATING_CAPACITY * p) % |active| < ROTATING_CAPACITY
  {
    var n, o := |active|, OffsetBefore(offset, |active|, p);
    SelectedIsWindow(active, o, j);
    if n > ROTATING_CAPACITY {
      OffsetClosedForm(offset, n, p);
      DistanceModulo(j, o, offset + ROTATING_CAPACITY * p, n);
    }
  }

  /** From offset zero: pass `p` has the `p`-th window of four, counted modulo the number of active pages. */
  lemma PassVisitsFromZero(active: seq<nat>, p: nat, j: nat)
    requires j < |active|
    requires forall i, k :: 0 <= i < k < |active| ==> active[i] != active[k]
    ensures active[j] in Selected(active, OffsetBefore(0, |active|, p)) <==>
            |active| <= 4 || (j - 4 * p) % |active| < 4
  {
    PassVisits(active, 0, p, j);
    assert j - 0 - ROTATING_CAPACITY * p == j - 4 * p;
  }

  function CeilDiv(n: nat, d: nat): nat
    requires d > 0
  {
    (n + d - 1) / d
  }

  /** Fairness: any ceil(n / 4) consecutive unforced passes, from any offset, visit every active page. */
  lemma EveryActivePageIsVisited(active: seq<nat>, offset: nat, j: nat) returns (p: nat)
    requires j < |active|
    requires forall i, k :: 0 <= i < k < |active| ==> active[i] != active[k]
    ensures p < CeilDiv(|active|, ROTATING_CAPACITY)
    ensures active[j] in Selected(active, OffsetBefore(offset, |active|, p))
  {
    var n := |active|;
    var d := (j - offset) % n;
    p := d / ROTATING_CAPACITY;
    PassVisits(active, offset, p, j);
    ModAdd(j - offset, -ROTATING_CAPACITY * p, n);
    ModIs(d - ROTATING_CAPACITY * p, 0, d - ROTATING_CAPACITY * p, n);
  }

  /** How many of the first `k` steps start a pass. */
  function Count(starts: seq<bool>, k: nat): nat
    requires k <= |starts|
  {
    if k == 0 then 0 else Count(starts, k - 1) + if starts[k - 1] then 1 else 0
  }

  lemma NextPass(offset: nat, n: nat, p: nat)
    ensures OffsetBefore(offset, n, p + 1) == NextOffset(OffsetBefore(offset, n, p), n)
  {
  }

  /** An offset that only passes move is the iterated one. */
  lemma {:induction false} OffsetsOfSchedule(offsets: seq<nat>, starts: seq<bool>, n: nat, k: nat)
    requires |offsets| == |starts| + 1 && k <= |starts|
    requires forall i :: 0 <= i < |starts| ==>
               offsets[i + 1] == if starts[i] then NextOffset(offsets[i], n) else offsets[i]
    ensures offsets[k] == OffsetBefore(offsets[0], n, Count(starts, k))
  {
    if k > 0 {
      OffsetsOfSchedule(offsets, starts, n, k - 1);
      NextPass(offsets[0], n, Count(starts, k - 1));
    }
  }

  // ---- Forced refreshes move the offset too. ----

  /**
   `forced[p]` says that pass p was a forced refresh that found its page. Such a pass advances the
   offset like any other but fetches only the forced page, so its own window goes unvisited.
   */
  ghost predicate VisitedBy(active: seq<nat>, offset: nat, forced: seq<bool>, j: nat)
    requires j < |active|
  {
    exists p: nat :: p < |forced| && !forced[p] && active[j] in Selected(active, OffsetBefore(offset, |active|, p))
  }

  /** Exactly when a schedule of mixed passes visits a page. */
  lemma MixedScheduleVisits(active: seq<nat>, offset: nat, forced: seq<bool>, j: nat)
    requires j < |active|
    requires forall i, k :: 0 <= i < k < |active| ==> active[i] != active[k]
    ensures VisitedBy(active, offset, forced, j) <==>
            exists p: nat :: p < |forced| && !forced[p]
              && (|active| <= ROTATING_CAPACITY || (j - offset - ROTATING_CAPACITY * p) % |active| < ROTATING_CAPACITY)
  {
    forall p: nat
      ensures active[j] in Selected(active, OffsetBefore(offset, |active|, p)) <==>
              |active| <= ROTATING_CAPACITY || (j - offset - ROTATING_CAPACITY * p) % |active| < ROTATING_CAPACITY
    {
      PassVisits(active, offset, p, j);
    }
    if VisitedBy(active, offset, forced, j) {
      var p: nat :| p < |forced| && !forced[p] && active[j] in Selected(active, OffsetBefore(offset, |active|, p));
      assert |active| <= ROTATING_CAPACITY || (j - offset - ROTATING_CAPACITY * p) % |active| < ROTATING_CAPACITY;
    }
  }

  /**
   Fairness is lost when every other pass is forced: with eight active pages the same four
   are visited for ever, and the page four places further on never is.
   */
  lemma AlternatingForcedPassesStarve(active: seq<nat>, offset: nat, forced: seq<bool>)
    requires |active| == 8
    requires forall i, k :: 0 <= i < k < |active| ==> active[i] != active[k]
    requires forall p :: 0 <= p < |forced| ==> (forced[p] <==> p % 2 == 1)
    ensures !VisitedBy(active, offset, forced, (offset + 4) % 8)
  {
    var j: nat := (offset + 4) % 8;
    MixedScheduleVisits(active, offset, forced, j);
    forall p: nat | p < |forced| && !forced[p]
      ensures (j - offset - ROTATING_CAPACITY * p) % 8 == 4
    {
      var q, d := p / 2, (offset + 4) / 8;
      assert p == 2 * q && j == offset + 4 - 8 * d;
      ModIs(j - offset - ROTATING_CAPACITY * p, 0 - d - q, 4, 8);
    }
  }
}
