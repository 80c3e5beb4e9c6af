/**
 * The two-pool replay filter (common/antireplay/replayfilter.go). The pools are sets in place of
 * cuckoo filters, and the clock is a parameter: the time, in seconds, at which a check is made.
 */
module ReplayFilters {
  import opened Bytes

  type Sum = bytes

  datatype Filter = Filter(poolA: set<Sum>, poolB: set<Sum>, poolSwap: bool, lastSwap: int, interval: int)

  function New(interval: int): Filter {
    Filter({}, {}, false, 0, interval)
  }

  /** A check first sets the pools up, or resets the older one when its time has come. */
  function Turned(f: Filter, now: int): Filter {
    var g := if f.lastSwap == 0 then f.(lastSwap := now, poolA := {}, poolB := {}) else f;
    if now - g.lastSwap < g.interval then g
    else if g.poolSwap then g.(poolA := {}, poolSwap := false, lastSwap := now)
    else g.(poolB := {}, poolSwap := true, lastSwap := now)
  }

  predicate Accepts(f: Filter, now: int, sum: Sum) {
    sum !in Turned(f, now).poolA && sum !in Turned(f, now).poolB
  }

  /** The value goes into pool A, and into pool B unless A had it already. */
  function Checked(f: Filter, now: int, sum: Sum): Filter {
    var g := Turned(f, now);
    if sum in g.poolA then g else g.(poolA := g.poolA + {sum}, poolB := g.poolB + {sum})
  }

  class ReplayFilter {
    var poolA: set<Sum>
    var poolB: set<Sum>
    var poolSwap: bool
    var lastSwap: int
    const interval: int

    function View(): Filter
      reads this
    {
      Filter(poolA, poolB, poolSwap, lastSwap, interval)
    }

    constructor (interval: int)
      ensures View() == New(interval)
    {
      this.interval := interval;
      poolA, poolB, poolSwap, lastSwap := {}, {}, false, 0;
    }

    static method InsertUnique(pool: set<Sum>, sum: Sum) returns (after: set<Sum>, ok: bool)
      ensures ok <==> sum !in pool
      ensures after == pool + {sum}
    {
      if sum in pool {
        return pool, false;
      }
      return pool + {sum}, true;
    }

    method Check(now: int, sum: Sum) returns (ok: bool)
      modifies this
      ensures View() == Checked(old(View()), now, sum)
      ensures ok <==> Accepts(old(View()), now, sum)
    {
      if lastSwap == 0 {
        lastSwap := now;
        poolA, poolB := {}, {};
      }
      var elapsed := now - lastSwap;
      if elapsed >= interval {
        if poolSwap {
          poolA := {};
        } else {
          poolB := {};
        }
        poolSwap := !poolSwap;
        lastSwap := now;
      }
      poolA, ok := InsertUnique(poolA, sum);
      if ok {
        poolB, ok := InsertUnique(poolB, sum);
      }
    }
  }

  // ---------------------------------------------------------------------------------------------
  // Runs
  // ---------------------------------------------------------------------------------------------

  datatype Check = Check(now: int, sum: Sum)

  /** The filter before check k of the run cs. */
  function Before(interval: int, cs: seq<Check>, k: nat): Filter
    requires k <= |cs|
  {
    if k == 0 then New(interval) else Checked(Before(interval, cs, k - 1), cs[k - 1].now, cs[k - 1].sum)
  }

  /** Whether check k of the run is answered with yes. */
  predicate Accepted(interval: int, cs: seq<Check>, k: nat)
    requires k < |cs|
  {
    Accepts(Before(interval, cs, k), cs[k].now, cs[k].sum)
  }

  predicate Ordered(cs: seq<Check>) {
    forall i, j :: 0 <= i < j < |cs| ==> cs[i].now <= cs[j].now
  }

  /** The value accepted at time t is still in a pool that will not be reset before t + interval. */
  predicate Remembers(f: Filter, sum: Sum, t: int) {
    && f.lastSwap != 0 && t - f.lastSwap < f.interval
    && (if f.lastSwap <= t then sum in f.poolA && sum in f.poolB
        else if f.poolSwap then sum in f.poolA else sum in f.poolB)
  }

  /** No pool holds the value, or both are about to be set up anew. */
  predicate Forgot(f: Filter, sum: Sum) {
    f.lastSwap == 0 || (sum !in f.poolA && sum !in f.poolB)
  }

  lemma AcceptedIsRemembered(f: Filter, now: int, sum: Sum)
    requires Accepts(f, now, sum) && (f.lastSwap == 0 || f.lastSwap <= now) && f.interval > 0
    ensures Checked(f, now, sum).lastSwap != 0 ==> Remembers(Checked(f, now, sum), sum, now)
  {
  }

  /** Within the interval a check keeps the value in memory, and if it is of the value, rejects it. */
  lemma RememberedIsRejected(f: Filter, t: int, sum: Sum, now: int, other: Sum)
    requires Remembers(f, sum, t) && f.lastSwap <= now && t <= now < t + f.interval
    ensures !Accepts(f, now, sum)
    ensures Checked(f, now, other).lastSwap != 0 ==> Remembers(Checked(f, now, other), sum, t)
  {
  }

  lemma {:induction false} BeforeBounded(interval: int, cs: seq<Check>, k: nat)
    requires k < |cs| && Ordered(cs)
    ensures var f := Before(interval, cs, k); f.interval == interval && (f.lastSwap == 0 || f.lastSwap <= cs[k].now)
  {
    if k > 0 {
      BeforeBounded(interval, cs, k - 1);
      assert cs[k - 1].now <= cs[k].now;
    }
  }

  /** After check k the filter believes that it has not been set up yet. */
  predicate Unset(interval: int, cs: seq<Check>, k: nat)
    requires k < |cs|
  {
    Before(interval, cs, k + 1).lastSwap == 0
  }

  lemma {:induction false} StillRemembered(interval: int, cs: seq<Check>, i: nat, j: nat)
    requires i < j < |cs| && Ordered(cs) && Accepted(interval, cs, i) && cs[j].now < cs[i].now + interval
    requires forall k :: i <= k < j ==> !Unset(interval, cs, k)
    ensures Remembers(Before(interval, cs, j), cs[i].sum, cs[i].now)
    decreases j
  {
    BeforeBounded(interval, cs, j - 1);
    assert !Unset(interval, cs, j - 1);
    assert cs[i].now <= cs[j].now;
    if j == i + 1 {
      AcceptedIsRemembered(Before(interval, cs, i), cs[i].now, cs[i].sum);
    } else {
      assert cs[i].now <= cs[j - 1].now <= cs[j].now;
      StillRemembered(interval, cs, i, j - 1);
      RememberedIsRejected(Before(interval, cs, j - 1), cs[i].now, cs[i].sum, cs[j - 1].now, cs[j - 1].sum);
    }
  }

  lemma RejectedWhileSet(interval: int, cs: seq<Check>, i: nat, j: nat)
    requires i < j < |cs| && Ordered(cs) && Accepted(interval, cs, i) && cs[j].now < cs[i].now + interval
    requires cs[j].sum == cs[i].sum && forall k :: i <= k < j ==> !Unset(interval, cs, k)
    ensures !Accepted(interval, cs, j)
  {
    StillRemembered(interval, cs, i, j);
    BeforeBounded(interval, cs, j);
    assert cs[i].now <= cs[j].now;
    RememberedIsRejected(Before(interval, cs, j), cs[i].now, cs[i].sum, cs[j].now, cs[j].sum);
  }

  lemma {:induction false} StillForgotten(interval: int, cs: seq<Check>, k: nat, j: nat, sum: Sum)
    requires k <= j <= |cs| && Forgot(Before(interval, cs, k), sum)
    requires forall m :: k <= m < j ==> cs[m].sum != sum
    ensures Forgot(Before(interval, cs, j), sum)
    decreases j
  {
    if k < j {
      StillForgotten(interval, cs, k, j - 1, sum);
      assert cs[j - 1].sum != sum;
    }
  }

  /** A value that was never checked before is accepted, whatever the clock does. */
  lemma NeverSeenIsAccepted(interval: int, cs: seq<Check>, j: nat)
    requires j < |cs| && forall m :: 0 <= m < j ==> cs[m].sum != cs[j].sum
    ensures Accepted(interval, cs, j)
  {
    StillForgotten(interval, cs, 0, j, cs[j].sum);
  }

  /** The first check of the value of check j after check k. */
  lemma FirstAfter(cs: seq<Check>, k: nat, j: nat) returns (m: nat)
    requires k < j < |cs|
    ensures k < m <= j && cs[m].sum == cs[j].sum
    ensures forall n :: k < n < m ==> cs[n].sum != cs[j].sum
  {
    m := k + 1;
    while cs[m].sum != cs[j].sum
      invariant k < m <= j
      invariant forall n :: k < n < m ==> cs[n].sum != cs[j].sum
      decreases j - m
    {
      m := m + 1;
    }
  }

  /** The last check before j after which the filter believes that it is not set up. */
  lemma LastUnset(interval: int, cs: seq<Check>, i: nat, j: nat, some: nat) returns (k: nat)
    requires i <= some < j < |cs| && Unset(interval, cs, some)
    ensures i <= k < j && Unset(interval, cs, k)
    ensures forall n :: k < n < j ==> !Unset(interval, cs, n)
  {
    k := j - 1;
    while !Unset(interval, cs, k)
      invariant some <= k < j
      invariant forall n :: k < n < j ==> !Unset(interval, cs, n)
      decreases k
    {
      k := k - 1;
    }
  }

  /**
   * The filter's promise, for every run whose clock does not go back: a value accepted at check i
   * and checked again at check j, less than the interval later, is rejected there. It is kept
   * exactly if the value was checked again after every check in between that left the time of the
   * last swap at 0, which the code takes for "not set up yet".
   */
  lemma ReplayIsRejected(interval: int, cs: seq<Check>, i: nat, j: nat)
    requires i < j < |cs| && Ordered(cs) && cs[j].sum == cs[i].sum
    requires Accepted(interval, cs, i) && cs[j].now < cs[i].now + interval
    ensures !Accepted(interval, cs, j) <==>
      forall k :: i <= k < j && Unset(interval, cs, k) ==> exists m :: k < m < j && cs[m].sum == cs[j].sum
  {
    if some :| i <= some < j && Unset(interval, cs, some) {
      var k := LastUnset(interval, cs, i, j, some);
      var m := FirstAfter(cs, k, j);
      StillForgotten(interval, cs, k + 1, m, cs[j].sum);
      assert Accepted(interval, cs, m);
      if m < j {
        assert cs[i].now <= cs[m].now;
        RejectedWhileSet(interval, cs, m, j);
        assert cs[m].sum == cs[j].sum;
      }
    } else {
      RejectedWhileSet(interval, cs, i, j);
    }
  }

  /** Only a check at time 0 can leave the filter like that. */
  lemma UnsetOnlyAtZero(interval: int, cs: seq<Check>, k: nat)
    requires k < |cs| && cs[k].now != 0
    ensures !Unset(interval, cs, k)
  {
  }

  /** So with a clock that never reads 0 the promise is kept. */
  lemma ReplayIsRejectedOffZero(interval: int, cs: seq<Check>, i: nat, j: nat)
    requires i < j < |cs| && Ordered(cs) && cs[j].sum == cs[i].sum
    requires Accepted(interval, cs, i) && cs[j].now < cs[i].now + interval
    requires forall k :: i <= k < j ==> cs[k].now != 0
    ensures !Accepted(interval, cs, j)
  {
    forall k | i <= k < j ensures !Unset(interval, cs, k) {
      UnsetOnlyAtZero(interval, cs, k);
    }
    RejectedWhileSet(interval, cs, i, j);
  }

  /** The same value, twice at time 0, is accepted twice. */
  lemma ReplayAtZero(sum: Sum)
    ensures var cs := [Check(0, sum), Check(0, sum)]; Accepted(120, cs, 0) && Accepted(120, cs, 1)
  {
    var cs := [Check(0, sum), Check(0, sum)];
    NeverSeenIsAccepted(120, cs, 0);
    assert Before(120, cs, 1) == Checked(New(120), 0, sum);
  }

  // ---------------------------------------------------------------------------------------------
  // Exactly when a value is accepted, from the times of the checks
  // ---------------------------------------------------------------------------------------------

  predicate Rising(ts: seq<nat>, k: nat) {
    && 0 < |ts| && ts[0] == 0 && (forall i :: 0 <= i < |ts| ==> ts[i] <= k)
    && (forall i, j :: 0 <= i < j < |ts| ==> ts[i] <= ts[j])
  }

  /**
   * The checks up to check k at which an interval of memory begins: the first one, and then each one
   * that comes an interval or more after the last of them. With an interval of 0 or less the first
   * check begins two.
   */
  function Turns(interval: int, cs: seq<Check>, k: nat): (ts: seq<nat>)
    requires k < |cs|
    ensures 0 < |ts| && ts[|ts| - 1] <= k
  {
    if k == 0 then if interval > 0 then [0] else [0, 0]
    else
      var ts := Turns(interval, cs, k - 1);
      if cs[k].now - cs[ts[|ts| - 1]].now >= interval then ts + [k] else ts
  }

  lemma {:induction false} TurnsRise(interval: int, cs: seq<Check>, k: nat)
    requires k < |cs|
    ensures Rising(Turns(interval, cs, k), k)
  {
    if k > 0 {
      TurnsRise(interval, cs, k - 1);
    }
  }

  /** The value was checked at check i or later, but before check j. */
  ghost predicate Seen(cs: seq<Check>, i: nat, j: nat, sum: Sum) {
    exists m :: i <= m < j && m < |cs| && cs[m].sum == sum
  }

  lemma SeenSplit(cs: seq<Check>, i: nat, j: nat, k: nat, sum: Sum)
    requires i <= j <= k
    ensures Seen(cs, i, k, sum) <==> Seen(cs, i, j, sum) || Seen(cs, j, k, sum)
  {
  }

  lemma SeenNext(cs: seq<Check>, i: nat, k: nat, sum: Sum)
    requires i <= k < |cs|
    ensures Seen(cs, i, k + 1, sum) <==> Seen(cs, i, k, sum) || cs[k].sum == sum
  {
    if cs[k].sum == sum {
      assert i <= k < k + 1;
    }
  }

  /** Even turns empty pool A, odd ones pool B: pool A holds what was checked since the last even turn. */
  ghost predicate InA(cs: seq<Check>, ts: seq<nat>, k: nat, sum: Sum)
    requires |ts| > 0
  {
    var n := |ts| - 1;
    if n % 2 == 1 then Seen(cs, ts[n - 1], k, sum) else Seen(cs, ts[n], k, sum)
  }

  /** Pool B holds what was checked since the last odd turn while it was not in pool A. */
  ghost predicate InB(cs: seq<Check>, ts: seq<nat>, k: nat, sum: Sum)
    requires |ts| > 0
  {
    var n := |ts| - 1;
    if n % 2 == 1 then Seen(cs, ts[n], k, sum) && !Seen(cs, ts[n - 1], ts[n], sum)
    else Seen(cs, ts[n], k, sum) ||
         (n > 0 && Seen(cs, ts[n - 1], ts[n], sum) && !Seen(cs, ts[n - 2], ts[n - 1], sum))
  }

  ghost predicate Pools(f: Filter, cs: seq<Check>, ts: seq<nat>, k: nat)
    requires 0 < |ts| && ts[|ts| - 1] < |cs|
  {
    && f.lastSwap == cs[ts[|ts| - 1]].now && f.poolSwap == ((|ts| - 1) % 2 == 1)
    && (forall x :: x in f.poolA <==> InA(cs, ts, k, x))
    && (forall x :: x in f.poolB <==> InB(cs, ts, k, x))
  }

  lemma SwapKeeps(f: Filter, cs: seq<Check>, ts: seq<nat>, k: nat)
    requires Rising(ts, k) && k < |cs| && Pools(f, cs, ts, k)
    ensures var g := (if f.poolSwap then f.(poolA := {}) else f.(poolB := {})).(
              poolSwap := !f.poolSwap, lastSwap := cs[k].now);
            Pools(g, cs, ts + [k], k)
  {
    var ts' := ts + [k];
    forall x ensures !Seen(cs, k, k, x) {}
    assert forall i :: 0 <= i < |ts| ==> ts'[i] == ts[i];
  }

  lemma InsertedInB(cs: seq<Check>, ts: seq<nat>, k: nat, x: Sum)
    requires Rising(ts, k) && k < |cs|
    ensures InA(cs, ts, k + 1, x) <==> InA(cs, ts, k, x) || cs[k].sum == x
    ensures InB(cs, ts, k + 1, x) <==> InB(cs, ts, k, x) || (cs[k].sum == x && !InA(cs, ts, k, x))
  {
    var n := |ts| - 1;
    SeenNext(cs, ts[n], k, x);
    if n % 2 == 1 {
      SeenNext(cs, ts[n - 1], k, x);
      SeenSplit(cs, ts[n - 1], ts[n], k, x);
    }
  }

  lemma InsertKeeps(f: Filter, cs: seq<Check>, ts: seq<nat>, k: nat)
    requires Rising(ts, k) && k < |cs| && Pools(f, cs, ts, k)
    ensures var sum := cs[k].sum;
            var g := if sum in f.poolA then f else f.(poolA := f.poolA + {sum}, poolB := f.poolB + {sum});
            Pools(g, cs, ts, k + 1)
  {
    forall x ensures InA(cs, ts, k + 1, x) <==> InA(cs, ts, k, x) || cs[k].sum == x
      ensures InB(cs, ts, k + 1, x) <==> InB(cs, ts, k, x) || (cs[k].sum == x && !InA(cs, ts, k, x))
    {
      InsertedInB(cs, ts, k, x);
    }
  }

  lemma SetUp(cs: seq<Check>, f: Filter)
    requires 0 < |cs| && f.poolA == f.poolB == {} && !f.poolSwap && f.lastSwap == cs[0].now
    ensures Pools(f, cs, [0], 0)
  {
    forall x ensures !Seen(cs, 0, 0, x) {}
  }

  lemma TurnKeeps(f: Filter, cs: seq<Check>, ts: seq<nat>, k: nat)
    requires Rising(ts, k) && k < |cs| && Pools(f, cs, ts, k) && f.lastSwap != 0
    ensures var due := cs[k].now - cs[ts[|ts| - 1]].now >= f.interval;
            Pools(Turned(f, cs[k].now), cs, if due then ts + [k] else ts, k)
  {
    if cs[k].now - f.lastSwap >= f.interval {
      SwapKeeps(f, cs, ts, k);
    }
  }

  lemma FirstPools(interval: int, cs: seq<Check>)
    requires 0 < |cs| && cs[0].now != 0
    ensures Pools(Turned(New(interval), cs[0].now), cs, Turns(interval, cs, 0), 0)
  {
    var f := New(interval).(lastSwap := cs[0].now);
    SetUp(cs, f);
    TurnKeeps(f, cs, [0], 0);
    assert Turned(New(interval), cs[0].now) == Turned(f, cs[0].now);
    assert [0] + [0] == [0, 0];
  }

  lemma NextPools(f: Filter, g: Filter, cs: seq<Check>, ts: seq<nat>, ts': seq<nat>, k: nat)
    requires Rising(ts, k) && k + 1 < |cs| && Pools(Turned(f, cs[k].now), cs, ts, k) && cs[ts[|ts| - 1]].now != 0
    requires g == Checked(f, cs[k].now, cs[k].sum)
    requires ts' == if cs[k + 1].now - cs[ts[|ts| - 1]].now >= f.interval then ts + [k + 1] else ts
    ensures g.interval == f.interval && Pools(Turned(g, cs[k + 1].now), cs, ts', k + 1)
  {
    InsertKeeps(Turned(f, cs[k].now), cs, ts, k);
    TurnKeeps(g, cs, ts, k + 1);
  }

  lemma {:induction false} TurnedPools(interval: int, cs: seq<Check>, k: nat)
    requires k < |cs| && forall i :: 0 <= i <= k ==> cs[i].now != 0
    ensures Before(interval, cs, k).interval == interval
    ensures Pools(Turned(Before(interval, cs, k), cs[k].now), cs, Turns(interval, cs, k), k)
  {
    if k == 0 {
      FirstPools(interval, cs);
    } else {
      TurnedPools(interval, cs, k - 1);
      TurnsRise(interval, cs, k - 1);
      var f, g := Before(interval, cs, k - 1), Before(interval, cs, k);
      NextPools(f, g, cs, Turns(interval, cs, k - 1), Turns(interval, cs, k), k - 1);
    }
  }

  /**
   * In every run whose clock never reads 0, whether it goes back or not, the answer to a check
   * follows from the times and values checked before. Up to the first turn behind the set-up, and
   * behind every odd turn, a value is accepted exactly if it was not checked since the last even
   * turn. Behind a later even turn it is accepted exactly if it was not checked since then, and not
   * since the odd turn before either, unless it was checked between that odd turn and the even one
   * before it as well: a repeated check does not make the filter remember a value longer.
   */
  lemma AcceptedExactly(interval: int, cs: seq<Check>, k: nat)
    requires k < |cs| && forall i :: 0 <= i <= k ==> cs[i].now != 0
    ensures var ts, sum := Turns(interval, cs, k), cs[k].sum; var n := |ts| - 1;
      Accepted(interval, cs, k) <==>
        if n == 0 then !Seen(cs, 0, k, sum)
        else if n % 2 == 1 then !Seen(cs, ts[n - 1], k, sum)
        else !Seen(cs, ts[n], k, sum) && (!Seen(cs, ts[n - 1], ts[n], sum) || Seen(cs, ts[n - 2], ts[n - 1], sum))
  {
    TurnedPools(interval, cs, k);
    TurnsRise(interval, cs, k);
    var ts, sum := Turns(interval, cs, k), cs[k].sum;
    var n := |ts| - 1;
    if n % 2 == 1 {
      SeenSplit(cs, ts[n - 1], ts[n], k, sum);
    }
  }

  /** A value that was not checked since the last turn but one is accepted. */
  lemma ForgottenBehindTwoTurns(interval: int, cs: seq<Check>, k: nat)
    requires k < |cs| && forall i :: 0 <= i <= k ==> cs[i].now != 0
    requires var ts := Turns(interval, cs, k); |ts| > 1 && !Seen(cs, ts[|ts| - 2], k, cs[k].sum)
    ensures Accepted(interval, cs, k)
  {
    AcceptedExactly(interval, cs, k);
    TurnsRise(interval, cs, k);
    var ts := Turns(interval, cs, k);
    SeenSplit(cs, ts[|ts| - 2], ts[|ts| - 1], k, cs[k].sum);
  }

  /** What comes behind the turns up to check i is later than check i. */
  lemma {:induction false} TurnsAfter(interval: int, cs: seq<Check>, i: nat, k: nat)
    requires i <= k < |cs|
    ensures var before, ts := Turns(interval, cs, i), Turns(interval, cs, k);
      before <= ts && forall n :: |before| <= n < |ts| ==> ts[n] > i
    decreases k
  {
    if i < k {
      TurnsAfter(interval, cs, i, k - 1);
    }
  }

  /** A check an interval or more after check i has a turn between the two, or is one. */
  lemma TurnBetween(interval: int, cs: seq<Check>, i: nat, k: nat)
    requires i < k < |cs| && Ordered(cs) && cs[k].now >= cs[i].now + interval
    ensures |Turns(interval, cs, k)| > |Turns(interval, cs, i)|
  {
    TurnsAfter(interval, cs, i, k - 1);
    var before, ts := Turns(interval, cs, i), Turns(interval, cs, k - 1);
    if |ts| == |before| {
      var last := before[|before| - 1];
      assert ts[|ts| - 1] == last <= i;
      assert cs[last].now <= cs[i].now;
    }
  }

  /**
   * The filter forgets: a value last checked at check i is accepted at check j if there was a check
   * at least an interval after check i and another at least an interval after that one.
   */
  lemma ForgottenInTime(interval: int, cs: seq<Check>, i: nat, one: nat, two: nat, j: nat)
    requires i < one < two <= j < |cs| && Ordered(cs) && forall k :: 0 <= k <= j ==> cs[k].now != 0
    requires cs[one].now >= cs[i].now + interval && cs[two].now >= cs[one].now + interval
    requires forall k :: i < k < j ==> cs[k].sum != cs[j].sum
    ensures Accepted(interval, cs, j)
  {
    TwoTurns(interval, cs, i, one, two, j);
    LastButOneAfter(interval, cs, i, j);
    ForgottenBehindTwoTurns(interval, cs, j);
  }

  lemma TwoTurns(interval: int, cs: seq<Check>, i: nat, one: nat, two: nat, j: nat)
    requires i < one < two <= j < |cs| && Ordered(cs)
    requires cs[one].now >= cs[i].now + interval && cs[two].now >= cs[one].now + interval
    ensures |Turns(interval, cs, j)| > |Turns(interval, cs, i)| + 1
  {
    TurnBetween(interval, cs, i, one);
    TurnBetween(interval, cs, one, two);
    TurnsAfter(interval, cs, two, j);
  }

  lemma LastButOneAfter(interval: int, cs: seq<Check>, i: nat, j: nat)
    requires i <= j < |cs| && |Turns(interval, cs, j)| > |Turns(interval, cs, i)| + 1
    ensures var ts := Turns(interval, cs, j); ts[|ts| - 2] > i
  {
    TurnsAfter(interval, cs, i, j);
  }
}
