/**
 * The session table of a Mux connection (common/mux/session.go): allocation of ids by the client,
 * closing of one session or of the whole connection, and the idle check.
 */
module MuxSessions {
  import opened Bytes

  /** Session ids and the counter they come from are 16 bits wide. */
  const IDS: nat := 65536

  /** ClientStrategy; both limits are 32 bits wide and 0 means none. */
  datatype Strategy = Strategy(maxConcurrency: nat, maxConnection: nat)

  /** Allocate looks at the low 16 bits of MaxConnection only. */
  function MaxConnection(s: Strategy): nat {
    s.maxConnection % IDS
  }

  function Succ16(n: nat): nat {
    if n == IDS - 1 then 0 else n + 1
  }

  /**
   * The table. Sessions are numbered in the order they were made: ids[k] is the id of the k-th, and
   * ended[k] says how often its resources have been closed; sessions maps ids to those numbers.
   */
  datatype Table = Table(sessions: map<nat, nat>, count: nat, closed: bool, ids: seq<nat>, ended: seq<nat>)

  const NEW := Table(map[], 0, false, [], [])

  predicate Full(m: Table, s: Strategy) {
    || m.closed
    || (s.maxConcurrency > 0 && |m.sessions| >= s.maxConcurrency)
    || (MaxConnection(s) > 0 && m.count >= MaxConnection(s))
  }

  function Made(m: Table): Table {
    var id := Succ16(m.count);
    m.(count := id, sessions := m.sessions[id := |m.ids|], ids := m.ids + [id], ended := m.ended + [0])
  }

  function Allocated(m: Table, s: Strategy): Table {
    if Full(m, s) then m else Made(m)
  }

  function Removed(m: Table, id: nat): Table {
    if m.closed then m else m.(sessions := m.sessions - {id})
  }

  /** Session.Close: the second close of a session does nothing. */
  function Ended(m: Table, k: nat): Table
    requires k < |m.ids| && k < |m.ended|
  {
    if m.ended[k] > 0 then m else Removed(m.(ended := m.ended[k := m.ended[k] + 1]), m.ids[k])
  }

  /** What the loop over the table does to the close counts. */
  function EndEach(ended: seq<nat>, sessions: map<nat, nat>): seq<nat> {
    seq(|ended|, k requires 0 <= k < |ended| => if k in sessions.Values && ended[k] == 0 then 1 else ended[k])
  }

  function AllEnded(m: Table): Table {
    if m.closed then m else m.(closed := true, ended := EndEach(m.ended, m.sessions), sessions := map[])
  }

  function IdleClosed(m: Table, size: nat, count: nat): Table {
    if m.closed || |m.sessions| != 0 || size != 0 || count != m.count then m else m.(closed := true, sessions := map[])
  }

  // ---------------------------------------------------------------------------------------------
  // The session manager
  // ---------------------------------------------------------------------------------------------

  class SessionManager {
    var sessions: map<nat, nat>
    var count: nat
    var closed: bool
    var ids: seq<nat>
    var ended: seq<nat>

    function View(): Table
      reads this
    {
      Table(sessions, count, closed, ids, ended)
    }

    constructor ()
      ensures View() == NEW
    {
      sessions, count, closed, ids, ended := map[], 0, false, [], [];
    }

    method Allocate(strategy: Strategy) returns (s: Option<nat>)
      modifies this
      ensures View() == Allocated(old(View()), strategy)
      ensures s == if Full(old(View()), strategy) then None else Some(|old(ids)|)
    {
      var maxConcurrency := strategy.maxConcurrency;
      var maxConnection := strategy.maxConnection % IDS;
      if closed || (maxConcurrency > 0 && |sessions| >= maxConcurrency) ||
          (maxConnection > 0 && count >= maxConnection) {
        return None;
      }
      count := Succ16(count);
      s := Some(|ids|);
      sessions := sessions[count := |ids|];
      ids, ended := ids + [count], ended + [0];
    }

    method Remove(id: nat)
      modifies this
      ensures View() == Removed(old(View()), id)
    {
      if closed {
        return;
      }
      sessions := sessions - {id};
    }

    method Get(id: nat) returns (s: Option<nat>)
      ensures s.Some? <==> !closed && id in sessions
      ensures s.Some? ==> s.value == sessions[id]
    {
      if closed {
        return None;
      }
      return if id in sessions then Some(sessions[id]) else None;
    }

    method CloseSession(k: nat)
      requires k < |ids| && k < |ended|
      modifies this
      ensures View() == Ended(old(View()), k)
    {
      if ended[k] > 0 {
        return;
      }
      ended := ended[k := ended[k] + 1];
      Remove(ids[k]);
    }

    method CloseIfNoSessionAndIdle(checkSize: nat, checkCount: nat) returns (idle: bool)
      modifies this
      ensures View() == IdleClosed(old(View()), checkSize, checkCount)
      ensures idle == closed
    {
      if closed {
        return true;
      }
      if |sessions| != 0 || checkSize != 0 || checkCount != count {
        return false;
      }
      closed := true;
      sessions := map[];
      return true;
    }

    method Close()
      requires forall i :: i in sessions ==> sessions[i] < |ids| && sessions[i] < |ended|
      modifies this
      ensures View() == AllEnded(old(View()))
    {
      if closed {
        return;
      }
      closed := true;
      ghost var was := ended;
      var todo := sessions.Keys;
      while todo != {}
        invariant todo <= sessions.Keys
        invariant closed && sessions == old(sessions) && count == old(count) && ids == old(ids)
        invariant |ended| == |was|
        invariant forall k :: 0 <= k < |ended| ==>
          ended[k] == if was[k] == 0 && (exists i :: i in sessions && i !in todo && sessions[i] == k) then 1 else was[k]
        decreases |todo|
      {
        var i :| i in todo;
        CloseSession(sessions[i]);
        todo := todo - {i};
      }
      sessions := map[];
    }
  }

  // ---------------------------------------------------------------------------------------------
  // Runs of a client's manager
  // ---------------------------------------------------------------------------------------------

  datatype Op = Allocate | End(k: nat) | IdleCheck(size: nat, count: nat) | CloseAll

  function Step(m: Table, s: Strategy, op: Op): Table {
    match op
    case Allocate => Allocated(m, s)
    case End(k) => if k < |m.ids| && k < |m.ended| then Ended(m, k) else m
    case IdleCheck(size, count) => IdleClosed(m, size, count)
    case CloseAll => AllEnded(m)
  }

  function Run(m: Table, s: Strategy, ops: seq<Op>): Table
    decreases |ops|
  {
    if ops == [] then m else Run(Step(m, s, ops[0]), s, ops[1..])
  }

  /** The k-th session has id k + 1, modulo 2^16; the table's keys are the ids of the sessions in it. */
  ghost predicate Inv(m: Table, s: Strategy) {
    && |m.ended| == |m.ids|
    && m.count == Wrap(|m.ids|)
    && (forall k :: 0 <= k < |m.ids| ==> m.ids[k] == Wrap(k + 1))
    && (forall i :: i in m.sessions ==> m.sessions[i] < |m.ids| && m.ids[m.sessions[i]] == i)
    && (s.maxConcurrency > 0 ==> |m.sessions| <= s.maxConcurrency)
    && (MaxConnection(s) > 0 ==> |m.ids| <= MaxConnection(s))
    && (m.closed ==> m.sessions == map[])
  }

  /** A session is in the table until it is closed, once; all are when the manager is. */
  ghost predicate Live(m: Table) {
    && |m.ended| == |m.ids|
    && (forall k :: 0 <= k < |m.ids| ==> m.ended[k] <= 1)
    && (!m.closed ==> forall k :: 0 <= k < |m.ids| ==> (m.ended[k] == 0 <==> Listed(m, k)))
    && (m.closed ==> forall k :: 0 <= k < |m.ids| ==> m.ended[k] == 1)
  }

  predicate Listed(m: Table, k: nat)
    requires k < |m.ids|
  {
    m.ids[k] in m.sessions && m.sessions[m.ids[k]] == k
  }

  /** The counter after n sessions were made. */
  function Wrap(n: nat): nat {
    if n == 0 then 0 else Succ16(Wrap(n - 1))
  }

  lemma {:induction false} WrapIsMod(n: nat)
    ensures Wrap(n) == n % IDS
  {
    if n > 0 {
      WrapIsMod(n - 1);
    }
  }

  lemma MapSizes(m: map<nat, nat>, i: nat, v: nat)
    ensures |m[i := v]| <= |m| + 1
    ensures |m - {i}| <= |m|
  {
    assert m[i := v].Keys == m.Keys + {i};
    assert (m - {i}).Keys == m.Keys - {i};
    assert |m[i := v].Keys| == |m[i := v]| && |(m - {i}).Keys| == |m - {i}| && |m.Keys| == |m|;
    Subset((m - {i}).Keys, m.Keys);
  }

  lemma {:induction false} Subset(x: set<nat>, y: set<nat>)
    requires x <= y
    ensures |x| <= |y|
  {
    if x != {} {
      var e :| e in x;
      Subset(x - {e}, y - {e});
    }
  }

  /** Before the limit is reached, the count is the number of sessions made. */
  lemma MadeBounded(m: Table, s: Strategy)
    requires Inv(m, s) && !Full(m, s)
    ensures MaxConnection(s) > 0 ==> |m.ids| < MaxConnection(s)
  {
    if MaxConnection(s) > 0 {
      WrapIsMod(|m.ids|);
    }
  }

  lemma MadeKeys(m: Table, id: nat, i: nat)
    requires forall j :: j in m.sessions ==> m.sessions[j] < |m.ids| && m.ids[m.sessions[j]] == j
    requires i in m.sessions[id := |m.ids|]
    ensures var k := m.sessions[id := |m.ids|][i]; k <= |m.ids| && (m.ids + [id])[k] == i
  {
  }

  lemma MadeIds(ids: seq<nat>, k: nat)
    requires forall j :: 0 <= j < |ids| ==> ids[j] == Wrap(j + 1)
    requires k <= |ids|
    ensures (ids + [Wrap(|ids| + 1)])[k] == Wrap(k + 1)
  {
  }

  lemma MadeKeeps(m: Table, s: Strategy)
    requires Inv(m, s) && !Full(m, s)
    ensures Inv(Made(m), s)
  {
    var m' := Made(m);
    MadeBounded(m, s);
    MapSizes(m.sessions, m'.count, |m.ids|);
    forall k | 0 <= k < |m'.ids| ensures m'.ids[k] == Wrap(k + 1) {
      MadeIds(m.ids, k);
    }
    forall i | i in m'.sessions ensures m'.sessions[i] < |m'.ids| && m'.ids[m'.sessions[i]] == i {
      MadeKeys(m, m'.count, i);
    }
  }

  lemma EndedKeeps(m: Table, s: Strategy, k: nat)
    requires Inv(m, s) && k < |m.ids|
    ensures Inv(Ended(m, k), s)
  {
    MapSizes(m.sessions, m.ids[k], 0);
  }

  lemma StepKeeps(m: Table, s: Strategy, op: Op)
    requires Inv(m, s)
    ensures Inv(Step(m, s, op), s)
  {
    match op
    case Allocate =>
      if !Full(m, s) {
        MadeKeeps(m, s);
      }
    case End(k) =>
      if k < |m.ids| {
        EndedKeeps(m, s, k);
      }
    case IdleCheck(_, _) =>
    case CloseAll =>
  }

  lemma ModApart(a: nat, b: nat)
    requires a < b < a + IDS
    ensures a % IDS != b % IDS
  {
  }

  /** Numbers that are less than 2^16 apart have different ids. */
  lemma WrapDistinct(j: nat, k: nat)
    requires j < k < j + IDS
    ensures Wrap(j + 1) != Wrap(k + 1)
  {
    WrapIsMod(j + 1);
    WrapIsMod(k + 1);
    ModApart(j + 1, k + 1);
  }

  lemma MadeLive(m: Table, s: Strategy)
    requires Inv(m, s) && Live(m) && !Full(m, s) && |m.ids| < IDS
    ensures Live(Made(m))
  {
    var m' := Made(m);
    forall k | 0 <= k < |m'.ids| ensures m'.ended[k] <= 1 && (m'.ended[k] == 0 <==> Listed(m', k)) {
      if k < |m.ids| {
        assert m.ended[k] == 0 <==> Listed(m, k);
        WrapDistinct(k, |m.ids|);
      }
    }
  }

  lemma EndedLive(m: Table, s: Strategy, k: nat)
    requires Inv(m, s) && Live(m) && k < |m.ids| <= IDS && m.ended[k] == 0
    ensures Live(Ended(m, k))
  {
    var m' := Ended(m, k);
    assert !m.closed;
    forall j | 0 <= j < |m'.ids| ensures m'.ended[j] <= 1 && (m'.ended[j] == 0 <==> Listed(m', j)) {
      assert m.ended[j] == 0 <==> Listed(m, j);
      if j < k {
        WrapDistinct(j, k);
      } else if k < j {
        WrapDistinct(k, j);
      }
    }
  }

  lemma StepLive(m: Table, s: Strategy, op: Op)
    requires Inv(m, s) && Live(m) && |Step(m, s, op).ids| <= IDS
    ensures Live(Step(m, s, op))
  {
    match op
    case Allocate =>
      if !Full(m, s) {
        MadeLive(m, s);
      }
    case End(k) =>
      if k < |m.ids| && m.ended[k] == 0 {
        EndedLive(m, s, k);
      }
    case IdleCheck(_, _) => IdleLive(m, Step(m, s, op));
    case CloseAll => AllLive(m);
  }

  lemma IdleLive(m: Table, m': Table)
    requires Live(m) && (m' == m || (m' == m.(closed := true, sessions := map[]) && |m.sessions| == 0 && !m.closed))
    ensures Live(m')
  {
    if m' != m {
      forall k | 0 <= k < |m.ids| ensures m.ended[k] == 1 {
        assert !Listed(m, k);
      }
    }
  }

  lemma AllLive(m: Table)
    requires Live(m) && forall i :: i in m.sessions ==> m.sessions[i] < |m.ids| && m.ids[m.sessions[i]] == i
    ensures Live(AllEnded(m))
  {
    if !m.closed {
      forall k | 0 <= k < |m.ids| ensures EndEach(m.ended, m.sessions)[k] == 1 {
        if m.ended[k] == 0 {
          assert Listed(m, k);
          assert k in m.sessions.Values;
        }
      }
    }
  }

  lemma {:induction false} RunKeeps(m: Table, s: Strategy, ops: seq<Op>)
    requires Inv(m, s)
    ensures Inv(Run(m, s, ops), s)
    ensures |m.ids| <= |Run(m, s, ops).ids|
    ensures m.closed ==> Run(m, s, ops).closed && Run(m, s, ops).ids == m.ids
    decreases |ops|
  {
    if ops != [] {
      StepKeeps(m, s, ops[0]);
      RunKeeps(Step(m, s, ops[0]), s, ops[1..]);
    }
  }

  lemma {:induction false} RunLive(m: Table, s: Strategy, ops: seq<Op>)
    requires Inv(m, s) && Live(m) && |Run(m, s, ops).ids| <= IDS
    ensures Live(Run(m, s, ops))
    decreases |ops|
  {
    if ops != [] {
      var m' := Step(m, s, ops[0]);
      StepKeeps(m, s, ops[0]);
      RunKeeps(m', s, ops[1..]);
      StepLive(m, s, ops[0]);
      RunLive(m', s, ops[1..]);
    }
  }

  predicate Distinct(ids: seq<nat>) {
    forall j, k :: 0 <= j < k < |ids| ==> ids[j] != ids[k]
  }

  /**
   * In every run of a client's manager: keys are the ids of the sessions they lead to; a positive
   * MaxConcurrency bounds the live sessions; a MaxConnection whose low 16 bits are not zero bounds
   * the sessions ever made; and ids are pairwise distinct exactly if at most 2^16 sessions were made.
   */
  lemma TableSound(s: Strategy, ops: seq<Op>)
    ensures var m := Run(NEW, s, ops);
      && (forall i :: i in m.sessions ==> m.sessions[i] < |m.ids| && m.ids[m.sessions[i]] == i)
      && (s.maxConcurrency > 0 ==> |m.sessions| <= s.maxConcurrency)
      && (MaxConnection(s) > 0 ==> |m.ids| <= MaxConnection(s))
      && (|m.ids| <= IDS <==> Distinct(m.ids))
  {
    var m := Run(NEW, s, ops);
    RunKeeps(NEW, s, ops);
    if |m.ids| <= IDS {
      forall j, k | 0 <= j < k < |m.ids| ensures m.ids[j] != m.ids[k] {
        WrapDistinct(j, k);
      }
    } else {
      FirstAgain(m, s);
    }
  }

  /** n sessions, each closed before the next is made; k have been made before. */
  function OneByOne(k: nat, n: nat): seq<Op>
    decreases n
  {
    if n == 0 then [] else [Op.Allocate, Op.End(k)] + OneByOne(k + 1, n - 1)
  }

  lemma OneMore(m: Table, s: Strategy)
    requires Inv(m, s) && !m.closed && m.sessions == map[] && MaxConnection(s) == 0
    ensures var m' := Step(Step(m, s, Op.Allocate), s, Op.End(|m.ids|));
      Inv(m', s) && !m'.closed && m'.sessions == map[] && |m'.ids| == |m.ids| + 1
  {
    var m1 := Step(m, s, Op.Allocate);
    StepKeeps(m, s, Op.Allocate);
    StepKeeps(m1, s, Op.End(|m.ids|));
    assert m1 == Made(m);
    assert Ended(m1, |m.ids|).sessions == map[];
  }

  lemma RunTwo(m: Table, s: Strategy, a: Op, b: Op, rest: seq<Op>)
    ensures Run(m, s, [a, b] + rest) == Run(Step(Step(m, s, a), s, b), s, rest)
  {
    var ops, more := [a, b] + rest, [b] + rest;
    assert ops[0] == a && ops[1..] == more && more[0] == b && more[1..] == rest;
  }

  lemma {:induction false} OneByOneMakes(m: Table, s: Strategy, n: nat)
    requires Inv(m, s) && !m.closed && m.sessions == map[] && MaxConnection(s) == 0
    ensures |Run(m, s, OneByOne(|m.ids|, n)).ids| == |m.ids| + n
    decreases n
  {
    if n > 0 {
      var k := |m.ids|;
      RunTwo(m, s, Op.Allocate, Op.End(k), OneByOne(k + 1, n - 1));
      OneMore(m, s);
      OneByOneMakes(Step(Step(m, s, Op.Allocate), s, Op.End(k)), s, n - 1);
    }
  }

  /** Without a limit in the low 16 bits of MaxConnection, 2^16 + 1 sessions one by one repeat an id. */
  lemma RepeatedId(s: Strategy, n: nat)
    requires MaxConnection(s) == 0 && n == IDS + 1
    ensures var m := Run(NEW, s, OneByOne(0, n)); |m.ids| == n && m.ids[0] == m.ids[IDS]
  {
    OneByOneMakes(NEW, s, n);
    RunKeeps(NEW, s, OneByOne(0, n));
    FirstAgain(Run(NEW, s, OneByOne(0, n)), s);
  }

  lemma FirstAgain(m: Table, s: Strategy)
    requires Inv(m, s) && |m.ids| > IDS
    ensures m.ids[0] == m.ids[IDS]
  {
    WrapIsMod(1);
    WrapIsMod(IDS + 1);
  }

  /** No run repeats an id exactly if the low 16 bits of MaxConnection are not zero. */
  lemma IdsDistinct(s: Strategy)
    ensures (forall ops :: Distinct(Run(NEW, s, ops).ids)) <==> MaxConnection(s) > 0
  {
    if MaxConnection(s) > 0 {
      forall ops ensures Distinct(Run(NEW, s, ops).ids) {
        TableSound(s, ops);
      }
    } else {
      var n := IDS + 1;
      RepeatedId(s, n);
      assert !Distinct(Run(NEW, s, OneByOne(0, n)).ids);
    }
  }

  /**
   * As long as at most 2^16 sessions were made, which a MaxConnection with low bits sees to, each
   * is closed at most once, an open manager lists exactly the sessions not closed yet, and a closed
   * one has closed them all and stays closed.
   */
  lemma ClosedOnce(s: Strategy, before: seq<Op>, after: seq<Op>)
    ensures var m := Run(NEW, s, before); var m' := Run(m, s, after);
      && (|m.ids| <= IDS || MaxConnection(s) > 0 ==> Live(m))
      && (m.closed ==> m'.closed && m'.ids == m.ids && m'.sessions == map[])
  {
    RunKeeps(NEW, s, before);
    RunKeeps(Run(NEW, s, before), s, after);
    if |Run(NEW, s, before).ids| <= IDS {
      RunLive(NEW, s, before);
    }
  }

  lemma WrapEqual(a: nat, b: nat)
    requires a <= b
    ensures Wrap(a) == Wrap(b) <==> (b - a) % IDS == 0
    ensures b < IDS && Wrap(a) == Wrap(b) ==> a == b
  {
    WrapIsMod(a);
    WrapIsMod(b);
  }

  lemma SameIds(m: Table, m': Table, s: Strategy)
    requires Inv(m, s) && Inv(m', s) && |m.ids| == |m'.ids|
    ensures m.ids == m'.ids
  {
    forall k | 0 <= k < |m.ids| ensures m.ids[k] == m'.ids[k] {
      assert m.ids[k] == Wrap(k + 1);
    }
  }

  lemma IdleExact(m: Table, m': Table, s: Strategy)
    requires Inv(m, s) && Inv(m', s) && |m.ids| <= |m'.ids| && !m'.closed
    ensures var end := IdleClosed(m', |m.sessions|, m.count);
      && (end.closed <==> |m.sessions| == 0 && |m'.sessions| == 0 && (|m'.ids| - |m.ids|) % IDS == 0)
      && (end.closed && |m'.ids| < IDS ==> m'.ids == m.ids)
  {
    WrapEqual(|m.ids|, |m'.ids|);
    if |m'.ids| == |m.ids| {
      SameIds(m, m', s);
    }
  }

  /**
   * The monitor takes the size and the count, and later asks for the close with these. An open
   * manager is then closed exactly if no session is live, none was live at the first point, and the
   * number of sessions made in between is a multiple of 2^16; with fewer than 2^16 sessions in the
   * run this means that none was made.
   */
  lemma IdleMeansIdle(s: Strategy, before: seq<Op>, between: seq<Op>)
    ensures var m := Run(NEW, s, before); var m' := Run(m, s, between);
      var end := IdleClosed(m', |m.sessions|, m.count);
      !m'.closed ==>
        && (end.closed <==> |m.sessions| == 0 && |m'.sessions| == 0 && (|m'.ids| - |m.ids|) % IDS == 0)
        && (end.closed && |m'.ids| < IDS ==> m'.ids == m.ids)
  {
    RunKeeps(NEW, s, before);
    var m := Run(NEW, s, before);
    RunKeeps(m, s, between);
    if !Run(m, s, between).closed {
      IdleExact(m, Run(m, s, between), s);
    }
  }

  // ---------------------------------------------------------------------------------------------
  // Exactly when a session is made, and what each call leaves alone
  // ---------------------------------------------------------------------------------------------

  lemma {:induction false} SameSize(f: map<nat, nat>, x: set<nat>, y: set<nat>)
    requires f.Keys == x && (forall i :: i in f ==> f[i] in y)
    requires forall k :: k in y ==> exists i :: i in f && f[i] == k
    requires forall i, j :: i in f && j in f && f[i] == f[j] ==> i == j
    ensures |x| == |y|
    decreases x
  {
    if x != {} {
      var i :| i in x;
      var g := f - {i};
      forall k | k in y - {f[i]} ensures exists j :: j in g && g[j] == k {
        var j :| j in f && f[j] == k;
        assert j in g && g[j] == k;
      }
      SameSize(g, x - {i}, y - {f[i]});
    }
  }

  /** The sessions made and not ended yet. */
  function Open(m: Table): set<nat>
    requires |m.ended| == |m.ids|
  {
    set k: nat | k < |m.ids| && m.ended[k] == 0
  }

  lemma OpenSize(m: Table, s: Strategy)
    requires Inv(m, s) && Live(m) && !m.closed
    ensures |m.sessions| == |Open(m)|
  {
    forall i | i in m.sessions ensures m.sessions[i] in Open(m) {
      assert Listed(m, m.sessions[i]);
    }
    forall k | k in Open(m) ensures exists i :: i in m.sessions && m.sessions[i] == k {
      assert Listed(m, k);
    }
    SameSize(m.sessions, m.sessions.Keys, Open(m));
    assert |m.sessions.Keys| == |m.sessions|;
  }

  /**
   * In every run, Allocate makes a session exactly if the manager is open, fewer sessions are in its
   * table than MaxConcurrency says, if it says anything, and fewer were made, modulo 2^16, than the
   * low 16 bits of MaxConnection say, if they do. Up to 2^16 sessions the table's size is the number
   * of sessions made and not ended. The new session's id is one more than the number made before,
   * modulo 2^16, and the other sessions stay as they are.
   */
  lemma AllocateExact(s: Strategy, ops: seq<Op>)
    ensures var m := Run(NEW, s, ops); var m' := Step(m, s, Op.Allocate);
      var room := |m.ids| % 65536 < s.maxConnection % 65536;
      && |m.ended| == |m.ids|
      && (|m'.ids| == |m.ids| + 1 <==>
            && !m.closed && (s.maxConcurrency == 0 || |m.sessions| < s.maxConcurrency)
            && (s.maxConnection % 65536 == 0 || room))
      && (!m.closed && |m.ids| <= 65536 ==> |m.sessions| == |Open(m)|)
      && (|m'.ids| != |m.ids| + 1 ==> m' == m)
      && (|m'.ids| == |m.ids| + 1 ==>
            && m'.ids == m.ids + [(|m.ids| + 1) % 65536] && m'.ended == m.ended + [0]
            && !m'.closed && m'.sessions == m.sessions[(|m.ids| + 1) % 65536 := |m.ids|])
  {
    var m := Run(NEW, s, ops);
    RunKeeps(NEW, s, ops);
    WrapIsMod(|m.ids|);
    WrapIsMod(|m.ids| + 1);
    if !m.closed && |m.ids| <= IDS {
      RunLive(NEW, s, ops);
      OpenSize(m, s);
    }
  }

  /** n calls of Allocate in a row. */
  function Burst(n: nat): seq<Op> {
    if n == 0 then [] else [Op.Allocate] + Burst(n - 1)
  }

  predicate AllOpen(m: Table) {
    !m.closed && |m.ended| == |m.ids| && |m.sessions| <= |m.ids| && forall k :: 0 <= k < |m.ended| ==> m.ended[k] == 0
  }

  lemma OneOfBurst(m: Table, s: Strategy)
    requires Inv(m, s) && AllOpen(m)
    requires s.maxConcurrency == 0 || |m.ids| < s.maxConcurrency
    requires MaxConnection(s) == 0 || |m.ids| < MaxConnection(s)
    ensures var m' := Step(m, s, Op.Allocate); Inv(m', s) && AllOpen(m') && |m'.ids| == |m.ids| + 1
  {
    RoomLeft(m, s, MaxConnection(s));
    MadeKeeps(m, s);
    MapSizes(m.sessions, Made(m).count, |m.ids|);
  }

  lemma {:induction false} SmallWrap(n: nat)
    requires n < IDS
    ensures Wrap(n) == n
  {
    if n > 0 {
      SmallWrap(n - 1);
    }
  }

  lemma RoomLeft(m: Table, s: Strategy, limit: nat)
    requires m.count == Wrap(|m.ids|) && !m.closed && |m.sessions| <= |m.ids| && limit == MaxConnection(s)
    requires s.maxConcurrency == 0 || |m.ids| < s.maxConcurrency
    requires limit == 0 || |m.ids| < limit
    ensures !Full(m, s)
  {
    if limit > 0 {
      SmallWrap(|m.ids|);
    }
  }

  lemma {:induction false} BurstFrom(m: Table, s: Strategy, n: nat)
    requires Inv(m, s) && AllOpen(m)
    requires s.maxConcurrency == 0 || |m.ids| + n <= s.maxConcurrency
    requires MaxConnection(s) == 0 || |m.ids| + n <= MaxConnection(s)
    ensures var m' := Run(m, s, Burst(n)); AllOpen(m') && |m'.ids| == |m.ids| + n
    decreases n
  {
    if n > 0 {
      OneOfBurst(m, s);
      assert Burst(n)[1..] == Burst(n - 1);
      BurstFrom(Step(m, s, Op.Allocate), s, n - 1);
    }
  }

  /** Within both limits, any number of allocations in a row on a new manager all succeed. */
  lemma BurstSucceeds(s: Strategy, n: nat)
    requires s.maxConcurrency == 0 || n <= s.maxConcurrency
    requires s.maxConnection % 65536 == 0 || n <= s.maxConnection % 65536
    ensures var m := Run(NEW, s, Burst(n));
      && !m.closed && |m.ids| == n
      && (forall k :: 0 <= k < n ==> m.ids[k] == (k + 1) % 65536)
      && |m.ended| == n && (forall k :: 0 <= k < n ==> m.ended[k] == 0)
      && (n <= 65536 ==> |m.sessions| == n)
  {
    var m := Run(NEW, s, Burst(n));
    BurstFrom(NEW, s, n);
    RunKeeps(NEW, s, Burst(n));
    forall k | 0 <= k < n ensures m.ids[k] == (k + 1) % 65536 {
      WrapIsMod(k + 1);
    }
    if n <= 65536 {
      RunLive(NEW, s, Burst(n));
      OpenSize(m, s);
      var open := Open(m);
      assert forall k: nat :: k in open <==> k < n;
      UpTo(open, n);
    }
  }

  lemma {:induction false} UpTo(x: set<nat>, n: nat)
    requires forall k: nat :: k in x <==> k < n
    ensures |x| == n
    decreases n
  {
    if n > 0 {
      UpTo(x - {n - 1}, n - 1);
      assert x == (x - {n - 1}) + {n - 1};
    } else {
      assert x == {};
    }
  }

  /**
   * Ending a session that is open ends that one and no other, and takes its id, and no other, out of
   * the table; the count of sessions made does not change. Ending an ended session does nothing.
   */
  lemma EndExact(s: Strategy, ops: seq<Op>, k: nat)
    requires k < |Run(NEW, s, ops).ids|
    ensures var m := Run(NEW, s, ops); var m' := Step(m, s, Op.End(k));
      && |m.ended| == |m.ids| && m'.ids == m.ids && m'.count == m.count && m'.closed == m.closed
      && m'.ended == m.ended[k := if m.ended[k] == 0 then 1 else m.ended[k]]
      && m'.sessions == if m.ended[k] == 0 then m.sessions - {m.ids[k]} else m.sessions
  {
    RunKeeps(NEW, s, ops);
    EndOne(Run(NEW, s, ops), s, k);
  }

  lemma EndOne(m: Table, s: Strategy, k: nat)
    requires Inv(m, s) && k < |m.ids|
    ensures var m' := Ended(m, k);
      && m'.ids == m.ids && m'.count == m.count && m'.closed == m.closed
      && m'.ended == m.ended[k := if m.ended[k] == 0 then 1 else m.ended[k]]
      && m'.sessions == if m.ended[k] == 0 then m.sessions - {m.ids[k]} else m.sessions
  {
    if m.closed {
      assert m.sessions - {m.ids[k]} == m.sessions;
    }
  }

  /** Closing the manager ends every session in its table, once, and no other; it cannot be reopened. */
  lemma CloseAllExact(s: Strategy, ops: seq<Op>, after: seq<Op>)
    ensures var m := Run(NEW, s, ops); var m' := Step(m, s, Op.CloseAll);
      && m'.closed && m'.sessions == map[] && m'.ids == m.ids && m'.count == m.count
      && |m.ended| == |m.ids| == |m'.ended|
      && (!m.closed ==> forall k :: 0 <= k < |m.ids| ==>
            m'.ended[k] == if m.ended[k] == 0 && Listed(m, k) then 1 else m.ended[k])
      && Run(m', s, after).closed && Run(m', s, after).ids == m.ids
  {
    var m := Run(NEW, s, ops);
    RunKeeps(NEW, s, ops);
    StepKeeps(m, s, Op.CloseAll);
    RunKeeps(Step(m, s, Op.CloseAll), s, after);
    if !m.closed {
      forall k | 0 <= k < |m.ids| ensures k in m.sessions.Values <==> Listed(m, k) {
        if k in m.sessions.Values {
          var i :| i in m.sessions && m.sessions[i] == k;
        }
      }
    }
  }
}
