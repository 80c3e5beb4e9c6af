/**
 * The XUDP attach and expiry protocol (common/mux/server.go, common/mux/session.go) as a state
 * machine over its atomic steps. A UDP flow with a Global ID survives the Mux connection that
 * carried it: the next New frame with that ID takes the flow's entry over, closes the session it
 * was attached to and attaches it to a session of its own. Frames arrive on many connections at
 * once; every interleaving of their steps, of session closes and of the reaper is a run.
 */
module Xudp {
  import opened Bytes

  type Gid = nat
  type Manager = nat

  /** How long an entry without an open session is kept, in seconds. */
  const MINUTE: nat := 60

  datatype Status = Initializing | Active | Expiring

  /** Closing: the job `closer` holds the lock `lock`; Closed(at): it was done at time `at`. */
  datatype Phase = Open | Closing(closer: nat, lock: Manager) | Closed(at: nat)

  /** A session; while an entry is being set up its session has neither parent nor entry yet. */
  datatype Session = Session(entry: Option<nat>, parent: Option<Manager>, phase: Phase)

  /** An entry. The job that is setting it up is bookkeeping of the model. */
  datatype Entry = Entry(gid: Gid, status: Status, expire: nat, mux: Option<nat>, owner: nat)

  /**
   * Where the handling of a frame, a handler, or a close by a manager stands. `on` is the manager of
   * the frame, `own` the session that the job itself published, `raw` that it has built one without
   * parent just before.
   */
  datatype Job =
    | Detach(x: nat, on: Manager)
    | DetachEnd(x: nat, on: Manager, s: nat)
    | Probe(x: nat, on: Manager)
    | Dispatch(x: nat, on: Manager)
    | Build(x: nat, on: Manager)
    | Publish(x: nat, on: Manager, raw: bool)
    | Activate(x: nat, on: Manager, own: nat)
    | Register(x: nat, on: Manager, own: nat)
    | Spawn(x: nat, on: Manager, own: nat)
    | Undo(x: nat, on: Manager, own: nat)
    | Handle(s: nat)
    | CloseEnd(s: nat)
    | Done

  /** listed: which manager has which session in its table. crashed: a nil parent was dereferenced. */
  datatype State = State(
    now: nat, table: map<Gid, nat>, xs: seq<Entry>, ss: seq<Session>, jobs: seq<Job>,
    listed: set<(Manager, nat)>, crashed: bool)

  const START := State(0, map[], [], [], [], {}, false)

  /** The job sets up an entry, which nobody else does until it is Active. */
  predicate SetsUp(k: Job) {
    k.Detach? || k.DetachEnd? || k.Probe? || k.Dispatch? || k.Build? || k.Publish? || k.Activate?
  }

  /** The job has published its session and goes on with whatever its entry points to. */
  predicate Published(k: Job) {
    k.Register? || k.Spawn? || k.Undo?
  }

  predicate Owns(k: Job, x: nat) {
    SetsUp(k) && k.x == x
  }

  /** The job is between the two halves of closing s. */
  predicate Ends(k: Job, s: nat) {
    (k.DetachEnd? || k.CloseEnd?) && k.s == s
  }

  /** Somebody who is closing a session holds the lock of m. */
  predicate Locked(st: State, m: Manager) {
    exists s :: 0 <= s < |st.ss| && st.ss[s].phase.Closing? && st.ss[s].phase.lock == m
  }

  // ---------------------------------------------------------------------------------------------
  // Steps
  // ---------------------------------------------------------------------------------------------

  datatype Step =
    | Attach(gid: Gid, on: Manager)    // a New frame with a Global ID looks its entry up
    | Go(t: nat, ok: bool)             // a job takes its next step; ok is what its I/O returned
    | Close(m: Manager, s: nat)        // a manager that is closed begins to close a session it lists
    | Reap(gid: Gid)                   // the reaper visits an entry
    | Tick(d: nat)                     // time passes

  /** Every reference leads somewhere. */
  ghost predicate Refs(st: State) {
    && (forall g :: g in st.table ==> st.table[g] < |st.xs| && st.xs[st.table[g]].gid == g)
    && (forall x :: 0 <= x < |st.xs| && st.xs[x].mux.Some? ==> st.xs[x].mux.value < |st.ss|)
    && (forall s :: 0 <= s < |st.ss| ==> (st.ss[s].entry.Some? <==> st.ss[s].parent.Some?))
    && (forall s :: 0 <= s < |st.ss| && st.ss[s].entry.Some? ==> st.ss[s].entry.value < |st.xs|)
    && (forall t :: 0 <= t < |st.jobs| ==> JobRefs(st, st.jobs[t]))
    && (forall m, s :: (m, s) in st.listed ==> s < |st.ss|)
  }

  predicate JobRefs(st: State, k: Job) {
    && (SetsUp(k) || Published(k) ==> k.x < |st.xs|)
    && (k.DetachEnd? || k.CloseEnd? ==> k.s < |st.ss| && st.ss[k.s].entry.Some?)
    && (k.Handle? ==> k.s < |st.ss|)
    && ((SetsUp(k) && !k.Dispatch? && !k.Build?) || Published(k) ==> st.xs[k.x].mux.Some?)
  }

  /** The session that the job closes next under the lock of that session's parent. */
  function Target(st: State, k: Job): Option<nat>
    requires k.Detach? || k.Undo? ==> k.x < |st.xs|
  {
    if k.Detach? || k.Undo? then st.xs[k.x].mux else if k.Handle? then Some(k.s) else None
  }

  /** The step can be taken: the lock it needs is free. */
  ghost predicate Enabled(st: State, step: Step)
    requires Refs(st)
  {
    && !st.crashed
    && match step
       case Attach(_, _) => true
       case Tick(_) => true
       case Reap(gid) => gid in st.table
       case Close(m, s) => (m, s) in st.listed && !Locked(st, m)
       case Go(t, _) =>
         && t < |st.jobs| && !st.jobs[t].Done?
         && var s := Target(st, st.jobs[t]);
            (s.Some? && st.ss[s.value].parent.Some? ==> !Locked(st, st.ss[s.value].parent.value))
  }

  function Apply(st: State, step: Step): State
    requires Refs(st) && Enabled(st, step)
  {
    match step
    case Attach(gid, on) => Lookup(st, gid, on)
    case Tick(d) => st.(now := st.now + d)
    case Reap(gid) => if Due(st, gid) then st.(table := st.table - {gid}) else st
    case Close(m, s) =>
      if st.ss[s].parent.None? then st.(crashed := true)
      else if st.ss[s].phase != Open then st
      else ManagerBegins(st, m, s)
    case Go(t, ok) => Advance(st, t, ok)
  }

  predicate Due(st: State, gid: Gid)
    requires gid in st.table && st.table[gid] < |st.xs|
  {
    var e := st.xs[st.table[gid]];
    e.status == Expiring && st.now > e.expire
  }

  /** The look-up under the lock of XUDPManager. */
  function Lookup(st: State, gid: Gid, on: Manager): State
    requires gid in st.table ==> st.table[gid] < |st.xs|
  {
    if gid !in st.table then
      var x := |st.xs|;
      st.(table := st.table[gid := x],
          xs := st.xs + [Entry(gid, Initializing, 0, None, |st.jobs|)],
          jobs := st.jobs + [Dispatch(x, on)])
    else
      var x := st.table[gid];
      if st.xs[x].status == Initializing then st
      else
        st.(xs := st.xs[x := st.xs[x].(status := Initializing, owner := |st.jobs|)],
            jobs := st.jobs + [Detach(x, on)])
  }

  function Advance(st: State, t: nat, ok: bool): State
    requires Refs(st) && t < |st.jobs| && !st.jobs[t].Done?
  {
    var k := st.jobs[t];
    match k
    case Detach(x, on) => CloseBy(st, t, st.xs[x].mux.value, DetachEnd(x, on, st.xs[x].mux.value), Probe(x, on))
    case DetachEnd(x, on, s) => Finish(st, t, s, Probe(x, on))
    case Probe(x, on) => Then(st, t, if ok then Publish(x, on, false) else Dispatch(x, on))
    case Dispatch(x, on) =>
      if ok then Then(st, t, Build(x, on)) else Then(st, t, Done).(table := st.table - {st.xs[x].gid})
    case Build(x, on) => Install(st, t, x, Session(None, None, Open), Publish(x, on, true))
    case Publish(x, on, _) => Install(st, t, x, Session(Some(x), Some(on), Open), Activate(x, on, |st.ss|))
    case Activate(x, on, own) => Activated(st, t, x, Register(x, on, own))
    case Register(x, on, own) =>
      if ok then Then(st, t, Spawn(x, on, own)).(listed := st.listed + {(on, st.xs[x].mux.value)})
      else Then(st, t, Undo(x, on, own))
    case Spawn(x, _, _) => Then(st, t, Handle(st.xs[x].mux.value))
    case Undo(x, _, _) => CloseBy(st, t, st.xs[x].mux.value, CloseEnd(st.xs[x].mux.value), Done)
    case Handle(s) => CloseBy(st, t, s, CloseEnd(s), Done)
    case CloseEnd(s) => Finish(st, t, s, Done)
  }

  function Then(st: State, t: nat, k: Job): State
    requires t < |st.jobs|
  {
    st.(jobs := st.jobs[t := k])
  }

  function Activated(st: State, t: nat, x: nat, k: Job): State
    requires t < |st.jobs| && x < |st.xs|
  {
    Then(st, t, k).(xs := st.xs[x := st.xs[x].(status := Active)])
  }

  /**
   * The first half of Session.Close(false): without a parent the process crashes, a session that is
   * closed is left alone, any other is marked under the lock of its parent.
   */
  function CloseBy(st: State, t: nat, s: nat, closing: Job, closed: Job): State
    requires t < |st.jobs| && s < |st.ss|
  {
    if st.ss[s].parent.None? then st.(crashed := true)
    else if st.ss[s].phase != Open then Then(st, t, closed)
    else Begin(st, t, s, closing)
  }

  function Begin(st: State, t: nat, s: nat, k: Job): State
    requires t < |st.jobs| && s < |st.ss| && st.ss[s].parent.Some?
  {
    st.(ss := st.ss[s := st.ss[s].(phase := Closing(t, st.ss[s].parent.value))], jobs := st.jobs[t := k])
  }

  /** Session.Close(true), called by the manager m under its own lock. */
  function ManagerBegins(st: State, m: Manager, s: nat): State
    requires s < |st.ss|
  {
    st.(ss := st.ss[s := st.ss[s].(phase := Closing(|st.jobs|, m))], jobs := st.jobs + [CloseEnd(s)])
  }

  /** The second half: an Active entry starts to expire, and the lock is released. */
  function Finish(st: State, t: nat, s: nat, k: Job): State
    requires t < |st.jobs| && s < |st.ss|
    requires st.ss[s].entry.Some? ==> st.ss[s].entry.value < |st.xs|
  {
    if st.ss[s].entry.Some? && st.xs[st.ss[s].entry.value].status == Active then
      Expire(Settle(st, t, s, k), st.ss[s].entry.value)
    else
      Settle(st, t, s, k)
  }

  function Settle(st: State, t: nat, s: nat, k: Job): State
    requires t < |st.jobs| && s < |st.ss|
  {
    st.(ss := st.ss[s := st.ss[s].(phase := Closed(st.now))], jobs := st.jobs[t := k])
  }

  function Expire(st: State, x: nat): State
    requires x < |st.xs|
  {
    st.(xs := st.xs[x := st.xs[x].(status := Expiring, expire := st.now + MINUTE)])
  }

  /** The entry x is given a new session. */
  function Install(st: State, t: nat, x: nat, s: Session, k: Job): State
    requires t < |st.jobs| && x < |st.xs|
  {
    st.(ss := st.ss + [s], jobs := st.jobs[t := k], xs := st.xs[x := st.xs[x].(mux := Some(|st.ss|))])
  }

  // ---------------------------------------------------------------------------------------------
  // What holds in every run
  // ---------------------------------------------------------------------------------------------

  ghost predicate Base(st: State) {
    && Refs(st)
    && (forall x :: 0 <= x < |st.xs| ==> EntryBase(st, x))
    && (forall s :: 0 <= s < |st.ss| ==> SessionBase(st, s))
    && (forall t :: 0 <= t < |st.jobs| ==> JobBase(st, t))
  }

  predicate InTable(st: State, x: nat)
    requires x < |st.xs|
  {
    st.xs[x].gid in st.table && st.table[st.xs[x].gid] == x
  }

  /**
   * An entry in the table is Initializing exactly while the job noted as its owner sets it up;
   * otherwise it has a session of its own. It has one without parent only between Build and Publish.
   */
  predicate EntryBase(st: State, x: nat)
    requires x < |st.xs|
  {
    var e := st.xs[x];
    && (e.status == Initializing && InTable(st, x) ==> e.owner < |st.jobs| && Owns(st.jobs[e.owner], x))
    && (e.status != Initializing ==> e.mux.Some? && e.mux.value < |st.ss| && st.ss[e.mux.value].entry == Some(x))
    && (e.mux.Some? && e.mux.value < |st.ss| && st.ss[e.mux.value].entry.None? ==>
          e.owner < |st.jobs| && st.jobs[e.owner].Publish? && st.jobs[e.owner].x == x && st.jobs[e.owner].raw)
  }

  /** A session is marked as closed before its entry is given another one. */
  predicate SessionBase(st: State, s: nat)
    requires s < |st.ss|
  {
    var p := st.ss[s].phase;
    && (p.Closing? ==> p.closer < |st.jobs| && Ends(st.jobs[p.closer], s))
    && (st.ss[s].entry.None? ==> p == Open)
    && (st.ss[s].entry.Some? && p == Open ==>
          st.ss[s].entry.value < |st.xs| && st.xs[st.ss[s].entry.value].mux == Some(s))
  }

  predicate JobBase(st: State, t: nat)
    requires t < |st.jobs| && JobRefs(st, st.jobs[t])
    requires forall x :: 0 <= x < |st.xs| && st.xs[x].mux.Some? ==> st.xs[x].mux.value < |st.ss|
  {
    var k := st.jobs[t];
    && (SetsUp(k) ==> st.xs[k.x].status == Initializing && st.xs[k.x].owner == t && InTable(st, k.x))
    && (k.DetachEnd? || k.CloseEnd? ==> st.ss[k.s].phase.Closing? && st.ss[k.s].phase.closer == t)
    && (k.Detach? || k.Probe? ==> st.ss[st.xs[k.x].mux.value].entry == Some(k.x))
    && (k.DetachEnd? ==> st.xs[k.x].mux == Some(k.s) && st.ss[k.s].entry == Some(k.x))
    && (k.Probe? || k.Dispatch? || k.Build? || k.Publish? ==> Shut(st, k.x))
    && (k.Publish? ==> (k.raw <==> st.ss[st.xs[k.x].mux.value].entry.None?))
    && (k.Activate? ==> st.xs[k.x].mux == Some(k.own))
    && (k.Activate? || Published(k) ==>
          k.own < |st.ss| && st.ss[k.own].entry == Some(k.x) && st.ss[k.own].parent == Some(k.on))
  }

  /** The entry x points to no session that is open, of its own. */
  predicate Shut(st: State, x: nat)
    requires x < |st.xs|
  {
    var m := st.xs[x].mux;
    m.Some? && m.value < |st.ss| && st.ss[m.value].entry.Some? ==> st.ss[m.value].phase != Open
  }

  // ---------------------------------------------------------------------------------------------
  // What holds as long as managers close sessions of their own only
  // ---------------------------------------------------------------------------------------------

  ghost predicate Tidy(st: State)
    requires Refs(st)
  {
    && (forall x :: 0 <= x < |st.xs| ==> EntryTidy(st, x))
    && (forall s :: 0 <= s < |st.ss| ==> SessionTidy(st, s))
    && (forall t :: 0 <= t < |st.jobs| ==> JobTidy(st, t))
  }

  /** The session of an Expiring entry was closed one MINUTE before the deadline. */
  predicate EntryTidy(st: State, x: nat)
    requires x < |st.xs|
  {
    var e := st.xs[x];
    e.status == Expiring && e.mux.Some? && e.mux.value < |st.ss| ==>
      var p := st.ss[e.mux.value].phase; p.Closed? && e.expire == p.at + MINUTE && p.at <= st.now
  }

  /** A session that is not closed is the one its entry points to, and the entry is in the table. */
  predicate SessionTidy(st: State, s: nat)
    requires s < |st.ss|
  {
    var v := st.ss[s];
    && (v.entry.Some? && !v.phase.Closed? ==>
          v.entry.value < |st.xs| && st.xs[v.entry.value].mux == Some(s) && InTable(st, v.entry.value))
    && (v.phase.Closing? ==> v.parent == Some(v.phase.lock))
  }

  predicate JobTidy(st: State, t: nat)
    requires t < |st.jobs|
  {
    var k := st.jobs[t];
    k.Probe? || k.Dispatch? || k.Build? || k.Publish? ==> Clear(st, k.x)
  }

  /** No session of x is left open. */
  predicate Clear(st: State, x: nat) {
    forall s :: 0 <= s < |st.ss| && st.ss[s].entry == Some(x) ==> st.ss[s].phase.Closed?
  }

  /** A manager that is not its parent begins to close a session. */
  predicate Foreign(st: State, step: Step) {
    step.Close? && step.s < |st.ss| && st.ss[step.s].parent != Some(step.m)
  }
}
