/** Crashes, entries that never expire, and runs of the XUDP protocol that fail. */
module XudpFaults {
  import opened Bytes
  import opened Xudp
  import opened XudpSteps
  import opened XudpRuns

  // ---------------------------------------------------------------------------------------------
  // Crashes
  // ---------------------------------------------------------------------------------------------

  /** A job stands between Build and Publish on x. */
  ghost predicate HalfBuilt(st: State, x: nat) {
    exists u :: 0 <= u < |st.jobs| && st.jobs[u].Publish? && st.jobs[u].x == x && st.jobs[u].raw
  }

  /** An entry points to a session without parent exactly while a job stands between Build and Publish. */
  lemma NilParentExact(steps: seq<Step>, st: State, x: nat)
    requires Run(START, steps, st) && x < |st.xs| && st.xs[x].mux.Some?
    ensures st.xs[x].mux.value < |st.ss|
    ensures st.ss[st.xs[x].mux.value].parent.None? <==> HalfBuilt(st, x)
  {
    RunBase(START, steps, st);
    assert EntryBase(st, x);
    if HalfBuilt(st, x) {
      var u :| 0 <= u < |st.jobs| && st.jobs[u].Publish? && st.jobs[u].x == x && st.jobs[u].raw;
      assert JobBase(st, u);
    }
  }

  /**
   * The process crashes in exactly three ways: a failed registration undoes itself while another
   * job stands between Build and Publish on its entry; or a handler, or a manager, closes a session
   * that it was given at such a moment. See CrashReached.
   */
  lemma CrashExact(steps: seq<Step>, st: State, step: Step)
    requires Run(START, steps, st) && Refs(st) && Enabled(st, step)
    ensures Apply(st, step).crashed <==>
      || (step.Go? && st.jobs[step.t].Undo? && HalfBuilt(st, st.jobs[step.t].x))
      || (step.Go? && st.jobs[step.t].Handle? && st.ss[st.jobs[step.t].s].parent.None?)
      || (step.Close? && st.ss[step.s].parent.None?)
  {
    RunBase(START, steps, st);
    if step.Go? {
      assert JobBase(st, step.t);
      if st.jobs[step.t].Undo? {
        NilParentExact(steps, st, st.jobs[step.t].x);
      }
      if st.jobs[step.t].Detach? {
        assert st.ss[st.xs[st.jobs[step.t].x].mux.value].entry.Some?;
      }
    }
  }

  /** A handler is given, and a manager lists, a session without parent only at such a moment. */
  lemma NilParentTaken(steps: seq<Step>, st: State, step: Step)
    requires Run(START, steps, st) && Refs(st) && Enabled(st, step)
    requires step.Go? && (st.jobs[step.t].Spawn? || (st.jobs[step.t].Register? && step.ok))
    ensures var k := st.jobs[step.t]; var s := st.xs[k.x].mux.value; var st' := Apply(st, step);
      && (if k.Spawn? then st'.jobs[step.t] == Handle(s) else (k.on, s) in st'.listed)
      && (st.ss[s].parent.None? <==> HalfBuilt(st, k.x))
  {
    NilParentExact(steps, st, st.jobs[step.t].x);
  }

  // ---------------------------------------------------------------------------------------------
  // Entries that never expire
  // ---------------------------------------------------------------------------------------------

  /** An Active entry whose session is closed already. */
  predicate Stale(st: State, x: nat)
    requires x < |st.xs|
  {
    var e := st.xs[x];
    e.status == Active && e.mux.Some? && e.mux.value < |st.ss| && st.ss[e.mux.value].phase.Closed?
  }

  /**
   * That an Active entry has a session that is not closed holds in every run except where the
   * session is closed between being published and being activated. See StaleEntry.
   */
  lemma StaleOnlyByActivation(steps: seq<Step>, st: State, step: Step, x: nat)
    requires Run(START, steps, st) && Refs(st) && Enabled(st, step) && x < |st.xs| && !Stale(st, x)
    ensures |st.xs| <= |Apply(st, step).xs|
    ensures Stale(Apply(st, step), x) <==>
            step.Go? && st.jobs[step.t].Activate? && st.jobs[step.t].x == x &&
            st.ss[st.xs[x].mux.value].phase.Closed?
  {
    RunBase(START, steps, st);
    assert EntryBase(st, x);
    if step.Go? {
      StaleAdvance(st, step.t, step.ok, x);
    }
  }

  lemma StaleAdvance(st: State, t: nat, ok: bool, x: nat)
    requires Base(st) && Enabled(st, Go(t, ok)) && x < |st.xs| && !Stale(st, x)
    ensures |st.xs| == |Advance(st, t, ok).xs|
    ensures Stale(Advance(st, t, ok), x) <==>
            st.jobs[t].Activate? && st.jobs[t].x == x && st.ss[st.xs[x].mux.value].phase.Closed?
  {
    assert JobBase(st, t) && EntryBase(st, x);
    if !st.jobs[t].DetachEnd? && !st.jobs[t].CloseEnd? {
      AdvanceMux(st, t, ok, x);
    }
  }

  lemma StaleStep(st: State, step: Step, x: nat)
    requires Base(st) && Tidy(st) && Enabled(st, step) && x < |st.xs| && Stale(st, x) && InTable(st, x)
    requires step.Attach? ==> step.gid != st.xs[x].gid
    ensures x < |Apply(st, step).xs| && Stale(Apply(st, step), x) && InTable(Apply(st, step), x)
    ensures Apply(st, step).xs[x].gid == st.xs[x].gid
  {
    if step.Go? {
      StaleGo(st, step.t, step.ok, x);
    }
  }

  lemma StaleGo(st: State, t: nat, ok: bool, x: nat)
    requires Base(st) && Tidy(st) && Enabled(st, Go(t, ok)) && x < |st.xs| && Stale(st, x) && InTable(st, x)
    ensures x < |Advance(st, t, ok).xs| && Stale(Advance(st, t, ok), x) && InTable(Advance(st, t, ok), x)
    ensures Advance(st, t, ok).xs[x].gid == st.xs[x].gid
  {
    var k := st.jobs[t];
    assert JobBase(st, t);
    if k.DetachEnd? || k.CloseEnd? {
      AllClosed(st, x, st.xs[x].mux.value);
      StaleFinish(st, t, k.s, if k.DetachEnd? then Probe(k.x, k.on) else Done, x);
    } else {
      AdvanceMux(st, t, ok, x);
    }
  }

  lemma StaleFinish(st: State, t: nat, s: nat, k: Job, x: nat)
    requires Base(st) && t < |st.jobs| && s < |st.ss| && Ends(st.jobs[t], s)
    requires x < |st.xs| && Stale(st, x) && InTable(st, x) && Clear(st, x)
    ensures var st' := Finish(st, t, s, k);
      x < |st'.xs| && Stale(st', x) && InTable(st', x) && st'.xs[x].gid == st.xs[x].gid
  {
    assert JobBase(st, t);
    assert st.ss[s].entry != Some(x);
  }

  /** A stale entry stays so, and stays in the table, until a frame with its Global ID arrives. */
  lemma {:induction false} StaleForever(st: State, steps: seq<Step>, end: State, x: nat)
    requires Base(st) && Tidy(st) && Run(st, steps, end) && Orderly(st, steps)
    requires x < |st.xs| && Stale(st, x) && InTable(st, x) && NoAttach(steps, st.xs[x].gid)
    ensures x < |end.xs| && Stale(end, x) && InTable(end, x)
    decreases |steps|
  {
    if steps != [] {
      StaleStep(st, steps[0], x);
      StepBase(st, steps[0]);
      StepTidy(st, steps[0]);
      assert forall i :: 0 <= i < |steps[1..]| ==> steps[1..][i] == steps[i + 1];
      StaleForever(Apply(st, steps[0]), steps[1..], end, x);
    }
  }

  // ---------------------------------------------------------------------------------------------
  // Failing runs
  // ---------------------------------------------------------------------------------------------

  lemma {:induction false} RunSnoc(st: State, steps: seq<Step>, mid: State, step: Step)
    requires Run(st, steps, mid) && Refs(mid) && Enabled(mid, step)
    ensures Run(st, steps + [step], Apply(mid, step))
    decreases |steps|
  {
    if steps == [] {
      assert (steps + [step])[0] == step && (steps + [step])[1..] == [];
    } else {
      assert (steps + [step])[0] == steps[0] && (steps + [step])[1..] == steps[1..] + [step];
      RunSnoc(Apply(st, steps[0]), steps[1..], mid, step);
    }
  }

  ghost predicate Reached(st: State) {
    exists steps :: Run(START, steps, st)
  }

  lemma Extend(st: State, step: Step, end: State)
    requires Reached(st) && Refs(st) && Enabled(st, step) && end == Apply(st, step)
    ensures Reached(end) && Refs(end)
  {
    var steps :| Run(START, steps, st);
    RunSnoc(START, steps, st, step);
    RunBase(START, steps + [step], end);
  }

  /** States at time 0 with one entry, for Global ID 1. */
  function One(
    status: Status, mux: Option<nat>, owner: nat, ss: seq<Session>, jobs: seq<Job>, listed: set<(Manager, nat)>): State
  {
    State(0, map[1 := 0], [Entry(1, status, 0, mux, owner)], ss, jobs, listed, false)
  }

  function Of(m: Manager, phase: Phase): Session {
    Session(Some(0), Some(m), phase)
  }

  const RAW := Session(None, None, Open)

  lemma BuildingIsReached()
    ensures var st := One(Initializing, None, 0, [], [Build(0, 7)], {}); Reached(st) && Refs(st)
  {
    assert Run(START, [], START);
    var st := One(Initializing, None, 0, [], [Dispatch(0, 7)], {});
    Extend(START, Attach(1, 7), st);
    Extend(st, Go(0, true), One(Initializing, None, 0, [], [Build(0, 7)], {}));
  }

  lemma PublishingIsReached()
    ensures var st := One(Initializing, Some(0), 0, [RAW], [Publish(0, 7, true)], {}); Reached(st) && Refs(st)
  {
    BuildingIsReached();
    Extend(One(Initializing, None, 0, [], [Build(0, 7)], {}), Go(0, true),
           One(Initializing, Some(0), 0, [RAW], [Publish(0, 7, true)], {}));
  }

  /** A worker has published its session and is about to register it. */
  const ATTACHED := One(Active, Some(1), 0, [RAW, Of(7, Open)], [Register(0, 7, 1)], {})

  lemma AttachedIsReached()
    ensures Reached(ATTACHED) && Refs(ATTACHED)
  {
    PublishingIsReached();
    var st := One(Initializing, Some(1), 0, [RAW, Of(7, Open)], [Activate(0, 7, 1)], {});
    Extend(One(Initializing, Some(0), 0, [RAW], [Publish(0, 7, true)], {}), Go(0, true), st);
    Extend(st, Go(0, true), ATTACHED);
  }

  /** Another connection has taken the entry over and closed that session. */
  const DETACHED := One(Initializing, Some(1), 1, [RAW, Of(7, Closed(0))], [Register(0, 7, 1), Probe(0, 8)], {})

  lemma DetachingIsReached()
    ensures var st := One(Initializing, Some(1), 1, [RAW, Of(7, Closing(1, 7))],
        [Register(0, 7, 1), DetachEnd(0, 8, 1)], {});
      Reached(st) && Refs(st)
  {
    AttachedIsReached();
    var st := One(Initializing, Some(1), 1, [RAW, Of(7, Open)], [Register(0, 7, 1), Detach(0, 8)], {});
    Extend(ATTACHED, Attach(1, 8), st);
    Extend(st, Go(1, true),
           One(Initializing, Some(1), 1, [RAW, Of(7, Closing(1, 7))], [Register(0, 7, 1), DetachEnd(0, 8, 1)], {}));
  }

  lemma DetachedIsReached()
    ensures Reached(DETACHED) && Refs(DETACHED)
  {
    DetachingIsReached();
    Extend(One(Initializing, Some(1), 1, [RAW, Of(7, Closing(1, 7))], [Register(0, 7, 1), DetachEnd(0, 8, 1)], {}),
           Go(1, true), DETACHED);
  }

  /** It has published its own. */
  const TAKEN_OVER :=
    One(Initializing, Some(2), 1, [RAW, Of(7, Closed(0)), Of(8, Open)], [Register(0, 7, 1), Activate(0, 8, 2)], {})

  /** A run in which a worker is about to register a session that another worker published. */
  lemma RegistersAnother()
    ensures Reached(TAKEN_OVER) && Refs(TAKEN_OVER)
    ensures TAKEN_OVER.jobs[0] == Register(0, 7, 1) && TAKEN_OVER.xs[0].mux == Some(2)
    ensures Misfiles(TAKEN_OVER, Go(0, true))
  {
    DetachedIsReached();
    var st := DETACHED.(jobs := [Register(0, 7, 1), Publish(0, 8, false)]);
    Extend(DETACHED, Go(1, true), st);
    Extend(st, Go(1, true), TAKEN_OVER);
  }

  lemma UndoingIsReached()
    ensures var st := One(Initializing, Some(2), 1, [RAW, Of(7, Closed(0)), Of(8, Closing(0, 8))],
                          [CloseEnd(2), Activate(0, 8, 2)], {});
      Reached(st) && Refs(st)
  {
    RegistersAnother();
    var st := TAKEN_OVER.(jobs := [Undo(0, 7, 1), Activate(0, 8, 2)]);
    Extend(TAKEN_OVER, Go(0, false), st);
    Extend(st, Go(0, true), One(Initializing, Some(2), 1, [RAW, Of(7, Closed(0)), Of(8, Closing(0, 8))],
                                [CloseEnd(2), Activate(0, 8, 2)], {}));
  }

  /** A run in which a failed registration closes another worker's session before its entry is Active. */
  lemma StaleEntry() returns (st: State)
    ensures Reached(st)
    ensures |st.xs| > 0 && Stale(st, 0) && InTable(st, 0)
  {
    UndoingIsReached();
    var ss := [RAW, Of(7, Closed(0)), Of(8, Closed(0))];
    var mid := One(Initializing, Some(2), 1, ss, [Done, Activate(0, 8, 2)], {});
    Extend(One(Initializing, Some(2), 1, [RAW, Of(7, Closed(0)), Of(8, Closing(0, 8))],
               [CloseEnd(2), Activate(0, 8, 2)], {}), Go(0, true), mid);
    st := One(Active, Some(2), 1, ss, [Done, Register(0, 8, 2)], {});
    Extend(mid, Go(1, true), st);
  }

  /** The old output did not take the packet, and the other worker has built a session anew. */
  const REBUILT :=
    One(Initializing, Some(2), 1, [RAW, Of(7, Closed(0)), RAW], [Register(0, 7, 1), Publish(0, 8, true)], {})

  lemma RefusedIsReached()
    ensures var st := DETACHED.(jobs := [Register(0, 7, 1), Dispatch(0, 8)]); Reached(st) && Refs(st)
  {
    DetachedIsReached();
    Extend(DETACHED, Go(1, false), DETACHED.(jobs := [Register(0, 7, 1), Dispatch(0, 8)]));
  }

  lemma RebuiltIsReached()
    ensures Reached(REBUILT) && Refs(REBUILT)
  {
    RefusedIsReached();
    var st := DETACHED.(jobs := [Register(0, 7, 1), Build(0, 8)]);
    Extend(DETACHED.(jobs := [Register(0, 7, 1), Dispatch(0, 8)]), Go(1, true), st);
    Extend(st, Go(1, true), REBUILT);
  }

  /** A run in which a failed registration closes a session without parent, and the process crashes. */
  lemma CrashReached() returns (st: State)
    ensures Reached(st) && st.crashed
  {
    RebuiltIsReached();
    var mid := REBUILT.(jobs := [Undo(0, 7, 1), Publish(0, 8, true)]);
    Extend(REBUILT, Go(0, false), mid);
    st := mid.(crashed := true);
    Extend(mid, Go(0, true), st);
  }

  /** The first worker has registered the second one's session, which is Active. */
  const MISFILED :=
    One(Active, Some(2), 1, [RAW, Of(7, Closed(0)), Of(8, Open)], [Spawn(0, 7, 1), Register(0, 8, 2)], {(7, 2)})

  lemma MisfiledIsReached()
    ensures Reached(MISFILED) && Refs(MISFILED)
  {
    RegistersAnother();
    var st := One(Initializing, Some(2), 1, [RAW, Of(7, Closed(0)), Of(8, Open)],
        [Spawn(0, 7, 1), Activate(0, 8, 2)], {(7, 2)});
    Extend(TAKEN_OVER, Go(0, true), st);
    Extend(st, Go(1, true), MISFILED);
  }

  /** The manager of the first is closing it, under its own lock, when a third worker takes over. */
  const PASSED_BY :=
    One(Initializing, Some(2), 3, [RAW, Of(7, Closed(0)), Of(8, Closing(2, 7))],
        [Spawn(0, 7, 1), Register(0, 8, 2), CloseEnd(2), Probe(0, 9)], {(7, 2)})

  const HALF_CLOSED :=
    One(Active, Some(2), 1, [RAW, Of(7, Closed(0)), Of(8, Closing(2, 7))],
        [Spawn(0, 7, 1), Register(0, 8, 2), CloseEnd(2)], {(7, 2)})

  lemma HalfClosedIsReached()
    ensures Reached(HALF_CLOSED) && Refs(HALF_CLOSED)
  {
    MisfiledIsReached();
    Extend(MISFILED, Close(7, 2), HALF_CLOSED);
  }

  lemma PassedByIsReached()
    ensures Reached(PASSED_BY) && Refs(PASSED_BY)
  {
    HalfClosedIsReached();
    var st := PASSED_BY.(jobs := [Spawn(0, 7, 1), Register(0, 8, 2), CloseEnd(2), Detach(0, 9)]);
    Extend(HALF_CLOSED, Attach(1, 9), st);
    Extend(st, Go(3, true), PASSED_BY);
  }

  const REATTACHED :=
    One(Active, Some(3), 3, [RAW, Of(7, Closed(0)), Of(8, Closing(2, 7)), Of(9, Open)],
        [Spawn(0, 7, 1), Register(0, 8, 2), CloseEnd(2), Register(0, 9, 3)], {(7, 2)})

  lemma RepublishedIsReached()
    ensures var st := REATTACHED.(xs := [Entry(1, Initializing, 0, Some(3), 3)],
                                  jobs := [Spawn(0, 7, 1), Register(0, 8, 2), CloseEnd(2), Activate(0, 9, 3)]);
      Reached(st) && Refs(st)
  {
    PassedByIsReached();
    var st := PASSED_BY.(jobs := [Spawn(0, 7, 1), Register(0, 8, 2), CloseEnd(2), Publish(0, 9, false)]);
    Extend(PASSED_BY, Go(3, true), st);
    Extend(st, Go(3, true),
           REATTACHED.(xs := [Entry(1, Initializing, 0, Some(3), 3)],
                       jobs := [Spawn(0, 7, 1), Register(0, 8, 2), CloseEnd(2), Activate(0, 9, 3)]));
  }

  lemma ReattachedIsReached()
    ensures Reached(REATTACHED) && Refs(REATTACHED)
  {
    RepublishedIsReached();
    Extend(REATTACHED.(xs := [Entry(1, Initializing, 0, Some(3), 3)],
                       jobs := [Spawn(0, 7, 1), Register(0, 8, 2), CloseEnd(2), Activate(0, 9, 3)]),
           Go(3, true), REATTACHED);
  }

  /** Its close comes late, and makes the entry expire although its session is open. */
  const HARMED :=
    State(0, map[1 := 0], [Entry(1, Expiring, 60, Some(3), 3)],
          [RAW, Of(7, Closed(0)), Of(8, Closed(0)), Of(9, Open)],
          [Spawn(0, 7, 1), Register(0, 8, 2), Done, Register(0, 9, 3)], {(7, 2)}, false)

  /** A run in which a late close of an earlier session makes a re-attached entry expire. */
  lemma LateCloseHarms()
    ensures Reached(HARMED) && Refs(HARMED)
    ensures HARMED.xs[0].status == Expiring && HARMED.xs[0].mux == Some(3) && HARMED.ss[3].phase == Open
  {
    ReattachedIsReached();
    Extend(REATTACHED, Go(2, true), HARMED);
  }

  lemma ReapedIsReached()
    ensures var st := HARMED.(now := 61, table := map[]); Reached(st) && Refs(st)
  {
    LateCloseHarms();
    Extend(HARMED, Tick(61), HARMED.(now := 61));
    assert HARMED.table - {1} == map[];
    Extend(HARMED.(now := 61), Reap(1), HARMED.(now := 61, table := map[]));
  }

  /** The entry is reaped with its session open, and the next frame makes another one. */
  const DOUBLED :=
    State(61, map[1 := 1], [Entry(1, Expiring, 60, Some(3), 3), Entry(1, Initializing, 0, Some(4), 4)],
          [RAW, Of(7, Closed(0)), Of(8, Closed(0)), Of(9, Open), RAW],
          [Spawn(0, 7, 1), Register(0, 8, 2), Done, Register(0, 9, 3), Publish(1, 5, true)], {(7, 2)}, false)

  const REENTERED :=
    State(61, map[1 := 1], [Entry(1, Expiring, 60, Some(3), 3), Entry(1, Initializing, 0, None, 4)],
          [RAW, Of(7, Closed(0)), Of(8, Closed(0)), Of(9, Open)],
          [Spawn(0, 7, 1), Register(0, 8, 2), Done, Register(0, 9, 3), Dispatch(1, 5)], {(7, 2)}, false)

  lemma ReenteredIsReached()
    ensures Reached(REENTERED) && Refs(REENTERED)
  {
    ReapedIsReached();
    Extend(HARMED.(now := 61, table := map[]), Attach(1, 5), REENTERED);
  }

  lemma DoubledIsReached()
    ensures Reached(DOUBLED) && Refs(DOUBLED)
  {
    ReenteredIsReached();
    var st := REENTERED.(jobs := [Spawn(0, 7, 1), Register(0, 8, 2), Done, Register(0, 9, 3), Build(1, 5)]);
    Extend(REENTERED, Go(4, true), st);
    Extend(st, Go(4, true), DOUBLED);
  }

  /** A run that ends with two open sessions for one Global ID. */
  lemma TwoSessions() returns (st: State)
    ensures Reached(st) && |st.ss| > 5
    ensures GidOf(st, 3) == Some(1) && GidOf(st, 5) == Some(1) && st.ss[3].phase == Open && st.ss[5].phase == Open
  {
    DoubledIsReached();
    st := State(61, map[1 := 1], [Entry(1, Expiring, 60, Some(3), 3), Entry(1, Initializing, 0, Some(5), 4)],
                DOUBLED.ss + [Session(Some(1), Some(5), Open)],
                [Spawn(0, 7, 1), Register(0, 8, 2), Done, Register(0, 9, 3), Activate(1, 5, 5)], {(7, 2)}, false);
    Extend(DOUBLED, Go(4, true), st);
  }
}
