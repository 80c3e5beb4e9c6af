/** Whole runs of the XUDP protocol. */
module XudpRuns {
  import opened Bytes
  import opened Xudp
  import opened XudpSteps

  /** The steps, each of them possible when it is taken, lead from st to end. */
  ghost predicate Run(st: State, steps: seq<Step>, end: State)
    decreases |steps|
  {
    if steps == [] then st == end
    else Refs(st) && Enabled(st, steps[0]) && Run(Apply(st, steps[0]), steps[1..], end)
  }

  lemma {:induction false} RunBase(st: State, steps: seq<Step>, end: State)
    requires Base(st) && Run(st, steps, end)
    ensures Base(end)
    decreases |steps|
  {
    if steps != [] {
      StepBase(st, steps[0]);
      RunBase(Apply(st, steps[0]), steps[1..], end);
    }
  }

  /** No manager closes a session of which it is not the parent. */
  ghost predicate Orderly(st: State, steps: seq<Step>)
    decreases |steps|
  {
    steps == [] ||
    (!Foreign(st, steps[0]) && Refs(st) && Enabled(st, steps[0]) && Orderly(Apply(st, steps[0]), steps[1..]))
  }

  lemma {:induction false} RunTidy(st: State, steps: seq<Step>, end: State)
    requires Base(st) && Tidy(st) && Run(st, steps, end) && Orderly(st, steps)
    ensures Base(end) && Tidy(end)
    decreases |steps|
  {
    if steps != [] {
      StepBase(st, steps[0]);
      StepTidy(st, steps[0]);
      RunTidy(Apply(st, steps[0]), steps[1..], end);
    }
  }

  /**
   * In every state that any run reaches, an entry of the table is Initializing exactly while one
   * job, and no other, is setting it up, and any other entry has a session of its own.
   */
  lemma EntriesSound(steps: seq<Step>, st: State, gid: Gid)
    requires Run(START, steps, st) && gid in st.table
    ensures Refs(st)
    ensures var x := st.table[gid]; var e := st.xs[x];
      && (e.status == Initializing <==> exists t :: 0 <= t < |st.jobs| && Owns(st.jobs[t], x))
      && (forall t, u :: 0 <= t < u < |st.jobs| ==> !Owns(st.jobs[t], x) || !Owns(st.jobs[u], x))
      && (e.status != Initializing ==> e.mux.Some? && st.ss[e.mux.value].entry == Some(x))
  {
    RunBase(START, steps, st);
    var x := st.table[gid];
    assert EntryBase(st, x);
    forall t | 0 <= t < |st.jobs| && Owns(st.jobs[t], x)
      ensures st.xs[x].status == Initializing && st.xs[x].owner == t
    {
      assert JobBase(st, t);
    }
  }

  /**
   * In every run an entry leaves the table in two ways only: the reaper takes it while it is
   * Expiring and past its deadline, or the one job setting it up could not dispatch.
   */
  lemma RemovedOnlyWhenDone(steps: seq<Step>, st: State, step: Step, gid: Gid)
    requires Run(START, steps, st) && Refs(st) && Enabled(st, step)
    requires gid in st.table && gid !in Apply(st, step).table
    ensures var e := st.xs[st.table[gid]];
      || (step == Reap(gid) && e.status == Expiring && st.now > e.expire)
      || (step.Go? && !step.ok && st.jobs[step.t].Dispatch? && Owns(st.jobs[step.t], st.table[gid]))
  {
    RunBase(START, steps, st);
    if step.Go? {
      assert JobBase(st, step.t);
    }
  }

  /** The Global ID a session belongs to, if it has been given one. */
  function GidOf(st: State, s: nat): Option<Gid>
    requires s < |st.ss|
  {
    if st.ss[s].entry.Some? && st.ss[s].entry.value < |st.xs| then Some(st.xs[st.ss[s].entry.value].gid) else None
  }

  /** In every run at most one session per Global ID is open, among those of entries in the table. */
  lemma OneOpenInTable(steps: seq<Step>, st: State, r: nat, s: nat)
    requires Run(START, steps, st)
    requires r < |st.ss| && s < |st.ss| && GidOf(st, r).Some? && GidOf(st, r) == GidOf(st, s)
    requires st.ss[r].phase == Open && st.ss[s].phase == Open
    requires InTable(st, st.ss[r].entry.value) && InTable(st, st.ss[s].entry.value)
    ensures r == s
  {
    RunBase(START, steps, st);
    assert SessionBase(st, r) && SessionBase(st, s);
  }

  /**
   * In every state that an orderly run reaches, at most one session per Global ID is not closed,
   * counting the sessions of entries long removed from the table. See TwoSessions.
   */
  lemma OneSessionPerGid(steps: seq<Step>, st: State, r: nat, s: nat)
    requires Run(START, steps, st) && Orderly(START, steps)
    requires r < |st.ss| && s < |st.ss| && GidOf(st, r).Some? && GidOf(st, r) == GidOf(st, s)
    requires !st.ss[r].phase.Closed? && !st.ss[s].phase.Closed?
    ensures r == s
  {
    RunTidy(START, steps, st);
    assert SessionTidy(st, r) && SessionTidy(st, s);
  }

  /**
   * In an orderly run what the reaper takes has been without an open session for more than a
   * MINUTE, and what a failed dispatch removes has no open session.
   */
  lemma RemovedWithoutSession(steps: seq<Step>, st: State, step: Step, gid: Gid)
    requires Run(START, steps, st) && Orderly(START, steps) && Refs(st) && Enabled(st, step)
    requires gid in st.table && gid !in Apply(st, step).table
    ensures var e := st.xs[st.table[gid]];
      && (step == Reap(gid) ==>
            e.mux.Some? && st.ss[e.mux.value].phase.Closed? && st.now > st.ss[e.mux.value].phase.at + MINUTE)
      && Clear(st, st.table[gid])
  {
    var x := st.table[gid];
    RunTidy(START, steps, st);
    RemovedOnlyWhenDone(steps, st, step, gid);
    assert EntryBase(st, x) && EntryTidy(st, x);
    if step.Go? {
      assert JobTidy(st, step.t);
    } else {
      AllClosed(st, x, st.xs[x].mux.value);
    }
  }

  /**
   * In an orderly run an entry turns Expiring only when the close of the session it is attached to
   * now is completed: a late close of an earlier session never does that. See LateCloseHarms.
   */
  lemma LateCloseIsHarmless(steps: seq<Step>, st: State, step: Step, x: nat)
    requires Run(START, steps, st) && Orderly(START, steps) && Refs(st) && Enabled(st, step) && x < |st.xs|
    requires |Apply(st, step).xs| >= |st.xs| && Apply(st, step).xs[x].status == Expiring && st.xs[x].status != Expiring
    ensures st.xs[x].status == Active && st.xs[x].mux.Some?
    ensures step.Go? && Ends(st.jobs[step.t], st.xs[x].mux.value)
  {
    RunTidy(START, steps, st);
    TurnsExpiring(st, step, x);
  }

  lemma TurnsExpiring(st: State, step: Step, x: nat)
    requires Base(st) && Tidy(st) && Enabled(st, step) && x < |st.xs|
    requires |Apply(st, step).xs| >= |st.xs| && Apply(st, step).xs[x].status == Expiring && st.xs[x].status != Expiring
    ensures st.xs[x].status == Active && st.xs[x].mux.Some?
    ensures step.Go? && Ends(st.jobs[step.t], st.xs[x].mux.value)
  {
    assert EntryBase(st, x);
    assert step.Go?;
    var k := st.jobs[step.t];
    assert k.DetachEnd? || k.CloseEnd?;
    assert JobBase(st, step.t) && SessionTidy(st, k.s);
  }

  // ---------------------------------------------------------------------------------------------
  // Locks
  // ---------------------------------------------------------------------------------------------

  /** No two sessions are being closed under one lock. */
  ghost predicate Exclusive(st: State) {
    forall r, s | 0 <= r < |st.ss| && 0 <= s < |st.ss| && st.ss[r].phase.Closing? && st.ss[s].phase.Closing? ::
      st.ss[r].phase.lock == st.ss[s].phase.lock ==> r == s
  }

  lemma BeginExclusive(st: State, s: nat, phase: Phase, st': State)
    requires Exclusive(st) && s < |st.ss| && (phase.Closing? ==> !Locked(st, phase.lock))
    requires st'.ss == st.ss[s := st.ss[s].(phase := phase)]
    ensures Exclusive(st')
  {
    forall r | 0 <= r < |st.ss| && st.ss[r].phase.Closing? && phase.Closing? ensures st.ss[r].phase.lock != phase.lock {
      assert !(st.ss[r].phase.lock == phase.lock);
    }
  }

  lemma ExclusiveStep(st: State, step: Step)
    requires Base(st) && Enabled(st, step) && Exclusive(st)
    ensures Exclusive(Apply(st, step))
  {
    var st' := Apply(st, step);
    if st'.ss == st.ss {
    } else if step.Close? {
      BeginExclusive(st, step.s, st'.ss[step.s].phase, st');
    } else {
      var k := st.jobs[step.t];
      if k.Build? || k.Publish? {
        assert forall r :: 0 <= r < |st.ss| ==> st'.ss[r] == st.ss[r];
      } else {
        var s := if k.Detach? || k.Undo? then st.xs[k.x].mux.value else k.s;
        BeginExclusive(st, s, st'.ss[s].phase, st');
      }
    }
  }

  lemma {:induction false} ExclusiveRun(st: State, steps: seq<Step>, end: State)
    requires Base(st) && Exclusive(st) && Run(st, steps, end)
    ensures Exclusive(end)
    decreases |steps|
  {
    if steps != [] {
      StepBase(st, steps[0]);
      ExclusiveStep(st, steps[0]);
      ExclusiveRun(Apply(st, steps[0]), steps[1..], end);
    }
  }

  /** In every run at most one session at a time is being closed under the lock of one manager. */
  lemma LockExcludes(steps: seq<Step>, st: State, r: nat, s: nat)
    requires Run(START, steps, st) && r < |st.ss| && s < |st.ss|
    requires st.ss[r].phase.Closing? && st.ss[s].phase.Closing? && st.ss[r].phase.lock == st.ss[s].phase.lock
    ensures r == s
  {
    ExclusiveRun(START, steps, st);
  }

  // ---------------------------------------------------------------------------------------------
  // Which session an entry points to, over a run
  // ---------------------------------------------------------------------------------------------

  /** The step gives the entry x a session: it advances a job at Build or Publish on x. */
  predicate Installs(st: State, step: Step, x: nat) {
    step.Go? && step.t < |st.jobs| &&
    (st.jobs[step.t].Build? || st.jobs[step.t].Publish?) && st.jobs[step.t].x == x
  }

  ghost predicate NoInstall(st: State, steps: seq<Step>, x: nat)
    decreases |steps|
  {
    steps == [] ||
    (!Installs(st, steps[0], x) && Refs(st) && Enabled(st, steps[0]) && NoInstall(Apply(st, steps[0]), steps[1..], x))
  }

  lemma StepMux(st: State, step: Step, x: nat)
    requires Base(st) && Enabled(st, step) && x < |st.xs|
    ensures var st' := Apply(st, step);
      && |st.xs| <= |st'.xs| && |st.ss| <= |st'.ss| && st'.xs[x].gid == st.xs[x].gid
      && st'.xs[x].mux == if Installs(st, step, x) then Some(|st.ss|) else st.xs[x].mux
  {
    if step.Go? {
      AdvanceMux(st, step.t, step.ok, x);
    }
  }

  lemma AdvanceMux(st: State, t: nat, ok: bool, x: nat)
    requires Base(st) && Enabled(st, Go(t, ok)) && x < |st.xs|
    ensures var st' := Advance(st, t, ok); var k := st.jobs[t];
      && |st.xs| == |st'.xs| && |st.ss| <= |st'.ss| && st'.xs[x].gid == st.xs[x].gid
      && st'.xs[x].mux == if (k.Build? || k.Publish?) && k.x == x then Some(|st.ss|) else st.xs[x].mux
  {
  }

  /** An entry points to a session after a run exactly if it did before and was given none since. */
  lemma {:induction false} MuxOverRun(st: State, steps: seq<Step>, end: State, x: nat, s: nat)
    requires Base(st) && Run(st, steps, end) && x < |st.xs| && s < |st.ss|
    ensures |st.xs| <= |end.xs|
    ensures end.xs[x].mux == Some(s) <==> st.xs[x].mux == Some(s) && NoInstall(st, steps, x)
    decreases |steps|
  {
    if steps != [] {
      var st' := Apply(st, steps[0]);
      StepBase(st, steps[0]);
      StepMux(st, steps[0], x);
      MuxOverRun(st', steps[1..], end, x, s);
    }
  }

  /**
   * A worker registers, hands to its handler and on failure closes the session its entry points to
   * at that moment. From the step on in which its entry became Active, that is the session it
   * published itself exactly if no step since has advanced another job at Build or Publish on the
   * entry. See RegistersAnother.
   */
  lemma RegistersOwn(before: seq<Step>, st: State, t: nat, ok: bool, since: seq<Step>, end: State)
    requires Run(START, before, st) && Refs(st) && Enabled(st, Go(t, ok)) && st.jobs[t].Activate?
    requires Run(Apply(st, Go(t, ok)), since, end)
    ensures var x := st.jobs[t].x;
      && x < |end.xs|
      && (end.xs[x].mux == Some(st.jobs[t].own) <==> NoInstall(Apply(st, Go(t, ok)), since, x))
  {
    RunBase(START, before, st);
    assert JobBase(st, t);
    var st' := Apply(st, Go(t, ok));
    StepBase(st, Go(t, ok));
    StepMux(st, Go(t, ok), st.jobs[t].x);
    MuxOverRun(st', since, end, st.jobs[t].x, st.jobs[t].own);
  }

  ghost predicate NoAttach(steps: seq<Step>, gid: Gid) {
    forall i :: 0 <= i < |steps| && steps[i].Attach? ==> steps[i].gid != gid
  }

  lemma StillSetUp(st: State, step: Step, x: nat)
    requires Base(st) && Enabled(st, step) && x < |st.xs| && st.xs[x].status != Initializing
    requires step.Attach? ==> step.gid != st.xs[x].gid
    ensures !Installs(st, step, x)
    ensures x < |Apply(st, step).xs| && Apply(st, step).xs[x].status != Initializing
  {
    if step.Go? {
      assert JobBase(st, step.t);
    }
  }

  /** That takes another frame with the same Global ID in between. */
  lemma {:induction false} InstallNeedsAttach(st: State, steps: seq<Step>, end: State, x: nat)
    requires Base(st) && Run(st, steps, end) && x < |st.xs| && st.xs[x].status != Initializing
    requires NoAttach(steps, st.xs[x].gid)
    ensures NoInstall(st, steps, x)
    decreases |steps|
  {
    if steps != [] {
      var st' := Apply(st, steps[0]);
      StillSetUp(st, steps[0], x);
      StepBase(st, steps[0]);
      StepMux(st, steps[0], x);
      assert forall i :: 0 <= i < |steps[1..]| ==> steps[1..][i] == steps[i + 1];
      InstallNeedsAttach(st', steps[1..], end, x);
    }
  }

  /**
   * When a late close does harm. Let job t begin to close the session s, which its entry x points
   * to then. Its second half, whenever it comes, makes the entry expire although it points to
   * another session exactly if the entry is Active at that time and was given a session in between.
   */
  lemma LateCloseExact(before: seq<Step>, st: State, step: Step, t: nat, s: nat, since: seq<Step>, end: State, ok: bool)
    requires Run(START, before, st) && Refs(st) && Enabled(st, step) && s < |st.ss| && st.ss[s].phase == Open
    requires s < |Apply(st, step).ss| && Apply(st, step).ss[s].phase.Closing? && st.ss[s].entry.Some?
    requires Run(Apply(st, step), since, end) && t < |end.jobs| && Ends(end.jobs[t], s)
    requires Refs(end) && Enabled(end, Go(t, ok))
    ensures var x := st.ss[s].entry.value; var last := Apply(end, Go(t, ok));
      && x < |end.xs| && x < |last.xs|
      && (last.xs[x].status == Expiring && end.xs[x].status != Expiring && last.xs[x].mux != Some(s) <==>
          end.xs[x].status == Active && !NoInstall(Apply(st, step), since, x))
  {
    var x := st.ss[s].entry.value;
    RunBase(START, before, st);
    assert SessionBase(st, s);
    var st' := Apply(st, step);
    StepBase(st, step);
    StepMux(st, step, x);
    assert st'.xs[x].mux == Some(s) by {
      assert SessionBase(st, s);
      CloseInstallsNothing(st, step, s, x);
    }
    MuxOverRun(st', since, end, x, s);
    RunBase(st', since, end);
    SameSession(st, step, s);
    EntryOverRun(st', since, end, s);
    StepMux(end, Go(t, ok), x);
    assert JobBase(end, t);
  }

  lemma CloseInstallsNothing(st: State, step: Step, s: nat, x: nat)
    requires Base(st) && Enabled(st, step) && s < |st.ss| && st.ss[s].phase == Open
    requires s < |Apply(st, step).ss| && Apply(st, step).ss[s].phase.Closing?
    ensures !Installs(st, step, x)
  {
  }

  /** A session keeps its entry and its parent. */
  lemma SameSession(st: State, step: Step, s: nat)
    requires Base(st) && Enabled(st, step) && s < |st.ss|
    ensures s < |Apply(st, step).ss|
    ensures Apply(st, step).ss[s].entry == st.ss[s].entry && Apply(st, step).ss[s].parent == st.ss[s].parent
  {
    if step.Go? {
      AdvanceSameSession(st, step.t, step.ok, s);
    }
  }

  lemma AdvanceSameSession(st: State, t: nat, ok: bool, s: nat)
    requires Base(st) && Enabled(st, Go(t, ok)) && s < |st.ss|
    ensures s < |Advance(st, t, ok).ss|
    ensures Advance(st, t, ok).ss[s].entry == st.ss[s].entry && Advance(st, t, ok).ss[s].parent == st.ss[s].parent
  {
  }

  lemma {:induction false} EntryOverRun(st: State, steps: seq<Step>, end: State, s: nat)
    requires Base(st) && Run(st, steps, end) && s < |st.ss|
    ensures s < |end.ss| && end.ss[s].entry == st.ss[s].entry
    decreases |steps|
  {
    if steps != [] {
      StepBase(st, steps[0]);
      SameSession(st, steps[0], s);
      EntryOverRun(Apply(st, steps[0]), steps[1..], end, s);
    }
  }

  // ---------------------------------------------------------------------------------------------
  // Two open sessions
  // ---------------------------------------------------------------------------------------------

  /** The session s is open and of Global ID gid. */
  predicate OpenOf(st: State, s: nat, gid: Gid) {
    s < |st.ss| && st.ss[s].phase == Open && GidOf(st, s) == Some(gid)
  }

  ghost predicate OneOpen(st: State, gid: Gid) {
    forall r: nat, s: nat | OpenOf(st, r, gid) && OpenOf(st, s, gid) :: r == s
  }

  /** The step publishes a session on an entry for gid. */
  predicate Publishes(st: State, step: Step, gid: Gid) {
    && step.Go? && step.t < |st.jobs| && st.jobs[step.t].Publish?
    && st.jobs[step.t].x < |st.xs| && st.xs[st.jobs[step.t].x].gid == gid
  }

  /** Publishing aside, no step opens a session; it opens one and leaves the others. */
  lemma OpensOnlyByPublish(st: State, step: Step, s: nat, gid: Gid)
    requires Base(st) && Enabled(st, step)
    ensures !Publishes(st, step, gid) && OpenOf(Apply(st, step), s, gid) ==> OpenOf(st, s, gid)
    ensures Publishes(st, step, gid) ==>
              (OpenOf(Apply(st, step), s, gid) <==> OpenOf(st, s, gid) || s == |st.ss|)
  {
    var st' := Apply(st, step);
    if s < |st.ss| {
      SameSession(st, step, s);
      SameGid(st, step, s);
      if step.Go? {
        AdvanceOpens(st, step.t, step.ok, s);
      }
    } else if step.Go? {
      AdvanceAdds(st, step.t, step.ok, s, gid);
    }
  }

  lemma SameGid(st: State, step: Step, s: nat)
    requires Base(st) && Enabled(st, step) && s < |st.ss| && s < |Apply(st, step).ss|
    requires Apply(st, step).ss[s].entry == st.ss[s].entry
    ensures GidOf(Apply(st, step), s) == GidOf(st, s)
  {
    if st.ss[s].entry.Some? {
      StepMux(st, step, st.ss[s].entry.value);
    }
  }

  lemma AdvanceOpens(st: State, t: nat, ok: bool, s: nat)
    requires Base(st) && Enabled(st, Go(t, ok)) && s < |st.ss|
    ensures s < |Advance(st, t, ok).ss|
    ensures Advance(st, t, ok).ss[s].phase == Open ==> st.ss[s].phase == Open
    ensures st.jobs[t].Publish? ==> Advance(st, t, ok).ss[s] == st.ss[s]
  {
  }

  lemma AdvanceAdds(st: State, t: nat, ok: bool, s: nat, gid: Gid)
    requires Base(st) && Enabled(st, Go(t, ok)) && s >= |st.ss|
    ensures OpenOf(Advance(st, t, ok), s, gid) <==> Publishes(st, Go(t, ok), gid) && s == |st.ss|
  {
  }

  /**
   * When a second session of a Global ID is opened: exactly when one is published for it while
   * another is open, and then the entry of that other one has been taken out of the table.
   */
  lemma SecondOpenExact(steps: seq<Step>, st: State, step: Step, gid: Gid)
    requires Run(START, steps, st) && Refs(st) && Enabled(st, step) && OneOpen(st, gid)
    ensures !OneOpen(Apply(st, step), gid) <==> Publishes(st, step, gid) && exists s: nat :: OpenOf(st, s, gid)
    ensures forall s: nat | Publishes(st, step, gid) && OpenOf(st, s, gid) :: !InTable(st, st.ss[s].entry.value)
  {
    RunBase(START, steps, st);
    var st' := Apply(st, step);
    if Publishes(st, step, gid) {
      OpensOnlyByPublish(st, step, |st.ss|, gid);
      forall s: nat | OpenOf(st, s, gid) ensures OpenOf(st', s, gid) && !InTable(st, st.ss[s].entry.value) {
        OpensOnlyByPublish(st, step, s, gid);
        assert JobBase(st, step.t) && SessionBase(st, s);
      }
    }
    forall s: nat | OpenOf(st', s, gid) ensures OpenOf(st, s, gid) || (Publishes(st, step, gid) && s == |st.ss|) {
      OpensOnlyByPublish(st, step, s, gid);
    }
  }

  /** Every open session of Global ID gid belongs to the entry in the table. */
  ghost predicate Kept(st: State, gid: Gid) {
    forall s: nat | OpenOf(st, s, gid) :: InTable(st, st.ss[s].entry.value)
  }

  /** The reaper takes the entry of gid, which is past its deadline, although its session is open. */
  predicate ReapsOpen(st: State, step: Step, gid: Gid) {
    && step == Reap(gid) && gid in st.table && st.table[gid] < |st.xs| && Due(st, gid)
    && var s := st.xs[st.table[gid]].mux; s.Some? && s.value < |st.ss| && st.ss[s.value].phase == Open
  }

  /** An entry in the table stays there, the reaper and its owner's failed dispatch aside. */
  lemma StaysInTable(st: State, step: Step, x: nat)
    requires Base(st) && Enabled(st, step) && x < |st.xs| && InTable(st, x)
    ensures |st.xs| <= |Apply(st, step).xs|
    ensures InTable(Apply(st, step), x) <==>
      && !(step == Reap(st.xs[x].gid) && Due(st, st.xs[x].gid))
      && !(step.Go? && !step.ok && st.jobs[step.t].Dispatch? && st.jobs[step.t].x == x)
  {
    StepMux(st, step, x);
    if step.Go? {
      assert JobBase(st, step.t);
    }
  }

  lemma KeptOne(st: State, step: Step, gid: Gid, s: nat)
    requires Base(st) && Enabled(st, step) && Kept(st, gid) && !ReapsOpen(st, step, gid)
    requires OpenOf(Apply(st, step), s, gid)
    ensures InTable(Apply(st, step), Apply(st, step).ss[s].entry.value)
  {
    OpensOnlyByPublish(st, step, s, gid);
    if OpenOf(st, s, gid) {
      var x := st.ss[s].entry.value;
      SameSession(st, step, s);
      assert SessionBase(st, s);
      StaysInTable(st, step, x);
      if step.Go? {
        assert JobBase(st, step.t);
      }
    } else {
      assert JobBase(st, step.t);
      StaysInTable(st, step, st.jobs[step.t].x);
    }
  }

  /** That goes wrong exactly when the reaper takes an entry whose session is open. */
  lemma KeptExact(st: State, step: Step, gid: Gid)
    requires Base(st) && Enabled(st, step) && Kept(st, gid)
    ensures Kept(Apply(st, step), gid) <==> !ReapsOpen(st, step, gid)
  {
    if ReapsOpen(st, step, gid) {
      var x := st.table[gid];
      assert EntryBase(st, x);
      assert OpenOf(Apply(st, step), st.xs[x].mux.value, gid);
    } else {
      forall s: nat | OpenOf(Apply(st, step), s, gid)
        ensures InTable(Apply(st, step), Apply(st, step).ss[s].entry.value)
      {
        KeptOne(st, step, gid, s);
      }
    }
  }

  /** The reaper never takes an entry for gid whose session is open. */
  ghost predicate ReapsWell(st: State, steps: seq<Step>, gid: Gid)
    decreases |steps|
  {
    steps == [] ||
    (!ReapsOpen(st, steps[0], gid) && Refs(st) && Enabled(st, steps[0]) &&
     ReapsWell(Apply(st, steps[0]), steps[1..], gid))
  }

  lemma {:induction false} KeptOverRun(st: State, steps: seq<Step>, end: State, gid: Gid)
    requires Base(st) && Kept(st, gid) && Run(st, steps, end) && ReapsWell(st, steps, gid)
    ensures Kept(end, gid) && OneOpen(end, gid)
    decreases |steps|
  {
    if steps == [] {
      forall r: nat, s: nat | OpenOf(st, r, gid) && OpenOf(st, s, gid) ensures r == s {
        assert SessionBase(st, r) && SessionBase(st, s);
      }
    } else {
      StepBase(st, steps[0]);
      KeptExact(st, steps[0], gid);
      KeptOverRun(Apply(st, steps[0]), steps[1..], end, gid);
    }
  }

  /** The steps in which a frame with a Global ID that is not in the table gets a session. */
  function SetUp(st: State, gid: Gid, on: Manager): seq<Step> {
    [Attach(gid, on), Go(|st.jobs|, true), Go(|st.jobs|, true), Go(|st.jobs|, true)]
  }

  /** From st on, the steps lead to end without the reaper taking an entry for gid. */
  ghost predicate Leads(st: State, steps: seq<Step>, end: State, gid: Gid) {
    Run(st, steps, end) && ReapsWell(st, steps, gid)
  }

  lemma LeadsOne(st: State, step: Step, steps: seq<Step>, end: State, gid: Gid)
    requires Refs(st) && Enabled(st, step) && !step.Reap? && Leads(Apply(st, step), steps, end, gid)
    ensures Leads(st, [step] + steps, end, gid)
  {
    assert ([step] + steps)[0] == step && ([step] + steps)[1..] == steps;
  }

  /** A job that stands at Dispatch goes on and publishes. */
  lemma DispatchPublishes(st: State, t: nat, gid: Gid) returns (end: State)
    requires Base(st) && !st.crashed && t < |st.jobs| && st.jobs[t].Dispatch? && st.xs[st.jobs[t].x].gid == gid
    ensures Leads(st, [Go(t, true), Go(t, true), Go(t, true)], end, gid)
    ensures |end.ss| == |st.ss| + 2 && end.ss[..|st.ss|] == st.ss && |end.xs| == |st.xs|
    ensures (forall y :: 0 <= y < |st.xs| ==> end.xs[y].gid == st.xs[y].gid) && OpenOf(end, |st.ss| + 1, gid)
  {
    var go, x := Go(t, true), st.jobs[t].x;
    var st1 := Apply(st, go);
    StepBase(st, go);
    var st2 := Apply(st1, go);
    StepBase(st1, go);
    end := Apply(st2, go);
    assert Leads(end, [], end, gid);
    LeadsOne(st2, go, [], end, gid);
    assert [go] + [] == [go];
    LeadsOne(st1, go, [go], end, gid);
    assert [go] + [go] == [go, go];
    LeadsOne(st, go, [go, go], end, gid);
    assert [go] + [go, go] == [go, go, go];
  }

  /** While a session of gid is open without an entry in the table, the next frame opens another. */
  lemma SecondFollows(st: State, s: nat, gid: Gid, on: Manager) returns (end: State)
    requires Base(st) && !st.crashed && gid !in st.table && OpenOf(st, s, gid)
    ensures Leads(st, SetUp(st, gid, on), end, gid) && !OneOpen(end, gid)
  {
    var t, attach := |st.jobs|, Attach(gid, on);
    var st1 := Apply(st, attach);
    StepBase(st, attach);
    end := DispatchPublishes(st1, t, gid);
    var gos := [Go(t, true), Go(t, true), Go(t, true)];
    LeadsOne(st, attach, gos, end, gid);
    assert [attach] + gos == SetUp(st, gid, on);
    assert end.ss[s] == end.ss[..|st.ss|][s] == st.ss[s];
    assert OpenOf(end, s, gid) && OpenOf(end, |st.ss| + 1, gid);
  }

  /**
   * Two open sessions of one Global ID, exactly. As long as the reaper never takes its entry while
   * the session of that entry is open, no run has two. Once it does, some run has, in which it does
   * not do so again.
   */
  lemma SecondSessionExact(steps: seq<Step>, st: State, step: Step, gid: Gid)
    requires Run(START, steps, st) && ReapsWell(START, steps, gid) && Refs(st) && Enabled(st, step)
    ensures Kept(st, gid) && OneOpen(st, gid)
    ensures ReapsOpen(st, step, gid) <==>
            exists more, end :: Leads(Apply(st, step), more, end, gid) && !OneOpen(end, gid)
  {
    KeptOverRun(START, steps, st, gid);
    RunBase(START, steps, st);
    var st' := Apply(st, step);
    StepBase(st, step);
    KeptExact(st, step, gid);
    if ReapsOpen(st, step, gid) {
      assert EntryBase(st, st.table[gid]);
      var end := SecondFollows(st', st.xs[st.table[gid]].mux.value, gid, 0);
      assert Leads(st', SetUp(st', gid, 0), end, gid);
    } else {
      forall more, end | Leads(st', more, end, gid) ensures OneOpen(end, gid) {
        KeptOverRun(st', more, end, gid);
      }
    }
  }

  // ---------------------------------------------------------------------------------------------
  // When runs are orderly
  // ---------------------------------------------------------------------------------------------

  /** Every manager lists only sessions of its own. */
  ghost predicate OwnLists(st: State) {
    forall m, s :: (m, s) in st.listed ==> s < |st.ss| && st.ss[s].parent == Some(m)
  }

  /** The step registers a session with a manager that is not its parent. */
  ghost predicate Misfiles(st: State, step: Step)
    requires Refs(st)
  {
    step.Go? && step.ok && step.t < |st.jobs| && st.jobs[step.t].Register? &&
    st.ss[st.xs[st.jobs[step.t].x].mux.value].parent != Some(st.jobs[step.t].on)
  }

  /** Lists stay right exactly until a worker registers a session of another manager. */
  lemma ListsExact(st: State, step: Step)
    requires Base(st) && OwnLists(st) && Enabled(st, step)
    ensures !Foreign(st, step)
    ensures OwnLists(Apply(st, step)) <==> !Misfiles(st, step)
  {
    var st' := Apply(st, step);
    forall m, s | (m, s) in st.listed ensures s < |st'.ss| && st'.ss[s].parent == Some(m) {
      SameSession(st, step, s);
    }
    if Misfiles(st, step) {
      var k := st.jobs[step.t];
      assert (k.on, st.xs[k.x].mux.value) in st'.listed;
      assert st'.ss == st.ss;
    }
  }

  ghost predicate NoMisfiling(st: State, steps: seq<Step>)
    decreases |steps|
  {
    steps == [] ||
    (Refs(st) && Enabled(st, steps[0]) && !Misfiles(st, steps[0]) && NoMisfiling(Apply(st, steps[0]), steps[1..]))
  }

  /** So a run is orderly if every worker registers a session of its own manager. */
  lemma {:induction false} OrderlyIfOwn(st: State, steps: seq<Step>, end: State)
    requires Base(st) && OwnLists(st) && Run(st, steps, end) && NoMisfiling(st, steps)
    ensures Orderly(st, steps)
    decreases |steps|
  {
    if steps != [] {
      ListsExact(st, steps[0]);
      StepBase(st, steps[0]);
      OrderlyIfOwn(Apply(st, steps[0]), steps[1..], end);
    }
  }
}
