/** Every step of the XUDP protocol keeps what holds. */
module XudpSteps {
  import opened Bytes
  import opened Xudp

  /** If the session an entry points to is closed, all its sessions are. */
  lemma AllClosed(st: State, x: nat, s: nat)
    requires Refs(st) && Tidy(st) && x < |st.xs| && st.xs[x].mux == Some(s)
    ensures forall r :: 0 <= r < |st.ss| && st.ss[r].entry == Some(x) && r != s ==> st.ss[r].phase.Closed?
  {
    forall r | 0 <= r < |st.ss| && st.ss[r].entry == Some(x) && r != s ensures st.ss[r].phase.Closed? {
      assert SessionTidy(st, r);
    }
  }

  /** Time, lists and a crash do not matter to what holds. */
  lemma SameBase(st: State, st': State)
    requires Base(st) && Refs(st') && st'.table == st.table && st'.xs == st.xs && st'.ss == st.ss && st'.jobs == st.jobs
    ensures Base(st')
  {
    forall y | 0 <= y < |st'.xs| ensures EntryBase(st', y) {
      assert y < |st.xs| ==> EntryBase(st, y);
    }
    forall r | 0 <= r < |st'.ss| ensures SessionBase(st', r) {
      assert r < |st.ss| ==> SessionBase(st, r);
    }
    forall u | 0 <= u < |st'.jobs| ensures JobBase(st', u) {
      assert u < |st.jobs| ==> JobBase(st, u);
    }
  }

  lemma SameTidy(st: State, st': State)
    requires Base(st) && Tidy(st) && Refs(st') && st'.now >= st.now
    requires st'.table == st.table && st'.xs == st.xs && st'.ss == st.ss && st'.jobs == st.jobs
    ensures Tidy(st')
  {
    forall y | 0 <= y < |st'.xs| ensures EntryTidy(st', y) {
      assert y < |st.xs| ==> EntryTidy(st, y);
    }
    forall r | 0 <= r < |st'.ss| ensures SessionTidy(st', r) {
      assert r < |st.ss| ==> SessionTidy(st, r);
    }
    forall u | 0 <= u < |st'.jobs| ensures JobTidy(st', u) {
      assert u < |st.jobs| ==> JobTidy(st, u);
    }
  }

  /** The job t, which holds no lock, goes on without touching anything else. */
  lemma ThenBase(st: State, t: nat, k: Job)
    requires Base(st) && t < |st.jobs| && Refs(Then(st, t, k)) && JobBase(Then(st, t, k), t)
    requires var was := st.jobs[t];
      && !was.DetachEnd? && !was.CloseEnd? && !was.Publish? && (SetsUp(was) ==> Owns(k, was.x))
    ensures Base(Then(st, t, k))
  {
    var st' := Then(st, t, k);
    assert JobBase(st, t);
    forall y | 0 <= y < |st'.xs| ensures EntryBase(st', y) {
      assert y < |st.xs| ==> EntryBase(st, y);
    }
    forall r | 0 <= r < |st'.ss| ensures SessionBase(st', r) {
      assert r < |st.ss| ==> SessionBase(st, r);
    }
    forall u | 0 <= u < |st'.jobs| ensures JobBase(st', u) {
      assert JobBase(st, u);
    }
  }

  lemma ThenTidy(st: State, t: nat, k: Job)
    requires Base(st) && Tidy(st) && t < |st.jobs| && Refs(Then(st, t, k)) && JobTidy(Then(st, t, k), t)
    ensures Tidy(Then(st, t, k))
  {
    var st' := Then(st, t, k);
    forall y | 0 <= y < |st'.xs| ensures EntryTidy(st', y) {
      assert y < |st.xs| ==> EntryTidy(st, y);
    }
    forall r | 0 <= r < |st'.ss| ensures SessionTidy(st', r) {
      assert r < |st.ss| ==> SessionTidy(st, r);
    }
    forall u | 0 <= u < |st'.jobs| ensures JobTidy(st', u) {
      assert u < |st.jobs| ==> JobTidy(st, u);
    }
  }

  lemma ReapBase(st: State, gid: Gid)
    requires Base(st) && gid in st.table && Due(st, gid)
    ensures Base(st.(table := st.table - {gid}))
  {
    var st' := st.(table := st.table - {gid});
    assert EntryBase(st, st.table[gid]);
    forall y | 0 <= y < |st'.xs| ensures EntryBase(st', y) {
      assert y < |st.xs| ==> EntryBase(st, y);
    }
    forall r | 0 <= r < |st'.ss| ensures SessionBase(st', r) {
      assert r < |st.ss| ==> SessionBase(st, r);
    }
    forall u | 0 <= u < |st'.jobs| ensures JobBase(st', u) {
      assert u < |st.jobs| ==> JobBase(st, u);
    }
  }

  lemma ReapTidy(st: State, gid: Gid)
    requires Base(st) && gid in st.table && Due(st, gid)
    requires Tidy(st) && Refs(st.(table := st.table - {gid}))
    ensures Tidy(st.(table := st.table - {gid}))
  {
    var st' := st.(table := st.table - {gid});
    assert EntryBase(st, st.table[gid]);
    assert EntryTidy(st, st.table[gid]);
    forall y | 0 <= y < |st'.xs| ensures EntryTidy(st', y) {
      assert y < |st.xs| ==> EntryTidy(st, y);
    }
    forall r | 0 <= r < |st'.ss| ensures SessionTidy(st', r) {
      assert r < |st.ss| ==> SessionTidy(st, r);
    }
    forall u | 0 <= u < |st'.jobs| ensures JobTidy(st', u) {
      assert u < |st.jobs| ==> JobTidy(st, u);
    }
  }

  lemma ManagerBeginsBase(st: State, m: Manager, s: nat)
    requires Base(st) && s < |st.ss| && st.ss[s].parent.Some? && st.ss[s].phase == Open
    ensures Base(ManagerBegins(st, m, s))
  {
    var st' := ManagerBegins(st, m, s);
    forall y | 0 <= y < |st'.xs| ensures EntryBase(st', y) {
      assert y < |st.xs| ==> EntryBase(st, y);
    }
    forall r | 0 <= r < |st'.ss| ensures SessionBase(st', r) {
      assert r < |st.ss| ==> SessionBase(st, r);
    }
    forall u | 0 <= u < |st'.jobs| ensures JobBase(st', u) {
      assert u < |st.jobs| ==> JobBase(st, u);
    }
  }

  lemma ManagerBeginsTidy(st: State, m: Manager, s: nat)
    requires Base(st) && s < |st.ss| && st.ss[s].parent.Some? && st.ss[s].phase == Open
    requires st.ss[s].parent == Some(m)
    requires Tidy(st) && Refs(ManagerBegins(st, m, s))
    ensures Tidy(ManagerBegins(st, m, s))
  {
    var st' := ManagerBegins(st, m, s);
    forall y | 0 <= y < |st'.xs| ensures EntryTidy(st', y) {
      assert y < |st.xs| ==> EntryTidy(st, y);
    }
    forall r | 0 <= r < |st'.ss| ensures SessionTidy(st', r) {
      assert r < |st.ss| ==> SessionTidy(st, r);
    }
    forall u | 0 <= u < |st'.jobs| ensures JobTidy(st', u) {
      assert u < |st.jobs| ==> JobTidy(st, u);
    }
  }

  lemma LookupMissBase(st: State, gid: Gid, on: Manager)
    requires Base(st) && gid !in st.table
    ensures Base(Lookup(st, gid, on))
  {
    var st' := Lookup(st, gid, on);
    forall y | 0 <= y < |st'.xs| ensures EntryBase(st', y) {
      assert y < |st.xs| ==> EntryBase(st, y);
    }
    forall r | 0 <= r < |st'.ss| ensures SessionBase(st', r) {
      assert r < |st.ss| ==> SessionBase(st, r);
    }
    forall u | 0 <= u < |st'.jobs| ensures JobBase(st', u) {
      assert u < |st.jobs| ==> JobBase(st, u);
    }
  }

  lemma LookupMissTidy(st: State, gid: Gid, on: Manager)
    requires Base(st) && gid !in st.table
    requires Tidy(st) && Refs(Lookup(st, gid, on))
    ensures Tidy(Lookup(st, gid, on))
  {
    var st' := Lookup(st, gid, on);
    forall y | 0 <= y < |st'.xs| ensures EntryTidy(st', y) {
      assert y < |st.xs| ==> EntryTidy(st, y);
    }
    forall r | 0 <= r < |st'.ss| ensures SessionTidy(st', r) {
      assert r < |st.ss| ==> SessionTidy(st, r);
    }
    forall u | 0 <= u < |st'.jobs| ensures JobTidy(st', u) {
      assert u < |st.jobs| ==> JobTidy(st, u);
    }
  }

  lemma LookupHitBase(st: State, gid: Gid, on: Manager)
    requires Base(st) && gid in st.table
    ensures Base(Lookup(st, gid, on))
  {
    var st' := Lookup(st, gid, on);
    assert EntryBase(st, st.table[gid]);
    forall y | 0 <= y < |st'.xs| ensures EntryBase(st', y) {
      assert y < |st.xs| ==> EntryBase(st, y);
    }
    forall r | 0 <= r < |st'.ss| ensures SessionBase(st', r) {
      assert r < |st.ss| ==> SessionBase(st, r);
    }
    forall u | 0 <= u < |st'.jobs| ensures JobBase(st', u) {
      assert u < |st.jobs| ==> JobBase(st, u);
    }
  }

  lemma LookupHitTidy(st: State, gid: Gid, on: Manager)
    requires Base(st) && gid in st.table
    requires Tidy(st) && Refs(Lookup(st, gid, on))
    ensures Tidy(Lookup(st, gid, on))
  {
    var st' := Lookup(st, gid, on);
    assert EntryBase(st, st.table[gid]);
    forall y | 0 <= y < |st'.xs| ensures EntryTidy(st', y) {
      assert y < |st.xs| ==> EntryTidy(st, y);
    }
    forall r | 0 <= r < |st'.ss| ensures SessionTidy(st', r) {
      assert r < |st.ss| ==> SessionTidy(st, r);
    }
    forall u | 0 <= u < |st'.jobs| ensures JobTidy(st', u) {
      assert u < |st.jobs| ==> JobTidy(st, u);
    }
  }

  lemma BeginRefs(st: State, t: nat, s: nat, k: Job)
    requires Base(st) && t < |st.jobs| && s < |st.ss| && st.ss[s].parent.Some? && st.ss[s].phase == Open
    requires var was := st.jobs[t];
      || (was.Detach? && st.xs[was.x].mux == Some(s) && k == DetachEnd(was.x, was.on, s))
      || ((was.Undo? || was.Handle?) && k == CloseEnd(s))
    ensures Refs(Begin(st, t, s, k))
  {
    assert JobBase(st, t);
  }

  lemma BeginJob(st: State, t: nat, s: nat, k: Job, u: nat)
    requires Base(st) && t < |st.jobs| && s < |st.ss| && st.ss[s].parent.Some? && st.ss[s].phase == Open
    requires var was := st.jobs[t];
      || (was.Detach? && st.xs[was.x].mux == Some(s) && k == DetachEnd(was.x, was.on, s))
      || ((was.Undo? || was.Handle?) && k == CloseEnd(s))
    requires u < |st.jobs| && Refs(Begin(st, t, s, k))
    ensures JobBase(Begin(st, t, s, k), u)
  {
    assert JobBase(st, t);
    assert JobBase(st, u);
  }

  lemma BeginBase(st: State, t: nat, s: nat, k: Job)
    requires Base(st) && t < |st.jobs| && s < |st.ss| && st.ss[s].parent.Some? && st.ss[s].phase == Open
    requires var was := st.jobs[t];
      || (was.Detach? && st.xs[was.x].mux == Some(s) && k == DetachEnd(was.x, was.on, s))
      || ((was.Undo? || was.Handle?) && k == CloseEnd(s))
    ensures Base(Begin(st, t, s, k))
  {
    var st' := Begin(st, t, s, k);
    BeginRefs(st, t, s, k);
    assert JobBase(st, t);
    forall y | 0 <= y < |st'.xs| ensures EntryBase(st', y) {
      assert y < |st.xs| ==> EntryBase(st, y);
    }
    forall r | 0 <= r < |st'.ss| ensures SessionBase(st', r) {
      assert r < |st.ss| ==> SessionBase(st, r);
    }
    forall u | 0 <= u < |st'.jobs| ensures JobBase(st', u) {
      BeginJob(st, t, s, k, u);
    }
  }

  lemma BeginTidy(st: State, t: nat, s: nat, k: Job)
    requires Base(st) && t < |st.jobs| && s < |st.ss| && st.ss[s].parent.Some? && st.ss[s].phase == Open
    requires var was := st.jobs[t];
      || (was.Detach? && st.xs[was.x].mux == Some(s) && k == DetachEnd(was.x, was.on, s))
      || ((was.Undo? || was.Handle?) && k == CloseEnd(s))
    requires Tidy(st) && Refs(Begin(st, t, s, k))
    ensures Tidy(Begin(st, t, s, k))
  {
    var st' := Begin(st, t, s, k);
    assert JobBase(st, t);
    forall y | 0 <= y < |st'.xs| ensures EntryTidy(st', y) {
      assert y < |st.xs| ==> EntryTidy(st, y);
    }
    forall r | 0 <= r < |st'.ss| ensures SessionTidy(st', r) {
      assert r < |st.ss| ==> SessionTidy(st, r);
    }
    forall u | 0 <= u < |st'.jobs| ensures JobTidy(st', u) {
      assert u < |st.jobs| ==> JobTidy(st, u);
    }
  }

  lemma SettleRefs(st: State, t: nat, s: nat, k: Job)
    requires Base(st) && t < |st.jobs| && s < |st.ss| && Ends(st.jobs[t], s)
    requires k == if st.jobs[t].DetachEnd? then Probe(st.jobs[t].x, st.jobs[t].on) else Done
    ensures Refs(Settle(st, t, s, k))
  {
    assert JobBase(st, t);
  }

  lemma SettleJob(st: State, t: nat, s: nat, k: Job, u: nat)
    requires Base(st) && t < |st.jobs| && s < |st.ss| && Ends(st.jobs[t], s)
    requires k == if st.jobs[t].DetachEnd? then Probe(st.jobs[t].x, st.jobs[t].on) else Done
    requires u < |st.jobs| && Refs(Settle(st, t, s, k))
    ensures JobBase(Settle(st, t, s, k), u)
  {
    assert JobBase(st, t);
    assert JobBase(st, u);
  }

  lemma SettleBase(st: State, t: nat, s: nat, k: Job)
    requires Base(st) && t < |st.jobs| && s < |st.ss| && Ends(st.jobs[t], s)
    requires k == if st.jobs[t].DetachEnd? then Probe(st.jobs[t].x, st.jobs[t].on) else Done
    ensures Base(Settle(st, t, s, k))
  {
    var st' := Settle(st, t, s, k);
    SettleRefs(st, t, s, k);
    assert JobBase(st, t);
    forall y | 0 <= y < |st'.xs| ensures EntryBase(st', y) {
      assert y < |st.xs| ==> EntryBase(st, y);
    }
    forall r | 0 <= r < |st'.ss| ensures SessionBase(st', r) {
      assert r < |st.ss| ==> SessionBase(st, r);
    }
    forall u | 0 <= u < |st'.jobs| ensures JobBase(st', u) {
      SettleJob(st, t, s, k, u);
    }
  }

  lemma SettleTidy(st: State, t: nat, s: nat, k: Job)
    requires Base(st) && t < |st.jobs| && s < |st.ss| && Ends(st.jobs[t], s)
    requires k == if st.jobs[t].DetachEnd? then Probe(st.jobs[t].x, st.jobs[t].on) else Done
    requires Tidy(st) && Refs(Settle(st, t, s, k))
    ensures Tidy(Settle(st, t, s, k))
  {
    var st' := Settle(st, t, s, k);
    assert JobBase(st, t);
    assert SessionTidy(st, s);
    AllClosed(st, st.ss[s].entry.value, s);
    forall y | 0 <= y < |st'.xs| ensures EntryTidy(st', y) {
      assert y < |st.xs| ==> EntryTidy(st, y);
    }
    forall r | 0 <= r < |st'.ss| ensures SessionTidy(st', r) {
      assert r < |st.ss| ==> SessionTidy(st, r);
    }
    forall u | 0 <= u < |st'.jobs| ensures JobTidy(st', u) {
      assert u < |st.jobs| ==> JobTidy(st, u);
    }
  }

  lemma ExpireBase(st: State, x: nat)
    requires Base(st) && x < |st.xs| && st.xs[x].status == Active
    ensures Base(Expire(st, x))
  {
    var st' := Expire(st, x);
    forall y | 0 <= y < |st'.xs| ensures EntryBase(st', y) {
      assert y < |st.xs| ==> EntryBase(st, y);
    }
    forall r | 0 <= r < |st'.ss| ensures SessionBase(st', r) {
      assert r < |st.ss| ==> SessionBase(st, r);
    }
    forall u | 0 <= u < |st'.jobs| ensures JobBase(st', u) {
      assert u < |st.jobs| ==> JobBase(st, u);
    }
  }

  lemma ExpireTidy(st: State, x: nat)
    requires Base(st) && x < |st.xs| && st.xs[x].status == Active
    requires st.xs[x].mux.Some? && st.xs[x].mux.value < |st.ss| && st.ss[st.xs[x].mux.value].phase == Closed(st.now)
    requires Tidy(st) && Refs(Expire(st, x))
    ensures Tidy(Expire(st, x))
  {
    var st' := Expire(st, x);
    forall y | 0 <= y < |st'.xs| ensures EntryTidy(st', y) {
      assert y < |st.xs| ==> EntryTidy(st, y);
    }
    forall r | 0 <= r < |st'.ss| ensures SessionTidy(st', r) {
      assert r < |st.ss| ==> SessionTidy(st, r);
    }
    forall u | 0 <= u < |st'.jobs| ensures JobTidy(st', u) {
      assert u < |st.jobs| ==> JobTidy(st, u);
    }
  }

  lemma FinishBase(st: State, t: nat, s: nat, k: Job)
    requires Base(st) && t < |st.jobs| && s < |st.ss| && Ends(st.jobs[t], s)
    requires k == if st.jobs[t].DetachEnd? then Probe(st.jobs[t].x, st.jobs[t].on) else Done
    ensures Base(Finish(st, t, s, k))
  {
    SettleBase(st, t, s, k);
    if st.xs[st.ss[s].entry.value].status == Active {
      ExpireBase(Settle(st, t, s, k), st.ss[s].entry.value);
    }
  }

  lemma FinishTidy(st: State, t: nat, s: nat, k: Job)
    requires Base(st) && t < |st.jobs| && s < |st.ss| && Ends(st.jobs[t], s)
    requires k == if st.jobs[t].DetachEnd? then Probe(st.jobs[t].x, st.jobs[t].on) else Done
    requires Tidy(st) && Refs(Finish(st, t, s, k))
    ensures Tidy(Finish(st, t, s, k))
  {
    SettleBase(st, t, s, k);
    SettleTidy(st, t, s, k);
    assert JobBase(st, t) && SessionTidy(st, s);
    if st.xs[st.ss[s].entry.value].status == Active {
      ExpireTidy(Settle(st, t, s, k), st.ss[s].entry.value);
    }
  }

  lemma BuildRefs(st: State, t: nat, x: nat, on: Manager)
    requires Base(st) && t < |st.jobs| && st.jobs[t] == Build(x, on)
    ensures Refs(Install(st, t, x, Session(None, None, Open), Publish(x, on, true)))
  {
    assert JobBase(st, t);
  }

  lemma BuildJob(st: State, t: nat, x: nat, on: Manager, u: nat)
    requires Base(st) && t < |st.jobs| && st.jobs[t] == Build(x, on)
    requires u < |st.jobs| && Refs(Install(st, t, x, Session(None, None, Open), Publish(x, on, true)))
    ensures JobBase(Install(st, t, x, Session(None, None, Open), Publish(x, on, true)), u)
  {
    assert JobBase(st, t);
    assert JobBase(st, u);
  }

  lemma BuildBase(st: State, t: nat, x: nat, on: Manager)
    requires Base(st) && t < |st.jobs| && st.jobs[t] == Build(x, on)
    ensures Base(Install(st, t, x, Session(None, None, Open), Publish(x, on, true)))
  {
    var st' := Install(st, t, x, Session(None, None, Open), Publish(x, on, true));
    BuildRefs(st, t, x, on);
    assert JobBase(st, t);
    forall y | 0 <= y < |st'.xs| ensures EntryBase(st', y) {
      assert y < |st.xs| ==> EntryBase(st, y);
    }
    forall r | 0 <= r < |st'.ss| ensures SessionBase(st', r) {
      assert r < |st.ss| ==> SessionBase(st, r);
    }
    forall u | 0 <= u < |st'.jobs| ensures JobBase(st', u) {
      BuildJob(st, t, x, on, u);
    }
  }

  lemma BuildTidy(st: State, t: nat, x: nat, on: Manager)
    requires Base(st) && t < |st.jobs| && st.jobs[t] == Build(x, on)
    requires Tidy(st) && Refs(Install(st, t, x, Session(None, None, Open), Publish(x, on, true)))
    ensures Tidy(Install(st, t, x, Session(None, None, Open), Publish(x, on, true)))
  {
    var st' := Install(st, t, x, Session(None, None, Open), Publish(x, on, true));
    assert JobBase(st, t);
    assert JobTidy(st, t);
    forall y | 0 <= y < |st'.xs| ensures EntryTidy(st', y) {
      assert y < |st.xs| ==> EntryTidy(st, y);
    }
    forall r | 0 <= r < |st'.ss| ensures SessionTidy(st', r) {
      assert r < |st.ss| ==> SessionTidy(st, r);
    }
    forall u | 0 <= u < |st'.jobs| ensures JobTidy(st', u) {
      assert u < |st.jobs| ==> JobTidy(st, u);
    }
  }

  lemma PublishRefs(st: State, t: nat, x: nat, on: Manager, raw: bool)
    requires Base(st) && t < |st.jobs| && st.jobs[t] == Publish(x, on, raw)
    ensures Refs(Install(st, t, x, Session(Some(x), Some(on), Open), Activate(x, on, |st.ss|)))
  {
    assert JobBase(st, t);
  }

  lemma PublishJob(st: State, t: nat, x: nat, on: Manager, raw: bool, u: nat)
    requires Base(st) && t < |st.jobs| && st.jobs[t] == Publish(x, on, raw)
    requires u < |st.jobs| && Refs(Install(st, t, x, Session(Some(x), Some(on), Open), Activate(x, on, |st.ss|)))
    ensures JobBase(Install(st, t, x, Session(Some(x), Some(on), Open), Activate(x, on, |st.ss|)), u)
  {
    assert JobBase(st, t);
    assert JobBase(st, u);
  }

  lemma PublishBase(st: State, t: nat, x: nat, on: Manager, raw: bool)
    requires Base(st) && t < |st.jobs| && st.jobs[t] == Publish(x, on, raw)
    ensures Base(Install(st, t, x, Session(Some(x), Some(on), Open), Activate(x, on, |st.ss|)))
  {
    var st' := Install(st, t, x, Session(Some(x), Some(on), Open), Activate(x, on, |st.ss|));
    PublishRefs(st, t, x, on, raw);
    assert JobBase(st, t);
    forall y | 0 <= y < |st'.xs| ensures EntryBase(st', y) {
      assert y < |st.xs| ==> EntryBase(st, y);
    }
    forall r | 0 <= r < |st'.ss| ensures SessionBase(st', r) {
      assert r < |st.ss| ==> SessionBase(st, r);
    }
    forall u | 0 <= u < |st'.jobs| ensures JobBase(st', u) {
      PublishJob(st, t, x, on, raw, u);
    }
  }

  lemma PublishTidy(st: State, t: nat, x: nat, on: Manager, raw: bool)
    requires Base(st) && t < |st.jobs| && st.jobs[t] == Publish(x, on, raw)
    requires Tidy(st) && Refs(Install(st, t, x, Session(Some(x), Some(on), Open), Activate(x, on, |st.ss|)))
    ensures Tidy(Install(st, t, x, Session(Some(x), Some(on), Open), Activate(x, on, |st.ss|)))
  {
    var st' := Install(st, t, x, Session(Some(x), Some(on), Open), Activate(x, on, |st.ss|));
    assert JobBase(st, t);
    assert JobTidy(st, t);
    forall y | 0 <= y < |st'.xs| ensures EntryTidy(st', y) {
      assert y < |st.xs| ==> EntryTidy(st, y);
    }
    forall r | 0 <= r < |st'.ss| ensures SessionTidy(st', r) {
      assert r < |st.ss| ==> SessionTidy(st, r);
    }
    forall u | 0 <= u < |st'.jobs| ensures JobTidy(st', u) {
      assert u < |st.jobs| ==> JobTidy(st, u);
      assert u < |st.jobs| ==> JobBase(st, u);
    }
  }

  lemma ActivateBase(st: State, t: nat, x: nat, on: Manager, own: nat)
    requires Base(st) && t < |st.jobs| && st.jobs[t] == Activate(x, on, own)
    ensures Base(Activated(st, t, x, Register(x, on, own)))
  {
    var st' := Activated(st, t, x, Register(x, on, own));
    assert JobBase(st, t);
    forall y | 0 <= y < |st'.xs| ensures EntryBase(st', y) {
      assert y < |st.xs| ==> EntryBase(st, y);
    }
    forall r | 0 <= r < |st'.ss| ensures SessionBase(st', r) {
      assert r < |st.ss| ==> SessionBase(st, r);
    }
    forall u | 0 <= u < |st'.jobs| ensures JobBase(st', u) {
      assert u < |st.jobs| ==> JobBase(st, u);
    }
  }

  lemma ActivateTidy(st: State, t: nat, x: nat, on: Manager, own: nat)
    requires Base(st) && t < |st.jobs| && st.jobs[t] == Activate(x, on, own)
    requires Tidy(st) && Refs(Activated(st, t, x, Register(x, on, own)))
    ensures Tidy(Activated(st, t, x, Register(x, on, own)))
  {
    var st' := Activated(st, t, x, Register(x, on, own));
    assert JobBase(st, t);
    forall y | 0 <= y < |st'.xs| ensures EntryTidy(st', y) {
      assert y < |st.xs| ==> EntryTidy(st, y);
    }
    forall r | 0 <= r < |st'.ss| ensures SessionTidy(st', r) {
      assert r < |st.ss| ==> SessionTidy(st, r);
    }
    forall u | 0 <= u < |st'.jobs| ensures JobTidy(st', u) {
      assert u < |st.jobs| ==> JobTidy(st, u);
    }
  }

  lemma DispatchFailedBase(st: State, t: nat, x: nat, on: Manager)
    requires Base(st) && t < |st.jobs| && st.jobs[t] == Dispatch(x, on)
    ensures Base(Then(st, t, Done).(table := st.table - {st.xs[x].gid}))
  {
    var st' := Then(st, t, Done).(table := st.table - {st.xs[x].gid});
    assert JobBase(st, t);
    forall y | 0 <= y < |st'.xs| ensures EntryBase(st', y) {
      assert y < |st.xs| ==> EntryBase(st, y);
    }
    forall r | 0 <= r < |st'.ss| ensures SessionBase(st', r) {
      assert r < |st.ss| ==> SessionBase(st, r);
    }
    forall u | 0 <= u < |st'.jobs| ensures JobBase(st', u) {
      assert u < |st.jobs| ==> JobBase(st, u);
    }
  }

  lemma DispatchFailedTidy(st: State, t: nat, x: nat, on: Manager)
    requires Base(st) && t < |st.jobs| && st.jobs[t] == Dispatch(x, on)
    requires Tidy(st) && Refs(Then(st, t, Done).(table := st.table - {st.xs[x].gid}))
    ensures Tidy(Then(st, t, Done).(table := st.table - {st.xs[x].gid}))
  {
    var st' := Then(st, t, Done).(table := st.table - {st.xs[x].gid});
    assert JobBase(st, t);
    assert JobTidy(st, t);
    forall y | 0 <= y < |st'.xs| ensures EntryTidy(st', y) {
      assert y < |st.xs| ==> EntryTidy(st, y);
    }
    forall r | 0 <= r < |st'.ss| ensures SessionTidy(st', r) {
      assert r < |st.ss| ==> SessionTidy(st, r);
    }
    forall u | 0 <= u < |st'.jobs| ensures JobTidy(st', u) {
      assert u < |st.jobs| ==> JobTidy(st, u);
    }
  }

  lemma DetachedBase(st: State, t: nat, x: nat, on: Manager)
    requires Base(st) && t < |st.jobs| && st.jobs[t] == Detach(x, on) && Enabled(st, Go(t, true))
    requires st.ss[st.xs[x].mux.value].phase != Open
    ensures Base(Then(st, t, Probe(x, on)))
  {
    assert JobBase(st, t);
    ThenBase(st, t, Probe(x, on));
  }

  lemma DetachedTidy(st: State, t: nat, x: nat, on: Manager)
    requires Base(st) && t < |st.jobs| && st.jobs[t] == Detach(x, on) && Enabled(st, Go(t, true))
    requires st.ss[st.xs[x].mux.value].phase != Open
    requires Tidy(st) && Refs(Then(st, t, Probe(x, on)))
    ensures Tidy(Then(st, t, Probe(x, on)))
  {
    assert JobBase(st, t);
    assert SessionTidy(st, st.xs[x].mux.value);
    AllClosed(st, x, st.xs[x].mux.value);
    ThenTidy(st, t, Probe(x, on));
  }

  lemma ProbeBase(st: State, t: nat, x: nat, on: Manager, k: Job)
    requires Base(st) && t < |st.jobs|
    requires || (st.jobs[t] == Probe(x, on) && (k == Publish(x, on, false) || k == Dispatch(x, on)))
      || (st.jobs[t] == Dispatch(x, on) && k == Build(x, on))
    ensures Base(Then(st, t, k))
  {
    assert JobBase(st, t);
    ThenBase(st, t, k);
  }

  lemma ProbeTidy(st: State, t: nat, x: nat, on: Manager, k: Job)
    requires Base(st) && t < |st.jobs|
    requires || (st.jobs[t] == Probe(x, on) && (k == Publish(x, on, false) || k == Dispatch(x, on)))
      || (st.jobs[t] == Dispatch(x, on) && k == Build(x, on))
    requires Tidy(st) && Refs(Then(st, t, k))
    ensures Tidy(Then(st, t, k))
  {
    assert JobBase(st, t) && JobTidy(st, t);
    ThenTidy(st, t, k);
  }

  lemma RegisterRefs(st: State, t: nat, k: Job)
    requires Base(st) && t < |st.jobs|
    requires var o := st.jobs[t];
      || (o.Register? && (k == Undo(o.x, o.on, o.own) || k == Spawn(o.x, o.on, o.own)))
      || (o.Spawn? && k == Handle(st.xs[o.x].mux.value))
      || ((o.Undo? || o.Handle?) && k == Done)
    ensures Refs(Then(st, t, k))
  {
    assert JobBase(st, t);
  }

  lemma RegisterBase(st: State, t: nat, k: Job)
    requires Base(st) && t < |st.jobs|
    requires var o := st.jobs[t];
      || (o.Register? && (k == Undo(o.x, o.on, o.own) || k == Spawn(o.x, o.on, o.own)))
      || (o.Spawn? && k == Handle(st.xs[o.x].mux.value))
      || ((o.Undo? || o.Handle?) && k == Done)
    ensures Base(Then(st, t, k))
  {
    RegisterRefs(st, t, k);
    assert JobBase(st, t);
    ThenBase(st, t, k);
  }

  lemma RegisterTidy(st: State, t: nat, k: Job)
    requires Base(st) && t < |st.jobs|
    requires var o := st.jobs[t];
      || (o.Register? && (k == Undo(o.x, o.on, o.own) || k == Spawn(o.x, o.on, o.own)))
      || (o.Spawn? && k == Handle(st.xs[o.x].mux.value))
      || ((o.Undo? || o.Handle?) && k == Done)
    requires Tidy(st) && Refs(Then(st, t, k))
    ensures Tidy(Then(st, t, k))
  {
    assert JobBase(st, t);
    ThenTidy(st, t, k);
  }

  lemma AdvanceBase(st: State, t: nat, ok: bool)
    requires Base(st) && Enabled(st, Go(t, ok))
    ensures Base(Advance(st, t, ok))
  {
    assert JobBase(st, t);
    match st.jobs[t]
    case Detach(x, on) =>
      var s := st.xs[x].mux.value;
      if st.ss[s].phase != Open {
        DetachedBase(st, t, x, on);
      } else {
        BeginBase(st, t, s, DetachEnd(x, on, s));
      }
    case DetachEnd(x, on, s) => FinishBase(st, t, s, Probe(x, on));
    case Probe(x, on) => ProbeBase(st, t, x, on, if ok then Publish(x, on, false) else Dispatch(x, on));
    case Dispatch(x, on) =>
      if ok {
        ProbeBase(st, t, x, on, Build(x, on));
      } else {
        DispatchFailedBase(st, t, x, on);
      }
    case Build(x, on) => BuildBase(st, t, x, on);
    case Publish(x, on, raw) => PublishBase(st, t, x, on, raw);
    case Activate(x, on, own) => ActivateBase(st, t, x, on, own);
    case _ => AdvancePublishedBase(st, t, ok);
  }

  lemma AdvancePublishedBase(st: State, t: nat, ok: bool)
    requires Base(st) && Enabled(st, Go(t, ok)) && !SetsUp(st.jobs[t])
    ensures Base(Advance(st, t, ok))
  {
    match st.jobs[t]
    case Register(x, on, own) =>
      RegisterBase(st, t, if ok then Spawn(x, on, own) else Undo(x, on, own));
      if ok {
        SameBase(Then(st, t, Spawn(x, on, own)), Advance(st, t, ok));
      }
    case Spawn(x, _, _) => RegisterBase(st, t, Handle(st.xs[x].mux.value));
    case Undo(x, _, _) => CloseByBase(st, t, st.xs[x].mux.value);
    case Handle(s) => CloseByBase(st, t, s);
    case CloseEnd(s) => FinishBase(st, t, s, Done);
  }

  lemma CloseByBase(st: State, t: nat, s: nat)
    requires Base(st) && t < |st.jobs| && s < |st.ss| && (st.jobs[t].Undo? || st.jobs[t].Handle?)
    ensures Base(CloseBy(st, t, s, CloseEnd(s), Done))
  {
    if st.ss[s].parent.None? {
      SameBase(st, st.(crashed := true));
    } else if st.ss[s].phase != Open {
      RegisterBase(st, t, Done);
    } else {
      BeginBase(st, t, s, CloseEnd(s));
    }
  }

  lemma AdvanceTidy(st: State, t: nat, ok: bool)
    requires Base(st) && Tidy(st) && Enabled(st, Go(t, ok)) && Refs(Advance(st, t, ok))
    ensures Tidy(Advance(st, t, ok))
  {
    assert JobBase(st, t);
    match st.jobs[t]
    case Detach(x, on) =>
      var s := st.xs[x].mux.value;
      if st.ss[s].phase != Open {
        DetachedTidy(st, t, x, on);
      } else {
        BeginTidy(st, t, s, DetachEnd(x, on, s));
      }
    case DetachEnd(x, on, s) => FinishTidy(st, t, s, Probe(x, on));
    case Probe(x, on) => ProbeTidy(st, t, x, on, if ok then Publish(x, on, false) else Dispatch(x, on));
    case Dispatch(x, on) =>
      if ok {
        ProbeTidy(st, t, x, on, Build(x, on));
      } else {
        DispatchFailedTidy(st, t, x, on);
      }
    case Build(x, on) => BuildTidy(st, t, x, on);
    case Publish(x, on, raw) => PublishTidy(st, t, x, on, raw);
    case Activate(x, on, own) => ActivateTidy(st, t, x, on, own);
    case _ => AdvancePublishedTidy(st, t, ok);
  }

  lemma AdvancePublishedTidy(st: State, t: nat, ok: bool)
    requires Base(st) && Tidy(st) && Enabled(st, Go(t, ok)) && !SetsUp(st.jobs[t]) && Refs(Advance(st, t, ok))
    ensures Tidy(Advance(st, t, ok))
  {
    match st.jobs[t]
    case Register(x, on, own) =>
      var k := if ok then Spawn(x, on, own) else Undo(x, on, own);
      RegisterBase(st, t, k);
      RegisterTidy(st, t, k);
      if ok {
        SameTidy(Then(st, t, k), Advance(st, t, ok));
      }
    case Spawn(x, _, _) => RegisterTidy(st, t, Handle(st.xs[x].mux.value));
    case Undo(x, _, _) => CloseByTidy(st, t, st.xs[x].mux.value);
    case Handle(s) => CloseByTidy(st, t, s);
    case CloseEnd(s) => FinishTidy(st, t, s, Done);
  }

  lemma CloseByTidy(st: State, t: nat, s: nat)
    requires Base(st) && Tidy(st) && t < |st.jobs| && s < |st.ss| && (st.jobs[t].Undo? || st.jobs[t].Handle?)
    requires Refs(CloseBy(st, t, s, CloseEnd(s), Done))
    ensures Tidy(CloseBy(st, t, s, CloseEnd(s), Done))
  {
    if st.ss[s].parent.None? {
      SameTidy(st, st.(crashed := true));
    } else if st.ss[s].phase != Open {
      RegisterTidy(st, t, Done);
    } else {
      BeginTidy(st, t, s, CloseEnd(s));
    }
  }

  /** Every step keeps what holds in every run. */
  lemma StepBase(st: State, step: Step)
    requires Base(st) && Enabled(st, step)
    ensures Base(Apply(st, step))
  {
    match step
    case Attach(gid, on) =>
      if gid in st.table {
        LookupHitBase(st, gid, on);
      } else {
        LookupMissBase(st, gid, on);
      }
    case Tick(d) => SameBase(st, Apply(st, step));
    case Reap(gid) =>
      if Due(st, gid) {
        ReapBase(st, gid);
      }
    case Close(m, s) =>
      if st.ss[s].parent.None? {
        SameBase(st, st.(crashed := true));
      } else if st.ss[s].phase == Open {
        ManagerBeginsBase(st, m, s);
      }
    case Go(t, ok) => AdvanceBase(st, t, ok);
  }

  /** Every step other than the close of a session by a manager that is not its parent keeps order. */
  lemma StepTidy(st: State, step: Step)
    requires Base(st) && Tidy(st) && Enabled(st, step) && !Foreign(st, step) && Refs(Apply(st, step))
    ensures Tidy(Apply(st, step))
  {
    match step
    case Attach(gid, on) =>
      if gid in st.table {
        LookupHitTidy(st, gid, on);
      } else {
        LookupMissTidy(st, gid, on);
      }
    case Tick(d) => SameTidy(st, Apply(st, step));
    case Reap(gid) =>
      if Due(st, gid) {
        ReapTidy(st, gid);
      }
    case Close(m, s) =>
      if st.ss[s].phase == Open {
        ManagerBeginsTidy(st, m, s);
      }
    case Go(t, ok) => AdvanceTidy(st, t, ok);
  }
}
