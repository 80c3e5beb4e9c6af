/**
 * Both ends of a Mux.Cool link: the session writers that share it (common/mux/writer.go), and what
 * the demultiplexer makes of every interleaving of their frames.
 */
module MuxLink {
  import opened Bytes
  import opened Buffers
  import opened MultiBuffers
  import opened Addresses
  import opened MuxFrames
  import opened MuxServer

  // ---------------------------------------------------------------------------------------------
  // What every frame keeps
  // ---------------------------------------------------------------------------------------------

  lemma CloseValid(st: State, id: u16)
    requires st.Valid() && id in st.sessions
    ensures CloseSession(st, id).Valid()
  {
  }

  lemma DeliversValid(st: State, id: u16, body: bytes, st1: State)
    requires st.Valid() && Delivers(st, id, body, st1)
    ensures st1.Valid()
  {
    var o := st.sessions[id].outlet;
    var after := st1.outlets[o];
    var half := st.(outlets := st.outlets[o := after.(closed := st.outlets[o].closed)]);
    assert half.Valid();
    CloseValid(half, id);
  }

  /** A frame the worker goes on from leaves distinct sessions with distinct outlets. */
  lemma FrameStepValid(st: State, m: Meta, body: bytes, env: Env, st1: State)
    requires st.Valid() && Consistent(st, env) && FrameStep(st, m, body, env, st1, true)
    ensures st1.Valid()
  {
    if m.status == END {
      if st.Finds(m.id) {
        CloseValid(st, m.id);
      }
    } else if m.status == KEEP {
      if m.option.data && st.Finds(m.id) {
        DeliversValid(st, m.id, body, st1);
      }
    } else if m.status == NEW && m.globalId == NO_ID {
      PlainNewValid(st, m, body, env, st1);
    } else if m.status == NEW {
      XudpValid(st, m, body, env, st1);
    }
  }

  lemma PlainNewValid(st: State, m: Meta, body: bytes, env: Env, st1: State)
    requires st.Valid() && PlainNewStep(st, m, body, env, st1, true)
    ensures st1.Valid()
  {
    var packet := m.target.Target? && m.target.udp;
    var reg := Register(st, m.id, Outlet([], env.dispatch.value, false), packet, false);
    RegisterValid(st, m.id, Outlet([], env.dispatch.value, false), packet, false);
    if m.option.data {
      DeliversValid(reg, m.id, body, st1);
    }
  }

  lemma XudpValid(st: State, m: Meta, body: bytes, env: Env, st1: State)
    requires st.Valid() && Consistent(st, env) && XudpStep(st, m, body, env, st1, true)
    ensures st1.Valid()
  {
    if !env.xudp.Busy? {
      var d := Detach(st, env);
      assert d.Valid();
      if env.xudp.Known? && d.outlets[env.xudp.outlet].writes != 0 {
        assert forall k | k in d.sessions :: d.sessions[k].outlet != env.xudp.outlet;
      } else {
        var e := if env.xudp.Known? then
                   d.(outlets := d.outlets[env.xudp.outlet := d.outlets[env.xudp.outlet].(closed := true)])
                 else d;
        assert e.Valid();
        RegisterValid(e, m.id, Outlet(if env.dispatch.value != 0 then body else [],
                                      if env.dispatch.value != 0 then env.dispatch.value - 1 else 0, false),
                               true, true);
      }
    }
  }

  /** Session x is open and its outlet o accepts everything. */
  ghost predicate Attached(st: State, x: u16, o: nat) {
    && st.Valid() && !st.closed
    && x in st.sessions && st.sessions[x].outlet == o
    && st.outlets[o].writes < 0
  }

  /** What a frame brings to session x. */
  function Contribution(m: Meta, body: bytes, x: u16): bytes {
    if m.id == x && m.option.data then body else []
  }

  /** A frame that neither opens nor closes x, and no XUDP entry takes the outlet of x away. */
  predicate Harmless(m: Meta, env: Env, x: u16, o: nat) {
    && (m.id == x ==> m.status == KEEP)
    && !(env.xudp.Known? && env.xudp.outlet == o)
  }

  lemma KeepDelivers(st: State, m: Meta, body: bytes, st1: State, x: u16, o: nat)
    requires Attached(st, x, o) && st1.Valid() && m.status == KEEP && KeepStep(st, m, body, st1, true)
    ensures Attached(st1, x, o) && st1.sessions[x] == st.sessions[x]
    ensures st1.outlets[o].got == st.outlets[o].got + Contribution(m, body, x)
    ensures st1.outlets[o].closed == st.outlets[o].closed
  {
    assert st.outlets[o].got + [] == st.outlets[o].got;
    if m.id != x && m.option.data && st.Finds(m.id) {
      assert st.sessions[m.id].outlet != o;
    }
  }

  lemma NewElsewhere(st: State, m: Meta, body: bytes, env: Env, st1: State, x: u16, o: nat)
    requires Attached(st, x, o) && st1.Valid() && Consistent(st, env)
    requires m.status == NEW && m.id != x && FrameStep(st, m, body, env, st1, true)
    requires !(env.xudp.Known? && env.xudp.outlet == o)
    ensures Attached(st1, x, o) && st1.sessions[x] == st.sessions[x]
    ensures st1.outlets[o].got == st.outlets[o].got && st1.outlets[o].closed == st.outlets[o].closed
  {
  }

  /** Isolation: one frame gives session x its own payload and nothing else, and does not close its outlet. */
  lemma FrameDelivers(st: State, m: Meta, body: bytes, env: Env, st1: State, x: u16, o: nat)
    requires Attached(st, x, o) && Consistent(st, env) && FrameStep(st, m, body, env, st1, true)
    requires Harmless(m, env, x, o)
    ensures Attached(st1, x, o) && st1.sessions[x] == st.sessions[x]
    ensures st1.outlets[o].got == st.outlets[o].got + Contribution(m, body, x)
    ensures st1.outlets[o].closed == st.outlets[o].closed
  {
    FrameStepValid(st, m, body, env, st1);
    assert st.outlets[o].got + [] == st.outlets[o].got;
    if m.status == KEEP {
      KeepDelivers(st, m, body, st1, x, o);
    } else if m.status == NEW {
      NewElsewhere(st, m, body, env, st1, x, o);
    }
  }

  /** No session uses the outlet o any more. */
  ghost predicate Released(st: State, o: nat) {
    st.Valid() && !st.closed && o < |st.outlets| && forall k | k in st.sessions :: st.sessions[k].outlet != o
  }

  /** The End frame of session x releases its outlet, and closes it unless an XUDP entry keeps it. */
  lemma EndReleases(st: State, m: Meta, body: bytes, env: Env, st1: State, x: u16, o: nat)
    requires Attached(st, x, o) && Consistent(st, env) && FrameStep(st, m, body, env, st1, true)
    requires m.status == END && m.id == x
    ensures Released(st1, o) && st1.outlets[o].got == st.outlets[o].got
    ensures st1.outlets[o].closed == (st.outlets[o].closed || !st.sessions[x].xudp)
  {
    FrameStepValid(st, m, body, env, st1);
  }

  /** A released outlet stays as it is, open or closed, until an XUDP entry takes it up again. */
  lemma FrameSparesReleased(st: State, m: Meta, body: bytes, env: Env, st1: State, o: nat)
    requires Released(st, o) && Consistent(st, env) && FrameStep(st, m, body, env, st1, true)
    requires !(env.xudp.Known? && env.xudp.outlet == o)
    ensures Released(st1, o) && st1.outlets[o] == st.outlets[o]
  {
    FrameStepValid(st, m, body, env, st1);
    if m.status == NEW {
      if m.globalId == NO_ID {
        PlainNewSparesReleased(st, m, body, env, st1, o);
      } else {
        XudpSparesReleased(st, m, body, env, st1, o);
      }
    }
  }

  lemma PlainNewSparesReleased(st: State, m: Meta, body: bytes, env: Env, st1: State, o: nat)
    requires Released(st, o) && st1.Valid() && PlainNewStep(st, m, body, env, st1, true)
    ensures Released(st1, o) && st1.outlets[o] == st.outlets[o]
  {
  }

  lemma XudpSparesReleased(st: State, m: Meta, body: bytes, env: Env, st1: State, o: nat)
    requires Released(st, o) && st1.Valid() && Consistent(st, env) && XudpStep(st, m, body, env, st1, true)
    requires !(env.xudp.Known? && env.xudp.outlet == o)
    ensures Released(st1, o) && st1.outlets[o] == st.outlets[o]
  {
  }

  // ---------------------------------------------------------------------------------------------
  // Opening a session
  // ---------------------------------------------------------------------------------------------

  /** One frame and what happened to it. */
  datatype Event = Event(frame: Frame, env: Env, before: State, after: State)

  ghost predicate Happens(e: Event) {
    && e.frame.meta.Valid() && e.before.Valid() && Consistent(e.before, e.env)
    && FrameStep(e.before, Received(e.frame.meta, e.frame.udp), e.frame.payload, e.env, e.after, true)
  }

  /** The frame belongs to an XUDP entry whose old outlet still works, so that the flow goes on there. */
  ghost predicate Continues(e: Event)
    requires Happens(e)
  {
    && Received(e.frame.meta, e.frame.udp).globalId != NO_ID
    && e.env.xudp.Known? && e.before.outlets[e.env.xudp.outlet].writes != 0
  }

  /** The outlet of the session that the frame opens, and what that outlet had received before. */
  ghost function OpensAt(e: Event): nat
    requires Happens(e)
  {
    if Continues(e) then e.env.xudp.outlet else |e.before.outlets|
  }

  ghost function Was(e: Event): bytes
    requires Happens(e)
  {
    if Continues(e) then e.before.outlets[e.env.xudp.outlet].got else []
  }

  ghost predicate WasClosed(e: Event)
    requires Happens(e)
  {
    Continues(e) && e.before.outlets[e.env.xudp.outlet].closed
  }

  /** That outlet accepts everything, and no other frame is just setting the XUDP entry up. */
  ghost predicate Accepting(e: Event)
    requires Happens(e)
  {
    && !(Received(e.frame.meta, e.frame.udp).globalId != NO_ID && e.env.xudp.Busy?)
    && if Continues(e) then e.before.outlets[e.env.xudp.outlet].writes < 0
       else e.env.dispatch.Some? && e.env.dispatch.value < 0
  }

  /**
   * The frame that opens session x: on a fresh outlet for a plain session, for a new XUDP entry and
   * for one whose old outlet has failed, and on the old outlet for an entry that is re-attached.
   */
  lemma OpeningDelivers(e: Event, x: u16)
    requires Happens(e) && e.frame.meta.id == x && e.frame.meta.status == NEW && Accepting(e)
    requires !e.frame.meta.option.data ==> e.frame.payload == []
    ensures Attached(e.after, x, OpensAt(e)) && e.after.outlets[OpensAt(e)].got == Was(e) + e.frame.payload
    ensures e.after.sessions[x].xudp <==> Received(e.frame.meta, e.frame.udp).globalId != NO_ID
    ensures e.after.outlets[OpensAt(e)].closed <==> WasClosed(e)
  {
    var m := Received(e.frame.meta, e.frame.udp);
    FrameStepValid(e.before, m, e.frame.payload, e.env, e.after);
    assert [] + e.frame.payload == e.frame.payload;
    if m.globalId == NO_ID {
      var reg := Register(e.before, x, Outlet([], e.env.dispatch.value, false), m.target.udp, false);
      assert reg.sessions[x].outlet == |e.before.outlets|;
    }
  }

  // ---------------------------------------------------------------------------------------------
  // Runs
  // ---------------------------------------------------------------------------------------------

  /**
   * Between two frames other sessions and their outlets may be closed; x, whether its outlet is
   * closed, and what the outlets have received stay.
   */
  ghost predicate Spares(st: State, st1: State, x: u16) {
    && st1.Valid() && st1.closed == st.closed && |st1.outlets| == |st.outlets|
    && (forall o :: 0 <= o < |st.outlets| ==>
          && st1.outlets[o].got == st.outlets[o].got && st1.outlets[o].writes == st.outlets[o].writes
          && (st.outlets[o].closed ==> st1.outlets[o].closed)
          && (x in st.sessions && st.sessions[x].outlet == o ==> st1.outlets[o].closed == st.outlets[o].closed))
    && (forall k | k in st1.sessions :: k in st.sessions && st1.sessions[k] == st.sessions[k])
    && (x in st.sessions ==> x in st1.sessions)
  }

  /** A run of the worker as session x sees it. */
  ghost predicate IsRun(run: seq<Event>, x: u16) {
    && (forall i :: 0 <= i < |run| ==> Happens(run[i]))
    && (forall i :: 0 <= i < |run| - 1 ==> Spares(run[i].after, run[i + 1].before, x))
  }

  lemma RestIsRun(run: seq<Event>, x: u16)
    requires IsRun(run, x) && run != []
    ensures IsRun(run[1..], x)
  {
    var rest := run[1..];
    assert forall i :: 0 <= i < |rest| ==> rest[i] == run[i + 1];
  }

  /** No frame of the run takes the outlet o up for an XUDP entry. */
  ghost predicate LeftAlone(run: seq<Event>, o: nat) {
    forall i :: 0 <= i < |run| && run[i].env.xudp.Known? ==> run[i].env.xudp.outlet != o
  }

  lemma RestLeftAlone(run: seq<Event>, o: nat)
    requires LeftAlone(run, o) && run != []
    ensures LeftAlone(run[1..], o)
  {
    assert forall i :: 0 <= i < |run[1..]| ==> run[1..][i] == run[i + 1];
  }

  /** The frames of session x among the frames of a link. */
  function Of(fs: seq<Frame>, x: u16): seq<Frame> {
    if fs == [] then []
    else if fs[0].meta.id == x then [fs[0]] + Of(fs[1..], x)
    else Of(fs[1..], x)
  }

  function FramesOf(run: seq<Event>): seq<Frame> {
    seq(|run|, i requires 0 <= i < |run| => run[i].frame)
  }

  function Payloads(fs: seq<Frame>): bytes {
    if fs == [] then [] else fs[0].payload + Payloads(fs[1..])
  }

  /** Keep frames, the last of them possibly followed by the End frame; without data no payload. */
  ghost predicate Following(fs: seq<Frame>)
    decreases |fs|
  {
    fs == [] ||
    (&& (fs[0].meta.status == KEEP || (fs[0].meta.status == END && |fs| == 1 && fs[0].payload == []))
     && (!fs[0].meta.option.data ==> fs[0].payload == [])
     && Following(fs[1..]))
  }

  /** Over any run a released outlet keeps what it has received, and stays closed if it was. */
  lemma {:induction false} RunSparesReleased(run: seq<Event>, x: u16, o: nat)
    requires run != [] && IsRun(run, x) && LeftAlone(run, o) && Released(run[0].before, o)
    ensures o < |run[|run| - 1].after.outlets|
    ensures run[|run| - 1].after.outlets[o].got == run[0].before.outlets[o].got
    ensures run[0].before.outlets[o].closed ==> run[|run| - 1].after.outlets[o].closed
    decreases |run|
  {
    var e, rest := run[0], run[1..];
    FrameSparesReleased(e.before, Received(e.frame.meta, e.frame.udp), e.frame.payload, e.env, e.after, o);
    if rest != [] {
      RestIsRun(run, x);
      RestLeftAlone(run, o);
      assert Spares(run[0].after, run[1].before, x) && rest[0] == run[1];
      RunSparesReleased(rest, x, o);
    }
  }

  /** Any run delivers to an open session exactly the payload of its own frames, in order. */
  lemma {:induction false} RunDelivers(run: seq<Event>, x: u16, o: nat)
    requires run != [] && IsRun(run, x) && LeftAlone(run, o)
    requires Attached(run[0].before, x, o) && Following(Of(FramesOf(run), x))
    ensures o < |run[|run| - 1].after.outlets|
    ensures run[|run| - 1].after.outlets[o].got == run[0].before.outlets[o].got + Payloads(Of(FramesOf(run), x))
    decreases |run|
  {
    var e, rest := run[0], run[1..];
    var mine, got := Of(FramesOf(rest), x), e.before.outlets[o].got;
    var first := if e.frame.meta.id == x then e.frame.payload else [];
    OfFirst(run, x);
    FirstDelivers(e, x, o, mine);
    Assoc(got, first, Payloads(mine));
    assert (got + first) + [] == got + first;
    if rest != [] {
      RestIsRun(run, x);
      RestLeftAlone(run, o);
      assert Spares(run[0].after, run[1].before, x) && rest[0] == run[1];
      if e.frame.meta.id == x && e.frame.meta.status == END {
        RunSparesReleased(rest, x, o);
      } else {
        RunDelivers(rest, x, o);
      }
    }
  }

  /** The frames of x, the first frame of the run aside. */
  lemma OfFirst(run: seq<Event>, x: u16)
    requires run != [] && Following(Of(FramesOf(run), x))
    ensures var f, mine := run[0].frame, Of(FramesOf(run[1..]), x);
      && Of(FramesOf(run), x) == (if f.meta.id == x then [f] + mine else mine)
      && Payloads(Of(FramesOf(run), x)) == (if f.meta.id == x then f.payload else []) + Payloads(mine)
      && Following(mine)
  {
    var f, mine := run[0].frame, Of(FramesOf(run[1..]), x);
    assert FramesOf(run)[0] == f && FramesOf(run)[1..] == FramesOf(run[1..]);
    assert ([f] + mine)[0] == f && ([f] + mine)[1..] == mine;
    assert [] + Payloads(mine) == Payloads(mine);
  }

  lemma FirstDelivers(e: Event, x: u16, o: nat, mine: seq<Frame>)
    requires Happens(e) && Attached(e.before, x, o) && !(e.env.xudp.Known? && e.env.xudp.outlet == o)
    requires e.frame.meta.id == x ==> Following([e.frame] + mine)
    ensures if e.frame.meta.id == x && e.frame.meta.status == END then Released(e.after, o) && mine == []
            else Attached(e.after, x, o) && e.after.sessions[x] == e.before.sessions[x]
    ensures var ends := e.frame.meta.id == x && e.frame.meta.status == END && !e.before.sessions[x].xudp;
            e.after.outlets[o].closed == (e.before.outlets[o].closed || ends)
    ensures e.after.outlets[o].got == e.before.outlets[o].got + (if e.frame.meta.id == x then e.frame.payload else [])
  {
    var m := Received(e.frame.meta, e.frame.udp);
    assert e.before.outlets[o].got + [] == e.before.outlets[o].got;
    if m.id == x {
      assert ([e.frame] + mine)[0] == e.frame && ([e.frame] + mine)[1..] == mine;
    }
    if m.id == x && m.status == END {
      EndReleases(e.before, m, e.frame.payload, e.env, e.after, x, o);
    } else {
      FrameDelivers(e.before, m, e.frame.payload, e.env, e.after, x, o);
    }
  }

  predicate EndsIn(fs: seq<Frame>) {
    fs != [] && fs[|fs| - 1].meta.status == END
  }

  lemma EndsInRest(f: Frame, fs: seq<Frame>)
    requires Following([f] + fs)
    ensures Following(fs) && (EndsIn([f] + fs) <==> if f.meta.status == END then fs == [] else EndsIn(fs))
    ensures f.meta.status == END ==> fs == []
  {
    assert ([f] + fs)[0] == f && ([f] + fs)[1..] == fs;
  }

  /**
   * Over such a run the session stays, and its outlet stays open or closed, until its End frame; from
   * then on the outlet is closed, unless an XUDP entry keeps it.
   */
  lemma {:induction false} RunCloses(run: seq<Event>, x: u16, o: nat)
    requires run != [] && IsRun(run, x) && LeftAlone(run, o)
    requires Attached(run[0].before, x, o) && Following(Of(FramesOf(run), x))
    ensures Closes(run[0].before, run[|run| - 1].after, x, o, EndsIn(Of(FramesOf(run), x)))
    decreases |run|
  {
    var e, rest := run[0], run[1..];
    var mine := Of(FramesOf(rest), x);
    OfFirst(run, x);
    if e.frame.meta.id == x {
      EndsInRest(e.frame, mine);
    }
    if rest == [] {
      FirstDelivers(e, x, o, mine);
    } else {
      RestIsRun(run, x);
      RestLeftAlone(run, o);
      NextCloses(e, run[1].before, x, o, mine);
      if e.frame.meta.id == x && e.frame.meta.status == END {
        RunSparesReleased(rest, x, o);
      } else {
        RunCloses(rest, x, o);
        ClosesSince(e.before, rest[0].before, run[|run| - 1].after, x, o, EndsIn(mine));
      }
    }
  }

  /** A frame, and what others do before the next one. */
  lemma NextCloses(e: Event, next: State, x: u16, o: nat, mine: seq<Frame>)
    requires Happens(e) && Attached(e.before, x, o) && !(e.env.xudp.Known? && e.env.xudp.outlet == o)
    requires (e.frame.meta.id == x ==> Following([e.frame] + mine)) && Spares(e.after, next, x)
    ensures if e.frame.meta.id == x && e.frame.meta.status == END
            then Released(next, o) && (!e.before.sessions[x].xudp ==> next.outlets[o].closed)
            else Attached(next, x, o) && next.sessions[x] == e.before.sessions[x]
                 && next.outlets[o].closed == e.before.outlets[o].closed
  {
    FirstDelivers(e, x, o, mine);
  }

  /** From one state to another with an End frame of x in between, or without one. */
  ghost predicate Closes(first: State, last: State, x: u16, o: nat, ended: bool)
    requires Attached(first, x, o)
  {
    if ended then o < |last.outlets| && (!first.sessions[x].xudp ==> last.outlets[o].closed)
    else Attached(last, x, o) && last.outlets[o].closed == first.outlets[o].closed
  }

  lemma ClosesSince(first: State, next: State, last: State, x: u16, o: nat, ended: bool)
    requires Attached(first, x, o) && Attached(next, x, o) && Closes(next, last, x, o, ended)
    requires next.sessions[x] == first.sessions[x] && next.outlets[o].closed == first.outlets[o].closed
    ensures Closes(first, last, x, o, ended)
  {
  }

  /**
   * From the frame on that opens session x, the outlet of x receives exactly the payload of the
   * frames of x, in order, whatever the frames of other sessions do. At the end the outlet of a plain
   * session is closed exactly if there was an End frame of x; before that an XUDP session leaves its
   * outlet open or closed as it found it.
   */
  lemma SessionDelivers(run: seq<Event>, x: u16)
    requires run != [] && IsRun(run, x) && run[0].frame.meta.id == x && run[0].frame.meta.status == NEW
    requires Accepting(run[0]) && LeftAlone(run[1..], OpensAt(run[0])) && Following(Of(FramesOf(run[1..]), x))
    requires !run[0].frame.meta.option.data ==> run[0].frame.payload == []
    ensures var o := OpensAt(run[0]); var last := run[|run| - 1].after;
      && o < |last.outlets|
      && last.outlets[o].got == Was(run[0]) + (run[0].frame.payload + Payloads(Of(FramesOf(run[1..]), x)))
    ensures ClosedInTheEnd(run[0], run[|run| - 1].after, x, EndsIn(Of(FramesOf(run[1..]), x)))
  {
    var o, rest := OpensAt(run[0]), run[1..];
    OpeningDelivers(run[0], x);
    if rest == [] {
      assert run[0].frame.payload + [] == run[0].frame.payload;
    } else {
      RestIsRun(run, x);
      assert Spares(run[0].after, run[1].before, x) && rest[0] == run[1];
      RunDelivers(rest, x, o);
      RunCloses(rest, x, o);
      Assoc(Was(run[0]), run[0].frame.payload, Payloads(Of(FramesOf(rest), x)));
    }
  }

  /** The outlet of the session that e opened, in the state st, after an End frame or without one. */
  ghost predicate ClosedInTheEnd(e: Event, st: State, x: u16, ended: bool)
    requires Happens(e)
  {
    var o, plain := OpensAt(e), Received(e.frame.meta, e.frame.udp).globalId == NO_ID;
    && o < |st.outlets|
    && (plain ==> (st.outlets[o].closed <==> ended))
    && (!ended ==> Attached(st, x, o) && (st.outlets[o].closed <==> WasClosed(e)))
  }

  // ---------------------------------------------------------------------------------------------
  // When an outlet is closed, whether its writes fail or not
  // ---------------------------------------------------------------------------------------------

  /** Session x writes to the outlet o. */
  ghost predicate Uses(st: State, x: u16, o: nat) {
    st.Valid() && !st.closed && x in st.sessions && st.sessions[x].outlet == o
  }

  /** The frame is the End frame of x, or brings x data that does not arrive whole. */
  predicate Shuts(m: Meta, body: bytes, before: State, after: State, x: u16, o: nat)
    requires o < |before.outlets|
  {
    && m.id == x
    && (|| m.status == END
        || (m.status == KEEP && m.option.data && o < |after.outlets|
            && after.outlets[o].got != before.outlets[o].got + body))
  }

  lemma KeepShuts(st: State, m: Meta, body: bytes, st1: State, x: u16, o: nat)
    requires Uses(st, x, o) && st1.Valid() && m.status == KEEP && KeepStep(st, m, body, st1, true)
    ensures var s := st.sessions[x];
      if Shuts(m, body, st, st1, x, o) then
        Released(st1, o) && x !in st1.sessions && st1.outlets[o].closed == (st.outlets[o].closed || !s.xudp)
      else Uses(st1, x, o) && st1.sessions[x] == s && st1.outlets[o].closed == st.outlets[o].closed
  {
    if m.option.data && st.Finds(m.id) {
      if m.id == x {
        ShutsAtX(st, body, st1, x, o);
      } else {
        assert st.sessions[m.id].outlet != o;
      }
    }
  }

  lemma ShutsAtX(st: State, body: bytes, st1: State, x: u16, o: nat)
    requires Uses(st, x, o) && st1.Valid() && Delivers(st, x, body, st1)
    ensures var s := st.sessions[x];
      if st1.outlets[o].got != st.outlets[o].got + body then
        Released(st1, o) && x !in st1.sessions && st1.outlets[o].closed == (st.outlets[o].closed || !s.xudp)
      else Uses(st1, x, o) && st1.sessions[x] == s && st1.outlets[o].closed == st.outlets[o].closed
  {
  }

  lemma NewSpares(st: State, m: Meta, body: bytes, env: Env, st1: State, x: u16, o: nat)
    requires Uses(st, x, o) && st1.Valid() && Consistent(st, env)
    requires m.status == NEW && m.id != x && FrameStep(st, m, body, env, st1, true)
    requires !(env.xudp.Known? && env.xudp.outlet == o)
    ensures Uses(st1, x, o) && st1.sessions[x] == st.sessions[x] && st1.outlets[o].closed == st.outlets[o].closed
  {
  }

  /**
   * One frame closes the outlet of session x exactly if it is the End frame of x or brings x data
   * that does not arrive whole, and an XUDP entry does not keep it. Then x is gone from the table;
   * otherwise it stays. Frames of other sessions do neither.
   */
  lemma FrameShuts(st: State, m: Meta, body: bytes, env: Env, st1: State, x: u16, o: nat)
    requires Uses(st, x, o) && Consistent(st, env) && FrameStep(st, m, body, env, st1, true)
    requires (m.id == x ==> m.status != NEW) && !(env.xudp.Known? && env.xudp.outlet == o)
    ensures var s := st.sessions[x];
      if Shuts(m, body, st, st1, x, o) then
        Released(st1, o) && x !in st1.sessions && st1.outlets[o].closed == (st.outlets[o].closed || !s.xudp)
      else Uses(st1, x, o) && st1.sessions[x] == s && st1.outlets[o].closed == st.outlets[o].closed
  {
    FrameStepValid(st, m, body, env, st1);
    if m.status == KEEP {
      KeepShuts(st, m, body, st1, x, o);
    } else if m.status == NEW {
      NewSpares(st, m, body, env, st1, x, o);
    }
  }

  ghost predicate ShutsAt(e: Event, x: u16, o: nat) {
    e.frame.meta.Valid() && o < |e.before.outlets| &&
    Shuts(Received(e.frame.meta, e.frame.udp), e.frame.payload, e.before, e.after, x, o)
  }

  ghost predicate NotReopened(run: seq<Event>, x: u16) {
    forall i :: 0 <= i < |run| && run[i].frame.meta.id == x ==> run[i].frame.meta.status != NEW
  }

  /**
   * Over any run, whether writes fail or not: the open outlet of a plain session is closed exactly if
   * one of the frames was the End frame of the session or brought it data that did not arrive whole.
   */
  lemma RunShuts(run: seq<Event>, x: u16, o: nat)
    requires run != [] && IsRun(run, x) && LeftAlone(run, o) && NotReopened(run, x)
    requires OpenPlain(run[0].before, x, o)
    ensures var last := run[|run| - 1].after;
      o < |last.outlets| && (last.outlets[o].closed <==> exists i :: 0 <= i < |run| && ShutsAt(run[i], x, o))
  {
    ShutsUpTo(run, x, o, |run|);
  }

  ghost predicate OpenPlain(st: State, x: u16, o: nat) {
    Uses(st, x, o) && !st.sessions[x].xudp && !st.outlets[o].closed
  }

  /** One of the first n frames closes the outlet. */
  ghost predicate ShutBefore(run: seq<Event>, x: u16, o: nat, n: nat) {
    exists i :: 0 <= i < n && i < |run| && ShutsAt(run[i], x, o)
  }

  /** The outlet is closed for good, or open and still in use. */
  ghost predicate ShutOrOpen(st: State, x: u16, o: nat, shut: bool) {
    if shut then Released(st, o) && st.outlets[o].closed else OpenPlain(st, x, o)
  }

  lemma EventShuts(e: Event, x: u16, o: nat)
    requires Happens(e) && OpenPlain(e.before, x, o) && !(e.env.xudp.Known? && e.env.xudp.outlet == o)
    requires e.frame.meta.id == x ==> e.frame.meta.status != NEW
    ensures ShutOrOpen(e.after, x, o, ShutsAt(e, x, o))
  {
    FrameShuts(e.before, Received(e.frame.meta, e.frame.udp), e.frame.payload, e.env, e.after, x, o);
  }

  lemma NextShuts(prev: State, e: Event, x: u16, o: nat, shut: bool)
    requires ShutOrOpen(prev, x, o, shut) && Spares(prev, e.before, x)
    requires Happens(e) && !(e.env.xudp.Known? && e.env.xudp.outlet == o)
    requires e.frame.meta.id == x ==> e.frame.meta.status != NEW
    ensures ShutOrOpen(e.after, x, o, shut || ShutsAt(e, x, o))
  {
    if shut {
      FrameSparesReleased(e.before, Received(e.frame.meta, e.frame.udp), e.frame.payload, e.env, e.after, o);
    } else {
      EventShuts(e, x, o);
    }
  }

  lemma {:induction false} ShutsUpTo(run: seq<Event>, x: u16, o: nat, n: nat)
    requires 0 < n <= |run| && IsRun(run, x) && LeftAlone(run, o) && NotReopened(run, x)
    requires OpenPlain(run[0].before, x, o)
    ensures ShutOrOpen(run[n - 1].after, x, o, ShutBefore(run, x, o, n))
  {
    var e := run[n - 1];
    ShutBeforeNext(run, x, o, n);
    if n == 1 {
      EventShuts(e, x, o);
    } else {
      ShutsUpTo(run, x, o, n - 1);
      assert Spares(run[n - 2].after, run[n - 2 + 1].before, x);
      NextShuts(run[n - 2].after, e, x, o, ShutBefore(run, x, o, n - 1));
    }
  }

  lemma ShutBeforeNext(run: seq<Event>, x: u16, o: nat, n: nat)
    requires 0 < n <= |run|
    ensures ShutBefore(run, x, o, n) <==> ShutBefore(run, x, o, n - 1) || ShutsAt(run[n - 1], x, o)
    ensures n == 1 ==> !ShutBefore(run, x, o, n - 1)
  {
  }

  /** A plain session is opened on a fresh outlet, which is open if the data of the frame arrived whole. */
  lemma OpeningShuts(e: Event, x: u16)
    requires Happens(e) && e.frame.meta.id == x && e.frame.meta.status == NEW
    requires Received(e.frame.meta, e.frame.udp).globalId == NO_ID
    requires !e.frame.meta.option.data ==> e.frame.payload == []
    ensures var o, st := |e.before.outlets|, e.after;
      && o < |st.outlets| && (st.outlets[o].closed <==> st.outlets[o].got != e.frame.payload)
      && if st.outlets[o].closed then Released(st, o) && x !in st.sessions else Uses(st, x, o) && !st.sessions[x].xudp
  {
    var m, o := Received(e.frame.meta, e.frame.udp), |e.before.outlets|;
    FrameStepValid(e.before, m, e.frame.payload, e.env, e.after);
    var empty := Outlet([], e.env.dispatch.value, false);
    var reg := Register(e.before, x, empty, m.target.udp, false);
    RegisterValid(e.before, x, empty, m.target.udp, false);
    assert Uses(reg, x, o) && [] + e.frame.payload == e.frame.payload;
    if m.option.data {
      ShutsAtX(reg, e.frame.payload, e.after, x, o);
    }
  }

  /**
   * The whole life of a plain session whose id is not used again, in any run from its first frame on:
   * its outlet is open until the End frame of the session or the first frame of it whose data does not
   * arrive whole, and closed from then on.
   */
  lemma SessionShuts(run: seq<Event>, x: u16)
    requires run != [] && IsRun(run, x) && run[0].frame.meta.id == x && run[0].frame.meta.status == NEW
    requires Received(run[0].frame.meta, run[0].frame.udp).globalId == NO_ID
    requires !run[0].frame.meta.option.data ==> run[0].frame.payload == []
    requires LeftAlone(run[1..], |run[0].before.outlets|) && NotReopened(run[1..], x)
    ensures var o, last := |run[0].before.outlets|, run[|run| - 1].after;
      && o < |run[0].after.outlets| && o < |last.outlets|
      && (last.outlets[o].closed <==>
            || run[0].after.outlets[o].got != run[0].frame.payload
            || exists i :: 0 < i < |run| && ShutsAt(run[i], x, o))
  {
    var o, rest := |run[0].before.outlets|, run[1..];
    OpeningShuts(run[0], x);
    if rest != [] {
      RestIsRun(run, x);
      assert forall i :: 0 <= i < |rest| ==> rest[i] == run[i + 1];
      assert Spares(run[0].after, run[1].before, x);
      if run[0].after.outlets[o].closed {
        RunSparesReleased(rest, x, o);
      } else {
        RunShuts(rest, x, o);
        if i :| 0 < i < |run| && ShutsAt(run[i], x, o) {
          assert ShutsAt(rest[i - 1], x, o);
        }
        if i :| 0 <= i < |rest| && ShutsAt(rest[i], x, o) {
          assert ShutsAt(run[i + 1], x, o);
        }
      }
    }
  }

  // ---------------------------------------------------------------------------------------------
  // The writers
  // ---------------------------------------------------------------------------------------------

  /** A data buffer and the UDP address it carries. */
  datatype Packet = Packet(data: bytes, udp: UdpTag)

  ghost predicate Writable(c: Codec, mb: seq<Packet>) {
    forall i :: 0 <= i < |mb| ==>
      |mb[i].data| <= BUF_SIZE && (mb[i].udp.Some? ==> Canonical(c, mb[i].udp.value.0))
  }

  function Datas(mb: seq<Packet>): MultiBuffer {
    seq(|mb|, i requires 0 <= i < |mb| => mb[i].data)
  }

  lemma DatasFirst(mb: seq<Packet>)
    requires mb != []
    ensures Flatten(Datas(mb)) == mb[0].data + Flatten(Datas(mb[1..]))
    ensures Flatten([mb[0].data]) == mb[0].data
  {
    assert Datas(mb)[1..] == Datas(mb[1..]);
    assert [mb[0].data][1..] == [];
  }

  lemma {:induction false} PayloadsSnoc(fs: seq<Frame>, f: Frame)
    ensures Payloads(fs + [f]) == Payloads(fs) + f.payload
  {
    if fs == [] {
      assert fs + [f] == [f] && [f][1..] == [];
      assert f.payload + [] == f.payload;
    } else {
      assert (fs + [f])[0] == fs[0] && (fs + [f])[1..] == fs[1..] + [f];
      PayloadsSnoc(fs[1..], f);
      Assoc(fs[0].payload, Payloads(fs[1..]), f.payload);
    }
  }

  ghost function Encoder(c: Codec): Frame -> Option<bytes> {
    (f: Frame) => if f.Valid(c) then Some(EncodeFrame(c, f)) else None
  }

  ghost predicate Images<A, B>(encode: A -> Option<B>, a: seq<A>, b: seq<B>) {
    |a| == |b| && forall i :: 0 <= i < |a| ==> encode(a[i]) == Some(b[i])
  }

  lemma ImagesAppend<A, B>(encode: A -> Option<B>, a: seq<A>, b: seq<B>, a1: seq<A>, b1: seq<B>)
    requires Images(encode, a, b) && Images(encode, a1, b1)
    ensures Images(encode, a + a1, b + b1)
  {
  }

  /** One write on the link per frame. */
  ghost predicate OnWire(c: Codec, wire: seq<bytes>, fs: seq<Frame>) {
    Images(Encoder(c), fs, wire)
  }

  /** What a writer was made for: its session, and the target and Global ID it announces. */
  datatype Flow = Flow(id: u16, dest: Target, globalId: GlobalId)

  predicate Belongs(m: Meta, flow: Flow) {
    m.id == flow.id && m.target == flow.dest && m.globalId == flow.globalId
  }

  /** The frames of one writer: New first unless it follows up, then Keep, always for its own flow. */
  ghost predicate Sequenced(fs: seq<Frame>, flow: Flow, followup: bool) {
    forall i :: 0 <= i < |fs| ==>
      Belongs(fs[i].meta, flow) && fs[i].meta.status == if i == 0 && !followup then NEW else KEEP
  }

  /** One more frame, and total bytes of payload still to come. */
  lemma OneMore(
    c: Codec, wire: seq<bytes>, fs: seq<Frame>, w: bytes, f: Frame, flow: Flow, followup: bool,
    before: bytes, rest: bytes)
    requires OnWire(c, wire, fs) && Sequenced(fs, flow, followup)
    requires f.Valid(c) && w == EncodeFrame(c, f)
    requires Belongs(f.meta, flow) && f.meta.status == if fs == [] && !followup then NEW else KEEP
    requires before == f.payload + rest
    ensures OnWire(c, wire + [w], fs + [f]) && Sequenced(fs + [f], flow, followup)
    ensures Payloads(fs) + before == Payloads(fs + [f]) + rest
  {
    PayloadsSnoc(fs, f);
    Assoc(Payloads(fs), f.payload, rest);
    assert Images(Encoder(c), [f], [w]);
    ImagesAppend(Encoder(c), fs, wire, [f], [w]);
    assert forall i :: 0 <= i < |fs + [f]| ==> (fs + [f])[i] == if i < |fs| then fs[i] else f;
  }

  /** How many buffers the next frame takes: one for packets, else all the whole ones that 8192 bytes hold. */
  ghost predicate Takes(mb: seq<Packet>, packet: bool, k: nat) {
    0 < k <= |mb| && if packet then k == 1 else WholeBuffers(Datas(mb), 8192, k)
  }

  /** The first frame for mb: the data of its first k buffers, and the address of a buffer that is alone. */
  ghost predicate FrameFor(f: Frame, mb: seq<Packet>, packet: bool, k: nat) {
    && Takes(mb, packet, k) && f.meta.option.data
    && f.payload == Flatten(Datas(mb[..k])) && f.udp == if k == 1 then mb[0].udp else None
  }

  /** The frames fs carry mb, up to where only empty buffers are left. */
  ghost predicate Framed(fs: seq<Frame>, mb: seq<Packet>, packet: bool)
    decreases |fs|
  {
    if fs == [] then IsEmpty(Datas(mb))
    else !IsEmpty(Datas(mb)) && exists k: nat :: FrameFor(fs[0], mb, packet, k) && Framed(fs[1..], mb[k..], packet)
  }

  /** The frames fs carry mb up to where left begins. */
  ghost predicate Leads(fs: seq<Frame>, left: seq<Packet>, mb: seq<Packet>, packet: bool) {
    forall gs :: Framed(gs, left, packet) ==> Framed(fs + gs, mb, packet)
  }

  lemma LeadsFrom(mb: seq<Packet>, packet: bool)
    ensures Leads([], mb, mb, packet)
  {
    assert forall gs: seq<Frame> :: [] + gs == gs;
  }

  lemma LeadsTo(fs: seq<Frame>, left: seq<Packet>, mb: seq<Packet>, packet: bool)
    requires Leads(fs, left, mb, packet) && IsEmpty(Datas(left))
    ensures Framed(fs, mb, packet)
  {
    assert Framed([], left, packet) && fs + [] == fs;
  }

  lemma FramedMore(fs: seq<Frame>, f: Frame, mb: seq<Packet>, left: seq<Packet>, packet: bool, k: nat)
    requires FrameFor(f, left, packet, k) && !IsEmpty(Datas(left)) && Leads(fs, left, mb, packet)
    ensures Leads(fs + [f], left[k..], mb, packet)
  {
    forall gs | Framed(gs, left[k..], packet) ensures Framed((fs + [f]) + gs, mb, packet) {
      assert ([f] + gs)[0] == f && ([f] + gs)[1..] == gs;
      assert Framed([f] + gs, left, packet);
      assert (fs + [f]) + gs == fs + ([f] + gs);
    }
  }

  lemma DatasSplit(mb: seq<Packet>, k: nat)
    requires k <= |mb|
    ensures Datas(mb[..k]) == Datas(mb)[..k] && Datas(mb[k..]) == Datas(mb)[k..]
    ensures Flatten(Datas(mb)) == Flatten(Datas(mb[..k])) + Flatten(Datas(mb[k..]))
  {
    FlattenSplit(Datas(mb), k);
  }

  /** Metadata, length and data go out in a single write. */
  method WriteMetaWithFrame(c: Codec, m: Meta, udp: UdpTag, data: MultiBuffer) returns (wire: bytes, ok: bool)
    requires c.portFirst && m.Valid() && m.option.data && |Flatten(data)| <= BUF_SIZE
    ensures ok == MetaBody(c, m, udp).Some?
    ensures ok ==> wire == MetaFrame(c, m, udp) + Frame(m, udp, Flatten(data)).Data()
  {
    wire := [];
    var frame := new Buffer();
    ok := WriteTo(c, m, udp, frame);
    if ok {
      MetaBodyShort(c, m, udp);
      assert |frame.Contents()| <= 275;
      frame.WriteAll(PutU16(|Flatten(data)|));
      wire := frame.v[frame.start..frame.end] + Flatten(data);
      Assoc(MetaFrame(c, m, udp), PutU16(|Flatten(data)|), Flatten(data));
    }
  }

  class Writer {
    const codec: Codec
    const id: u16
    const dest: Target
    const packet: bool
    const globalId: GlobalId
    var followup: bool
    var hasError: bool

    /** NewWriter: the first frame announces the target. */
    constructor (codec: Codec, id: u16, dest: Target, packet: bool, globalId: GlobalId)
      ensures this.codec == codec && this.id == id && this.dest == dest
      ensures this.packet == packet && this.globalId == globalId
      ensures !followup && !hasError
    {
      this.codec, this.id, this.dest := codec, id, dest;
      this.packet, this.globalId := packet, globalId;
      followup, hasError := false, false;
    }

    /** NewResponseWriter: the session is known to the peer. */
    constructor Response(codec: Codec, id: u16, packet: bool)
      ensures this.codec == codec && this.id == id && this.packet == packet
      ensures followup && !hasError
    {
      this.codec, this.id, this.dest := codec, id, NoTarget;
      this.packet, this.globalId := packet, NO_ID;
      followup, hasError := true, false;
    }

    function Announced(): Flow {
      Flow(id, dest, globalId)
    }

    /** The target can be announced, if it still has to be. */
    ghost predicate Announceable()
      reads this
    {
      && codec.Valid() && codec.portFirst
      && (!followup ==> dest.Target? && Canonical(codec, dest.address))
    }

    /** The destination and the addresses of the buffers can be written. */
    ghost predicate Ready(mb: seq<Packet>)
      reads this
    {
      Announceable() && Writable(codec, mb)
    }

    method NextMeta(data: bool) returns (m: Meta)
      requires !followup ==> dest.Target?
      modifies this`followup
      ensures followup
      ensures m == Meta(id, if old(followup) then KEEP else NEW, Option8(data, false, 0), dest, globalId)
    {
      m := Meta(id, KEEP, Option8(data, false, 0), dest, globalId);
      if !followup {
        followup := true;
        m := m.(status := NEW);
      }
    }

    /** One data frame. */
    method WriteData(data: MultiBuffer, udp: UdpTag) returns (wire: bytes, ghost f: Frame)
      requires Announceable()
      requires udp.Some? ==> Canonical(codec, udp.value.0)
      requires |Flatten(data)| <= BUF_SIZE
      modifies this`followup
      ensures followup
      ensures f.Valid(codec) && wire == EncodeFrame(codec, f)
      ensures Belongs(f.meta, Announced()) && f.meta.status == (if old(followup) then KEEP else NEW)
      ensures f.meta.option.data && f.payload == Flatten(data) && f.udp == udp
    {
      var m := NextMeta(true);
      f := Frame(m, udp, Flatten(data));
      MetaRoundTrip(codec, m, udp);
      var ok;
      wire, ok := WriteMetaWithFrame(codec, m, udp, data);
    }

    /** An empty write becomes a frame without data. */
    method WriteMetaOnly() returns (wire: bytes, ghost f: Frame)
      requires Announceable()
      modifies this`followup
      ensures followup
      ensures f.Valid(codec) && wire == EncodeFrame(codec, f)
      ensures Belongs(f.meta, Announced()) && f.meta.status == (if old(followup) then KEEP else NEW)
      ensures !f.meta.option.data && f.payload == [] && f.udp == None
    {
      var m := NextMeta(false);
      f := Frame(m, None, []);
      MetaRoundTrip(codec, m, None);
      var b := new Buffer();
      var ok := WriteTo(codec, m, None, b);
      wire := b.v[b.start..b.end];
      assert MetaFrame(codec, m, None) + [] == MetaFrame(codec, m, None);
    }

    /** How many of the buffers go into the next frame. */
    method TakeBuffers(mb: seq<Packet>) returns (k: nat)
      requires mb != [] && Writable(codec, mb)
      ensures Takes(mb, packet, k) && |Flatten(Datas(mb[..k]))| <= BUF_SIZE
    {
      if packet {
        DatasFirst(mb);
        assert Datas(mb[..1]) == [mb[0].data];
        return 1;
      }
      var rest, chunk := SplitSize(Datas(mb), 8 * 1024);
      k := |chunk|;
      TakesSomething(Datas(mb), 8192, k);
      DatasSplit(mb, k);
    }

    /** Writes mb as frames of at most 8192 bytes, or one frame per buffer for packets. */
    method WriteMultiBuffer(mb: seq<Packet>) returns (wire: seq<bytes>, ghost fs: seq<Frame>)
      requires Ready(mb)
      modifies this`followup
      ensures followup && fs != []
      ensures OnWire(codec, wire, fs) && Sequenced(fs, Announced(), old(followup))
      ensures Payloads(fs) == Flatten(Datas(mb))
      ensures if Flatten(Datas(mb)) == [] then |fs| == 1 && !fs[0].meta.option.data else Framed(fs, mb, packet)
    {
      FlattenEmpty(Datas(mb));
      if IsEmpty(Datas(mb)) {
        var w, f := WriteMetaOnly();
        assert Payloads([f]) == f.payload + Payloads([f][1..]);
        return [w], [f];
      }
      wire, fs := WriteFrames(mb);
    }

    method WriteFrames(mb: seq<Packet>) returns (wire: seq<bytes>, ghost fs: seq<Frame>)
      requires Ready(mb) && Flatten(Datas(mb)) != []
      modifies this`followup
      ensures followup && fs != []
      ensures OnWire(codec, wire, fs) && Sequenced(fs, Announced(), old(followup))
      ensures Payloads(fs) == Flatten(Datas(mb)) && Framed(fs, mb, packet)
    {
      var left := mb;
      wire, fs := [], [];
      LeadsFrom(mb, packet);
      while !IsEmpty(Datas(left))
        invariant Writable(codec, left)
        invariant fs == [] ==> followup == old(followup) && left == mb
        invariant fs != [] ==> followup
        invariant OnWire(codec, wire, fs) && Sequenced(fs, Announced(), old(followup))
        invariant Payloads(fs) + Flatten(Datas(left)) == Flatten(Datas(mb)) && Leads(fs, left, mb, packet)
        decreases |left|
      {
        var k := TakeBuffers(left);
        DatasSplit(left, k);
        var w, f := WriteData(Datas(left[..k]), if k == 1 then left[0].udp else None);
        OneMore(codec, wire, fs, w, f, Announced(), old(followup), Flatten(Datas(left)), Flatten(Datas(left[k..])));
        FramedMore(fs, f, mb, left, packet, k);
        wire, fs, left := wire + [w], fs + [f], left[k..];
      }
      FlattenEmpty(Datas(left));
      assert Payloads(fs) + [] == Payloads(fs);
      LeadsTo(fs, left, mb, packet);
    }

    /** The frame that ends the session. */
    method Close() returns (wire: bytes, ghost f: Frame)
      requires codec.Valid() && codec.portFirst
      ensures f.Valid(codec) && wire == EncodeFrame(codec, f)
      ensures f == Frame(Meta(id, END, Option8(false, hasError, 0), NoTarget, NO_ID), None, [])
    {
      var m := Meta(id, END, Option8(false, hasError, 0), NoTarget, NO_ID);
      f := Frame(m, None, []);
      var b := new Buffer();
      var ok := WriteTo(codec, m, None, b);
      wire := b.v[b.start..b.end];
      assert MetaFrame(codec, m, None) + [] == MetaFrame(codec, m, None);
    }
  }

  // ---------------------------------------------------------------------------------------------
  // The worker's loop
  // ---------------------------------------------------------------------------------------------

  /** What the worker finds before a frame: its state, as others have left it, and what surrounds it. */
  datatype Turn = Turn(st: State, env: Env)

  /** By the number of frames handled and the state after them. */
  type Surroundings = (nat, State) -> Turn

  ghost predicate Sound(around: Surroundings) {
    forall n: nat, st: State | st.Valid() :: around(n, st).st.Valid() && Consistent(around(n, st).st, around(n, st).env)
  }

  /** Others leave session x, and what the outlets have received, alone. */
  ghost predicate SparesAlways(around: Surroundings, x: u16) {
    forall n: nat, st: State | st.Valid() :: Spares(st, around(n, st).st, x)
  }

  /** Consecutive events for the first frames of fs, from the state `first` to the state `last`. */
  ghost predicate Serves(run: seq<Event>, fs: seq<Frame>, around: Surroundings, first: State, last: State) {
    && |run| <= |fs|
    && (forall i :: 0 <= i < |run| ==> Happens(run[i]) && run[i].frame == fs[i])
    && (forall i :: 0 <= i < |run| ==> Turned(run, around, first, i))
    && last == StateAt(run, first, |run|)
  }

  /** Frame i was handled in the surroundings that the frames before it led to. */
  predicate Turned(run: seq<Event>, around: Surroundings, first: State, i: nat)
    requires i < |run|
  {
    Turn(run[i].before, run[i].env) == around(i, StateAt(run, first, i))
  }

  /** The state after the first i frames. */
  function StateAt(run: seq<Event>, first: State, i: nat): State
    requires i <= |run|
  {
    if i == 0 then first else run[i - 1].after
  }

  lemma ServesOne(run: seq<Event>, fs: seq<Frame>, around: Surroundings, first: State, last: State, e: Event)
    requires Serves(run, fs, around, first, last) && |run| < |fs|
    requires Happens(e) && e.frame == fs[|run|] && Turn(e.before, e.env) == around(|run|, last)
    ensures Serves(run + [e], fs, around, first, e.after)
  {
    var all := run + [e];
    assert forall i :: 0 <= i < |all| ==> all[i] == if i < |run| then run[i] else e;
    forall i | 0 <= i < |all| ensures Turned(all, around, first, i) {
      if i < |run| {
        assert Turned(run, around, first, i);
      }
    }
  }

  /** A run of the loop is a run as session x sees it. */
  lemma ServesIsRun(run: seq<Event>, fs: seq<Frame>, around: Surroundings, first: State, last: State, x: u16)
    requires Serves(run, fs, around, first, last) && SparesAlways(around, x)
    ensures IsRun(run, x)
  {
    forall i | 0 <= i < |run| - 1 ensures Spares(run[i].after, run[i + 1].before, x) {
      assert Happens(run[i]);
      FrameStepValid(run[i].before, Received(run[i].frame.meta, run[i].frame.udp), run[i].frame.payload,
                     run[i].env, run[i].after);
      assert Turned(run, around, first, i + 1);
    }
  }

  /** The state the worker ends in: that after the last frame, or what the failing frame leaves. */
  ghost predicate Ends(rest: seq<Frame>, turn: Turn, st: State) {
    || (rest == [] && st == turn.st)
    || (rest != [] && rest[0].meta.Valid() && turn.st.Valid() && Consistent(turn.st, turn.env) &&
        FrameStep(turn.st, Received(rest[0].meta, rest[0].udp), rest[0].payload, turn.env, st, false))
  }

  /** The next of the frames `rest`. */
  method ServeOne(w: ServerWorker, reader: BufferedReader, env: Env, ghost rest: seq<Frame>) returns (ok: bool)
    requires reader.Valid() && w.st.Valid() && w.codec.Valid() && Consistent(w.st, env)
    requires forall i :: 0 <= i < |rest| ==> rest[i].Valid(w.codec)
    requires reader.Remaining() == EncodeFrames(w.codec, rest)
    modifies w, reader
    ensures reader.Valid()
    ensures ok ==> rest != [] && w.st.Valid() && reader.Remaining() == EncodeFrames(w.codec, rest[1..])
    ensures ok ==> Happens(Event(rest[0], env, old(w.st), w.st))
    ensures ok || Ends(rest, Turn(old(w.st), env), w.st)
  {
    if rest != [] {
      NextFrame(w.codec, rest);
    }
    ok := w.HandleFrame(reader, env);
    if ok {
      FrameStepValid(old(w.st), Received(rest[0].meta, rest[0].udp), rest[0].payload, env, w.st);
    }
  }

  /**
   * ServerWorker.run: frames are handled until one fails or the stream ends, in any surroundings.
   * However the stream is cut into buffers, `run` is what happened to the frames it went on from,
   * and `left`, where the next frame was looked for, is exactly the frames that remain. The worker
   * ends in the state after its last frame, or in the state that the failing frame leaves.
   */
  method Serve(w: ServerWorker, reader: BufferedReader, around: Surroundings, ghost fs: seq<Frame>)
    returns (ghost run: seq<Event>, ghost last: State, ghost left: bytes)
    requires reader.Valid() && w.st.Valid() && w.codec.Valid()
    requires Sound(around)
    requires forall i :: 0 <= i < |fs| ==> fs[i].Valid(w.codec)
    requires reader.Remaining() == EncodeFrames(w.codec, fs)
    modifies w, reader
    ensures Serves(run, fs, around, old(w.st), last) && last.Valid()
    ensures left == EncodeFrames(w.codec, fs[|run|..])
    ensures Ends(fs[|run|..], around(|run|, last), w.st)
  {
    run, last, left := [], w.st, reader.Remaining();
    var handled := 0;
    assert fs[0..] == fs;
    while true
      invariant reader.Valid() && w.st.Valid() && last == w.st && left == reader.Remaining()
      invariant handled == |run|
      invariant Serves(run, fs, around, old(w.st), last)
      invariant left == EncodeFrames(w.codec, fs[|run|..])
      decreases |fs| - |run|
    {
      var ok;
      ghost var e;
      ok, e := ServeNext(w, reader, around(handled, w.st), fs, run, around, old(w.st));
      if !ok {
        return;
      }
      run, last, left := run + [e], w.st, reader.Remaining();
      handled := handled + 1;
    }
  }

  /** One turn of the loop, which adds its event to the run. */
  method ServeNext(w: ServerWorker, reader: BufferedReader, turn: Turn, ghost fs: seq<Frame>, ghost run: seq<Event>,
                   ghost around: Surroundings, ghost first: State)
    returns (ok: bool, ghost e: Event)
    requires reader.Valid() && w.codec.Valid() && turn.st.Valid() && Consistent(turn.st, turn.env)
    requires forall i :: 0 <= i < |fs| ==> fs[i].Valid(w.codec)
    requires Serves(run, fs, around, first, w.st) && turn == around(|run|, w.st)
    requires reader.Remaining() == EncodeFrames(w.codec, fs[|run|..])
    modifies w, reader
    ensures reader.Valid()
    ensures ok ==> w.st.Valid() && Serves(run + [e], fs, around, first, w.st)
    ensures ok ==> reader.Remaining() == EncodeFrames(w.codec, fs[|run + [e]|..])
    ensures ok || Ends(fs[|run|..], turn, w.st)
  {
    ghost var last, rest := w.st, fs[|run|..];
    w.st := turn.st;
    ok := ServeOne(w, reader, turn.env, rest);
    if ok {
      assert rest[1..] == fs[|run| + 1..];
      e := Event(rest[0], turn.env, turn.st, w.st);
      ServesOne(run, fs, around, first, last, e);
    } else {
      e := *;
    }
  }

  lemma NextFrame(c: Codec, fs: seq<Frame>)
    requires c.Valid() && fs != [] && forall i :: 0 <= i < |fs| ==> fs[i].Valid(c)
    ensures var s := EncodeFrames(c, fs);
            var f := fs[0];
            && |s| >= 2 && 2 + U16(s[0], s[1]) <= |s|
            && FrontMeta(c, s) == Success(Received(f.meta, f.udp))
            && var body := s[2 + U16(s[0], s[1])..];
            && Whole(f.meta.option.data, body)
            && Body(f.meta.option.data, body) == f.payload
            && Behind(f.meta.option.data, body) == EncodeFrames(c, fs[1..])
  {
    var more := EncodeFrames(c, fs[1..]);
    FrontOfFrame(c, fs[0], more);
    BodyOfFrame(fs[0], more);
    WholeFrame(fs[0], more);
  }

  lemma WholeFrame(f: Frame, more: bytes)
    requires |f.payload| <= BUF_SIZE
    ensures Whole(f.meta.option.data, f.Data() + more)
  {
    if f.meta.option.data {
      var h := PutU16(|f.payload|);
      assert (f.Data() + more)[0] == h[0] && (f.Data() + more)[1] == h[1];
    }
  }
}
