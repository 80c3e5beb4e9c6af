/**
 * The whole of a Mux.Cool link: what session writers are given over their lives, any interleaving of
 * their writes on the link, any cut of its bytes into buffers, and what arrives at the other end.
 */
module MuxTransfer {
  import opened Bytes
  import opened MultiBuffers
  import opened Addresses
  import opened MuxFrames
  import opened MuxServer
  import opened MuxLink

  // ---------------------------------------------------------------------------------------------
  // The life of a writer
  // ---------------------------------------------------------------------------------------------

  /** A writer, everything it was given, whether it was closed, and the writes it made on the link. */
  datatype Life = Life(flow: Flow, followup: bool, given: seq<seq<Packet>>, closed: bool, wires: seq<bytes>)

  function Given(mbs: seq<seq<Packet>>): bytes {
    if mbs == [] then [] else Flatten(Datas(mbs[0])) + Given(mbs[1..])
  }

  lemma {:induction false} GivenSnoc(mbs: seq<seq<Packet>>, mb: seq<Packet>)
    ensures Given(mbs + [mb]) == Given(mbs) + Flatten(Datas(mb))
  {
    if mbs == [] {
      assert mbs + [mb] == [mb] && [mb][1..] == [];
      assert Flatten(Datas(mb)) + [] == Flatten(Datas(mb));
    } else {
      assert (mbs + [mb])[0] == mbs[0] && (mbs + [mb])[1..] == mbs[1..] + [mb];
      GivenSnoc(mbs[1..], mb);
      Assoc(Flatten(Datas(mbs[0])), Given(mbs[1..]), Flatten(Datas(mb)));
    }
  }

  lemma {:induction false} PayloadsAppend(a: seq<Frame>, b: seq<Frame>)
    ensures Payloads(a + b) == Payloads(a) + Payloads(b)
  {
    if a == [] {
      assert a + b == b;
    } else {
      assert (a + b)[0] == a[0] && (a + b)[1..] == a[1..] + b;
      PayloadsAppend(a[1..], b);
      Assoc(a[0].payload, Payloads(a[1..]), Payloads(b));
    }
  }

  /** The status of frame i of n. */
  function StatusAt(l: Life, i: nat, n: nat): byte {
    if l.closed && i == n - 1 then END else if i == 0 && !l.followup then NEW else KEEP
  }

  /** The writes of the life are the frames fs: New, Keep and possibly End, with what it was given. */
  ghost predicate Wrote(c: Codec, l: Life, fs: seq<Frame>) {
    && OnWire(c, l.wires, fs)
    && (forall i :: 0 <= i < |fs| ==> fs[i].meta.id == l.flow.id && fs[i].meta.status == StatusAt(l, i, |fs|))
    && (fs != [] && fs[0].meta.status == NEW ==> Belongs(fs[0].meta, l.flow))
    && Payloads(fs) == Given(l.given)
    && (l.closed ==> fs != [] && fs[|fs| - 1].payload == [])
    && (l.given != [] ==> fs != [] && (l.closed ==> |fs| > 1))
  }

  ghost predicate Lived(c: Codec, l: Life) {
    exists fs :: Wrote(c, l, fs)
  }

  lemma SequencedAppend(fs: seq<Frame>, gs: seq<Frame>, flow: Flow, followup: bool)
    requires Sequenced(fs, flow, followup) && Sequenced(gs, flow, followup || fs != [])
    ensures Sequenced(fs + gs, flow, followup)
  {
    assert forall i :: 0 <= i < |fs + gs| ==> (fs + gs)[i] == if i < |fs| then fs[i] else gs[i - |fs|];
  }

  /** The frames of a writer that is not closed yet. */
  ghost predicate Sent(
    c: Codec, flow: Flow, followup: bool, given: seq<seq<Packet>>, wires: seq<bytes>, fs: seq<Frame>)
  {
    OnWire(c, wires, fs) && Sequenced(fs, flow, followup) && Payloads(fs) == Given(given) && (given != [] ==> fs != [])
  }

  lemma SentMore(c: Codec, flow: Flow, followup: bool, given: seq<seq<Packet>>, wires: seq<bytes>, fs: seq<Frame>,
                 mb: seq<Packet>, more: seq<bytes>, gs: seq<Frame>)
    requires Sent(c, flow, followup, given, wires, fs) && gs != []
    requires OnWire(c, more, gs) && Sequenced(gs, flow, followup || fs != []) && Payloads(gs) == Flatten(Datas(mb))
    ensures Sent(c, flow, followup, given + [mb], wires + more, fs + gs)
  {
    GivenSnoc(given, mb);
    PayloadsAppend(fs, gs);
    ImagesAppend(Encoder(c), fs, wires, gs, more);
    SequencedAppend(fs, gs, flow, followup);
  }

  /** Everything a writer is given in its life, call by call, and its close. */
  method Live(w: Writer, mbs: seq<seq<Packet>>, close: bool) returns (wires: seq<bytes>)
    requires w.Announceable() && forall i :: 0 <= i < |mbs| ==> Writable(w.codec, mbs[i])
    modifies w`followup
    ensures Lived(w.codec, Life(w.Announced(), old(w.followup), mbs, close, wires))
  {
    ghost var was := w.followup;
    ghost var fs;
    wires, fs := WriteAll(w, mbs);
    if close {
      var wire;
      ghost var f;
      wire, f := w.Close();
      LastFrame(w.codec, wires, fs, wire, f, Life(w.Announced(), was, mbs, true, wires + [wire]));
      wires := wires + [wire];
    } else {
      assert Wrote(w.codec, Life(w.Announced(), was, mbs, false, wires), fs);
    }
  }

  method WriteAll(w: Writer, mbs: seq<seq<Packet>>) returns (wires: seq<bytes>, ghost fs: seq<Frame>)
    requires w.Announceable() && forall i :: 0 <= i < |mbs| ==> Writable(w.codec, mbs[i])
    modifies w`followup
    ensures w.Announceable() && Sent(w.codec, w.Announced(), old(w.followup), mbs, wires, fs)
  {
    wires, fs := [], [];
    for i := 0 to |mbs|
      invariant w.Announceable() && (w.followup <==> old(w.followup) || fs != [])
      invariant Sent(w.codec, w.Announced(), old(w.followup), mbs[..i], wires, fs)
    {
      assert mbs[..i + 1] == mbs[..i] + [mbs[i]];
      var wire;
      ghost var gs;
      wire, gs := w.WriteMultiBuffer(mbs[i]);
      SentMore(w.codec, w.Announced(), old(w.followup), mbs[..i], wires, fs, mbs[i], wire, gs);
      wires, fs := wires + wire, fs + gs;
    }
    assert mbs[..|mbs|] == mbs;
  }

  lemma LastFrame(c: Codec, wires: seq<bytes>, fs: seq<Frame>, wire: bytes, f: Frame, l: Life)
    requires OnWire(c, wires, fs) && Sequenced(fs, l.flow, l.followup) && Payloads(fs) == Given(l.given)
    requires l.given != [] ==> fs != []
    requires f.Valid(c) && wire == EncodeFrame(c, f)
    requires f.meta.id == l.flow.id && f.meta.status == END && f.payload == []
    requires l.closed && l.wires == wires + [wire]
    ensures Lived(c, l)
  {
    var all := fs + [f];
    PayloadsSnoc(fs, f);
    assert Payloads(fs) + [] == Payloads(fs);
    OneOnWire(c, wire, f);
    ImagesAppend(Encoder(c), fs, wires, [f], [wire]);
    LastStatus(fs, f, l);
    assert Wrote(c, l, all);
  }

  lemma OneOnWire(c: Codec, wire: bytes, f: Frame)
    requires f.Valid(c) && wire == EncodeFrame(c, f)
    ensures OnWire(c, [wire], [f])
  {
  }

  lemma LastStatus(fs: seq<Frame>, f: Frame, l: Life)
    requires Sequenced(fs, l.flow, l.followup) && l.closed && f.meta.id == l.flow.id && f.meta.status == END
    ensures var all := fs + [f];
      forall i :: 0 <= i < |all| ==> all[i].meta.id == l.flow.id && all[i].meta.status == StatusAt(l, i, |all|)
  {
    var all := fs + [f];
    assert forall i :: 0 <= i < |all| ==> all[i] == if i < |fs| then fs[i] else f;
  }

  // ---------------------------------------------------------------------------------------------
  // Interleaving
  // ---------------------------------------------------------------------------------------------

  /** who says, for each write on the link, whose next write it is; lens[i] writes of i are left. */
  ghost predicate Covers(who: seq<nat>, lens: seq<nat>)
    decreases |who|
  {
    if who == [] then forall i :: 0 <= i < |lens| ==> lens[i] == 0
    else who[0] < |lens| && lens[who[0]] > 0 && Covers(who[1..], lens[who[0] := lens[who[0]] - 1])
  }

  function Lens<T>(parts: seq<seq<T>>): seq<nat> {
    seq(|parts|, i requires 0 <= i < |parts| => |parts[i]|)
  }

  /** The parts without the first element of part i. */
  function Without<T>(parts: seq<seq<T>>, i: nat): seq<seq<T>>
    requires i < |parts| && parts[i] != []
  {
    parts[i := parts[i][1..]]
  }

  lemma LensWithout<T>(parts: seq<seq<T>>, i: nat)
    requires i < |parts| && parts[i] != []
    ensures Lens(Without(parts, i)) == Lens(parts)[i := Lens(parts)[i] - 1]
  {
  }

  /** The interleaving of the parts that `who` describes. */
  ghost function Merge<T>(who: seq<nat>, parts: seq<seq<T>>): seq<T>
    requires Covers(who, Lens(parts))
    decreases |who|
  {
    if who == [] then []
    else
      LensWithout(parts, who[0]);
      [parts[who[0]][0]] + Merge(who[1..], Without(parts, who[0]))
  }

  lemma {:induction false} MergeFirst<T>(who: seq<nat>, parts: seq<seq<T>>)
    requires who != [] && Covers(who, Lens(parts))
    ensures who[0] < |parts| && parts[who[0]] != [] && Covers(who[1..], Lens(Without(parts, who[0])))
    ensures Merge(who, parts)[0] == parts[who[0]][0]
    ensures Merge(who, parts)[1..] == Merge(who[1..], Without(parts, who[0]))
  {
    LensWithout(parts, who[0]);
  }

  lemma {:induction false} MergeLength<T>(who: seq<nat>, parts: seq<seq<T>>)
    requires Covers(who, Lens(parts))
    ensures |Merge(who, parts)| == |who|
    decreases |who|
  {
    if who != [] {
      MergeFirst(who, parts);
      MergeLength(who[1..], Without(parts, who[0]));
    }
  }

  /** Interleaved writes are the interleaved frames. */
  lemma {:induction false} MergeOnWire(c: Codec, who: seq<nat>, ws: seq<seq<bytes>>, fps: seq<seq<Frame>>)
    requires Covers(who, Lens(ws)) && Covers(who, Lens(fps)) && |ws| == |fps|
    requires forall i :: 0 <= i < |ws| ==> OnWire(c, ws[i], fps[i])
    ensures OnWire(c, Merge(who, ws), Merge(who, fps))
    decreases |who|
  {
    if who != [] {
      var k := who[0];
      MergeFirst(who, ws);
      MergeFirst(who, fps);
      OnWireRest(c, ws[k], fps[k]);
      MergeOnWire(c, who[1..], Without(ws, k), Without(fps, k));
      OnWireCons(c, ws[k][0], fps[k][0], Merge(who[1..], Without(ws, k)), Merge(who[1..], Without(fps, k)));
    }
  }

  lemma OnWireRest(c: Codec, w: seq<bytes>, fs: seq<Frame>)
    requires OnWire(c, w, fs) && fs != []
    ensures OnWire(c, w[1..], fs[1..]) && Encoder(c)(fs[0]) == Some(w[0])
  {
    assert forall i :: 0 <= i < |fs| - 1 ==> fs[1..][i] == fs[i + 1] && w[1..][i] == w[i + 1];
  }

  lemma OnWireCons(c: Codec, w: bytes, f: Frame, ws: seq<bytes>, fs: seq<Frame>)
    requires OnWire(c, ws, fs) && Encoder(c)(f) == Some(w)
    ensures OnWire(c, [w] + ws, [f] + fs)
  {
    OneOnWire(c, w, f);
    ImagesAppend(Encoder(c), [f], [w], fs, ws);
  }

  /** All frames of part i have the id ids[i]. */
  ghost predicate Labelled(fps: seq<seq<Frame>>, ids: seq<u16>) {
    |fps| == |ids| && forall i, j :: 0 <= i < |fps| && 0 <= j < |fps[i]| ==> fps[i][j].meta.id == ids[i]
  }

  /** The frames of session x among the interleaved frames are the frames of its writer, in order. */
  lemma {:induction false} MergeOf(who: seq<nat>, fps: seq<seq<Frame>>, ids: seq<u16>, n: nat)
    requires Covers(who, Lens(fps)) && Labelled(fps, ids) && n < |fps|
    requires forall i :: 0 <= i < |ids| && i != n ==> ids[i] != ids[n]
    ensures Of(Merge(who, fps), ids[n]) == fps[n]
    decreases |who|
  {
    if who == [] {
      assert Lens(fps)[n] == 0;
    } else {
      var k := who[0];
      MergeFirst(who, fps);
      var rest := Without(fps, k);
      assert Labelled(rest, ids) by {
        assert forall j :: 0 <= j < |fps[k]| - 1 ==> fps[k][1..][j] == fps[k][j + 1];
      }
      MergeOf(who[1..], rest, ids, n);
      assert fps[k][0].meta.id == ids[k];
      if k == n {
        assert [fps[n][0]] + fps[n][1..] == fps[n];
      }
    }
  }

  lemma {:induction false} WireBytes(c: Codec, w: seq<bytes>, fs: seq<Frame>)
    requires OnWire(c, w, fs)
    ensures forall i :: 0 <= i < |fs| ==> fs[i].Valid(c)
    ensures EncodeFrames(c, fs) == Flatten(w)
    decreases |fs|
  {
    AllValid(c, w, fs);
    if fs != [] {
      OnWireRest(c, w, fs);
      WireBytes(c, w[1..], fs[1..]);
    }
  }

  lemma AllValid(c: Codec, w: seq<bytes>, fs: seq<Frame>)
    requires OnWire(c, w, fs)
    ensures forall i :: 0 <= i < |fs| ==> fs[i].Valid(c)
  {
    forall i | 0 <= i < |fs| ensures fs[i].Valid(c) {
      assert Encoder(c)(fs[i]) == Some(w[i]);
    }
  }

  /** Where the first frame of session x stands, and what follows. */
  lemma {:induction false} FirstOf(fs: seq<Frame>, x: u16) returns (p: nat)
    requires Of(fs, x) != []
    ensures p < |fs| && fs[p] == Of(fs, x)[0] && fs[p].meta.id == x && Of(fs[p + 1..], x) == Of(fs, x)[1..]
    ensures forall i :: 0 <= i < p ==> fs[i].meta.id != x
  {
    if fs[0].meta.id == x {
      p := 0;
      assert Of(fs, x)[1..] == Of(fs[1..], x);
    } else {
      var q := FirstOf(fs[1..], x);
      p := q + 1;
      assert fs[1..][q + 1..] == fs[p + 1..];
      assert forall i :: 0 < i < p ==> fs[i] == fs[1..][i - 1];
    }
  }

  // ---------------------------------------------------------------------------------------------
  // End to end
  // ---------------------------------------------------------------------------------------------

  function Wires(lives: seq<Life>): seq<seq<bytes>> {
    seq(|lives|, i requires 0 <= i < |lives| => lives[i].wires)
  }

  function Ids(lives: seq<Life>): seq<u16> {
    seq(|lives|, i requires 0 <= i < |lives| => lives[i].flow.id)
  }

  ghost function Frames(c: Codec, l: Life): (fs: seq<Frame>)
    requires Lived(c, l)
    ensures Wrote(c, l, fs)
  {
    var fs :| Wrote(c, l, fs); fs
  }

  ghost function FrameParts(c: Codec, lives: seq<Life>): seq<seq<Frame>>
    requires forall i :: 0 <= i < |lives| ==> Lived(c, lives[i])
  {
    seq(|lives|, i requires 0 <= i < |lives| => Frames(c, lives[i]))
  }

  /** A frame that a writer sends. */
  predicate Ordinary(f: Frame) {
    f.meta.status == NEW || f.meta.status == KEEP || f.meta.status == END
  }

  lemma {:induction false} MergeOrdinary(who: seq<nat>, fps: seq<seq<Frame>>)
    requires Covers(who, Lens(fps))
    requires forall i, j :: 0 <= i < |fps| && 0 <= j < |fps[i]| ==> Ordinary(fps[i][j])
    ensures forall i :: 0 <= i < |Merge(who, fps)| ==> Ordinary(Merge(who, fps)[i])
    decreases |who|
  {
    if who != [] {
      MergeFirst(who, fps);
      var k, all := who[0], Merge(who, fps);
      assert forall j :: 0 <= j < |fps[k]| - 1 ==> fps[k][1..][j] == fps[k][j + 1];
      MergeOrdinary(who[1..], Without(fps, k));
      assert forall i :: 0 < i < |all| ==> all[i] == all[1..][i - 1];
    }
  }

  /** What the interleaved writes of the lives are. */
  lemma {:induction false} LinkFrames(c: Codec, lives: seq<Life>, who: seq<nat>, n: nat) returns (fs: seq<Frame>)
    requires forall i :: 0 <= i < |lives| ==> Lived(c, lives[i])
    requires Covers(who, Lens(Wires(lives))) && n < |lives|
    requires forall i :: 0 <= i < |lives| && i != n ==> lives[i].flow.id != lives[n].flow.id
    ensures OnWire(c, Merge(who, Wires(lives)), fs) && |fs| == |who|
    ensures forall i :: 0 <= i < |fs| ==> Ordinary(fs[i])
    ensures Wrote(c, lives[n], Of(fs, lives[n].flow.id))
  {
    var ws, fps := Wires(lives), FrameParts(c, lives);
    forall i | 0 <= i < |lives| ensures OnWire(c, ws[i], fps[i]) && Wrote(c, lives[i], fps[i]) {
      assert fps[i] == Frames(c, lives[i]);
    }
    assert Lens(ws) == Lens(fps);
    fs := Merge(who, fps);
    MergeOnWire(c, who, ws, fps);
    MergeLength(who, fps);
    forall i, j | 0 <= i < |fps| && 0 <= j < |fps[i]|
      ensures Ordinary(fps[i][j]) && fps[i][j].meta.id == lives[i].flow.id
    {
      assert Wrote(c, lives[i], fps[i]);
    }
    MergeOrdinary(who, fps);
    MergeOf(who, fps, Ids(lives), n);
  }

  /** Everything is welcome: the network of every target is allowed and every target can be dispatched. */
  ghost predicate Welcoming(around: Surroundings) {
    forall n: nat, st: State | st.Valid() :: around(n, st).env.networkAllowed && around(n, st).env.dispatch.Some?
  }

  lemma NoFailure(c: Codec, rest: seq<Frame>, turn: Turn, st: State)
    requires Ends(rest, turn, st) && !turn.st.closed && turn.env.networkAllowed && turn.env.dispatch.Some?
    requires rest != [] ==> rest[0].Valid(c) && Ordinary(rest[0])
    ensures rest == []
  {
  }

  lemma StaysOpen(e: Event)
    requires Happens(e) && !e.before.closed
    ensures !e.after.closed
  {
  }

  /** Handling a frame does not close the manager. */
  predicate KeepsOpen(e: Event) {
    !e.before.closed ==> !e.after.closed
  }

  lemma AllKeepOpen(run: seq<Event>)
    requires forall i :: 0 <= i < |run| ==> Happens(run[i])
    ensures forall i :: 0 <= i < |run| ==> KeepsOpen(run[i])
  {
    forall i | 0 <= i < |run| ensures KeepsOpen(run[i]) {
      assert Happens(run[i]);
      if !run[i].before.closed {
        StaysOpen(run[i]);
      }
    }
  }

  lemma {:induction false} ServesOpen(run: seq<Event>, x: u16, n: nat)
    requires forall i :: 0 <= i < |run| ==> KeepsOpen(run[i])
    requires forall i :: 0 <= i < |run| - 1 ==> Spares(run[i].after, run[i + 1].before, x)
    requires n < |run| && !run[0].before.closed
    ensures !run[n].after.closed
    decreases n
  {
    assert KeepsOpen(run[n]);
    if n > 0 {
      ServesOpen(run, x, n - 1);
      assert Spares(run[n - 1].after, run[n - 1 + 1].before, x);
    }
  }

  lemma LastOpen(run: seq<Event>, fs: seq<Frame>, around: Surroundings, first: State, last: State, x: u16)
    requires Serves(run, fs, around, first, last) && SparesAlways(around, x) && first.Valid() && !first.closed
    ensures !last.closed
  {
    if run != [] {
      ServesIsRun(run, fs, around, first, last, x);
      AllKeepOpen(run);
      assert Turned(run, around, first, 0);
      assert Spares(first, around(0, first).st, x);
      ServesOpen(run, x, |run| - 1);
    }
  }

  /** Behind its first frame a life goes on with Keep frames and possibly ends. */
  lemma {:induction false} LifeFollows(c: Codec, l: Life, fs: seq<Frame>, k: nat)
    requires Wrote(c, l, fs) && 0 < k <= |fs|
    ensures Following(fs[k..])
    decreases |fs| - k
  {
    if k < |fs| {
      LifeFollows(c, l, fs, k + 1);
      assert fs[k..][0] == fs[k] && fs[k..][1..] == fs[k + 1..];
      assert Encoder(c)(fs[k]) == Some(l.wires[k]);
    }
  }

  lemma {:induction false} RunFrom(run: seq<Event>, x: u16, p: nat)
    requires IsRun(run, x) && p <= |run|
    ensures IsRun(run[p..], x)
  {
    assert forall i :: 0 <= i < |run[p..]| ==> run[p..][i] == run[p + i];
  }

  /** From the frame p of the run on, the outlet of x receives what the writer of x was given. */
  lemma {:induction false} LifeDelivers(run: seq<Event>, c: Codec, l: Life, p: nat)
    requires IsRun(run, l.flow.id) && p < |run| && !l.followup && l.given != []
    requires Wrote(c, l, Of(FramesOf(run), l.flow.id))
    requires run[p].frame == Of(FramesOf(run), l.flow.id)[0]
    requires Of(FramesOf(run)[p + 1..], l.flow.id) == Of(FramesOf(run), l.flow.id)[1..]
    requires Accepting(run[p]) && LeftAlone(run[p + 1..], OpensAt(run[p]))
    ensures var o := OpensAt(run[p]); var last := run[|run| - 1].after;
      o < |last.outlets| && last.outlets[o].got == Was(run[p]) + Given(l.given)
    ensures ClosedInTheEnd(run[p], run[|run| - 1].after, l.flow.id, l.closed)
  {
    var mine, from := Of(FramesOf(run), l.flow.id), run[p..];
    assert from[0] == run[p] && from[1..] == run[p + 1..] && from[|from| - 1] == run[|run| - 1];
    assert FramesOf(run[p + 1..]) == FramesOf(run)[p + 1..];
    RunFrom(run, l.flow.id, p);
    LifeFollows(c, l, mine, 1);
    assert Encoder(c)(mine[0]) == Some(l.wires[0]);
    LifeEnds(c, l, mine);
    SessionDelivers(from, l.flow.id);
  }

  lemma LifeEnds(c: Codec, l: Life, fs: seq<Frame>)
    requires Wrote(c, l, fs) && l.given != []
    ensures EndsIn(fs[1..]) <==> l.closed
  {
    var n := |fs|;
    if n > 1 {
      assert fs[1..][n - 2] == fs[n - 1];
    }
  }

  /** In welcoming surroundings no frame of a writer fails. */
  lemma {:induction false} ServesAll(
    c: Codec, run: seq<Event>, fs: seq<Frame>, around: Surroundings, first: State, last: State, x: u16, st: State)
    requires Serves(run, fs, around, first, last) && SparesAlways(around, x) && Welcoming(around)
    requires first.Valid() && !first.closed && last.Valid() && Ends(fs[|run|..], around(|run|, last), st)
    requires forall i :: 0 <= i < |fs| ==> fs[i].Valid(c) && Ordinary(fs[i])
    ensures |run| == |fs| && Spares(last, st, x)
  {
    LastOpen(run, fs, around, first, last, x);
    var rest, turn := fs[|run|..], around(|run|, last);
    assert Spares(last, turn.st, x);
    if rest != [] {
      assert rest[0] == fs[|run|];
    }
    NoFailure(c, rest, turn, st);
  }

  lemma {:induction false} AllServed(
    c: Codec, run: seq<Event>, fs: seq<Frame>, around: Surroundings, first: State, last: State, l: Life, p: nat)
    requires Serves(run, fs, around, first, last) && SparesAlways(around, l.flow.id) && |run| == |fs|
    requires Wrote(c, l, Of(fs, l.flow.id)) && !l.followup && l.given != []
    requires p < |fs| && fs[p] == Of(fs, l.flow.id)[0] && Of(fs[p + 1..], l.flow.id) == Of(fs, l.flow.id)[1..]
    ensures IsRun(run, l.flow.id)
    ensures Accepting(run[p]) && LeftAlone(run[p + 1..], OpensAt(run[p])) ==>
      var o := OpensAt(run[p]); o < |last.outlets| && last.outlets[o].got == Was(run[p]) + Given(l.given)
    ensures Accepting(run[p]) && LeftAlone(run[p + 1..], OpensAt(run[p])) ==>
      ClosedInTheEnd(run[p], last, l.flow.id, l.closed)
  {
    assert FramesOf(run) == fs;
    ServesIsRun(run, fs, around, first, last, l.flow.id);
    if Accepting(run[p]) && LeftAlone(run[p + 1..], OpensAt(run[p])) {
      LifeDelivers(run, c, l, p);
    }
  }

  /**
   * The run is what the worker did, from its state before to its state now: one event per frame of
   * the source, each in the surroundings that the frames before it led to.
   */
  ghost predicate Served(c: Codec, source: seq<MultiBuffer>, around: Surroundings, first: State,
                         run: seq<Event>, last: State, st: State) {
    && Serves(run, FramesOf(run), around, first, last) && last.Valid() && st == around(|run|, last).st
    && (forall i :: 0 <= i < |run| ==> run[i].frame.Valid(c))
    && EncodeFrames(c, FramesOf(run)) == All(source)
  }

  /** The frame p of the run is the first of the flow, and announces it. */
  ghost predicate Announces(run: seq<Event>, p: nat, flow: Flow) {
    && p < |run| && run[p].frame.meta.status == NEW && Belongs(run[p].frame.meta, flow)
    && forall i :: 0 <= i < p ==> run[i].frame.meta.id != flow.id
  }

  /**
   * End to end. Any number of session writers are given any MultiBuffers over their lives; their
   * writes on the link are interleaved in any way; the bytes of the link arrive cut into buffers in
   * any way; between frames other sessions may be closed. Then the worker handles every frame, the
   * first frame of the writer n announces its target and Global ID, and the outlet that this frame
   * opened has received, behind what it held before, exactly the concatenation of what that writer
   * was given. The outlet is a fresh one for a plain session and for a new XUDP entry, and the old
   * one for an entry that is re-attached. A plain session's outlet is closed exactly if the writer was.
   */
  method Transfer(w: ServerWorker, source: seq<MultiBuffer>, around: Surroundings,
                  ghost lives: seq<Life>, ghost who: seq<nat>, ghost n: nat)
    returns (ghost run: seq<Event>, ghost last: State, ghost p: nat)
    requires w.st.Valid() && !w.st.closed && w.codec.Valid() && RegularSource(source)
    requires n < |lives| && !lives[n].followup && lives[n].given != []
    requires forall i :: 0 <= i < |lives| ==> Lived(w.codec, lives[i])
    requires forall i :: 0 <= i < |lives| && i != n ==> lives[i].flow.id != lives[n].flow.id
    requires Covers(who, Lens(Wires(lives))) && All(source) == Flatten(Merge(who, Wires(lives)))
    requires Sound(around) && SparesAlways(around, lives[n].flow.id) && Welcoming(around)
    modifies w
    ensures Served(w.codec, source, around, old(w.st), run, last, w.st) && |run| == |who|
    ensures Wrote(w.codec, lives[n], Of(FramesOf(run), lives[n].flow.id))
    ensures Announces(run, p, lives[n].flow) && Happens(run[p])
    ensures Accepting(run[p]) && LeftAlone(run[p + 1..], OpensAt(run[p])) ==>
      var o := OpensAt(run[p]);
      o < |w.st.outlets| && w.st.outlets[o].got == Was(run[p]) + Given(lives[n].given)
    ensures Accepting(run[p]) && LeftAlone(run[p + 1..], OpensAt(run[p])) ==>
      ClosedInTheEnd(run[p], w.st, lives[n].flow.id, lives[n].closed)
  {
    ghost var fs := LinkFrames(w.codec, lives, who, n);
    WireBytes(w.codec, Merge(who, Wires(lives)), fs);
    ghost var first := w.st;
    run, last := ServeLink(w, source, around, fs, lives[n].flow.id);
    p := FirstOf(fs, lives[n].flow.id);
    Concluded(w.codec, source, run, around, first, last, lives[n], p, w.st);
  }

  /** Every frame of the source is handled. */
  method ServeLink(w: ServerWorker, source: seq<MultiBuffer>, around: Surroundings, ghost fs: seq<Frame>, ghost x: u16)
    returns (ghost run: seq<Event>, ghost last: State)
    requires w.st.Valid() && !w.st.closed && w.codec.Valid() && RegularSource(source)
    requires Sound(around) && SparesAlways(around, x) && Welcoming(around)
    requires (forall i :: 0 <= i < |fs| ==> fs[i].Valid(w.codec)) && All(source) == EncodeFrames(w.codec, fs)
    requires forall i :: 0 <= i < |fs| ==> Ordinary(fs[i])
    modifies w
    ensures FramesOf(run) == fs && Served(w.codec, source, around, old(w.st), run, last, w.st)
  {
    var reader := new BufferedReader(source);
    ghost var left;
    run, last, left := Serve(w, reader, around, fs);
    ServesAll(w.codec, run, fs, around, old(w.st), last, x, w.st);
    assert FramesOf(run) == fs;
  }

  /** What that means for the life l, whose first frame is frame p. */
  lemma {:induction false} Concluded(c: Codec, source: seq<MultiBuffer>, run: seq<Event>, around: Surroundings,
                                     first: State, last: State, l: Life, p: nat, st: State)
    requires Served(c, source, around, first, run, last, st) && SparesAlways(around, l.flow.id)
    requires var fs, x := FramesOf(run), l.flow.id;
      && Wrote(c, l, Of(fs, x)) && !l.followup && l.given != []
      && p < |fs| && fs[p] == Of(fs, x)[0] && Of(fs[p + 1..], x) == Of(fs, x)[1..]
    ensures run[p].frame.meta.status == NEW && Belongs(run[p].frame.meta, l.flow) && Happens(run[p])
    ensures Accepting(run[p]) && LeftAlone(run[p + 1..], OpensAt(run[p])) ==>
      var o := OpensAt(run[p]); o < |st.outlets| && st.outlets[o].got == Was(run[p]) + Given(l.given)
    ensures Accepting(run[p]) && LeftAlone(run[p + 1..], OpensAt(run[p])) ==>
      ClosedInTheEnd(run[p], st, l.flow.id, l.closed)
  {
    AllServed(c, run, FramesOf(run), around, first, last, l, p);
    assert Spares(last, st, l.flow.id);
    assert Happens(run[p]);
    if Accepting(run[p]) && LeftAlone(run[p + 1..], OpensAt(run[p])) {
      StillClosed(run[p], last, st, l.flow.id, l.closed);
    }
  }

  lemma StillClosed(e: Event, st: State, st1: State, x: u16, ended: bool)
    requires Happens(e) && ClosedInTheEnd(e, st, x, ended) && Spares(st, st1, x)
    ensures ClosedInTheEnd(e, st1, x, ended)
  {
  }

  // ---------------------------------------------------------------------------------------------
  // What arrives, by conditions on the surroundings
  // ---------------------------------------------------------------------------------------------

  /** The outlet of the session that the frame finds for its Global ID, if any. */
  ghost predicate Finds(turn: Turn, size: nat) {
    turn.env.xudp.Known? ==>
      var o := turn.env.xudp.outlet;
      o < size && o < |turn.st.outlets| && turn.st.outlets[o].writes < 0
  }

  /** Every target can be dispatched, to an outlet that accepts everything, and no entry is just set up. */
  predicate Accepted(env: Env) {
    env.networkAllowed && env.dispatch.Some? && env.dispatch.value < 0 && !env.xudp.Busy?
  }

  predicate Apart(a: MuxServer.Xudp, b: MuxServer.Xudp) {
    a.Known? && b.Known? ==> a.outlet != b.outlet
  }

  /**
   * Outlets accept everything. The XUDP entries that are known lead to outlets among the first
   * `size`, and no two frames find the same one.
   */
  ghost predicate Generous(around: Surroundings, size: nat) {
    && (forall n: nat, st: State | st.Valid() :: Accepted(around(n, st).env) && Finds(around(n, st), size))
    && (forall i: nat, j: nat, st: State, st1: State | i != j && st.Valid() && st1.Valid() ::
          Apart(around(i, st).env.xudp, around(j, st1).env.xudp))
  }

  /** What outlets have received only grows, and so does their number. */
  ghost predicate Grown(a: seq<Outlet>, b: seq<Outlet>) {
    |a| <= |b| && forall o :: 0 <= o < |a| ==> a[o].got <= b[o].got
  }

  lemma FrameGrows(e: Event)
    requires Happens(e)
    ensures Grown(e.before.outlets, e.after.outlets)
  {
  }

  lemma AllGrow(run: seq<Event>)
    requires forall i :: 0 <= i < |run| ==> Happens(run[i])
    ensures forall i :: 0 <= i < |run| ==> Grown(run[i].before.outlets, run[i].after.outlets)
  {
    forall i | 0 <= i < |run| ensures Grown(run[i].before.outlets, run[i].after.outlets) {
      FrameGrows(run[i]);
    }
  }

  lemma {:induction false} RunGrows(run: seq<Event>, x: u16, n: nat)
    requires forall i :: 0 <= i < |run| ==> Grown(run[i].before.outlets, run[i].after.outlets)
    requires forall i :: 0 <= i < |run| - 1 ==> Spares(run[i].after, run[i + 1].before, x)
    requires n < |run|
    ensures Grown(run[0].before.outlets, run[n].before.outlets)
    decreases n
  {
    if n > 0 {
      RunGrows(run, x, n - 1);
      assert Grown(run[n - 1].before.outlets, run[n - 1].after.outlets);
      assert Spares(run[n - 1].after, run[n - 1 + 1].before, x);
      GrownOn(run[0].before.outlets, run[n - 1].before.outlets, run[n - 1].after.outlets);
    }
  }

  lemma GrownOn(a: seq<Outlet>, b: seq<Outlet>, c: seq<Outlet>)
    requires Grown(a, b) && Grown(b, c)
    ensures Grown(a, c)
  {
  }

  lemma GenerousIsWelcoming(around: Surroundings, size: nat)
    requires Generous(around, size)
    ensures Welcoming(around)
  {
    forall n: nat, st: State | st.Valid()
      ensures around(n, st).env.networkAllowed && around(n, st).env.dispatch.Some?
    {
      assert Accepted(around(n, st).env);
    }
  }

  /** The turn of frame i, in the state that the frames before it led to. */
  lemma TurnOf(run: seq<Event>, fs: seq<Frame>, around: Surroundings, first: State, last: State, i: nat)
    returns (st: State)
    requires Serves(run, fs, around, first, last) && first.Valid() && i < |run|
    ensures st.Valid() && Turn(run[i].before, run[i].env) == around(i, st)
    ensures i == 0 ==> st == first
  {
    st := StateAt(run, first, i);
    assert Turned(run, around, first, i);
    if i > 0 {
      var e := run[i - 1];
      assert Happens(e);
      FrameStepValid(e.before, Received(e.frame.meta, e.frame.udp), e.frame.payload, e.env, e.after);
    }
  }

  lemma GrownSince(
    run: seq<Event>, fs: seq<Frame>, around: Surroundings, first: State, last: State, x: u16, p: nat)
    requires Serves(run, fs, around, first, last) && SparesAlways(around, x) && first.Valid() && p < |run|
    ensures Grown(first.outlets, run[p].before.outlets)
  {
    ServesIsRun(run, fs, around, first, last, x);
    AllGrow(run);
    RunGrows(run, x, p);
    var st := TurnOf(run, fs, around, first, last, 0);
    assert Spares(first, around(0, first).st, x);
    GrownOn(first.outlets, run[0].before.outlets, run[p].before.outlets);
  }

  /** In generous surroundings the outlet that frame p opens accepts, and is left alone from then on. */
  lemma OpensForGood(
    run: seq<Event>, fs: seq<Frame>, around: Surroundings, first: State, last: State, x: u16, p: nat)
    requires Serves(run, fs, around, first, last) && SparesAlways(around, x) && first.Valid()
    requires Generous(around, |first.outlets|) && p < |run| && Happens(run[p])
    ensures Accepting(run[p]) && LeftAlone(run[p + 1..], OpensAt(run[p]))
    ensures var o := OpensAt(run[p]);
      if Continues(run[p]) then o < |first.outlets| && first.outlets[o].got <= Was(run[p])
      else o >= |first.outlets| && Was(run[p]) == []
  {
    var st := TurnOf(run, fs, around, first, last, p);
    assert Accepted(around(p, st).env) && Finds(around(p, st), |first.outlets|);
    GrownSince(run, fs, around, first, last, x, p);
    var o := OpensAt(run[p]);
    forall i | p < i < |run| && run[i].env.xudp.Known? ensures run[i].env.xudp.outlet != o {
      var st1 := TurnOf(run, fs, around, first, last, i);
      assert Finds(around(i, st1), |first.outlets|);
      assert Apart(around(p, st).env.xudp, around(i, st1).env.xudp);
    }
    var rest := run[p + 1..];
    forall i | 0 <= i < |rest| && rest[i].env.xudp.Known? ensures rest[i].env.xudp.outlet != o {
      assert rest[i] == run[p + 1 + i];
    }
  }

  /**
   * End to end, by conditions on the surroundings alone: some outlet of the worker holds, behind
   * what it held before, exactly what the writer n was given. It is a new outlet, and holds nothing
   * else, unless a frame of that writer finds an XUDP entry; then it is an old one, behind what that
   * had received before the transfer. It is open if it is new and the writer was not closed; without
   * a Global ID it is closed exactly if the writer was.
   */
  method Deliver(w: ServerWorker, source: seq<MultiBuffer>, around: Surroundings,
                 ghost lives: seq<Life>, ghost who: seq<nat>, ghost n: nat)
    returns (ghost o: nat, ghost was: bytes)
    requires w.st.Valid() && !w.st.closed && w.codec.Valid() && RegularSource(source)
    requires n < |lives| && !lives[n].followup && lives[n].given != []
    requires forall i :: 0 <= i < |lives| ==> Lived(w.codec, lives[i])
    requires forall i :: 0 <= i < |lives| && i != n ==> lives[i].flow.id != lives[n].flow.id
    requires Covers(who, Lens(Wires(lives))) && All(source) == Flatten(Merge(who, Wires(lives)))
    requires Sound(around) && SparesAlways(around, lives[n].flow.id) && Generous(around, |w.st.outlets|)
    modifies w
    ensures o < |w.st.outlets| && w.st.outlets[o].got == was + Given(lives[n].given)
    ensures if o < |old(w.st.outlets)| then old(w.st.outlets)[o].got <= was else was == []
    ensures (forall i: nat, st: State | st.Valid() :: !around(i, st).env.xudp.Known?) ==> o >= |old(w.st.outlets)|
    ensures lives[n].flow.globalId == NO_ID ==> (w.st.outlets[o].closed <==> lives[n].closed)
    ensures !lives[n].closed && o >= |old(w.st.outlets)| ==> !w.st.outlets[o].closed
  {
    GenerousIsWelcoming(around, |w.st.outlets|);
    ghost var first := w.st;
    ghost var run, last, p;
    run, last, p := Transfer(w, source, around, lives, who, n);
    OpensForGood(run, FramesOf(run), around, first, last, lives[n].flow.id, p);
    o, was := OpensAt(run[p]), Was(run[p]);
    if Continues(run[p]) {
      ghost var st := TurnOf(run, FramesOf(run), around, first, last, p);
      assert around(p, st).env.xudp.Known?;
    }
  }
}
