/**
 * The demultiplexer: ServerWorker.handleFrame and its four branches (common/mux/server.go), over
 * one link, any number of sessions and any segmentation of the incoming bytes.
 */
module MuxServer {
  import opened Bytes
  import opened MultiBuffers
  import opened Addresses
  import opened Chunks
  import opened MuxFrames

  // ---------------------------------------------------------------------------------------------
  // Frames on the link
  // ---------------------------------------------------------------------------------------------

  datatype Frame = Frame(meta: Meta, udp: UdpTag, payload: bytes) {
    ghost predicate Valid(c: Codec) {
      && meta.Valid() && CanonicalMeta(c, meta, udp) && MetaBody(c, meta, udp).Some?
      && |payload| <= BUF_SIZE
      && (!meta.option.data ==> payload == [])
    }

    function Data(): bytes
      requires |payload| <= BUF_SIZE
    {
      if meta.option.data then PutU16(|payload|) + payload else []
    }
  }

  ghost function EncodeFrame(c: Codec, f: Frame): bytes
    requires f.Valid(c)
  {
    MetaFrame(c, f.meta, f.udp) + f.Data()
  }

  ghost function EncodeFrames(c: Codec, fs: seq<Frame>): bytes
    requires forall i :: 0 <= i < |fs| ==> fs[i].Valid(c)
  {
    if fs == [] then [] else EncodeFrame(c, fs[0]) + EncodeFrames(c, fs[1..])
  }

  /** What a frame with the given data bit has behind its metadata, in any stream. */
  function Body(data: bool, s: bytes): bytes {
    if data then Payload(0, 1, s) else []
  }

  function Behind(data: bool, s: bytes): bytes {
    if data then Rest(0, 1, s) else s
  }

  lemma BodyOfFrame(f: Frame, more: bytes)
    requires |f.payload| <= BUF_SIZE && (!f.meta.option.data ==> f.payload == [])
    ensures Body(f.meta.option.data, f.Data() + more) == f.payload
    ensures Behind(f.meta.option.data, f.Data() + more) == more
  {
    if f.meta.option.data {
      var h, p := PutU16(|f.payload|), f.payload;
      Assoc(h, p, more);
      PayloadHeader(1, h, p + more);
      if p == [] {
        assert p + more == more;
      } else {
        PayloadStep(|p|, 0, p, more);
        assert p + [] == p;
      }
    } else {
      assert f.Data() + more == more;
    }
  }

  /** The metadata of a well-formed frame at the front of a stream. */
  lemma FrontOfFrame(c: Codec, f: Frame, more: bytes)
    requires c.Valid() && f.Valid(c)
    ensures var s := EncodeFrame(c, f) + more;
            && |s| >= 2 && 2 + U16(s[0], s[1]) <= |s|
            && FrontMeta(c, s) == Success(Received(f.meta, f.udp))
            && s[2 + U16(s[0], s[1])..] == f.Data() + more
  {
    var body := MetaBody(c, f.meta, f.udp).value;
    MetaBodyShort(c, f.meta, f.udp);
    MetaRoundTrip(c, f.meta, f.udp);
    FrontSlices(PutU16(|body|), body, f.Data(), more);
  }

  lemma FrontSlices(h: bytes, body: bytes, data: bytes, more: bytes)
    requires |h| == 2
    ensures var s := ((h + body) + data) + more;
            && s[0] == h[0] && s[1] == h[1]
            && s[2..2 + |body|] == body
            && s[2 + |body|..] == data + more
  {
  }

  // ---------------------------------------------------------------------------------------------
  // State
  // ---------------------------------------------------------------------------------------------

  /** The output of a session: what has arrived, and after how many more writes it fails. */
  datatype Outlet = Outlet(got: bytes, writes: int, closed: bool)

  /** A registered session; a packet session reads one packet per frame. */
  datatype Session = Session(outlet: nat, packet: bool, xudp: bool)

  datatype State = State(sessions: map<u16, Session>, outlets: seq<Outlet>, replies: seq<u16>, closed: bool)
  {
    ghost predicate Valid() {
      && (forall k | k in sessions :: sessions[k].outlet < |outlets|)
      && (forall j, k | j in sessions && k in sessions && j != k :: sessions[j].outlet != sessions[k].outlet)
    }

    /** SessionManager.Get finds nothing once the manager is closed. */
    predicate Finds(id: u16) {
      !closed && id in sessions
    }
  }

  /** What the manager of XUDP entries answers for a global id. */
  datatype Xudp = Unknown | Busy | Known(outlet: nat, previous: Option<u16>)

  /** The surroundings of one frame. */
  datatype Env = Env(networkAllowed: bool, dispatch: Option<int>, xudp: Xudp)

  /** Of the sessions here, an XUDP entry is attached to exactly the one that is to be detached. */
  predicate Consistent(st: State, env: Env) {
    env.xudp.Known? ==>
      && env.xudp.outlet < |st.outlets|
      && forall k | k in st.sessions ::
           st.sessions[k].outlet == env.xudp.outlet <==> env.xudp.previous == Some(k)
  }

  /** Session.Close on a registered session: removed, and its output closed unless XUDP keeps it. */
  function CloseSession(st: State, id: u16): State
    requires id in st.sessions && st.sessions[id].outlet < |st.outlets|
  {
    var s := st.sessions[id];
    st.(sessions := if st.closed then st.sessions else st.sessions - {id},
        outlets := if s.xudp then st.outlets else st.outlets[s.outlet := st.outlets[s.outlet].(closed := true)])
  }

  // ---------------------------------------------------------------------------------------------
  // What a frame may do
  // ---------------------------------------------------------------------------------------------

  /** Every write counts against an output that fails after some, and a body takes at least one. */
  predicate WritesLeft(before: int, after: int, body: bytes) {
    if before < 0 then after < 0 else 0 <= after <= before && (body != [] ==> after < before)
  }

  /** The body arrives at the outlet of the session, or a failed write closes it half way. */
  ghost predicate Delivers(st: State, id: u16, body: bytes, st1: State) {
    && id in st.sessions && st.sessions[id].outlet < |st.outlets|
    && var o := st.sessions[id].outlet;
    && o < |st1.outlets|
    && var before, after := st.outlets[o], st1.outlets[o];
    && (|| (after == before.(got := before.got + body, writes := after.writes)
            && WritesLeft(before.writes, after.writes, body)
            && st1 == st.(outlets := st.outlets[o := after]))
        || (before.writes >= 0
            && before.got <= after.got < before.got + body
            && st1 == CloseSession(st.(outlets := st.outlets[o := after.(closed := before.closed)]), id)))
  }

  /** A packet session reads packets that fit a buffer; a stream session reads any body. */
  predicate Readable(packet: bool, body: bytes) {
    packet ==> |body| <= BUF_SIZE
  }

  ghost predicate KeepStep(st: State, m: Meta, body: bytes, st1: State, ok: bool) {
    if !m.option.data then ok && st1 == st
    else if !st.Finds(m.id) then ok && st1 == st.(replies := st.replies + [m.id])
    else ok == Readable(st.sessions[m.id].packet, body) && (ok ==> Delivers(st, m.id, body, st1))
  }

  function EndStep(st: State, m: Meta): State
    requires m.id in st.sessions ==> st.sessions[m.id].outlet < |st.outlets|
  {
    if st.Finds(m.id) then CloseSession(st, m.id) else st
  }

  /** The state with a fresh outlet registered under id. */
  function Register(st: State, id: u16, o: Outlet, packet: bool, xudp: bool): State {
    st.(outlets := st.outlets + [o], sessions := st.sessions[id := Session(|st.outlets|, packet, xudp)])
  }

  ghost predicate PlainNewStep(st: State, m: Meta, body: bytes, env: Env, st1: State, ok: bool) {
    var packet := m.target.Target? && m.target.udp;
    ok == (env.dispatch.Some? && !st.closed && (m.option.data ==> Readable(packet, body))) &&
    (ok ==>
      var reg := Register(st, m.id, Outlet([], env.dispatch.value, false), packet, false);
      if m.option.data then Delivers(reg, m.id, body, st1) else st1 == reg)
  }

  /** Detaching an entry from the session it was attached to. */
  function Detach(st: State, env: Env): State
  {
    match env.xudp
    case Known(_, Some(k)) => if st.closed then st else st.(sessions := st.sessions - {k})
    case _ => st
  }

  /** A packet with a global id: to the entry's old outlet if that still works, else to a new one. */
  ghost predicate XudpStep(st: State, m: Meta, packet: bytes, env: Env, st1: State, ok: bool)
    requires Consistent(st, env)
  {
    if !Readable(true, packet) then !ok
    else if env.xudp.Busy? then ok && st1 == st
    else
      var d := Detach(st, env);
      if env.xudp.Known? && d.outlets[env.xudp.outlet].writes != 0 then
        var o := d.outlets[env.xudp.outlet];
        ok == !st.closed &&
        (ok ==> st1 == d.(outlets := d.outlets[env.xudp.outlet := o.(got := o.got + packet, writes := o.writes - 1)],
                          sessions := d.sessions[m.id := Session(env.xudp.outlet, true, true)]))
      else
        ok == (env.dispatch.Some? && !st.closed) &&
        (ok ==>
           var e := if env.xudp.Known? then
                      d.(outlets := d.outlets[env.xudp.outlet := d.outlets[env.xudp.outlet].(closed := true)])
                    else d;
           st1 == Register(e, m.id,
                    Outlet(if env.dispatch.value != 0 then packet else [],
                           if env.dispatch.value != 0 then env.dispatch.value - 1 else 0, false), true, true))
  }

  /** One frame, whichever branch runs. */
  ghost predicate FrameStep(st: State, m: Meta, body: bytes, env: Env, st1: State, ok: bool)
    requires st.Valid() && Consistent(st, env)
  {
    if m.status == KEEP_ALIVE then ok && st1 == st
    else if m.status == END then ok && st1 == EndStep(st, m)
    else if m.status == NEW then
      if !env.networkAllowed then !ok
      else if m.globalId != NO_ID then XudpStep(st, m, body, env, st1, ok)
      else PlainNewStep(st, m, body, env, st1, ok)
    else if m.status == KEEP then KeepStep(st, m, body, st1, ok)
    else !ok
  }

  // ---------------------------------------------------------------------------------------------
  // When a frame breaks the connection, and what else it does
  // ---------------------------------------------------------------------------------------------

  /**
   * A frame breaks the whole connection exactly if its status is none of 1 to 4; or it is a New frame
   * for a network that is not allowed, with a packet too large, or that cannot be registered or, where
   * that is needed, dispatched; or a Keep frame with a packet too large for its session. A Keep-alive
   * frame changes nothing.
   */
  lemma BreaksExactly(st: State, m: Meta, body: bytes, env: Env, st1: State, ok: bool)
    requires st.Valid() && Consistent(st, env) && FrameStep(st, m, body, env, st1, ok)
    ensures m.status == 4 ==> st1 == st
    ensures ok <==>
      || m.status == 4 || m.status == 3
      || (m.status == 2 &&
          (|body| <= 8192 || !m.option.data || st.closed || m.id !in st.sessions || !st.sessions[m.id].packet))
      || (m.status == 1 && env.networkAllowed && m.globalId == NO_ID && env.dispatch.Some? && !st.closed &&
          (|body| <= 8192 || !m.option.data || m.target.NoTarget? || !m.target.udp))
      || (m.status == 1 && env.networkAllowed && m.globalId != NO_ID && |body| <= 8192 &&
          (|| env.xudp.Busy?
           || (!st.closed && (env.dispatch.Some? || (env.xudp.Known? && st.outlets[env.xudp.outlet].writes != 0)))))
  {
  }

  /** The worker answers, with an End frame, exactly the data of Keep frames for sessions it does not know. */
  lemma RepliesExactly(st: State, m: Meta, body: bytes, env: Env, st1: State)
    requires st.Valid() && Consistent(st, env) && FrameStep(st, m, body, env, st1, true)
    ensures st1.replies == st.replies +
      if m.status == 2 && m.option.data && (st.closed || m.id !in st.sessions) then [m.id] else []
  {
    assert st.replies + [] == st.replies;
  }

  /**
   * A packet of a known XUDP entry whose old outlet does not take it: that outlet is closed as it is,
   * and the packet is the first on a fresh one. One whose old outlet takes it leaves that open or
   * closed as it was. The session the entry was attached to before is gone either way.
   */
  lemma TakenOver(st: State, m: Meta, body: bytes, env: Env, st1: State)
    requires st.Valid() && Consistent(st, env) && FrameStep(st, m, body, env, st1, true)
    requires m.status == 1 && m.globalId != NO_ID && env.xudp.Known?
    ensures var o, x := env.xudp.outlet, env.xudp.previous; var was := st.outlets[o];
      && (x.Some? && x.value != m.id ==> x.value !in st1.sessions)
      && m.id in st1.sessions && st1.sessions[m.id].packet && st1.sessions[m.id].xudp
      && if was.writes != 0 then
           && st1.sessions[m.id].outlet == o && |st1.outlets| == |st.outlets|
           && st1.outlets[o] == Outlet(was.got + body, was.writes - 1, was.closed)
         else
           && st1.sessions[m.id].outlet == |st.outlets| && |st1.outlets| == |st.outlets| + 1
           && st1.outlets[o] == Outlet(was.got, 0, true)
           && (env.dispatch.value != 0 ==>
                 st1.outlets[|st.outlets|] == Outlet(body, env.dispatch.value - 1, false))
  {
  }

  // ---------------------------------------------------------------------------------------------
  // The worker
  // ---------------------------------------------------------------------------------------------

  /** The stream holds the whole body. */
  predicate Whole(data: bool, s: bytes) {
    data ==> |s| >= 2 && |s| >= 2 + U16(s[0], s[1])
  }

  lemma WholePacket(s: bytes)
    requires |s| >= 2 && |s| >= 2 + U16(s[0], s[1])
    ensures Payload(0, 1, s) == s[2..2 + U16(s[0], s[1])]
    ensures Rest(0, 1, s) == s[2 + U16(s[0], s[1])..]
    ensures !CutShort(0, 1, s)
  {
    var n: nat := U16(s[0], s[1]);
    var h, p, more := s[..2], s[2..2 + n], s[2 + n..];
    assert s == h + (p + more);
    PayloadHeader(1, h, p + more);
    if n > 0 {
      PayloadStep(n, 0, p, more);
      assert p + [] == p;
    } else {
      assert p + more == more;
    }
  }

  class ServerWorker {
    const codec: Codec
    var st: State

    constructor (codec: Codec)
      ensures this.codec == codec
      ensures st == State(map[], [], [], false) && st.Valid()
    {
      this.codec := codec;
      st := State(map[], [], [], false);
    }

    /** PacketReader: the one packet of a frame. */
    static method ReadPacket(reader: BufferedReader) returns (packet: bytes, ok: bool)
      requires reader.Valid()
      modifies reader
      ensures reader.Valid()
      ensures ok <==> Whole(true, old(reader.Remaining())) && Readable(true, Body(true, old(reader.Remaining())))
      ensures ok ==> packet == Body(true, old(reader.Remaining())) && |packet| <= BUF_SIZE
      ensures ok ==> reader.Remaining() == Behind(true, old(reader.Remaining()))
    {
      ghost var s := reader.Remaining();
      var h, status := reader.ReadFull(2);
      if status != Ok {
        return [], false;
      }
      assert h[0] == s[0] && h[1] == s[1] && reader.Remaining() == s[2..];
      if Whole(true, s) {
        WholePacket(s);
      }
      var size := U16(h[0], h[1]);
      if size > BUF_SIZE {
        return [], false;
      }
      packet, status := reader.ReadFull(size);
      ok := status == Ok;
      if ok {
        assert packet == s[2..][..size] && reader.Remaining() == s[2..][size..];
      }
    }

    /** buf.Copy(NewStreamReader(reader), buf.Discard). */
    static method Discard(reader: BufferedReader) returns (ok: bool)
      requires reader.Valid()
      modifies reader
      ensures reader.Valid()
      ensures reader.Remaining() == Behind(true, old(reader.Remaining()))
      ensures Whole(true, old(reader.Remaining())) ==> ok
    {
      ghost var s := reader.Remaining();
      if Whole(true, s) {
        WholePacket(s);
      }
      var rr := new ChunkStreamReader(reader, 1);
      var sink := new Sink(-1);
      var result := rr.Copy(sink);
      ok := result == Copied;
    }

    /** The outlet of a session after n bytes more have been accepted. */
    static lemma PrefixDelivered(st: State, id: u16, body: bytes, part: bytes, more: bytes, writes: int)
      requires st.Valid() && id in st.sessions
      requires st.outlets[st.sessions[id].outlet].writes >= 0
      requires body == part + more && more != []
      ensures var o := st.sessions[id].outlet;
              var before := st.outlets[o];
              var half := st.(outlets := st.outlets[o := before.(got := before.got + part, writes := writes)]);
              Delivers(st, id, body, CloseSession(half, id))
    {
      var o := st.sessions[id].outlet;
      var before := st.outlets[o];
      var after := before.(got := before.got + part, writes := writes);
      var half := st.(outlets := st.outlets[o := after]);
      var st1 := CloseSession(half, id);
      assert before.got + body == (before.got + part) + more;
      assert |before.got + part| < |before.got + body|;
      assert st1.outlets[o].(closed := before.closed) == after;
    }

    /** Copies the body of a frame to an output; after a failed write the rest of it is skipped. */
    static method CopyOrSkip(reader: BufferedReader, writes: int)
      returns (got: bytes, left: int, failed: bool, ok: bool)
      requires reader.Valid()
      modifies reader
      ensures reader.Valid()
      ensures failed ==> writes >= 0 && got < Body(true, old(reader.Remaining()))
      ensures !failed ==> got == Body(true, old(reader.Remaining())) && WritesLeft(writes, left, got)
      ensures reader.Remaining() == Behind(true, old(reader.Remaining()))
      ensures Whole(true, old(reader.Remaining())) ==> ok
    {
      ghost var s := reader.Remaining();
      if Whole(true, s) {
        WholePacket(s);
      }
      var rr := new ChunkStreamReader(reader, 1);
      var sink := new Sink(writes);
      ghost var body := rr.ToCome();
      var result := rr.Copy(sink);
      got, left, failed := sink.got, sink.writes, result == WriteFailed;
      assert [] + body == body;
      if failed {
        ghost var lost :| lost != [] && [] + body == sink.got + (lost + rr.ToCome());
        ok := SkipRest(rr);
      } else {
        ok := result == Copied;
      }
    }

    /** buf.Copy(rr, buf.Discard), behind a failed write. */
    static method SkipRest(rr: ChunkStreamReader) returns (ok: bool)
      requires rr.reader.Valid()
      modifies rr, rr.reader
      ensures rr.reader.Valid()
      ensures rr.reader.Remaining() == old(rr.Afterwards())
      ensures ok <==> !old(rr.WillFail())
    {
      var sink := new Sink(-1);
      var result := rr.Copy(sink);
      ok := result == Copied;
    }

    /** Copies the body of a frame to a stream session; a failed write closes it. */
    method CopyStream(reader: BufferedReader, id: u16) returns (ok: bool)
      requires reader.Valid() && st.Valid() && id in st.sessions
      modifies this, reader
      ensures reader.Valid()
      ensures Delivers(old(st), id, Body(true, old(reader.Remaining())), st)
      ensures reader.Remaining() == Behind(true, old(reader.Remaining()))
      ensures Whole(true, old(reader.Remaining())) ==> ok
    {
      var o := st.sessions[id].outlet;
      var outlet := st.outlets[o];
      ghost var body := Body(true, reader.Remaining());
      var got, left, failed;
      got, left, failed, ok := CopyOrSkip(reader, outlet.writes);
      if failed {
        PrefixDelivered(st, id, body, got, body[|got|..], left);
      }
      st := st.(outlets := st.outlets[o := outlet.(got := outlet.got + got, writes := left)]);
      if failed {
        st := CloseSession(st, id);
      }
    }

    /** The same for a packet session: one packet, one write. */
    method CopyPacket(reader: BufferedReader, id: u16) returns (ok: bool)
      requires reader.Valid() && st.Valid() && id in st.sessions
      modifies this, reader
      ensures reader.Valid()
      ensures ok <==> Whole(true, old(reader.Remaining())) && Readable(true, Body(true, old(reader.Remaining())))
      ensures ok ==> Delivers(old(st), id, Body(true, old(reader.Remaining())), st)
      ensures ok ==> reader.Remaining() == Behind(true, old(reader.Remaining()))
    {
      var packet;
      packet, ok := ReadPacket(reader);
      if !ok {
        return;
      }
      var o := st.sessions[id].outlet;
      var outlet := st.outlets[o];
      if packet == [] {
        assert outlet.got + packet == outlet.got;
        assert st.outlets[o := outlet] == st.outlets;
      } else if outlet.writes == 0 {
        PrefixDelivered(st, id, packet, [], packet, outlet.writes);
        assert outlet.got + [] == outlet.got;
        assert st.outlets[o := outlet] == st.outlets;
        st := CloseSession(st, id);
      } else {
        st := st.(outlets := st.outlets[o := outlet.(got := outlet.got + packet, writes := outlet.writes - 1)]);
      }
    }

    method CopyBody(reader: BufferedReader, id: u16) returns (ok: bool)
      requires reader.Valid() && st.Valid() && id in st.sessions
      modifies this, reader
      ensures reader.Valid()
      ensures Whole(true, old(reader.Remaining())) ==>
                && ok == Readable(old(st.sessions[id].packet), Body(true, old(reader.Remaining())))
                && (ok ==> Delivers(old(st), id, Body(true, old(reader.Remaining())), st))
      ensures ok ==> reader.Remaining() == Behind(true, old(reader.Remaining()))
    {
      if st.sessions[id].packet {
        ok := CopyPacket(reader, id);
      } else {
        ok := CopyStream(reader, id);
      }
    }

    method HandleStatusKeepAlive(m: Meta, reader: BufferedReader) returns (ok: bool)
      requires reader.Valid()
      modifies reader
      ensures reader.Valid()
      ensures Whole(m.option.data, old(reader.Remaining())) ==> ok
      ensures ok ==> reader.Remaining() == Behind(m.option.data, old(reader.Remaining()))
    {
      ok := true;
      if m.option.data {
        ok := Discard(reader);
      }
    }

    method HandleStatusEnd(m: Meta, reader: BufferedReader) returns (ok: bool)
      requires reader.Valid() && st.Valid()
      modifies this, reader
      ensures reader.Valid() && st == EndStep(old(st), m)
      ensures Whole(m.option.data, old(reader.Remaining())) ==> ok
      ensures ok ==> reader.Remaining() == Behind(m.option.data, old(reader.Remaining()))
    {
      if st.Finds(m.id) {
        st := CloseSession(st, m.id);
      }
      ok := true;
      if m.option.data {
        ok := Discard(reader);
      }
    }

    method HandleStatusKeep(m: Meta, reader: BufferedReader) returns (ok: bool)
      requires reader.Valid() && st.Valid()
      modifies this, reader
      ensures reader.Valid()
      ensures Whole(m.option.data, old(reader.Remaining())) ==>
                KeepStep(old(st), m, Body(m.option.data, old(reader.Remaining())), st, ok)
      ensures ok ==> reader.Remaining() == Behind(m.option.data, old(reader.Remaining()))
    {
      if !m.option.data {
        return true;
      }
      if !st.Finds(m.id) {
        st := st.(replies := st.replies + [m.id]);
        ok := Discard(reader);
        return;
      }
      ok := CopyBody(reader, m.id);
    }

    /** A new session for the target of the frame. */
    method HandlePlainNew(m: Meta, reader: BufferedReader, env: Env) returns (ok: bool)
      requires reader.Valid() && st.Valid()
      modifies this, reader
      ensures reader.Valid()
      ensures Whole(m.option.data, old(reader.Remaining())) ==>
                PlainNewStep(old(st), m, Body(m.option.data, old(reader.Remaining())), env, st, ok)
      ensures ok ==> reader.Remaining() == Behind(m.option.data, old(reader.Remaining()))
    {
      if env.dispatch == None {
        if m.option.data {
          var _ := Discard(reader);
        }
        return false;
      }
      if st.closed {
        return false;
      }
      var packet := m.target.Target? && m.target.udp;
      RegisterValid(st, m.id, Outlet([], env.dispatch.value, false), packet, false);
      st := Register(st, m.id, Outlet([], env.dispatch.value, false), packet, false);
      if !m.option.data {
        return true;
      }
      ok := CopyBody(reader, m.id);
    }

    /** A packet that belongs to an XUDP entry, which may outlive the link it came in on. */
    method HandleXudp(m: Meta, reader: BufferedReader, env: Env) returns (ok: bool)
      requires reader.Valid() && st.Valid() && Consistent(st, env)
      modifies this, reader
      ensures reader.Valid()
      ensures Whole(true, old(reader.Remaining())) ==>
                XudpStep(old(st), m, Body(true, old(reader.Remaining())), env, st, ok)
      ensures ok ==> reader.Remaining() == Behind(true, old(reader.Remaining()))
    {
      var packet;
      packet, ok := ReadPacket(reader);
      if !ok || env.xudp.Busy? {
        return;
      }
      st := Detach(st, env);
      var attached := None;
      if env.xudp.Known? {
        var outlet := st.outlets[env.xudp.outlet];
        if outlet.writes != 0 {
          outlet := outlet.(got := outlet.got + packet, writes := outlet.writes - 1);
          attached := Some(env.xudp.outlet);
        } else {
          outlet := outlet.(closed := true);
        }
        st := st.(outlets := st.outlets[env.xudp.outlet := outlet]);
      }
      if attached == None {
        if env.dispatch == None {
          return false;
        }
        var w := env.dispatch.value;
        attached := Some(|st.outlets|);
        st := st.(outlets := st.outlets + [Outlet(if w != 0 then packet else [], if w != 0 then w - 1 else 0, false)]);
      }
      if st.closed {
        return false;
      }
      st := st.(sessions := st.sessions[m.id := Session(attached.value, true, true)]);
    }

    method HandleStatusNew(m: Meta, reader: BufferedReader, env: Env) returns (ok: bool)
      requires reader.Valid() && st.Valid() && Consistent(st, env) && m.status == NEW
      requires m.globalId != NO_ID ==> m.option.data
      modifies this, reader
      ensures reader.Valid()
      ensures Whole(m.option.data, old(reader.Remaining())) ==>
                FrameStep(old(st), m, Body(m.option.data, old(reader.Remaining())), env, st, ok)
      ensures ok ==> reader.Remaining() == Behind(m.option.data, old(reader.Remaining()))
    {
      if !env.networkAllowed {
        return false;
      }
      if m.globalId != NO_ID {
        ok := HandleXudp(m, reader, env);
      } else {
        ok := HandlePlainNew(m, reader, env);
      }
    }

    /**
     * One frame. Whenever the worker goes on, the stream stands at the next frame, in every branch;
     * and on a complete frame the state changes as FrameStep says.
     */
    method HandleFrame(reader: BufferedReader, env: Env) returns (ok: bool)
      requires reader.Valid() && st.Valid() && Consistent(st, env)
      modifies this, reader
      ensures reader.Valid()
      ensures FrontMeta(codec, old(reader.Remaining())).Failure? ==> !ok && st == old(st)
      ensures FrontMeta(codec, old(reader.Remaining())).Success? ==>
                var s := old(reader.Remaining());
                var m := FrontMeta(codec, s).meta;
                var body := s[2 + U16(s[0], s[1])..];
                && (ok ==> reader.Remaining() == Behind(m.option.data, body))
                && (Whole(m.option.data, body) ==>
                      FrameStep(old(st), m, Body(m.option.data, body), env, st, ok))
    {
      ghost var s := reader.Remaining();
      var r := Unmarshal(codec, reader);
      if r.Failure? {
        return false;
      }
      var m := r.meta;
      GlobalIdNeedsData(codec, s);
      if m.status == KEEP_ALIVE {
        ok := HandleStatusKeepAlive(m, reader);
      } else if m.status == END {
        ok := HandleStatusEnd(m, reader);
      } else if m.status == NEW {
        ok := HandleStatusNew(m, reader, env);
      } else if m.status == KEEP {
        ok := HandleStatusKeep(m, reader);
      } else {
        ok := false;
      }
    }
  }

  lemma GlobalIdNeedsData(c: Codec, s: bytes)
    ensures var r := FrontMeta(c, s);
            r.Success? && r.meta.globalId != NO_ID ==> r.meta.status == NEW && r.meta.option.data
  {
  }

  lemma RegisterValid(st: State, id: u16, o: Outlet, packet: bool, xudp: bool)
    requires st.Valid()
    ensures Register(st, id, o, packet, xudp).Valid()
  {
  }
}
