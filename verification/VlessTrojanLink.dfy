/**
 * Share links (v2root/parser.go) at the level of the query map: what the parsers of vless and trojan
 * links read from it and what the printers write into it. The part of the link before the query,
 * the fragment, and the text form of the query are not modelled.
 */
module Links {
  import opened Bytes

  /** The query parameters the parsers and printers know, under Go-like names. */
  datatype Key =
    | Encryption | Flow | Type | Security | HeaderType | Path | Host | QuicSecurity | QuicKey | Seed
    | ServiceName | Mode | Sni | Alpn | Fp | AllowInsecure | Pbk | Sid | Spx

  type Query = map<Key, string>

  /** url.Values.Get: a missing parameter is empty. */
  function Get(q: Query, k: Key): string {
    if k in q then q[k] else ""
  }

  function Find(q: Query, k: Key): Option<string> {
    if k in q then Some(q[k]) else None
  }

  function NonEmpty(s: string): Option<string> {
    if s != "" then Some(s) else None
  }

  function Or(x: Option<string>, y: Option<string>): Option<string> {
    if x.Some? then x else y
  }

  // ---------------------------------------------------------------------------------------------
  // strings.Split and strings.Join at commas
  // ---------------------------------------------------------------------------------------------

  function Split(s: string): (parts: seq<string>)
    ensures parts != []
  {
    if s == "" then [""]
    else if s[0] == ',' then [""] + Split(s[1..])
    else var rest := Split(s[1..]); [[s[0]] + rest[0]] + rest[1..]
  }

  function Join(parts: seq<string>): string {
    if parts == [] then "" else if |parts| == 1 then parts[0] else parts[0] + "," + Join(parts[1..])
  }

  lemma {:induction false} JoinSplit(s: string)
    ensures Join(Split(s)) == s
  {
    if s != "" {
      JoinSplit(s[1..]);
      var rest := Split(s[1..]);
      if s[0] == ',' {
        assert ([""] + rest)[1..] == rest;
        assert s == "," + s[1..];
      } else {
        var parts := [[s[0]] + rest[0]] + rest[1..];
        assert parts[0] == [s[0]] + rest[0] && parts[1..] == rest[1..];
        assert s == [s[0]] + s[1..];
      }
    }
  }

  /** What the parsers do with a parameter that may be missing. */
  function SplitNonEmpty(s: string): (parts: seq<string>) {
    if s == "" then [] else Split(s)
  }

  function JoinNonEmpty(parts: seq<string>): Option<string> {
    if parts == [] then None else Some(Join(parts))
  }

  // ---------------------------------------------------------------------------------------------
  // Outbounds
  // ---------------------------------------------------------------------------------------------

  datatype Request = Request(path: seq<string>, hosts: Option<seq<string>>)
  datatype Header = Header(kind: string, request: Option<Request>)
  datatype Ws = Ws(path: string, host: Option<string>)
  datatype Http = Http(path: string, hosts: seq<string>)
  datatype Quic = Quic(security: string, key: string, header: Option<string>)
  datatype Kcp = Kcp(seed: string, header: Option<string>)
  datatype Grpc = Grpc(serviceName: string, multiMode: bool)
  datatype Tls = Tls(sni: string, alpn: seq<string>, fp: string, allowInsecure: bool)
  datatype Reality = Reality(sni: string, fp: string, pbk: string, sid: string, spx: string)

  datatype Stream = Stream(
    network: string, security: string, tls: Option<Tls>, reality: Option<Reality>, tcp: Option<Header>,
    ws: Option<Ws>, http: Option<Http>, quic: Option<Quic>, kcp: Option<Kcp>, grpc: Option<Grpc>)

  datatype Outbound = Outbound(encryption: string, flow: string, stream: Stream)

  // ---------------------------------------------------------------------------------------------
  // Parsing
  // ---------------------------------------------------------------------------------------------

  function ParseTls(q: Query): Tls {
    Tls(Get(q, Sni), SplitNonEmpty(Get(q, Alpn)), Get(q, Fp), Get(q, AllowInsecure) == "1")
  }

  function ParseReality(q: Query): Reality {
    Reality(Get(q, Sni), Get(q, Fp), Get(q, Pbk), Get(q, Sid), Get(q, Spx))
  }

  function ParseStream(q: Query, network: string, security: string, tcpPath: seq<string>): Stream {
    var host := NonEmpty(Get(q, Host));
    Stream(
      network, security,
      if security == "tls" || security == "reality" then Some(ParseTls(q)) else None,
      if security == "reality" then Some(ParseReality(q)) else None,
      if network == "tcp" && Get(q, HeaderType) == "http"
        then Some(Header("http", Some(Request(tcpPath, if host.Some? then Some([host.value]) else None)))) else None,
      if network == "ws" then Some(Ws(Get(q, Path), host)) else None,
      if network == "http" then Some(Http(Get(q, Path), SplitNonEmpty(Get(q, Host)))) else None,
      if network == "quic" then Some(Quic(Get(q, QuicSecurity), Get(q, QuicKey), Some(Get(q, HeaderType)))) else None,
      if network == "kcp" then Some(Kcp(Get(q, Seed), Some(Get(q, HeaderType)))) else None,
      if network == "grpc" then Some(Grpc(Get(q, ServiceName), Get(q, Mode) == "multi")) else None)
  }

  function Default(s: string, d: string): string {
    if s == "" then d else s
  }

  /** A vless link is refused if it names an encryption, and a reality link if it has no public key. */
  function ParseVless(q: Query): Option<Outbound> {
    var security := Default(Get(q, Security), "none");
    if Default(Get(q, Encryption), "none") != "none" || (security == "reality" && Get(q, Pbk) == "") then None
    else Some(Outbound("none", Get(q, Flow),
                       ParseStream(q, Default(Get(q, Type), "tcp"), security, SplitNonEmpty(Get(q, Path)))))
  }

  function ParseTrojan(q: Query): Option<Outbound> {
    var security := Default(Get(q, Security), "tls");
    if security == "reality" && Get(q, Pbk) == "" then None
    else Some(Outbound("", Get(q, Flow), ParseStream(q, Default(Get(q, Type), "tcp"), security, Split(Get(q, Path)))))
  }

  // ---------------------------------------------------------------------------------------------
  // Printing: the value of every parameter, then the printers that fill the query
  // ---------------------------------------------------------------------------------------------

  function TcpPath(s: Stream): Option<string> {
    if s.tcp.Some? && s.tcp.value.request.Some? then JoinNonEmpty(s.tcp.value.request.value.path) else None
  }

  function TcpHost(s: Stream): Option<string> {
    if s.tcp.Some? && s.tcp.value.request.Some? && s.tcp.value.request.value.hosts.Some? &&
        s.tcp.value.request.value.hosts.value != []
    then Some(s.tcp.value.request.value.hosts.value[0]) else None
  }

  /** The value a stream gives to a parameter; of several settings the one set last wins. */
  function StreamValue(s: Stream, k: Key): Option<string> {
    var reality := if s.security == "reality" then s.reality else None;
    match k
    case HeaderType =>
      Or(if s.kcp.Some? && s.kcp.value.header.Some? then NonEmpty(s.kcp.value.header.value) else None,
         if s.tcp.Some? then Some(s.tcp.value.kind) else None)
    case Path =>
      Or(if s.http.Some? then NonEmpty(s.http.value.path) else None,
         Or(if s.ws.Some? then NonEmpty(s.ws.value.path) else None, TcpPath(s)))
    case Host =>
      Or(if s.http.Some? then JoinNonEmpty(s.http.value.hosts) else None,
         Or(if s.ws.Some? && s.ws.value.host.Some? then NonEmpty(s.ws.value.host.value) else None, TcpHost(s)))
    case QuicSecurity => if s.quic.Some? then NonEmpty(s.quic.value.security) else None
    case QuicKey => if s.quic.Some? then NonEmpty(s.quic.value.key) else None
    case Seed => if s.kcp.Some? then NonEmpty(s.kcp.value.seed) else None
    case ServiceName => if s.grpc.Some? then NonEmpty(s.grpc.value.serviceName) else None
    case Mode => if s.grpc.Some? && s.grpc.value.multiMode then Some("multi") else None
    case Sni =>
      Or(if reality.Some? then NonEmpty(reality.value.sni) else None,
         if s.tls.Some? then NonEmpty(s.tls.value.sni) else None)
    case Alpn => if s.tls.Some? then JoinNonEmpty(s.tls.value.alpn) else None
    case Fp =>
      Or(if reality.Some? then NonEmpty(reality.value.fp) else None,
         if s.tls.Some? then NonEmpty(s.tls.value.fp) else None)
    case Pbk => if reality.Some? then NonEmpty(reality.value.pbk) else None
    case Sid => if reality.Some? then NonEmpty(reality.value.sid) else None
    case Spx => if reality.Some? then NonEmpty(reality.value.spx) else None
    case _ => None
  }

  function Unless(s: string, d: string): Option<string> {
    if s == "" || s == d then None else Some(s)
  }

  function VlessValue(o: Outbound, k: Key): Option<string> {
    match k
    case Encryption => Unless(o.encryption, "none")
    case Flow => NonEmpty(o.flow)
    case Type => Unless(o.stream.network, "tcp")
    case Security => Unless(o.stream.security, "none")
    case _ => StreamValue(o.stream, k)
  }

  /** The trojan printer looks only at the settings of the network in use. */
  function InUse(s: Stream): Stream {
    s.(ws := if s.network == "ws" then s.ws else None,
       http := if s.network == "http" then s.http else None,
       quic := if s.network == "quic" then s.quic else None,
       kcp := if s.network == "kcp" then s.kcp else None,
       grpc := if s.network == "grpc" then s.grpc else None)
  }

  function TrojanValue(o: Outbound, k: Key): Option<string> {
    match k
    case Encryption => None
    case Flow => NonEmpty(o.flow)
    case Type => Unless(o.stream.network, "tcp")
    case Security => NonEmpty(o.stream.security)
    case _ => StreamValue(InUse(o.stream), k)
  }

  /** query.Set, if there is something to set. */
  function Put(q: Query, k: Key, v: Option<string>): Query {
    if v.Some? then q[k := v.value] else q
  }

  lemma PutFind(q: Query, k: Key, v: Option<string>, j: Key)
    ensures Find(Put(q, k, v), j) == if j == k then Or(v, Find(q, j)) else Find(q, j)
  {
  }

  function PutTcp(q: Query, s: Stream): Query {
    Put(Put(Put(q, HeaderType, TcpKind(s)), Path, TcpPath(s)), Host, TcpHost(s))
  }

  function TcpKind(s: Stream): Option<string> {
    if s.tcp.Some? then Some(s.tcp.value.kind) else None
  }

  function PutWs(q: Query, s: Stream): Query {
    if s.ws.None? then q
    else Put(Put(q, Path, NonEmpty(s.ws.value.path)), Host,
        if s.ws.value.host.Some? then NonEmpty(s.ws.value.host.value) else None)
  }

  function PutHttp(q: Query, s: Stream): Query {
    if s.http.None? then q
    else Put(Put(q, Path, NonEmpty(s.http.value.path)), Host, JoinNonEmpty(s.http.value.hosts))
  }

  function PutQuic(q: Query, s: Stream): Query {
    if s.quic.None? then q
    else Put(Put(q, QuicSecurity, NonEmpty(s.quic.value.security)), QuicKey, NonEmpty(s.quic.value.key))
  }

  function PutKcp(q: Query, s: Stream): Query {
    if s.kcp.None? then q
    else Put(Put(q, Seed, NonEmpty(s.kcp.value.seed)), HeaderType,
        if s.kcp.value.header.Some? then NonEmpty(s.kcp.value.header.value) else None)
  }

  function PutGrpc(q: Query, s: Stream): Query {
    if s.grpc.None? then q
    else Put(Put(q, ServiceName, NonEmpty(s.grpc.value.serviceName)), Mode,
        if s.grpc.value.multiMode then Some("multi") else None)
  }

  function PutTls(q: Query, s: Stream): Query {
    if s.tls.None? then q
    else Put(Put(Put(q, Sni, NonEmpty(s.tls.value.sni)), Alpn, JoinNonEmpty(s.tls.value.alpn)), Fp,
        NonEmpty(s.tls.value.fp))
  }

  function PutReality(q: Query, s: Stream): Query {
    if s.security != "reality" || s.reality.None? then q
    else
      var rs := s.reality.value;
      Put(Put(Put(Put(Put(q, Sni, NonEmpty(rs.sni)), Fp, NonEmpty(rs.fp)), Pbk, NonEmpty(rs.pbk)),
          Sid, NonEmpty(rs.sid)), Spx, NonEmpty(rs.spx))
  }

  function VlessHead(o: Outbound): Query {
    var q := Put(Put(map[], Encryption, Unless(o.encryption, "none")), Flow, NonEmpty(o.flow));
    Put(Put(q, Type, Unless(o.stream.network, "tcp")), Security, Unless(o.stream.security, "none"))
  }

  function PutNetwork(q: Query, s: Stream): Query {
    PutGrpc(PutKcp(PutQuic(PutHttp(PutWs(q, s), s), s), s), s)
  }

  function PutSecurity(q: Query, s: Stream): Query {
    PutReality(PutTls(q, s), s)
  }

  function BuildVless(o: Outbound): Query {
    PutSecurity(PutNetwork(PutTcp(VlessHead(o), o.stream), o.stream), o.stream)
  }

  function TrojanHead(o: Outbound): Query {
    Put(Put(Put(map[], Flow, NonEmpty(o.flow)), Type, Unless(o.stream.network, "tcp")), Security,
        NonEmpty(o.stream.security))
  }

  function BuildTrojan(o: Outbound): Query {
    PutTrojanNetwork(PutTcp(PutSecurity(TrojanHead(o), o.stream), o.stream), o.stream)
  }

  function PutTrojanNetwork(q: Query, s: Stream): Query {
    if s.network == "ws" then PutWs(q, s)
    else if s.network == "http" then PutHttp(q, s)
    else if s.network == "quic" then PutQuic(q, s)
    else if s.network == "kcp" then PutKcp(q, s)
    else if s.network == "grpc" then PutGrpc(q, s)
    else q
  }

  /** The settings that concern tcp, or a network, or the security. */
  function OnlyTcp(s: Stream): Stream {
    Stream(s.network, s.security, None, None, s.tcp, None, None, None, None, None)
  }

  function OnlyNetwork(s: Stream): Stream {
    s.(tls := None, reality := None, tcp := None)
  }

  function OnlySecurity(s: Stream): Stream {
    Stream(s.network, s.security, s.tls, s.reality, None, None, None, None, None, None)
  }

  lemma TcpFind(q: Query, s: Stream, k: Key)
    ensures Find(PutTcp(q, s), k) == Or(StreamValue(OnlyTcp(s), k), Find(q, k))
  {
    var q1 := Put(q, HeaderType, TcpKind(s));
    var q2 := Put(q1, Path, TcpPath(s));
    PutFind(q, HeaderType, TcpKind(s), k);
    PutFind(q1, Path, TcpPath(s), k);
    PutFind(q2, Host, TcpHost(s), k);
  }

  lemma WsFind(q: Query, s: Stream, k: Key)
    ensures Find(PutWs(q, s), k) ==
        Or(StreamValue(Stream("", "", None, None, None, s.ws, None, None, None, None), k), Find(q, k))
  {
  }

  lemma HttpFind(q: Query, s: Stream, k: Key)
    ensures Find(PutHttp(q, s), k) ==
        Or(StreamValue(Stream("", "", None, None, None, None, s.http, None, None, None), k), Find(q, k))
  {
  }

  lemma QuicFind(q: Query, s: Stream, k: Key)
    ensures Find(PutQuic(q, s), k) ==
        Or(StreamValue(Stream("", "", None, None, None, None, None, s.quic, None, None), k), Find(q, k))
  {
  }

  lemma KcpFind(q: Query, s: Stream, k: Key)
    ensures Find(PutKcp(q, s), k) ==
        Or(StreamValue(Stream("", "", None, None, None, None, None, None, s.kcp, None), k), Find(q, k))
  {
  }

  lemma GrpcFind(q: Query, s: Stream, k: Key)
    ensures Find(PutGrpc(q, s), k) ==
        Or(StreamValue(Stream("", "", None, None, None, None, None, None, None, s.grpc), k), Find(q, k))
  {
  }

  lemma TlsFind(q: Query, s: Stream, k: Key)
    ensures Find(PutTls(q, s), k) ==
        Or(StreamValue(Stream("", "", s.tls, None, None, None, None, None, None, None), k), Find(q, k))
  {
  }

  lemma RealityFind(q: Query, s: Stream, k: Key)
    ensures Find(PutReality(q, s), k) ==
        Or(StreamValue(Stream("", s.security, None, s.reality, None, None, None, None, None, None), k), Find(q, k))
  {
  }

  lemma NetworkFind(q: Query, s: Stream, k: Key)
    ensures Find(PutNetwork(q, s), k) == Or(StreamValue(OnlyNetwork(s), k), Find(q, k))
  {
    WsFind(q, s, k);
    HttpFind(PutWs(q, s), s, k);
    QuicFind(PutHttp(PutWs(q, s), s), s, k);
    KcpFind(PutQuic(PutHttp(PutWs(q, s), s), s), s, k);
    GrpcFind(PutKcp(PutQuic(PutHttp(PutWs(q, s), s), s), s), s, k);
  }

  lemma SecurityFind(q: Query, s: Stream, k: Key)
    ensures Find(PutSecurity(q, s), k) == Or(StreamValue(OnlySecurity(s), k), Find(q, k))
  {
    TlsFind(q, s, k);
    RealityFind(PutTls(q, s), s, k);
  }

  /** Put together, the settings give a parameter the value that the whole stream gives it. */
  lemma StreamParts(s: Stream, k: Key)
    ensures StreamValue(s, k) ==
            Or(StreamValue(OnlySecurity(s), k), Or(StreamValue(OnlyNetwork(s), k), StreamValue(OnlyTcp(s), k)))
  {
  }

  lemma VlessHeadFind(o: Outbound, k: Key)
    ensures Find(VlessHead(o), k) ==
            if k in {Encryption, Flow, Type, Security} then VlessValue(o, k) else None
  {
  }

  lemma TrojanHeadFind(o: Outbound, k: Key)
    ensures Find(TrojanHead(o), k) == if k in {Encryption, Flow, Type, Security} then TrojanValue(o, k) else None
  {
  }

  /** The query printed for a vless outbound gives every parameter its value. */
  lemma BuildVlessValue(o: Outbound, k: Key)
    ensures Find(BuildVless(o), k) == VlessValue(o, k)
  {
    var s := o.stream;
    VlessHeadFind(o, k);
    TcpFind(VlessHead(o), s, k);
    NetworkFind(PutTcp(VlessHead(o), s), s, k);
    SecurityFind(PutNetwork(PutTcp(VlessHead(o), s), s), s, k);
    StreamParts(s, k);
  }

  lemma TrojanNetworkIs(q: Query, s: Stream)
    ensures PutTrojanNetwork(q, s) == PutNetwork(q, InUse(s))
  {
    assert |"ws"| == 2 && |"http"| == 4 && |"quic"| == 4 && |"kcp"| == 3 && |"grpc"| == 4;
    assert "http"[0] == 'h' && "quic"[0] == 'q' && "grpc"[0] == 'g';
  }

  lemma TrojanNetworkFind(q: Query, s: Stream, k: Key)
    ensures Find(PutTrojanNetwork(q, s), k) == Or(StreamValue(OnlyNetwork(InUse(s)), k), Find(q, k))
  {
    TrojanNetworkIs(q, s);
    NetworkFind(q, InUse(s), k);
  }

  lemma BuildTrojanValue(o: Outbound, k: Key)
    ensures Find(BuildTrojan(o), k) == TrojanValue(o, k)
  {
    var s := o.stream;
    TrojanHeadFind(o, k);
    SecurityFind(TrojanHead(o), s, k);
    TcpFind(PutSecurity(TrojanHead(o), s), s, k);
    TrojanNetworkFind(PutTcp(PutSecurity(TrojanHead(o), s), s), s, k);
    StreamParts(InUse(s), k);
  }

  // ---------------------------------------------------------------------------------------------
  // Printing what was parsed, and parsing it again
  // ---------------------------------------------------------------------------------------------

  /** What a printed link does not carry: AllowInsecure and the header type of quic. */
  function Forget(o: Outbound): Outbound {
    o.(stream := o.stream.(
      tls := if o.stream.tls.Some? then Some(o.stream.tls.value.(allowInsecure := false)) else None,
      quic := if o.stream.quic.Some? then Some(o.stream.quic.value.(header := Some(""))) else None))
  }

  lemma SplitAgain(s: string)
    ensures JoinNonEmpty(SplitNonEmpty(s)) == NonEmpty(s)
    ensures JoinNonEmpty(Split(s)) == Some(s)
  {
    JoinSplit(s);
  }

  lemma SameQuery(q: Query, r: Query)
    requires forall k :: Find(q, k) == Find(r, k)
    ensures q == r
  {
    forall k ensures k in q <==> k in r {
      assert Find(q, k) == Find(r, k);
    }
    forall k | k in q ensures q[k] == r[k] {
      assert Find(q, k) == Find(r, k);
    }
  }

  lemma ForgetVlessValue(o: Outbound, k: Key)
    ensures VlessValue(Forget(o), k) == VlessValue(o, k)
  {
  }

  lemma ForgetTrojanValue(o: Outbound, k: Key)
    ensures TrojanValue(Forget(o), k) == TrojanValue(o, k)
  {
  }

  /** What a printed link does not carry is not printed. */
  lemma ForgetPrintsVless(o: Outbound)
    ensures BuildVless(Forget(o)) == BuildVless(o)
  {
    var q, r := BuildVless(Forget(o)), BuildVless(o);
    forall k ensures Find(q, k) == Find(r, k) {
      BuildVlessValue(o, k);
      BuildVlessValue(Forget(o), k);
      ForgetVlessValue(o, k);
    }
    SameQuery(q, r);
  }

  lemma ForgetPrintsTrojan(o: Outbound)
    ensures BuildTrojan(Forget(o)) == BuildTrojan(o)
  {
    var q, r := BuildTrojan(Forget(o)), BuildTrojan(o);
    forall k ensures Find(q, k) == Find(r, k) {
      BuildTrojanValue(o, k);
      BuildTrojanValue(Forget(o), k);
      ForgetTrojanValue(o, k);
    }
    SameQuery(q, r);
  }

  /** The query q' gives a parameter the value that the stream s gives it. */
  predicate Carries(q': Query, s: Stream, k: Key) {
    Get(q', k) == if StreamValue(s, k).Some? then StreamValue(s, k).value else ""
  }

  lemma TlsAgain(q: Query, q': Query, s: Stream, path: seq<string>)
    requires s == ParseStream(q, s.network, s.security, path) && s.tls.Some?
    requires Carries(q', s, Sni) && Carries(q', s, Alpn) && Carries(q', s, Fp) && Carries(q', s, AllowInsecure)
    ensures ParseTls(q') == s.tls.value.(allowInsecure := false)
  {
    SplitAgain(Get(q, Alpn));
  }

  lemma RealityAgain(q: Query, q': Query, s: Stream, path: seq<string>)
    requires s == ParseStream(q, s.network, s.security, path) && s.reality.Some?
    requires Carries(q', s, Sni) && Carries(q', s, Fp) && Carries(q', s, Pbk) && Carries(q', s, Sid) &&
        Carries(q', s, Spx)
    ensures ParseReality(q') == s.reality.value
  {
  }

  lemma TcpAgain(q: Query, q': Query, s: Stream, path: seq<string>)
    requires s == ParseStream(q, "tcp", s.security, path)
    requires Carries(q', s, HeaderType) && Carries(q', s, Path) && Carries(q', s, Host)
    ensures Get(q', HeaderType) == "http" <==> s.tcp.Some?
    ensures s.tcp.Some? ==> Get(q', Path) == Join(path) && NonEmpty(Get(q', Host)) == NonEmpty(Get(q, Host))
  {
  }

  lemma NetworkAgain(q: Query, q': Query, s: Stream, path: seq<string>)
    requires s == ParseStream(q, s.network, s.security, path) && s.network != "tcp"
    requires Carries(q', s, HeaderType) && Carries(q', s, Path) && Carries(q', s, Host)
    requires Carries(q', s, QuicSecurity) && Carries(q', s, QuicKey) && Carries(q', s, Seed)
    requires Carries(q', s, ServiceName) && Carries(q', s, Mode)
    ensures s.ws.Some? ==> s.ws == Some(Ws(Get(q', Path), NonEmpty(Get(q', Host))))
    ensures s.http.Some? ==> s.http == Some(Http(Get(q', Path), SplitNonEmpty(Get(q', Host))))
    ensures s.quic.Some? ==>
              && s.quic == Some(Quic(Get(q', QuicSecurity), Get(q', QuicKey), s.quic.value.header))
              && Get(q', HeaderType) == ""
    ensures s.kcp.Some? ==> s.kcp == Some(Kcp(Get(q', Seed), Some(Get(q', HeaderType))))
    ensures s.grpc.Some? ==> s.grpc == Some(Grpc(Get(q', ServiceName), Get(q', Mode) == "multi"))
  {
    SplitAgain(Get(q, Host));
  }

  ghost predicate CarriesAll(q': Query, s: Stream) {
    forall k :: k !in {Encryption, Flow, Type, Security} ==> Carries(q', s, k)
  }

  /** Without the settings that concern the security. */
  function Plain(s: Stream): Stream {
    s.(tls := None, reality := None)
  }

  lemma StreamSecurityAgain(q: Query, q': Query, s: Stream, path: seq<string>, path': seq<string>)
    requires s == ParseStream(q, s.network, s.security, path) && CarriesAll(q', s)
    ensures var f := Forget(Outbound("", "", s)).stream;
      && ParseStream(q', s.network, s.security, path').tls == f.tls
      && ParseStream(q', s.network, s.security, path').reality == f.reality
  {
    if s.tls.Some? {
      assert Carries(q', s, Sni) && Carries(q', s, Alpn) && Carries(q', s, Fp) && Carries(q', s, AllowInsecure);
      TlsAgain(q, q', s, path);
    }
    if s.reality.Some? {
      assert Carries(q', s, Sni) && Carries(q', s, Fp) && Carries(q', s, Pbk) && Carries(q', s, Sid) &&
          Carries(q', s, Spx);
      RealityAgain(q, q', s, path);
    }
  }

  lemma StreamNetworkAgain(q: Query, q': Query, s: Stream, path: seq<string>, path': seq<string>)
    requires s == ParseStream(q, s.network, s.security, path) && CarriesAll(q', s)
    requires s.tcp.Some? ==> path' == path
    ensures Plain(ParseStream(q', s.network, s.security, path')) == Plain(Forget(Outbound("", "", s)).stream)
  {
    assert Carries(q', s, HeaderType) && Carries(q', s, Path) && Carries(q', s, Host);
    if s.network == "tcp" {
      TcpAgain(q, q', s, path);
    } else {
      assert Carries(q', s, QuicSecurity) && Carries(q', s, QuicKey) && Carries(q', s, Seed);
      assert Carries(q', s, ServiceName) && Carries(q', s, Mode);
      NetworkAgain(q, q', s, path);
    }
  }

  /** Parsing what was printed for a parsed stream gives that stream, less what is not carried. */
  lemma StreamAgain(q: Query, q': Query, s: Stream, path: seq<string>, path': seq<string>)
    requires s == ParseStream(q, s.network, s.security, path) && CarriesAll(q', s)
    requires s.tcp.Some? ==> path' == path
    ensures ParseStream(q', s.network, s.security, path') == Forget(Outbound("", "", s)).stream
  {
    StreamSecurityAgain(q, q', s, path, path');
    StreamNetworkAgain(q, q', s, path, path');
    var r := ParseStream(q', s.network, s.security, path');
    var f := Forget(Outbound("", "", s)).stream;
    assert Plain(r).(tls := r.tls, reality := r.reality) == r && Plain(f).(tls := f.tls, reality := f.reality) == f;
  }

  /** A parse uses the settings of the network in use only. */
  lemma ParsedInUse(q: Query, network: string, security: string, path: seq<string>)
    ensures InUse(ParseStream(q, network, security, path)) == ParseStream(q, network, security, path)
  {
  }

  lemma TcpPathAgain(q: Query, q': Query, s: Stream, path: seq<string>)
    requires s == ParseStream(q, s.network, s.security, path) && s.tcp.Some? && CarriesAll(q', s)
    ensures Get(q', Path) == Join(path)
  {
    assert Carries(q', s, Path);
  }

  lemma VlessCarries(o: Outbound)
    ensures CarriesAll(BuildVless(o), o.stream)
  {
    forall k | k !in {Encryption, Flow, Type, Security} ensures Carries(BuildVless(o), o.stream, k) {
      BuildVlessValue(o, k);
    }
  }

  lemma TrojanCarries(o: Outbound)
    requires InUse(o.stream) == o.stream
    ensures CarriesAll(BuildTrojan(o), o.stream)
  {
    forall k | k !in {Encryption, Flow, Type, Security} ensures Carries(BuildTrojan(o), o.stream, k) {
      BuildTrojanValue(o, k);
    }
  }

  /** What decides whether a link is accepted, and what stands outside its stream. */
  lemma VlessHeadAgain(q: Query, o: Outbound, q': Query)
    requires ParseVless(q) == Some(o)
    requires forall k :: Find(q', k) == VlessValue(o, k)
    ensures Get(q', Encryption) == "" && Get(q', Flow) == o.flow
    ensures Default(Get(q', Type), "tcp") == o.stream.network && Default(Get(q', Security), "none") == o.stream.security
  {
    assert Find(q', Encryption) == VlessValue(o, Encryption) && Find(q', Flow) == VlessValue(o, Flow);
    assert Find(q', Type) == VlessValue(o, Type) && Find(q', Security) == VlessValue(o, Security);
  }

  lemma TrojanHeadAgain(q: Query, o: Outbound, q': Query)
    requires ParseTrojan(q) == Some(o)
    requires forall k :: Find(q', k) == TrojanValue(o, k)
    ensures Get(q', Flow) == o.flow
    ensures Default(Get(q', Type), "tcp") == o.stream.network && Default(Get(q', Security), "tls") == o.stream.security
  {
    assert Find(q', Flow) == TrojanValue(o, Flow);
    assert Find(q', Type) == TrojanValue(o, Type) && Find(q', Security) == TrojanValue(o, Security);
  }

  lemma PublicKeyAgain(q: Query, q': Query, s: Stream, path: seq<string>)
    requires s == ParseStream(q, s.network, s.security, path) && s.security == "reality" && Get(q, Pbk) != ""
    requires CarriesAll(q', s)
    ensures Get(q', Pbk) != ""
  {
    assert Carries(q', s, Pbk);
  }

  /**
   * For every accepted vless link, the link printed for it is accepted and gives the same outbound
   * but for AllowInsecure and the header type of quic, and printing that gives the same link.
   */
  lemma VlessStable(q: Query)
    requires ParseVless(q).Some?
    ensures var o := ParseVless(q).value;
      && ParseVless(BuildVless(o)) == Some(Forget(o))
      && BuildVless(Forget(o)) == BuildVless(o)
  {
    var o := ParseVless(q).value;
    var q' := BuildVless(o);
    ForgetPrintsVless(o);
    VlessCarries(o);
    forall k ensures Find(q', k) == VlessValue(o, k) {
      BuildVlessValue(o, k);
    }
    VlessHeadAgain(q, o, q');
    if o.stream.security == "reality" {
      PublicKeyAgain(q, q', o.stream, SplitNonEmpty(Get(q, Path)));
    }
    if o.stream.tcp.Some? {
      TcpPathAgain(q, q', o.stream, SplitNonEmpty(Get(q, Path)));
      JoinSplit(Get(q, Path));
    }
    StreamAgain(q, q', o.stream, SplitNonEmpty(Get(q, Path)), SplitNonEmpty(Get(q', Path)));
  }

  /** The same for every accepted trojan link. */
  lemma TrojanStable(q: Query)
    requires ParseTrojan(q).Some?
    ensures var o := ParseTrojan(q).value;
      && ParseTrojan(BuildTrojan(o)) == Some(Forget(o))
      && BuildTrojan(Forget(o)) == BuildTrojan(o)
  {
    var o := ParseTrojan(q).value;
    var q' := BuildTrojan(o);
    ForgetPrintsTrojan(o);
    ParsedInUse(q, o.stream.network, o.stream.security, Split(Get(q, Path)));
    TrojanCarries(o);
    forall k ensures Find(q', k) == TrojanValue(o, k) {
      BuildTrojanValue(o, k);
    }
    TrojanHeadAgain(q, o, q');
    if o.stream.security == "reality" {
      PublicKeyAgain(q, q', o.stream, Split(Get(q, Path)));
    }
    if o.stream.tcp.Some? {
      TcpPathAgain(q, q', o.stream, Split(Get(q, Path)));
      JoinSplit(Get(q, Path));
    }
    StreamAgain(q, q', o.stream, Split(Get(q, Path)), Split(Get(q', Path)));
  }

  // ---------------------------------------------------------------------------------------------
  // What printing a parsed link makes of its parameters
  // ---------------------------------------------------------------------------------------------

  /**
   * The parameter k of the link printed for an accepted link with query q: a parameter that matters
   * for the network and the security of the link keeps its value, any other is dropped. tcpPath is
   * what is printed for the path of a tcp link with http header.
   */
  function NormalStream(q: Query, network: string, security: string, tcpPath: Option<string>, k: Key): Option<string> {
    var tcp := network == "tcp" && Get(q, HeaderType) == "http";
    match k
    case HeaderType => if tcp || network == "kcp" then NonEmpty(Get(q, HeaderType)) else None
    case Path => if tcp then tcpPath else if network == "ws" || network == "http" then NonEmpty(Get(q, Path)) else None
    case Host => if tcp || network == "ws" || network == "http" then NonEmpty(Get(q, Host)) else None
    case QuicSecurity => if network == "quic" then NonEmpty(Get(q, QuicSecurity)) else None
    case QuicKey => if network == "quic" then NonEmpty(Get(q, QuicKey)) else None
    case Seed => if network == "kcp" then NonEmpty(Get(q, Seed)) else None
    case ServiceName => if network == "grpc" then NonEmpty(Get(q, ServiceName)) else None
    case Mode => if network == "grpc" && Get(q, Mode) == "multi" then Some("multi") else None
    case Sni => if security == "tls" || security == "reality" then NonEmpty(Get(q, Sni)) else None
    case Alpn => if security == "tls" || security == "reality" then NonEmpty(Get(q, Alpn)) else None
    case Fp => if security == "tls" || security == "reality" then NonEmpty(Get(q, Fp)) else None
    case Pbk => if security == "reality" then NonEmpty(Get(q, Pbk)) else None
    case Sid => if security == "reality" then NonEmpty(Get(q, Sid)) else None
    case Spx => if security == "reality" then NonEmpty(Get(q, Spx)) else None
    case _ => None
  }

  function NormalVless(q: Query, k: Key): Option<string> {
    var network, security := Default(Get(q, Type), "tcp"), Default(Get(q, Security), "none");
    match k
    case Encryption => None
    case Flow => NonEmpty(Get(q, Flow))
    case Type => Unless(network, "tcp")
    case Security => Unless(security, "none")
    case _ => NormalStream(q, network, security, NonEmpty(Get(q, Path)), k)
  }

  function NormalTrojan(q: Query, k: Key): Option<string> {
    var network, security := Default(Get(q, Type), "tcp"), Default(Get(q, Security), "tls");
    match k
    case Encryption => None
    case Flow => NonEmpty(Get(q, Flow))
    case Type => Unless(network, "tcp")
    case Security => Some(security)
    case _ => NormalStream(q, network, security, Some(Get(q, Path)), k)
  }

  lemma StreamNormal(q: Query, network: string, security: string, path: seq<string>, k: Key)
    ensures StreamValue(ParseStream(q, network, security, path), k) ==
            NormalStream(q, network, security, JoinNonEmpty(path), k)
  {
    SplitAgain(Get(q, Alpn));
    SplitAgain(Get(q, Host));
  }

  /** Printing an accepted vless link gives its own parameters back, in normal form. */
  lemma VlessPrintsNormal(q: Query, k: Key)
    requires ParseVless(q).Some?
    ensures Find(BuildVless(ParseVless(q).value), k) == NormalVless(q, k)
  {
    var o := ParseVless(q).value;
    BuildVlessValue(o, k);
    SplitAgain(Get(q, Path));
    StreamNormal(q, o.stream.network, o.stream.security, SplitNonEmpty(Get(q, Path)), k);
  }

  lemma TrojanPrintsNormal(q: Query, k: Key)
    requires ParseTrojan(q).Some?
    ensures Find(BuildTrojan(ParseTrojan(q).value), k) == NormalTrojan(q, k)
  {
    var o := ParseTrojan(q).value;
    BuildTrojanValue(o, k);
    ParsedInUse(q, o.stream.network, o.stream.security, Split(Get(q, Path)));
    SplitAgain(Get(q, Path));
    StreamNormal(q, o.stream.network, o.stream.security, Split(Get(q, Path)), k);
  }

  // ---------------------------------------------------------------------------------------------
  // What an accepted link configures
  // ---------------------------------------------------------------------------------------------

  /** The TLS and reality settings, parameter by parameter. */
  predicate Secured(s: Stream, q: Query) {
    && (s.tls.Some? <==> s.security == "tls" || s.security == "reality")
    && (s.reality.Some? <==> s.security == "reality")
    && (s.tls.Some? ==>
          && s.tls.value.sni == Get(q, Sni) && s.tls.value.fp == Get(q, Fp)
          && (s.tls.value.allowInsecure <==> Get(q, AllowInsecure) == "1")
          && (if Get(q, Alpn) == "" then s.tls.value.alpn == [] else Join(s.tls.value.alpn) == Get(q, Alpn)))
    && (s.reality.Some? ==>
          && s.reality.value.sni == Get(q, Sni) && s.reality.value.fp == Get(q, Fp)
          && s.reality.value.pbk == Get(q, Pbk) && s.reality.value.sid == Get(q, Sid)
          && s.reality.value.spx == Get(q, Spx))
  }

  /** The settings of the network in use, and of no other. */
  predicate Networked(s: Stream, q: Query) {
    && (s.tcp.Some? <==> s.network == "tcp" && Get(q, HeaderType) == "http")
    && (s.ws.Some? <==> s.network == "ws") && (s.http.Some? <==> s.network == "http")
    && (s.quic.Some? <==> s.network == "quic") && (s.kcp.Some? <==> s.network == "kcp")
    && (s.grpc.Some? <==> s.network == "grpc")
    && (s.ws.Some? ==>
          && s.ws.value.path == Get(q, Path)
          && s.ws.value.host == if Get(q, Host) == "" then None else Some(Get(q, Host)))
    && (s.http.Some? ==> s.http.value.path == Get(q, Path) && Join(s.http.value.hosts) == Get(q, Host))
    && (s.quic.Some? ==>
          s.quic.value.security == Get(q, QuicSecurity) && s.quic.value.key == Get(q, QuicKey) &&
          s.quic.value.header == Some(Get(q, HeaderType)))
    && (s.kcp.Some? ==> s.kcp.value.seed == Get(q, Seed) && s.kcp.value.header == Some(Get(q, HeaderType)))
    && (s.grpc.Some? ==>
          s.grpc.value.serviceName == Get(q, ServiceName) && (s.grpc.value.multiMode <==> Get(q, Mode) == "multi"))
  }

  /** The request of a tcp link with http header. */
  predicate Requested(s: Stream, q: Query) {
    s.tcp.Some? ==>
      && s.tcp.value.kind == "http" && s.tcp.value.request.Some?
      && Join(s.tcp.value.request.value.path) == Get(q, Path)
      && s.tcp.value.request.value.hosts == if Get(q, Host) == "" then None else Some([Get(q, Host)])
  }

  lemma StreamMeaning(q: Query, network: string, security: string, path: seq<string>)
    requires Join(path) == Get(q, Path)
    ensures var s := ParseStream(q, network, security, path); Secured(s, q) && Networked(s, q) && Requested(s, q)
  {
    JoinSplit(Get(q, Alpn));
    JoinSplit(Get(q, Host));
  }

  /** Which vless links are accepted, and what for. */
  lemma VlessMeaning(q: Query)
    ensures ParseVless(q).Some? <==>
            Get(q, Encryption) in {"", "none"} && (Get(q, Security) == "reality" ==> Get(q, Pbk) != "")
    ensures ParseVless(q).Some? ==>
            var o := ParseVless(q).value; var s := o.stream;
            && o.encryption == "none" && o.flow == Get(q, Flow)
            && s.network == (if Get(q, Type) == "" then "tcp" else Get(q, Type))
            && s.security == (if Get(q, Security) == "" then "none" else Get(q, Security))
            && Secured(s, q) && Networked(s, q) && Requested(s, q)
  {
    JoinSplit(Get(q, Path));
    StreamMeaning(q, Default(Get(q, Type), "tcp"), Default(Get(q, Security), "none"), SplitNonEmpty(Get(q, Path)));
  }

  /** Which trojan links are accepted, and what for. */
  lemma TrojanMeaning(q: Query)
    ensures ParseTrojan(q).Some? <==> (Get(q, Security) == "reality" ==> Get(q, Pbk) != "")
    ensures ParseTrojan(q).Some? ==>
            var o := ParseTrojan(q).value; var s := o.stream;
            && o.flow == Get(q, Flow)
            && s.network == (if Get(q, Type) == "" then "tcp" else Get(q, Type))
            && s.security == (if Get(q, Security) == "" then "tls" else Get(q, Security))
            && Secured(s, q) && Networked(s, q) && Requested(s, q)
  {
    JoinSplit(Get(q, Path));
    StreamMeaning(q, Default(Get(q, Type), "tcp"), Default(Get(q, Security), "tls"), Split(Get(q, Path)));
  }
}
