/**
 * vmess share links (v2root/parser.go) at the level of the JSON object inside: what the parser reads
 * from it and what the printer writes into it. Base64 and the text form of JSON are not modelled.
 */
module VmessLinks {
  import opened Bytes
  import Links

  /** The members of the object; V is the constant version. */
  datatype Field = V | Ps | Add | Port | Id | Aid | Scy | Net | Type | TlsField | Sni | Alpn | Fp | Path | Host

  /** A JSON value: a string, a natural number, or anything else. */
  datatype Json = Str(text: string) | Num(n: nat) | Odd

  type Data = map<Field, Json>

  datatype Vmess = Vmess(remark: string, address: string, port: nat, id: string, alterId: nat,
      security: string, stream: Links.Stream)

  function Find(d: Data, f: Field): Option<Json> {
    if f in d then Some(d[f]) else None
  }

  /** data[f].(string) */
  function Text(d: Data, f: Field): Option<string> {
    if f in d && d[f].Str? then Some(d[f].text) else None
  }

  function Or(s: Option<string>, d: string): string {
    if s.Some? then s.value else d
  }

  // ---------------------------------------------------------------------------------------------
  // Numbers
  // ---------------------------------------------------------------------------------------------

  predicate IsDigit(c: char) {
    '0' <= c <= '9'
  }

  function Digit(c: char): nat
    requires IsDigit(c)
  {
    c as int - '0' as int
  }

  function Decimal(s: string): nat
    requires forall i :: 0 <= i < |s| ==> IsDigit(s[i])
  {
    if s == "" then 0 else 10 * Decimal(s[..|s| - 1]) + Digit(s[|s| - 1])
  }

  /** strconv.ParseUint(fmt.Sprintf("%v", x), 10, 16) */
  function Uint16(x: Option<Json>): Option<nat> {
    match x
    case Some(Num(n)) => if n < 65536 then Some(n) else None
    case Some(Str(s)) =>
      if s != "" && (forall i :: 0 <= i < |s| ==> IsDigit(s[i])) && Decimal(s) < 65536 then Some(Decimal(s)) else None
    case _ => None
  }

  // ---------------------------------------------------------------------------------------------
  // Parsing
  // ---------------------------------------------------------------------------------------------

  function ParseTls(d: Data): Links.Tls {
    Links.Tls(Or(Text(d, Sni), ""), Links.SplitNonEmpty(Or(Text(d, Alpn), "")), Or(Text(d, Fp), ""), false)
  }

  function ParseTcp(d: Data): Links.Header {
    Links.Header("http", Some(Links.Request(
      if Text(d, Path).Some? then Links.Split(Text(d, Path).value) else [],
      if Text(d, Host).Some? then Some([Text(d, Host).value]) else None)))
  }

  function ParseStream(d: Data): Links.Stream {
    var net := Links.Default(Or(Text(d, Net), ""), "tcp");
    var tls := Text(d, TlsField) == Some("tls");
    var hType := Or(Text(d, Type), "");
    var path := Or(Text(d, Path), "");
    Links.Stream(
      net, if tls then "tls" else "", if tls then Some(ParseTls(d)) else None, None,
      if net == "tcp" && hType == "http" then Some(ParseTcp(d)) else None,
      if net == "ws" then Some(Links.Ws(path, Text(d, Host))) else None,
      if net == "http"
        then Some(Links.Http(path, if Text(d, Host).Some? then Links.Split(Text(d, Host).value) else [])) else None,
      if net == "quic" then Some(Links.Quic(Or(Text(d, Host), ""), path, Links.NonEmpty(hType))) else None,
      if net == "kcp" then Some(Links.Kcp(path, Links.NonEmpty(hType))) else None,
      if net == "grpc" then Some(Links.Grpc(path, hType == "multi")) else None)
  }

  /** Refused without a string address, a port that fits 16 bits, or a string id. */
  function ParseVmess(d: Data): Option<Vmess> {
    var port, aid := Uint16(Find(d, Port)), Uint16(Find(d, Aid));
    if Text(d, Add).None? || port.None? || Text(d, Id).None? then None
    else Some(Vmess(Or(Text(d, Ps), ""), Text(d, Add).value, port.value, Text(d, Id).value,
                    if aid.Some? then aid.value else 0, Or(Text(d, Scy), "auto"), ParseStream(d)))
  }

  // ---------------------------------------------------------------------------------------------
  // Printing
  // ---------------------------------------------------------------------------------------------

  function Put(d: Data, f: Field, v: Option<string>): Data {
    if v.Some? then d[f := Str(v.value)] else d
  }

  function Head(v: Vmess): Data {
    map[V := Str("2"), Ps := Str(v.remark), Add := Str(v.address), Port := Num(v.port), Id := Str(v.id),
        Aid := Num(v.alterId), Scy := Str(v.security), Net := Str(v.stream.network), Type := Str("none")]
  }

  function PutTls(d: Data, s: Links.Stream): Data {
    if s.security != "tls" then d
    else
      var d := Put(d, TlsField, Some("tls"));
      if s.tls.None? then d
      else Put(Put(Put(d, Sni, Links.NonEmpty(s.tls.value.sni)), Alpn, Links.JoinNonEmpty(s.tls.value.alpn)),
          Fp, Links.NonEmpty(s.tls.value.fp))
  }

  function PutTcp(d: Data, s: Links.Stream): Data {
    if s.tcp.None? || s.tcp.value.kind != "http" then d
    else Put(Put(Put(d, Type, Some("http")), Path, Links.TcpPath(s)), Host, Links.TcpHost(s))
  }

  function PutNetwork(d: Data, s: Links.Stream): Data {
    if s.network == "ws" && s.ws.Some? then
      Put(Put(d, Path, Some(s.ws.value.path)), Host,
          if s.ws.value.host.Some? then Links.NonEmpty(s.ws.value.host.value) else None)
    else if s.network == "http" && s.http.Some? then
      Put(Put(d, Path, Some(s.http.value.path)), Host, Links.JoinNonEmpty(s.http.value.hosts))
    else if s.network == "quic" && s.quic.Some? then
      Put(Put(Put(d, Host, Some(s.quic.value.security)), Path, Some(s.quic.value.key)), Type, s.quic.value.header)
    else if s.network == "kcp" && s.kcp.Some? then
      Put(Put(d, Path, Some(s.kcp.value.seed)), Type, s.kcp.value.header)
    else if s.network == "grpc" && s.grpc.Some? then
      Put(Put(d, Path, Some(s.grpc.value.serviceName)), Type, if s.grpc.value.multiMode then Some("multi") else None)
    else d
  }

  function BuildVmess(v: Vmess): Data {
    PutNetwork(PutTcp(PutTls(Head(v), v.stream), v.stream), v.stream)
  }

  // ---------------------------------------------------------------------------------------------
  // Printing what was parsed, and parsing it again
  // ---------------------------------------------------------------------------------------------

  /** What a printed link makes of an empty websocket host and of a missing header type. */
  function Normal(s: Links.Stream): Links.Stream {
    s.(ws := if s.ws == Some(Links.Ws(if s.ws.Some? then s.ws.value.path else "", Some("")))
             then Some(s.ws.value.(host := None)) else s.ws,
       quic := if s.quic.Some? && s.quic.value.header.None?
               then Some(s.quic.value.(header := Some("none"))) else s.quic,
       kcp := if s.kcp.Some? && s.kcp.value.header.None? then Some(s.kcp.value.(header := Some("none"))) else s.kcp)
  }

  /** The values that the three parts of the printer set. */
  function TlsValue(s: Links.Stream, f: Field): Option<string> {
    if s.security != "tls" then None
    else if f == TlsField then Some("tls")
    else if s.tls.None? then None
    else
      match f
      case Sni => Links.NonEmpty(s.tls.value.sni)
      case Alpn => Links.JoinNonEmpty(s.tls.value.alpn)
      case Fp => Links.NonEmpty(s.tls.value.fp)
      case _ => None
  }

  function TcpValue(s: Links.Stream, f: Field): Option<string> {
    if s.tcp.None? || s.tcp.value.kind != "http" then None
    else
      match f
      case Type => Some("http")
      case Path => Links.TcpPath(s)
      case Host => Links.TcpHost(s)
      case _ => None
  }

  function NetworkValue(s: Links.Stream, f: Field): Option<string> {
    match f
    case Path =>
      if s.network == "ws" && s.ws.Some? then Some(s.ws.value.path)
      else if s.network == "http" && s.http.Some? then Some(s.http.value.path)
      else if s.network == "quic" && s.quic.Some? then Some(s.quic.value.key)
      else if s.network == "kcp" && s.kcp.Some? then Some(s.kcp.value.seed)
      else if s.network == "grpc" && s.grpc.Some? then Some(s.grpc.value.serviceName)
      else None
    case Host =>
      if s.network == "ws" && s.ws.Some? && s.ws.value.host.Some? then Links.NonEmpty(s.ws.value.host.value)
      else if s.network == "http" && s.http.Some? then Links.JoinNonEmpty(s.http.value.hosts)
      else if s.network == "quic" && s.quic.Some? then Some(s.quic.value.security)
      else None
    case Type =>
      if s.network == "quic" && s.quic.Some? then s.quic.value.header
      else if s.network == "kcp" && s.kcp.Some? then s.kcp.value.header
      else if s.network == "grpc" && s.grpc.Some? && s.grpc.value.multiMode then Some("multi")
      else None
    case _ => None
  }

  function Over(v: Option<string>, x: Option<Json>): Option<Json> {
    if v.Some? then Some(Str(v.value)) else x
  }

  lemma TlsFind(d: Data, s: Links.Stream, f: Field)
    ensures Find(PutTls(d, s), f) == Over(TlsValue(s, f), Find(d, f))
  {
  }

  lemma TcpFind(d: Data, s: Links.Stream, f: Field)
    ensures Find(PutTcp(d, s), f) == Over(TcpValue(s, f), Find(d, f))
  {
  }

  lemma NetworkFind(d: Data, s: Links.Stream, f: Field)
    ensures Find(PutNetwork(d, s), f) == Over(NetworkValue(s, f), Find(d, f))
  {
  }

  /** The object printed for an outbound gives every member its value. */
  lemma BuildFind(v: Vmess, f: Field)
    ensures Find(BuildVmess(v), f) ==
            Over(NetworkValue(v.stream, f), Over(TcpValue(v.stream, f), Over(TlsValue(v.stream, f), Find(Head(v), f))))
  {
    TlsFind(Head(v), v.stream, f);
    TcpFind(PutTls(Head(v), v.stream), v.stream, f);
    NetworkFind(PutTcp(PutTls(Head(v), v.stream), v.stream), v.stream, f);
  }

  /** The text printed for a member of the stream settings. */
  function StreamText(s: Links.Stream, f: Field): Option<string> {
    if NetworkValue(s, f).Some? then NetworkValue(s, f)
    else if TcpValue(s, f).Some? then TcpValue(s, f)
    else if TlsValue(s, f).Some? then TlsValue(s, f)
    else if f == Type then Some("none")
    else if f == Net then Some(s.network)
    else None
  }

  predicate IsStreamField(f: Field) {
    f in {Net, Type, TlsField, Sni, Alpn, Fp, Path, Host}
  }

  lemma BuildText(v: Vmess, f: Field)
    requires IsStreamField(f)
    ensures Text(BuildVmess(v), f) == StreamText(v.stream, f)
  {
    BuildFind(v, f);
    HeadStreamFields(v, f);
  }

  lemma HeadStreamFields(v: Vmess, f: Field)
    requires IsStreamField(f)
    ensures Find(Head(v), f) ==
            if f == Type then Some(Str("none")) else if f == Net then Some(Str(v.stream.network)) else None
  {
  }

  /** The members of e outside the stream settings are those of v. */
  predicate HasHead(e: Data, v: Vmess) {
    && Text(e, Ps) == Some(v.remark) && Text(e, Add) == Some(v.address) && Find(e, Port) == Some(Num(v.port))
    && Text(e, Id) == Some(v.id) && Find(e, Aid) == Some(Num(v.alterId)) && Text(e, Scy) == Some(v.security)
  }

  lemma HeadAgain(d: Data, v: Vmess, e: Data)
    requires ParseVmess(d) == Some(v) && HasHead(e, v) && ParseStream(e) == Normal(v.stream)
    ensures ParseVmess(e) == Some(v.(stream := Normal(v.stream)))
  {
  }

  lemma BuildHead(v: Vmess)
    ensures HasHead(BuildVmess(v), v)
  {
    BuildFind(v, Ps);
    BuildFind(v, Add);
    BuildFind(v, Port);
    BuildFind(v, Id);
    BuildFind(v, Aid);
    BuildFind(v, Scy);
  }

  /** The object e has the texts printed for s. */
  ghost predicate Carries(e: Data, s: Links.Stream) {
    forall f :: IsStreamField(f) ==> Text(e, f) == StreamText(s, f)
  }

  lemma StreamTextTls(s: Links.Stream, f: Field)
    requires f in {TlsField, Sni, Alpn, Fp}
    ensures StreamText(s, f) == TlsValue(s, f)
  {
  }

  lemma ParsedTlsAgain(d: Data, e: Data, t: Links.Tls)
    requires t == ParseTls(d)
    requires Text(e, Sni) == Links.NonEmpty(t.sni) && Text(e, Fp) == Links.NonEmpty(t.fp)
    requires Text(e, Alpn) == Links.JoinNonEmpty(t.alpn)
    ensures ParseTls(e) == t
  {
    Links.SplitAgain(Or(Text(d, Alpn), ""));
  }

  lemma TlsAgain(d: Data, e: Data, s: Links.Stream)
    requires s == ParseStream(d) && Carries(e, s)
    ensures Text(e, TlsField) == Some("tls") <==> s.tls.Some?
    ensures s.tls.Some? ==> Some(ParseTls(e)) == s.tls
  {
    assert Text(e, TlsField) == TlsValue(s, TlsField) by {
      StreamTextTls(s, TlsField);
    }
    if s.tls.Some? {
      assert Text(e, Sni) == TlsValue(s, Sni) && Text(e, Alpn) == TlsValue(s, Alpn) &&
          Text(e, Fp) == TlsValue(s, Fp) by {
        StreamTextTls(s, Sni);
        StreamTextTls(s, Alpn);
        StreamTextTls(s, Fp);
      }
      ParsedTlsAgain(d, e, s.tls.value);
    }
  }

  lemma TcpAgain(d: Data, e: Data, s: Links.Stream)
    requires s == ParseStream(d) && s.network == "tcp" && Carries(e, s)
    ensures Text(e, Type) == Some("http") <==> s.tcp.Some?
    ensures s.tcp.Some? ==> Some(ParseTcp(e)) == s.tcp
  {
    assert Text(e, Type) == StreamText(s, Type) && Text(e, Path) == StreamText(s, Path) &&
        Text(e, Host) == StreamText(s, Host);
    if Text(d, Path).Some? {
      Links.SplitAgain(Text(d, Path).value);
    }
  }

  lemma WsHttpAgain(d: Data, e: Data, s: Links.Stream)
    requires s == ParseStream(d) && (s.network == "ws" || s.network == "http") && Carries(e, s)
    ensures s.ws.Some? ==> Some(Links.Ws(Or(Text(e, Path), ""), Text(e, Host))) == Normal(s).ws
    ensures s.http.Some? ==>
      Some(Links.Http(Or(Text(e, Path), ""),
                      if Text(e, Host).Some? then Links.Split(Text(e, Host).value) else [])) == s.http
  {
    assert Text(e, Path) == StreamText(s, Path) && Text(e, Host) == StreamText(s, Host);
    if Text(d, Host).Some? {
      Links.SplitAgain(Text(d, Host).value);
    }
  }

  lemma OthersAgain(d: Data, e: Data, s: Links.Stream)
    requires s == ParseStream(d) && (s.network == "quic" || s.network == "kcp" || s.network == "grpc") && Carries(e, s)
    ensures var hType := Or(Text(e, Type), ""); var path := Or(Text(e, Path), "");
      && (s.quic.Some? ==> Some(Links.Quic(Or(Text(e, Host), ""), path, Links.NonEmpty(hType))) == Normal(s).quic)
      && (s.kcp.Some? ==> Some(Links.Kcp(path, Links.NonEmpty(hType))) == Normal(s).kcp)
      && (s.grpc.Some? ==> Some(Links.Grpc(path, hType == "multi")) == s.grpc)
  {
    assert Text(e, Path) == StreamText(s, Path) && Text(e, Host) == StreamText(s, Host) &&
        Text(e, Type) == StreamText(s, Type);
  }

  lemma StreamAgain(d: Data, e: Data, s: Links.Stream)
    requires s == ParseStream(d) && Carries(e, s)
    ensures ParseStream(e) == Normal(s)
  {
    assert Text(e, Net) == StreamText(s, Net);
    assert Links.Default(Or(Text(e, Net), ""), "tcp") == s.network;
    TlsAgain(d, e, s);
    if s.network == "tcp" {
      TcpAgain(d, e, s);
    } else if s.network == "ws" || s.network == "http" {
      WsHttpAgain(d, e, s);
    } else if s.network == "quic" || s.network == "kcp" || s.network == "grpc" {
      OthersAgain(d, e, s);
    }
  }

  /** The normal form prints what the stream prints; a missing header type is printed as none anyway. */
  lemma NormalNetwork(d: Data, s: Links.Stream, f: Field)
    requires s == ParseStream(d)
    ensures f != Type ==> NetworkValue(Normal(s), f) == NetworkValue(s, f)
    ensures NetworkValue(Normal(s), Type) ==
            if NetworkValue(s, Type).None? && (s.network == "quic" || s.network == "kcp") then Some("none")
            else NetworkValue(s, Type)
  {
  }

  lemma NormalPrintsSame(d: Data, v: Vmess, f: Field)
    requires v.stream == ParseStream(d)
    ensures Find(BuildVmess(v.(stream := Normal(v.stream))), f) == Find(BuildVmess(v), f)
  {
    var n := v.(stream := Normal(v.stream));
    BuildFind(v, f);
    BuildFind(n, f);
    NormalNetwork(d, v.stream, f);
    assert TcpValue(n.stream, f) == TcpValue(v.stream, f) && TlsValue(n.stream, f) == TlsValue(v.stream, f);
    assert Find(Head(n), f) == Find(Head(v), f);
    HeadStreamFields(v, Type);
  }

  lemma SameData(d: Data, e: Data)
    requires forall f :: Find(d, f) == Find(e, f)
    ensures d == e
  {
    forall f ensures f in d <==> f in e {
      assert Find(d, f) == Find(e, f);
    }
    forall f | f in d ensures d[f] == e[f] {
      assert Find(d, f) == Find(e, f);
    }
  }

  lemma NormalPrinted(d: Data, v: Vmess, n: Vmess)
    requires v.stream == ParseStream(d) && n == v.(stream := Normal(v.stream))
    ensures BuildVmess(n) == BuildVmess(v)
  {
    forall f ensures Find(BuildVmess(n), f) == Find(BuildVmess(v), f) {
      NormalPrintsSame(d, v, f);
    }
    SameData(BuildVmess(n), BuildVmess(v));
  }

  lemma VmessCarries(v: Vmess)
    ensures Carries(BuildVmess(v), v.stream)
  {
    forall f | IsStreamField(f) ensures Text(BuildVmess(v), f) == StreamText(v.stream, f) {
      BuildText(v, f);
    }
  }

  /**
   * For every accepted vmess link, the link printed for it is accepted, gives the outbound in its
   * normal form, and printing that gives the same link.
   */
  lemma VmessStable(d: Data)
    requires ParseVmess(d).Some?
    ensures var v := ParseVmess(d).value; var n := v.(stream := Normal(v.stream));
      ParseVmess(BuildVmess(v)) == Some(n) && BuildVmess(n) == BuildVmess(v)
  {
    var v := ParseVmess(d).value;
    BuildHead(v);
    VmessCarries(v);
    StreamAgain(d, BuildVmess(v), v.stream);
    HeadAgain(d, v, BuildVmess(v));
    NormalPrinted(d, v, v.(stream := Normal(v.stream)));
  }

  // ---------------------------------------------------------------------------------------------
  // What printing a parsed link makes of its members
  // ---------------------------------------------------------------------------------------------

  function NormalText(d: Data, f: Field): Option<string> {
    var net := Links.Default(Or(Text(d, Net), ""), "tcp");
    var tls := Text(d, TlsField) == Some("tls");
    var hType := Or(Text(d, Type), "");
    var tcp := net == "tcp" && hType == "http";
    match f
    case Net => Some(net)
    case TlsField => if tls then Some("tls") else None
    case Sni => if tls then Links.NonEmpty(Or(Text(d, Sni), "")) else None
    case Alpn => if tls then Links.NonEmpty(Or(Text(d, Alpn), "")) else None
    case Fp => if tls then Links.NonEmpty(Or(Text(d, Fp), "")) else None
    case Type =>
      if tcp || ((net == "quic" || net == "kcp") && hType != "") || (net == "grpc" && hType == "multi")
      then Some(hType) else Some("none")
    case Path =>
      if tcp then Text(d, Path)
      else if net == "ws" || net == "http" || net == "quic" || net == "kcp" || net == "grpc"
      then Some(Or(Text(d, Path), ""))
      else None
    case Host =>
      if tcp || net == "http" then Text(d, Host)
      else if net == "ws" then Links.NonEmpty(Or(Text(d, Host), ""))
      else if net == "quic" then Some(Or(Text(d, Host), ""))
      else None
    case _ => None
  }

  lemma TlsNormal(d: Data, f: Field)
    requires f in {TlsField, Sni, Alpn, Fp}
    ensures TlsValue(ParseStream(d), f) == NormalText(d, f)
  {
    Links.SplitAgain(Or(Text(d, Alpn), ""));
  }

  lemma TypeNormal(d: Data)
    ensures StreamText(ParseStream(d), Type) == NormalText(d, Type)
  {
  }

  lemma PathNormal(d: Data)
    ensures StreamText(ParseStream(d), Path) == NormalText(d, Path)
  {
    if Text(d, Path).Some? {
      Links.SplitAgain(Text(d, Path).value);
    }
  }

  lemma HostNormal(d: Data)
    ensures StreamText(ParseStream(d), Host) == NormalText(d, Host)
  {
    if Text(d, Host).Some? {
      Links.SplitAgain(Text(d, Host).value);
    }
  }

  lemma StreamNormal(d: Data, f: Field)
    requires IsStreamField(f)
    ensures StreamText(ParseStream(d), f) == NormalText(d, f)
  {
    if f in {TlsField, Sni, Alpn, Fp} {
      StreamTextTls(ParseStream(d), f);
      TlsNormal(d, f);
    } else if f == Type {
      TypeNormal(d);
    } else if f == Path {
      PathNormal(d);
    } else if f == Host {
      HostNormal(d);
    }
  }

  /** Printing an accepted vmess link gives its own members back, in normal form. */
  lemma VmessPrintsNormal(d: Data, f: Field)
    requires ParseVmess(d).Some?
    ensures var e := BuildVmess(ParseVmess(d).value);
      && (IsStreamField(f) ==> Text(e, f) == NormalText(d, f))
      && Text(e, Add) == Text(d, Add) && Text(e, Id) == Text(d, Id)
      && Uint16(Find(e, Port)) == Uint16(Find(d, Port))
      && (Uint16(Find(d, Aid)).Some? ==> Uint16(Find(e, Aid)) == Uint16(Find(d, Aid)))
      && Text(e, Ps) == Some(Or(Text(d, Ps), "")) && Text(e, Scy) == Some(Or(Text(d, Scy), "auto"))
  {
    var v := ParseVmess(d).value;
    BuildHead(v);
    if IsStreamField(f) {
      BuildText(v, f);
      StreamNormal(d, f);
    }
  }

  // ---------------------------------------------------------------------------------------------
  // What an accepted link configures
  // ---------------------------------------------------------------------------------------------

  /** The member as a string; empty if it is missing or something else. */
  function Word(d: Data, f: Field): string {
    if f in d && d[f].Str? then d[f].text else ""
  }

  /** The TLS settings, and those of the network in use and of no other. */
  predicate Configured(s: Links.Stream, d: Data) {
    && s.network == (if Word(d, Net) == "" then "tcp" else Word(d, Net))
    && s.security == (if Word(d, TlsField) == "tls" then "tls" else "")
    && (s.tls.Some? <==> Word(d, TlsField) == "tls") && s.reality.None?
    && (s.tls.Some? ==>
          && s.tls.value.sni == Word(d, Sni) && s.tls.value.fp == Word(d, Fp) && !s.tls.value.allowInsecure
          && (if Word(d, Alpn) == "" then s.tls.value.alpn == [] else Links.Join(s.tls.value.alpn) == Word(d, Alpn)))
    && (s.tcp.Some? <==> s.network == "tcp" && Word(d, Type) == "http")
    && (s.ws.Some? <==> s.network == "ws") && (s.http.Some? <==> s.network == "http")
    && (s.quic.Some? <==> s.network == "quic") && (s.kcp.Some? <==> s.network == "kcp")
    && (s.grpc.Some? <==> s.network == "grpc")
    && (s.ws.Some? ==> s.ws.value.path == Word(d, Path) && Or(s.ws.value.host, "") == Word(d, Host))
    && (s.http.Some? ==> s.http.value.path == Word(d, Path) && Links.Join(s.http.value.hosts) == Word(d, Host))
    && (s.quic.Some? ==>
          && s.quic.value.security == Word(d, Host) && s.quic.value.key == Word(d, Path)
          && Or(s.quic.value.header, "") == Word(d, Type))
    && (s.kcp.Some? ==> s.kcp.value.seed == Word(d, Path) && Or(s.kcp.value.header, "") == Word(d, Type))
    && (s.grpc.Some? ==>
          s.grpc.value.serviceName == Word(d, Path) && (s.grpc.value.multiMode <==> Word(d, Type) == "multi"))
  }

  /** The request of a tcp link with http header. */
  predicate Requested(s: Links.Stream, d: Data) {
    s.tcp.Some? ==>
      && s.tcp.value.kind == "http" && s.tcp.value.request.Some?
      && Links.Join(s.tcp.value.request.value.path) == Word(d, Path)
      && s.tcp.value.request.value.hosts == if Host in d && d[Host].Str? then Some([d[Host].text]) else None
  }

  lemma StreamMeaning(d: Data)
    ensures Configured(ParseStream(d), d) && Requested(ParseStream(d), d)
  {
    Links.JoinSplit(Word(d, Alpn));
    Links.JoinSplit(Word(d, Host));
    Links.JoinSplit(Word(d, Path));
  }

  /** Numbers, and strings of digits, below 65536. */
  predicate IsPort(x: Json, n: nat) {
    n < 65536 &&
    (x == Num(n) ||
     (x.Str? && x.text != "" && (forall i :: 0 <= i < |x.text| ==> '0' <= x.text[i] <= '9') && Decimal(x.text) == n))
  }

  /** Which vmess links are accepted, and what for. */
  lemma VmessMeaning(d: Data)
    ensures ParseVmess(d).Some? <==>
            && Add in d && d[Add].Str? && Id in d && d[Id].Str?
            && Port in d && exists n: nat :: IsPort(d[Port], n)
    ensures ParseVmess(d).Some? ==>
            var v := ParseVmess(d).value;
            && v.remark == Word(d, Ps) && v.address == Word(d, Add) && v.id == Word(d, Id) && IsPort(d[Port], v.port)
            && v.security == (if Scy in d && d[Scy].Str? then d[Scy].text else "auto")
            && (if Aid in d && exists n: nat :: IsPort(d[Aid], n) then IsPort(d[Aid], v.alterId) else v.alterId == 0)
            && Configured(v.stream, d) && Requested(v.stream, d)
  {
    StreamMeaning(d);
    if Port in d {
      PortMeaning(d[Port]);
    }
    if Aid in d {
      PortMeaning(d[Aid]);
    }
  }

  lemma PortMeaning(x: Json)
    ensures Uint16(Some(x)).Some? <==> exists n: nat :: IsPort(x, n)
    ensures Uint16(Some(x)).Some? ==> IsPort(x, Uint16(Some(x)).value)
  {
    if Uint16(Some(x)).Some? {
      assert IsPort(x, Uint16(Some(x)).value);
    }
  }
}
