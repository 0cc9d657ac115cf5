/** vless:// URIs (internal/parser/vless.go). */
module Vless {
  import Seqs
  import opened Wrappers
  import opened Text
  import opened Nodes

  const TRANSPORTS := ["tcp", "ws", "grpc", "h2", "httpupgrade", "xhttp", "splithttp"]
  const SECURITIES := ["none", "tls", "reality"]
  const VISION := "xtls-rprx-vision"

  /** 8-4-4-4-12 hex digits. */
  predicate IsUuid(s: string)
  {
    && |s| == 36
    && forall i :: 0 <= i < 36 ==> if i in {8, 13, 18, 23} then s[i] == '-' else IsHex(s[i])
  }

  /** The query value in lower case, or its default when empty. */
  function Choice(u: Uri, key: Key, default: string): string
  {
    OrElse(ToLower(u.Field(key)), default)
  }

  function TransportOf(u: Uri): string { Choice(u, Type, "tcp") }

  function SecurityOf(u: Uri): string { Choice(u, Security, "none") }

  /** The first check that fails, in the order the parser makes them. */
  function VlessRefusal(u: Uri): Option<Refusal>
  {
    if ToLower(u.scheme) != "vless" then Some(UnexpectedScheme)
    else if u.user.None? then Some(MissingUuid)
    else if u.user.value.password.Some? then Some(ColonInUuid)
    else if !IsUuid(u.user.value.username) then Some(InvalidUuid)
    else if AddressRefusal(u).Some? then AddressRefusal(u)
    else if TransportOf(u) !in TRANSPORTS then Some(UnsupportedTransport)
    else if SecurityOf(u) !in SECURITIES then Some(UnsupportedSecurity)
    else if u.Field(Flow) != "" && u.Field(Flow) != VISION then Some(UnsupportedFlow)
    else if SecurityOf(u) == "reality" && u.Field(Pbk) == "" then Some(RealityNeedsPublicKey)
    else if SecurityOf(u) == "reality" && u.Field(Fp) == "" then Some(RealityNeedsFingerprint)
    else None
  }

  /** The accepted URIs. */
  predicate Accepts(u: Uri)
  {
    && ToLower(u.scheme) == "vless"
    && u.user.Some? && u.user.value.password.None? && IsUuid(u.user.value.username)
    && HasAddress(u)
    && TransportOf(u) in TRANSPORTS
    && SecurityOf(u) in SECURITIES
    && u.Field(Flow) in ["", VISION]
    && (SecurityOf(u) == "reality" ==> u.Field(Pbk) != "" && u.Field(Fp) != "")
  }

  function PlainTls(u: Uri): Tls
  {
    Tls(true, OrElse(u.Field(Sni), u.host),
        BoolFlag(u.Get(AllowInsecure)) || BoolFlag(u.Get(Insecure)), Alpn(u.Get(AlpnKey)),
        if u.Field(Fp) == "" then None else Some(Utls(true, u.Field(Fp))), None)
  }

  function RealityTls(u: Uri): Tls
  {
    Tls(true, OrElse(u.Field(Sni), u.host), false, Alpn(u.Get(AlpnKey)),
        Some(Utls(true, u.Field(Fp))), Some(Reality(true, u.Field(Pbk), u.Field(Sid))))
  }

  function TlsOf(u: Uri): Option<Tls>
  {
    if SecurityOf(u) == "tls" then Some(PlainTls(u))
    else if SecurityOf(u) == "reality" then Some(RealityTls(u))
    else None
  }

  /** xhttp and splithttp have no counterpart in sing-box and become httpupgrade. */
  function SingBoxTransport(t: string): string
  {
    if t in ["xhttp", "splithttp"] then "httpupgrade" else t
  }

  function TransportBlock(u: Uri, t: string): Transport
  {
    var kind := SingBoxTransport(t);
    if kind in ["ws", "h2", "httpupgrade"] then
      Transport(kind, u.Field(Host), OrElse(u.Field(Path), "/"), "")
    else if kind == "grpc" then
      Transport(kind, "", "", OrElse(u.Field(ServiceName), u.Field(ServiceNameKebab)))
    else Transport(kind, "", "", "")
  }

  function VlessOutbound(u: Uri): Outbound
    requires Accepts(u)
  {
    Outbound("vless", "proxy", u.host, PortOf(u), "", u.user.value.username, u.Field(Flow), "", "",
             TlsOf(u), None,
             if TransportOf(u) == "tcp" then None else Some(TransportBlock(u, TransportOf(u))))
  }

  function VlessDisplay(u: Uri): Display
    requires Accepts(u)
  {
    var t, tls := TransportOf(u), TlsOf(u);
    Display("VLESS", u.host, PortOf(u), if tls.Some? then tls.value.serverName else "",
            tls.Some? && !tls.value.insecure, t,
            if t in ["xhttp", "splithttp"] then [MappedToHttpUpgrade(t)] else [])
  }

  lemma RefusalIsExact(u: Uri)
    ensures VlessRefusal(u).None? <==> Accepts(u)
  {
    hide ToLower, TrimSpace, AddressRefusal, HasAddress, IsUuid;
    AddressIsExact(u);
  }

  function VlessNode(u: Uri): Parsed
  {
    RefusalIsExact(u);
    if VlessRefusal(u).Some? then Failure(VlessRefusal(u).value)
    else Success(ParsedNode(VlessOutbound(u), LabelOf(u), VlessDisplay(u)))
  }

  /** The display keeps the transport the URI asked for and warns exactly when the outbound
      uses another one in its place. */
  lemma WarnsIffMapped(u: Uri)
    requires Accepts(u)
    ensures var d, o := VlessDisplay(u), VlessOutbound(u);
      && d.transport == TransportOf(u)
      && (d.notes != [] <==> o.transport.Some? && o.transport.value.kind != d.transport)
      && (d.notes != [] ==> d.notes == [MappedToHttpUpgrade(d.transport)] && o.transport.value.kind == "httpupgrade")
  {
    hide TransportOf, TlsOf;
    BlockKind(u, TransportOf(u));
  }

  lemma BlockKind(u: Uri, t: string)
    ensures TransportBlock(u, t).kind == SingBoxTransport(t)
  {
  }

  // -------------------------------------------------------------------------
  // The image of the parser
  // -------------------------------------------------------------------------

  predicate TlsShape(t: Tls, host: string)
  {
    && t.enabled
    && t.serverName != "" && (t.serverName == host || Trimmed(t.serverName))
    && IsAlpn(t.alpn)
    && (t.utls.Some? ==> t.utls.value.enabled && t.utls.value.fingerprint != ""
                         && Trimmed(t.utls.value.fingerprint))
    && (t.reality.Some? ==>
          && t.utls.Some? && !t.insecure && t.reality.value.enabled
          && t.reality.value.publicKey != "" && Trimmed(t.reality.value.publicKey)
          && Trimmed(t.reality.value.shortId))
  }

  predicate TransportShape(t: Transport)
  {
    || (t.kind in ["ws", "h2", "httpupgrade"] && Trimmed(t.host) && t.path != "" && Trimmed(t.path)
        && t.serviceName == "")
    || (t.kind == "grpc" && t.host == "" && t.path == "" && Trimmed(t.serviceName))
  }

  /** Exactly the outbounds ParseVLESS can return, from split URIs. */
  predicate WellFormed(o: Outbound)
  {
    && o.kind == "vless" && o.tag == "proxy" && o.server != "" && 1 <= o.serverPort <= 65535
    && o.password == "" && IsUuid(o.uuid) && o.flow in ["", VISION]
    && o.version == "" && o.username == "" && o.obfs.None?
    && (o.tls.Some? ==> TlsShape(o.tls.value, o.server))
    && (o.transport.Some? ==> TransportShape(o.transport.value))
  }

  lemma TlsIsShaped(u: Uri)
    requires Accepts(u) && TlsOf(u).Some?
    ensures TlsShape(TlsOf(u).value, u.host)
  {
    AlpnShape(u.Get(AlpnKey));
    TrimSpaceTrims(u.Get(Sni));
    TrimSpaceTrims(u.Get(Fp));
    TrimSpaceTrims(u.Get(Pbk));
    TrimSpaceTrims(u.Get(Sid));
  }

  lemma TransportIsShaped(u: Uri, t: string)
    requires t in TRANSPORTS && t != "tcp"
    ensures TransportShape(TransportBlock(u, t))
  {
    TrimSpaceTrims(u.Get(Host));
    TrimSpaceTrims(u.Get(Path));
    TrimSpaceTrims(u.Get(ServiceName));
    TrimSpaceTrims(u.Get(ServiceNameKebab));
    assert SingBoxTransport(t) in ["ws", "h2", "httpupgrade", "grpc"];
  }

  lemma ResultIsWellFormed(u: Uri)
    requires Accepts(u)
    ensures WellFormed(VlessOutbound(u))
  {
    if TlsOf(u).Some? {
      TlsIsShaped(u);
    }
    if TransportOf(u) != "tcp" {
      TransportIsShaped(u, TransportOf(u));
    }
  }

  function SecurityFor(o: Outbound): string
  {
    if o.tls.None? then "none" else if o.tls.value.reality.Some? then "reality" else "tls"
  }

  /** What the query of UriFor answers for a key: every field goes in as it is. */
  function AnswerFor(o: Outbound, key: Key): string
  {
    match key
    case Flow => o.flow
    case Security => SecurityFor(o)
    case Type => if o.transport.None? then "tcp" else o.transport.value.kind
    case Host => if o.transport.None? then "" else o.transport.value.host
    case Path => if o.transport.None? then "" else o.transport.value.path
    case ServiceName => if o.transport.None? then "" else o.transport.value.serviceName
    case _ => if o.tls.None? then "" else TlsAnswerFor(o.tls.value, o.server, key)
  }

  function TlsAnswerFor(t: Tls, host: string, key: Key): string
  {
    match key
    case Sni => if t.serverName == host then "" else t.serverName
    case Insecure => if t.insecure then "1" else ""
    case AlpnKey => Seqs.Join(t.alpn, ',')
    case Fp => if t.utls.None? then "" else t.utls.value.fingerprint
    case Pbk => if t.reality.None? then "" else t.reality.value.publicKey
    case Sid => if t.reality.None? then "" else t.reality.value.shortId
    case _ => ""
  }

  const KEYS: set<Key> := {Flow, Security, Type, Host, Path, ServiceName, Sni, Insecure, AlpnKey, Fp, Pbk, Sid}

  /** A URI for any well-formed outbound. */
  function UriFor(o: Outbound): Uri
    requires 0 <= o.serverPort
  {
    Uri("vless", Some(Credentials(o.uuid, None)), o.server, Decimal(o.serverPort),
        map k | k in KEYS :: [AnswerFor(o, k)], "", None)
  }

  lemma UriForAnswers(o: Outbound, key: Key)
    requires 0 <= o.serverPort
    ensures UriFor(o).Get(key) == if key in KEYS then AnswerFor(o, key) else ""
  {
  }

  lemma UriForField(o: Outbound, key: Key)
    requires 0 <= o.serverPort && key in KEYS && Trimmed(AnswerFor(o, key))
    ensures UriFor(o).Field(key) == AnswerFor(o, key)
  {
    UriForAnswers(o, key);
    TrimmedStays(AnswerFor(o, key));
  }

  lemma LowerWords(w: string)
    requires w in TRANSPORTS + SECURITIES + ["vless"]
    ensures ToLower(w) == w && Trimmed(w) && w != ""
  {
  }

  lemma UriForChoices(o: Outbound)
    requires WellFormed(o)
    ensures TransportOf(UriFor(o)) == AnswerFor(o, Type) && AnswerFor(o, Type) in TRANSPORTS
    ensures SecurityOf(UriFor(o)) == SecurityFor(o) && SecurityFor(o) in SECURITIES
  {
    assert AnswerFor(o, Type) in TRANSPORTS;
    LowerWords(AnswerFor(o, Type));
    LowerWords(SecurityFor(o));
    UriForField(o, Type);
    UriForField(o, Security);
  }

  lemma UriForFlow(o: Outbound)
    requires WellFormed(o)
    ensures UriFor(o).Field(Flow) == o.flow
  {
    assert AnswerFor(o, Flow) == o.flow;
    assert Trimmed(VISION);
    UriForField(o, Flow);
  }

  lemma UriForTlsField(o: Outbound, key: Key)
    requires 0 <= o.serverPort && o.tls.Some? && key in {Sni, Fp, Pbk, Sid}
    requires Trimmed(TlsAnswerFor(o.tls.value, o.server, key))
    ensures UriFor(o).Field(key) == TlsAnswerFor(o.tls.value, o.server, key)
  {
    assert AnswerFor(o, key) == TlsAnswerFor(o.tls.value, o.server, key);
    UriForField(o, key);
  }

  lemma UriForReality(o: Outbound)
    requires 0 <= o.serverPort && o.tls.Some? && o.tls.value.reality.Some?
    requires TlsShape(o.tls.value, o.server)
    ensures var r := o.tls.value.reality.value;
      && UriFor(o).Field(Pbk) == r.publicKey
      && UriFor(o).Field(Sid) == r.shortId
      && UriFor(o).Field(Fp) == o.tls.value.utls.value.fingerprint
  {
    hide TrimSpace, Decimal, UriFor, AnswerFor, IsAlpn;
    UriForTlsField(o, Pbk);
    UriForTlsField(o, Sid);
    UriForTlsField(o, Fp);
  }

  lemma UriForAddress(o: Outbound)
    requires WellFormed(o)
    ensures HasAddress(UriFor(o)) && PortOf(UriFor(o)) == o.serverPort
  {
    ValueOfDecimal(o.serverPort);
  }

  lemma UriForIsAccepted(o: Outbound)
    requires WellFormed(o)
    ensures Accepts(UriFor(o))
  {
    UriForChoices(o);
    UriForAddress(o);
    UriForFlow(o);
    LowerWords("vless");
    if SecurityFor(o) == "reality" {
      UriForReality(o);
    }
  }

  lemma UriForServerName(o: Outbound)
    requires 0 <= o.serverPort && o.tls.Some? && TlsShape(o.tls.value, o.server)
    ensures OrElse(UriFor(o).Field(Sni), o.server) == o.tls.value.serverName
  {
    UriForTlsField(o, Sni);
  }

  lemma AlpnAnswer(o: Outbound)
    requires o.tls.Some?
    ensures AnswerFor(o, AlpnKey) == Seqs.Join(o.tls.value.alpn, ',')
  {
  }

  lemma UriForAlpn(o: Outbound)
    requires 0 <= o.serverPort && o.tls.Some? && IsAlpn(o.tls.value.alpn)
    ensures Alpn(UriFor(o).Get(AlpnKey)) == o.tls.value.alpn
  {
    AlpnAnswer(o);
    hide Alpn, IsAlpn, AnswerFor, Decimal;
    UriForAnswers(o, AlpnKey);
    AlpnReadsBack(o.tls.value.alpn);
  }

  lemma UriForInsecure(o: Outbound)
    requires 0 <= o.serverPort && o.tls.Some?
    ensures BoolFlag(UriFor(o).Get(Insecure)) == o.tls.value.insecure
    ensures !BoolFlag(UriFor(o).Get(AllowInsecure))
  {
    hide TrimSpace;
    UriForAnswers(o, AllowInsecure);
    UriForAnswers(o, Insecure);
    FlagTexts();
  }

  lemma FlagTexts()
    ensures BoolFlag("1") && !BoolFlag("")
  {
    TrimmedStays("1");
    assert ToLower("1") == "1" && ToLower("") == "";
  }

  lemma UriForTls(o: Outbound)
    requires 0 <= o.serverPort && o.tls.Some? && TlsShape(o.tls.value, o.server)
    ensures if o.tls.value.reality.Some? then RealityTls(UriFor(o)) == o.tls.value
            else PlainTls(UriFor(o)) == o.tls.value
  {
    hide TrimSpace, Alpn, BoolFlag, AnswerFor, Decimal;
    UriForServerName(o);
    UriForAlpn(o);
    if o.tls.value.reality.Some? {
      UriForReality(o);
    } else {
      UriForInsecure(o);
      UriForTlsField(o, Fp);
    }
  }

  lemma UriForHttpTransport(o: Outbound)
    requires 0 <= o.serverPort && o.transport.Some?
    requires var t := o.transport.value; t.path != "" && Trimmed(t.host) && Trimmed(t.path)
    ensures UriFor(o).Field(Host) == o.transport.value.host
    ensures OrElse(UriFor(o).Field(Path), "/") == o.transport.value.path
  {
    hide TrimSpace, Decimal;
    UriForField(o, Host);
    UriForField(o, Path);
  }

  lemma UriForGrpcTransport(o: Outbound)
    requires 0 <= o.serverPort && o.transport.Some? && Trimmed(o.transport.value.serviceName)
    ensures OrElse(UriFor(o).Field(ServiceName), UriFor(o).Field(ServiceNameKebab))
         == o.transport.value.serviceName
  {
    hide TrimSpace, Decimal;
    UriForField(o, ServiceName);
    UriForAnswers(o, ServiceNameKebab);
    TrimmedStays("");
  }

  lemma UriForTransport(o: Outbound)
    requires 0 <= o.serverPort && o.transport.Some? && TransportShape(o.transport.value)
    ensures o.transport.value.kind != "tcp"
    ensures TransportBlock(UriFor(o), o.transport.value.kind) == o.transport.value
  {
    hide TrimSpace, Decimal, UriFor, Trimmed, AnswerFor, OrElse;
    if o.transport.value.kind == "grpc" {
      UriForGrpcTransport(o);
    } else {
      UriForHttpTransport(o);
    }
  }

  /** Every well-formed outbound is the result of some URI, so the image is exact. */
  lemma EveryWellFormedIsParsed(o: Outbound)
    requires WellFormed(o)
    ensures Accepts(UriFor(o)) && VlessOutbound(UriFor(o)) == o
  {
    UriForIsAccepted(o);
    UriForChoices(o);
    UriForAddress(o);
    UriForFlow(o);
    if o.tls.Some? {
      UriForTls(o);
    }
    if o.transport.Some? {
      UriForTransport(o);
    }
  }

  // -------------------------------------------------------------------------
  // The parser itself
  // -------------------------------------------------------------------------

  method BuildVlessTls(u: Uri) returns (tls: Tls)
    ensures tls == PlainTls(u)
  {
    var sni := u.Field(Sni);
    if sni == "" {
      sni := u.host;
    }
    var insecure := BoolFlag(u.Get(AllowInsecure)) || BoolFlag(u.Get(Insecure));
    tls := Tls(true, sni, insecure, [], None, None);
    var alpn := SplitAlpn(u.Get(AlpnKey));
    tls := tls.(alpn := alpn);
    var fp := u.Field(Fp);
    if fp != "" {
      tls := tls.(utls := Some(Utls(true, fp)));
    }
  }

  method BuildVlessReality(u: Uri) returns (r: Result<Tls, Refusal>)
    ensures r == if u.Field(Pbk) == "" then Failure(RealityNeedsPublicKey)
                 else if u.Field(Fp) == "" then Failure(RealityNeedsFingerprint)
                 else Success(RealityTls(u))
  {
    var pbk := u.Field(Pbk);
    if pbk == "" {
      return Failure(RealityNeedsPublicKey);
    }
    var fp := u.Field(Fp);
    if fp == "" {
      return Failure(RealityNeedsFingerprint);
    }
    var sni := u.Field(Sni);
    if sni == "" {
      sni := u.host;
    }
    var tls := Tls(true, sni, false, [], Some(Utls(true, fp)), Some(Reality(true, pbk, u.Field(Sid))));
    var alpn := SplitAlpn(u.Get(AlpnKey));
    return Success(tls.(alpn := alpn));
  }

  method BuildVlessTransport(t: string, u: Uri) returns (tr: Transport)
    ensures tr == TransportBlock(u, t)
  {
    var kind := t;
    if kind == "xhttp" || kind == "splithttp" {
      kind := "httpupgrade";
    }
    tr := Transport(kind, "", "", "");
    if kind == "ws" || kind == "h2" || kind == "httpupgrade" {
      tr := tr.(host := u.Field(Host), path := u.Field(Path));
      if tr.path == "" {
        tr := tr.(path := "/");
      }
    } else if kind == "grpc" {
      tr := tr.(serviceName := u.Field(ServiceName));
      if tr.serviceName == "" {
        tr := tr.(serviceName := u.Field(ServiceNameKebab));
      }
    }
  }

  /** The parser succeeds exactly on the accepted URIs, and then with a well-formed outbound. */
  lemma ParserIsExact(u: Uri)
    ensures VlessNode(u).Success? <==> Accepts(u)
    ensures VlessNode(u).Success? ==> WellFormed(VlessNode(u).value.outbound)
  {
    RefusalIsExact(u);
    if Accepts(u) {
      ResultIsWellFormed(u);
    }
  }

  method ParseVLESS(raw: string, lib: Library) returns (r: Parsed)
    ensures r == match lib.split(TrimSpace(raw)) { case None => Failure(BadUrl) case Some(u) => VlessNode(u) }
  {
    hide TrimSpace, IsUuid, ParsePort, PlainTls, RealityTls, TransportBlock, ToLower, LabelOf, WellFormed;
    var parsed := lib.split(TrimSpace(raw));
    if parsed.None? {
      return Failure(BadUrl);
    }
    var u := parsed.value;
    RefusalIsExact(u);
    if ToLower(u.scheme) != "vless" {
      return Failure(UnexpectedScheme);
    }
    if u.user.None? {
      return Failure(MissingUuid);
    }
    if u.user.value.password.Some? {
      return Failure(ColonInUuid);
    }
    var uuid := u.user.value.username;
    if !IsUuid(uuid) {
      return Failure(InvalidUuid);
    }
    if AddressRefusal(u).Some? {
      return Failure(AddressRefusal(u).value);
    }
    var transportType := TransportOf(u);
    if transportType !in TRANSPORTS {
      return Failure(UnsupportedTransport);
    }
    var security := SecurityOf(u);
    if security !in SECURITIES {
      return Failure(UnsupportedSecurity);
    }
    var out := Outbound("vless", "proxy", u.host, PortOf(u), "", uuid, "", "", "", None, None, None);
    var flow := u.Field(Flow);
    if flow != "" {
      if flow != VISION {
        return Failure(UnsupportedFlow);
      }
      out := out.(flow := flow);
    }
    if security == "tls" {
      var tls := BuildVlessTls(u);
      out := out.(tls := Some(tls));
    } else if security == "reality" {
      var tls := BuildVlessReality(u);
      if tls.Failure? {
        return Failure(tls.error);
      }
      out := out.(tls := Some(tls.value));
    }
    if transportType != "tcp" {
      var tr := BuildVlessTransport(transportType, u);
      out := out.(transport := Some(tr));
    }
    var display := Display("VLESS", u.host, PortOf(u), "", false, transportType, []);
    if out.tls.Some? {
      display := display.(sni := out.tls.value.serverName, tlsVerify := !out.tls.value.insecure);
    }
    if transportType == "xhttp" || transportType == "splithttp" {
      display := display.(notes := display.notes + [MappedToHttpUpgrade(transportType)]);
    }
    assert out.tls == TlsOf(u);
    assert out == VlessOutbound(u);
    assert display == VlessDisplay(u);
    return Success(ParsedNode(out, LabelOf(u), display));
  }
}
