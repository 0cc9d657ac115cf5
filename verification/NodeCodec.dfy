/** Outbounds as JSON objects: the struct tags of internal/parser/types.go read both ways. */
module NodeCodec {
  import opened Wrappers
  import opened Json
  import Nodes

  const REALITY_TAGS := {Enabled, PublicKey, ShortId}
  const UTLS_TAGS := {Enabled, Fingerprint}
  const OBFS_TAGS := {Type, Password}
  const TRANSPORT_TAGS := {Type, Host, Path, ServiceName}
  const TLS_TAGS := {Enabled, ServerName, Insecure, Alpn, Utls, Reality}
  const OUTBOUND_TAGS := {Type, Tag, Server, ServerPort, Password, Uuid, Flow, Version, Username, Tls,
                          Obfs, Transport}

  function RealityField(r: Nodes.Reality, k: Key): Option<Json>
  {
    match k
    case Enabled => Some(JBool(r.enabled))
    case PublicKey => Some(JStr(r.publicKey))
    case ShortId => OmitStr(r.shortId)
    case _ => None
  }

  function UtlsField(u: Nodes.Utls, k: Key): Option<Json>
  {
    match k
    case Enabled => Some(JBool(u.enabled))
    case Fingerprint => OmitStr(u.fingerprint)
    case _ => None
  }

  function ObfsField(o: Nodes.Obfs, k: Key): Option<Json>
  {
    match k
    case Type => Some(JStr(o.kind))
    case Password => OmitStr(o.password)
    case _ => None
  }

  function TransportField(t: Nodes.Transport, k: Key): Option<Json>
  {
    match k
    case Type => Some(JStr(t.kind))
    case Host => OmitStr(t.host)
    case Path => OmitStr(t.path)
    case ServiceName => OmitStr(t.serviceName)
    case _ => None
  }

  function EncodeReality(r: Nodes.Reality): Json { Object(REALITY_TAGS, k => RealityField(r, k)) }

  function EncodeUtls(u: Nodes.Utls): Json { Object(UTLS_TAGS, k => UtlsField(u, k)) }

  function EncodeObfs(o: Nodes.Obfs): Json { Object(OBFS_TAGS, k => ObfsField(o, k)) }

  function EncodeTransport(t: Nodes.Transport): Json { Object(TRANSPORT_TAGS, k => TransportField(t, k)) }

  /** A pointer with omitempty: nil is left out, anything else is written whole. */
  function Pointer<T>(p: Option<T>, encode: T -> Json): Option<Json>
  {
    if p.None? then None else Some(encode(p.value))
  }

  function TlsField(t: Nodes.Tls, k: Key): Option<Json>
  {
    match k
    case Enabled => Some(JBool(t.enabled))
    case ServerName => OmitStr(t.serverName)
    case Insecure => OmitBool(t.insecure)
    case Alpn => OmitArr(Strings(t.alpn))
    case Utls => Pointer(t.utls, EncodeUtls)
    case Reality => Pointer(t.reality, EncodeReality)
    case _ => None
  }

  function EncodeTls(t: Nodes.Tls): Json { Object(TLS_TAGS, k => TlsField(t, k)) }

  function OutboundField(o: Nodes.Outbound, k: Key): Option<Json>
  {
    match k
    case Type => Some(JStr(o.kind))
    case Tag => Some(JStr(o.tag))
    case Server => OmitStr(o.server)
    case ServerPort => OmitInt(o.serverPort)
    case Password => OmitStr(o.password)
    case Uuid => OmitStr(o.uuid)
    case Flow => OmitStr(o.flow)
    case Version => OmitStr(o.version)
    case Username => OmitStr(o.username)
    case Tls => Pointer(o.tls, EncodeTls)
    case Obfs => Pointer(o.obfs, EncodeObfs)
    case Transport => Pointer(o.transport, EncodeTransport)
    case _ => None
  }

  function EncodeOutbound(o: Nodes.Outbound): Json { Object(OUTBOUND_TAGS, k => OutboundField(o, k)) }

  // -------------------------------------------------------------------------
  // Reading back
  // -------------------------------------------------------------------------

  function DecodeReality(j: Json): Option<Nodes.Reality>
  {
    if !j.JObj? then None
    else
      var e, p, s := BoolAt(j.fields, Enabled), StrAt(j.fields, PublicKey), StrAt(j.fields, ShortId);
      if e.None? || p.None? || s.None? then None else Some(Nodes.Reality(e.value, p.value, s.value))
  }

  function DecodeUtls(j: Json): Option<Nodes.Utls>
  {
    if !j.JObj? then None
    else
      var e, f := BoolAt(j.fields, Enabled), StrAt(j.fields, Fingerprint);
      if e.None? || f.None? then None else Some(Nodes.Utls(e.value, f.value))
  }

  function DecodeObfs(j: Json): Option<Nodes.Obfs>
  {
    if !j.JObj? then None
    else
      var t, p := StrAt(j.fields, Type), StrAt(j.fields, Password);
      if t.None? || p.None? then None else Some(Nodes.Obfs(t.value, p.value))
  }

  function DecodeTransport(j: Json): Option<Nodes.Transport>
  {
    if !j.JObj? then None
    else
      var t, h := StrAt(j.fields, Type), StrAt(j.fields, Host);
      var p, n := StrAt(j.fields, Path), StrAt(j.fields, ServiceName);
      if t.None? || h.None? || p.None? || n.None? then None
      else Some(Nodes.Transport(t.value, h.value, p.value, n.value))
  }

  /** A pointer field: nil when missing or null, otherwise what it points to. */
  function PointerAt<T>(fields: map<Key, Json>, k: Key, decode: Json -> Option<T>): Option<Option<T>>
  {
    match At(fields, k)
    case None => Some(None)
    case Some(v) => var r := decode(v); if r.None? then None else Some(r)
  }

  function DecodeTls(j: Json): Option<Nodes.Tls>
  {
    if !j.JObj? then None
    else
      var e, s, i := BoolAt(j.fields, Enabled), StrAt(j.fields, ServerName), BoolAt(j.fields, Insecure);
      var a := StringsAt(j.fields, Alpn);
      var u, r := PointerAt(j.fields, Utls, DecodeUtls), PointerAt(j.fields, Reality, DecodeReality);
      if e.None? || s.None? || i.None? || a.None? || u.None? || r.None? then None
      else Some(Nodes.Tls(e.value, s.value, i.value, a.value, u.value, r.value))
  }

  function DecodeOutbound(j: Json): Option<Nodes.Outbound>
  {
    if !j.JObj? then None
    else
      var f := j.fields;
      var ty, tag, srv, port := StrAt(f, Type), StrAt(f, Tag), StrAt(f, Server), IntAt(f, ServerPort);
      var pw, id, flow := StrAt(f, Password), StrAt(f, Uuid), StrAt(f, Flow);
      var ver, user := StrAt(f, Version), StrAt(f, Username);
      var tls := PointerAt(f, Tls, DecodeTls);
      var obfs := PointerAt(f, Obfs, DecodeObfs);
      var tr := PointerAt(f, Transport, DecodeTransport);
      if ty.None? || tag.None? || srv.None? || port.None? || pw.None? || id.None? || flow.None?
         || ver.None? || user.None? || tls.None? || obfs.None? || tr.None?
      then None
      else Some(Nodes.Outbound(ty.value, tag.value, srv.value, port.value, pw.value, id.value, flow.value,
                               ver.value, user.value, tls.value, obfs.value, tr.value))
  }

  lemma TlsAt(t: Nodes.Tls, k: Key)
    requires k in TLS_TAGS
    ensures EncodeTls(t).JObj? && At(EncodeTls(t).fields, k) == TlsField(t, k)
  {
  }

  lemma UtlsReadsBack(u: Nodes.Utls)
    ensures DecodeUtls(EncodeUtls(u)) == Some(u)
  {
  }

  lemma RealityReadsBack(r: Nodes.Reality)
    ensures DecodeReality(EncodeReality(r)) == Some(r)
  {
  }

  lemma ObfsReadsBack(o: Nodes.Obfs)
    ensures DecodeObfs(EncodeObfs(o)) == Some(o)
  {
  }

  lemma TransportAt(t: Nodes.Transport, k: Key)
    requires k in TRANSPORT_TAGS
    ensures EncodeTransport(t).JObj? && At(EncodeTransport(t).fields, k) == TransportField(t, k)
  {
  }

  lemma TransportReadsBack(t: Nodes.Transport)
    ensures DecodeTransport(EncodeTransport(t)) == Some(t)
  {
    hide EncodeTransport, At;
    TransportAt(t, Type);
    TransportAt(t, Host);
    TransportAt(t, Path);
    TransportAt(t, ServiceName);
  }

  lemma TlsScalarsReadBack(t: Nodes.Tls)
    ensures EncodeTls(t).JObj?
    ensures var f := EncodeTls(t).fields;
      && BoolAt(f, Enabled) == Some(t.enabled) && StrAt(f, ServerName) == Some(t.serverName)
      && BoolAt(f, Insecure) == Some(t.insecure) && StringsAt(f, Alpn) == Some(t.alpn)
  {
    hide EncodeTls, At, ReadStrings;
    TlsAt(t, Enabled);
    TlsAt(t, ServerName);
    TlsAt(t, Insecure);
    TlsAt(t, Alpn);
    StringsReadBack(t.alpn);
  }

  lemma TlsReadsBack(t: Nodes.Tls)
    ensures DecodeTls(EncodeTls(t)) == Some(t)
  {
    hide EncodeTls, EncodeUtls, EncodeReality, DecodeUtls, DecodeReality, At, BoolAt, StrAt, StringsAt;
    TlsScalarsReadBack(t);
    TlsAt(t, Utls);
    TlsAt(t, Reality);
    if t.utls.Some? {
      UtlsReadsBack(t.utls.value);
    }
    if t.reality.Some? {
      RealityReadsBack(t.reality.value);
    }
  }

  lemma OutboundAt(o: Nodes.Outbound, k: Key)
    requires k in OUTBOUND_TAGS
    ensures EncodeOutbound(o).JObj? && At(EncodeOutbound(o).fields, k) == OutboundField(o, k)
  {
  }

  lemma OutboundPointersReadBack(o: Nodes.Outbound)
    ensures EncodeOutbound(o).JObj?
    ensures PointerAt(EncodeOutbound(o).fields, Tls, DecodeTls) == Some(o.tls)
    ensures PointerAt(EncodeOutbound(o).fields, Obfs, DecodeObfs) == Some(o.obfs)
    ensures PointerAt(EncodeOutbound(o).fields, Transport, DecodeTransport) == Some(o.transport)
  {
    hide EncodeOutbound, EncodeTls, EncodeObfs, EncodeTransport, DecodeTls, DecodeObfs, DecodeTransport, At;
    OutboundAt(o, Tls);
    OutboundAt(o, Obfs);
    OutboundAt(o, Transport);
    if o.tls.Some? {
      TlsReadsBack(o.tls.value);
    }
    if o.obfs.Some? {
      ObfsReadsBack(o.obfs.value);
    }
    if o.transport.Some? {
      TransportReadsBack(o.transport.value);
    }
  }

  lemma OutboundTextsReadBack(o: Nodes.Outbound, k: Key, s: string)
    requires k in OUTBOUND_TAGS && (OutboundField(o, k) == OmitStr(s) || OutboundField(o, k) == Some(JStr(s)))
    ensures EncodeOutbound(o).JObj? && StrAt(EncodeOutbound(o).fields, k) == Some(s)
  {
    OutboundAt(o, k);
  }

  lemma OutboundPortReadsBack(o: Nodes.Outbound)
    ensures EncodeOutbound(o).JObj? && IntAt(EncodeOutbound(o).fields, ServerPort) == Some(o.serverPort)
  {
    OutboundAt(o, ServerPort);
  }

  /** Leaving out zero fields loses nothing: any outbound comes back from its encoding. */
  lemma OutboundReadsBack(o: Nodes.Outbound)
    ensures DecodeOutbound(EncodeOutbound(o)) == Some(o)
  {
    hide EncodeOutbound, StrAt, IntAt, PointerAt, OmitStr;
    OutboundTextsReadBack(o, Type, o.kind);
    OutboundTextsReadBack(o, Tag, o.tag);
    OutboundTextsReadBack(o, Server, o.server);
    OutboundPortReadsBack(o);
    OutboundTextsReadBack(o, Password, o.password);
    OutboundTextsReadBack(o, Uuid, o.uuid);
    OutboundTextsReadBack(o, Flow, o.flow);
    OutboundTextsReadBack(o, Version, o.version);
    OutboundTextsReadBack(o, Username, o.username);
    OutboundPointersReadBack(o);
  }
}
