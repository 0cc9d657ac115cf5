/** The dispatcher over URI schemes (internal/parser/parser.go) and what holds of every
    node it returns. */
module Links {
  import opened Wrappers
  import opened Text
  import opened Nodes
  import Vless
  import Hysteria2
  import Socks

  const HYSTERIA2_SCHEMES := ["hysteria2", "hy2"]
  const SOCKS_SCHEMES := ["socks", "socks4", "socks4a", "socks5", "socks5h"]

  function UriNode(u: Uri, lib: Library): Parsed
  {
    var scheme := ToLower(u.scheme);
    if scheme in HYSTERIA2_SCHEMES then Hysteria2.Hysteria2Node(u)
    else if scheme == "vless" then Vless.VlessNode(u)
    else if scheme in SOCKS_SCHEMES then Socks.SocksNode(u, lib)
    else Failure(UnsupportedScheme)
  }

  function Node(raw: string, lib: Library): Parsed
  {
    var text := TrimSpace(raw);
    if text == "" then Failure(EmptyUri)
    else match lib.split(text) { case None => Failure(BadUrl) case Some(u) => UriNode(u, lib) }
  }

  method Parse(raw: string, lib: Library) returns (r: Parsed)
    ensures r == Node(raw, lib)
  {
    hide Vless.VlessNode, Hysteria2.Hysteria2Node, Socks.SocksNode, ToLower, TrimSpace;
    var text := TrimSpace(raw);
    TrimSpaceTrims(raw);
    TrimmedStays(text);
    if text == "" {
      return Failure(EmptyUri);
    }
    var parsed := lib.split(text);
    if parsed.None? {
      return Failure(BadUrl);
    }
    var scheme := ToLower(parsed.value.scheme);
    if scheme in HYSTERIA2_SCHEMES {
      r := Hysteria2.ParseHysteria2(text, lib);
    } else if scheme == "vless" {
      r := Vless.ParseVLESS(text, lib);
    } else if scheme in SOCKS_SCHEMES {
      r := Socks.ParseSOCKS(text, lib);
    } else {
      return Failure(UnsupportedScheme);
    }
  }

  /** Every node is a proxy outbound that our own readers recognise, and its display tells
      the truth about address, SNI and certificate verification. */
  lemma NodesAreProxies(raw: string, lib: Library)
    requires Node(raw, lib).Success?
    ensures var n := Node(raw, lib).value;
      && n.outbound.tag == "proxy"
      && n.outbound.kind in ["hysteria2", "vless", "socks"]
      && n.outbound.server != "" && 1 <= n.outbound.serverPort <= 65535
      && n.display.server == n.outbound.server && n.display.port == n.outbound.serverPort
      && n.display.sni == (if n.outbound.tls.Some? then n.outbound.tls.value.serverName else "")
      && n.display.tlsVerify == (n.outbound.tls.Some? && !n.outbound.tls.value.insecure)
  {
    hide TrimSpace, ToLower, Value, Vless.TlsOf, Vless.TransportBlock, Alpn, BoolFlag;
    var u := lib.split(TrimSpace(raw)).value;
    Vless.RefusalIsExact(u);
    Hysteria2.RefusalIsExact(u);
    Socks.RefusalIsExact(u);
  }

  /** The URIs differ at most in how they spell the port. */
  predicate SameButPort(u: Uri, v: Uri)
  {
    && v == u.(port := v.port)
    && u.port != "" && v.port != "" && ParsePort(u.port) == ParsePort(v.port)
  }

  lemma SameAnswers(u: Uri, v: Uri)
    requires SameButPort(u, v)
    ensures forall k :: u.Field(k) == v.Field(k) && u.Get(k) == v.Get(k)
    ensures AddressRefusal(u) == AddressRefusal(v) && HasAddress(u) == HasAddress(v) && LabelOf(u) == LabelOf(v)
    ensures HasAddress(u) ==> PortOf(u) == PortOf(v)
  {
    hide TrimSpace, Value;
  }

  lemma VlessPort(u: Uri, v: Uri)
    requires SameButPort(u, v)
    ensures Vless.VlessNode(u) == Vless.VlessNode(v)
  {
    hide AddressRefusal, HasAddress, PortOf, LabelOf, ParsePort, TrimSpace, ToLower, Alpn, BoolFlag, Vless.IsUuid,
      Uri.Get, Uri.Field, Vless.Accepts;
    SameAnswers(u, v);
    Vless.RefusalIsExact(u);
    Vless.RefusalIsExact(v);
    assert forall k, d :: Vless.Choice(u, k, d) == Vless.Choice(v, k, d);
    assert Vless.TlsOf(u) == Vless.TlsOf(v);
    assert forall t :: Vless.TransportBlock(u, t) == Vless.TransportBlock(v, t);
    assert Vless.VlessRefusal(u) == Vless.VlessRefusal(v);
    if Vless.Accepts(u) {
      AcceptedHasAddress(u);
    }
  }

  lemma AcceptedHasAddress(u: Uri)
    requires Vless.Accepts(u)
    ensures HasAddress(u)
  {
  }

  lemma Hysteria2Port(u: Uri, v: Uri)
    requires SameButPort(u, v)
    ensures Hysteria2.Hysteria2Node(u) == Hysteria2.Hysteria2Node(v)
  {
    hide AddressRefusal, HasAddress, PortOf, LabelOf, ParsePort, TrimSpace, ToLower, Alpn, BoolFlag, Uri.Get, Uri.Field;
    SameAnswers(u, v);
    Hysteria2.RefusalIsExact(u);
    Hysteria2.RefusalIsExact(v);
  }

  lemma SocksPort(u: Uri, v: Uri, lib: Library)
    requires SameButPort(u, v)
    ensures Socks.SocksNode(u, lib) == Socks.SocksNode(v, lib)
  {
    hide AddressRefusal, HasAddress, PortOf, LabelOf, ParsePort, TrimSpace, ToLower, Uri.Get, Uri.Field,
      Socks.SocksVersion;
    SameAnswers(u, v);
    Socks.RefusalIsExact(u);
    Socks.RefusalIsExact(v);
  }

  /** A leading zero in the port makes no difference to any parser. */
  lemma LeadingZerosDoNotMatter(u: Uri, lib: Library)
    requires u.port != ""
    ensures AllDigits("0" + u.port)
    ensures UriNode(u.(port := "0" + u.port), lib) == UriNode(u, lib)
  {
    hide ToLower, Value, Vless.VlessNode, Hysteria2.Hysteria2Node, Socks.SocksNode;
    LeadingZero(u.port);
    var v := u.(port := "0" + u.port);
    VlessPort(u, v);
    Hysteria2Port(u, v);
    SocksPort(u, v, lib);
  }

  // -------------------------------------------------------------------------
  // Display is independent of secrets
  // -------------------------------------------------------------------------

  /** Agreement on everything that is not a secret. */
  predicate SamePublicParts(u: Uri, v: Uri)
  {
    && u.scheme == v.scheme && u.host == v.host && u.port == v.port
    && u.user.Some? == v.user.Some?
    && u.Get(Sni) == v.Get(Sni)
    && u.Get(AllowInsecure) == v.Get(AllowInsecure) && u.Get(Insecure) == v.Get(Insecure)
    && u.Get(Type) == v.Get(Type) && u.Get(Security) == v.Get(Security)
  }

  /** User-info, obfs-password, pbk, sid and fp never show: accepted URIs that agree on
      their public parts are displayed alike. */
  lemma DisplayHidesSecrets(u: Uri, v: Uri, lib: Library)
    requires SamePublicParts(u, v)
    requires UriNode(u, lib).Success? && UriNode(v, lib).Success?
    ensures UriNode(u, lib).value.display == UriNode(v, lib).value.display
  {
    hide TrimSpace, ToLower, Value, Alpn, Vless.TransportBlock;
    Vless.RefusalIsExact(u);
    Vless.RefusalIsExact(v);
    Hysteria2.RefusalIsExact(u);
    Hysteria2.RefusalIsExact(v);
    Socks.RefusalIsExact(u);
    Socks.RefusalIsExact(v);
  }
}
