/** The sing-box configuration (internal/config/types.go) and its assembly from a node and
    the settings (internal/config/render.go). */
module Render {
  import opened Wrappers
  import opened Json
  import opened Settings
  import Text
  import Nodes
  import NodeCodec

  datatype TunInbound = TunInbound(interfaceName: string, address: seq<string>, mtu: int, autoRoute: bool,
                                   strictRoute: bool, stack: string, sniff: bool)
  datatype MixedInbound = MixedInbound(listen: string, listenPort: int)
  datatype Inbound = Tun(tun: TunInbound) | Mixed(mixed: MixedInbound)
  datatype OutboundEntry = Proxy(node: Nodes.Outbound) | Direct
  datatype RouteRule = RouteRule(action: string, protocol: string)
  datatype ClashApi = ClashApi(externalController: string, externalUi: string)
  datatype DnsServer = DnsServer(kind: string, tag: string, server: string)

  datatype Config = Config(
    logLevel: string, logTimestamp: bool,
    dnsServers: seq<DnsServer>, dnsStrategy: string,
    inbounds: seq<Inbound>, outbounds: seq<OutboundEntry>,
    routeFinal: string, routeRules: seq<RouteRule>,
    clashApi: Option<ClashApi>)

  /** probe.ResolveMixedListen; lan is what probe.LANIP answers, None when it fails. */
  function ResolveMixedListen(configured: string, lan: Option<string>): string
  {
    if Text.ToLower(Text.TrimSpace(configured)) == "auto" then
      if lan.Some? then lan.value else "0.0.0.0"
    else if configured == "" then "0.0.0.0"
    else configured
  }

  function Render(node: Nodes.Outbound, s: Settings, lan: Option<string>): Config
  {
    Config(
      s.logLevel, s.logTimestamp,
      [DnsServer("udp", "dns-direct", s.upstreamDns)], s.dnsStrategy,
      [Tun(TunInbound(s.tunInterfaceName, [s.tunAddress], s.tunMtu, false, false, s.tunStack, true))]
      + (if s.enableMixed then [Mixed(MixedInbound(ResolveMixedListen(s.mixedListen, lan), s.mixedListenPort))]
         else []),
      [Proxy(node), Direct],
      "proxy", [RouteRule("sniff", ""), RouteRule("hijack-dns", "dns")],
      if s.enableClashApi then Some(ClashApi.ClashApi(s.clashApiListen, s.clashApiUiDir)) else None)
  }

  // -------------------------------------------------------------------------
  // The configuration as a JSON tree
  // -------------------------------------------------------------------------

  const LOG_TAGS := {Level, Timestamp}
  const DNS_TAGS := {Servers, Strategy}
  const SERVER_TAGS := {Type, Tag, Server}
  const ROUTE_TAGS := {Final, Rules}
  const RULE_TAGS := {Action, Protocol}
  const CLASH_TAGS := {ExternalController, ExternalUi}

  function ServerField(d: DnsServer, k: Key): Option<Json>
  {
    match k
    case Type => OmitStr(d.kind)
    case Tag => OmitStr(d.tag)
    case Server => OmitStr(d.server)
    case _ => None
  }

  function EncodeDnsServer(d: DnsServer): Json { Object(SERVER_TAGS, k => ServerField(d, k)) }

  function EncodeInbound(i: Inbound): Json
  {
    match i
    case Tun(t) =>
      JObj(map[Type := JStr("tun"), Tag := JStr("tun-in"), InterfaceName := JStr(t.interfaceName),
               Address := JArr(Strings(t.address)), Mtu := JNum(t.mtu), AutoRoute := JBool(t.autoRoute),
               StrictRoute := JBool(t.strictRoute), Stack := JStr(t.stack), Sniff := JBool(t.sniff)])
    case Mixed(m) =>
      JObj(map[Type := JStr("mixed"), Tag := JStr("test-proxy"), Listen := JStr(m.listen),
               ListenPort := JNum(m.listenPort)])
  }

  function EncodeEntry(o: OutboundEntry): Json
  {
    match o
    case Proxy(n) => NodeCodec.EncodeOutbound(n)
    case Direct => JObj(map[Type := JStr("direct"), Tag := JStr("direct")])
  }

  function RuleField(r: RouteRule, k: Key): Option<Json>
  {
    match k
    case Action => OmitStr(r.action)
    case Protocol => OmitStr(r.protocol)
    case _ => None
  }

  function EncodeRule(r: RouteRule): Json { Object(RULE_TAGS, k => RuleField(r, k)) }

  function ClashField(c: ClashApi, k: Key): Option<Json>
  {
    match k
    case ExternalController => Some(JStr(c.externalController))
    case ExternalUi => OmitStr(c.externalUi)
    case _ => None
  }

  function EncodeClashApi(c: ClashApi): Json { Object(CLASH_TAGS, k => ClashField(c, k)) }

  function MapJson<T>(xs: seq<T>, encode: T -> Json): (js: seq<Json>)
    ensures |js| == |xs|
    ensures forall i :: 0 <= i < |xs| ==> js[i] == encode(xs[i])
  {
    seq(|xs|, i requires 0 <= i < |xs| => encode(xs[i]))
  }

  function LogField(c: Config, k: Key): Option<Json>
  {
    match k
    case Level => OmitStr(c.logLevel)
    case Timestamp => Some(JBool(c.logTimestamp))
    case _ => None
  }

  function EncodeLog(c: Config): Json { Object(LOG_TAGS, k => LogField(c, k)) }

  function DnsField(c: Config, k: Key): Option<Json>
  {
    match k
    case Servers => OmitArr(MapJson(c.dnsServers, EncodeDnsServer))
    case Strategy => OmitStr(c.dnsStrategy)
    case _ => None
  }

  function EncodeDns(c: Config): Json { Object(DNS_TAGS, k => DnsField(c, k)) }

  function RouteField(c: Config, k: Key): Option<Json>
  {
    match k
    case Final => Some(JStr(c.routeFinal))
    case Rules => OmitArr(MapJson(c.routeRules, EncodeRule))
    case _ => None
  }

  function EncodeRoute(c: Config): Json { Object(ROUTE_TAGS, k => RouteField(c, k)) }

  function EncodeExperimental(c: ClashApi): Json
  {
    JObj(map[Key.ClashApi := EncodeClashApi(c)])
  }

  function ConfigField(c: Config, k: Key): Option<Json>
  {
    match k
    case Log => Some(EncodeLog(c))
    case Dns => Some(EncodeDns(c))
    case Inbounds => OmitArr(MapJson(c.inbounds, EncodeInbound))
    case Outbounds => OmitArr(MapJson(c.outbounds, EncodeEntry))
    case Route => Some(EncodeRoute(c))
    case Experimental => NodeCodec.Pointer(c.clashApi, EncodeExperimental)
    case _ => None
  }

  const CONFIG_TAGS := {Log, Dns, Inbounds, Outbounds, Route, Experimental}

  function EncodeConfig(c: Config): Json { Object(CONFIG_TAGS, k => ConfigField(c, k)) }

  function RenderJson(node: Nodes.Outbound, s: Settings, lan: Option<string>): Json
  {
    EncodeConfig(Render(node, s, lan))
  }

  /** The outbounds of a rendered document: the node, then the direct one. */
  lemma RenderedOutbounds(node: Nodes.Outbound, s: Settings, lan: Option<string>)
    ensures var j := RenderJson(node, s, lan);
      && j.JObj?
      && At(j.fields, Outbounds) == Some(JArr([NodeCodec.EncodeOutbound(node), EncodeEntry(Direct)]))
  {
    hide ResolveMixedListen;
    var c := Render(node, s, lan);
    assert MapJson(c.outbounds, EncodeEntry) == [NodeCodec.EncodeOutbound(node), EncodeEntry(Direct)];
  }

  lemma RouteAt(c: Config, k: Key)
    requires k in ROUTE_TAGS
    ensures EncodeRoute(c).JObj? && At(EncodeRoute(c).fields, k) == RouteField(c, k)
  {
  }

  /** Traffic ends at the node: the final route of a rendered document names the tag of its
      first outbound, and the TUN inbound leaves routing to others. */
  lemma RouteEndsAtNode(node: Nodes.Outbound, s: Settings, lan: Option<string>)
    requires node.tag == "proxy"
    ensures var j := RenderJson(node, s, lan);
      && j.JObj? && At(j.fields, Route).Some? && j.fields[Route].JObj?
      && At(j.fields, Outbounds).Some? && j.fields[Outbounds].JArr? && j.fields[Outbounds].items != []
      && j.fields[Outbounds].items[0].JObj?
      && StrAt(j.fields[Route].fields, Final) == StrAt(j.fields[Outbounds].items[0].fields, Tag) == Some("proxy")
      && At(j.fields, Inbounds).Some? && j.fields[Inbounds].JArr? && j.fields[Inbounds].items != []
      && var tun := j.fields[Inbounds].items[0];
         tun.JObj? && StrAt(tun.fields, Type) == Some("tun")
         && BoolAt(tun.fields, AutoRoute) == Some(false) && BoolAt(tun.fields, StrictRoute) == Some(false)
  {
    hide EncodeConfig, EncodeRoute, NodeCodec.EncodeOutbound, ResolveMixedListen;
    var c := Render(node, s, lan);
    RenderedOutbounds(node, s, lan);
    ConfigAt(c, Route);
    RouteAt(c, Final);
    ConfigAt(c, Inbounds);
    NodeCodec.OutboundTextsReadBack(node, Tag, node.tag);
    assert MapJson(c.inbounds, EncodeInbound)[0] == EncodeInbound(c.inbounds[0]);
  }

  // -------------------------------------------------------------------------
  // What a rendered document depends on
  // -------------------------------------------------------------------------

  /** The part of the settings that reaches the document: a disabled listener's address
      does not, and the mixed listener's only after resolution. */
  datatype Effect = Effect(logLevel: string, logTimestamp: bool, upstreamDns: string, dnsStrategy: string,
                           tunInterfaceName: string, tunAddress: string, tunMtu: int, tunStack: string,
                           mixed: Option<MixedInbound>, clashApi: Option<ClashApi>)

  function EffectOf(s: Settings, lan: Option<string>): Effect
  {
    Effect(s.logLevel, s.logTimestamp, s.upstreamDns, s.dnsStrategy, s.tunInterfaceName, s.tunAddress, s.tunMtu,
           s.tunStack,
           if s.enableMixed then Some(MixedInbound(ResolveMixedListen(s.mixedListen, lan), s.mixedListenPort))
           else None,
           if s.enableClashApi then Some(ClashApi.ClashApi(s.clashApiListen, s.clashApiUiDir)) else None)
  }

  lemma ConfigAt(c: Config, k: Key)
    requires k in CONFIG_TAGS
    ensures EncodeConfig(c).JObj? && At(EncodeConfig(c).fields, k) == ConfigField(c, k)
  {
  }

  lemma LogAt(c: Config, k: Key)
    requires k in LOG_TAGS
    ensures EncodeLog(c).JObj? && At(EncodeLog(c).fields, k) == LogField(c, k)
  {
  }

  lemma LogDetermines(c: Config, d: Config)
    requires EncodeLog(c) == EncodeLog(d)
    ensures c.logLevel == d.logLevel && c.logTimestamp == d.logTimestamp
  {
    hide EncodeLog;
    LogAt(c, Level);
    LogAt(d, Level);
    LogAt(c, Timestamp);
    LogAt(d, Timestamp);
  }

  lemma ServerAt(x: DnsServer, k: Key)
    requires k in SERVER_TAGS
    ensures EncodeDnsServer(x).JObj? && At(EncodeDnsServer(x).fields, k) == ServerField(x, k)
  {
  }

  lemma DnsServerDetermines(x: DnsServer, y: DnsServer)
    requires EncodeDnsServer(x) == EncodeDnsServer(y)
    ensures x == y
  {
    hide EncodeDnsServer;
    ServerAt(x, Type);
    ServerAt(y, Type);
    ServerAt(x, Tag);
    ServerAt(y, Tag);
    ServerAt(x, Server);
    ServerAt(y, Server);
  }

  lemma DnsAt(c: Config, k: Key)
    requires k in DNS_TAGS
    ensures EncodeDns(c).JObj? && At(EncodeDns(c).fields, k) == DnsField(c, k)
  {
  }

  lemma DnsDetermines(c: Config, d: Config)
    requires EncodeDns(c) == EncodeDns(d) && |c.dnsServers| == |d.dnsServers| == 1
    ensures c.dnsServers == d.dnsServers && c.dnsStrategy == d.dnsStrategy
  {
    hide EncodeDns, EncodeDnsServer;
    DnsAt(c, Servers);
    DnsAt(d, Servers);
    DnsAt(c, Strategy);
    DnsAt(d, Strategy);
    assert MapJson(c.dnsServers, EncodeDnsServer)[0] == MapJson(d.dnsServers, EncodeDnsServer)[0];
    DnsServerDetermines(c.dnsServers[0], d.dnsServers[0]);
  }

  lemma InboundDetermines(x: Inbound, y: Inbound)
    requires EncodeInbound(x) == EncodeInbound(y)
    requires x.Tun? ==> |x.tun.address| == 1
    requires y.Tun? ==> |y.tun.address| == 1
    ensures x == y
  {
    var a, b := EncodeInbound(x).fields, EncodeInbound(y).fields;
    assert a[Type] == b[Type];
    if x.Tun? && y.Tun? {
      assert a[InterfaceName] == b[InterfaceName] && a[Mtu] == b[Mtu] && a[AutoRoute] == b[AutoRoute];
      assert a[StrictRoute] == b[StrictRoute] && a[Stack] == b[Stack] && a[Sniff] == b[Sniff];
      assert a[Address].items[0] == b[Address].items[0];
    } else if x.Mixed? && y.Mixed? {
      assert a[Listen] == b[Listen] && a[ListenPort] == b[ListenPort];
    }
  }

  lemma InboundsDetermine(c: Config, d: Config)
    requires ConfigField(c, Inbounds) == ConfigField(d, Inbounds) && c.inbounds != [] && d.inbounds != []
    requires forall i :: i in c.inbounds + d.inbounds && i.Tun? ==> |i.tun.address| == 1
    ensures c.inbounds == d.inbounds
  {
    hide EncodeInbound;
    var a, b := MapJson(c.inbounds, EncodeInbound), MapJson(d.inbounds, EncodeInbound);
    assert a == b;
    forall i | 0 <= i < |c.inbounds|
      ensures c.inbounds[i] == d.inbounds[i]
    {
      assert a[i] == b[i];
      assert c.inbounds[i] in c.inbounds && d.inbounds[i] in d.inbounds;
      InboundDetermines(c.inbounds[i], d.inbounds[i]);
    }
  }

  lemma ClashAt(x: ClashApi, k: Key)
    requires k in CLASH_TAGS
    ensures EncodeClashApi(x).JObj? && At(EncodeClashApi(x).fields, k) == ClashField(x, k)
  {
  }

  lemma ClashApiDetermines(x: ClashApi, y: ClashApi)
    requires EncodeExperimental(x) == EncodeExperimental(y)
    ensures x == y
  {
    hide EncodeClashApi;
    assert EncodeExperimental(x).fields[Key.ClashApi] == EncodeExperimental(y).fields[Key.ClashApi];
    ClashAt(x, ExternalController);
    ClashAt(y, ExternalController);
    ClashAt(x, ExternalUi);
    ClashAt(y, ExternalUi);
  }

  /** Two renderings are the same document exactly when they are of the same node and their
      settings have the same effect: nothing that matters is lost, nothing else matters. */
  lemma RenderedIffSameEffect(n: Nodes.Outbound, s: Settings, lan: Option<string>,
                              m: Nodes.Outbound, t: Settings, lan': Option<string>)
    ensures RenderJson(n, s, lan) == RenderJson(m, t, lan') <==> n == m && EffectOf(s, lan) == EffectOf(t, lan')
  {
    hide EncodeConfig, ResolveMixedListen, NodeCodec.EncodeOutbound, EncodeLog, EncodeDns, EncodeInbound,
      EncodeExperimental, MapJson;
    var c, d := Render(n, s, lan), Render(m, t, lan');
    if RenderJson(n, s, lan) == RenderJson(m, t, lan') {
      RenderedOutbounds(n, s, lan);
      RenderedOutbounds(m, t, lan');
      assert [NodeCodec.EncodeOutbound(n), EncodeEntry(Direct)][0]
          == [NodeCodec.EncodeOutbound(m), EncodeEntry(Direct)][0];
      NodeCodec.OutboundReadsBack(n);
      NodeCodec.OutboundReadsBack(m);
      ConfigAt(c, Log);
      ConfigAt(d, Log);
      ConfigAt(c, Dns);
      ConfigAt(d, Dns);
      ConfigAt(c, Inbounds);
      ConfigAt(d, Inbounds);
      ConfigAt(c, Experimental);
      ConfigAt(d, Experimental);
      LogDetermines(c, d);
      DnsDetermines(c, d);
      InboundsDetermine(c, d);
      if c.clashApi.Some? && d.clashApi.Some? {
        ClashApiDetermines(c.clashApi.value, d.clashApi.value);
      }
      SameConfigSameEffect(n, s, lan, m, t, lan');
    } else {
      SameEffectSameConfig(n, s, lan, t, lan');
    }
  }

  lemma SameConfigSameEffect(n: Nodes.Outbound, s: Settings, lan: Option<string>,
                             m: Nodes.Outbound, t: Settings, lan': Option<string>)
    requires var c, d := Render(n, s, lan), Render(m, t, lan');
      && c.logLevel == d.logLevel && c.logTimestamp == d.logTimestamp
      && c.dnsServers == d.dnsServers && c.dnsStrategy == d.dnsStrategy
      && c.inbounds == d.inbounds && c.clashApi == d.clashApi
    ensures EffectOf(s, lan) == EffectOf(t, lan')
  {
    hide ResolveMixedListen;
    var c, d := Render(n, s, lan), Render(m, t, lan');
    assert c.dnsServers[0] == d.dnsServers[0];
    assert c.inbounds[0] == d.inbounds[0];
    assert c.inbounds[0].tun.address[0] == d.inbounds[0].tun.address[0];
    assert |c.inbounds| == |d.inbounds|;
    assert s.enableMixed ==> c.inbounds[1] == d.inbounds[1];
  }

  lemma SameEffectSameConfig(n: Nodes.Outbound, s: Settings, lan: Option<string>, t: Settings, lan': Option<string>)
    ensures EffectOf(s, lan) == EffectOf(t, lan') ==> Render(n, s, lan) == Render(n, t, lan')
  {
    hide ResolveMixedListen;
  }
}
