/** What the written documents say under each key: the outbound, the settings, the state
    record, and the whole configuration that sing-box reads. */
module Documents {
  import opened Wrappers
  import opened Json
  import opened Settings
  import opened Saves
  import Text
  import Nodes
  import NodeCodec
  import Render

  // -------------------------------------------------------------------------
  // Reading by key
  // -------------------------------------------------------------------------

  /** The fields of the object under a key; no fields when there is none. */
  function Sub(fields: map<Key, Json>, k: Key): map<Key, Json>
  {
    match At(fields, k) case Some(JObj(f)) => f case _ => map[]
  }

  function Items(fields: map<Key, Json>, k: Key): seq<Json>
  {
    match At(fields, k) case Some(JArr(xs)) => xs case _ => []
  }

  /** The fields of the i-th element of a list. */
  function Nth(items: seq<Json>, i: nat): map<Key, Json>
  {
    if i < |items| && items[i].JObj? then items[i].fields else map[]
  }

  function Fields(j: Json): map<Key, Json>
  {
    if j.JObj? then j.fields else map[]
  }

  predicate Has(fields: map<Key, Json>, k: Key) { k in fields }

  // -------------------------------------------------------------------------
  // The outbound
  // -------------------------------------------------------------------------

  lemma ObjectHas(tags: set<Key>, field: Key -> Option<Json>, k: Key)
    ensures Object(tags, field).JObj?
    ensures Has(Object(tags, field).fields, k) <==> k in tags && field(k).Some?
  {
  }

  lemma OutboundHas(o: Nodes.Outbound, k: Key)
    requires k in NodeCodec.OUTBOUND_TAGS
    ensures Has(Fields(NodeCodec.EncodeOutbound(o)), k) <==> NodeCodec.OutboundField(o, k).Some?
  {
    hide NodeCodec.OutboundField;
    ObjectHas(NodeCodec.OUTBOUND_TAGS, k => NodeCodec.OutboundField(o, k), k);
  }

  /** A text of an outbound is under this key, and absent when empty. */
  predicate TextUnder(f: map<Key, Json>, k: Key, s: string)
  {
    StrAt(f, k) == Some(s) && (Has(f, k) <==> s != "")
  }

  lemma OutboundText(o: Nodes.Outbound, k: Key, s: string)
    requires k in NodeCodec.OUTBOUND_TAGS && NodeCodec.OutboundField(o, k) == OmitStr(s)
    ensures TextUnder(Fields(NodeCodec.EncodeOutbound(o)), k, s)
  {
    hide NodeCodec.EncodeOutbound, NodeCodec.OutboundField, StrAt, Has;
    NodeCodec.OutboundTextsReadBack(o, k, s);
    OutboundHas(o, k);
  }

  /** Each field of an outbound is under the key of its struct tag, and absent when empty
      exactly where the tag says omitempty. */
  lemma OutboundKeys(o: Nodes.Outbound)
    ensures var f := Fields(NodeCodec.EncodeOutbound(o));
      && StrAt(f, Type) == Some(o.kind) && Has(f, Type) && StrAt(f, Tag) == Some(o.tag) && Has(f, Tag)
      && TextUnder(f, Server, o.server) && TextUnder(f, Password, o.password) && TextUnder(f, Uuid, o.uuid)
      && TextUnder(f, Flow, o.flow) && TextUnder(f, Version, o.version) && TextUnder(f, Username, o.username)
      && IntAt(f, ServerPort) == Some(o.serverPort) && (Has(f, ServerPort) <==> o.serverPort != 0)
      && (Has(f, Tls) <==> o.tls.Some?) && (Has(f, Obfs) <==> o.obfs.Some?)
      && (Has(f, Transport) <==> o.transport.Some?)
  {
    hide NodeCodec.EncodeOutbound, StrAt, IntAt, Has, TextUnder, NodeCodec.EncodeTls, NodeCodec.EncodeObfs,
      NodeCodec.EncodeTransport;
    NodeCodec.OutboundTextsReadBack(o, Type, o.kind);
    NodeCodec.OutboundTextsReadBack(o, Tag, o.tag);
    NodeCodec.OutboundPortReadsBack(o);
    OutboundText(o, Server, o.server);
    OutboundText(o, Password, o.password);
    OutboundText(o, Uuid, o.uuid);
    OutboundText(o, Flow, o.flow);
    OutboundText(o, Version, o.version);
    OutboundText(o, Username, o.username);
    OutboundHas(o, Type);
    OutboundHas(o, Tag);
    OutboundHas(o, ServerPort);
    OutboundHas(o, Tls);
    OutboundHas(o, Obfs);
    OutboundHas(o, Transport);
  }

  lemma OutboundBlocks(o: Nodes.Outbound)
    ensures var f := Fields(NodeCodec.EncodeOutbound(o));
      && (o.tls.Some? ==> Sub(f, Tls) == Fields(NodeCodec.EncodeTls(o.tls.value)))
      && (o.obfs.Some? ==> Sub(f, Obfs) == Fields(NodeCodec.EncodeObfs(o.obfs.value)))
      && (o.transport.Some? ==> Sub(f, Transport) == Fields(NodeCodec.EncodeTransport(o.transport.value)))
  {
    hide NodeCodec.EncodeOutbound, At;
    NodeCodec.OutboundAt(o, Tls);
    NodeCodec.OutboundAt(o, Obfs);
    NodeCodec.OutboundAt(o, Transport);
  }

  lemma TlsHas(t: Nodes.Tls, k: Key)
    requires k in NodeCodec.TLS_TAGS
    ensures Has(Fields(NodeCodec.EncodeTls(t)), k) <==> NodeCodec.TlsField(t, k).Some?
  {
    hide NodeCodec.TlsField;
    ObjectHas(NodeCodec.TLS_TAGS, k => NodeCodec.TlsField(t, k), k);
  }

  lemma TlsKeys(t: Nodes.Tls)
    ensures var f := Fields(NodeCodec.EncodeTls(t));
      && BoolAt(f, Enabled) == Some(t.enabled) && Has(f, Enabled) && TextUnder(f, ServerName, t.serverName)
      && BoolAt(f, Insecure) == Some(t.insecure) && (Has(f, Insecure) <==> t.insecure)
      && StringsAt(f, Alpn) == Some(t.alpn) && (Has(f, Alpn) <==> t.alpn != [])
      && (Has(f, Utls) <==> t.utls.Some?) && (Has(f, Reality) <==> t.reality.Some?)
  {
    hide NodeCodec.EncodeTls, NodeCodec.EncodeUtls, NodeCodec.EncodeReality, BoolAt, StrAt, StringsAt, Has;
    NodeCodec.TlsScalarsReadBack(t);
    TlsHas(t, Enabled);
    TlsHas(t, ServerName);
    TlsHas(t, Insecure);
    TlsHas(t, Alpn);
    TlsHas(t, Utls);
    TlsHas(t, Reality);
  }

  lemma TlsBlocks(t: Nodes.Tls)
    ensures var f := Fields(NodeCodec.EncodeTls(t));
      && (t.utls.Some? ==> Sub(f, Utls) == Fields(NodeCodec.EncodeUtls(t.utls.value)))
      && (t.reality.Some? ==> Sub(f, Reality) == Fields(NodeCodec.EncodeReality(t.reality.value)))
  {
    hide NodeCodec.EncodeTls, At;
    NodeCodec.TlsAt(t, Utls);
    NodeCodec.TlsAt(t, Reality);
  }

  lemma UtlsKeys(u: Nodes.Utls)
    ensures var f := Fields(NodeCodec.EncodeUtls(u));
      BoolAt(f, Enabled) == Some(u.enabled) && StrAt(f, Fingerprint) == Some(u.fingerprint)
  {
  }

  lemma RealityKeys(r: Nodes.Reality)
    ensures var f := Fields(NodeCodec.EncodeReality(r));
      && BoolAt(f, Enabled) == Some(r.enabled) && StrAt(f, PublicKey) == Some(r.publicKey)
      && StrAt(f, ShortId) == Some(r.shortId)
  {
  }

  lemma ObfsKeys(o: Nodes.Obfs)
    ensures var f := Fields(NodeCodec.EncodeObfs(o));
      StrAt(f, Type) == Some(o.kind) && StrAt(f, Password) == Some(o.password)
  {
  }

  lemma TransportKeys(t: Nodes.Transport)
    ensures var f := Fields(NodeCodec.EncodeTransport(t));
      && StrAt(f, Type) == Some(t.kind) && StrAt(f, Host) == Some(t.host) && StrAt(f, Path) == Some(t.path)
      && StrAt(f, ServiceName) == Some(t.serviceName)
  {
    hide NodeCodec.EncodeTransport, At;
    NodeCodec.TransportAt(t, Type);
    NodeCodec.TransportAt(t, Host);
    NodeCodec.TransportAt(t, Path);
    NodeCodec.TransportAt(t, ServiceName);
  }

  // -------------------------------------------------------------------------
  // Settings and state
  // -------------------------------------------------------------------------

  lemma SettingText(s: Settings, k: Key, v: string)
    requires k in SETTING_TAGS && SettingField(s, k) == Some(JStr(v))
    ensures StrAt(Fields(EncodeSettings(s)), k) == Some(v)
  {
    hide EncodeSettings, SettingField;
    SettingAt(s, k);
  }

  lemma SettingNumber(s: Settings, k: Key, v: int)
    requires k in SETTING_TAGS && SettingField(s, k) == Some(JNum(v))
    ensures IntAt(Fields(EncodeSettings(s)), k) == Some(v)
  {
    hide EncodeSettings, SettingField;
    SettingAt(s, k);
  }

  lemma SettingFlag(s: Settings, k: Key, v: bool)
    requires k in SETTING_TAGS && SettingField(s, k) == Some(JBool(v))
    ensures BoolAt(Fields(EncodeSettings(s)), k) == Some(v)
  {
    hide EncodeSettings, SettingField;
    SettingAt(s, k);
  }

  lemma LogAndDnsKeys(s: Settings)
    ensures var f := Fields(EncodeSettings(s));
      && StrAt(f, LogLevel) == Some(s.logLevel) && BoolAt(f, LogTimestamp) == Some(s.logTimestamp)
      && StrAt(f, UpstreamDns) == Some(s.upstreamDns) && StrAt(f, DnsStrategy) == Some(s.dnsStrategy)
  {
    hide EncodeSettings, Fields, StrAt, BoolAt;
    SettingText(s, LogLevel, s.logLevel);
    SettingFlag(s, LogTimestamp, s.logTimestamp);
    SettingText(s, UpstreamDns, s.upstreamDns);
    SettingText(s, DnsStrategy, s.dnsStrategy);
  }

  lemma TunSettingKeys(s: Settings)
    ensures var f := Fields(EncodeSettings(s));
      && StrAt(f, TunInterfaceName) == Some(s.tunInterfaceName) && StrAt(f, TunAddress) == Some(s.tunAddress)
      && IntAt(f, TunMtu) == Some(s.tunMtu) && StrAt(f, TunStack) == Some(s.tunStack)
  {
    hide EncodeSettings, Fields, StrAt, IntAt;
    SettingText(s, TunInterfaceName, s.tunInterfaceName);
    SettingText(s, TunAddress, s.tunAddress);
    SettingNumber(s, TunMtu, s.tunMtu);
    SettingText(s, TunStack, s.tunStack);
  }

  lemma MixedSettingKeys(s: Settings)
    ensures var f := Fields(EncodeSettings(s));
      && BoolAt(f, EnableMixed) == Some(s.enableMixed) && StrAt(f, MixedListen) == Some(s.mixedListen)
      && IntAt(f, MixedListenPort) == Some(s.mixedListenPort)
  {
    hide EncodeSettings, Fields, StrAt, IntAt, BoolAt;
    SettingFlag(s, EnableMixed, s.enableMixed);
    SettingText(s, MixedListen, s.mixedListen);
    SettingNumber(s, MixedListenPort, s.mixedListenPort);
  }

  lemma ClashSettingKeys(s: Settings)
    ensures var f := Fields(EncodeSettings(s));
      && BoolAt(f, EnableClashApi) == Some(s.enableClashApi) && StrAt(f, ClashApiListen) == Some(s.clashApiListen)
      && StrAt(f, ClashApiUiDir) == Some(s.clashApiUiDir)
  {
    hide EncodeSettings, Fields, StrAt, BoolAt;
    SettingFlag(s, EnableClashApi, s.enableClashApi);
    SettingText(s, ClashApiListen, s.clashApiListen);
    SettingText(s, ClashApiUiDir, s.clashApiUiDir);
  }

  /** Each setting is under the key of its struct tag, always. */
  lemma SettingsKeys(s: Settings)
    ensures var f := Fields(EncodeSettings(s));
      && (forall k :: k in SETTING_TAGS ==> Has(f, k))
      && StrAt(f, LogLevel) == Some(s.logLevel) && BoolAt(f, LogTimestamp) == Some(s.logTimestamp)
      && StrAt(f, UpstreamDns) == Some(s.upstreamDns) && StrAt(f, DnsStrategy) == Some(s.dnsStrategy)
      && StrAt(f, TunInterfaceName) == Some(s.tunInterfaceName) && StrAt(f, TunAddress) == Some(s.tunAddress)
      && IntAt(f, TunMtu) == Some(s.tunMtu) && StrAt(f, TunStack) == Some(s.tunStack)
      && BoolAt(f, EnableMixed) == Some(s.enableMixed) && StrAt(f, MixedListen) == Some(s.mixedListen)
      && IntAt(f, MixedListenPort) == Some(s.mixedListenPort)
      && BoolAt(f, EnableClashApi) == Some(s.enableClashApi) && StrAt(f, ClashApiListen) == Some(s.clashApiListen)
      && StrAt(f, ClashApiUiDir) == Some(s.clashApiUiDir)
  {
    hide EncodeSettings, Has, Fields, StrAt, IntAt, BoolAt;
    LogAndDnsKeys(s);
    TunSettingKeys(s);
    MixedSettingKeys(s);
    ClashSettingKeys(s);
    forall k | k in SETTING_TAGS
      ensures Has(Fields(EncodeSettings(s)), k)
    {
      SettingHas(s, k);
    }
  }

  lemma SettingHas(s: Settings, k: Key)
    requires k in SETTING_TAGS
    ensures Has(Fields(EncodeSettings(s)), k)
  {
    hide SettingField;
    AlwaysSet(s, k);
    ObjectHas(SETTING_TAGS, k => SettingField(s, k), k);
  }

  lemma AlwaysSet(s: Settings, k: Key)
    requires k in SETTING_TAGS
    ensures SettingField(s, k).Some?
  {
  }

  lemma StateKeys(s: State)
    ensures var f := Fields(EncodeState(s));
      && StrAt(f, StateUri) == Some(s.uri) && StrAt(f, StateLabel) == Some(s.stateLabel)
      && IntAt(f, AppliedAt) == Some(s.appliedAt)
  {
    hide EncodeState, At;
    StateAt(s, StateUri);
    StateAt(s, StateLabel);
    StateAt(s, AppliedAt);
  }

  // -------------------------------------------------------------------------
  // The configuration
  // -------------------------------------------------------------------------

  /** The settings a configuration document takes effect with: log, DNS, the TUN inbound, the
      mixed inbound if there is one, and the Clash API if there is one. None when a value has
      the wrong type. */
  function ReadEffect(doc: Json): Option<Render.Effect>
  {
    var f := Fields(doc);
    var log, dns := Sub(f, Log), Sub(f, Dns);
    var server := Nth(Items(dns, Servers), 0);
    var tun := Nth(Items(f, Inbounds), 0);
    var level, stamp := StrAt(log, Level), BoolAt(log, Timestamp);
    var upstream, strategy := StrAt(server, Server), StrAt(dns, Strategy);
    var name, mtu, stack := StrAt(tun, InterfaceName), IntAt(tun, Mtu), StrAt(tun, Stack);
    var addresses := StringsAt(tun, Address);
    var mixed, clash := ReadMixed(Items(f, Inbounds)), ReadClash(Sub(f, Experimental));
    if level.None? || stamp.None? || upstream.None? || strategy.None? || name.None? || mtu.None? || stack.None?
       || addresses.None? || |addresses.value| != 1 || mixed.None? || clash.None?
    then None
    else
      Some(Render.Effect(level.value, stamp.value, upstream.value, strategy.value, name.value, addresses.value[0],
                         mtu.value, stack.value, mixed.value, clash.value))
  }

  function ReadMixed(inbounds: seq<Json>): Option<Option<Render.MixedInbound>>
  {
    if |inbounds| < 2 then Some(None)
    else
      var f := Nth(inbounds, 1);
      var listen, port := StrAt(f, Listen), IntAt(f, ListenPort);
      if listen.None? || port.None? then None else Some(Some(Render.MixedInbound(listen.value, port.value)))
  }

  function ReadClash(experimental: map<Key, Json>): Option<Option<Render.ClashApi>>
  {
    if !Has(experimental, Key.ClashApi) then Some(None)
    else
      var f := Sub(experimental, Key.ClashApi);
      var controller, ui := StrAt(f, ExternalController), StrAt(f, ExternalUi);
      if controller.None? || ui.None? then None
      else Some(Some(Render.ClashApi.ClashApi(controller.value, ui.value)))
  }

  lemma ReadsLog(c: Render.Config)
    ensures var f := Sub(Fields(Render.EncodeConfig(c)), Log);
      StrAt(f, Level) == Some(c.logLevel) && BoolAt(f, Timestamp) == Some(c.logTimestamp)
  {
    hide Render.EncodeConfig, Render.EncodeLog, At;
    Render.ConfigAt(c, Log);
    Render.LogAt(c, Level);
    Render.LogAt(c, Timestamp);
  }

  lemma ReadsDns(c: Render.Config)
    requires |c.dnsServers| == 1
    ensures var f := Sub(Fields(Render.EncodeConfig(c)), Dns);
      && StrAt(f, Strategy) == Some(c.dnsStrategy) && |Items(f, Servers)| == 1
      && var d := Nth(Items(f, Servers), 0);
         && StrAt(d, Type) == Some(c.dnsServers[0].kind) && StrAt(d, Tag) == Some(c.dnsServers[0].tag)
         && StrAt(d, Server) == Some(c.dnsServers[0].server)
  {
    hide Render.EncodeConfig, Render.EncodeDns, Render.EncodeDnsServer, At;
    Render.ConfigAt(c, Dns);
    Render.DnsAt(c, Strategy);
    Render.DnsAt(c, Servers);
    var d := c.dnsServers[0];
    assert Render.MapJson(c.dnsServers, Render.EncodeDnsServer)[0] == Render.EncodeDnsServer(d);
    Render.ServerAt(d, Type);
    Render.ServerAt(d, Tag);
    Render.ServerAt(d, Server);
  }

  lemma InboundItems(c: Render.Config)
    requires c.inbounds != []
    ensures var xs := Items(Fields(Render.EncodeConfig(c)), Inbounds);
      |xs| == |c.inbounds| && forall i :: 0 <= i < |xs| ==> xs[i] == Render.EncodeInbound(c.inbounds[i])
  {
    hide Render.EncodeConfig, Render.EncodeInbound, At;
    Render.ConfigAt(c, Inbounds);
  }

  lemma TunKeys(t: Render.TunInbound)
    ensures var f := Fields(Render.EncodeInbound(Render.Tun(t)));
      && StrAt(f, Type) == Some("tun") && StrAt(f, Tag) == Some("tun-in")
      && StrAt(f, InterfaceName) == Some(t.interfaceName) && StringsAt(f, Address) == Some(t.address)
      && IntAt(f, Mtu) == Some(t.mtu) && StrAt(f, Stack) == Some(t.stack)
      && BoolAt(f, AutoRoute) == Some(t.autoRoute) && BoolAt(f, StrictRoute) == Some(t.strictRoute)
      && BoolAt(f, Sniff) == Some(t.sniff)
  {
    hide ReadStrings;
    StringsReadBack(t.address);
  }

  lemma MixedKeys(m: Render.MixedInbound)
    ensures var f := Fields(Render.EncodeInbound(Render.Mixed(m)));
      && StrAt(f, Type) == Some("mixed") && StrAt(f, Tag) == Some("test-proxy")
      && StrAt(f, Listen) == Some(m.listen) && IntAt(f, ListenPort) == Some(m.listenPort)
  {
  }

  lemma ClashKeys(x: Render.ClashApi)
    ensures var e := Fields(Render.EncodeExperimental(x)); var f := Sub(e, Key.ClashApi);
      && Has(e, Key.ClashApi)
      && StrAt(f, ExternalController) == Some(x.externalController) && StrAt(f, ExternalUi) == Some(x.externalUi)
  {
    hide Render.EncodeClashApi;
    Render.ClashAt(x, ExternalController);
    Render.ClashAt(x, ExternalUi);
  }

  lemma ReadsClash(c: Render.Config)
    ensures ReadClash(Sub(Fields(Render.EncodeConfig(c)), Experimental)) == Some(c.clashApi)
  {
    hide Render.EncodeConfig, Render.EncodeClashApi, At, StrAt;
    Render.ConfigAt(c, Experimental);
    if c.clashApi.Some? {
      ClashKeys(c.clashApi.value);
    }
  }

  /** Every setting that has an effect is where sing-box looks for it. */
  lemma RenderedEffect(n: Nodes.Outbound, s: Settings, lan: Option<string>)
    ensures var e := ReadEffect(Render.RenderJson(n, s, lan));
      && e == Some(Render.EffectOf(s, lan))
      && e.value.logLevel == s.logLevel && e.value.logTimestamp == s.logTimestamp
      && e.value.upstreamDns == s.upstreamDns && e.value.dnsStrategy == s.dnsStrategy
      && e.value.tunInterfaceName == s.tunInterfaceName && e.value.tunAddress == s.tunAddress
      && e.value.tunMtu == s.tunMtu && e.value.tunStack == s.tunStack
      && (e.value.mixed.Some? <==> s.enableMixed) && (e.value.clashApi.Some? <==> s.enableClashApi)
      && (s.enableMixed ==> e.value.mixed.value.listenPort == s.mixedListenPort
                            && e.value.mixed.value.listen == Render.ResolveMixedListen(s.mixedListen, lan))
      && (s.enableClashApi ==> e.value.clashApi.value.externalController == s.clashApiListen
                               && e.value.clashApi.value.externalUi == s.clashApiUiDir)
  {
    hide Render.EncodeConfig, Render.EncodeInbound, Render.ResolveMixedListen, ReadClash, StrAt, IntAt, BoolAt,
      StringsAt, Items, Sub;
    var c := Render.Render(n, s, lan);
    ReadsLog(c);
    ReadsDns(c);
    InboundItems(c);
    TunKeys(c.inbounds[0].tun);
    if s.enableMixed {
      MixedKeys(c.inbounds[1].mixed);
    }
    ReadsClash(c);
  }

  /** What every rendered document has in common. */
  lemma FixedParts(n: Nodes.Outbound, s: Settings, lan: Option<string>)
    ensures var f := Fields(Render.RenderJson(n, s, lan));
      var server, tun := Nth(Items(Sub(f, Dns), Servers), 0), Nth(Items(f, Inbounds), 0);
      && StrAt(server, Type) == Some("udp") && StrAt(server, Tag) == Some("dns-direct")
      && StrAt(tun, Type) == Some("tun") && StrAt(tun, Tag) == Some("tun-in") && BoolAt(tun, Sniff) == Some(true)
      && BoolAt(tun, AutoRoute) == Some(false) && BoolAt(tun, StrictRoute) == Some(false)
      && |Items(f, Inbounds)| == (if s.enableMixed then 2 else 1)
      && (s.enableMixed ==> var mixed := Nth(Items(f, Inbounds), 1);
            StrAt(mixed, Type) == Some("mixed") && StrAt(mixed, Tag) == Some("test-proxy"))
  {
    hide Render.EncodeConfig, Render.EncodeInbound, Render.ResolveMixedListen, StrAt, IntAt, BoolAt, StringsAt, Items,
      Sub;
    var c := Render.Render(n, s, lan);
    ReadsDns(c);
    InboundItems(c);
    TunKeys(c.inbounds[0].tun);
    if s.enableMixed {
      MixedKeys(c.inbounds[1].mixed);
    }
  }

  lemma RuleKeys(r: Render.RouteRule)
    ensures var f := Fields(Render.EncodeRule(r)); TextUnder(f, Action, r.action) && TextUnder(f, Protocol, r.protocol)
  {
    ObjectHas(Render.RULE_TAGS, k => Render.RuleField(r, k), Action);
    ObjectHas(Render.RULE_TAGS, k => Render.RuleField(r, k), Protocol);
  }

  /** Two rules: sniff everything, hijack DNS; and a direct outbound after the node. */
  lemma FixedRoute(n: Nodes.Outbound, s: Settings, lan: Option<string>)
    ensures var f := Fields(Render.RenderJson(n, s, lan));
      var route, direct := Sub(f, Route), Nth(Items(f, Outbounds), 1);
      var rules := Items(route, Rules);
      && StrAt(route, Final) == Some("proxy") && |rules| == 2
      && TextUnder(Nth(rules, 0), Action, "sniff") && TextUnder(Nth(rules, 0), Protocol, "")
      && TextUnder(Nth(rules, 1), Action, "hijack-dns") && TextUnder(Nth(rules, 1), Protocol, "dns")
      && |Items(f, Outbounds)| == 2 && Items(f, Outbounds)[0] == NodeCodec.EncodeOutbound(n)
      && StrAt(direct, Type) == Some("direct") && StrAt(direct, Tag) == Some("direct")
  {
    hide Render.EncodeConfig, Render.EncodeRoute, Render.EncodeRule, Render.ResolveMixedListen,
      NodeCodec.EncodeOutbound, TextUnder;
    var c := Render.Render(n, s, lan);
    Render.RenderedOutbounds(n, s, lan);
    Render.ConfigAt(c, Route);
    Render.RouteAt(c, Final);
    Render.RouteAt(c, Rules);
    var rules := Render.MapJson(c.routeRules, Render.EncodeRule);
    assert rules[0] == Render.EncodeRule(c.routeRules[0]) && rules[1] == Render.EncodeRule(c.routeRules[1]);
    RuleIsObject(c.routeRules[0]);
    RuleIsObject(c.routeRules[1]);
    RuleKeys(c.routeRules[0]);
    RuleKeys(c.routeRules[1]);
  }

  lemma RuleIsObject(r: Render.RouteRule)
    ensures Render.EncodeRule(r).JObj?
  {
  }

  /** Where the mixed inbound listens: "auto" in any case means the LAN address or, without
      one, everywhere; nothing means everywhere; anything else means itself. */
  lemma ListenAddress(configured: string, lan: Option<string>)
    ensures var r, auto := Render.ResolveMixedListen(configured, lan),
                           Text.SameLetters(Text.TrimSpace(configured), "auto");
      && (auto && lan.Some? ==> r == lan.value)
      && (auto && lan.None? ==> r == "0.0.0.0")
      && (!auto && configured == "" ==> r == "0.0.0.0")
      && (!auto && configured != "" ==> r == configured)
  {
    hide Text.TrimSpace, Text.ToLower, Text.SameLetters;
    Text.LowerIs(Text.TrimSpace(configured), "auto");
  }

  /** What a fresh installation runs with. */
  lemma RenderedDefaults(n: Nodes.Outbound, lan: Option<string>)
    ensures ReadEffect(Render.RenderJson(n, DEFAULTS, lan))
         == Some(Render.Effect("info", true, "1.1.1.1", "ipv4_only", "singtun", "198.18.0.1/30", 1500, "gvisor",
                               Some(Render.MixedInbound("0.0.0.0", 7891)),
                               Some(Render.ClashApi.ClashApi("0.0.0.0:9090", "/opt/share/dashboard"))))
  {
    hide ReadEffect, Render.RenderJson, Render.ResolveMixedListen, Text.SameLetters, Text.TrimSpace;
    RenderedEffect(n, DEFAULTS, lan);
    ListenAddress("0.0.0.0", lan);
    assert !Text.SameLetters(Text.TrimSpace("0.0.0.0"), "auto") by {
      DigitsAreNotAuto();
    }
  }

  lemma DigitsAreNotAuto()
    ensures !Text.SameLetters(Text.TrimSpace("0.0.0.0"), "auto")
  {
    Text.TrimmedStays("0.0.0.0");
  }
}
