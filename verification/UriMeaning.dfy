/** What a URI means: acceptance and every field of the outbound, read off the raw parts of
    the URI for each of the three parsers and for the dispatcher. */
module UriMeaning {
  import opened Wrappers
  import opened Text
  import opened Nodes
  import Seqs
  import Vless
  import Hysteria2
  import Socks
  import Links

  /** A query value names this word, in any case, with white space around it. */
  predicate Says(u: Uri, k: Key, w: string)
  {
    SameLetters(u.Field(k), w)
  }

  predicate Absent(u: Uri, k: Key)
  {
    u.Field(k) == ""
  }

  /** The flag value is set. */
  predicate Flagged(u: Uri, k: Key)
  {
    Says(u, k, "1") || Says(u, k, "true") || Says(u, k, "yes") || Says(u, k, "on")
  }

  lemma FlaggedIffSet(u: Uri, k: Key)
    ensures BoolFlag(u.Get(k)) <==> Flagged(u, k)
  {
    hide BoolFlag, TrimSpace, SameLetters;
    FlagIsSetBy(u.Get(k));
  }

  /** The value of a key, or something else when it is absent. */
  predicate IsFieldOr(v: string, u: Uri, k: Key, other: string)
  {
    if Absent(u, k) then v == other else v == u.Field(k)
  }

  // -------------------------------------------------------------------------
  // VLESS
  // -------------------------------------------------------------------------

  lemma SaysIff(u: Uri, k: Key, w: string)
    requires IsWord(w)
    ensures ToLower(u.Field(k)) == w <==> Says(u, k, w)
  {
    hide TrimSpace, ToLower, SameLetters;
    LowerIs(u.Field(k), w);
  }

  lemma EmptyIff(u: Uri, k: Key)
    ensures ToLower(u.Field(k)) == "" <==> Absent(u, k)
  {
    hide TrimSpace;
  }

  /** The security values, absent meaning none. */
  lemma SecurityReads(u: Uri)
    ensures Vless.SecurityOf(u) == "none" <==> Absent(u, Security) || Says(u, Security, "none")
    ensures Vless.SecurityOf(u) == "tls" <==> Says(u, Security, "tls")
    ensures Vless.SecurityOf(u) == "reality" <==> Says(u, Security, "reality")
  {
    hide TrimSpace, ToLower, SameLetters, Says;
    EmptyIff(u, Security);
    SaysIff(u, Security, "none");
    SaysIff(u, Security, "tls");
    SaysIff(u, Security, "reality");
    assert "none" != "";
  }

  /** The transport values, absent meaning tcp. */
  lemma TransportReads(u: Uri, w: string)
    requires w in ["tcp", "ws", "grpc", "h2", "httpupgrade", "xhttp", "splithttp"]
    ensures Vless.TransportOf(u) == w <==> (w == "tcp" && Absent(u, Type)) || Says(u, Type, w)
  {
    hide TrimSpace, ToLower, SameLetters, Says;
    TransportWords(w);
    EmptyIff(u, Type);
    SaysIff(u, Type, w);
  }

  lemma TransportWords(w: string)
    requires w in ["tcp", "ws", "grpc", "h2", "httpupgrade", "xhttp", "splithttp"]
    ensures IsWord(w) && w != ""
  {
  }

  /** What ParseVLESS demands, from the raw parts. */
  predicate VlessDemands(u: Uri)
  {
    && u.scheme == "vless"
    && u.user.Some? && u.user.value.password.None? && Vless.IsUuid(u.user.value.username)
    && u.host != "" && u.port != "" && 1 <= Value(u.port) <= 65535
    && (Absent(u, Type) || Says(u, Type, "tcp") || Says(u, Type, "ws") || Says(u, Type, "grpc") || Says(u, Type, "h2")
        || Says(u, Type, "httpupgrade") || Says(u, Type, "xhttp") || Says(u, Type, "splithttp"))
    && (Absent(u, Security) || Says(u, Security, "none") || Says(u, Security, "tls") || Says(u, Security, "reality"))
    && (Absent(u, Flow) || u.Field(Flow) == "xtls-rprx-vision")
    && (Says(u, Security, "reality") ==> !Absent(u, Pbk) && !Absent(u, Fp))
  }

  lemma LowerScheme(s: Scheme)
    ensures ToLower(s) == s
  {
    forall i | 0 <= i < |s|
      ensures LowerChar(s[i]) == s[i]
    {
      assert s[i] in s;
    }
  }

  lemma KnownTransports(u: Uri)
    ensures Vless.TransportOf(u) in Vless.TRANSPORTS <==>
            || Absent(u, Type) || Says(u, Type, "tcp") || Says(u, Type, "ws") || Says(u, Type, "grpc")
            || Says(u, Type, "h2") || Says(u, Type, "httpupgrade") || Says(u, Type, "xhttp")
            || Says(u, Type, "splithttp")
  {
    hide TrimSpace, ToLower, SameLetters, Vless.TransportOf, Says, Absent;
    TransportReads(u, "tcp");
    TransportReads(u, "ws");
    TransportReads(u, "grpc");
    TransportReads(u, "h2");
    TransportReads(u, "httpupgrade");
    TransportReads(u, "xhttp");
    TransportReads(u, "splithttp");
  }

  lemma KnownSecurities(u: Uri)
    ensures Vless.SecurityOf(u) in Vless.SECURITIES <==>
            || Absent(u, Security) || Says(u, Security, "none") || Says(u, Security, "tls")
            || Says(u, Security, "reality")
  {
    hide TrimSpace, ToLower, SameLetters, Vless.SecurityOf, Says, Absent;
    SecurityReads(u);
  }

  lemma VlessAcceptsIff(u: Uri)
    ensures Vless.Accepts(u) <==> VlessDemands(u)
  {
    hide TrimSpace, ToLower, SameLetters, Value, Vless.IsUuid, Vless.TransportOf, Vless.SecurityOf, Says;
    LowerScheme(u.scheme);
    KnownTransports(u);
    KnownSecurities(u);
    SecurityReads(u);
  }

  /** Five groups of hex digits of 8, 4, 4, 4 and 12. */
  predicate AreUuidGroups(g: seq<string>)
  {
    && |g| == 5 && |g[0]| == 8 && |g[1]| == |g[2]| == |g[3]| == 4 && |g[4]| == 12
    && AllHex(g[0]) && AllHex(g[1]) && AllHex(g[2]) && AllHex(g[3]) && AllHex(g[4])
  }

  predicate AllHex(s: string) { forall i :: 0 <= i < |s| ==> IsHex(s[i]) }

  lemma UuidIsFiveGroups(s: string)
    ensures Vless.IsUuid(s) <==> AreUuidGroups(Seqs.Split(s, '-'))
  {
    if Vless.IsUuid(s) {
      UuidSplits(s);
    }
    if AreUuidGroups(Seqs.Split(s, '-')) {
      GroupsMakeUuid(s);
    }
  }

  lemma UuidSplits(s: string)
    requires Vless.IsUuid(s)
    ensures AreUuidGroups(Seqs.Split(s, '-'))
  {
    hide Seqs.Split, Seqs.Join;
    var a, b, c, d, e := s[..8], s[9..13], s[14..18], s[19..23], s[24..];
    assert forall i :: 0 <= i < 4 ==> b[i] == s[9 + i] && c[i] == s[14 + i] && d[i] == s[19 + i];
    assert AllHex(a) && AllHex(b) && AllHex(c) && AllHex(d) && AllHex(e);
    HexHasNoHyphen(a);
    HexHasNoHyphen(b);
    HexHasNoHyphen(c);
    HexHasNoHyphen(d);
    HexHasNoHyphen(e);
    FiveJoined(a, b, c, d, e);
    assert s == a + ['-'] + b + ['-'] + c + ['-'] + d + ['-'] + e;
    Seqs.SplitJoin([a, b, c, d, e], '-');
  }

  lemma HexHasNoHyphen(s: string)
    requires AllHex(s)
    ensures '-' !in s
  {
  }

  lemma GroupsMakeUuid(s: string)
    requires AreUuidGroups(Seqs.Split(s, '-'))
    ensures Vless.IsUuid(s)
  {
    hide Seqs.Split, Seqs.Join;
    var g := Seqs.Split(s, '-');
    Seqs.JoinSplit(s, '-');
    assert g == [g[0], g[1], g[2], g[3], g[4]];
    FiveJoined(g[0], g[1], g[2], g[3], g[4]);
  }

  lemma FiveJoined(a: string, b: string, c: string, d: string, e: string)
    ensures Seqs.Join([a, b, c, d, e], '-') == a + ['-'] + b + ['-'] + c + ['-'] + d + ['-'] + e
  {
    Seqs.JoinCons(d, [e], '-');
    Seqs.JoinCons(c, [d, e], '-');
    Seqs.JoinCons(b, [c, d, e], '-');
    Seqs.JoinCons(a, [b, c, d, e], '-');
    assert [d] + [e] == [d, e] && [c] + [d, e] == [c, d, e] && [b] + [c, d, e] == [b, c, d, e];
    assert [a] + [b, c, d, e] == [a, b, c, d, e];
  }

  /** The TLS block of an accepted URI. */
  predicate VlessTlsMeans(u: Uri, tls: Option<Tls>)
  {
    && (tls.Some? <==> Says(u, Security, "tls") || Says(u, Security, "reality"))
    && (tls.Some? ==>
          && tls.value.enabled
          && IsFieldOr(tls.value.serverName, u, Sni, u.host)
          && tls.value.alpn == Alpn(u.Get(AlpnKey))
          && (tls.value.insecure <==>
                !Says(u, Security, "reality") && (Flagged(u, AllowInsecure) || Flagged(u, Insecure)))
          && (tls.value.utls.Some? <==> !Absent(u, Fp))
          && (!Absent(u, Fp) ==> tls.value.utls == Some(Utls(true, u.Field(Fp))))
          && (tls.value.reality.Some? <==> Says(u, Security, "reality"))
          && (tls.value.reality.Some? ==> tls.value.reality.value == Reality(true, u.Field(Pbk), u.Field(Sid))))
  }

  lemma VlessTlsReads(u: Uri)
    requires Vless.Accepts(u)
    ensures VlessTlsMeans(u, Vless.TlsOf(u))
  {
    hide TrimSpace, ToLower, SameLetters, Value, Vless.IsUuid, Vless.SecurityOf, BoolFlag, Flagged, Says, Alpn,
      ParsePort;
    SecurityReads(u);
    FlaggedIffSet(u, AllowInsecure);
    FlaggedIffSet(u, Insecure);
  }

  /** The transport block of an accepted URI. */
  predicate VlessTransportMeans(u: Uri, t: Option<Transport>)
  {
    && (t.None? <==> Absent(u, Type) || Says(u, Type, "tcp"))
    && (t.Some? ==>
          && (t.value.kind == "ws" <==> Says(u, Type, "ws"))
          && (t.value.kind == "grpc" <==> Says(u, Type, "grpc"))
          && (t.value.kind == "h2" <==> Says(u, Type, "h2"))
          && (t.value.kind == "httpupgrade" <==>
                Says(u, Type, "httpupgrade") || Says(u, Type, "xhttp") || Says(u, Type, "splithttp"))
          && t.value.kind in ["ws", "grpc", "h2", "httpupgrade"]
          && (t.value.kind != "grpc" ==>
                t.value.host == u.Field(Host) && IsFieldOr(t.value.path, u, Path, "/") && t.value.serviceName == "")
          && (t.value.kind == "grpc" ==>
                t.value.host == t.value.path == ""
                && IsFieldOr(t.value.serviceName, u, ServiceName, u.Field(ServiceNameKebab))))
  }

  /** What the outbound of an accepted transport word is called. */
  lemma MappedKind(u: Uri)
    requires Vless.TransportOf(u) in Vless.TRANSPORTS && Vless.TransportOf(u) != "tcp"
    ensures var w, k := Vless.TransportOf(u), Vless.TransportBlock(u, Vless.TransportOf(u)).kind;
      && (k == "ws" <==> w == "ws") && (k == "grpc" <==> w == "grpc") && (k == "h2" <==> w == "h2")
      && (k == "httpupgrade" <==> w == "httpupgrade" || w == "xhttp" || w == "splithttp")
      && k in ["ws", "grpc", "h2", "httpupgrade"]
  {
    hide Vless.TransportOf, TrimSpace;
  }

  lemma BlockFields(u: Uri, w: string)
    ensures var t := Vless.TransportBlock(u, w);
      && (t.kind in ["ws", "h2", "httpupgrade"] ==>
            t.host == u.Field(Host) && IsFieldOr(t.path, u, Path, "/") && t.serviceName == "")
      && (t.kind == "grpc" ==>
            t.host == t.path == "" && IsFieldOr(t.serviceName, u, ServiceName, u.Field(ServiceNameKebab)))
  {
    hide TrimSpace;
  }

  lemma VlessTransportReads(u: Uri)
    requires Vless.Accepts(u)
    ensures VlessTransportMeans(u, Vless.VlessOutbound(u).transport)
  {
    hide TrimSpace, ToLower, SameLetters, Value, Vless.IsUuid, Vless.SecurityOf, Says, Alpn, ParsePort,
      Vless.TransportOf, Vless.TlsOf, Vless.TransportBlock, IsFieldOr, Absent, HasAddress;
    TransportReads(u, "tcp");
    TransportReads(u, "ws");
    TransportReads(u, "grpc");
    TransportReads(u, "h2");
    TransportReads(u, "httpupgrade");
    TransportReads(u, "xhttp");
    TransportReads(u, "splithttp");
    if Vless.TransportOf(u) != "tcp" {
      MappedKind(u);
      BlockFields(u, Vless.TransportOf(u));
    }
  }

  /** Every field of the outbound of an accepted VLESS URI. */
  lemma VlessReads(u: Uri)
    requires Vless.Accepts(u)
    ensures var o := Vless.VlessOutbound(u);
      && o.server == u.host && o.serverPort == Value(u.port) && o.uuid == u.user.value.username
      && o.flow == u.Field(Flow)
      && VlessTlsMeans(u, o.tls)
      && VlessTransportMeans(u, o.transport)
  {
    hide TrimSpace, ToLower, Value, Vless.IsUuid, Vless.SecurityOf, VlessTlsMeans, VlessTransportMeans,
      Vless.TransportOf, Vless.TlsOf, Vless.TransportBlock;
    VlessTlsReads(u);
    VlessTransportReads(u);
  }

  /** What the display of an accepted VLESS URI says. */
  lemma VlessShows(u: Uri)
    requires Vless.Accepts(u)
    ensures var d, o := Vless.VlessDisplay(u), Vless.VlessOutbound(u);
      && d.protocol == "VLESS"
      && (d.transport == "tcp" <==> o.transport.None?)
      && (d.notes == [] ==> o.transport.Some? ==> d.transport == o.transport.value.kind)
      && (d.notes != [] <==> Says(u, Type, "xhttp") || Says(u, Type, "splithttp"))
  {
    hide TrimSpace, ToLower, Value, Vless.IsUuid, Vless.SecurityOf, Vless.TransportOf, Vless.TlsOf,
      Vless.TransportBlock, Says;
    TransportReads(u, "xhttp");
    TransportReads(u, "splithttp");
    Vless.WarnsIffMapped(u);
    MappedOrSame(u);
  }

  lemma MappedOrSame(u: Uri)
    requires Vless.Accepts(u)
    ensures Vless.TransportOf(u) != "tcp" && Vless.TransportOf(u) !in ["xhttp", "splithttp"] ==>
              Vless.TransportBlock(u, Vless.TransportOf(u)).kind == Vless.TransportOf(u)
  {
    hide Vless.TransportOf, TrimSpace, Vless.Accepts;
  }

  // -------------------------------------------------------------------------
  // Hysteria2
  // -------------------------------------------------------------------------

  /** What ParseHysteria2 demands; the password is the user-info with its first colon back. */
  predicate Hysteria2Demands(u: Uri)
  {
    && (u.scheme == "hysteria2" || u.scheme == "hy2")
    && u.user.Some? && (u.user.value.username != "" || u.user.value.password.Some?)
    && u.host != "" && u.port != "" && 1 <= Value(u.port) <= 65535
    && (Absent(u, ObfsKind) || (Says(u, ObfsKind, "salamander") && u.Get(ObfsPassword) != ""))
  }

  lemma Hysteria2AcceptsIff(u: Uri)
    ensures Hysteria2.Accepts(u) <==> Hysteria2Demands(u)
  {
    hide TrimSpace, ToLower, SameLetters, Value, Says;
    EmptyIff(u, ObfsKind);
    SaysIff(u, ObfsKind, "salamander");
  }

  /** Every field of the outbound of an accepted Hysteria2 URI, and what its display says. */
  lemma Hysteria2Reads(u: Uri)
    requires Hysteria2.Accepts(u)
    ensures var o, d := Hysteria2.Hysteria2Outbound(u), Hysteria2.Hysteria2Display(u);
      && o.server == u.host && o.serverPort == Value(u.port)
      && o.password == (var c := u.user.value;
           if c.password.Some? then c.username + ":" + c.password.value else c.username)
      && o.tls.Some? && o.tls.value.enabled && IsFieldOr(o.tls.value.serverName, u, Sni, u.host)
      && (o.tls.value.insecure <==> Flagged(u, Insecure)) && o.tls.value.alpn == Alpn(u.Get(AlpnKey))
      && o.tls.value.utls.None? && o.tls.value.reality.None?
      && (o.obfs.None? <==> Absent(u, ObfsKind))
      && (o.obfs.Some? ==> o.obfs.value == Obfs("salamander", u.Get(ObfsPassword)))
      && d.protocol == "Hysteria2" && d.transport == "native" && d.notes == []
  {
    hide TrimSpace, ToLower, Value, Alpn, BoolFlag, Flagged;
    EmptyIff(u, ObfsKind);
    FlaggedIffSet(u, Insecure);
  }

  // -------------------------------------------------------------------------
  // SOCKS
  // -------------------------------------------------------------------------

  predicate IsSocks5(u: Uri) { u.scheme == "socks" || u.scheme == "socks5" || u.scheme == "socks5h" }

  /** What ParseSOCKS demands. */
  predicate SocksDemands(u: Uri)
  {
    && (IsSocks5(u) || u.scheme == "socks4" || u.scheme == "socks4a")
    && u.host != "" && u.port != "" && 1 <= Value(u.port) <= 65535
    && (IsSocks5(u) && u.user.Some? && u.user.value.username != "" ==> u.user.value.password.Some?)
  }

  lemma SocksAcceptsIff(u: Uri)
    ensures Socks.Accepts(u) <==> SocksDemands(u)
  {
    hide TrimSpace, ToLower, Value;
    LowerScheme(u.scheme);
  }

  /** Every field of the outbound of an accepted SOCKS URI: only version 5 carries
      credentials. */
  lemma SocksReads(u: Uri)
    requires Socks.Accepts(u)
    ensures var o := Socks.SocksOutbound(u);
      && o.server == u.host && o.serverPort == Value(u.port)
      && o.version == (if IsSocks5(u) then "5" else if u.scheme == "socks4" then "4" else "4a")
      && (IsSocks5(u) && u.user.Some? ==>
            o.username == u.user.value.username && Some(o.password) == Given(u.user.value.password))
      && (!(IsSocks5(u) && u.user.Some?) ==> o.username == o.password == "")
  {
    hide TrimSpace, ToLower, Value;
    LowerScheme(u.scheme);
  }

  /** What its display says: a host that is not local draws a warning, and so do credentials
      for another version. */
  lemma SocksShows(u: Uri, lib: Library)
    requires Socks.Accepts(u)
    ensures var d := Socks.SocksDisplay(u, lib);
      && d.protocol == "SOCKS" && d.transport == "SOCKS" + Socks.SocksOutbound(u).version
      && (Socks4HasNoAuth in d.notes <==> !IsSocks5(u) && u.user.Some?)
      && (LocalUpstream in d.notes <==> IsLocal(u.host, lib))
      && (RemoteWithoutTls in d.notes <==> !IsLocal(u.host, lib))
  {
    hide TrimSpace, ToLower, Value, SameLetters, Socks.VersionOf, HasAddress, PortOf;
    VersionReads(u);
    LowerIs(TrimSpace(u.host), "localhost");
  }

  lemma VersionReads(u: Uri)
    ensures Socks.VersionOf(u) == Some("5") <==> IsSocks5(u)
  {
    hide ToLower;
    LowerScheme(u.scheme);
  }

  function Given(password: Option<string>): Option<string>
  {
    if password.None? then Some("") else password
  }

  /** "localhost" in any case, or a loopback address. */
  predicate IsLocal(host: string, lib: Library)
  {
    SameLetters(TrimSpace(host), "localhost") || lib.loopback(ToLower(TrimSpace(host)))
  }

  // -------------------------------------------------------------------------
  // The dispatcher
  // -------------------------------------------------------------------------

  /** Which parser a scheme goes to. */
  lemma RightParser(u: Uri, lib: Library)
    ensures u.scheme == "vless" ==> Links.UriNode(u, lib) == Vless.VlessNode(u)
    ensures u.scheme == "hysteria2" || u.scheme == "hy2" ==> Links.UriNode(u, lib) == Hysteria2.Hysteria2Node(u)
    ensures IsSocks5(u) || u.scheme == "socks4" || u.scheme == "socks4a" ==>
              Links.UriNode(u, lib) == Socks.SocksNode(u, lib)
    ensures u.scheme !in ["hysteria2", "hy2", "vless", "socks", "socks4", "socks4a", "socks5", "socks5h"] ==>
              Links.UriNode(u, lib) == Failure(UnsupportedScheme)
  {
    hide ToLower, Vless.VlessNode, Hysteria2.Hysteria2Node, Socks.SocksNode;
    LowerScheme(u.scheme);
  }

  lemma ParsersNameNoScheme(u: Uri, lib: Library)
    ensures Vless.VlessNode(u) != Failure(UnsupportedScheme)
    ensures Hysteria2.Hysteria2Node(u) != Failure(UnsupportedScheme)
    ensures Socks.SocksNode(u, lib) != Failure(UnsupportedScheme)
  {
    hide ToLower, Value, TrimSpace;
  }

  /** A URI gets through exactly when one of the parsers accepts it, and then as the node
      that parser makes of it; the label is the decoded fragment, which SOCKS leaves as it
      is. */
  lemma DispatchIsExact(u: Uri, lib: Library)
    ensures Links.UriNode(u, lib).Success? <==> Vless.Accepts(u) || Hysteria2.Accepts(u) || Socks.Accepts(u)
    ensures Vless.Accepts(u) ==>
              Links.UriNode(u, lib) == Success(ParsedNode(Vless.VlessOutbound(u), LabelOf(u), Vless.VlessDisplay(u)))
    ensures Hysteria2.Accepts(u) ==>
              Links.UriNode(u, lib)
              == Success(ParsedNode(Hysteria2.Hysteria2Outbound(u), LabelOf(u), Hysteria2.Hysteria2Display(u)))
    ensures Socks.Accepts(u) ==>
              Links.UriNode(u, lib)
              == Success(ParsedNode(Socks.SocksOutbound(u), u.fragment, Socks.SocksDisplay(u, lib)))
    ensures Links.UriNode(u, lib) == Failure(UnsupportedScheme) <==>
            u.scheme !in ["hysteria2", "hy2", "vless", "socks", "socks4", "socks4a", "socks5", "socks5h"]
  {
    hide ToLower, Value, TrimSpace, Vless.VlessOutbound, Vless.VlessDisplay, Hysteria2.Hysteria2Outbound,
      Hysteria2.Hysteria2Display, Socks.SocksOutbound, Socks.SocksDisplay, LabelOf, Vless.Accepts, Hysteria2.Accepts,
      Socks.Accepts, Links.UriNode, Vless.VlessRefusal, Hysteria2.Hysteria2Refusal, Socks.SocksRefusal, Says, Absent;
    RightParser(u, lib);
    ParsersNameNoScheme(u, lib);
    VlessAcceptsIff(u);
    Hysteria2AcceptsIff(u);
    SocksAcceptsIff(u);
    Vless.RefusalIsExact(u);
    Hysteria2.RefusalIsExact(u);
    Socks.RefusalIsExact(u);
  }

  lemma LabelReads(u: Uri)
    ensures u.fragment == "" ==> LabelOf(u) == ""
    ensures u.fragment != "" && u.unescaped.Some? ==> LabelOf(u) == u.unescaped.value
    ensures u.fragment != "" && u.unescaped.None? ==> LabelOf(u) == u.fragment
  {
  }

  /** A link gets through exactly when it is not blank, splits, and one of the parsers accepts
      what it splits into. */
  lemma LinkIsAccepted(raw: string, lib: Library)
    ensures Links.Node(raw, lib).Success? <==>
            && !AllSpace(raw)
            && lib.split(TrimSpace(raw)).Some?
            && var u := lib.split(TrimSpace(raw)).value;
               Vless.Accepts(u) || Hysteria2.Accepts(u) || Socks.Accepts(u)
  {
    hide Links.UriNode, TrimSpace, Vless.Accepts, Hysteria2.Accepts, Socks.Accepts;
    var a, b := TrimSpaceTakesSpace(raw);
    BlankIsTrimmedAway(raw);
    if lib.split(TrimSpace(raw)).Some? {
      DispatchIsExact(lib.split(TrimSpace(raw)).value, lib);
    }
  }

  lemma BlankIsTrimmedAway(s: string)
    ensures AllSpace(s) <==> TrimSpace(s) == ""
  {
    hide TrimSpace;
    var a, b := TrimSpaceTakesSpace(s);
    var t := TrimSpace(s);
    if t != "" {
      assert t[0] in a + t + b;
    }
  }

  // -------------------------------------------------------------------------
  // Refusals
  // -------------------------------------------------------------------------

  /** The address is complete and its port in range. */
  predicate AddressWorks(u: Uri)
  {
    u.host != "" && u.port != "" && 1 <= Value(u.port) <= 65535
  }

  /** Why an address is refused: host before port, a missing port before a bad one. */
  lemma AddressRefuses(u: Uri)
    ensures AddressRefusal(u).None? <==> AddressWorks(u)
    ensures AddressRefusal(u) == Some(MissingHost) <==> u.host == ""
    ensures AddressRefusal(u) == Some(MissingPort) <==> u.host != "" && u.port == ""
    ensures AddressRefusal(u) == Some(InvalidPort) <==>
            u.host != "" && u.port != "" && !(1 <= Value(u.port) <= 65535)
    ensures AddressRefusal(u).Some? ==> AddressRefusal(u).value in {MissingHost, MissingPort, InvalidPort}
  {
    hide Value;
  }

  /** The user-info of a VLESS URI is a UUID. */
  predicate UuidWorks(u: Uri)
  {
    u.user.Some? && u.user.value.password.None? && Vless.IsUuid(u.user.value.username)
  }

  predicate TransportWorks(u: Uri)
  {
    || Absent(u, Type) || Says(u, Type, "tcp") || Says(u, Type, "ws") || Says(u, Type, "grpc")
    || Says(u, Type, "h2") || Says(u, Type, "httpupgrade") || Says(u, Type, "xhttp") || Says(u, Type, "splithttp")
  }

  predicate SecurityWorks(u: Uri)
  {
    Absent(u, Security) || Says(u, Security, "none") || Says(u, Security, "tls") || Says(u, Security, "reality")
  }

  predicate FlowWorks(u: Uri) { Absent(u, Flow) || u.Field(Flow) == "xtls-rprx-vision" }

  /** Why a vless URI is refused: the first thing that is wrong, in this order. */
  lemma VlessRefuses(u: Uri)
    requires u.scheme == "vless"
    ensures var r := Vless.VlessRefusal(u);
      var uuid := UuidWorks(u); var address := uuid && AddressWorks(u); var transport := address && TransportWorks(u);
      var security := transport && SecurityWorks(u); var flow := security && FlowWorks(u);
      && (r == Some(MissingUuid) <==> u.user.None?)
      && (r == Some(ColonInUuid) <==> u.user.Some? && u.user.value.password.Some?)
      && (r == Some(InvalidUuid) <==>
            u.user.Some? && u.user.value.password.None? && !Vless.IsUuid(u.user.value.username))
      && (uuid && !address ==> r == AddressRefusal(u))
      && (r == Some(UnsupportedTransport) <==> address && !TransportWorks(u))
      && (r == Some(UnsupportedSecurity) <==> transport && !SecurityWorks(u))
      && (r == Some(UnsupportedFlow) <==> security && !FlowWorks(u))
      && (r == Some(RealityNeedsPublicKey) <==> flow && Says(u, Security, "reality") && Absent(u, Pbk))
      && (r == Some(RealityNeedsFingerprint) <==>
            flow && Says(u, Security, "reality") && !Absent(u, Pbk) && Absent(u, Fp))
  {
    hide TrimSpace, ToLower, SameLetters, Value, Vless.IsUuid, Vless.TransportOf, Vless.SecurityOf, Says,
      AddressRefusal;
    LowerScheme(u.scheme);
    KnownTransports(u);
    KnownSecurities(u);
    SecurityReads(u);
    AddressRefuses(u);
  }

  /** Why a Hysteria2 URI is refused. */
  lemma Hysteria2Refuses(u: Uri)
    requires u.scheme == "hysteria2" || u.scheme == "hy2"
    ensures var r := Hysteria2.Hysteria2Refusal(u);
      var password := u.user.Some? && (u.user.value.username != "" || u.user.value.password.Some?);
      var address := password && AddressWorks(u);
      && (r == Some(MissingPassword) <==> u.user.None?)
      && (r == Some(EmptyPassword) <==> u.user.Some? && !password)
      && (password && !address ==> r == AddressRefusal(u))
      && (r == Some(UnsupportedObfs) <==> address && !Absent(u, ObfsKind) && !Says(u, ObfsKind, "salamander"))
      && (r == Some(ObfsNeedsPassword) <==> address && Says(u, ObfsKind, "salamander") && u.Get(ObfsPassword) == "")
  {
    hide TrimSpace, ToLower, SameLetters, Value, Says, Absent, AddressRefusal, AddressWorks, Hysteria2.ObfsOf;
    ObfsReads(u);
    AddressRefuses(u);
  }

  lemma ObfsReads(u: Uri)
    ensures Hysteria2.ObfsOf(u) == "" <==> Absent(u, ObfsKind)
    ensures Hysteria2.ObfsOf(u) == "salamander" <==> Says(u, ObfsKind, "salamander")
    ensures Says(u, ObfsKind, "salamander") ==> !Absent(u, ObfsKind)
  {
    hide TrimSpace, ToLower;
    EmptyIff(u, ObfsKind);
    SaysIff(u, ObfsKind, "salamander");
  }

  /** Why a SOCKS URI is refused. */
  lemma SocksRefuses(u: Uri)
    requires IsSocks5(u) || u.scheme == "socks4" || u.scheme == "socks4a"
    ensures var r := Socks.SocksRefusal(u);
      && (!AddressWorks(u) ==> r == AddressRefusal(u))
      && (r == Some(UsernameWithoutPassword) <==>
            AddressWorks(u) && IsSocks5(u) && u.user.Some? && u.user.value.username != ""
            && u.user.value.password.None?)
  {
    hide TrimSpace, ToLower, Value, AddressRefusal;
    LowerScheme(u.scheme);
    AddressRefuses(u);
  }
}
