/** socks URIs (internal/parser/socks.go). */
module Socks {
  import opened Wrappers
  import opened Text
  import opened Nodes

  function SocksVersion(scheme: string): Option<string>
  {
    if scheme in ["socks", "socks5", "socks5h"] then Some("5")
    else if scheme == "socks4" then Some("4")
    else if scheme == "socks4a" then Some("4a")
    else None
  }

  function VersionOf(u: Uri): Option<string>
  {
    SocksVersion(ToLower(u.scheme))
  }

  /** A user name that comes without a password. */
  predicate NameOnly(u: Uri)
  {
    u.user.Some? && u.user.value.username != "" && u.user.value.password.None?
  }

  function SocksRefusal(u: Uri): Option<Refusal>
  {
    if VersionOf(u).None? then Some(UnexpectedScheme)
    else if AddressRefusal(u).Some? then AddressRefusal(u)
    else if VersionOf(u) == Some("5") && NameOnly(u) then Some(UsernameWithoutPassword)
    else None
  }

  /** The accepted URIs. */
  predicate Accepts(u: Uri)
  {
    VersionOf(u).Some? && HasAddress(u) && (VersionOf(u) == Some("5") ==> !NameOnly(u))
  }

  lemma RefusalIsExact(u: Uri)
    ensures SocksRefusal(u).None? <==> Accepts(u)
  {
    hide ToLower, TrimSpace, AddressRefusal, HasAddress;
    AddressIsExact(u);
  }

  /** The credentials that reach the outbound: SOCKS4 has none. */
  function AuthOf(u: Uri): (string, string)
  {
    if VersionOf(u) != Some("5") || u.user.None? then ("", "")
    else (u.user.value.username, if u.user.value.password.None? then "" else u.user.value.password.value)
  }

  predicate IsLocalHost(host: string, lib: Library)
  {
    var h := ToLower(TrimSpace(host));
    h == "localhost" || lib.loopback(h)
  }

  function LocationHint(host: string, lib: Library): seq<Note>
  {
    if IsLocalHost(host, lib) then [LocalUpstream] else [RemoteWithoutTls]
  }

  function SocksOutbound(u: Uri): Outbound
    requires Accepts(u)
  {
    Outbound("socks", "proxy", u.host, PortOf(u), AuthOf(u).1, "", "", VersionOf(u).value, AuthOf(u).0,
             None, None, None)
  }

  function SocksDisplay(u: Uri, lib: Library): Display
    requires Accepts(u)
  {
    var v := VersionOf(u).value;
    Display("SOCKS", u.host, PortOf(u), "", false, "SOCKS" + v,
            (if v != "5" && u.user.Some? then [Socks4HasNoAuth] else []) + LocationHint(u.host, lib))
  }

  function SocksNode(u: Uri, lib: Library): Parsed
  {
    RefusalIsExact(u);
    if SocksRefusal(u).Some? then Failure(SocksRefusal(u).value)
    else Success(ParsedNode(SocksOutbound(u), u.fragment, SocksDisplay(u, lib)))
  }

  /** Exactly the outbounds ParseSOCKS can return from split URIs: only version 5 carries credentials, and
      those may be any two texts. */
  predicate WellFormed(o: Outbound)
  {
    && o.kind == "socks" && o.tag == "proxy" && o.server != "" && 1 <= o.serverPort <= 65535
    && o.version in ["5", "4", "4a"] && (o.version != "5" ==> o.username == "" && o.password == "")
    && o.uuid == "" && o.flow == "" && o.tls.None? && o.obfs.None? && o.transport.None?
  }

  /** The parser succeeds exactly on the accepted URIs, and then with a well-formed outbound. */
  lemma ParserIsExact(u: Uri, lib: Library)
    ensures SocksNode(u, lib).Success? <==> Accepts(u)
    ensures SocksNode(u, lib).Success? ==> WellFormed(SocksNode(u, lib).value.outbound)
  {
    RefusalIsExact(u);
  }

  /** A URI for any well-formed outbound. */
  function UriFor(o: Outbound): Uri
    requires 0 <= o.serverPort
  {
    Uri(if o.version == "4" then "socks4" else if o.version == "4a" then "socks4a" else "socks5",
        if o.version == "5" then Some(Credentials(o.username, Some(o.password))) else None,
        o.server, Decimal(o.serverPort), map[], "", None)
  }

  lemma LowerSchemes(w: string)
    requires w in ["socks4", "socks4a", "socks5"]
    ensures ToLower(w) == w
  {
  }

  /** Every well-formed outbound is the result of some URI. */
  lemma EveryWellFormedIsParsed(o: Outbound)
    requires WellFormed(o)
    ensures Accepts(UriFor(o)) && SocksOutbound(UriFor(o)) == o
  {
    hide ToLower, Decimal, ParsePort;
    VersionReads(o);
    assert ParsePort(UriFor(o).port) == Some(o.serverPort) by {
      PortReads(o);
    }
  }

  lemma PortReads(o: Outbound)
    requires 1 <= o.serverPort <= 65535
    ensures ParsePort(UriFor(o).port) == Some(o.serverPort)
  {
    ValueOfDecimal(o.serverPort);
  }

  lemma VersionReads(o: Outbound)
    requires 0 <= o.serverPort && o.version in ["5", "4", "4a"]
    ensures VersionOf(UriFor(o)) == Some(o.version)
  {
    hide ToLower, Decimal;
    LowerSchemes(UriFor(o).scheme);
  }

  method ParseSOCKS(raw: string, lib: Library) returns (r: Parsed)
    ensures r == match lib.split(raw) { case None => Failure(BadUrl) case Some(u) => SocksNode(u, lib) }
  {
    hide TrimSpace, ParsePort, ToLower, IsLocalHost;
    var parsed := lib.split(raw);
    if parsed.None? {
      return Failure(BadUrl);
    }
    var u := parsed.value;
    RefusalIsExact(u);
    var version := SocksVersion(ToLower(u.scheme));
    if version.None? {
      return Failure(UnexpectedScheme);
    }
    if AddressRefusal(u).Some? {
      return Failure(AddressRefusal(u).value);
    }
    var notes: seq<Note>, username, password := [], "", "";
    if u.user.Some? {
      username := u.user.value.username;
      password := if u.user.value.password.None? then "" else u.user.value.password.value;
      if version.value == "4" || version.value == "4a" {
        username, password := "", "";
        notes := notes + [Socks4HasNoAuth];
      } else if username != "" && u.user.value.password.None? {
        return Failure(UsernameWithoutPassword);
      }
    }
    notes := notes + LocationHint(u.host, lib);
    var out := Outbound("socks", "proxy", u.host, PortOf(u), password, "", "", version.value, username,
                        None, None, None);
    assert out == SocksOutbound(u);
    var transport := if version.value == "5" then "SOCKS5" else "SOCKS" + version.value;
    var display := Display("SOCKS", u.host, PortOf(u), "", false, transport, notes);
    assert display == SocksDisplay(u, lib);
    return Success(ParsedNode(out, u.fragment, display));
  }
}
