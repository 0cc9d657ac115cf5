/** hysteria2:// and hy2:// URIs (internal/parser/hysteria2.go). */
module Hysteria2 {
  import opened Wrappers
  import opened Text
  import opened Nodes
  import Seqs
  import UserInfo
  import Vless

  /** The user-info as one password: the halves net/url made of it, joined again. */
  function PasswordOf(c: Credentials): string
  {
    Seqs.Rejoin(c.username, ':', c.password)
  }

  /** The credentials net/url makes of raw user-info, for a reading of octets as text. */
  function CredentialsOf(raw: seq<UserInfo.Octet>, text: seq<UserInfo.Octet> -> string): Option<Credentials>
  {
    match UserInfo.ReadUserInfo(raw)
    case None => None
    case Some(h) =>
      Some(Credentials(text(h.username), if h.password.None? then None else Some(text(h.password.value))))
  }

  /** Whatever the user-info, the password is the percent-decoding of all of it: colons,
      encoded or not, make no difference. text is any reading of octets that lets a colon
      stand for itself, as UTF-8 does. */
  lemma PasswordIsWholeUserInfo(raw: seq<UserInfo.Octet>, text: seq<UserInfo.Octet> -> string)
    requires forall a, b :: text(a + [UserInfo.COLON] + b) == text(a) + [':'] + text(b)
    ensures CredentialsOf(raw, text).Some? <==> UserInfo.Unescape(raw).Some?
    ensures CredentialsOf(raw, text).Some? ==>
              PasswordOf(CredentialsOf(raw, text).value) == text(UserInfo.Unescape(raw).value)
  {
    hide UserInfo.Unescape, UserInfo.ReadUserInfo;
    UserInfo.RejoinIsWhole(raw);
  }

  function ObfsOf(u: Uri): string
  {
    ToLower(u.Field(ObfsKind))
  }

  function Hysteria2Refusal(u: Uri): Option<Refusal>
  {
    if u.scheme != "hysteria2" && u.scheme != "hy2" then Some(UnexpectedScheme)
    else if u.user.None? then Some(MissingPassword)
    else if PasswordOf(u.user.value) == "" then Some(EmptyPassword)
    else if AddressRefusal(u).Some? then AddressRefusal(u)
    else if ObfsOf(u) != "" && ObfsOf(u) != "salamander" then Some(UnsupportedObfs)
    else if ObfsOf(u) != "" && u.Get(ObfsPassword) == "" then Some(ObfsNeedsPassword)
    else None
  }

  /** The accepted URIs. */
  predicate Accepts(u: Uri)
  {
    && (u.scheme == "hysteria2" || u.scheme == "hy2")
    && u.user.Some? && PasswordOf(u.user.value) != ""
    && HasAddress(u)
    && (ObfsOf(u) == "" || (ObfsOf(u) == "salamander" && u.Get(ObfsPassword) != ""))
  }

  lemma RefusalIsExact(u: Uri)
    ensures Hysteria2Refusal(u).None? <==> Accepts(u)
  {
    hide ToLower, TrimSpace, AddressRefusal, HasAddress;
    AddressIsExact(u);
  }

  function Hysteria2Tls(u: Uri): Tls
  {
    Tls(true, OrElse(u.Field(Sni), u.host), BoolFlag(u.Get(Insecure)), Alpn(u.Get(AlpnKey)), None, None)
  }

  function Hysteria2Outbound(u: Uri): Outbound
    requires Accepts(u)
  {
    Outbound("hysteria2", "proxy", u.host, PortOf(u), PasswordOf(u.user.value), "", "", "", "",
             Some(Hysteria2Tls(u)),
             if ObfsOf(u) == "" then None else Some(Obfs("salamander", u.Get(ObfsPassword))), None)
  }

  function Hysteria2Display(u: Uri): Display
    requires Accepts(u)
  {
    Display("Hysteria2", u.host, PortOf(u), OrElse(u.Field(Sni), u.host),
            !BoolFlag(u.Get(Insecure)), "native", [])
  }

  function Hysteria2Node(u: Uri): Parsed
  {
    RefusalIsExact(u);
    if Hysteria2Refusal(u).Some? then Failure(Hysteria2Refusal(u).value)
    else Success(ParsedNode(Hysteria2Outbound(u), LabelOf(u), Hysteria2Display(u)))
  }

  /** Exactly the outbounds ParseHysteria2 can return, from split URIs. */
  predicate WellFormed(o: Outbound)
  {
    && o.kind == "hysteria2" && o.tag == "proxy" && o.server != "" && 1 <= o.serverPort <= 65535
    && o.password != "" && o.uuid == "" && o.flow == "" && o.version == "" && o.username == ""
    && o.tls.Some? && TlsShape(o.tls.value, o.server)
    && (o.obfs.Some? ==> o.obfs.value.kind == "salamander" && o.obfs.value.password != "")
    && o.transport.None?
  }

  predicate TlsShape(t: Tls, host: string)
  {
    && t.enabled && t.serverName != "" && (t.serverName == host || Trimmed(t.serverName))
    && IsAlpn(t.alpn) && t.utls.None? && t.reality.None?
  }

  /** The parser succeeds exactly on the accepted URIs, and then with a well-formed outbound. */
  lemma ParserIsExact(u: Uri)
    ensures Hysteria2Node(u).Success? <==> Accepts(u)
    ensures Hysteria2Node(u).Success? ==> WellFormed(Hysteria2Node(u).value.outbound)
  {
    RefusalIsExact(u);
    AlpnShape(u.Get(AlpnKey));
    TrimSpaceTrims(u.Get(Sni));
  }

  /** What the query of UriFor answers for a key. */
  function AnswerFor(o: Outbound, key: Key): string
    requires o.tls.Some?
  {
    match key
    case Sni => if o.tls.value.serverName == o.server then "" else o.tls.value.serverName
    case Insecure => if o.tls.value.insecure then "1" else ""
    case AlpnKey => Seqs.Join(o.tls.value.alpn, ',')
    case ObfsKind => if o.obfs.None? then "" else "salamander"
    case ObfsPassword => if o.obfs.None? then "" else o.obfs.value.password
    case _ => ""
  }

  const KEYS: set<Key> := {Sni, Insecure, AlpnKey, ObfsKind, ObfsPassword}

  /** A URI for any well-formed outbound. */
  function UriFor(o: Outbound): Uri
    requires 0 <= o.serverPort && o.tls.Some?
  {
    Uri("hysteria2", Some(Credentials(o.password, None)), o.server, Decimal(o.serverPort),
        map k | k in KEYS :: [AnswerFor(o, k)], "", None)
  }

  lemma UriForAnswers(o: Outbound, key: Key)
    requires 0 <= o.serverPort && o.tls.Some? && key in KEYS
    ensures UriFor(o).Get(key) == AnswerFor(o, key)
    ensures Trimmed(AnswerFor(o, key)) ==> UriFor(o).Field(key) == AnswerFor(o, key)
  {
    hide AnswerFor, TrimSpace, Decimal, Trimmed;
    if Trimmed(AnswerFor(o, key)) {
      TrimmedStays(AnswerFor(o, key));
    }
  }

  lemma UriForTls(o: Outbound)
    requires 0 <= o.serverPort && o.tls.Some? && TlsShape(o.tls.value, o.server)
    ensures Hysteria2Tls(UriFor(o)) == o.tls.value
  {
    hide TrimSpace, Decimal, Alpn, ToLower;
    UriForAnswers(o, Sni);
    UriForAnswers(o, Insecure);
    UriForAnswers(o, AlpnKey);
    AlpnReadsBack(o.tls.value.alpn);
    Vless.FlagTexts();
  }

  lemma UriForObfs(o: Outbound)
    requires 0 <= o.serverPort && o.tls.Some?
    ensures ObfsOf(UriFor(o)) == if o.obfs.None? then "" else "salamander"
  {
    hide TrimSpace, Decimal, ToLower, UriFor, Trimmed;
    UriForAnswers(o, ObfsKind);
    ObfsWords(AnswerFor(o, ObfsKind));
  }

  lemma ObfsWords(w: string)
    requires w in ["", "salamander"]
    ensures ToLower(w) == w && Trimmed(w)
  {
  }

  lemma UriForAddress(o: Outbound)
    requires 1 <= o.serverPort <= 65535 && o.server != "" && o.tls.Some?
    ensures HasAddress(UriFor(o)) && PortOf(UriFor(o)) == o.serverPort
  {
    ValueOfDecimal(o.serverPort);
  }

  lemma UriForIsAccepted(o: Outbound)
    requires WellFormed(o)
    ensures Accepts(UriFor(o))
  {
    hide TrimSpace, ToLower, ObfsOf, TlsShape, Decimal, HasAddress, AnswerFor;
    if o.obfs.Some? {
      ObfsAnswer(o);
    }
    UriForAddress(o);
    UriForObfs(o);
    UriForAnswers(o, ObfsPassword);
    assert PasswordOf(UriFor(o).user.value) == o.password;
  }

  lemma ObfsAnswer(o: Outbound)
    requires o.tls.Some? && o.obfs.Some?
    ensures AnswerFor(o, ObfsPassword) == o.obfs.value.password
  {
  }

  /** Every well-formed outbound is the result of some URI. */
  lemma EveryWellFormedIsParsed(o: Outbound)
    requires WellFormed(o)
    ensures Accepts(UriFor(o)) && Hysteria2Outbound(UriFor(o)) == o
  {
    hide TrimSpace, ToLower, Hysteria2Tls, ObfsOf, TlsShape, Decimal, HasAddress, AnswerFor, Accepts;
    UriForIsAccepted(o);
    UriForAddress(o);
    UriForTls(o);
    UriForObfs(o);
    UriForAnswers(o, ObfsPassword);
    if o.obfs.Some? {
      ObfsAnswer(o);
    }
    assert PasswordOf(UriFor(o).user.value) == o.password;
  }

  method ParseHysteria2(raw: string, lib: Library) returns (r: Parsed)
    ensures r == match lib.split(TrimSpace(raw)) { case None => Failure(BadUrl) case Some(u) => Hysteria2Node(u) }
  {
    hide TrimSpace, ParsePort, Alpn, ToLower, LabelOf;
    var parsed := lib.split(TrimSpace(raw));
    if parsed.None? {
      return Failure(BadUrl);
    }
    var u := parsed.value;
    RefusalIsExact(u);
    if u.scheme != "hysteria2" && u.scheme != "hy2" {
      return Failure(UnexpectedScheme);
    }
    if u.user.None? {
      return Failure(MissingPassword);
    }
    var password := u.user.value.username;
    if u.user.value.password.Some? {
      password := password + ":" + u.user.value.password.value;
    }
    if password == "" {
      return Failure(EmptyPassword);
    }
    if AddressRefusal(u).Some? {
      return Failure(AddressRefusal(u).value);
    }
    var sni := u.Field(Sni);
    if sni == "" {
      sni := u.host;
    }
    var insecure := BoolFlag(u.Get(Insecure));
    var tls := Tls(true, sni, insecure, [], None, None);
    var alpn := SplitAlpn(u.Get(AlpnKey));
    tls := tls.(alpn := alpn);
    var out := Outbound("hysteria2", "proxy", u.host, PortOf(u), password, "", "", "", "", Some(tls), None, None);
    var obfs := ToLower(u.Field(ObfsKind));
    if obfs != "" {
      if obfs != "salamander" {
        return Failure(UnsupportedObfs);
      }
      var obfsPw := u.Get(ObfsPassword);
      if obfsPw == "" {
        return Failure(ObfsNeedsPassword);
      }
      out := out.(obfs := Some(Obfs("salamander", obfsPw)));
    }
    assert out == Hysteria2Outbound(u);
    return Success(ParsedNode(out, LabelOf(u),
                              Display("Hysteria2", u.host, PortOf(u), sni, !insecure, "native", [])));
  }
}
