/** URIs as net/url splits them and the nodes the parsers make of them
    (internal/parser/types.go). */
module Nodes {
  import opened Wrappers
  import opened Text

  datatype Credentials = Credentials(username: string, password: Option<string>)

  /** net/url returns schemes in lower-case ASCII and ports as digit texts. */
  type Scheme = s: string | forall c :: c in s ==> c < '\U{80}' && LowerChar(c) == c witness ""
  type PortText = s: string | AllDigits(s) witness ""

  /** Query keys: one constructor for each key that some parser reads. */
  datatype Key = Type | Security | Flow | Sni | AlpnKey | AllowInsecure | Insecure | Fp | Pbk | Sid
               | Host | Path | ServiceName | ServiceNameKebab | ObfsKind | ObfsPassword
               | Other(name: string)

  /** A split URI. host has its brackets removed; unescaped is url.QueryUnescape of the
      fragment, None when that fails. */
  datatype Uri = Uri(scheme: Scheme, user: Option<Credentials>, host: string, port: PortText,
                     query: map<Key, seq<string>>, fragment: string, unescaped: Option<string>)
  {
    /** url.Values.Get. */
    function Get(key: Key): string
    {
      if key in query && query[key] != [] then query[key][0] else ""
    }

    /** Get followed by strings.TrimSpace. */
    function Field(key: Key): string
    {
      TrimSpace(Get(key))
    }
  }

  /** Library calls the parsers make: url.Parse, and net.ParseIP with IsLoopback. */
  datatype Library = Library(split: string -> Option<Uri>, loopback: string -> bool)

  datatype Tls = Tls(enabled: bool, serverName: string, insecure: bool, alpn: seq<string>,
                     utls: Option<Utls>, reality: Option<Reality>)
  datatype Utls = Utls(enabled: bool, fingerprint: string)
  datatype Reality = Reality(enabled: bool, publicKey: string, shortId: string)
  datatype Obfs = Obfs(kind: string, password: string)
  datatype Transport = Transport(kind: string, host: string, path: string, serviceName: string)

  /** kind is the JSON field "type". */
  datatype Outbound = Outbound(kind: string, tag: string, server: string, serverPort: int,
                               password: string, uuid: string, flow: string, version: string,
                               username: string, tls: Option<Tls>, obfs: Option<Obfs>,
                               transport: Option<Transport>)

  datatype Note = MappedToHttpUpgrade(transport: string) | Socks4HasNoAuth | LocalUpstream
                | RemoteWithoutTls

  datatype Display = Display(protocol: string, server: string, port: int, sni: string,
                             tlsVerify: bool, transport: string, notes: seq<Note>)

  datatype ParsedNode = ParsedNode(outbound: Outbound, nodeLabel: string, display: Display)

  datatype Refusal =
    | EmptyUri | BadUrl | UnexpectedScheme | UnsupportedScheme
    | MissingUuid | ColonInUuid | InvalidUuid | MissingPassword | EmptyPassword
    | MissingHost | MissingPort | InvalidPort
    | UnsupportedTransport | UnsupportedSecurity | UnsupportedFlow
    | RealityNeedsPublicKey | RealityNeedsFingerprint
    | UnsupportedObfs | ObfsNeedsPassword | UsernameWithoutPassword

  type Parsed = Result<ParsedNode, Refusal>

  function LabelOf(u: Uri): string
  {
    if u.fragment == "" then "" else if u.unescaped.Some? then u.unescaped.value else u.fragment
  }

  /** The checks on host and port, in the order every parser makes them. */
  function AddressRefusal(u: Uri): Option<Refusal>
  {
    if u.host == "" then Some(MissingHost)
    else if u.port == "" then Some(MissingPort)
    else if ParsePort(u.port).None? then Some(InvalidPort)
    else None
  }

  predicate HasAddress(u: Uri)
  {
    u.host != "" && ParsePort(u.port).Some?
  }

  lemma AddressIsExact(u: Uri)
    ensures AddressRefusal(u).None? <==> HasAddress(u)
  {
    hide Value;
  }

  function PortOf(u: Uri): nat
    requires HasAddress(u)
  {
    ParsePort(u.port).value
  }

  function OrElse(s: string, fallback: string): string
  {
    if s == "" then fallback else s
  }

  /** parseBoolFlag. */
  predicate BoolFlag(v: string)
  {
    ToLower(TrimSpace(v)) in ["1", "true", "yes", "on"]
  }

  /** A flag is set by four words in any case, with white space around them, and by nothing
      else. */
  lemma FlagIsSetBy(v: string)
    ensures BoolFlag(v) <==> || SameLetters(TrimSpace(v), "1") || SameLetters(TrimSpace(v), "true")
                             || SameLetters(TrimSpace(v), "yes") || SameLetters(TrimSpace(v), "on")
  {
    hide TrimSpace, ToLower, SameLetters;
    LowerIs(TrimSpace(v), "1");
    LowerIs(TrimSpace(v), "true");
    LowerIs(TrimSpace(v), "yes");
    LowerIs(TrimSpace(v), "on");
  }
}
