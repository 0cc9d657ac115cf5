/** JSON and YAML documents as trees, with encoding/json's omitempty on the way out and its
    zero values on the way in. */
module Json {
  import opened Wrappers

  /** Object keys: one constructor for each tag of the Go structs. */
  datatype Key =
    | Log | Dns | Inbounds | Outbounds | Route | Experimental
    | Level | Timestamp | Servers | Strategy
    | Type | Tag | Server | ServerPort | Password | Uuid | Flow | Version | Username | Tls | Obfs | Transport
    | Enabled | ServerName | Insecure | Alpn | Utls | Reality | Fingerprint | PublicKey | ShortId
    | Host | Path | ServiceName
    | InterfaceName | Address | Mtu | AutoRoute | StrictRoute | Stack | Sniff | Listen | ListenPort
    | Final | Rules | Action | Protocol | ClashApi | ExternalController | ExternalUi
    | StateUri | StateLabel | AppliedAt
    | LogLevel | LogTimestamp | UpstreamDns | DnsStrategy | TunInterfaceName | TunAddress | TunMtu | TunStack
    | EnableMixed | MixedListen | MixedListenPort | EnableClashApi | ClashApiListen | ClashApiUiDir
    | Unknown(name: string)

  datatype Json =
    | JNull
    | JBool(b: bool)
    | JNum(n: int)
    | JStr(s: string)
    | JArr(items: seq<Json>)
    | JObj(fields: map<Key, Json>)

  /** An object with the given tags, leaving out those the field function omits. */
  function Object(tags: set<Key>, field: Key -> Option<Json>): Json
  {
    JObj(map k | k in tags && field(k).Some? :: field(k).value)
  }

  /** The value under a key; a missing key and an explicit null look the same. */
  function At(fields: map<Key, Json>, k: Key): Option<Json>
  {
    if k in fields && fields[k] != JNull then Some(fields[k]) else None
  }

  function OmitStr(s: string): Option<Json>
  {
    if s == "" then None else Some(JStr(s))
  }

  function OmitInt(n: int): Option<Json>
  {
    if n == 0 then None else Some(JNum(n))
  }

  function OmitBool(b: bool): Option<Json>
  {
    if b then Some(JBool(b)) else None
  }

  function OmitArr(a: seq<Json>): Option<Json>
  {
    if a == [] then None else Some(JArr(a))
  }

  /** The typed readers: Some(zero) for a missing key, None for a value of another type. */
  function StrAt(fields: map<Key, Json>, k: Key): Option<string>
  {
    match At(fields, k)
    case None => Some("")
    case Some(v) => if v.JStr? then Some(v.s) else None
  }

  function IntAt(fields: map<Key, Json>, k: Key): Option<int>
  {
    match At(fields, k)
    case None => Some(0)
    case Some(v) => if v.JNum? then Some(v.n) else None
  }

  function BoolAt(fields: map<Key, Json>, k: Key): Option<bool>
  {
    match At(fields, k)
    case None => Some(false)
    case Some(v) => if v.JBool? then Some(v.b) else None
  }

  function Strings(ss: seq<string>): (js: seq<Json>)
    ensures |js| == |ss|
    ensures forall i :: 0 <= i < |ss| ==> js[i] == JStr(ss[i])
  {
    seq(|ss|, i requires 0 <= i < |ss| => JStr(ss[i]))
  }

  /** A []string element that is null decodes to "". */
  function StringOf(j: Json): Option<string>
  {
    if j.JNull? then Some("") else if j.JStr? then Some(j.s) else None
  }

  function ReadStrings(js: seq<Json>): Option<seq<string>>
  {
    if js == [] then Some([])
    else
      var head, tail := StringOf(js[0]), ReadStrings(js[1..]);
      if head.None? || tail.None? then None else Some([head.value] + tail.value)
  }

  function StringsAt(fields: map<Key, Json>, k: Key): Option<seq<string>>
  {
    match At(fields, k)
    case None => Some([])
    case Some(v) => if v.JArr? then ReadStrings(v.items) else None
  }

  lemma {:induction false} StringsReadBack(ss: seq<string>)
    ensures ReadStrings(Strings(ss)) == Some(ss)
  {
    if ss == [] {
    } else {
      assert Strings(ss)[1..] == Strings(ss[1..]);
      StringsReadBack(ss[1..]);
      assert ss == [ss[0]] + ss[1..];
    }
  }
}
