/** The settings, their checks, and their YAML document (internal/config/settings.go,
    internal/config/yaml.go, validateSettings in internal/web/handlers.go). */
module Settings {
  import opened Wrappers
  import opened Json

  datatype Settings = Settings(
    logLevel: string, logTimestamp: bool, upstreamDns: string, dnsStrategy: string,
    tunInterfaceName: string, tunAddress: string, tunMtu: int, tunStack: string,
    enableMixed: bool, mixedListen: string, mixedListenPort: int,
    enableClashApi: bool, clashApiListen: string, clashApiUiDir: string)

  const DEFAULTS := Settings(
    "info", true, "1.1.1.1", "ipv4_only",
    "singtun", "198.18.0.1/30", 1500, "gvisor",
    true, "0.0.0.0", 7891,
    true, "0.0.0.0:9090", "/opt/share/dashboard")

  /** validateSettings. */
  predicate ValidSettings(s: Settings)
  {
    && 1 <= s.mixedListenPort <= 65535
    && 576 <= s.tunMtu <= 9000
    && s.tunInterfaceName != "" && s.tunAddress != "" && s.upstreamDns != ""
  }

  const SETTING_TAGS := {LogLevel, LogTimestamp, UpstreamDns, DnsStrategy, TunInterfaceName, TunAddress,
                         TunMtu, TunStack, EnableMixed, MixedListen, MixedListenPort, EnableClashApi,
                         ClashApiListen, ClashApiUiDir}

  /** The YAML struct tags: nothing is left out, not even zero values. */
  function SettingField(s: Settings, k: Key): Option<Json>
  {
    match k
    case LogLevel => Some(JStr(s.logLevel))
    case LogTimestamp => Some(JBool(s.logTimestamp))
    case UpstreamDns => Some(JStr(s.upstreamDns))
    case DnsStrategy => Some(JStr(s.dnsStrategy))
    case TunInterfaceName => Some(JStr(s.tunInterfaceName))
    case TunAddress => Some(JStr(s.tunAddress))
    case TunMtu => Some(JNum(s.tunMtu))
    case TunStack => Some(JStr(s.tunStack))
    case EnableMixed => Some(JBool(s.enableMixed))
    case MixedListen => Some(JStr(s.mixedListen))
    case MixedListenPort => Some(JNum(s.mixedListenPort))
    case EnableClashApi => Some(JBool(s.enableClashApi))
    case ClashApiListen => Some(JStr(s.clashApiListen))
    case ClashApiUiDir => Some(JStr(s.clashApiUiDir))
    case _ => None
  }

  function EncodeSettings(s: Settings): Json { Object(SETTING_TAGS, k => SettingField(s, k)) }

  function StrOver(f: map<Key, Json>, k: Key, d: string): string
  {
    match At(f, k) case Some(JStr(v)) => v case _ => d
  }

  function IntOver(f: map<Key, Json>, k: Key, d: int): int
  {
    match At(f, k) case Some(JNum(v)) => v case _ => d
  }

  function BoolOver(f: map<Key, Json>, k: Key, d: bool): bool
  {
    match At(f, k) case Some(JBool(v)) => v case _ => d
  }

  predicate SameKind(a: Json, b: Json)
  {
    (a.JStr? && b.JStr?) || (a.JNum? && b.JNum?) || (a.JBool? && b.JBool?)
  }

  /** Every present setting has the type of its field. */
  predicate WellTyped(f: map<Key, Json>)
  {
    forall k :: k in SETTING_TAGS && At(f, k).Some? ==>
      SettingField(DEFAULTS, k).Some? && SameKind(At(f, k).value, SettingField(DEFAULTS, k).value)
  }

  /** yaml.Unmarshal into a filled struct: present keys replace, missing ones keep. None
      when some value has another type than its field. */
  function Overlay(f: map<Key, Json>, d: Settings): Option<Settings>
  {
    if !WellTyped(f) then None
    else
      Some(Settings(
        StrOver(f, LogLevel, d.logLevel), BoolOver(f, LogTimestamp, d.logTimestamp),
        StrOver(f, UpstreamDns, d.upstreamDns), StrOver(f, DnsStrategy, d.dnsStrategy),
        StrOver(f, TunInterfaceName, d.tunInterfaceName), StrOver(f, TunAddress, d.tunAddress),
        IntOver(f, TunMtu, d.tunMtu), StrOver(f, TunStack, d.tunStack),
        BoolOver(f, EnableMixed, d.enableMixed), StrOver(f, MixedListen, d.mixedListen),
        IntOver(f, MixedListenPort, d.mixedListenPort), BoolOver(f, EnableClashApi, d.enableClashApi),
        StrOver(f, ClashApiListen, d.clashApiListen), StrOver(f, ClashApiUiDir, d.clashApiUiDir)))
  }

  const LOG_AND_DNS := {LogLevel, LogTimestamp, UpstreamDns, DnsStrategy}
  const TUN := {TunInterfaceName, TunAddress, TunMtu, TunStack}
  const MIXED := {EnableMixed, MixedListen, MixedListenPort}
  const CLASH := {EnableClashApi, ClashApiListen, ClashApiUiDir}

  lemma OverlayLogAndDns(f: map<Key, Json>, d: Settings, k: Key)
    requires WellTyped(f) && k in LOG_AND_DNS
    requires At(f, k).Some? ==>
               SettingField(DEFAULTS, k).Some? && SameKind(At(f, k).value, SettingField(DEFAULTS, k).value)
    ensures SettingField(Overlay(f, d).value, k) == if At(f, k).Some? then At(f, k) else SettingField(d, k)
  {
    hide At, WellTyped;
  }

  lemma OverlayTun(f: map<Key, Json>, d: Settings, k: Key)
    requires WellTyped(f) && k in TUN
    requires At(f, k).Some? ==>
               SettingField(DEFAULTS, k).Some? && SameKind(At(f, k).value, SettingField(DEFAULTS, k).value)
    ensures SettingField(Overlay(f, d).value, k) == if At(f, k).Some? then At(f, k) else SettingField(d, k)
  {
    hide At, WellTyped;
  }

  lemma OverlayMixed(f: map<Key, Json>, d: Settings, k: Key)
    requires WellTyped(f) && k in MIXED
    requires At(f, k).Some? ==>
               SettingField(DEFAULTS, k).Some? && SameKind(At(f, k).value, SettingField(DEFAULTS, k).value)
    ensures SettingField(Overlay(f, d).value, k) == if At(f, k).Some? then At(f, k) else SettingField(d, k)
  {
    hide At, WellTyped;
  }

  lemma OverlayClash(f: map<Key, Json>, d: Settings, k: Key)
    requires WellTyped(f) && k in CLASH
    requires At(f, k).Some? ==>
               SettingField(DEFAULTS, k).Some? && SameKind(At(f, k).value, SettingField(DEFAULTS, k).value)
    ensures SettingField(Overlay(f, d).value, k) == if At(f, k).Some? then At(f, k) else SettingField(d, k)
  {
    hide At, WellTyped;
  }

  /** Field by field, an overlay is the present value where there is one and the value
      underneath where there is none. */
  lemma OverlayField(f: map<Key, Json>, d: Settings, k: Key)
    requires WellTyped(f) && k in SETTING_TAGS
    ensures SettingField(Overlay(f, d).value, k) == if At(f, k).Some? then At(f, k) else SettingField(d, k)
  {
    hide At, WellTyped, SettingField, SameKind;
    if At(f, k).Some? {
      TypedAt(f, k);
    }
    assert k in LOG_AND_DNS + TUN + MIXED + CLASH;
    if k in LOG_AND_DNS {
      OverlayLogAndDns(f, d, k);
    } else if k in TUN {
      OverlayTun(f, d, k);
    } else if k in MIXED {
      OverlayMixed(f, d, k);
    } else {
      OverlayClash(f, d, k);
    }
  }

  lemma TypedAt(f: map<Key, Json>, k: Key)
    requires WellTyped(f) && k in SETTING_TAGS && At(f, k).Some?
    ensures SettingField(DEFAULTS, k).Some? && SameKind(At(f, k).value, SettingField(DEFAULTS, k).value)
  {
  }

  lemma SettingAt(s: Settings, k: Key)
    requires k in SETTING_TAGS
    ensures EncodeSettings(s).JObj? && At(EncodeSettings(s).fields, k) == SettingField(s, k)
  {
  }

  lemma WrittenIsWellTyped(s: Settings)
    ensures EncodeSettings(s).JObj? && WellTyped(EncodeSettings(s).fields)
  {
    hide EncodeSettings, At;
    SettingAt(s, LogLevel);
    forall k | k in SETTING_TAGS && At(EncodeSettings(s).fields, k).Some?
      ensures SettingField(DEFAULTS, k).Some?
      ensures SameKind(At(EncodeSettings(s).fields, k).value, SettingField(DEFAULTS, k).value)
    {
      SettingAt(s, k);
    }
  }

  lemma StrReplaces(s: Settings, k: Key, v: string, d: string)
    requires k in SETTING_TAGS && SettingField(s, k) == Some(JStr(v))
    ensures EncodeSettings(s).JObj? && StrOver(EncodeSettings(s).fields, k, d) == v
  {
    SettingAt(s, k);
  }

  lemma IntReplaces(s: Settings, k: Key, v: int, d: int)
    requires k in SETTING_TAGS && SettingField(s, k) == Some(JNum(v))
    ensures EncodeSettings(s).JObj? && IntOver(EncodeSettings(s).fields, k, d) == v
  {
    SettingAt(s, k);
  }

  lemma BoolReplaces(s: Settings, k: Key, v: bool, d: bool)
    requires k in SETTING_TAGS && SettingField(s, k) == Some(JBool(v))
    ensures EncodeSettings(s).JObj? && BoolOver(EncodeSettings(s).fields, k, d) == v
  {
    SettingAt(s, k);
  }

  lemma LogAndDnsReplaced(s: Settings, d: Settings)
    ensures EncodeSettings(s).JObj?
    ensures var f := EncodeSettings(s).fields;
      && StrOver(f, LogLevel, d.logLevel) == s.logLevel
      && BoolOver(f, LogTimestamp, d.logTimestamp) == s.logTimestamp
      && StrOver(f, UpstreamDns, d.upstreamDns) == s.upstreamDns
      && StrOver(f, DnsStrategy, d.dnsStrategy) == s.dnsStrategy
  {
    hide EncodeSettings, StrOver, BoolOver;
    StrReplaces(s, LogLevel, s.logLevel, d.logLevel);
    BoolReplaces(s, LogTimestamp, s.logTimestamp, d.logTimestamp);
    StrReplaces(s, UpstreamDns, s.upstreamDns, d.upstreamDns);
    StrReplaces(s, DnsStrategy, s.dnsStrategy, d.dnsStrategy);
  }

  lemma TunReplaced(s: Settings, d: Settings)
    ensures EncodeSettings(s).JObj?
    ensures var f := EncodeSettings(s).fields;
      && StrOver(f, TunInterfaceName, d.tunInterfaceName) == s.tunInterfaceName
      && StrOver(f, TunAddress, d.tunAddress) == s.tunAddress
      && IntOver(f, TunMtu, d.tunMtu) == s.tunMtu
      && StrOver(f, TunStack, d.tunStack) == s.tunStack
  {
    hide EncodeSettings, StrOver, IntOver;
    StrReplaces(s, TunInterfaceName, s.tunInterfaceName, d.tunInterfaceName);
    StrReplaces(s, TunAddress, s.tunAddress, d.tunAddress);
    IntReplaces(s, TunMtu, s.tunMtu, d.tunMtu);
    StrReplaces(s, TunStack, s.tunStack, d.tunStack);
  }

  lemma MixedReplaced(s: Settings, d: Settings)
    ensures EncodeSettings(s).JObj?
    ensures var f := EncodeSettings(s).fields;
      && BoolOver(f, EnableMixed, d.enableMixed) == s.enableMixed
      && StrOver(f, MixedListen, d.mixedListen) == s.mixedListen
      && IntOver(f, MixedListenPort, d.mixedListenPort) == s.mixedListenPort
  {
    hide EncodeSettings, StrOver, IntOver, BoolOver;
    BoolReplaces(s, EnableMixed, s.enableMixed, d.enableMixed);
    StrReplaces(s, MixedListen, s.mixedListen, d.mixedListen);
    IntReplaces(s, MixedListenPort, s.mixedListenPort, d.mixedListenPort);
  }

  lemma ClashApiReplaced(s: Settings, d: Settings)
    ensures EncodeSettings(s).JObj?
    ensures var f := EncodeSettings(s).fields;
      && BoolOver(f, EnableClashApi, d.enableClashApi) == s.enableClashApi
      && StrOver(f, ClashApiListen, d.clashApiListen) == s.clashApiListen
      && StrOver(f, ClashApiUiDir, d.clashApiUiDir) == s.clashApiUiDir
  {
    hide EncodeSettings, StrOver, BoolOver;
    BoolReplaces(s, EnableClashApi, s.enableClashApi, d.enableClashApi);
    StrReplaces(s, ClashApiListen, s.clashApiListen, d.clashApiListen);
    StrReplaces(s, ClashApiUiDir, s.clashApiUiDir, d.clashApiUiDir);
  }

  /** Every field of the written document replaces what it is laid over, even with false,
      zero or "". */
  lemma OverlayReplacesAll(s: Settings, d: Settings)
    ensures EncodeSettings(s).JObj? && Overlay(EncodeSettings(s).fields, d) == Some(s)
  {
    hide EncodeSettings, StrOver, IntOver, BoolOver, WellTyped;
    WrittenIsWellTyped(s);
    LogAndDnsReplaced(s, d);
    TunReplaced(s, d);
    MixedReplaced(s, d);
    ClashApiReplaced(s, d);
  }
}
