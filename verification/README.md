# A Dafny model of sing-box-helper

sing-box-helper turns a proxy URI into a sing-box `config.json`, keeps backups of the files it
replaces, remembers which URI is applied, and serves a small HTTP API around that. This project
models the logic of that helper and proves what it keeps:

- **The configuration lifecycle.** Apply, settings POST, Restore and Delete are sequences of single
  file steps (exclusive create, truncate, partial write, rename, remove). Any step may fail, and the
  process may die between any two. Over every serial run of requests: no live configuration is lost
  as long as no backup is dated in the future, a backup's body never changes, a restore can be undone
  as long as its backup is there, memory and settings file agree. Where the code keeps less than its
  comments say, the exact condition is proved: how many backups there are, when an Apply loses the
  configuration it replaces, and when status names a node that is not the running one.
- **The log ring.** An incremental line splitter over a bounded array is shown equal to a reading of
  the whole byte history, whatever the chunking; concurrent writers under the mutex linearise.
- **URI to node to configuration and back.** The accepted URIs and the image of each of the three
  parsers are exact; encoding with `omitempty` loses nothing; the reader of `config.json` finds the
  node that was rendered; what the UI displays is independent of secrets.
- **Backup names.** The timestamp code is order-preserving; the guard of Restore and Delete accepts
  exactly the files that List shows, for every path text.

Check it with `dafny verify dfyconfig.toml` (Dafny 4.11).

## How it is built

Methods of classes stand for the code that changes state (`LogRing.Buffer`, `Disk.Volume`,
`Manager.Manager`, `Server.Server`); each is proved to perform exactly the file steps, memory change
and reply that a specification function gives (`Backups.CreateRun`, `Lifecycle.ApplyOutcome`, ...).
Theorems over runs are lemmas about those functions. An environment record (`Backups.Snapshot`,
`Disk.Write`, `Lifecycle.ApplyEnv`, ...) holds everything the code does not decide: clock readings,
which step fails, what a half-written file contains, the LAN address, the outcome of the restart and
of the reachability probe. A crash is a prefix of a request's steps followed by a restart that
reloads the settings.

| files | what they hold |
|---|---|
| `Wrappers`, `Seqs`, `Text` | options and results; splitting, joining, windows; Go's text functions and ALPN lists |
| `LogRing`, `LogWriters` | the log buffer; interleaved writers |
| `Nodes`, `Vless`, `Hysteria2`, `Socks`, `Links`, `UserInfo` | URIs, the three parsers, the dispatcher, percent-encoded user-info |
| `UriMeaning`, `Documents` | acceptance and outbound read off the raw URI; what is written under each key |
| `Json`, `NodeCodec`, `Settings`, `Render`, `Readback` | document trees, codecs, settings, rendering, the two config readers |
| `Calendar`, `Stamps`, `Paths`, `PathWalk`, `BackupNames` | civil time, backup timestamps, lexical paths and where they lead, the backup guard |
| `Disk`, `Backups`, `Manager`, `Saves` | file steps, the backup manager, saves through a temporary file |
| `Lifecycle`, `Replies`, `Runs`, `Managed`, `Claims`, `Counting`, `Retention`, `Loss`, `Agreement`, `Server` | requests, runs, and their theorems |
| `Counterexamples` | runs written out in which a promise of the comments fails |
| `SettingsRace` | interleaved settings POSTs and readers |

## Assumptions

- Clock readings for backup names are strictly increasing valid civil times of years 0 to 9999, and
  local time has a fixed offset: `Create` formats local time while `List` reads names as UTC.
- That no configuration is lost supposes that no backup in the directory is dated later than the clock
  when a run begins (`Runs.NoFuture`); `Loss.ReplacedBodySurvivesIff` says what happens otherwise.
- Lexically equal paths name the same file, the paths of config, state and settings file are distinct,
  and requests that change files come one at a time.
- The clock readings of log writes, taken under the mutex, never go back.
- A URI arrives as `url.Parse` splits it. That call and `net.ParseIP(...).IsLoopback` are the
  function parameters in `Nodes.Library`; `url.QueryUnescape` of the fragment is a field of the URI.
  What is said about accepted URIs and about the image of a parser is said of split records.
- `Disk.Backup(stamp)` is the file whose path is the config path, `.bak-` and the stamp. Requests name
  files by path text; `BackupNames.StampOf` is the guard's translation.

## Where the code and its documentation differ

- The comment at `internal/web/handlers.go:351-354` says a settings POST re-renders when the state
  file matches `config.json`. The code (415-417) does not compare them, and the model follows the
  code: `Managed.PostKeepsNodeIffManaged` says when the reported node is kept (exactly when status
  was managed), and `Counterexamples.PostDropsRestoredNode` is a run from an empty disk in which it
  is not.
- By the comment at `internal/web/handlers.go:52-54` managed means that the running configuration is one
  this helper applied, identified by what is reported with it. The code (93-95) compares server and port
  of the recorded URI only.
  `Claims.ClaimOverRuns` says, for every run of requests that leave no half-written configuration,
  when status says managed (the addresses agree) and when it is right (then the nodes are equal);
  `Counterexamples.StatusNamesOtherNode` is a run in which it is wrong.
- The repository's `README.md:70` speaks of trimming to 10 backups. Only Apply trims, and a trim passes
  over what it cannot read or remove. `Retention.StaysWithinKeepIff` says which requests break the
  limit: exactly those that leave a backup in a full directory, unless they get to a trim that passes
  over nothing. `Retention.TrimCount` and `Retention.RetentionIsExact` give the number of backups,
  `Retention.SnapshotsPileUp` shows that Restores, re-rendering POSTs and failed Applies all add to it,
  and `Counterexamples.RestoreExceedsKeep` and `Counterexamples.StuckTrimExceedsKeep` are inputs.
- The comments of Trim and Restore promise that the newest are kept and that a restore is undoable.
  With backups dated in the future Apply may trim its own snapshot:
  `Counterexamples.ApplyLosesReplacedBody` is an input on which the replaced configuration is gone,
  `Retention.SnapshotSurvivesIff` says exactly when the snapshot survives, and
  `Loss.ReplacedBodySurvivesIff` exactly when the configuration does.
- `internal/web/handlers.go:398-404` saves and then sets, without a lock around both. Two POSTs at a
  time can leave file and memory with different settings: `SettingsRace.FileAndMemoryAgreeIff` says
  exactly when, and `SettingsRace.FileAndMemoryCanDiffer` gives an interleaving.

## Model

| member | source | states |
|---|---|---|
| LogRing.Buffer.constructor | internal/logbuf/buf.go:34-39 | an empty buffer of the given capacity, 500 when it is not positive |
| LogRing.Buffer.Write | internal/logbuf/buf.go:44-62 | the stored lines and pending bytes are those the whole byte history determines; the history grows by exactly the written bytes |
| LogRing.Buffer.IndexLF | internal/logbuf/buf.go:51-54 | finds the first newline or reports that there is none |
| LogRing.Buffer.AppendLocked | internal/logbuf/buf.go:64-73 | the shift in place drops the oldest line, keeps order, and never exceeds the capacity |
| LogRing.TrimCRTakesCRs | internal/logbuf/buf.go:55 | trimming takes off the CRs at the end of a line, all of them, and nothing else |
| LogRing.Buffer.Tail | internal/logbuf/buf.go:78-89 | a fresh array holding the last n lines, or all of them for n not positive or too large |
| LogRing.OverwriteTail | internal/logbuf/buf.go:75-77 | overwriting a returned tail leaves the buffer unchanged |
| LogRing.WriteMeetsHistory | internal/logbuf/buf.go:44-62 | one incremental write on the state of a history gives the state of the longer history |
| LogRing.ChunkingDoesNotMatter | internal/logbuf/buf.go:41-62 | stored texts are the last max non-empty CR-trimmed complete lines of all bytes, pending is what follows the last newline, and the pieces joined at newlines are the bytes written, however they were cut into writes |
| LogRing.HistoryIsSplit | internal/logbuf/buf.go:16-19 | lines and remainder of a history are those of its plain text split at newlines |
| LogRing.TailsAreNested | internal/logbuf/buf.go:75-89 | helper: a shorter tail is a suffix of a longer one and has length min(n, lines) |
| LogWriters.RunKeeps | internal/logbuf/buf.go:44-48 | every step of every interleaving keeps mutual exclusion, the buffer linear, the stamps ordered, and each writer's data accounted for |
| LogWriters.OnlyOwnerWrites | internal/logbuf/buf.go:44-46 | in every interleaving only the owner of the mutex can take a step inside Write; the others can only wait for it |
| LogWriters.NeverStuck | internal/logbuf/buf.go:44-62 | in every interleaving, while some writer has data left some step is possible |
| LogWriters.WritersLinearise | internal/logbuf/buf.go:44-62 | every interleaving ends in the state of some serial order of the finished writes that respects each writer's order and loses none; stored stamps never decrease |
| LogWriters.LinesBelongToWriters | internal/logbuf/buf.go:44-62 | after any interleaving of writers whose chunks end in newlines, each stored line comes from one write, and a writer's stored lines are the end of what the chunks it took from its queue, in order, would log alone |
| Text.AlpnIsNormal | internal/parser/hysteria2.go:75-81 | reading a comma-joined ALPN list again gives the same list |
| Text.AlpnReadsBack | internal/parser/vless.go:185-191 | every list of trimmed comma-free names except the single empty one survives joining and reading |
| Text.AlpnShape | internal/parser/vless.go:242-248 | ALPN lists hold trimmed comma-free names |
| Text.SplitAlpn | internal/parser/hysteria2.go:75-81 | the loop that splits and trims in place computes that list |
| Text.TrimSpaceTakesSpace | internal/parser/parser.go:20 | trimming takes off white space at both ends, all of it, and nothing else |
| Text.LowerIs | internal/parser/parser.go:28 | lowered text is a given word exactly when it is that word up to the case of its letters |
| Nodes.FlagIsSetBy | internal/parser/hysteria2.go:126-135 | a flag is set by four words in any case, with white space around them, and by nothing else |
| UserInfo.RejoinIsWhole | internal/parser/hysteria2.go:38-46 | the halves rejoined at the colon are the percent-decoding of the whole user-info, refused for the same texts (RFC 3986, sections 2.1 and 3.2.1) |
| UserInfo.UnescapeInvertsEscape | internal/parser/hysteria2.go:38-46 | percent-decoding gives back every text from every way to write it (RFC 3986, section 2.1) |
| Hysteria2.PasswordIsWholeUserInfo | internal/parser/hysteria2.go:38-46 | the password ParseHysteria2 makes of raw user-info is the text of its whole percent-decoding |
| Vless.ParserIsExact | internal/parser/vless.go:31-128 | ParseVLESS succeeds exactly on the accepted URIs and its result is well-formed |
| Vless.ResultIsWellFormed | internal/parser/vless.go:172-278 | TLS, REALITY and transport blocks have the shapes sing-box expects |
| Vless.EveryWellFormedIsParsed | internal/parser/vless.go:31-128 | every well-formed VLESS outbound is the result of some URI |
| Vless.WarnsIffMapped | internal/parser/vless.go:108-121 | the display keeps the requested transport and warns exactly when the outbound uses another in its place |
| Vless.ParseVLESS | internal/parser/vless.go:31-128 | the imperative parser returns the specified node or the first failing check |
| Vless.BuildVlessTls | internal/parser/vless.go:172-196 | builds the specified TLS block |
| Vless.BuildVlessReality | internal/parser/vless.go:215-250 | builds the specified REALITY block or names the missing parameter |
| Vless.BuildVlessTransport | internal/parser/vless.go:257-278 | builds the specified transport block, mapping xhttp and splithttp |
| UriMeaning.VlessAcceptsIff | internal/parser/vless.go:31-103 | ParseVLESS accepts exactly the URIs whose raw parts meet the stated demands, absent values and letter case included |
| UriMeaning.UuidIsFiveGroups | internal/parser/vless.go:13-15 | the UUID pattern is five groups of hex digits of 8, 4, 4, 4 and 12 |
| UriMeaning.VlessReads | internal/parser/vless.go:68-94 | every field of the outbound from the raw query: an absent security is none, an absent type is tcp, and so on for TLS, REALITY and transport |
| UriMeaning.VlessShows | internal/parser/vless.go:108-121 | the display names tcp exactly without a transport, and warns exactly for xhttp and splithttp |
| UriMeaning.VlessRefuses | internal/parser/vless.go:40-82 | each refusal is given exactly when its condition is the first to fail |
| Hysteria2.ParserIsExact | internal/parser/hysteria2.go:26-124 | ParseHysteria2 succeeds exactly on the accepted URIs and its result is well-formed |
| Hysteria2.EveryWellFormedIsParsed | internal/parser/hysteria2.go:26-124 | every well-formed Hysteria2 outbound is the result of some URI |
| Hysteria2.ParseHysteria2 | internal/parser/hysteria2.go:26-124 | the imperative parser returns the specified node or the first failing check |
| UriMeaning.Hysteria2AcceptsIff | internal/parser/hysteria2.go:26-100 | ParseHysteria2 accepts exactly the URIs whose raw parts meet the stated demands |
| UriMeaning.Hysteria2Reads | internal/parser/hysteria2.go:60-123 | every field of the outbound and the display from the raw parts |
| UriMeaning.Hysteria2Refuses | internal/parser/hysteria2.go:31-100 | each refusal is given exactly when its condition is the first to fail |
| Socks.ParserIsExact | internal/parser/socks.go:27-104 | ParseSOCKS succeeds exactly on the accepted URIs and its result is well-formed |
| Socks.EveryWellFormedIsParsed | internal/parser/socks.go:27-104 | every well-formed SOCKS outbound is the result of some URI |
| Socks.ParseSOCKS | internal/parser/socks.go:27-104 | the imperative parser returns the specified node or the first failing check |
| UriMeaning.SocksAcceptsIff | internal/parser/socks.go:27-76 | ParseSOCKS accepts exactly the URIs whose raw parts meet the stated demands |
| UriMeaning.SocksReads | internal/parser/socks.go:52-90 | address, version and credentials from the raw parts |
| UriMeaning.SocksShows | internal/parser/socks.go:78-139 | the display and its notes from the raw parts |
| UriMeaning.SocksRefuses | internal/parser/socks.go:39-76 | each refusal is given exactly when its condition is the first to fail |
| UriMeaning.AddressRefuses | internal/parser/socks.go:39-50 | why an address is refused: host before port, a missing port before a bad one |
| Links.Parse | internal/parser/parser.go:19-38 | dispatch on the scheme gives the specified result of the right parser |
| UriMeaning.DispatchIsExact | internal/parser/parser.go:28-37 | a URI gets through exactly when one of the three parsers accepts it, as that parser's node; the eight schemes are the only supported ones |
| UriMeaning.LinkIsAccepted | internal/parser/parser.go:19-38 | a link gets through exactly when it is not blank, splits, and one of the parsers accepts what it splits into |
| UriMeaning.LabelReads | internal/parser/vless.go:99-106 | the label is the decoded fragment, or the fragment as it is when it cannot be decoded |
| Links.NodesAreProxies | internal/parser/types.go:7-25 | every parsed node is tagged proxy, has a known type, a server and a port in range, and is displayed with its own address, SNI and certificate verification |
| Links.LeadingZerosDoNotMatter | internal/parser/vless.go:49-56 | a port with a leading zero gives the same node as one without, in all three parsers |
| Links.DisplayHidesSecrets | internal/parser/types.go:74-89 | accepted URIs that agree on their public parts are displayed alike, whatever their secrets |
| NodeCodec.OutboundReadsBack | internal/parser/types.go:10-63 | any outbound decodes exactly from its encoding with omitempty |
| NodeCodec.TlsReadsBack | internal/parser/types.go:28-35 | the same for the nested TLS block |
| Documents.OutboundKeys | internal/parser/types.go:10-25 | each field of an outbound is under the key of its struct tag, and absent when empty exactly where the tag says omitempty |
| Documents.TlsKeys | internal/parser/types.go:28-35 | the same for the TLS block |
| Documents.OutboundBlocks | internal/parser/types.go:22-24 | the blocks of an outbound are under their keys |
| Documents.TlsBlocks | internal/parser/types.go:33-34 | the blocks of a TLS block are under their keys |
| Documents.ObfsKeys | internal/parser/types.go:39-42 | the same for the obfuscation block |
| Documents.UtlsKeys | internal/parser/types.go:45-48 | the same for the uTLS block |
| Documents.RealityKeys | internal/parser/types.go:51-55 | the same for the REALITY block |
| Documents.TransportKeys | internal/parser/types.go:58-63 | the same for the transport block |
| Render.RenderedIffSameEffect | internal/config/render.go:22-84 | two renderings are equal exactly when they have the same node and their settings have the same effect |
| Documents.RenderedEffect | internal/config/render.go:27-81 | every setting that has an effect is read from the rendered document by the key sing-box looks under |
| Documents.FixedParts | internal/config/render.go:32-75 | what every document has in common: the DNS server, the TUN inbound, the mixed inbound |
| Documents.FixedRoute | internal/config/render.go:51-63 | the final route, the sniff and hijack-dns rules, and the direct outbound after the node |
| Documents.ListenAddress | internal/probe/lanip.go:95-106 | auto in any case gives the LAN address or 0.0.0.0, nothing gives 0.0.0.0, anything else itself |
| Documents.RenderedDefaults | internal/config/settings.go:36-57 | what the default settings render to |
| Render.RouteEndsAtNode | internal/config/render.go:36-64 | helper: the final route names the tag of the first outbound, and the TUN inbound leaves routing alone |
| Readback.RenderReadsBack | internal/web/readback.go:33-63 | from any rendered document the node decodes whole, and both readers report its type, server and port |
| Readback.ReadersAgree | internal/backup/backup.go:198-230 | the two readers find a node in the same lists and pick the same one exactly when no outbound is tagged or the first candidate is |
| Readback.CurrentIsFirst | internal/web/readback.go:41-63 | on any list, the first outbound tagged proxy, or the first of a proxy type when none is tagged |
| Readback.EveryEntryIsRead | internal/web/readback.go:46-51 | a list is read exactly when every entry is, entry by entry |
| Readback.EntryIsRead | internal/web/readback.go:10-18 | an entry is read exactly when its four fields have the right types, missing ones counting as empty |
| Settings.OverlayReplacesAll | internal/config/yaml.go:31-56 | a saved document replaces every field, even with false, zero or empty values |
| Settings.OverlayField | internal/config/yaml.go:18-35 | field by field, loading takes the present value and keeps the default where there is none |
| Documents.SettingsKeys | internal/config/settings.go:10-34 | each setting is written under the key of its struct tag, always |
| Documents.StateKeys | internal/state/state.go:20-24 | each field of the state record is written under its key |
| Saves.LoadedSettings | internal/config/yaml.go:18-35 | what the settings file loads as, case by case: missing, empty, null, an object over the defaults, anything else |
| Saves.LoadedState | internal/state/state.go:28-41 | what the state file loads as, case by case |
| Saves.ReadSettings | internal/config/yaml.go:22-35 | loading starts from the defaults and follows the specified cases |
| Saves.SaveTo | internal/state/state.go:45-58 | performs exactly the steps of a save through a temporary file |
| Saves.SettingsSaveIsAtomic | internal/config/yaml.go:37-57 | a settings save stopped anywhere loads as before or, once finished, as the new settings |
| Saves.StateSaveIsAtomic | internal/state/state.go:43-58 | the same for the state file |
| Saves.StateReadsBack | internal/state/state.go:20-41 | a saved state record loads unchanged |
| Saves.LeftoversDoNotMatter | internal/config/yaml.go:48-56 | a leftover temporary file changes nothing that a later save leaves, wherever it stops |
| Saves.TemporaryFileAfterSave | internal/config/yaml.go:48-56 | whether a temporary file is left over, and what is in it |
| Calendar.CalendarOrder | internal/backup/backup.go:70 | dictionary order of civil times is the order of their instants |
| Calendar.DayNumberInClosedForm | internal/backup/backup.go:70 | counting days month by month and year by year agrees with the closed form of the Gregorian calendar |
| Calendar.FourHundredYears | internal/backup/backup.go:70 | four hundred years are 146097 days and the calendar repeats |
| Calendar.NextMonth | internal/backup/backup.go:70 | the day after the last of a month is the first of the next |
| Stamps.ParseFormat | internal/backup/backup.go:70-106 | parsing a formatted time gives its instant, to the second |
| Stamps.FormatOrder | internal/backup/backup.go:19-21 | bytewise order of names is chronological order, and no two times share a name |
| Stamps.FractionsTie | internal/backup/backup.go:70 | a name with a zero fraction is accepted and ties with the name without it |
| Stamps.ParseIsExact | internal/backup/backup.go:70 | a time followed by a text is accepted exactly when the time is valid and the text a fraction, and reads as both together |
| Stamps.AcceptedIsFormatted | internal/backup/backup.go:70 | every accepted name is such a text |
| Stamps.FractionValue | internal/backup/backup.go:70 | a fraction counts nanoseconds |
| BackupNames.GuardIsList | internal/backup/backup.go:177-193 | for every path text of an existing file, the guard accepts it exactly when its clean path is listed |
| Backups.GuardIsListing | internal/backup/backup.go:119-126 | on the modelled directory: a text is accepted for an existing backup exactly when List shows that backup and the text cleans to the path Create gave it |
| BackupNames.CreatedPathBelongs | internal/backup/backup.go:106-116 | the path Create returns passes the guard |
| Paths.CleanOfClean | internal/backup/backup.go:181 | path cleaning is idempotent |
| Paths.UnderParts | internal/backup/backup.go:78 | a plain name joined to a clean directory has that directory and that base |
| Paths.PathParts | internal/backup/backup.go:182-186 | a clean file path is its base joined to its directory |
| PathWalk.CleanKeepsPlace | internal/backup/backup.go:181 | a cleaned text leads to the same place as the text itself, by a walk through the tree that knows nothing of cleaning |
| PathWalk.SamePlaceIff | internal/backup/backup.go:181-184 | two texts have the same clean text exactly when they lead to the same place |
| PathWalk.GuardIsPlace | internal/backup/backup.go:119-126 | a text is taken for a backup exactly when it leads to the file Create makes with that stamp |
| PathWalk.GuardIsListedPlace | internal/backup/backup.go:177-193 | whatever text leads to a regular file, it is accepted exactly when that file is one List shows |
| PathWalk.BackupLiesBeside | internal/backup/backup.go:106 | the file Create makes lies beside the configuration |
| PathWalk.KindsDoNotMix | internal/backup/backup.go:182-184 | a relative text is never accepted for a rooted configuration, nor the other way round |
| Disk.Volume.Perform | internal/backup/backup.go:107-113 | one file step, remembered in the log |
| Disk.Volume.WriteFile | internal/backup/backup.go:138 | truncation, partial content and full content are separate steps |
| Disk.WriteCanTear | internal/backup/backup.go:138 | a write stopped early leaves an empty or a half-written file |
| Backups.CreateMakesCopy | internal/backup/backup.go:93-117 | a successful Create adds one new file holding the live body and changes nothing else |
| Backups.RestoreReplaces | internal/backup/backup.go:119-142 | a successful Restore makes the named body live and keeps the replaced one in a new backup |
| Backups.TrimKeepsNewest | internal/backup/backup.go:156-175 | without ties and failures exactly the keep newest remain, each newer than all removed |
| Backups.TrimSparesNewest | internal/backup/backup.go:158-175 | a backup newer than all others is never removed |
| Backups.TrimTwice | internal/backup/backup.go:158-175 | trimming to a and then b is trimming to the smaller |
| Backups.NewestFirstIsDescending | internal/backup/backup.go:87-89 | on names made by Create, newest first is descending name order |
| Manager.Manager.Create | internal/backup/backup.go:96-117 | performs the specified steps and returns the specified result |
| Manager.Manager.Restore | internal/backup/backup.go:123-142 | the same for Restore |
| Manager.Manager.Delete | internal/backup/backup.go:146-154 | the same for Delete |
| Manager.Manager.List | internal/backup/backup.go:53-91 | every readable backup once, newest first, with its own time and summary |
| Manager.Manager.Trim | internal/backup/backup.go:158-175 | removes what the list order calls for, passing over failures |
| Manager.Manager.RemoveAll | internal/backup/backup.go:169-173 | the removal loop of Trim |
| Replies.PostReplies | internal/web/handlers.go:387-437 | the exact condition of every reply to a settings POST: it re-renders exactly when the settings are accepted, the state file names a node, and snapshot and live write work |
| Replies.SettingsAreBounded | internal/web/handlers.go:446-463 | valid settings stay valid exactly when a changed field keeps its bounds |
| Replies.ApplyReplies | internal/web/handlers.go:176-258 | the exact condition of every reply to an Apply, each of its fields, and when it trims |
| Replies.RestoreReplies | internal/backup/backup.go:123-142 | the exact condition of every result of Restore |
| Replies.FailedRestoreSparesLive | internal/backup/backup.go:123-138 | a Restore that fails before its write leaves the live file alone |
| Replies.DeleteReplies | internal/backup/backup.go:146-154 | the exact condition of every result of Delete, and that it removes that backup and nothing else |
| Replies.CreateReplies | internal/backup/backup.go:96-117 | when Create succeeds and what it returns |
| Runs.EventLosesNothing | internal/web/handlers.go:176-258 | Apply, POST and Restore stopped after any number of steps leave the live body live or whole in a backup that List shows |
| Runs.RunLosesNothing | internal/web/handlers.go:210-255 | the same at every moment of every run without future-dated backups |
| Runs.NothingIsBeyondRestore | internal/backup/backup.go:119-142 | so at every such moment the body is live, or restoring one listed backup by its path makes it live, and that Restore fails only when a file operation does |
| Runs.BackupsAreImmutable | internal/backup/backup.go:106-116 | over any run a backup that is still there has the body it had, and one that went never comes back |
| Counting.BackupsLeaveForAReason | internal/backup/backup.go:144-175 | over any run, with failures and crashes, a backup stays as it is unless a Delete names it or the trim of an Apply lists it behind keep others |
| Runs.RestoreIsUndoable | internal/backup/backup.go:119-142 | after any further run, restoring the backup a Restore reported makes the replaced configuration live again |
| Runs.TrimSparesSnapshot | internal/web/handlers.go:249-255 | Apply's trim does not remove Apply's own snapshot |
| Managed.LiveRefinesItsInputs | internal/web/handlers.go:186-247 | in quiet runs live is the rendering of the state's URI with the settings and LAN address of the last write, and status is managed with that URI |
| Managed.ReRenderedMeansInMemory | internal/web/handlers.go:404-437 | after a reply that claims a re-rendering the live file is the rendering of the state file's node with the settings in memory, and the state file is as before |
| Managed.PostKeepsNodeIffManaged | internal/web/handlers.go:411-437 | a re-rendering POST ends managed with the state's URI and keeps the reported address exactly when status was managed |
| Managed.RestoredNodeIsReplacedByPost | internal/web/handlers.go:351-354 | in every run Apply(A), Apply(B), Restore(A), POST that succeeds, status shows A unmanaged before the POST and B managed after it |
| Managed.AppliedNodeReadsBack | internal/web/handlers.go:75-106 | after an Apply the live document decodes to the parsed outbound whole, and status reports that node as managed with the URI, label and time of the Apply |
| Claims.ClaimIsExact | internal/web/handlers.go:88-103 | with a rendering live, status says managed exactly when the recorded node has its address, and is right exactly when then the two are equal |
| Claims.ClaimAfterRestore | internal/web/handlers.go:88-103 | the same after a Restore, from the named backup and the state file before it |
| Claims.ClaimAfterApply | internal/web/handlers.go:233-247 | the same after an Apply: right if its state save worked, otherwise from the new node and the state file before it |
| Claims.ClaimAfterPost | internal/web/handlers.go:415-437 | right after every POST that re-rendered |
| Claims.ClaimAfterRestoringFirst | internal/web/handlers.go:52-54 | in every run Apply(A), Apply(B), Restore(A) status names B's URI exactly when the addresses agree, wrongly unless A is B |
| Claims.ClaimOverRuns | internal/web/handlers.go:65-107 | the exact condition after any run from an empty disk whose requests leave no half-written configuration |
| Claims.StatusReports | internal/web/handlers.go:65-107 | what status reports whatever the files hold, field by field |
| Retention.TrimLeaves | internal/backup/backup.go:156-175 | trimming leaves the front of the list and exactly min(keep, n) backups, ties or not |
| Retention.TrimBounds | internal/backup/backup.go:158-175 | with ties, unreadable entries and failed removals: what is enough for a backup to survive a trim, and what is needed |
| Retention.SurvivesTrimIff | internal/backup/backup.go:158-175 | without ties, a backup survives a trim exactly when it is unreadable, cannot be removed, or has fewer than keep newer ones |
| Retention.ApplyKeepsIff | internal/web/handlers.go:249-255 | the same of the trim of an Apply, for every old backup and its snapshot |
| Retention.SnapshotSurvivesIff | internal/web/handlers.go:249-255 | without ties, an Apply's snapshot survives its trim exactly when, before the Apply, fewer than keep readable backups were dated later than its clock reading, or it cannot be read or removed |
| Loss.ReplacedBodySurvivesIff | internal/web/handlers.go:210-255 | without ties, the configuration an Apply replaces is still live or in a listed backup exactly when the Apply wrote it again, or the trim left its snapshot, or an older backup that holds it |
| Counting.StampsAfter | internal/backup/backup.go:96-175 | the set of backups after any request that ran to its end, from guards on the state before it |
| Retention.CountAfter | internal/backup/backup.go:96-175 | the number of backups after any request that ran to its end |
| Retention.TrimCount | internal/web/handlers.go:249-255 | any trim of an Apply leaves min(keep, what it lists) and what it passes over |
| Retention.CleanTrimCount | internal/web/handlers.go:249-255 | an Apply that trims cleanly leaves min(keep, what was there and its snapshot) |
| Retention.StaysWithinKeepIff | internal/web/handlers.go:249-255 | any request keeps the number within keep exactly when it leaves no backup, or there is room for one, or it is an Apply whose trim passes over nothing |
| Retention.CountIsBalance | internal/web/handlers.go:415-430 | over any uninterrupted run the number of backups changes by what the requests make less what they remove |
| Retention.RetentionIsExact | internal/web/handlers.go:249-255 | the exact number after a clean Apply and any further requests that run to their end |
| Retention.RetentionHolds | internal/web/handlers.go:249-255 | over any run, with crashes, the count is at most keep plus the untrimmed snapshots created since |
| Retention.RetentionAfterApply | internal/web/handlers.go:249-255 | the same since an Apply that trimmed cleanly |
| Retention.SnapshotsPileUp | internal/web/handlers.go:419-614 | n successful Restores, re-rendering POSTs or Applies that fail after their snapshot, in any mixture, add exactly n backups |
| Counterexamples.PostDropsRestoredNode | internal/web/handlers.go:415-417 | a run from an empty disk in which a re-rendering POST switches the live node |
| Counterexamples.StatusNamesOtherNode | internal/web/handlers.go:88-103 | a run from an empty disk after which status names a URI that is not the running node's |
| Counterexamples.RestoreExceedsKeep | internal/web/handlers.go:614 | an input on which a Restore takes the number of backups past keep |
| Counterexamples.StuckTrimExceedsKeep | internal/backup/backup.go:169-173 | an input on which an Apply does, as a removal fails |
| Counterexamples.ApplyLosesReplacedBody | internal/web/handlers.go:249-255 | an input with a future-dated backup on which Apply trims its own snapshot and the replaced configuration is gone |
| Agreement.MemoryAgreesWithDisk | internal/web/handlers.go:387-404 | in-memory settings equal what the file loads as, after any run with failures and crashes |
| Agreement.RestartReads | cmd/singbox-helper/main.go:63-67 | what a restarted server holds |
| Agreement.WithoutPath | internal/web/handlers.go:398-404 | without a settings path an accepted POST keeps agreement exactly when it posts what is loaded anyway |
| Server.Server.constructor | cmd/singbox-helper/main.go:63-67 | the server starts with what the settings file loads as, or the defaults |
| Server.Server.HandleApply | internal/web/handlers.go:176-258 | performs the specified steps, memory change and reply, with a trim list that is a listing of the directory |
| Server.Server.ApplyRendered | internal/web/handlers.go:215-255 | the part of Apply after its snapshot |
| Server.Server.HandleSettingsPost | internal/web/handlers.go:387-440 | performs the specified steps, memory change and reply |
| Server.Server.HandleRestore | internal/web/handlers.go:599-626 | performs the specified steps and reply |
| Server.Server.HandleDelete | internal/web/handlers.go:584-594 | performs the specified steps and reply |
| Server.Server.HandleStatus | internal/web/handlers.go:65-107 | reports the specified node, managed only when the state's URI parses to its address |
| SettingsRace.SettingsAreNeverTorn | internal/web/server.go:52-65 | in every interleaving of POSTs and readers, memory and every snapshot are the initial settings or one whole accepted value |
| SettingsRace.WordsAreInjective | internal/config/settings.go:10-34 | helper: the fields copied one by one determine the settings |
| SettingsRace.FileAndMemoryAgreeIff | internal/web/handlers.go:398-404 | in every interleaving that comes to rest file and memory are whole accepted values, and agree exactly when the last save and the last assignment carried equal ones |
| SettingsRace.FileAndMemoryCanDiffer | internal/web/handlers.go:398-404 | for any two different accepted values an interleaving that leaves one in the file and the other in memory |

## Left out

- HTTP routing, methods, status codes and embedded assets; invalid request bodies appear only as a rejected POST.
- The test, preview and log endpoints: they change no files.
- Process, network and curl probes and the init script: restart and reachability are arbitrary answers.
- `probe.LANIP`: its answer is an input; only the choice of the listen address is modelled.
- The command-line mode and its own copy of Create.
- The text level of JSON, YAML and regular expressions: documents are trees, the UUID pattern is a direct predicate, and half-written files are arbitrary bodies.
- Case-insensitive JSON keys and YAML's conversion of scalars between types; object keys are one constructor per struct tag.
- The text of error messages and UI notes: they are tags. Whether the restart after a Restore worked is not part of its reply here. Sizes in backup entries and protocol labels are not modelled, and a summary is the outbound its text is made of.
- Symbolic links, permissions, overlapping saves to one temporary name, and overlapping Applies. Interleavings are modelled for the log buffer and the settings only, and a save among them takes effect in one step.
- Times in the state file are kept as instants rather than RFC 3339 text; integers have no machine width, since every value that matters is range-checked.
- LogRing.Buffer.Write: a Go slice that grows up to max is an array of capacity max with a count; growing it is not modelled.
- Managed.LiveRefinesItsInputs: Restore is excluded, as it makes some earlier body live on purpose.
- Vless.EveryWellFormedIsParsed: the URI is a split record; which host texts `url.Parse` can return is not modelled, as `net/url` is not part of this model.
- Hysteria2.EveryWellFormedIsParsed: the same.
- Socks.EveryWellFormedIsParsed: the same.
- Retention.RetentionHolds: a bound; the exact count is given for requests that run to their end, not for those a crash cuts short.
