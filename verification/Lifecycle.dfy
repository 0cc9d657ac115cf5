/** The requests that change files: Apply, settings POST, Restore and Delete
    (internal/web/handlers.go). Each is the sequence of file steps it performs, together
    with what becomes of the in-memory settings and what the client is told. */
module Lifecycle {
  import opened Wrappers
  import opened Calendar
  import opened Disk
  import opened Backups
  import opened Saves
  import opened Settings
  import Stamps
  import Nodes
  import Links
  import Render
  import Readback

  /** The server's fixed parts: config path, backups to keep (0 for all), whether there is
      a settings path, and the library calls of the parsers. */
  datatype Site = Site(cfg: string, keep: int, persist: bool, lib: Nodes.Library)

  /** What the live file was last rendered from. */
  datatype Written = Written(settings: Settings, lan: Option<string>)

  /** Files, in-memory settings, and a history variable for the last live write. */
  datatype Sys = Sys(files: Files, memory: Settings, wrote: Option<Written>)

  /** Answers of the environment to one Apply: the LAN address, the reachability probe, the
      steps' fates, the restart, the time recorded in the state, and how the directory is
      listed for trimming. */
  datatype ApplyEnv = ApplyEnv(lan: Option<string>, reachable: bool, snapshot: Snapshot, mkdirs: bool,
                               write: Write, restarts: bool, save: SaveEnv, at: int,
                               lists: bool, hidden: set<string>, order: seq<string>, stuck: set<string>)

  datatype PostEnv = PostEnv(save: SaveEnv, readable: bool, lan: Option<string>, snapshot: Snapshot,
                             write: Write, restarts: bool)

  /** A request; a POST body of None is one that is not a settings object. */
  datatype Event =
    | Apply(raw: string, applyEnv: ApplyEnv)
    | Post(body: Option<Settings>, postEnv: PostEnv)
    | Restore(file: string, restoreEnv: RestoreEnv)
    | Delete(target: string, removes: bool)

  datatype Problem = NoSnapshot | NoDirectory | NoWrite

  datatype Reply =
    | Refused(why: Nodes.Refusal)
    | Failed(problem: Problem)
    | Applied(backup: Option<string>, reachOk: bool, restarted: bool, stateSaved: bool, trimmed: bool)
    | Rejected
    | NotSaved
    | Posted(reRendered: bool, restarted: bool, trouble: Option<Problem>)
    | StoreFailed(error: StoreError)
    | Restored(previous: Option<string>)
    | Deleted

  datatype Outcome = Outcome(steps: seq<Step>, memory: Settings, wrote: Option<Written>, reply: Reply)

  function Rendered(n: Nodes.ParsedNode, s: Settings, lan: Option<string>): Body
  {
    Doc(Render.RenderJson(n.outbound, s, lan))
  }

  // -------------------------------------------------------------------------
  // Apply
  // -------------------------------------------------------------------------

  function LiveSteps(n: Nodes.ParsedNode, s: Settings, lan: Option<string>, w: Write): seq<Step>
  {
    WriteSteps(Live, w, Rendered(n, s, lan))
  }

  /** The steps between snapshot and trim. */
  function ApplyMiddle(sys: Sys, raw: string, n: Nodes.ParsedNode, e: ApplyEnv): seq<Step>
  {
    if !e.mkdirs then []
    else
      LiveSteps(n, sys.memory, e.lan, e.write)
      + if !e.write.Works() then [] else SaveStateSteps(State(raw, n.nodeLabel, e.at), e.save)
  }

  predicate ReachesTrim(site: Site, e: ApplyEnv)
  {
    e.mkdirs && e.write.Works() && site.keep > 0 && e.lists
  }

  function ApplyTrim(site: Site, e: ApplyEnv): seq<Step>
  {
    if ReachesTrim(site, e) then TrimSteps(e.order, site.keep, e.stuck) else []
  }

  function ApplyReply(site: Site, backup: Option<string>, e: ApplyEnv): Reply
  {
    if !e.mkdirs then Failed(NoDirectory)
    else if !e.write.Works() then Failed(NoWrite)
    else Applied(backup, e.reachable, e.restarts, e.save.Works(), site.keep <= 0 || e.lists)
  }

  function ApplyOutcome(site: Site, sys: Sys, raw: string, e: ApplyEnv): Outcome
  {
    match Links.Node(raw, site.lib)
    case Failure(why) => Outcome([], sys.memory, sys.wrote, Refused(why))
    case Success(n) =>
      var c := CreateRun(sys.files, e.snapshot);
      if c.result.Failure? then Outcome(c.steps, sys.memory, sys.wrote, Failed(NoSnapshot))
      else
        Outcome(c.steps + (ApplyMiddle(sys, raw, n, e) + ApplyTrim(site, e)), sys.memory,
                if e.mkdirs && e.write.Works() then Some(Written(sys.memory, e.lan)) else sys.wrote,
                ApplyReply(site, c.result.value, e))
  }

  // -------------------------------------------------------------------------
  // Settings POST
  // -------------------------------------------------------------------------

  function PostSave(site: Site, s: Settings, e: PostEnv): seq<Step>
  {
    if site.persist then SaveSettingsSteps(s, e.save) else []
  }

  /** The node a POST re-renders: the one of the state file, whatever is live. */
  function NodeToRender(site: Site, f: Files, readable: bool): Option<Nodes.ParsedNode>
  {
    if !readable then None
    else
      match LoadState(f)
      case Failure(_) => None
      case Success(None) => None
      case Success(Some(st)) =>
        match Links.Node(st.uri, site.lib) case Failure(_) => None case Success(n) => Some(n)
  }

  function PostOutcome(site: Site, sys: Sys, body: Option<Settings>, e: PostEnv): Outcome
  {
    if body.None? || !ValidSettings(body.value) then Outcome([], sys.memory, sys.wrote, Rejected)
    else
      var s := body.value;
      var saved := PostSave(site, s, e);
      if site.persist && !e.save.Works() then Outcome(saved, sys.memory, sys.wrote, NotSaved)
      else
        var f := Exec(sys.files, saved);
        match NodeToRender(site, f, e.readable)
        case None => Outcome(saved, s, sys.wrote, Posted(false, false, None))
        case Some(n) =>
          var c := CreateRun(f, e.snapshot);
          if c.result.Failure? then
            Outcome(saved + c.steps, s, sys.wrote, Posted(false, false, Some(NoSnapshot)))
          else
            var w := LiveSteps(n, s, e.lan, e.write);
            if e.write.Works() then
              Outcome(saved + c.steps + w, s, Some(Written(s, e.lan)), Posted(true, e.restarts, None))
            else Outcome(saved + c.steps + w, s, sys.wrote, Posted(false, false, Some(NoWrite)))
  }

  // -------------------------------------------------------------------------
  // All requests
  // -------------------------------------------------------------------------

  function EventOutcome(site: Site, sys: Sys, ev: Event): Outcome
  {
    match ev
    case Apply(raw, e) => ApplyOutcome(site, sys, raw, e)
    case Post(body, e) => PostOutcome(site, sys, body, e)
    case Restore(file, e) =>
      var r := RestoreRun(sys.files, site.cfg, file, e);
      Outcome(r.steps, sys.memory, if r.result.Success? then None else sys.wrote,
              if r.result.Success? then Restored(r.result.value) else StoreFailed(r.result.error))
    case Delete(file, removes) =>
      var r := DeleteRun(sys.files, site.cfg, file, removes);
      Outcome(r.steps, sys.memory, sys.wrote,
              if r.result.Success? then Deleted else StoreFailed(r.result.error))
  }

  /** A request together with the number of file steps after which the process dies. */
  datatype Happening = Happening(ev: Event, crash: Option<nat>)

  /** The settings a restarted server starts with. */
  function Reload(site: Site, f: Files): Settings
  {
    if !site.persist then DEFAULTS
    else match LoadSettings(f) case Success(s) => s case Failure(_) => DEFAULTS
  }

  /** The files after the first i steps of a request. */
  function FilesAfter(site: Site, sys: Sys, ev: Event, i: nat): Files
  {
    var steps := EventOutcome(site, sys, ev).steps;
    Exec(sys.files, steps[..if i < |steps| then i else |steps|])
  }

  function Next(site: Site, sys: Sys, h: Happening): Sys
  {
    var o := EventOutcome(site, sys, h.ev);
    match h.crash
    case None => Sys(Exec(sys.files, o.steps), o.memory, o.wrote)
    case Some(i) =>
      var f := FilesAfter(site, sys, h.ev, i);
      Sys(f, Reload(site, f), None)
  }

  /** The clock reading a request takes for its snapshot. */
  function Reading(ev: Event): Option<Civil>
  {
    match ev
    case Apply(_, e) => Some(e.snapshot.now)
    case Post(_, e) => Some(e.snapshot.now)
    case Restore(_, e) => Some(e.snapshot.now)
    case Delete(_, _) => None
  }

  function InstantOf(c: Civil): int { Stamps.NANOS * Seconds(c) }

  /** The directory that Apply lists for trimming. */
  function FilesAtTrim(site: Site, sys: Sys, raw: string, e: ApplyEnv): Files
  {
    match Links.Node(raw, site.lib)
    case Failure(_) => sys.files
    case Success(n) => Exec(sys.files, CreateRun(sys.files, e.snapshot).steps + ApplyMiddle(sys, raw, n, e))
  }

  /** The Apply gets as far as trimming. */
  predicate Trims(site: Site, sys: Sys, raw: string, e: ApplyEnv)
  {
    Links.Node(raw, site.lib).Success? && CreateRun(sys.files, e.snapshot).result.Success? && ReachesTrim(site, e)
  }

  /** The environment's answers fit: clock readings are valid times later than clock, and a
      listing is one of the directory as it then is. */
  ghost predicate Fits(site: Site, sys: Sys, clock: int, ev: Event)
  {
    && (Reading(ev).Some? ==> IsCivil(Reading(ev).value) && clock < InstantOf(Reading(ev).value))
    && (ev.Apply? && Trims(site, sys, ev.raw, ev.applyEnv) ==>
          IsListing(FilesAtTrim(site, sys, ev.raw, ev.applyEnv), ev.applyEnv.hidden, ev.applyEnv.order))
  }

  function ClockAfter(clock: int, ev: Event): int
  {
    if Reading(ev).Some? then InstantOf(Reading(ev).value) else clock
  }

  /** A serial run: strictly increasing clock readings, fitting answers, crashes anywhere. */
  ghost predicate IsRun(site: Site, sys: Sys, clock: int, hs: seq<Happening>)
    decreases |hs|
  {
    hs == [] || (Fits(site, sys, clock, hs[0].ev)
                 && IsRun(site, Next(site, sys, hs[0]), ClockAfter(clock, hs[0].ev), hs[1..]))
  }

  function After(site: Site, sys: Sys, hs: seq<Happening>): Sys
    decreases |hs|
  {
    if hs == [] then sys else After(site, Next(site, sys, hs[0]), hs[1..])
  }

  // -------------------------------------------------------------------------
  // Status
  // -------------------------------------------------------------------------

  /** current_node of /api/status. */
  datatype NodeInfo = NodeInfo(managed: bool, uri: string, infoLabel: string, appliedAt: Option<int>,
                               kind: string, server: string, port: int)

  function CurrentOf(f: Files): Option<Readback.Snapshot>
  {
    if Live in f && f[Live].Doc? then Readback.ReadCurrent(f[Live].doc) else None
  }

  /** The state record status trusts: it parses to the server and port that are live. */
  function Matching(site: Site, f: Files, current: Readback.Snapshot): Option<State>
  {
    match LoadState(f)
    case Failure(_) => None
    case Success(None) => None
    case Success(Some(st)) =>
      match Links.Node(st.uri, site.lib)
      case Failure(_) => None
      case Success(n) =>
        if n.outbound.server == current.server && n.outbound.serverPort == current.serverPort then Some(st)
        else None
  }

  function Status(site: Site, f: Files): Option<NodeInfo>
  {
    match CurrentOf(f)
    case None => None
    case Some(c) =>
      match Matching(site, f, c)
      case None => Some(NodeInfo(false, "", "", None, c.kind, c.server, c.serverPort))
      case Some(st) => Some(NodeInfo(true, st.uri, st.stateLabel, Some(st.appliedAt), c.kind, c.server, c.serverPort))
  }
}
