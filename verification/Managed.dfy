/** What status may claim: in quiet runs the live file is the rendering of the state file's
    URI, and what settings POSTs do to the reported node in any run. */
module Managed {
  import opened Wrappers
  import opened Disk
  import opened Backups
  import opened Saves
  import opened Settings
  import opened Lifecycle
  import Json
  import Links
  import Nodes
  import NodeCodec
  import Readback
  import Render
  import Runs
  import Stamps
  import BackupNames

  // -------------------------------------------------------------------------
  // The live file refines its inputs
  // -------------------------------------------------------------------------

  /** A request of a quiet run: no Restore, no crash, and no live write or state save
      fails. Snapshots, settings saves, restarts and trims may fail. */
  predicate Quiet(h: Happening)
  {
    && h.crash.None?
    && match h.ev
       case Apply(_, e) => e.write.Works() && e.save.Works()
       case Post(_, e) => e.write.Works()
       case Restore(_, _) => false
       case Delete(_, _) => true
  }

  /** Live is what Render makes of the node of the state file's URI and of what it was last
      written from. */
  ghost predicate LiveIsRendered(site: Site, sys: Sys)
  {
    match LoadState(sys.files)
    case Success(Some(st)) =>
      && Links.Node(st.uri, site.lib).Success?
      && sys.wrote.Some? && Live in sys.files
      && sys.files[Live] == Rendered(Links.Node(st.uri, site.lib).value, sys.wrote.value.settings, sys.wrote.value.lan)
    case _ => false
  }

  /** Nothing was applied yet, or live is rendered from the state. */
  ghost predicate Consistent(site: Site, sys: Sys)
  {
    || (Live !in sys.files && StateFile !in sys.files && sys.wrote.None?)
    || LiveIsRendered(site, sys)
  }

  lemma StatusOfRendered(site: Site, f: Files, st: State, s: Settings, lan: Option<string>)
    requires LoadState(f) == Success(Some(st)) && Links.Node(st.uri, site.lib).Success?
    requires Live in f && f[Live] == Rendered(Links.Node(st.uri, site.lib).value, s, lan)
    ensures var o := Links.Node(st.uri, site.lib).value.outbound;
      Status(site, f) == Some(NodeInfo(true, st.uri, st.stateLabel, Some(st.appliedAt), o.kind, o.server, o.serverPort))
  {
    hide Links.Node, LoadState, Render.RenderJson, Readback.ReadCurrent;
    var n := Links.Node(st.uri, site.lib).value;
    Links.NodesAreProxies(st.uri, site.lib);
    Readback.RenderReadsBack(n.outbound, s, lan);
  }

  /** The middle of an Apply whose live write works. */
  lemma MiddleEnds(f: Files, sys: Sys, raw: string, n: Nodes.ParsedNode, e: ApplyEnv)
    requires e.mkdirs && e.write.Works()
    ensures var g := Exec(f, ApplyMiddle(sys, raw, n, e));
      && Live in g && g[Live] == Rendered(n, sys.memory, e.lan)
      && LoadState(g) == if e.save.Works() then Success(Some(State(raw, n.nodeLabel, e.at))) else LoadState(f)
  {
    hide Rendered, LoadState, SaveSteps, EncodeState, Exec;
    var st := State(raw, n.nodeLabel, e.at);
    var w, s := LiveSteps(n, sys.memory, e.lan, e.write), SaveStateSteps(st, e.save);
    ExecAppend(f, w, s);
    WriteStepsEnd(f, Live, e.write, Rendered(n, sys.memory, e.lan));
    var g := Exec(f, w);
    assert s[..|s|] == s;
    StateSaveIsAtomic(g, st, e.save, |s|);
    Runs.LiveStepsTouch(n, sys.memory, e.lan, e.write, StateFile);
    UntouchedStays(f, w, StateFile);
    SameState(g, f);
    Runs.SavesTouchNoBackup(StateFile, StateTmp, Doc(EncodeState(st)), false, e.save, Live);
    UntouchedStays(g, s, Live);
  }

  lemma TrimTouchesOnlyBackups(site: Site, e: ApplyEnv, slot: Slot)
    requires !slot.Backup?
    ensures Untouched(ApplyTrim(site, e), slot)
  {
  }

  /** An Apply whose live write and state save worked. */
  predicate AppliedFully(site: Site, sys: Sys, raw: string, e: ApplyEnv)
  {
    var r := ApplyOutcome(site, sys, raw, e).reply;
    r.Applied? && r.stateSaved
  }

  /** What an Apply leaves when its live write worked: its own record in the state file, or
      the record that was there if the state save failed. */
  lemma ApplyEnds(site: Site, sys: Sys, raw: string, e: ApplyEnv)
    requires ApplyOutcome(site, sys, raw, e).reply.Applied?
    ensures Links.Node(raw, site.lib).Success? && e.mkdirs && e.write.Works()
    ensures var n := Links.Node(raw, site.lib).value;
      var o := ApplyOutcome(site, sys, raw, e);
      var g := Exec(sys.files, o.steps);
      && Live in g && g[Live] == Rendered(n, sys.memory, e.lan)
      && LoadState(g)
         == if o.reply.stateSaved then Success(Some(State(raw, n.nodeLabel, e.at))) else LoadState(sys.files)
  {
    hide Links.Node, LoadState, Rendered, CreateRun, ApplyMiddle, ApplyTrim, Exec, Untouched, Stamps.Format;
    var n := Links.Node(raw, site.lib).value;
    var c, m, t := CreateRun(sys.files, e.snapshot).steps, ApplyMiddle(sys, raw, n, e), ApplyTrim(site, e);
    var f := Exec(sys.files, c);
    ExecAppend(sys.files, c, m + t);
    ExecAppend(f, m, t);
    MiddleEnds(f, sys, raw, n, e);
    TrimTouchesOnlyBackups(site, e, Live);
    TrimTouchesOnlyBackups(site, e, StateFile);
    UntouchedStays(Exec(f, m), t, Live);
    UntouchedStays(Exec(f, m), t, StateFile);
    SameState(Exec(Exec(f, m), t), Exec(f, m));
    CreateTouches(sys.files, e.snapshot, StateFile);
    UntouchedStays(sys.files, c, StateFile);
    SameState(f, sys.files);
  }

  /** The first outbound of a configuration file, decoded whole. */
  function LiveOutbound(b: Body): Option<Nodes.Outbound>
  {
    if b.Raw? || !b.doc.JObj? then None
    else
      match Json.At(b.doc.fields, Json.Outbounds)
      case Some(JArr(items)) => if items == [] then None else NodeCodec.DecodeOutbound(items[0])
      case _ => None
  }

  /** Apply, then status: after an Apply whose live write and state save worked, the first
      outbound of the live document decodes to exactly the parsed one, and status reports
      that node as managed with the URI, label and time of the Apply. */
  lemma AppliedNodeReadsBack(site: Site, sys: Sys, raw: string, e: ApplyEnv)
    requires AppliedFully(site, sys, raw, e)
    ensures Links.Node(raw, site.lib).Success?
    ensures var n := Links.Node(raw, site.lib).value;
      var o, f := n.outbound, Next(site, sys, Happening(Apply(raw, e), None)).files;
      && Live in f && LiveOutbound(f[Live]) == Some(o)
      && Status(site, f) == Some(NodeInfo(true, raw, n.nodeLabel, Some(e.at), o.kind, o.server, o.serverPort))
      && Readback.Summarise(f[Live].doc) == CurrentOf(f)
  {
    hide ApplyOutcome, Links.Node, LoadState, Render.RenderJson, Exec, NodeCodec.DecodeOutbound, Readback.ReadCurrent,
      Readback.Summarise, Status;
    ApplyEnds(site, sys, raw, e);
    Links.NodesAreProxies(raw, site.lib);
    var n, f := Links.Node(raw, site.lib).value, Next(site, sys, Happening(Apply(raw, e), None)).files;
    Readback.RenderReadsBack(n.outbound, sys.memory, e.lan);
    StatusOfRendered(site, f, State(raw, n.nodeLabel, e.at), sys.memory, e.lan);
  }

  /** An Apply that stops before its live write leaves live and state alone. */
  lemma ApplyStops(site: Site, sys: Sys, raw: string, e: ApplyEnv)
    requires !ApplyOutcome(site, sys, raw, e).reply.Applied? && e.write.Works()
    ensures var o := ApplyOutcome(site, sys, raw, e);
      && Same(Exec(sys.files, o.steps), sys.files, Live)
      && Same(Exec(sys.files, o.steps), sys.files, StateFile)
      && o.wrote == sys.wrote
  {
    hide Links.Node, CreateRun, ApplyMiddle, ApplyTrim, Exec, Untouched, Stamps.Format;
    var node := Links.Node(raw, site.lib);
    var c := CreateRun(sys.files, e.snapshot);
    CreateTouches(sys.files, e.snapshot, Live);
    CreateTouches(sys.files, e.snapshot, StateFile);
    UntouchedStays(sys.files, c.steps, Live);
    UntouchedStays(sys.files, c.steps, StateFile);
    Runs.ExecNothing(sys.files);
    if node.Success? && c.result.Success? {
      NoMiddle(site, sys, raw, node.value, e);
      assert c.steps + ([] + []) == c.steps;
    }
  }

  lemma ApplyKeepsConsistent(site: Site, sys: Sys, raw: string, e: ApplyEnv)
    requires Consistent(site, sys) && e.write.Works() && e.save.Works()
    ensures Consistent(site, Next(site, sys, Happening(Apply(raw, e), None)))
  {
    hide Links.Node, LoadState, Rendered, CreateRun, ApplyMiddle, ApplyTrim, Exec, Stamps.Format;
    if ApplyOutcome(site, sys, raw, e).reply.Applied? {
      ApplyEnds(site, sys, raw, e);
    } else {
      ApplyStops(site, sys, raw, e);
      SameState(Exec(sys.files, ApplyOutcome(site, sys, raw, e).steps), sys.files);
    }
  }

  lemma NoMiddle(site: Site, sys: Sys, raw: string, n: Nodes.ParsedNode, e: ApplyEnv)
    requires !e.mkdirs
    ensures ApplyMiddle(sys, raw, n, e) == [] && ApplyTrim(site, e) == []
  {
  }

  /** What a reply that claims a re-rendering means for the disk: the live file is now
      rendered from the state file's node and the settings that are in memory, which are
      the posted ones; the state file is as before. */
  lemma ReRenderedMeansInMemory(site: Site, sys: Sys, body: Option<Settings>, e: PostEnv)
    requires var r := PostOutcome(site, sys, body, e).reply; r.Posted? && r.reRendered
    ensures body.Some? && LoadState(sys.files).Success? && LoadState(sys.files).value.Some?
    ensures var o, st := PostOutcome(site, sys, body, e), LoadState(sys.files).value.value;
      var g := Exec(sys.files, o.steps);
      && Links.Node(st.uri, site.lib).Success?
      && o.memory == body.value && o.wrote == Some(Written(body.value, e.lan))
      && LoadState(g) == Success(Some(st))
      && Live in g && g[Live] == Rendered(Links.Node(st.uri, site.lib).value, o.memory, e.lan)
  {
    hide Links.Node, Rendered, CreateRun, PostSave, Exec, Untouched, ValidSettings, LoadState, Stamps.Format;
    var s := body.value;
    var saved := PostSave(site, s, e);
    var f := Exec(sys.files, saved);
    Runs.PostSaveTouches(site, s, e, StateFile);
    UntouchedStays(sys.files, saved, StateFile);
    SameState(f, sys.files);
    var n := NodeToRender(site, f, e.readable).value;
    var c, w := CreateRun(f, e.snapshot).steps, LiveSteps(n, s, e.lan, e.write);
    ExecAppend(sys.files, saved + c, w);
    ExecAppend(sys.files, saved, c);
    WriteStepsEnd(Exec(f, c), Live, e.write, Rendered(n, s, e.lan));
    CreateTouches(f, e.snapshot, StateFile);
    UntouchedStays(f, c, StateFile);
    Runs.LiveStepsTouch(n, s, e.lan, e.write, StateFile);
    UntouchedStays(Exec(f, c), w, StateFile);
    SameState(Exec(Exec(f, c), w), f);
  }

  /** A POST that does not re-render, in a quiet run, leaves live and state alone. */
  lemma SilentPost(site: Site, sys: Sys, body: Option<Settings>, e: PostEnv)
    requires var r := PostOutcome(site, sys, body, e).reply; !(r.Posted? && r.reRendered)
    requires e.write.Works()
    ensures var o := PostOutcome(site, sys, body, e);
      && Same(Exec(sys.files, o.steps), sys.files, Live)
      && Same(Exec(sys.files, o.steps), sys.files, StateFile)
      && o.wrote == sys.wrote
  {
    hide Links.Node, Rendered, CreateRun, PostSave, Exec, Untouched, ValidSettings, NodeToRender, Stamps.Format;
    var o := PostOutcome(site, sys, body, e);
    Runs.ExecNothing(sys.files);
    if body.Some? {
      var saved := PostSave(site, body.value, e);
      var f := Exec(sys.files, saved);
      var c := CreateRun(f, e.snapshot).steps;
      ExecAppend(sys.files, saved, c);
      Runs.PostSaveTouches(site, body.value, e, StateFile);
      Runs.PostSaveTouches(site, body.value, e, Live);
      CreateTouches(f, e.snapshot, StateFile);
      CreateTouches(f, e.snapshot, Live);
      UntouchedStays(sys.files, saved, StateFile);
      UntouchedStays(sys.files, saved, Live);
      UntouchedStays(f, c, StateFile);
      UntouchedStays(f, c, Live);
    }
  }

  lemma PostKeepsConsistent(site: Site, sys: Sys, body: Option<Settings>, e: PostEnv)
    requires Consistent(site, sys) && e.write.Works()
    ensures Consistent(site, Next(site, sys, Happening(Post(body, e), None)))
  {
    hide Links.Node, LoadState, Rendered, PostOutcome, Exec;
    var r := PostOutcome(site, sys, body, e).reply;
    if r.Posted? && r.reRendered {
      ReRenderedMeansInMemory(site, sys, body, e);
    } else {
      SilentPost(site, sys, body, e);
      SameState(Next(site, sys, Happening(Post(body, e), None)).files, sys.files);
    }
  }

  lemma DeleteKeepsConsistent(site: Site, sys: Sys, file: string, removes: bool)
    requires Consistent(site, sys)
    ensures Consistent(site, Next(site, sys, Happening(Delete(file, removes), None)))
  {
    hide Links.Node, LoadState, Rendered, Exec, BackupNames.StampOf;
    var steps := DeleteRun(sys.files, site.cfg, file, removes).steps;
    UntouchedStays(sys.files, steps, Live);
    UntouchedStays(sys.files, steps, StateFile);
    SameState(Exec(sys.files, steps), sys.files);
  }

  lemma QuietStepKeepsConsistent(site: Site, sys: Sys, h: Happening)
    requires Consistent(site, sys) && Quiet(h)
    ensures Consistent(site, Next(site, sys, h))
  {
    hide Next, Consistent;
    assert h == Happening(h.ev, None);
    match h.ev
    case Apply(raw, e) => ApplyKeepsConsistent(site, sys, raw, e);
    case Post(body, e) => PostKeepsConsistent(site, sys, body, e);
    case Delete(file, removes) => DeleteKeepsConsistent(site, sys, file, removes);
  }

  lemma {:induction false} QuietRunKeepsConsistent(site: Site, sys: Sys, hs: seq<Happening>)
    requires Consistent(site, sys) && forall h :: h in hs ==> Quiet(h)
    ensures Consistent(site, After(site, sys, hs))
    decreases |hs|
  {
    hide Next, Consistent;
    if hs == [] {
    } else {
      assert Quiet(hs[0]);
      QuietStepKeepsConsistent(site, sys, hs[0]);
      QuietRunKeepsConsistent(site, Next(site, sys, hs[0]), hs[1..]);
    }
  }

  /** From an empty disk, after any quiet run in which something is live, the live file is
      the rendering of the state file's URI with the settings and LAN address of the last
      live write, and status reports that node as managed under that URI. */
  lemma LiveRefinesItsInputs(site: Site, memory: Settings, hs: seq<Happening>)
    requires forall h :: h in hs ==> Quiet(h)
    ensures var sys := After(site, Sys(map[], memory, None), hs);
      Live in sys.files ==>
        && LiveIsRendered(site, sys)
        && Status(site, sys.files).Some? && Status(site, sys.files).value.managed
        && Status(site, sys.files).value.uri == LoadState(sys.files).value.value.uri
  {
    hide After, Links.Node, LoadState, Rendered, Status;
    var start := Sys(map[], memory, None);
    QuietRunKeepsConsistent(site, start, hs);
    var sys := After(site, start, hs);
    if Live in sys.files {
      var st := LoadState(sys.files).value.value;
      StatusOfRendered(site, sys.files, st, sys.wrote.value.settings, sys.wrote.value.lan);
    }
  }

  // -------------------------------------------------------------------------
  // Settings POSTs and the reported node
  // -------------------------------------------------------------------------

  /** A POST that re-renders always ends managed with the state file's URI. It keeps the
      server and port that status reports exactly when status was managed before. */
  lemma PostKeepsNodeIffManaged(site: Site, sys: Sys, body: Option<Settings>, e: PostEnv)
    requires var r := PostOutcome(site, sys, body, e).reply; r.Posted? && r.reRendered
    requires Status(site, sys.files).Some?
    ensures var g := Exec(sys.files, PostOutcome(site, sys, body, e).steps);
      var was, now := Status(site, sys.files), Status(site, g);
      && LoadState(sys.files).Success? && LoadState(sys.files).value.Some?
      && now.Some? && now.value.managed && now.value.uri == LoadState(sys.files).value.value.uri
      && ((now.value.server, now.value.port) == (was.value.server, was.value.port) <==> was.value.managed)
  {
    hide PostOutcome, Links.Node, Rendered, LoadState, Exec, CurrentOf;
    ReRenderedMeansInMemory(site, sys, body, e);
    var g := Exec(sys.files, PostOutcome(site, sys, body, e).steps);
    StatusOfRendered(site, g, LoadState(g).value.value, body.value, e.lan);
  }

  /** Applying node A and later node B, restoring the configuration of A and then posting
      settings puts B live again: the re-rendering follows the state file, although status
      just before it did not call the running node managed. */
  lemma PostAfterRestoreSwitchesNode(site: Site, sys: Sys, a: Nodes.ParsedNode, s: Settings, lan: Option<string>,
                                     body: Option<Settings>, e: PostEnv)
    requires a.outbound.tag == "proxy"
    requires Live in sys.files && sys.files[Live] == Rendered(a, s, lan)
    requires LoadState(sys.files).Success? && LoadState(sys.files).value.Some?
    requires var b := Links.Node(LoadState(sys.files).value.value.uri, site.lib);
      b.Success? && (b.value.outbound.server, b.value.outbound.serverPort) != (a.outbound.server, a.outbound.serverPort)
    requires var r := PostOutcome(site, sys, body, e).reply; r.Posted? && r.reRendered
    ensures var g := Exec(sys.files, PostOutcome(site, sys, body, e).steps);
      var was, now := Status(site, sys.files), Status(site, g);
      var b := Links.Node(LoadState(sys.files).value.value.uri, site.lib).value.outbound;
      && was.Some? && !was.value.managed
      && (was.value.server, was.value.port) == (a.outbound.server, a.outbound.serverPort)
      && now.Some? && now.value.managed && (now.value.server, now.value.port) == (b.server, b.serverPort)
  {
    hide PostOutcome, Links.Node, LoadState, Exec, Render.RenderJson, Readback.ReadCurrent;
    Readback.RenderReadsBack(a.outbound, s, lan);
    ReRenderedMeansInMemory(site, sys, body, e);
    var g := Exec(sys.files, PostOutcome(site, sys, body, e).steps);
    StatusOfRendered(site, g, LoadState(g).value.value, body.value, e.lan);
  }

  /** The snapshot an Apply takes, if still there at its end, is the replaced body. */
  lemma ApplySnapshot(site: Site, sys: Sys, raw: string, e: ApplyEnv)
    requires Live in sys.files && ApplyOutcome(site, sys, raw, e).reply.Applied?
    ensures var g, k := Exec(sys.files, ApplyOutcome(site, sys, raw, e).steps), Backup(NameOf(e.snapshot));
      k in g ==> g[k] == sys.files[Live]
  {
    hide Links.Node, CreateRun, ApplyMiddle, TrimSteps, Exec, Stamps.Format, ReachesTrim;
    var n, k := Links.Node(raw, site.lib).value, NameOf(e.snapshot);
    var c, m, t := CreateRun(sys.files, e.snapshot).steps, ApplyMiddle(sys, raw, n, e), ApplyTrim(site, e);
    CreateMakesCopy(sys.files, e.snapshot);
    ExecAppend(sys.files, c, m + t);
    Runs.MiddleTouchesNoBackup(sys, raw, n, e, k);
    Runs.TrimOnlyRemoves(site, e, k);
    OnlyRemovedStays(Exec(sys.files, c), m + t, Backup(k));
  }

  /** Apply(A) on s0, Apply(B) and Restore of the configuration that B's Apply replaced, all
      successful, end in s3. */
  ghost predicate RestoresFirst(site: Site, clock: int, s0: Sys, rawA: string, eA: ApplyEnv, rawB: string, eB: ApplyEnv,
                                back: RestoreEnv, s3: Sys)
  {
    var s1 := Next(site, s0, Happening(Apply(rawA, eA), None));
    var s2 := Next(site, s1, Happening(Apply(rawB, eB), None));
    var restore := Restore(Runs.PathOf(site, NameOf(eB.snapshot)), back);
    && site.cfg != "" && site.cfg[|site.cfg| - 1] != '/'
    && AppliedFully(site, s0, rawA, eA) && AppliedFully(site, s1, rawB, eB)
    && Fits(site, s1, clock, Apply(rawB, eB))
    && EventOutcome(site, s2, restore).reply.Restored?
    && s3 == Next(site, s2, Happening(restore, None))
  }

  /** Then A's rendering is live and B is recorded. */
  lemma RestoredFirst(site: Site, clock: int, s0: Sys, rawA: string, eA: ApplyEnv, rawB: string, eB: ApplyEnv,
                      back: RestoreEnv, s3: Sys)
    requires RestoresFirst(site, clock, s0, rawA, eA, rawB, eB, back, s3)
    ensures Links.Node(rawA, site.lib).Success? && Links.Node(rawB, site.lib).Success?
    ensures Live in s3.files && s3.files[Live] == Rendered(Links.Node(rawA, site.lib).value, s0.memory, eA.lan)
    ensures LoadState(s3.files) == Success(Some(State(rawB, Links.Node(rawB, site.lib).value.nodeLabel, eB.at)))
  {
    hide ApplyOutcome, RestoreRun, Links.Node, LoadState, Exec, Rendered, Stamps.Format, Fits, BackupNames.StampOf;
    var s1 := Next(site, s0, Happening(Apply(rawA, eA), None));
    var s2 := Next(site, s1, Happening(Apply(rawB, eB), None));
    var file := Runs.PathOf(site, NameOf(eB.snapshot));
    ApplyEnds(site, s0, rawA, eA);
    ApplyEnds(site, s1, rawB, eB);
    ApplySnapshot(site, s1, rawB, eB);
    Runs.OwnPathBelongs(site, s1, clock, Apply(rawB, eB));
    RestoreReplaces(s2.files, site.cfg, file, back);
    Runs.RestoreTouches(s2.files, site.cfg, file, back, StateFile);
    UntouchedStays(s2.files, RestoreRun(s2.files, site.cfg, file, back).steps, StateFile);
    SameState(s3.files, s2.files);
  }

  /** A settings POST that re-renders then: while A is back, status reports A's address and
      does not call it managed; the POST ends at B. */
  lemma RestoredNodeIsReplacedByPost(site: Site, clock: int, s0: Sys, rawA: string, eA: ApplyEnv,
                                     rawB: string, eB: ApplyEnv, back: RestoreEnv, s3: Sys,
                                     body: Option<Settings>, e: PostEnv)
    requires RestoresFirst(site, clock, s0, rawA, eA, rawB, eB, back, s3)
    requires var q := PostOutcome(site, s3, body, e).reply; q.Posted? && q.reRendered
    requires var a, b := Links.Node(rawA, site.lib), Links.Node(rawB, site.lib);
      a.Success? && b.Success? &&
      (a.value.outbound.server, a.value.outbound.serverPort) != (b.value.outbound.server, b.value.outbound.serverPort)
    ensures var a, b := Links.Node(rawA, site.lib).value.outbound, Links.Node(rawB, site.lib).value.outbound;
      var was, now := Status(site, s3.files), Status(site, Next(site, s3, Happening(Post(body, e), None)).files);
      && was.Some? && !was.value.managed && (was.value.server, was.value.port) == (a.server, a.serverPort)
      && now.Some? && now.value.managed && (now.value.server, now.value.port) == (b.server, b.serverPort)
  {
    hide RestoresFirst, PostOutcome, Links.Node, LoadState, Exec, Rendered, Status;
    RestoredFirst(site, clock, s0, rawA, eA, rawB, eB, back, s3);
    Links.NodesAreProxies(rawA, site.lib);
    PostAfterRestoreSwitchesNode(site, s3, Links.Node(rawA, site.lib).value, s0.memory, eA.lan, body, e);
  }
}
