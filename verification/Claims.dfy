/** What status claims about the live node, in every state whose configuration files are
    renderings: it calls the state file's URI the running node exactly when server and port
    agree, and is right exactly when then the whole nodes agree. */
module Claims {
  import opened Wrappers
  import opened Disk
  import opened Backups
  import opened Saves
  import opened Settings
  import opened Lifecycle
  import opened Managed
  import Links
  import Nodes
  import NodeCodec
  import Readback
  import Render
  import Runs
  import Stamps
  import BackupNames

  /** The node of the state file's URI. */
  function Recorded(site: Site, f: Files): Option<Nodes.Outbound>
  {
    match NodeToRender(site, f, true) case None => None case Some(n) => Some(n.outbound)
  }

  predicate SameAddress(a: Nodes.Outbound, b: Nodes.Outbound)
  {
    a.server == b.server && a.serverPort == b.serverPort
  }

  predicate SaysManaged(site: Site, f: Files)
  {
    Status(site, f).Some? && Status(site, f).value.managed
  }

  /** If status calls a URI managed, the node of that URI is the one that is live. */
  predicate ClaimHolds(site: Site, f: Files)
  {
    SaysManaged(site, f) ==>
      var node := Links.Node(Status(site, f).value.uri, site.lib);
      node.Success? && Live in f && LiveOutbound(f[Live]) == Some(node.value.outbound)
  }

  predicate IsRenderingOf(b: Body, a: Nodes.ParsedNode, s: Settings, lan: Option<string>)
  {
    a.outbound.tag == "proxy" && b == Rendered(a, s, lan)
  }

  /** When a rendering of node a is live, status says managed exactly when the node r of the
      state file has a's address, and the claim is true exactly when then r is a. */
  ghost predicate StatusFollows(site: Site, f: Files, a: Nodes.Outbound, r: Option<Nodes.Outbound>)
  {
    && Live in f && LiveOutbound(f[Live]) == Some(a)
    && Status(site, f).Some?
    && (SaysManaged(site, f) <==> r.Some? && SameAddress(r.value, a))
    && (ClaimHolds(site, f) <==> (r.Some? && SameAddress(r.value, a) ==> r.value == a))
  }

  lemma ClaimIsExact(site: Site, f: Files, a: Nodes.ParsedNode, s: Settings, lan: Option<string>)
    requires Live in f && IsRenderingOf(f[Live], a, s, lan)
    ensures StatusFollows(site, f, a.outbound, Recorded(site, f))
  {
    hide Links.Node, LoadState, Render.RenderJson, Readback.ReadCurrent, NodeCodec.DecodeOutbound;
    Readback.RenderReadsBack(a.outbound, s, lan);
  }

  lemma SameRecord(site: Site, f: Files, g: Files)
    requires LoadState(f) == LoadState(g)
    ensures Recorded(site, f) == Recorded(site, g)
  {
    hide Links.Node, LoadState;
  }

  // -------------------------------------------------------------------------
  // Request by request, from guards on the state before it
  // -------------------------------------------------------------------------

  /** After a Restore: decided by the named backup and the state file before it. */
  lemma ClaimAfterRestore(site: Site, sys: Sys, file: string, e: RestoreEnv,
                          a: Nodes.ParsedNode, s: Settings, lan: Option<string>)
    requires EventOutcome(site, sys, Restore(file, e)).reply.Restored?
    requires var b := BackupNames.StampOf(site.cfg, file);
      b.Some? && Backup(b.value) in sys.files && IsRenderingOf(sys.files[Backup(b.value)], a, s, lan)
    ensures StatusFollows(site, Next(site, sys, Happening(Restore(file, e), None)).files, a.outbound,
                          Recorded(site, sys.files))
  {
    hide RestoreRun, Exec, BackupNames.StampOf, Stamps.Format, LoadState, Recorded, StatusFollows, Untouched, Rendered;
    var g := Next(site, sys, Happening(Restore(file, e), None)).files;
    RestoreReplaces(sys.files, site.cfg, file, e);
    Runs.RestoreTouches(sys.files, site.cfg, file, e, StateFile);
    UntouchedStays(sys.files, RestoreRun(sys.files, site.cfg, file, e).steps, StateFile);
    SameState(g, sys.files);
    SameRecord(site, g, sys.files);
    ClaimIsExact(site, g, a, s, lan);
  }

  /** After an Apply that wrote its configuration: true if its state save worked, otherwise
      decided by the new node and the state file before it. */
  lemma ClaimAfterApply(site: Site, sys: Sys, raw: string, e: ApplyEnv)
    requires ApplyOutcome(site, sys, raw, e).reply.Applied?
    ensures Links.Node(raw, site.lib).Success?
    ensures var a := Links.Node(raw, site.lib).value.outbound;
      var saved := ApplyOutcome(site, sys, raw, e).reply.stateSaved;
      StatusFollows(site, Next(site, sys, Happening(Apply(raw, e), None)).files, a,
                    if saved then Some(a) else Recorded(site, sys.files))
  {
    hide ApplyOutcome, Exec, Links.Node, LoadState, StatusFollows, Rendered;
    ApplyEnds(site, sys, raw, e);
    Links.NodesAreProxies(raw, site.lib);
    var g := Next(site, sys, Happening(Apply(raw, e), None)).files;
    ClaimIsExact(site, g, Links.Node(raw, site.lib).value, sys.memory, e.lan);
    if !ApplyOutcome(site, sys, raw, e).reply.stateSaved {
      SameRecord(site, g, sys.files);
    }
  }

  /** After a POST that re-rendered the claim is true. */
  lemma ClaimAfterPost(site: Site, sys: Sys, body: Option<Settings>, e: PostEnv)
    requires var r := PostOutcome(site, sys, body, e).reply; r.Posted? && r.reRendered
    ensures Recorded(site, sys.files).Some?
    ensures StatusFollows(site, Next(site, sys, Happening(Post(body, e), None)).files,
                          Recorded(site, sys.files).value, Recorded(site, sys.files))
  {
    hide PostOutcome, Exec, Links.Node, LoadState, StatusFollows, Rendered;
    ReRenderedMeansInMemory(site, sys, body, e);
    var st := LoadState(sys.files).value.value;
    var g := Next(site, sys, Happening(Post(body, e), None)).files;
    Links.NodesAreProxies(st.uri, site.lib);
    ClaimIsExact(site, g, Links.Node(st.uri, site.lib).value, body.value, e.lan);
    SameRecord(site, g, sys.files);
  }

  /** In the run Apply(A), Apply(B), Restore of A's configuration: status says managed,
      naming B's URI, exactly when A and B share their address, and it is right exactly when
      then they are the same node. */
  lemma ClaimAfterRestoringFirst(site: Site, clock: int, s0: Sys, rawA: string, eA: ApplyEnv,
                                 rawB: string, eB: ApplyEnv, back: RestoreEnv, s3: Sys)
    requires RestoresFirst(site, clock, s0, rawA, eA, rawB, eB, back, s3)
    ensures Links.Node(rawA, site.lib).Success? && Links.Node(rawB, site.lib).Success?
    ensures StatusFollows(site, s3.files, Links.Node(rawA, site.lib).value.outbound,
                          Some(Links.Node(rawB, site.lib).value.outbound))
    ensures SaysManaged(site, s3.files) ==> Status(site, s3.files).value.uri == rawB
  {
    hide RestoresFirst, Links.Node, LoadState, Rendered, StatusFollows, CurrentOf;
    RestoredFirst(site, clock, s0, rawA, eA, rawB, eB, back, s3);
    Links.NodesAreProxies(rawA, site.lib);
    ClaimIsExact(site, s3.files, Links.Node(rawA, site.lib).value, s0.memory, eA.lan);
  }

  // -------------------------------------------------------------------------
  // Over runs
  // -------------------------------------------------------------------------

  ghost predicate IsRendering(b: Body)
  {
    exists a, s, lan :: IsRenderingOf(b, a, s, lan)
  }

  predicate IsConfig(slot: Slot) { slot.Live? || slot.Backup? }

  /** Live and all backups are renderings. */
  ghost predicate AllRendered(f: Files)
  {
    forall k :: k in f && IsConfig(k) ==> IsRendering(f[k])
  }

  predicate WholeWrite(w: Write) { w.opens ==> w.completes }

  predicate WholeSnapshot(e: Snapshot) { e.completes || e.cleans }

  /** A request that is not cut short and leaves no half-written configuration. */
  predicate Tidy(h: Happening)
  {
    && h.crash.None?
    && match h.ev
       case Apply(_, e) => WholeSnapshot(e.snapshot) && WholeWrite(e.write)
       case Post(_, e) => WholeSnapshot(e.snapshot) && WholeWrite(e.write)
       case Restore(_, e) => WholeSnapshot(e.snapshot) && WholeWrite(e.write)
       case Delete(_, _) => true
  }

  /** Steps that only remove configuration files. */
  ghost predicate AddsNoConfig(steps: seq<Step>)
  {
    forall k :: IsConfig(k) ==> OnlyRemoved(steps, k)
  }

  lemma RemovalKeepsRendered(f: Files, steps: seq<Step>)
    requires AllRendered(f) && AddsNoConfig(steps)
    ensures AllRendered(Exec(f, steps))
  {
    hide Exec, OnlyRemoved, IsRendering;
    forall k | k in Exec(f, steps) && IsConfig(k)
      ensures IsRendering(Exec(f, steps)[k])
    {
      OnlyRemovedStays(f, steps, k);
    }
  }

  lemma CreateKeepsRendered(f: Files, e: Snapshot)
    requires AllRendered(f) && WholeSnapshot(e)
    ensures AllRendered(Exec(f, CreateRun(f, e).steps))
  {
    hide Exec, IsRendering, Stamps.Format;
    if CreateRun(f, e).result.Success? {
      CreateMakesCopy(f, e);
    } else {
      FailedCreateUndoes(f, e);
    }
  }

  /** A Create that fails and cleans up leaves the directory as it was. */
  lemma FailedCreateUndoes(f: Files, e: Snapshot)
    requires WholeSnapshot(e) && CreateRun(f, e).result.Failure?
    ensures Exec(f, CreateRun(f, e).steps) == f
  {
    hide Stamps.Format;
    var own := Backup(NameOf(e));
    Runs.ExecNothing(f);
    if Starts(f, e) {
      var a, b, c := Put(own, EMPTY), Put(own, e.partial), Step.Remove(own);
      assert CreateRun(f, e).steps == [a] + ([b] + [c]);
      ExecAppend(f, [a], [b] + [c]);
      ExecOne(f, a);
      ExecAppend(f[own := EMPTY], [b], [c]);
      ExecOne(f[own := EMPTY], b);
      ExecOne(f[own := e.partial], c);
      assert f[own := e.partial] - {own} == f;
    }
  }

  lemma WriteKeepsRendered(f: Files, w: Write, body: Body)
    requires AllRendered(f) && WholeWrite(w) && IsRendering(body)
    ensures AllRendered(Exec(f, WriteSteps(Live, w, body)))
  {
    hide Exec, WriteSteps, IsRendering;
    var g := Exec(f, WriteSteps(Live, w, body));
    if w.opens {
      WriteStepsEnd(f, Live, w, body);
    } else {
      NoWrite(w, body);
      Runs.ExecNothing(f);
    }
    forall k | k in g && IsConfig(k)
      ensures IsRendering(g[k])
    {
      if k != Live {
        WriteTouches(Live, w, body, k);
        UntouchedStays(f, WriteSteps(Live, w, body), k);
      }
    }
  }

  lemma NoWrite(w: Write, body: Body)
    requires !w.opens
    ensures WriteSteps(Live, w, body) == []
  {
  }

  lemma SavesAddNoConfig(to: Slot, tmp: Slot, body: Body, tidies: bool, e: SaveEnv)
    requires !IsConfig(to) && !IsConfig(tmp)
    ensures AddsNoConfig(SaveSteps(to, tmp, body, tidies, e))
  {
    hide SaveSteps;
    forall k | IsConfig(k)
      ensures OnlyRemoved(SaveSteps(to, tmp, body, tidies, e), k)
    {
      Runs.SavesTouchNoBackup(to, tmp, body, tidies, e, k);
    }
  }

  lemma ParsedIsRendering(raw: string, lib: Nodes.Library, s: Settings, lan: Option<string>)
    requires Links.Node(raw, lib).Success?
    ensures IsRendering(Rendered(Links.Node(raw, lib).value, s, lan))
  {
    hide Links.Node, Rendered;
    Links.NodesAreProxies(raw, lib);
    assert IsRenderingOf(Rendered(Links.Node(raw, lib).value, s, lan), Links.Node(raw, lib).value, s, lan);
  }

  lemma ApplyKeepsRendered(site: Site, sys: Sys, raw: string, e: ApplyEnv)
    requires AllRendered(sys.files) && WholeSnapshot(e.snapshot) && WholeWrite(e.write)
    ensures AllRendered(Exec(sys.files, ApplyOutcome(site, sys, raw, e).steps))
  {
    hide AllRendered, IsRendering, AddsNoConfig, Exec, Links.Node, CreateRun, ApplyTrim, WriteSteps, SaveSteps,
      Rendered, EncodeState, Stamps.Format;
    var f, node := sys.files, Links.Node(raw, site.lib);
    Runs.ExecNothing(f);
    if node.Success? {
      var c := CreateRun(f, e.snapshot);
      CreateKeepsRendered(f, e.snapshot);
      if c.result.Success? {
        var g := Exec(f, c.steps);
        var m, t := ApplyMiddle(sys, raw, node.value, e), ApplyTrim(site, e);
        MiddleKeepsRendered(g, site, sys, raw, e);
        TrimAddsNoConfig(site, e);
        RemovalKeepsRendered(Exec(g, m), t);
        ExecAppend(f, c.steps, m + t);
        ExecAppend(g, m, t);
      }
    }
  }

  lemma MiddleKeepsRendered(f: Files, site: Site, sys: Sys, raw: string, e: ApplyEnv)
    requires AllRendered(f) && WholeWrite(e.write) && Links.Node(raw, site.lib).Success?
    ensures AllRendered(Exec(f, ApplyMiddle(sys, raw, Links.Node(raw, site.lib).value, e)))
  {
    hide AllRendered, IsRendering, AddsNoConfig, Exec, Links.Node, WriteSteps, SaveSteps, Rendered, EncodeState;
    Runs.ExecNothing(f);
    if e.mkdirs {
      var n := Links.Node(raw, site.lib).value;
      var w, st := LiveSteps(n, sys.memory, e.lan, e.write), State(raw, n.nodeLabel, e.at);
      ParsedIsRendering(raw, site.lib, sys.memory, e.lan);
      WriteKeepsRendered(f, e.write, Rendered(n, sys.memory, e.lan));
      SavesAddNoConfig(StateFile, StateTmp, Doc(EncodeState(st)), false, e.save);
      RemovalKeepsRendered(Exec(f, w), SaveStateSteps(st, e.save));
      ExecAppend(f, w, SaveStateSteps(st, e.save));
      assert w + [] == w;
    }
  }

  lemma TrimAddsNoConfig(site: Site, e: ApplyEnv)
    ensures AddsNoConfig(ApplyTrim(site, e))
  {
    hide ApplyTrim;
    forall k | IsConfig(k)
      ensures OnlyRemoved(ApplyTrim(site, e), k)
    {
      if k.Backup? {
        Runs.TrimOnlyRemoves(site, e, k.stamp);
      } else {
        TrimTouchesOnlyBackups(site, e, k);
      }
    }
  }

  lemma PostKeepsRendered(site: Site, sys: Sys, body: Option<Settings>, e: PostEnv)
    requires AllRendered(sys.files) && WholeSnapshot(e.snapshot) && WholeWrite(e.write)
    ensures AllRendered(Exec(sys.files, PostOutcome(site, sys, body, e).steps))
  {
    hide AllRendered, IsRendering, AddsNoConfig, Exec, Links.Node, CreateRun, WriteSteps, SaveSteps, Rendered,
      LoadState, EncodeSettings, ValidSettings, Stamps.Format;
    var f := sys.files;
    Runs.ExecNothing(f);
    if body.Some? && ValidSettings(body.value) {
      var saved := PostSave(site, body.value, e);
      var g := Exec(f, saved);
      SavesAddNoConfig(SettingsFile, SettingsTmp, Doc(EncodeSettings(body.value)), true, e.save);
      if site.persist {
        RemovalKeepsRendered(f, saved);
      }
      if NodeToRender(site, g, e.readable).Some? {
        var n, c := NodeToRender(site, g, e.readable).value, CreateRun(g, e.snapshot).steps;
        var w := LiveSteps(n, body.value, e.lan, e.write);
        CreateKeepsRendered(g, e.snapshot);
        ParsedIsRendering(LoadState(g).value.value.uri, site.lib, body.value, e.lan);
        WriteKeepsRendered(Exec(g, c), e.write, Rendered(n, body.value, e.lan));
        ExecAppend(f, saved, c);
        ExecAppend(f, saved + c, w);
      }
    }
  }

  lemma RestoreKeepsRendered(f: Files, cfg: string, file: string, e: RestoreEnv)
    requires AllRendered(f) && WholeSnapshot(e.snapshot) && WholeWrite(e.write)
    ensures AllRendered(Exec(f, RestoreRun(f, cfg, file, e).steps))
  {
    hide IsRendering, Exec, CreateRun, WriteSteps, BackupNames.StampOf, Stamps.Format;
    var b, c := BackupNames.StampOf(cfg, file), CreateRun(f, e.snapshot);
    Runs.ExecNothing(f);
    CreateKeepsRendered(f, e.snapshot);
    if b.Some? && Backup(b.value) in f {
      WriteKeepsRendered(Exec(f, c.steps), e.write, f[Backup(b.value)]);
      ExecAppend(f, c.steps, WriteSteps(Live, e.write, f[Backup(b.value)]));
    }
  }

  lemma StepKeepsRendered(site: Site, sys: Sys, h: Happening)
    requires AllRendered(sys.files) && Tidy(h)
    ensures AllRendered(Next(site, sys, h).files)
  {
    hide AllRendered, Exec, ApplyOutcome, PostOutcome, RestoreRun, BackupNames.StampOf;
    match h.ev
    case Apply(raw, e) => ApplyKeepsRendered(site, sys, raw, e);
    case Post(body, e) => PostKeepsRendered(site, sys, body, e);
    case Restore(file, e) => RestoreKeepsRendered(sys.files, site.cfg, file, e);
    case Delete(file, removes) =>
      DeleteAddsNoConfig(sys.files, site.cfg, file, removes);
      RemovalKeepsRendered(sys.files, DeleteRun(sys.files, site.cfg, file, removes).steps);
  }

  lemma DeleteAddsNoConfig(f: Files, cfg: string, file: string, removes: bool)
    ensures AddsNoConfig(DeleteRun(f, cfg, file, removes).steps)
  {
    hide BackupNames.StampOf;
  }

  lemma {:induction false} RunKeepsRendered(site: Site, sys: Sys, hs: seq<Happening>)
    requires AllRendered(sys.files) && forall h :: h in hs ==> Tidy(h)
    ensures AllRendered(After(site, sys, hs).files)
    decreases |hs|
  {
    hide Next, AllRendered, Tidy;
    if hs == [] {
    } else {
      assert hs[0] in hs;
      StepKeepsRendered(site, sys, hs[0]);
      RunKeepsRendered(site, Next(site, sys, hs[0]), hs[1..]);
    }
  }

  /** From an empty disk, after any run of tidy requests, Restores and failed state saves
      included, in which something is live: the live file is a whole node, status says
      managed exactly when the recorded node has its address, and the claim is true exactly
      when then the two nodes are equal. */
  lemma ClaimOverRuns(site: Site, memory: Settings, hs: seq<Happening>)
    requires forall h :: h in hs ==> Tidy(h)
    ensures var f := After(site, Sys(map[], memory, None), hs).files;
      Live in f ==>
        && LiveOutbound(f[Live]).Some?
        && StatusFollows(site, f, LiveOutbound(f[Live]).value, Recorded(site, f))
  {
    hide After, StatusFollows, IsRenderingOf, Tidy, LiveOutbound;
    RunKeepsRendered(site, Sys(map[], memory, None), hs);
    var f := After(site, Sys(map[], memory, None), hs).files;
    if Live in f {
      assert IsRendering(f[Live]);
      var a, s, lan :| IsRenderingOf(f[Live], a, s, lan);
      ClaimIsExact(site, f, a, s, lan);
      LiveNode(site, f, a.outbound);
    }
  }

  lemma LiveNode(site: Site, f: Files, a: Nodes.Outbound)
    requires StatusFollows(site, f, a, Recorded(site, f))
    ensures Live in f && LiveOutbound(f[Live]) == Some(a)
  {
    hide LiveOutbound, ClaimHolds, SaysManaged, Recorded;
  }

  // -------------------------------------------------------------------------
  // Status in full
  // -------------------------------------------------------------------------

  /** What status reports, whatever the files hold: nothing without a readable node; otherwise
      that node's type, server and port; it is managed exactly when the state file names a node
      of the same server and port, and then with that record's URI, label and time. */
  lemma StatusReports(site: Site, f: Files)
    ensures var s, c, r := Status(site, f), CurrentOf(f), Recorded(site, f);
      && (s.None? <==> c.None?)
      && (s.Some? ==>
            && s.value.kind == c.value.kind && s.value.server == c.value.server && s.value.port == c.value.serverPort
            && (s.value.managed <==>
                  r.Some? && r.value.server == c.value.server && r.value.serverPort == c.value.serverPort)
            && (s.value.managed ==>
                  && LoadState(f).Success? && LoadState(f).value.Some?
                  && var st := LoadState(f).value.value;
                     s.value.uri == st.uri && s.value.infoLabel == st.stateLabel
                     && s.value.appliedAt == Some(st.appliedAt))
            && (!s.value.managed ==> s.value.uri == s.value.infoLabel == "" && s.value.appliedAt.None?))
  {
    hide Links.Node, LoadState, CurrentOf;
  }
}
