/** When each request succeeds and with what reply, from the files before it and the answers
    of the environment: which settings POST re-renders, which Apply is applied and trims,
    which Restore and Delete go through, and every way they fail. */
module Replies {
  import opened Wrappers
  import opened Disk
  import opened Backups
  import opened Saves
  import opened Settings
  import opened Lifecycle
  import opened Counting
  import Links
  import Runs
  import Stamps
  import BackupNames

  // -------------------------------------------------------------------------
  // The snapshot
  // -------------------------------------------------------------------------

  /** There is nothing to save, or the live file opens, the name is free, the file can be
      created, and the copy gets finished. */
  predicate SnapshotWorks(f: Files, e: Snapshot)
  {
    || Live !in f
    || (e.opens && e.creates && Backup(Stamps.Format(e.now)) !in f && e.completes)
  }

  /** The name Create returns. */
  function SnapshotName(f: Files, e: Snapshot): Option<string>
  {
    if Live in f then Some(Stamps.Format(e.now)) else None
  }

  lemma CreateReplies(f: Files, e: Snapshot)
    ensures CreateRun(f, e).result
         == if SnapshotWorks(f, e) then Success(SnapshotName(f, e)) else Failure(SnapshotFailed)
  {
    hide Stamps.Format;
  }

  // -------------------------------------------------------------------------
  // Settings POST
  // -------------------------------------------------------------------------

  /** The state file can be read and names a node. */
  predicate RecordsNode(site: Site, f: Files, readable: bool)
  {
    && readable && StateFile in f && f[StateFile].Doc?
    && DecodeState(f[StateFile].doc).Some?
    && Links.Node(DecodeState(f[StateFile].doc).value.uri, site.lib).Success?
  }

  /** The POST is accepted: its settings are valid and get saved, if they are to be. */
  predicate Accepted(site: Site, body: Option<Settings>, e: PostEnv)
  {
    body.Some? && ValidSettings(body.value) && (site.persist ==> e.save.Works())
  }

  lemma RecordIsRendered(site: Site, f: Files, readable: bool)
    ensures NodeToRender(site, f, readable).Some? <==> RecordsNode(site, f, readable)
  {
    hide Links.Node, DecodeState;
  }

  /** Saving the settings changes nothing the rest of a POST looks at. */
  lemma SaveIsNeutral(site: Site, f: Files, s: Settings, e: PostEnv)
    ensures var g := Exec(f, PostSave(site, s, e));
      && Same(g, f, Live) && Same(g, f, StateFile) && Same(g, f, Backup(NameOf(e.snapshot)))
      && (RecordsNode(site, g, e.readable) <==> RecordsNode(site, f, e.readable))
      && (SnapshotWorks(g, e.snapshot) <==> SnapshotWorks(f, e.snapshot))
  {
    hide PostSave, Exec, Links.Node, DecodeState, Stamps.Format, Untouched;
    var saved := PostSave(site, s, e);
    Runs.PostSaveTouches(site, s, e, Live);
    Runs.PostSaveTouches(site, s, e, StateFile);
    Runs.PostSaveTouches(site, s, e, Backup(NameOf(e.snapshot)));
    UntouchedStays(f, saved, Live);
    UntouchedStays(f, saved, StateFile);
    UntouchedStays(f, saved, Backup(NameOf(e.snapshot)));
  }

  /** The reply to a settings POST. It re-renders exactly when the settings are accepted, the
      state file names a node, and the snapshot and the live write work; whether there is a
      settings path and what is live make no difference. */
  lemma PostReplies(site: Site, sys: Sys, body: Option<Settings>, e: PostEnv)
    ensures var o, node := PostOutcome(site, sys, body, e), RecordsNode(site, sys.files, e.readable);
      && (o.reply == Rejected <==> body.None? || !ValidSettings(body.value))
      && (o.reply == NotSaved <==> body.Some? && ValidSettings(body.value) && site.persist && !e.save.Works())
      && (o.reply.Posted? <==> Accepted(site, body, e))
      && o.memory == (if Accepted(site, body, e) then body.value else sys.memory)
      && (o.reply.Posted? ==>
            && (o.reply.reRendered <==> node && SnapshotWorks(sys.files, e.snapshot) && e.write.Works())
            && (o.reply.restarted <==> o.reply.reRendered && e.restarts)
            && (o.reply.trouble == Some(NoSnapshot) <==> node && !SnapshotWorks(sys.files, e.snapshot))
            && (o.reply.trouble == Some(NoWrite) <==>
                  node && SnapshotWorks(sys.files, e.snapshot) && !e.write.Works())
            && o.reply.trouble != Some(NoDirectory))
  {
    hide Links.Node, CreateRun, PostSave, Exec, LoadState, LiveSteps, ValidSettings, NodeToRender, RecordsNode,
      SnapshotWorks, SaveEnv.Works, Write.Works;
    if Accepted(site, body, e) {
      var f := Exec(sys.files, PostSave(site, body.value, e));
      SaveIsNeutral(site, sys.files, body.value, e);
      RecordIsRendered(site, f, e.readable);
      CreateReplies(f, e.snapshot);
    }
  }

  /** Valid settings stay valid exactly when a changed field keeps its bounds; fields without
      bounds do not matter. */
  lemma SettingsAreBounded(s: Settings, n: int, t: string, b: bool)
    requires ValidSettings(s)
    ensures ValidSettings(s.(mixedListenPort := n)) <==> 1 <= n <= 65535
    ensures ValidSettings(s.(tunMtu := n)) <==> 576 <= n <= 9000
    ensures ValidSettings(s.(tunInterfaceName := t)) <==> t != ""
    ensures ValidSettings(s.(tunAddress := t)) <==> t != ""
    ensures ValidSettings(s.(upstreamDns := t)) <==> t != ""
    ensures ValidSettings(s.(logLevel := t, dnsStrategy := t, tunStack := t, mixedListen := t, clashApiListen := t,
                             clashApiUiDir := t, logTimestamp := b, enableMixed := b, enableClashApi := b))
  {
  }

  // -------------------------------------------------------------------------
  // Apply
  // -------------------------------------------------------------------------

  /** The reply to an Apply, field by field, and when it trims. */
  lemma ApplyReplies(site: Site, sys: Sys, raw: string, e: ApplyEnv)
    ensures var o, node := ApplyOutcome(site, sys, raw, e), Links.Node(raw, site.lib);
      var snap := SnapshotWorks(sys.files, e.snapshot);
      && (o.reply.Refused? <==> node.Failure?) && (node.Failure? ==> o.reply.why == node.error)
      && (o.reply == Failed(NoSnapshot) <==> node.Success? && !snap)
      && (o.reply == Failed(NoDirectory) <==> node.Success? && snap && !e.mkdirs)
      && (o.reply == Failed(NoWrite) <==> node.Success? && snap && e.mkdirs && !e.write.Works())
      && (o.reply.Applied? <==> node.Success? && snap && e.mkdirs && e.write.Works())
      && (o.reply.Applied? ==>
            && o.reply.backup == SnapshotName(sys.files, e.snapshot) && o.reply.reachOk == e.reachable
            && o.reply.restarted == e.restarts && o.reply.stateSaved == e.save.Works()
            && (o.reply.trimmed <==> site.keep <= 0 || e.lists))
      && (Trims(site, sys, raw, e) <==> o.reply.Applied? && site.keep > 0 && e.lists)
      && o.memory == sys.memory
  {
    hide Links.Node, CreateRun, ApplyMiddle, ApplyTrim, SnapshotWorks, SaveEnv.Works, Write.Works;
    CreateReplies(sys.files, e.snapshot);
  }

  // -------------------------------------------------------------------------
  // Restore and Delete
  // -------------------------------------------------------------------------

  /** The backup a path text names is there. */
  predicate Finds(f: Files, cfg: string, file: string)
  {
    BackupNames.StampOf(cfg, file).Some? && Backup(BackupNames.StampOf(cfg, file).value) in f
  }

  /** The reply to a Restore. */
  lemma RestoreReplies(f: Files, cfg: string, file: string, e: RestoreEnv)
    ensures var r, accepts := RestoreRun(f, cfg, file, e).result, BackupNames.BelongsHere(cfg, file);
      var snap := SnapshotWorks(f, e.snapshot);
      && (r == Failure(NotABackup) <==> !accepts)
      && (r == Failure(Missing) <==> accepts && !(Finds(f, cfg, file) && e.stats))
      && (r == Failure(SnapshotFailed) <==> Finds(f, cfg, file) && e.stats && !snap)
      && (r == Failure(ReadFailed) <==> Finds(f, cfg, file) && e.stats && snap && !e.readable)
      && (r == Failure(WriteFailed) <==> Finds(f, cfg, file) && e.stats && snap && e.readable && !e.write.Works())
      && (r.Success? <==> Finds(f, cfg, file) && e.stats && snap && e.readable && e.write.Works())
      && (r.Success? ==> r.value == SnapshotName(f, e.snapshot))
  {
    hide CreateRun, BackupNames.BelongsHere, SnapshotWorks, Write.Works, WriteSteps;
    CreateReplies(f, e.snapshot);
  }

  /** A Restore that fails before its write leaves the live file alone, whatever else it did. */
  lemma FailedRestoreSparesLive(f: Files, cfg: string, file: string, e: RestoreEnv)
    requires var r := RestoreRun(f, cfg, file, e).result; r.Failure? && r.error != WriteFailed
    ensures Same(Exec(f, RestoreRun(f, cfg, file, e).steps), f, Live)
  {
    hide CreateRun, BackupNames.StampOf, Exec, WriteSteps, Untouched, Stamps.Format;
    CreateTouches(f, e.snapshot, Live);
    UntouchedStays(f, CreateRun(f, e.snapshot).steps, Live);
    CreateReplies(f, e.snapshot);
    Runs.ExecNothing(f);
  }

  /** The reply to a Delete, and that it removes that backup and nothing else. */
  lemma DeleteReplies(f: Files, cfg: string, file: string, removes: bool)
    ensures var run := DeleteRun(f, cfg, file, removes);
      && (run.result == Failure(NotABackup) <==> !BackupNames.BelongsHere(cfg, file))
      && (run.result == Failure(RemoveFailed) <==>
            BackupNames.BelongsHere(cfg, file) && !(Finds(f, cfg, file) && removes))
      && (run.result.Success? <==> Finds(f, cfg, file) && removes)
      && Exec(f, run.steps)
         == if run.result.Success? then f - {Backup(BackupNames.StampOf(cfg, file).value)} else f
  {
    hide BackupNames.BelongsHere, Exec;
    Runs.ExecNothing(f);
    if Finds(f, cfg, file) {
      ExecOne(f, Step.Remove(Backup(BackupNames.StampOf(cfg, file).value)));
    }
  }
}
