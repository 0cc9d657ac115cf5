/** What every serial run of requests keeps, with failures at any file step and crashes
    between any two: no configuration is lost, backups are immutable, a restore can be
    undone later. */
module Runs {
  import opened Wrappers
  import opened Calendar
  import opened Disk
  import opened Backups
  import opened Saves
  import opened Settings
  import opened Lifecycle
  import Stamps
  import BackupNames
  import Links
  import Nodes

  // -------------------------------------------------------------------------
  // Which names a request touches
  // -------------------------------------------------------------------------

  /** The stamp a request gives its snapshot. */
  function OwnStamp(ev: Event): Option<string>
  {
    if Reading(ev).Some? then Some(Stamps.Format(Reading(ev).value)) else None
  }

  lemma PrefixOnlyRemoved(steps: seq<Step>, i: nat, slot: Slot)
    requires OnlyRemoved(steps, slot) && i <= |steps|
    ensures OnlyRemoved(steps[..i], slot)
  {
  }

  lemma SavesTouchNoBackup(to: Slot, tmp: Slot, body: Body, tidies: bool, e: SaveEnv, slot: Slot)
    requires slot != to && slot != tmp
    ensures Untouched(SaveSteps(to, tmp, body, tidies, e), slot)
  {
  }

  lemma MiddleTouchesNoBackup(sys: Sys, raw: string, n: Nodes.ParsedNode, e: ApplyEnv, k: string)
    ensures Untouched(ApplyMiddle(sys, raw, n, e), Backup(k))
  {
    hide SaveSteps, EncodeState, Rendered;
    SavesTouchNoBackup(StateFile, StateTmp, Doc(EncodeState(State(raw, n.nodeLabel, e.at))), false, e.save, Backup(k));
  }

  lemma PostTouchesNoBackup(site: Site, sys: Sys, body: Option<Settings>, e: PostEnv, k: string)
    requires k != NameOf(e.snapshot)
    ensures Untouched(PostOutcome(site, sys, body, e).steps, Backup(k))
  {
    hide Stamps.Format, SaveSteps, Rendered, Exec, CreateRun, EncodeSettings, ValidSettings, NodeToRender, Untouched;
    if body.Some? {
      var saved := PostSave(site, body.value, e);
      var f := Exec(sys.files, saved);
      PostSaveTouches(site, body.value, e, Backup(k));
      CreateTouches(f, e.snapshot, Backup(k));
      UntouchedAppend(saved, CreateRun(f, e.snapshot).steps, Backup(k));
      if NodeToRender(site, f, e.readable).Some? {
        var w := LiveSteps(NodeToRender(site, f, e.readable).value, body.value, e.lan, e.write);
        LiveStepsTouch(NodeToRender(site, f, e.readable).value, body.value, e.lan, e.write, Backup(k));
        UntouchedAppend(saved + CreateRun(f, e.snapshot).steps, w, Backup(k));
      }
    }
    NothingTouches(Backup(k));
  }

  lemma NothingTouches(slot: Slot)
    ensures Untouched([], slot)
  {
  }

  lemma PostSaveTouches(site: Site, s: Settings, e: PostEnv, slot: Slot)
    requires slot != SettingsFile && slot != SettingsTmp
    ensures Untouched(PostSave(site, s, e), slot)
  {
    hide SaveSteps, EncodeSettings;
    SavesTouchNoBackup(SettingsFile, SettingsTmp, Doc(EncodeSettings(s)), true, e.save, slot);
  }

  lemma LiveStepsTouch(n: Nodes.ParsedNode, s: Settings, lan: Option<string>, w: Write, slot: Slot)
    requires slot != Live
    ensures Untouched(LiveSteps(n, s, lan, w), slot)
  {
    hide Rendered;
  }

  lemma RestoreTouches(f: Files, cfg: string, file: string, e: RestoreEnv, slot: Slot)
    requires slot != Live && slot != Backup(NameOf(e.snapshot))
    ensures Untouched(RestoreRun(f, cfg, file, e).steps, slot)
  {
    hide Stamps.Format, BackupNames.StampOf, CreateRun;
    CreateTouches(f, e.snapshot, slot);
  }

  lemma TrimOnlyRemoves(site: Site, e: ApplyEnv, k: string)
    ensures OnlyRemoved(ApplyTrim(site, e), Backup(k))
  {
  }

  lemma ApplyOnlyRemoves(site: Site, sys: Sys, raw: string, e: ApplyEnv, k: string)
    requires k != NameOf(e.snapshot)
    ensures OnlyRemoved(ApplyOutcome(site, sys, raw, e).steps, Backup(k))
  {
    hide Stamps.Format, Links.Node, CreateRun, ApplyMiddle;
    var node := Links.Node(raw, site.lib);
    CreateTouches(sys.files, e.snapshot, Backup(k));
    if node.Success? {
      MiddleTouchesNoBackup(sys, raw, node.value, e, k);
    }
  }

  /** All a request ever does to a backup that is not its own snapshot is remove it. */
  lemma OthersOnlyRemoved(site: Site, sys: Sys, ev: Event, k: string)
    requires OwnStamp(ev) != Some(k)
    ensures OnlyRemoved(EventOutcome(site, sys, ev).steps, Backup(k))
  {
    hide Stamps.Format, ApplyOutcome, PostOutcome, RestoreRun, BackupNames.StampOf;
    match ev
    case Apply(raw, e) => ApplyOnlyRemoves(site, sys, raw, e, k);
    case Post(body, e) => PostTouchesNoBackup(site, sys, body, e, k);
    case Restore(file, e) => RestoreTouches(sys.files, site.cfg, file, e, Backup(k));
    case Delete(file, removes) =>
  }

  // -------------------------------------------------------------------------
  // Backups are immutable
  // -------------------------------------------------------------------------

  /** No backup is dated later than the clock. */
  ghost predicate NoFuture(f: Files, clock: int)
  {
    forall s :: s in StampsIn(f) ==> Instant(s) <= clock
  }

  lemma OwnStampIsNew(site: Site, sys: Sys, clock: int, ev: Event)
    requires Fits(site, sys, clock, ev) && OwnStamp(ev).Some?
    ensures Instant(OwnStamp(ev).value) == ClockAfter(clock, ev) > clock
  {
    hide Stamps.Format, Stamps.ParseStamp, IsCivil, IsListing;
    Stamps.ParseFormat(Reading(ev).value);
  }

  /** How the files of Next relate to the steps of the request. */
  lemma NextIsPrefix(site: Site, sys: Sys, h: Happening) returns (i: nat)
    ensures i <= |EventOutcome(site, sys, h.ev).steps|
    ensures Next(site, sys, h).files == Exec(sys.files, EventOutcome(site, sys, h.ev).steps[..i])
    ensures h.crash.None? ==> i == |EventOutcome(site, sys, h.ev).steps|
  {
    hide EventOutcome, Exec;
    var steps := EventOutcome(site, sys, h.ev).steps;
    i := if h.crash.None? || h.crash.value >= |steps| then |steps| else h.crash.value;
    assert steps[..|steps|] == steps;
  }

  /** Anything that was no later than the clock stays as it is or goes for good. */
  lemma StepKeepsOld(site: Site, sys: Sys, clock: int, h: Happening, k: string)
    requires Fits(site, sys, clock, h.ev) && Instant(k) <= clock
    ensures var f, g := sys.files, Next(site, sys, h).files;
      Backup(k) in g ==> Backup(k) in f && g[Backup(k)] == f[Backup(k)]
  {
    hide EventOutcome, Exec, Next, Fits, Instant, Stamps.Format;
    if OwnStamp(h.ev).Some? {
      OwnStampIsNew(site, sys, clock, h.ev);
    }
    var i := NextIsPrefix(site, sys, h);
    OthersOnlyRemoved(site, sys, h.ev, k);
    PrefixOnlyRemoved(EventOutcome(site, sys, h.ev).steps, i, Backup(k));
    OnlyRemovedStays(sys.files, EventOutcome(site, sys, h.ev).steps[..i], Backup(k));
  }

  lemma StepKeepsNoFuture(site: Site, sys: Sys, clock: int, h: Happening)
    requires Fits(site, sys, clock, h.ev) && NoFuture(sys.files, clock)
    ensures NoFuture(Next(site, sys, h).files, ClockAfter(clock, h.ev))
    ensures clock <= ClockAfter(clock, h.ev)
  {
    hide EventOutcome, Exec, Next, Instant, Stamps.Format, Stamps.ParseStamp, StampsIn, IsListing;
    var g := Next(site, sys, h).files;
    var i := NextIsPrefix(site, sys, h);
    if OwnStamp(h.ev).Some? {
      OwnStampIsNew(site, sys, clock, h.ev);
    }
    forall s | s in StampsIn(g)
      ensures Instant(s) <= ClockAfter(clock, h.ev)
    {
      BackupsIff(g, s);
      if OwnStamp(h.ev) != Some(s) {
        OthersOnlyRemoved(site, sys, h.ev, s);
        PrefixOnlyRemoved(EventOutcome(site, sys, h.ev).steps, i, Backup(s));
        OnlyRemovedStays(sys.files, EventOutcome(site, sys, h.ev).steps[..i], Backup(s));
        BackupsIff(sys.files, s);
      }
    }
  }

  /** The body of a backup never changes: after any run, a backup that was there at the
      start and is still there has the body it had; one that went never comes back. */
  lemma {:induction false} BackupsAreImmutable(site: Site, sys: Sys, clock: int, hs: seq<Happening>, k: string)
    requires IsRun(site, sys, clock, hs) && Instant(k) <= clock
    ensures var f, g := sys.files, After(site, sys, hs).files;
      Backup(k) in g ==> Backup(k) in f && g[Backup(k)] == f[Backup(k)]
    decreases |hs|
  {
    hide Next, Fits, Instant;
    if hs == [] {
    } else {
      StepKeepsOld(site, sys, clock, hs[0], k);
      ClockGrows(site, sys, clock, hs[0].ev);
      BackupsAreImmutable(site, Next(site, sys, hs[0]), ClockAfter(clock, hs[0].ev), hs[1..], k);
    }
  }

  lemma ClockGrows(site: Site, sys: Sys, clock: int, ev: Event)
    requires Fits(site, sys, clock, ev)
    ensures clock <= ClockAfter(clock, ev)
  {
    hide IsListing, InstantOf, IsCivil;
  }

  // -------------------------------------------------------------------------
  // No configuration is lost
  // -------------------------------------------------------------------------

  /** The body is live, or whole in a backup that List shows. */
  ghost predicate Holds(f: Files, body: Body)
  {
    || (Live in f && f[Live] == body)
    || exists s :: s in StampsIn(f) && Backup(s) in f && f[Backup(s)] == body
  }

  lemma InBackup(f: Files, e: Snapshot, body: Body)
    requires IsCivil(e.now) && Backup(NameOf(e)) in f && f[Backup(NameOf(e))] == body
    ensures Holds(f, body)
  {
    hide Stamps.Format, Stamps.ParseStamp, StampsIn, IsCivil;
    Stamps.ParseFormat(e.now);
    BackupsIff(f, NameOf(e));
  }

  /** Steps that leave the live file alone, then a snapshot, then steps that leave the
      snapshot alone: the live body survives wherever they stop. */
  lemma SnapshotProtects(f: Files, before: seq<Step>, e: Snapshot, after: seq<Step>, body: Body, i: nat)
    requires IsCivil(e.now) && Live in f && f[Live] == body && Untouched(before, Live)
    requires var c := CreateRun(Exec(f, before), e);
      && (c.result.Failure? ==> after == [])
      && (c.result.Success? ==> Untouched(after, Backup(NameOf(e))))
      && i <= |before + c.steps + after|
    ensures Holds(Exec(f, (before + CreateRun(Exec(f, before), e).steps + after)[..i]), body)
  {
    hide Stamps.Format, CreateRun, Exec, Untouched, Holds, IsCivil;
    var g := Exec(f, before);
    var c := CreateRun(g, e);
    var head := before + c.steps;
    UntouchedStays(f, before, Live);
    CreateTouches(g, e, Live);
    UntouchedAppend(before, c.steps, Live);
    if i <= |head| {
      assert (head + after)[..i] == head[..i];
      UntouchedPrefix(head, i, Live);
      UntouchedStays(f, head[..i], Live);
      Present(Exec(f, head[..i]), body);
    } else {
      var rest := after[..i - |head|];
      assert (head + after)[..i] == head + rest;
      CreateMakesCopy(g, e);
      ExecAppend(f, before, c.steps);
      ExecAppend(f, head, rest);
      UntouchedPrefix(after, i - |head|, Backup(NameOf(e)));
      UntouchedStays(Exec(g, c.steps), rest, Backup(NameOf(e)));
      InBackup(Exec(f, head + rest), e, body);
    }
  }

  lemma UntouchedPrefix(steps: seq<Step>, i: nat, slot: Slot)
    requires Untouched(steps, slot) && i <= |steps|
    ensures Untouched(steps[..i], slot)
  {
  }

  /** The snapshot Apply takes is not among those its trim removes. */
  lemma TrimSparesSnapshot(site: Site, sys: Sys, clock: int, raw: string, e: ApplyEnv)
    requires Fits(site, sys, clock, Apply(raw, e)) && NoFuture(sys.files, clock)
    requires Links.Node(raw, site.lib).Success? && CreateRun(sys.files, e.snapshot).result.Success?
    ensures Untouched(ApplyTrim(site, e), Backup(NameOf(e.snapshot)))
  {
    hide Stamps.Format, Stamps.ParseStamp, StampsIn, Instant, IsListing, TrimSteps, ReachesTrim, Links.Node, Exec,
      CreateRun, ApplyMiddle, IsCivil;
    var own := NameOf(e.snapshot);
    OwnStampIsNew(site, sys, clock, Apply(raw, e));
    var g := FilesAtTrim(site, sys, raw, e);
    forall t | t in StampsIn(g) && t != own
      ensures Instant(t) < Instant(own)
    {
      BackupsIff(g, t);
      BackupsIff(sys.files, t);
      var node := Links.Node(raw, site.lib);
      if node.Success? {
        var c := CreateRun(sys.files, e.snapshot).steps;
        var m := ApplyMiddle(sys, raw, node.value, e);
        CreateTouches(sys.files, e.snapshot, Backup(t));
        MiddleTouchesNoBackup(sys, raw, node.value, e, t);
        UntouchedAppend(c, m, Backup(t));
        UntouchedStays(sys.files, c + m, Backup(t));
      }
    }
    if ReachesTrim(site, e) {
      TrimSparesNewest(g, e.hidden, e.order, site.keep, e.stuck, own);
    }
    NothingTouches(Backup(own));
  }

  lemma ReadingIsCivil(site: Site, sys: Sys, clock: int, ev: Event)
    requires Fits(site, sys, clock, ev) && Reading(ev).Some?
    ensures IsCivil(Reading(ev).value)
  {
    hide IsCivil, IsListing, Trims;
  }

  lemma ApplyLosesNothing(site: Site, sys: Sys, clock: int, raw: string, e: ApplyEnv, body: Body, i: nat)
    requires Fits(site, sys, clock, Apply(raw, e)) && NoFuture(sys.files, clock)
    requires Live in sys.files && sys.files[Live] == body
    requires i <= |ApplyOutcome(site, sys, raw, e).steps|
    ensures Holds(Exec(sys.files, ApplyOutcome(site, sys, raw, e).steps[..i]), body)
  {
    hide Stamps.Format, Links.Node, CreateRun, ApplyMiddle, ApplyTrim, Fits, NoFuture, Holds, Untouched, IsCivil;
    ReadingIsCivil(site, sys, clock, Apply(raw, e));
    var node := Links.Node(raw, site.lib);
    var c := CreateRun(sys.files, e.snapshot);
    NothingTouches(Live);
    if node.Failure? {
      Present(sys.files, body);
      assert ApplyOutcome(site, sys, raw, e).steps[..i] == [];
      ExecNothing(sys.files);
    } else {
      var after := if c.result.Failure? then []
                   else ApplyMiddle(sys, raw, node.value, e) + ApplyTrim(site, e);
      if c.result.Success? {
        MiddleTouchesNoBackup(sys, raw, node.value, e, NameOf(e.snapshot));
        TrimSparesSnapshot(site, sys, clock, raw, e);
        UntouchedAppend(ApplyMiddle(sys, raw, node.value, e), ApplyTrim(site, e), Backup(NameOf(e.snapshot)));
      }
      SnapshotProtects(sys.files, [], e.snapshot, after, body, AtMost(i, |[] + c.steps + after|));
      assert [] + c.steps + after == ApplyOutcome(site, sys, raw, e).steps;
    }
  }

  function AtMost(i: nat, n: nat): nat { if i <= n then i else n }

  lemma Present(f: Files, body: Body)
    requires Live in f && f[Live] == body
    ensures Holds(f, body)
  {
  }

  lemma RestoreLosesNothing(f: Files, cfg: string, file: string, e: RestoreEnv, body: Body, i: nat)
    requires IsCivil(e.snapshot.now) && Live in f && f[Live] == body
    requires i <= |RestoreRun(f, cfg, file, e).steps|
    ensures Holds(Exec(f, RestoreRun(f, cfg, file, e).steps[..i]), body)
  {
    hide Stamps.Format, CreateRun, BackupNames.StampOf, Holds, Untouched;
    var c := CreateRun(f, e.snapshot);
    var stamp := BackupNames.StampOf(cfg, file);
    var steps := RestoreRun(f, cfg, file, e).steps;
    NothingTouches(Live);
    NothingTouches(Backup(NameOf(e.snapshot)));
    if stamp.None? || Backup(stamp.value) !in f || !e.stats {
      Present(f, body);
      assert steps[..i] == [];
    } else {
      var after := if c.result.Failure? || !e.readable then []
                   else WriteSteps(Live, e.write, f[Backup(stamp.value)]);
      WriteTouches(Live, e.write, f[Backup(stamp.value)], Backup(NameOf(e.snapshot)));
      assert [] + c.steps + after == steps;
      SnapshotProtects(f, [], e.snapshot, after, body, i);
    }
  }

  lemma PostLosesNothing(site: Site, sys: Sys, settings: Option<Settings>, e: PostEnv, body: Body, i: nat)
    requires IsCivil(e.snapshot.now) && Live in sys.files && sys.files[Live] == body
    requires i <= |PostOutcome(site, sys, settings, e).steps|
    ensures Holds(Exec(sys.files, PostOutcome(site, sys, settings, e).steps[..i]), body)
  {
    hide Stamps.Format, CreateRun, PostSave, ValidSettings, NodeToRender, LiveSteps, Holds, Untouched, Exec;
    var steps := PostOutcome(site, sys, settings, e).steps;
    if settings.None? || !ValidSettings(settings.value) {
      Present(sys.files, body);
      assert steps[..i] == [];
      assert Exec(sys.files, []) == sys.files by {
        ExecNothing(sys.files);
      }
    } else {
      var s := settings.value;
      var saved := PostSave(site, s, e);
      var f := Exec(sys.files, saved);
      var node := NodeToRender(site, f, e.readable);
      PostSaveTouches(site, s, e, Live);
      if (site.persist && !e.save.Works()) || node.None? {
        UntouchedPrefix(saved, i, Live);
        UntouchedStays(sys.files, saved[..i], Live);
        Present(Exec(sys.files, saved[..i]), body);
      } else {
        var after := if CreateRun(f, e.snapshot).result.Failure? then []
                     else LiveSteps(node.value, s, e.lan, e.write);
        LiveStepsTouch(node.value, s, e.lan, e.write, Backup(NameOf(e.snapshot)));
        assert saved + CreateRun(f, e.snapshot).steps + after == steps;
        SnapshotProtects(sys.files, saved, e.snapshot, after, body, i);
      }
    }
  }

  lemma ExecNothing(f: Files)
    ensures Exec(f, []) == f
  {
  }

  /** Apply, settings POST and Restore never lose the live configuration: stopped after any
      number of steps, with any of them failing, it is live or whole in a backup. */
  lemma EventLosesNothing(site: Site, sys: Sys, clock: int, ev: Event, body: Body, i: nat)
    requires Fits(site, sys, clock, ev) && NoFuture(sys.files, clock) && !ev.Delete?
    requires Live in sys.files && sys.files[Live] == body
    ensures Holds(FilesAfter(site, sys, ev, i), body)
  {
    hide ApplyOutcome, PostOutcome, RestoreRun, Holds, Exec, Fits, NoFuture, IsCivil;
    ReadingIsCivil(site, sys, clock, ev);
    var n := |EventOutcome(site, sys, ev).steps|;
    match ev
    case Apply(raw, e) => ApplyLosesNothing(site, sys, clock, raw, e, body, AtMost(i, n));
    case Post(settings, e) => PostLosesNothing(site, sys, settings, e, body, AtMost(i, n));
    case Restore(file, e) => RestoreLosesNothing(sys.files, site.cfg, file, e, body, AtMost(i, n));
  }

  /** The same at every moment of every run that starts without future-dated backups. */
  lemma {:induction false} RunLosesNothing(site: Site, sys: Sys, clock: int, hs: seq<Happening>, j: nat, i: nat)
    requires IsRun(site, sys, clock, hs) && NoFuture(sys.files, clock) && j < |hs|
    ensures var at, ev := After(site, sys, hs[..j]), hs[j].ev;
      !ev.Delete? && Live in at.files ==> Holds(FilesAfter(site, at, ev, i), at.files[Live])
    decreases j
  {
    hide Next, Fits, NoFuture, Holds, FilesAfter;
    if j == 0 {
      if !hs[0].ev.Delete? && Live in sys.files {
        EventLosesNothing(site, sys, clock, hs[0].ev, sys.files[Live], i);
      }
      assert hs[..0] == [];
    } else {
      StepKeepsNoFuture(site, sys, clock, hs[0]);
      RunLosesNothing(site, Next(site, sys, hs[0]), ClockAfter(clock, hs[0].ev), hs[1..], j - 1, i);
      assert hs[1..][..j - 1] == hs[..j][1..] && hs[..j][0] == hs[0];
    }
  }

  /** The path of a backup, as Create and Restore report it. */
  function PathOf(site: Site, stamp: string): string
  {
    site.cfg + ".bak-" + stamp
  }

  /** Restoring this backup succeeds exactly when no file operation on the way fails, and
      then makes body live. */
  predicate BringsBack(site: Site, f: Files, s: string, body: Body, e: RestoreEnv)
  {
    var r := RestoreRun(f, site.cfg, PathOf(site, s), e);
    && (r.result.Success? <==>
          e.stats && CreateRun(f, e.snapshot).result.Success? && e.readable && e.write.Works())
    && (r.result.Success? ==> Live in Exec(f, r.steps) && Exec(f, r.steps)[Live] == body)
  }

  lemma ListedCanBeRestored(site: Site, f: Files, s: string, e: RestoreEnv)
    requires site.cfg != "" && site.cfg[|site.cfg| - 1] != '/'
    requires s in StampsIn(f) && Backup(s) in f
    ensures BringsBack(site, f, s, f[Backup(s)], e)
  {
    hide Stamps.ParseStamp, Stamps.Format, StampsIn, CreateRun, Exec, BackupNames.StampOf;
    BackupsIff(f, s);
    BackupNames.StampHasNoSlash(s);
    BackupNames.CreatedPathBelongs(site.cfg, s);
    if RestoreRun(f, site.cfg, PathOf(site, s), e).result.Success? {
      RestoreReplaces(f, site.cfg, PathOf(site, s), e);
    }
  }

  /** At every moment of every run, the body that was live when the request began is live
      or one Restore away: some listed backup brings it back. */
  lemma NothingIsBeyondRestore(site: Site, sys: Sys, clock: int, hs: seq<Happening>, j: nat, i: nat)
    requires site.cfg != "" && site.cfg[|site.cfg| - 1] != '/'
    requires IsRun(site, sys, clock, hs) && NoFuture(sys.files, clock) && j < |hs|
    ensures var at, ev := After(site, sys, hs[..j]), hs[j].ev;
      var f := FilesAfter(site, at, ev, i);
      !ev.Delete? && Live in at.files ==>
        || (Live in f && f[Live] == at.files[Live])
        || exists s :: s in StampsIn(f) && forall e :: BringsBack(site, f, s, at.files[Live], e)
  {
    hide Next, Fits, NoFuture, FilesAfter, StampsIn, BringsBack, After, IsRun;
    RunLosesNothing(site, sys, clock, hs, j, i);
    var at, ev := After(site, sys, hs[..j]), hs[j].ev;
    var f := FilesAfter(site, at, ev, i);
    if !ev.Delete? && Live in at.files && !(Live in f && f[Live] == at.files[Live]) {
      var s :| s in StampsIn(f) && Backup(s) in f && f[Backup(s)] == at.files[Live];
      forall e
        ensures BringsBack(site, f, s, at.files[Live], e)
      {
        ListedCanBeRestored(site, f, s, e);
      }
    }
  }

  // -------------------------------------------------------------------------
  // A restore can be undone later
  // -------------------------------------------------------------------------

  /** If a Restore reports backup b of the configuration it replaced, then after any further
      run in which b still exists, a successful Restore of b's path makes exactly that
      configuration live again. */
  lemma RestoreIsUndoable(site: Site, sys: Sys, clock: int, file: string, e: RestoreEnv, hs: seq<Happening>,
                          undo: RestoreEnv)
    requires site.cfg != "" && site.cfg[|site.cfg| - 1] != '/'
    requires Fits(site, sys, clock, Restore(file, e)) && Live in sys.files
    requires EventOutcome(site, sys, Restore(file, e)).reply.Restored?
    requires var first := Happening(Restore(file, e), None);
      IsRun(site, Next(site, sys, first), ClockAfter(clock, first.ev), hs)
    ensures var reply := EventOutcome(site, sys, Restore(file, e)).reply;
      && reply.previous.Some?
      && var b := reply.previous.value;
         var later := After(site, Next(site, sys, Happening(Restore(file, e), None)), hs);
         (Backup(b) in later.files
          && EventOutcome(site, later, Restore(PathOf(site, b), undo)).reply.Restored? ==>
            var undone := Next(site, later, Happening(Restore(PathOf(site, b), undo), None)).files;
            Live in undone && undone[Live] == sys.files[Live])
  {
    hide RestoreRun, Fits, Instant, Stamps.Format, Stamps.ParseStamp, BackupNames.StampOf, Exec;
    RestoreReplaces(sys.files, site.cfg, file, e);
    var first := Happening(Restore(file, e), None);
    var mid := Next(site, sys, first);
    var b := EventOutcome(site, sys, first.ev).reply.previous.value;
    OwnStampIsNew(site, sys, clock, first.ev);
    BackupsAreImmutable(site, mid, ClockAfter(clock, first.ev), hs, b);
    OwnPathBelongs(site, sys, clock, first.ev);
    var later := After(site, mid, hs);
    if Backup(b) in later.files && EventOutcome(site, later, Restore(PathOf(site, b), undo)).reply.Restored? {
      RestoreReplaces(later.files, site.cfg, PathOf(site, b), undo);
    }
  }

  lemma OwnPathBelongs(site: Site, sys: Sys, clock: int, ev: Event)
    requires site.cfg != "" && site.cfg[|site.cfg| - 1] != '/'
    requires Fits(site, sys, clock, ev) && OwnStamp(ev).Some?
    ensures BackupNames.StampOf(site.cfg, PathOf(site, OwnStamp(ev).value)) == OwnStamp(ev)
  {
    hide IsListing, IsCivil, Stamps.Format, Stamps.ParseStamp, BackupNames.StampOf;
    var c := Reading(ev).value;
    Stamps.ParseFormat(c);
    BackupNames.FormatHasNoSlash(c);
    BackupNames.CreatedPathBelongs(site.cfg, Stamps.Format(c));
  }
}
