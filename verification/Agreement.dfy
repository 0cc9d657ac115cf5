/** In-memory settings and the settings file agree, through accepted, rejected and failed
    POSTs, other requests, and crashes. */
module Agreement {
  import opened Wrappers
  import opened Disk
  import opened Backups
  import opened Saves
  import opened Settings
  import opened Lifecycle
  import opened Runs
  import Links
  import Stamps
  import BackupNames

  /** What the server holds is what it would load. */
  predicate Agree(sys: Sys)
  {
    LoadSettings(sys.files) == Success(sys.memory)
  }

  lemma SameSettings(f: Files, g: Files)
    requires Same(f, g, SettingsFile)
    ensures LoadSettings(f) == LoadSettings(g)
  {
    hide Overlay;
  }

  lemma ApplySparesSettings(site: Site, sys: Sys, raw: string, e: ApplyEnv)
    ensures Untouched(ApplyOutcome(site, sys, raw, e).steps, SettingsFile)
  {
    hide Links.Node, CreateRun, Rendered, SaveSteps, EncodeState, Stamps.Format;
    CreateTouches(sys.files, e.snapshot, SettingsFile);
    var node := Links.Node(raw, site.lib);
    if node.Success? {
      SavesTouchNoBackup(StateFile, StateTmp, Doc(EncodeState(State(raw, node.value.nodeLabel, e.at))), false,
                           e.save, SettingsFile);
    }
  }

  /** All the steps of a POST after its settings save leave the settings file alone. */
  lemma PostTail(site: Site, sys: Sys, s: Settings, e: PostEnv) returns (tail: seq<Step>)
    requires ValidSettings(s)
    ensures PostOutcome(site, sys, Some(s), e).steps == PostSave(site, s, e) + tail
    ensures Untouched(tail, SettingsFile)
    ensures site.persist && !e.save.Works() ==> tail == []
  {
    hide Links.Node, CreateRun, PostSave, NodeToRender, Rendered, Exec, Stamps.Format, ValidSettings;
    var saved := PostSave(site, s, e);
    var f := Exec(sys.files, saved);
    var node, c := NodeToRender(site, f, e.readable), CreateRun(f, e.snapshot);
    CreateTouches(f, e.snapshot, SettingsFile);
    tail := if (site.persist && !e.save.Works()) || node.None? then []
            else if c.result.Failure? then c.steps
            else c.steps + LiveSteps(node.value, s, e.lan, e.write);
  }

  /** A finished POST leaves memory and file in agreement. */
  lemma PostAgrees(site: Site, sys: Sys, body: Option<Settings>, e: PostEnv)
    requires site.persist && Agree(sys)
    ensures Agree(Next(site, sys, Happening(Post(body, e), None)))
  {
    hide Links.Node, CreateRun, NodeToRender, Rendered, Exec, LoadSettings, SaveSettingsSteps, LiveSteps, Untouched;
    if body.None? || !ValidSettings(body.value) {
      ExecNothing(sys.files);
    } else {
      var s := body.value;
      var saved := SaveSettingsSteps(s, e.save);
      var tail := PostTail(site, sys, s, e);
      assert saved[..|saved|] == saved;
      SettingsSaveIsAtomic(sys.files, s, e.save, |saved|);
      ExecAppend(sys.files, saved, tail);
      UntouchedStays(Exec(sys.files, saved), tail, SettingsFile);
      SameSettings(Exec(Exec(sys.files, saved), tail), Exec(sys.files, saved));
      if !e.save.Works() {
        assert saved + tail == saved;
      }
    }
  }

  lemma OtherSparesSettings(site: Site, sys: Sys, ev: Event)
    requires !ev.Post?
    ensures Untouched(EventOutcome(site, sys, ev).steps, SettingsFile)
    ensures EventOutcome(site, sys, ev).memory == sys.memory
  {
    hide ApplyOutcome, RestoreRun, BackupNames.StampOf, Stamps.Format;
    match ev
    case Apply(raw, e) =>
      ApplySparesSettings(site, sys, raw, e);
      ApplyKeepsMemory(site, sys, raw, e);
    case Restore(file, e) => RestoreTouches(sys.files, site.cfg, file, e, SettingsFile);
    case Delete(_, _) =>
  }

  lemma ApplyKeepsMemory(site: Site, sys: Sys, raw: string, e: ApplyEnv)
    ensures ApplyOutcome(site, sys, raw, e).memory == sys.memory
  {
    hide Links.Node, CreateRun, ApplyMiddle, ApplyTrim;
  }

  /** Wherever a request stops, the settings file still loads. */
  lemma FileStaysLoadable(site: Site, sys: Sys, ev: Event, i: nat)
    requires LoadSettings(sys.files).Success?
    ensures LoadSettings(FilesAfter(site, sys, ev, i)).Success?
  {
    hide ApplyOutcome, PostOutcome, RestoreRun, LoadSettings, Exec, BackupNames.StampOf, Untouched, SaveSettingsSteps;
    var steps := EventOutcome(site, sys, ev).steps;
    var n := AtMost(i, |steps|);
    if !ev.Post? {
      OtherSparesSettings(site, sys, ev);
      UntouchedPrefix(steps, n, SettingsFile);
      UntouchedStays(sys.files, steps[..n], SettingsFile);
      SameSettings(Exec(sys.files, steps[..n]), sys.files);
    } else if ev.body.None? || !ValidSettings(ev.body.value) {
      RejectedPostDoesNothing(site, sys, ev.body, ev.postEnv);
      assert steps[..n] == [];
      ExecNothing(sys.files);
    } else {
      PostStaysLoadable(site, sys, ev.body.value, ev.postEnv, n);
    }
  }

  lemma RejectedPostDoesNothing(site: Site, sys: Sys, body: Option<Settings>, e: PostEnv)
    requires body.None? || !ValidSettings(body.value)
    ensures PostOutcome(site, sys, body, e) == Outcome([], sys.memory, sys.wrote, Rejected)
  {
  }

  lemma PostStaysLoadable(site: Site, sys: Sys, s: Settings, e: PostEnv, n: nat)
    requires ValidSettings(s) && LoadSettings(sys.files).Success? && n <= |PostOutcome(site, sys, Some(s), e).steps|
    ensures LoadSettings(Exec(sys.files, PostOutcome(site, sys, Some(s), e).steps[..n])).Success?
  {
    hide PostOutcome, LoadSettings, Exec, Untouched, SaveSettingsSteps, ValidSettings;
    var tail := PostTail(site, sys, s, e);
    var saved := PostSave(site, s, e);
    var steps := saved + tail;
    var m := AtMost(n, |saved|);
    var f := Exec(sys.files, saved[..m]);
    if site.persist {
      SettingsSaveIsAtomic(sys.files, s, e.save, m);
    } else {
      assert saved[..m] == [];
      ExecNothing(sys.files);
    }
    if n <= |saved| {
      assert steps[..n] == saved[..m];
    } else {
      var rest := tail[..n - |saved|];
      assert steps[..n] == saved + rest && saved[..m] == saved;
      ExecAppend(sys.files, saved, rest);
      UntouchedPrefix(tail, n - |saved|, SettingsFile);
      UntouchedStays(f, rest, SettingsFile);
      SameSettings(Exec(f, rest), f);
    }
  }

  /** One request or crash keeps agreement. */
  lemma StepAgrees(site: Site, sys: Sys, h: Happening)
    requires site.persist && Agree(sys)
    ensures Agree(Next(site, sys, h))
  {
    hide EventOutcome, LoadSettings, Exec, FilesAfter;
    match h.crash
    case Some(i) => FileStaysLoadable(site, sys, h.ev, i);
    case None =>
      assert h == Happening(h.ev, None);
      if h.ev.Post? {
        PostAgrees(site, sys, h.ev.body, h.ev.postEnv);
      } else {
        OtherSparesSettings(site, sys, h.ev);
        UntouchedStays(sys.files, EventOutcome(site, sys, h.ev).steps, SettingsFile);
        SameSettings(Next(site, sys, h).files, sys.files);
      }
  }

  /** After a crash the server starts with what the settings file then loads as, or with the
      defaults when there is no settings path or the file is broken. */
  lemma RestartReads(site: Site, sys: Sys, h: Happening)
    requires h.crash.Some?
    ensures var n := Next(site, sys, h);
      && (!site.persist || LoadSettings(n.files).Failure? ==> n.memory == DEFAULTS)
      && (site.persist && LoadSettings(n.files).Success? ==> LoadSettings(n.files) == Success(n.memory))
  {
    hide FilesAfter, LoadSettings;
  }

  /** Memory and disk agree after every serial run that starts in agreement. */
  lemma {:induction false} MemoryAgreesWithDisk(site: Site, sys: Sys, hs: seq<Happening>)
    requires site.persist && Agree(sys)
    ensures Agree(After(site, sys, hs))
    decreases |hs|
  {
    hide Next, Agree;
    if hs == [] {
    } else {
      StepAgrees(site, sys, hs[0]);
      MemoryAgreesWithDisk(site, Next(site, sys, hs[0]), hs[1..]);
    }
  }

  /** Without a settings path nothing is written, and an accepted POST leaves agreement
      exactly when it posted what the file already gives. */
  lemma WithoutPath(site: Site, sys: Sys, s: Settings, e: PostEnv)
    requires !site.persist && ValidSettings(s)
    ensures Agree(Next(site, sys, Happening(Post(Some(s), e), None))) <==> LoadSettings(sys.files) == Success(s)
  {
    hide LoadSettings, Exec, Untouched, ValidSettings, CreateRun, NodeToRender, LiveSteps;
    var tail := PostTail(site, sys, s, e);
    assert [] + tail == tail;
    UntouchedStays(sys.files, tail, SettingsFile);
    SameSettings(Exec(sys.files, tail), sys.files);
  }
}
