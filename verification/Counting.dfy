/** Which backups a request adds and removes: the set of stamps after any request that ran
    to its end, read off guards on the state before it. */
module Counting {
  import opened Wrappers
  import opened Seqs
  import opened Disk
  import opened Backups
  import opened Saves
  import opened Settings
  import opened Lifecycle
  import opened Runs
  import opened Calendar
  import Links
  import Stamps
  import BackupNames

  /** The snapshot a request takes if it gets that far. */
  function SnapshotOf(ev: Event): Snapshot
    requires !ev.Delete?
  {
    match ev
    case Apply(_, e) => e.snapshot
    case Post(_, e) => e.snapshot
    case Restore(_, e) => e.snapshot
  }

  /** The checks before the snapshot pass. */
  predicate ReachesSnapshot(site: Site, sys: Sys, ev: Event)
  {
    match ev
    case Apply(raw, _) => Links.Node(raw, site.lib).Success?
    case Post(body, e) =>
      && body.Some? && ValidSettings(body.value) && (site.persist ==> e.save.Works())
      && NodeToRender(site, sys.files, e.readable).Some?
    case Restore(file, e) =>
      var stamp := BackupNames.StampOf(site.cfg, file);
      stamp.Some? && Backup(stamp.value) in sys.files && e.stats
    case Delete(_, _) => false
  }

  /** The request creates a backup file, whole or in part. */
  predicate Begins(site: Site, sys: Sys, ev: Event)
  {
    ReachesSnapshot(site, sys, ev) && Starts(sys.files, SnapshotOf(ev))
  }

  /** It does, and the copy gets finished or its remains cannot be removed. */
  predicate Leaves(site: Site, sys: Sys, ev: Event)
  {
    Begins(site, sys, ev) && (SnapshotOf(ev).completes || !SnapshotOf(ev).cleans)
  }

  /** The Delete removes a backup. */
  predicate Deletes(site: Site, sys: Sys, ev: Event)
  {
    && ev.Delete? && ev.removes
    && var stamp := BackupNames.StampOf(site.cfg, ev.target);
       stamp.Some? && Backup(stamp.value) in sys.files
  }

  predicate Trimming(site: Site, sys: Sys, ev: Event)
  {
    ev.Apply? && Trims(site, sys, ev.raw, ev.applyEnv)
  }

  lemma KeepIsPositive(site: Site, sys: Sys, ev: Event)
    requires Trimming(site, sys, ev)
    ensures site.keep > 0
  {
    hide Links.Node, CreateRun;
  }

  /** The stamps a request adds. */
  function Made(site: Site, sys: Sys, ev: Event): set<string>
  {
    if Leaves(site, sys, ev) then {NameOf(SnapshotOf(ev))} else {}
  }

  /** The stamps it removes. */
  function Removed(site: Site, sys: Sys, ev: Event): set<string>
  {
    if Deletes(site, sys, ev) then {BackupNames.StampOf(site.cfg, ev.target).value}
    else if Trimming(site, sys, ev) then
      set s | s in Gone(ev.applyEnv.order, site.keep) && s !in ev.applyEnv.stuck
    else {}
  }

  lemma SameStamps(f: Files, steps: seq<Step>)
    requires forall k :: Untouched(steps, Backup(k))
    ensures StampsIn(Exec(f, steps)) == StampsIn(f)
  {
    hide Exec, StampsIn, Stamps.ParseStamp, Untouched;
    forall s
      ensures s in StampsIn(Exec(f, steps)) <==> s in StampsIn(f)
    {
      UntouchedStays(f, steps, Backup(s));
      BackupsIff(f, s);
      BackupsIff(Exec(f, steps), s);
    }
  }

  /** What Create does to its own name. */
  lemma CreateOwn(f: Files, e: Snapshot)
    ensures var own := Backup(NameOf(e));
      own in Exec(f, CreateRun(f, e).steps) <==> own in f || (Starts(f, e) && (e.completes || !e.cleans))
  {
    hide Stamps.Format;
    var c := CreateRun(f, e);
    if Starts(f, e) {
      var own := Backup(NameOf(e));
      var begun := [Put(own, EMPTY), Put(own, e.partial)];
      var last := c.steps[2..];
      assert c.steps == begun + last;
      ExecAppend(f, begun, last);
      ExecAppend(f, [begun[0]], [begun[1]]);
      assert begun == [begun[0]] + [begun[1]];
      ExecOne(f, begun[0]);
      ExecOne(f[own := EMPTY], begun[1]);
      if last != [] {
        assert last == [c.steps[2]];
        ExecOne(Exec(f, begun), c.steps[2]);
      }
    }
  }

  lemma CreateStamps(f: Files, e: Snapshot)
    requires IsCivil(e.now)
    ensures Starts(f, e) ==> NameOf(e) !in StampsIn(f)
    ensures StampsIn(Exec(f, CreateRun(f, e).steps))
         == StampsIn(f) + if Starts(f, e) && (e.completes || !e.cleans) then {NameOf(e)} else {}
  {
    hide Exec, StampsIn, CreateRun, IsCivil, Stamps.Format, Stamps.ParseStamp, Untouched;
    var g := Exec(f, CreateRun(f, e).steps);
    Stamps.ParseFormat(e.now);
    CreateOwn(f, e);
    BackupsIff(f, NameOf(e));
    BackupsIff(g, NameOf(e));
    forall s | s != NameOf(e)
      ensures s in StampsIn(g) <==> s in StampsIn(f)
    {
      CreateTouches(f, e, Backup(s));
      UntouchedStays(f, CreateRun(f, e).steps, Backup(s));
      BackupsIff(f, s);
      BackupsIff(g, s);
    }
  }

  /** The trim at the end of an Apply that gets there. */
  function TrimPart(site: Site, sys: Sys, ev: Event): seq<Step>
  {
    if Trimming(site, sys, ev) then ApplyTrim(site, ev.applyEnv) else []
  }

  /** The steps up to the trim. */
  function UpToTrim(sys: Sys, e: Snapshot, before: seq<Step>, after: seq<Step>): seq<Step>
  {
    before + CreateRun(Exec(sys.files, before), e).steps + after
  }

  /** The steps of a request taken apart at its snapshot: what comes before and after it
      touches no backup, except for a trim at the end. */
  ghost predicate ArePartsOf(site: Site, sys: Sys, ev: Event, before: seq<Step>, after: seq<Step>)
    requires !ev.Delete?
  {
    && EventOutcome(site, sys, ev).steps
       == UpToTrim(sys, SnapshotOf(ev), before, after) + TrimPart(site, sys, ev)
    && (Trimming(site, sys, ev) ==>
          FilesAtTrim(site, sys, ev.raw, ev.applyEnv) == Exec(sys.files, UpToTrim(sys, SnapshotOf(ev), before, after)))
    && Untouched(before, Live)
    && forall k :: Untouched(before, Backup(k)) && Untouched(after, Backup(k))
  }

  lemma ApplyParts(site: Site, sys: Sys, raw: string, e: ApplyEnv) returns (after: seq<Step>)
    requires Links.Node(raw, site.lib).Success?
    ensures ArePartsOf(site, sys, Apply(raw, e), [], after)
  {
    hide Links.Node, CreateRun, ApplyMiddle, ApplyTrim, Exec, Stamps.Format, Untouched, ReachesTrim;
    var n, c := Links.Node(raw, site.lib).value, CreateRun(sys.files, e.snapshot);
    after := if c.result.Success? then ApplyMiddle(sys, raw, n, e) else [];
    ExecNothing(sys.files);
    NothingTouches(Live);
    forall k
      ensures Untouched([], Backup(k)) && Untouched(after, Backup(k))
    {
      NothingTouches(Backup(k));
      MiddleTouchesNoBackup(sys, raw, n, e, k);
    }
    assert [] + c.steps == c.steps;
    Assoc(c.steps, after, ApplyTrim(site, e));
    NoTrimMeansNone(site, e);
  }

  lemma NoTrimMeansNone(site: Site, e: ApplyEnv)
    ensures !ReachesTrim(site, e) ==> ApplyTrim(site, e) == []
  {
  }

  lemma PostParts(site: Site, sys: Sys, body: Option<Settings>, e: PostEnv)
    returns (before: seq<Step>, after: seq<Step>)
    requires ReachesSnapshot(site, sys, Post(body, e))
    ensures ArePartsOf(site, sys, Post(body, e), before, after)
  {
    hide Links.Node, CreateRun, Exec, Stamps.Format, ValidSettings, PostSave, LoadState, LiveSteps, Untouched;
    var s := body.value;
    before := PostSave(site, s, e);
    var f := Exec(sys.files, before);
    PostSaveTouches(site, s, e, StateFile);
    PostSaveTouches(site, s, e, Live);
    UntouchedStays(sys.files, before, StateFile);
    SameState(f, sys.files);
    var n := NodeToRender(site, f, e.readable).value;
    after := if CreateRun(f, e.snapshot).result.Success? then LiveSteps(n, s, e.lan, e.write) else [];
    forall k
      ensures Untouched(before, Backup(k)) && Untouched(after, Backup(k))
    {
      NothingTouches(Backup(k));
      PostSaveTouches(site, s, e, Backup(k));
      LiveStepsTouch(n, s, e.lan, e.write, Backup(k));
    }
  }

  lemma RestoreParts(site: Site, sys: Sys, file: string, e: RestoreEnv) returns (after: seq<Step>)
    requires ReachesSnapshot(site, sys, Restore(file, e))
    ensures ArePartsOf(site, sys, Restore(file, e), [], after)
  {
    hide CreateRun, Exec, Stamps.Format, BackupNames.StampOf, WriteSteps, Untouched;
    var c, body := CreateRun(sys.files, e.snapshot), sys.files[Backup(BackupNames.StampOf(site.cfg, file).value)];
    after := if c.result.Success? && e.readable then WriteSteps(Live, e.write, body) else [];
    ExecNothing(sys.files);
    NothingTouches(Live);
    forall k
      ensures Untouched([], Backup(k)) && Untouched(after, Backup(k))
    {
      NothingTouches(Backup(k));
      WriteTouches(Live, e.write, body, Backup(k));
    }
    assert [] + c.steps == c.steps;
  }

  lemma Parts(site: Site, sys: Sys, ev: Event) returns (before: seq<Step>, after: seq<Step>)
    requires ReachesSnapshot(site, sys, ev)
    ensures ArePartsOf(site, sys, ev, before, after)
  {
    hide ArePartsOf;
    before, after := [], [];
    match ev
    case Apply(raw, e) => after := ApplyParts(site, sys, raw, e);
    case Post(body, e) => before, after := PostParts(site, sys, body, e);
    case Restore(file, e) => after := RestoreParts(site, sys, file, e);
  }

  /** A request that stops before its snapshot touches no backup. */
  lemma StopsShort(site: Site, sys: Sys, ev: Event, k: string)
    requires !ReachesSnapshot(site, sys, ev) && !ev.Delete?
    ensures Untouched(EventOutcome(site, sys, ev).steps, Backup(k))
  {
    hide Links.Node, CreateRun, Exec, Stamps.Format, ValidSettings, BackupNames.StampOf, PostSave, LoadState, LiveSteps,
      Untouched;
    NothingTouches(Backup(k));
    if ev.Post? && ev.body.Some? {
      var saved := PostSave(site, ev.body.value, ev.postEnv);
      PostSaveTouches(site, ev.body.value, ev.postEnv, Backup(k));
      PostSaveTouches(site, ev.body.value, ev.postEnv, StateFile);
      UntouchedStays(sys.files, saved, StateFile);
      SameState(Exec(sys.files, saved), sys.files);
    }
  }

  /** The stamps when a request has made its snapshot and not trimmed yet. */
  lemma StampsAfterSnapshot(site: Site, sys: Sys, ev: Event, before: seq<Step>, after: seq<Step>)
    requires ReachesSnapshot(site, sys, ev) && !ev.Delete? && IsCivil(SnapshotOf(ev).now)
    requires ArePartsOf(site, sys, ev, before, after)
    ensures StampsIn(Exec(sys.files, UpToTrim(sys, SnapshotOf(ev), before, after)))
         == StampsIn(sys.files) + Made(site, sys, ev)
    ensures Made(site, sys, ev) !! StampsIn(sys.files)
  {
    hide Exec, StampsIn, CreateRun, ReachesSnapshot, IsCivil, Stamps.Format, Untouched, EventOutcome, FilesAtTrim,
      Trimming;
    var e, f := SnapshotOf(ev), Exec(sys.files, before);
    var c := CreateRun(f, e).steps;
    UntouchedStays(sys.files, before, Live);
    UntouchedStays(sys.files, before, Backup(NameOf(e)));
    SameStamps(sys.files, before);
    CreateStamps(f, e);
    SameStamps(Exec(f, c), after);
    ExecAppend(sys.files, before, c);
    ExecAppend(sys.files, before + c, after);
  }

  lemma TrimStamps(f: Files, order: seq<string>, keep: int, stuck: set<string>)
    requires keep > 0
    ensures StampsIn(Exec(f, TrimSteps(order, keep, stuck)))
         == StampsIn(f) - set s | s in Gone(order, keep) && s !in stuck
  {
    hide Exec, StampsIn, Stamps.ParseStamp;
    RemovalsNone(stuck);
    RemovalsLeave(f, Gone(order, keep), stuck);
    var g := Exec(f, TrimSteps(order, keep, stuck));
    forall s
      ensures s in StampsIn(g) <==> s in StampsIn(f) && !(s in Gone(order, keep) && s !in stuck)
    {
      BackupsIff(f, s);
      BackupsIff(g, s);
    }
  }

  /** After a request that ran to its end, the backups are those before it, with what its
      guards say it makes and without what they say it removes. */
  lemma StampsAfter(site: Site, sys: Sys, clock: int, ev: Event)
    requires Fits(site, sys, clock, ev)
    ensures StampsIn(Next(site, sys, Happening(ev, None)).files)
         == StampsIn(sys.files) + Made(site, sys, ev) - Removed(site, sys, ev)
    ensures Made(site, sys, ev) !! StampsIn(sys.files)
    ensures Removed(site, sys, ev) <= StampsIn(sys.files) + Made(site, sys, ev)
  {
    hide EventOutcome, Next, StampsIn, Fits, Removed, ReachesSnapshot, Leaves;
    if ev.Delete? {
      DeletedStamps(site, sys, ev);
    } else if ReachesSnapshot(site, sys, ev) {
      SnapshotStamps(site, sys, clock, ev);
    } else {
      ShortStamps(site, sys, ev);
    }
  }

  lemma ShortStamps(site: Site, sys: Sys, ev: Event)
    requires !ReachesSnapshot(site, sys, ev) && !ev.Delete?
    ensures StampsIn(Next(site, sys, Happening(ev, None)).files) == StampsIn(sys.files)
    ensures Made(site, sys, ev) == Removed(site, sys, ev) == {}
  {
    hide EventOutcome, Exec, StampsIn, CreateRun, ReachesTrim, Links.Node, BackupNames.StampOf, Untouched;
    forall k
      ensures Untouched(EventOutcome(site, sys, ev).steps, Backup(k))
    {
      StopsShort(site, sys, ev, k);
    }
    SameStamps(sys.files, EventOutcome(site, sys, ev).steps);
  }

  lemma DeletedStamps(site: Site, sys: Sys, ev: Event)
    requires ev.Delete?
    ensures StampsIn(Next(site, sys, Happening(ev, None)).files) == StampsIn(sys.files) - Removed(site, sys, ev)
    ensures Removed(site, sys, ev) <= StampsIn(sys.files)
    ensures Made(site, sys, ev) == {}
  {
    hide StampsIn, Stamps.ParseStamp, BackupNames.StampOf, Exec;
    var f, g := sys.files, Next(site, sys, Happening(ev, None)).files;
    ExecNothing(f);
    if Deletes(site, sys, ev) {
      var stamp := BackupNames.StampOf(site.cfg, ev.target).value;
      ExecOne(f, Step.Remove(Backup(stamp)));
      AcceptedIsStamp(site, ev.target);
      BackupsIff(f, stamp);
      forall s
        ensures s in StampsIn(g) <==> s in StampsIn(f) && s != stamp
      {
        BackupsIff(f, s);
        BackupsIff(g, s);
      }
    }
  }

  lemma AcceptedIsStamp(site: Site, file: string)
    requires BackupNames.StampOf(site.cfg, file).Some?
    ensures Stamps.ParseStamp(BackupNames.StampOf(site.cfg, file).value).Some?
  {
    hide Stamps.ParseStamp;
  }

  /** What an Apply lists for its trim. */
  lemma StampsAtTrim(site: Site, sys: Sys, ev: Event)
    requires Trimming(site, sys, ev) && IsCivil(ev.applyEnv.snapshot.now)
    ensures StampsIn(FilesAtTrim(site, sys, ev.raw, ev.applyEnv)) == StampsIn(sys.files) + Made(site, sys, ev)
  {
    hide EventOutcome, Exec, StampsIn, UpToTrim, FilesAtTrim, Leaves, IsCivil, Untouched, CreateRun;
    var before, after := Parts(site, sys, ev);
    StampsAfterSnapshot(site, sys, ev, before, after);
  }

  lemma SnapshotStamps(site: Site, sys: Sys, clock: int, ev: Event)
    requires Fits(site, sys, clock, ev) && !ev.Delete? && ReachesSnapshot(site, sys, ev)
    ensures StampsIn(Next(site, sys, Happening(ev, None)).files)
         == StampsIn(sys.files) + Made(site, sys, ev) - Removed(site, sys, ev)
    ensures Made(site, sys, ev) !! StampsIn(sys.files)
    ensures Removed(site, sys, ev) <= StampsIn(sys.files) + Made(site, sys, ev)
  {
    hide EventOutcome, Exec, StampsIn, UpToTrim, FilesAtTrim, ReachesSnapshot, Leaves, IsCivil, Untouched, TrimSteps,
      Fits, Trimming;
    var before, after := Parts(site, sys, ev);
    ReadingIsCivil(site, sys, clock, ev);
    StampsAfterSnapshot(site, sys, ev, before, after);
    var head := UpToTrim(sys, SnapshotOf(ev), before, after);
    ExecAppend(sys.files, head, TrimPart(site, sys, ev));
    if Trimming(site, sys, ev) {
      TrimPartStamps(site, sys, clock, ev, Exec(sys.files, head));
    } else {
      ExecNothing(Exec(sys.files, head));
    }
  }

  lemma TrimPartStamps(site: Site, sys: Sys, clock: int, ev: Event, f: Files)
    requires Fits(site, sys, clock, ev) && Trimming(site, sys, ev)
    requires f == FilesAtTrim(site, sys, ev.raw, ev.applyEnv)
    ensures StampsIn(Exec(f, TrimPart(site, sys, ev))) == StampsIn(f) - Removed(site, sys, ev)
    ensures Removed(site, sys, ev) <= StampsIn(f)
  {
    hide Exec, StampsIn, FilesAtTrim, TrimSteps, Links.Node, CreateRun, IsCivil;
    TrimStamps(f, ev.applyEnv.order, site.keep, ev.applyEnv.stuck);
    assert forall s :: s in Gone(ev.applyEnv.order, site.keep) ==> s in ev.applyEnv.order;
  }

  // -------------------------------------------------------------------------
  // Why a backup leaves
  // -------------------------------------------------------------------------

  /** A Delete names the backup, or an Apply that trims lists it behind keep others and can
      remove it. */
  predicate Drops(site: Site, sys: Sys, ev: Event, k: string)
  {
    k in Removed(site, sys, ev)
  }

  /** Nothing else touches a backup that is there. */
  lemma OthersAreSpared(site: Site, sys: Sys, ev: Event, k: string)
    requires Backup(k) in sys.files && !Drops(site, sys, ev, k)
    ensures Untouched(EventOutcome(site, sys, ev).steps, Backup(k))
  {
    if ev.Delete? {
      DeleteSpares(site, sys, ev, k);
    } else if ReachesSnapshot(site, sys, ev) {
      SnapshotSpares(site, sys, ev, k);
    } else {
      StopsShort(site, sys, ev, k);
    }
  }

  lemma DeleteSpares(site: Site, sys: Sys, ev: Event, k: string)
    requires ev.Delete? && !Drops(site, sys, ev, k)
    ensures Untouched(EventOutcome(site, sys, ev).steps, Backup(k))
  {
    hide BackupNames.StampOf;
  }

  lemma SnapshotSpares(site: Site, sys: Sys, ev: Event, k: string)
    requires !ev.Delete? && ReachesSnapshot(site, sys, ev)
    requires Backup(k) in sys.files && !Drops(site, sys, ev, k)
    ensures Untouched(EventOutcome(site, sys, ev).steps, Backup(k))
  {
    hide EventOutcome, ReachesSnapshot, Stamps.Format, Exec, Trims, FilesAtTrim, Untouched, CreateRun, ApplyTrim;
    var before, after := Parts(site, sys, ev);
    var f, e := Exec(sys.files, before), SnapshotOf(ev);
    var c := CreateRun(f, e).steps;
    UntouchedStays(sys.files, before, Backup(k));
    CreateSpares(f, e, k);
    UntouchedAppend(before, c, Backup(k));
    UntouchedAppend(before + c, after, Backup(k));
    NothingTouches(Backup(k));
    if Trimming(site, sys, ev) {
      TrimSpares(site, sys, ev, k);
    }
    UntouchedAppend(before + c + after, TrimPart(site, sys, ev), Backup(k));
  }

  /** Exclusive creation: Create does nothing to a file that is there. */
  lemma CreateSpares(f: Files, e: Snapshot, k: string)
    requires Backup(k) in f
    ensures Untouched(CreateRun(f, e).steps, Backup(k))
  {
    hide Stamps.Format;
    if k != NameOf(e) {
      CreateTouches(f, e, Backup(k));
    }
  }

  lemma TrimSpares(site: Site, sys: Sys, ev: Event, k: string)
    requires Trimming(site, sys, ev) && !Drops(site, sys, ev, k)
    ensures Untouched(ApplyTrim(site, ev.applyEnv), Backup(k))
  {
    hide Trims, Untouched;
    NothingTouches(Backup(k));
    KeepIsPositive(site, sys, ev);
    RemovalsSpare(Gone(ev.applyEnv.order, site.keep), ev.applyEnv.stuck, k);
    RemovalsNone(ev.applyEnv.stuck);
  }

  lemma {:induction false} RemovalsSpare(gone: seq<string>, stuck: set<string>, k: string)
    requires k !in gone || k in stuck
    ensures Untouched(Removals(gone, stuck), Backup(k))
  {
    if gone == [] {
    } else {
      assert gone[0] in gone && forall s :: s in gone[1..] ==> s in gone;
      RemovalsSpare(gone[1..], stuck, k);
    }
  }

  /** Over any run, with failures and crashes: a backup stays as it is, unless some request
      of the run drops it. */
  lemma {:induction false} BackupsLeaveForAReason(site: Site, sys: Sys, hs: seq<Happening>, k: string)
    requires Backup(k) in sys.files
    ensures Same(After(site, sys, hs).files, sys.files, Backup(k))
         || exists j :: 0 <= j < |hs| && Drops(site, After(site, sys, hs[..j]), hs[j].ev, k)
    decreases |hs|
  {
    hide Next, Drops;
    if hs == [] {
    } else if Drops(site, sys, hs[0].ev, k) {
      assert hs[..0] == [];
    } else {
      StepSpares(site, sys, hs[0], k);
      var n, rest := Next(site, sys, hs[0]), hs[1..];
      BackupsLeaveForAReason(site, n, rest, k);
      if !Same(After(site, n, rest).files, n.files, Backup(k)) {
        var j :| 0 <= j < |rest| && Drops(site, After(site, n, rest[..j]), rest[j].ev, k);
        assert hs[..j + 1][0] == hs[0] && hs[..j + 1][1..] == rest[..j];
        assert Drops(site, After(site, sys, hs[..j + 1]), hs[j + 1].ev, k);
      }
    }
  }

  lemma StepSpares(site: Site, sys: Sys, h: Happening, k: string)
    requires Backup(k) in sys.files && !Drops(site, sys, h.ev, k)
    ensures Same(Next(site, sys, h).files, sys.files, Backup(k))
  {
    hide EventOutcome, Exec, Next, Drops, Untouched;
    var i := NextIsPrefix(site, sys, h);
    OthersAreSpared(site, sys, h.ev, k);
    UntouchedPrefix(EventOutcome(site, sys, h.ev).steps, i, Backup(k));
    UntouchedStays(sys.files, EventOutcome(site, sys, h.ev).steps[..i], Backup(k));
  }
}
