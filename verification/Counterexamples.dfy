/** Runs written out in which a promise of the repository's comments fails. */
module Counterexamples {
  import opened Wrappers
  import opened Calendar
  import opened Disk
  import opened Backups
  import opened Saves
  import opened Settings
  import opened Lifecycle
  import opened Runs
  import opened Counting
  import opened Retention
  import opened Managed
  import opened Claims
  import Links
  import Nodes
  import Render
  import Socks
  import Vless
  import Hysteria2
  import Stamps
  import Text
  import BackupNames

  // -------------------------------------------------------------------------
  // Three nodes, and an environment in which everything works
  // -------------------------------------------------------------------------

  const URI_A := "socks5://u:p@a:1080"
  const URI_B := "socks5://u:p@b:1080"
  /** The address of the first with another password. */
  const URI_C := "socks5://u:q@a:1080"

  function SocksNode(host: string, password: string): Nodes.Outbound
  {
    Nodes.Outbound("socks", "proxy", host, 1080, password, "", "", "5", "u", None, None, None)
  }

  const LIB := Nodes.Library(
    t => if t == URI_A then Some(Socks.UriFor(SocksNode("a", "p")))
         else if t == URI_B then Some(Socks.UriFor(SocksNode("b", "p")))
         else if t == URI_C then Some(Socks.UriFor(SocksNode("a", "q")))
         else None,
    h => false)

  /** The site, without a settings path. */
  function SiteKeeping(keep: int): Site
  {
    Site("/etc/sing-box/config.json", keep, false, LIB)
  }

  /** The s-th second of 2025. */
  function At(s: nat): Civil
    requires s < 60
    ensures IsCivil(At(s))
  {
    Civil(2025, 1, 1, 0, 0, s)
  }

  const WORKS := Write(true, EMPTY, true)
  const SAVES := SaveEnv(true, WORKS, true, true)

  function SnapshotAt(s: nat): Snapshot
    requires s < 60
  {
    Snapshot(At(s), true, true, EMPTY, true, true)
  }

  /** An Apply whose trim finds order and cannot remove the backups in stuck. */
  function ApplyStuck(s: nat, order: seq<string>, stuck: set<string>): ApplyEnv
    requires s < 60
  {
    ApplyEnv(None, true, SnapshotAt(s), true, WORKS, true, SAVES, 0, true, {}, order, stuck)
  }

  function ApplyAt(s: nat, order: seq<string>): ApplyEnv
    requires s < 60
  {
    ApplyStuck(s, order, {})
  }

  function RestoreAt(s: nat): RestoreEnv
    requires s < 60
  {
    RestoreEnv(true, SnapshotAt(s), true, WORKS)
  }

  function PostAt(s: nat): PostEnv
    requires s < 60
  {
    PostEnv(SAVES, true, None, SnapshotAt(s), WORKS, true)
  }

  function NameAt(s: nat): string
    requires s < 60
  {
    Stamps.Format(At(s))
  }

  lemma HostParses(host: string, password: string)
    requires host != ""
    ensures var o := SocksNode(host, password);
      var r := Socks.SocksNode(Socks.UriFor(o), LIB); r.Success? && r.value.outbound == o
  {
    hide Socks.SocksOutbound, Socks.SocksDisplay, Socks.Accepts, Socks.SocksRefusal, Socks.UriFor, Text.ToLower, LIB;
    Socks.EveryWellFormedIsParsed(SocksNode(host, password));
    Socks.RefusalIsExact(Socks.UriFor(SocksNode(host, password)));
  }

  lemma SplitNode(host: string, password: string)
    requires host != ""
    ensures var o := SocksNode(host, password);
      var r := Links.UriNode(Socks.UriFor(o), LIB); r.Success? && r.value.outbound == o
  {
    hide Socks.SocksNode, Text.Decimal, Text.ToLower, Vless.VlessNode, Hysteria2.Hysteria2Node, LIB;
    HostParses(host, password);
    Socks.LowerSchemes("socks5");
  }

  /** The node each text stands for. */
  function NodeFor(text: string): Nodes.Outbound
  {
    if text == URI_A then SocksNode("a", "p") else if text == URI_B then SocksNode("b", "p") else SocksNode("a", "q")
  }

  predicate IsOurs(text: string) { text == URI_A || text == URI_B || text == URI_C }

  lemma NodeOf(text: string)
    requires IsOurs(text)
    ensures Links.Node(text, LIB).Success? && Links.Node(text, LIB).value.outbound == NodeFor(text)
  {
    hide Links.UriNode, Text.TrimSpace, Text.IsSpace, SocksNode, Socks.UriFor;
    UrisAreTrimmed();
    Text.TrimmedStays(text);
    SplitNode("a", "p");
    SplitNode("b", "p");
    SplitNode("a", "q");
  }

  lemma UrisAreTrimmed()
    ensures Text.Trimmed(URI_A) && Text.Trimmed(URI_B) && Text.Trimmed(URI_C)
  {
  }

  /** Different seconds have different names. */
  lemma Distinct(s: nat, t: nat)
    requires s < 60 && t < 60
    ensures NameAt(s) == NameAt(t) <==> s == t
  {
    hide Stamps.Format, DayNumber;
    Stamps.FormatOrder(At(s), At(t));
  }

  lemma NameIsStamp(s: nat)
    requires s < 60
    ensures Stamps.ParseStamp(NameAt(s)).Some? && Instant(NameAt(s)) == InstantOf(At(s))
  {
    hide Stamps.Format, Stamps.ParseStamp, Seconds;
    Stamps.ParseFormat(At(s));
  }

  /** A request at second s fits after second r. */
  lemma ReadsLater(r: nat, s: nat)
    requires r < s < 60
    ensures InstantOf(At(r)) < InstantOf(At(s))
  {
    hide DayNumber;
  }

  lemma Unused(f: Files, s: nat)
    requires s < 60 && NameAt(s) !in StampsIn(f)
    ensures Backup(NameAt(s)) !in f
  {
    hide Stamps.Format, Stamps.ParseStamp, StampsIn;
    NameIsStamp(s);
    BackupsIff(f, NameAt(s));
  }

  lemma FitsHere(keep: int, sys: Sys, r: nat, s: nat, ev: Event)
    requires r < s < 60 && Reading(ev) == Some(At(s))
    requires Trimming(SiteKeeping(keep), sys, ev) ==>
               var e := ev.applyEnv;
               IsListing(FilesAtTrim(SiteKeeping(keep), sys, ev.raw, e), e.hidden, e.order)
    ensures Fits(SiteKeeping(keep), sys, InstantOf(At(r)), ev)
  {
    hide InstantOf, Trims, FilesAtTrim, IsListing, SiteKeeping;
    ReadsLater(r, s);
  }

  lemma SnapshotWorks(f: Files, s: nat)
    requires s < 60 && NameAt(s) !in StampsIn(f)
    ensures CreateRun(f, SnapshotAt(s)).result.Success?
    ensures Live in f ==> Starts(f, SnapshotAt(s))
  {
    hide Stamps.Format, StampsIn;
    Unused(f, s);
  }

  /** An Apply here succeeds and makes a snapshot of what was live. */
  lemma ApplyWorks(keep: int, sys: Sys, raw: string, s: nat, order: seq<string>, stuck: set<string>)
    requires s < 60 && NameAt(s) !in StampsIn(sys.files) && Links.Node(raw, LIB).Success?
    ensures AppliedFully(SiteKeeping(keep), sys, raw, ApplyStuck(s, order, stuck))
    ensures Trimming(SiteKeeping(keep), sys, Apply(raw, ApplyStuck(s, order, stuck))) <==> keep > 0
    ensures Made(SiteKeeping(keep), sys, Apply(raw, ApplyStuck(s, order, stuck)))
         == if Live in sys.files then {NameAt(s)} else {}
  {
    hide Links.Node, Stamps.Format, StampsIn, CreateRun, ApplyMiddle, ApplyTrim, Starts, LIB;
    SnapshotWorks(sys.files, s);
    if Live !in sys.files {
      assert !Starts(sys.files, SnapshotAt(s)) by {
        NoStart(sys.files, SnapshotAt(s));
      }
    }
  }

  lemma NoStart(f: Files, e: Snapshot)
    requires Live !in f
    ensures !Starts(f, e)
  {
  }

  /** So does a Restore of the backup made at second r. */
  lemma RestoreWorks(keep: int, sys: Sys, r: nat, s: nat)
    requires r < 60 && s < 60 && NameAt(s) !in StampsIn(sys.files)
    requires NameAt(r) in StampsIn(sys.files) && Live in sys.files
    ensures var site := SiteKeeping(keep);
      EventOutcome(site, sys, Restore(PathOf(site, NameAt(r)), RestoreAt(s))).reply.Restored?
  {
    hide Stamps.Format, Stamps.ParseStamp, StampsIn, CreateRun, RestoreRun, Exec;
    BackupsIff(sys.files, NameAt(r));
    SnapshotWorks(sys.files, s);
    ListedCanBeRestored(SiteKeeping(keep), sys.files, NameAt(r), RestoreAt(s));
  }

  /** What a Restore leaves: a new backup, and the state file as it was. */
  lemma RestoreLeaves(site: Site, sys: Sys, clock: int, ev: Event)
    requires ev.Restore? && Fits(site, sys, clock, ev) && Live in sys.files
    requires EventOutcome(site, sys, ev).reply.Restored?
    ensures var g := Next(site, sys, Happening(ev, None)).files;
      && Live in g && Same(g, sys.files, StateFile)
      && StampsIn(g) == StampsIn(sys.files) + {NameOf(ev.restoreEnv.snapshot)}
  {
    hide RestoreRun, Stamps.Format, Exec, StampsIn, Fits, BackupNames.StampOf, Leaves, Untouched;
    RestoreReplaces(sys.files, site.cfg, ev.file, ev.restoreEnv);
    AddsOneLeaves(site, sys, Happening(ev, None));
    StampsAfter(site, sys, clock, ev);
    RestoreTouches(sys.files, site.cfg, ev.file, ev.restoreEnv, StateFile);
    UntouchedStays(sys.files, EventOutcome(site, sys, ev).steps, StateFile);
  }

  lemma RestoreStep(keep: int, sys: Sys, r: nat, s: nat)
    requires r < s < 60 && NameAt(s) !in StampsIn(sys.files)
    requires NameAt(r) in StampsIn(sys.files) && Live in sys.files
    ensures var ev := Restore(PathOf(SiteKeeping(keep), NameAt(r)), RestoreAt(s));
      var g := Next(SiteKeeping(keep), sys, Happening(ev, None)).files;
      && Fits(SiteKeeping(keep), sys, InstantOf(At(r)), ev)
      && EventOutcome(SiteKeeping(keep), sys, ev).reply.Restored?
      && Live in g && Same(g, sys.files, StateFile) && StampsIn(g) == StampsIn(sys.files) + {NameAt(s)}
  {
    hide PathOf, Stamps.Format, StampsIn, RestoreRun, InstantOf, Next, SiteKeeping, Fits;
    var ev := Restore(PathOf(SiteKeeping(keep), NameAt(r)), RestoreAt(s));
    RestoreWorks(keep, sys, r, s);
    FitsHere(keep, sys, r, s, ev);
    RestoreLeaves(SiteKeeping(keep), sys, InstantOf(At(r)), ev);
  }

  /** And a POST of the defaults, with a state file that names one of the nodes. */
  lemma PostWorks(keep: int, sys: Sys, s: nat)
    requires s < 60 && NameAt(s) !in StampsIn(sys.files)
    requires LoadState(sys.files).Success? && LoadState(sys.files).value.Some?
    requires Links.Node(LoadState(sys.files).value.value.uri, LIB).Success?
    ensures PostOutcome(SiteKeeping(keep), sys, Some(DEFAULTS), PostAt(s)).reply == Posted(true, true, None)
  {
    hide Links.Node, Stamps.Format, StampsIn, CreateRun, LoadState, LiveSteps, Exec, LIB;
    SnapshotWorks(sys.files, s);
    ExecNothing(sys.files);
  }

  // -------------------------------------------------------------------------
  // A settings POST that does not re-render the node that is live
  // -------------------------------------------------------------------------

  /** All backups are kept. */
  const SITE := SiteKeeping(0)
  const EMPTY_DISK := Sys(map[], DEFAULTS, None)

  const APPLY_A := Apply(URI_A, ApplyAt(1, []))
  function ApplySecond(raw: string): Event { Apply(raw, ApplyAt(2, [])) }
  const RESTORE_A := Restore(PathOf(SITE, NameAt(2)), RestoreAt(3))
  const POST := Post(Some(DEFAULTS), PostAt(4))

  /** Apply(A), Apply of another node, Restore of A's configuration. */
  function Three(raw: string): seq<Happening>
  {
    [Happening(APPLY_A, None), Happening(ApplySecond(raw), None), Happening(RESTORE_A, None)]
  }

  function AfterA(): Sys { Next(SITE, EMPTY_DISK, Happening(APPLY_A, None)) }
  function AfterTwo(raw: string): Sys { Next(SITE, AfterA(), Happening(ApplySecond(raw), None)) }
  function AfterThree(raw: string): Sys { Next(SITE, AfterTwo(raw), Happening(RESTORE_A, None)) }
  function AfterPost(): Sys { Next(SITE, AfterThree(URI_B), Happening(POST, None)) }

  lemma ApplyLeaves(sys: Sys, raw: string, s: nat)
    requires 0 < s < 60 && NameAt(s) !in StampsIn(sys.files) && Links.Node(raw, LIB).Success?
    ensures var g := Next(SITE, sys, Happening(Apply(raw, ApplyAt(s, [])), None)).files;
      && AppliedFully(SITE, sys, raw, ApplyAt(s, []))
      && Live in g && StampsIn(g) == StampsIn(sys.files) + (if Live in sys.files then {NameAt(s)} else {})
      && LoadState(g).Success? && LoadState(g).value.Some? && LoadState(g).value.value.uri == raw
  {
    hide Links.Node, Exec, Stamps.Format, StampsIn, LoadState, ApplyOutcome, Trims, Made, InstantOf, LIB;
    var ev := Apply(raw, ApplyAt(s, []));
    ApplyWorks(0, sys, raw, s, [], {});
    FitsHere(0, sys, 0, s, ev);
    StampsAfter(SITE, sys, InstantOf(At(0)), ev);
    ApplyEnds(SITE, sys, raw, ApplyAt(s, []));
  }

  lemma FirstApply()
    ensures AppliedFully(SITE, EMPTY_DISK, URI_A, ApplyAt(1, []))
    ensures Live in AfterA().files && StampsIn(AfterA().files) == {}
  {
    hide Next, AppliedFully, Stamps.Format, LoadState;
    NodeOf(URI_A);
    ApplyLeaves(EMPTY_DISK, URI_A, 1);
    assert StampsIn(map[]) == {};
  }

  lemma SecondApply(raw: string)
    requires IsOurs(raw)
    ensures AppliedFully(SITE, AfterA(), raw, ApplyAt(2, []))
    ensures Live in AfterTwo(raw).files && StampsIn(AfterTwo(raw).files) == {NameAt(2)}
    ensures var st := LoadState(AfterTwo(raw).files); st.Success? && st.value.Some? && st.value.value.uri == raw
  {
    hide Next, AppliedFully, Stamps.Format, StampsIn, LoadState, AfterA, IsOurs;
    NodeOf(raw);
    FirstApply();
    ApplyLeaves(AfterA(), raw, 2);
  }

  lemma RestoreOfA(raw: string)
    requires IsOurs(raw)
    ensures EventOutcome(SITE, AfterTwo(raw), RESTORE_A).reply.Restored?
    ensures Live in AfterThree(raw).files && StampsIn(AfterThree(raw).files) == {NameAt(2), NameAt(3)}
    ensures Same(AfterThree(raw).files, AfterTwo(raw).files, StateFile)
  {
    hide AfterTwo, Stamps.Format, StampsIn, LoadState, EventOutcome, Next, PathOf, SiteKeeping, Fits, RestoreAt, IsOurs;
    SecondApply(raw);
    Distinct(2, 3);
    RestoreStep(0, AfterTwo(raw), 2, 3);
  }

  lemma PostReRenders()
    ensures PostOutcome(SITE, AfterThree(URI_B), Some(DEFAULTS), PostAt(4)).reply == Posted(true, true, None)
  {
    hide AfterThree, PostOutcome, Stamps.Format, StampsIn, LoadState, Links.Node, NodeFor, SiteKeeping, PostAt, NameAt;
    ThreeLeave(URI_B);
    NodeOf(URI_B);
    PostWorks(0, AfterThree(URI_B), 4);
  }

  /** What the three requests leave for a fourth. */
  lemma ThreeLeave(raw: string)
    requires IsOurs(raw)
    ensures NameAt(4) !in StampsIn(AfterThree(raw).files)
    ensures var st := LoadState(AfterThree(raw).files); st.Success? && st.value.Some? && st.value.value.uri == raw
  {
    hide AfterTwo, AfterThree, EventOutcome, Stamps.Format, StampsIn, LoadState, IsOurs, PathOf, SiteKeeping, RestoreAt,
      At, Fits, AppliedFully;
    SecondApply(raw);
    RestoreOfA(raw);
    SameState(AfterThree(raw).files, AfterTwo(raw).files);
    Distinct(2, 4);
    Distinct(3, 4);
  }

  lemma FirstIsRestored(raw: string)
    requires IsOurs(raw)
    ensures RestoresFirst(SITE, InstantOf(At(1)), EMPTY_DISK, URI_A, ApplyAt(1, []), raw, ApplyAt(2, []), RestoreAt(3),
                          AfterThree(raw))
  {
    hide AppliedFully, Next, EventOutcome, Fits, Stamps.Format, InstantOf, StampsIn, LoadState;
    FitsHere(0, AfterA(), 1, 2, ApplySecond(raw));
    FirstApply();
    SecondApply(raw);
    RestoreOfA(raw);
  }

  /** From an empty disk, Apply(A), Apply(B), Restore of A's configuration and a settings
      POST, all of which succeed: before the POST node a is live and not managed, after it
      node b is. */
  lemma PostDropsRestoredNode()
    ensures IsRun(SITE, EMPTY_DISK, InstantOf(At(0)), Three(URI_B) + [Happening(POST, None)])
    ensures After(SITE, EMPTY_DISK, Three(URI_B)) == AfterThree(URI_B)
    ensures var was, now := Status(SITE, AfterThree(URI_B).files), Status(SITE, AfterPost().files);
      && PostOutcome(SITE, AfterThree(URI_B), Some(DEFAULTS), PostAt(4)).reply == Posted(true, true, None)
      && was.Some? && !was.value.managed && was.value.server == "a"
      && now.Some? && now.value.managed && now.value.server == "b"
  {
    hide RestoresFirst, Next, Status, Links.Node, PostOutcome, Fits, Stamps.Format, InstantOf, PathOf, ApplyStuck,
      RestoreAt, PostAt, At;
    PostFits();
    ThisIsARun(URI_B, [Happening(POST, None)]);
    ThisIsARun(URI_B, []);
    assert Three(URI_B) + [] == Three(URI_B);
    FirstIsRestored(URI_B);
    PostReRenders();
    NodeOf(URI_A);
    NodeOf(URI_B);
    RestoredNodeIsReplacedByPost(SITE, InstantOf(At(1)), EMPTY_DISK, URI_A, ApplyAt(1, []), URI_B, ApplyAt(2, []),
                                 RestoreAt(3), AfterThree(URI_B), Some(DEFAULTS), PostAt(4));
  }

  /** From an empty disk, Apply(A), Apply of a node with A's address and another password, and
      Restore of A's configuration, all of which succeed: status says that the second URI is
      running, and A is. */
  lemma StatusNamesOtherNode()
    ensures IsRun(SITE, EMPTY_DISK, InstantOf(At(0)), Three(URI_C))
    ensures After(SITE, EMPTY_DISK, Three(URI_C)) == AfterThree(URI_C)
    ensures var f := AfterThree(URI_C).files;
      && SaysManaged(SITE, f) && Status(SITE, f).value.uri == URI_C
      && Live in f && LiveOutbound(f[Live]) == Some(SocksNode("a", "p"))
      && Links.Node(URI_C, LIB).Success? && Links.Node(URI_C, LIB).value.outbound == SocksNode("a", "q")
      && !ClaimHolds(SITE, f)
  {
    hide RestoresFirst, Next, Status, Links.Node, Fits, Stamps.Format, InstantOf, LiveOutbound, SaysManaged, ClaimHolds,
      PathOf, ApplyStuck, RestoreAt, At;
    ThisIsARun(URI_C, []);
    assert Three(URI_C) + [] == Three(URI_C);
    FirstIsRestored(URI_C);
    NodeOf(URI_A);
    NodeOf(URI_C);
    ClaimAfterRestoringFirst(SITE, InstantOf(At(1)), EMPTY_DISK, URI_A, ApplyAt(1, []), URI_C, ApplyAt(2, []),
                             RestoreAt(3), AfterThree(URI_C));
  }

  lemma RunCons(sys: Sys, clock: int, h: Happening, hs: seq<Happening>)
    requires Fits(SITE, sys, clock, h.ev) && IsRun(SITE, Next(SITE, sys, h), ClockAfter(clock, h.ev), hs)
    ensures IsRun(SITE, sys, clock, [h] + hs)
    ensures After(SITE, sys, [h] + hs) == After(SITE, Next(SITE, sys, h), hs)
  {
    hide Next, Fits;
    assert ([h] + hs)[0] == h && ([h] + hs)[1..] == hs;
  }

  lemma PostFits()
    ensures IsRun(SITE, AfterThree(URI_B), InstantOf(At(3)), [Happening(POST, None)])
  {
    hide AfterThree, Fits, InstantOf, At, Stamps.Format, Next, Links.Node, CreateRun, SiteKeeping, ClockAfter;
    FitsHere(0, AfterThree(URI_B), 3, 4, POST);
    var p := Happening(POST, None);
    assert [p] + [] == [p];
    RunCons(AfterThree(URI_B), InstantOf(At(3)), p, []);
  }

  lemma EventsFit(raw: string)
    ensures Fits(SITE, EMPTY_DISK, InstantOf(At(0)), APPLY_A)
    ensures ClockAfter(InstantOf(At(0)), APPLY_A) == InstantOf(At(1))
    ensures Fits(SITE, AfterA(), InstantOf(At(1)), ApplySecond(raw))
    ensures ClockAfter(InstantOf(At(1)), ApplySecond(raw)) == InstantOf(At(2))
    ensures Fits(SITE, AfterTwo(raw), InstantOf(At(2)), RESTORE_A)
    ensures ClockAfter(InstantOf(At(2)), RESTORE_A) == InstantOf(At(3))
  {
    hide AfterA, AfterTwo, Fits, InstantOf, At, Stamps.Format, PathOf, Links.Node, CreateRun;
    FitsHere(0, EMPTY_DISK, 0, 1, APPLY_A);
    FitsHere(0, AfterA(), 1, 2, ApplySecond(raw));
    FitsHere(0, AfterTwo(raw), 2, 3, RESTORE_A);
  }

  lemma ThisIsARun(raw: string, more: seq<Happening>)
    requires IsRun(SITE, AfterThree(raw), InstantOf(At(3)), more)
    ensures IsRun(SITE, EMPTY_DISK, InstantOf(At(0)), Three(raw) + more)
    ensures After(SITE, EMPTY_DISK, Three(raw) + more) == After(SITE, AfterThree(raw), more)
  {
    hide Next, Fits, InstantOf, ClockAfter, ApplyAt, ApplySecond, RestoreAt, PathOf, SiteKeeping, At, NameAt;
    EventsFit(raw);
    var a, b, r := Three(raw)[0], Three(raw)[1], Three(raw)[2];
    RunCons(AfterTwo(raw), InstantOf(At(2)), r, more);
    RunCons(AfterA(), InstantOf(At(1)), b, [r] + more);
    RunCons(EMPTY_DISK, InstantOf(At(0)), a, [b] + ([r] + more));
    assert [a] + ([b] + ([r] + more)) == Three(raw) + more;
  }

  // -------------------------------------------------------------------------
  // More backups than are to be kept
  // -------------------------------------------------------------------------

  const FULL := Sys(map[Live := Raw("new"), Backup(NameAt(1)) := Raw("old")], DEFAULTS, None)
  const RESTORE_OLD := Restore(PathOf(SiteKeeping(1), NameAt(1)), RestoreAt(2))

  /** With one backup to keep and one there, a Restore that succeeds leaves two. */
  lemma RestoreExceedsKeep()
    ensures Fits(SiteKeeping(1), FULL, InstantOf(At(1)), RESTORE_OLD)
    ensures EventOutcome(SiteKeeping(1), FULL, RESTORE_OLD).reply.Restored?
    ensures Count(FULL.files) == 1
    ensures Count(Next(SiteKeeping(1), FULL, Happening(RESTORE_OLD, None)).files) == 2
  {
    hide Stamps.Format, StampsIn, Next, InstantOf, EventOutcome, PathOf, SiteKeeping, Fits, RestoreAt;
    FullStamps();
    Distinct(1, 2);
    RestoreStep(1, FULL, 1, 2);
    assert {NameAt(1)} + {NameAt(2)} == {NameAt(1), NameAt(2)};
  }

  const APPLY_STUCK := Apply(URI_A, ApplyStuck(2, [NameAt(2), NameAt(1)], {NameAt(1)}))

  /** So does an Apply that gets to its trim and cannot remove the old backup. */
  lemma StuckTrimExceedsKeep()
    ensures Fits(SiteKeeping(1), FULL, InstantOf(At(1)), APPLY_STUCK)
    ensures Trimming(SiteKeeping(1), FULL, APPLY_STUCK)
    ensures Count(Next(SiteKeeping(1), FULL, Happening(APPLY_STUCK, None)).files) == 2
  {
    hide Stamps.Format, StampsIn, Next, InstantOf, Links.Node, Trims, FilesAtTrim, IsListing, Made, LIB, IsCivil, At,
      AppliedFully;
    FullStamps();
    Distinct(1, 2);
    NodeOf(URI_A);
    ApplyWorks(1, FULL, URI_A, 2, [NameAt(2), NameAt(1)], {NameAt(1)});
    StampsAtTrim(SiteKeeping(1), FULL, APPLY_STUCK);
    ListsBoth(FilesAtTrim(SiteKeeping(1), FULL, URI_A, APPLY_STUCK.applyEnv), 1, 2);
    FitsHere(1, FULL, 1, 2, APPLY_STUCK);
    StampsAfter(SiteKeeping(1), FULL, InstantOf(At(1)), APPLY_STUCK);
    RemovesNone();
    assert StampsIn(Next(SiteKeeping(1), FULL, Happening(APPLY_STUCK, None)).files) == {NameAt(1), NameAt(2)};
  }

  lemma RemovesNone()
    requires Trimming(SiteKeeping(1), FULL, APPLY_STUCK)
    ensures Removed(SiteKeeping(1), FULL, APPLY_STUCK) == {}
  {
    hide Trims, Stamps.Format;
    assert Gone([NameAt(2), NameAt(1)], 1) == [NameAt(1)];
  }

  lemma ListsBoth(f: Files, r: nat, s: nat)
    requires r < s < 60 && StampsIn(f) == {NameAt(r), NameAt(s)}
    ensures IsListing(f, {}, [NameAt(s), NameAt(r)])
  {
    hide Stamps.Format, Stamps.ParseStamp, StampsIn, Instant, InstantOf;
    Distinct(r, s);
    NameIsStamp(r);
    NameIsStamp(s);
    ReadsLater(r, s);
  }

  lemma FullStamps()
    ensures StampsIn(FULL.files) == {NameAt(1)}
  {
    hide Stamps.Format, Stamps.ParseStamp, StampsIn;
    NameIsStamp(1);
    forall s
      ensures s in StampsIn(FULL.files) <==> s == NameAt(1)
    {
      BackupsIff(FULL.files, s);
    }
  }

  // -------------------------------------------------------------------------
  // An Apply that trims its own snapshot
  // -------------------------------------------------------------------------

  const FUTURE := Sys(map[Live := Raw("current"), Backup(NameAt(9)) := Raw("future")], DEFAULTS, None)
  const APPLY_NOW := Apply(URI_A, ApplyAt(1, [NameAt(9), NameAt(1)]))

  /** With a backup dated in the future and one to keep, an Apply in which nothing fails
      trims its own snapshot, and the replaced configuration is gone. */
  lemma ApplyLosesReplacedBody()
    ensures Fits(SiteKeeping(1), FUTURE, InstantOf(At(0)), APPLY_NOW)
    ensures TrimsCleanly(SiteKeeping(1), FUTURE, APPLY_NOW)
    ensures !Holds(Next(SiteKeeping(1), FUTURE, Happening(APPLY_NOW, None)).files, Raw("current"))
  {
    hide Stamps.Format, StampsIn, Exec, ApplyOutcome, InstantOf, Links.Node, Trims, FilesAtTrim, IsListing,
      Made, Removed, LIB, IsCivil, Render.RenderJson;
    var site, e := SiteKeeping(1), ApplyAt(1, [NameAt(9), NameAt(1)]);
    var g := Next(site, FUTURE, Happening(APPLY_NOW, None)).files;
    Distinct(1, 9);
    NodeOf(URI_A);
    FutureStamps();
    ApplyWorks(1, FUTURE, URI_A, 1, [NameAt(9), NameAt(1)], {});
    StampsAtTrim(site, FUTURE, APPLY_NOW);
    ListsBoth(FilesAtTrim(site, FUTURE, URI_A, e), 1, 9);
    FitsHere(1, FUTURE, 0, 1, APPLY_NOW);
    StampsAfter(site, FUTURE, InstantOf(At(0)), APPLY_NOW);
    RemovesOwn();
    FutureStays();
    ApplyEnds(site, FUTURE, URI_A, e);
  }

  lemma RemovesOwn()
    requires Trimming(SiteKeeping(1), FUTURE, APPLY_NOW)
    ensures Removed(SiteKeeping(1), FUTURE, APPLY_NOW) == {NameAt(1)}
  {
    hide Trims, Stamps.Format;
    assert Gone([NameAt(9), NameAt(1)], 1) == [NameAt(1)];
  }

  lemma FutureStamps()
    ensures StampsIn(FUTURE.files) == {NameAt(9)}
  {
    hide Stamps.Format, Stamps.ParseStamp, StampsIn;
    NameIsStamp(9);
    forall s
      ensures s in StampsIn(FUTURE.files) <==> s == NameAt(9)
    {
      BackupsIff(FUTURE.files, s);
    }
  }

  lemma FutureStays()
    ensures var g := Next(SiteKeeping(1), FUTURE, Happening(APPLY_NOW, None)).files;
      Backup(NameAt(9)) in g ==> g[Backup(NameAt(9))] == Raw("future")
  {
    hide Stamps.Format, EventOutcome, Exec;
    Distinct(1, 9);
    OthersOnlyRemoved(SiteKeeping(1), FUTURE, APPLY_NOW, NameAt(9));
    OnlyRemovedStays(FUTURE.files, EventOutcome(SiteKeeping(1), FUTURE, APPLY_NOW).steps, Backup(NameAt(9)));
  }
}
