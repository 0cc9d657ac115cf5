/** How many backups there are: what trimming guarantees, what piles up between trims, and
    when a snapshot survives the trim of its own Apply. */
module Retention {
  import opened Wrappers
  import opened Seqs
  import opened Disk
  import opened Backups
  import opened Saves
  import opened Settings
  import opened Lifecycle
  import opened Runs
  import opened Counting
  import opened Calendar
  import Links
  import Stamps
  import BackupNames

  function Count(f: Files): nat { |StampsIn(f)| }

  lemma {:induction false} DistinctCount(s: set<string>, order: seq<string>)
    requires NoDuplicates(order) && forall x :: x in s <==> x in order
    ensures |s| == |order|
    decreases |order|
  {
    if order == [] {
      assert s == {};
    } else {
      var x := order[0];
      assert forall y :: y in s - {x} <==> y in order[1..] by {
        assert order == [x] + order[1..];
      }
      DistinctCount(s - {x}, order[1..]);
    }
  }

  /** Trimming without failures leaves the front of the list, ties or not. */
  lemma TrimLeaves(f: Files, order: seq<string>, keep: int)
    requires IsListing(f, {}, order) && keep > 0
    ensures var g := Exec(f, TrimSteps(order, keep, {}));
      && (forall s :: s in StampsIn(g) <==> s in Kept(order, keep))
      && Count(g) == if |order| <= keep then |order| else keep
  {
    hide Exec, TrimSteps, StampsIn, Stamps.ParseStamp, Instant;
    var g := Exec(f, TrimSteps(order, keep, {}));
    TrimIsWithout(f, order, keep);
    var kept := Kept(order, keep);
    forall s
      ensures s in StampsIn(g) <==> s in kept
    {
      BackupsIff(f, s);
      BackupsIff(g, s);
      KeptOrGone(order, keep, s);
    }
    DistinctCount(StampsIn(g), kept);
  }

  lemma {:induction false} SubsetCount(a: set<string>, b: set<string>)
    requires a <= b
    ensures |a| <= |b|
    decreases |a|
  {
    if a == {} {
    } else {
      var x :| x in a;
      SubsetCount(a - {x}, b - {x});
    }
  }

  /** The listed backups that are newer than x. */
  function Newer(all: set<string>, hidden: set<string>, x: string): set<string>
  {
    set t | t in all && t !in hidden && Instant(t) > Instant(x)
  }

  /** The other listed backups that are not older. */
  function NotOlder(all: set<string>, hidden: set<string>, x: string): set<string>
  {
    set t | t in all && t !in hidden && t != x && Instant(t) >= Instant(x)
  }

  /** Of all backups, the trim leaves x: it is unreadable, cannot be removed, or has fewer
      than keep newer ones. */
  predicate Survives(all: set<string>, hidden: set<string>, stuck: set<string>, keep: int, x: string)
  {
    x in hidden || x in stuck || |Newer(all, hidden, x)| < keep
  }

  lemma Positions(f: Files, hidden: set<string>, order: seq<string>, p: nat)
    requires IsListing(f, hidden, order) && p < |order|
    ensures |Newer(StampsIn(f), hidden, order[p])| <= p <= |NotOlder(StampsIn(f), hidden, order[p])|
  {
    hide StampsIn, Instant;
    var before := set t | t in order[..p];
    DistinctCount(before, order[..p]);
    forall t | t in Newer(StampsIn(f), hidden, order[p])
      ensures t in before
    {
      var i :| 0 <= i < |order| && order[i] == t;
      assert i < p;
    }
    forall t | t in before
      ensures t in NotOlder(StampsIn(f), hidden, order[p])
    {
      var i :| 0 <= i < p && order[i] == t;
      assert order[i] in order;
    }
    SubsetCount(Newer(StampsIn(f), hidden, order[p]), before);
    SubsetCount(before, NotOlder(StampsIn(f), hidden, order[p]));
  }

  lemma GoneFrom(order: seq<string>, keep: int, p: nat)
    requires NoDuplicates(order) && keep > 0 && p < |order|
    ensures order[p] in Gone(order, keep) <==> p >= keep
  {
    if p >= keep {
      assert order[keep..][p - keep] == order[p];
    }
  }

  /** Ties, unreadable entries and failed removals included: a backup survives a trim if it
      is unreadable or cannot be removed or fewer than keep others are not older, and only
      if one of the first two holds or fewer than keep are newer. */
  lemma TrimBounds(f: Files, hidden: set<string>, order: seq<string>, keep: int, stuck: set<string>, x: string)
    requires IsListing(f, hidden, order) && keep > 0 && x in StampsIn(f)
    ensures var survives := x in StampsIn(Exec(f, TrimSteps(order, keep, stuck)));
      && (x in hidden || x in stuck || |NotOlder(StampsIn(f), hidden, x)| < keep ==> survives)
      && (survives ==> Survives(StampsIn(f), hidden, stuck, keep, x))
  {
    hide Exec, StampsIn, Instant, TrimSteps, Newer, NotOlder;
    TrimStamps(f, order, keep, stuck);
    if x in hidden {
      assert x !in order;
      assert forall s :: s in Gone(order, keep) ==> s in order;
    } else {
      var p :| 0 <= p < |order| && order[p] == x;
      Positions(f, hidden, order, p);
      GoneFrom(order, keep, p);
    }
  }

  /** Without ties the two conditions are one. */
  lemma SurvivesTrimIff(f: Files, hidden: set<string>, order: seq<string>, keep: int, stuck: set<string>, x: string)
    requires IsListing(f, hidden, order) && NoTies(f) && keep > 0 && x in StampsIn(f)
    ensures x in StampsIn(Exec(f, TrimSteps(order, keep, stuck))) <==> Survives(StampsIn(f), hidden, stuck, keep, x)
  {
    hide Exec, StampsIn, Instant, TrimSteps, IsListing;
    TrimBounds(f, hidden, order, keep, stuck, x);
    assert NotOlder(StampsIn(f), hidden, x) == Newer(StampsIn(f), hidden, x);
  }

  /** An Apply that trims, with the whole directory readable and removable. */
  predicate TrimsCleanly(site: Site, sys: Sys, ev: Event)
  {
    Trimming(site, sys, ev) && ev.applyEnv.hidden == {} && ev.applyEnv.stuck == {}
  }

  /** An Apply that trims leaves exactly those of the old backups and its snapshot that are
      unreadable, cannot be removed, or have fewer than keep newer ones. */
  lemma ApplyKeepsIff(site: Site, sys: Sys, clock: int, ev: Event, x: string)
    requires Fits(site, sys, clock, ev) && Trimming(site, sys, ev)
    requires var all := StampsIn(sys.files) + Made(site, sys, ev); Apart(all) && x in all
    ensures x in StampsIn(Next(site, sys, Happening(ev, None)).files)
       <==> Survives(StampsIn(sys.files) + Made(site, sys, ev), ev.applyEnv.hidden, ev.applyEnv.stuck, site.keep, x)
  {
    hide EventOutcome, Exec, Next, StampsIn, Instant, TrimSteps, FilesAtTrim, CreateRun, IsCivil, Fits, IsListing, Made,
      Survives;
    var e, g := ev.applyEnv, FilesAtTrim(site, sys, ev.raw, ev.applyEnv);
    KeepIsPositive(site, sys, ev);
    ReadingIsCivil(site, sys, clock, ev);
    StampsAfter(site, sys, clock, ev);
    StampsAtTrim(site, sys, ev);
    ListsAtTrim(site, sys, clock, ev);
    SurvivesTrimIff(g, e.hidden, e.order, site.keep, e.stuck, x);
    TrimStamps(g, e.order, site.keep, e.stuck);
  }

  /** The snapshot of an Apply survives the trim of that Apply exactly when, before it,
      fewer than keep readable backups were dated later than its clock reading, or it cannot
      be read or removed itself. */
  lemma SnapshotSurvivesIff(site: Site, sys: Sys, clock: int, ev: Event)
    requires Fits(site, sys, clock, ev) && Trimming(site, sys, ev) && Live in sys.files
    requires Apart(StampsIn(sys.files) + {NameOf(ev.applyEnv.snapshot)})
    ensures var e, own := ev.applyEnv, NameOf(ev.applyEnv.snapshot);
      own in StampsIn(Next(site, sys, Happening(ev, None)).files)
      <==> Survives(StampsIn(sys.files), e.hidden, e.stuck, site.keep, own)
  {
    hide Next, StampsIn, Instant, Fits, Trims, Stamps.Format, Made;
    var own := NameOf(ev.applyEnv.snapshot);
    TrimmingMakes(site, sys, ev);
    ApplyKeepsIff(site, sys, clock, ev, own);
    assert Newer(StampsIn(sys.files) + {own}, ev.applyEnv.hidden, own)
        == Newer(StampsIn(sys.files), ev.applyEnv.hidden, own);
  }

  /** An Apply that trims has made a snapshot if there was something to save. */
  lemma TrimmingMakes(site: Site, sys: Sys, ev: Event)
    requires Trimming(site, sys, ev)
    ensures Made(site, sys, ev) == if Live in sys.files then {NameOf(ev.applyEnv.snapshot)} else {}
  {
    hide Links.Node, Stamps.Format, ReachesTrim;
  }

  lemma ListsAtTrim(site: Site, sys: Sys, clock: int, ev: Event)
    requires Fits(site, sys, clock, ev) && Trimming(site, sys, ev)
    ensures IsListing(FilesAtTrim(site, sys, ev.raw, ev.applyEnv), ev.applyEnv.hidden, ev.applyEnv.order)
  {
    hide IsListing, FilesAtTrim, Links.Node, CreateRun, IsCivil;
  }

  // -------------------------------------------------------------------------
  // Exact counts
  // -------------------------------------------------------------------------

  lemma CardinalityOf(a: set<string>, m: set<string>, r: set<string>)
    requires a !! m && r <= a + m
    ensures |a + m - r| == |a| + |m| - |r|
  {
    assert (a + m - r) + r == a + m;
    assert |a + m| == |a| + |m|;
  }

  /** What a request that ran to its end does to the number of backups. */
  lemma CountAfter(site: Site, sys: Sys, clock: int, ev: Event)
    requires Fits(site, sys, clock, ev)
    ensures Count(Next(site, sys, Happening(ev, None)).files)
         == Count(sys.files) + |Made(site, sys, ev)| - |Removed(site, sys, ev)|
  {
    hide Next, Fits, StampsIn, Made, Removed;
    StampsAfter(site, sys, clock, ev);
    CardinalityOf(StampsIn(sys.files), Made(site, sys, ev), Removed(site, sys, ev));
  }

  lemma Singletons(site: Site, sys: Sys, ev: Event)
    ensures |Made(site, sys, ev)| == if Leaves(site, sys, ev) then 1 else 0
    ensures !Trimming(site, sys, ev) ==> |Removed(site, sys, ev)| == if Deletes(site, sys, ev) then 1 else 0
  {
    hide Leaves, Trimming, BackupNames.StampOf, Stamps.Format;
  }

  function Min(a: int, b: int): int { if a < b then a else b }

  /** The backups the trim of an Apply should have seen or removed and did not. */
  function Spared(site: Site, sys: Sys, ev: Event): set<string>
    requires Trimming(site, sys, ev)
  {
    KeepIsPositive(site, sys, ev);
    (set x | x in StampsIn(sys.files) + Made(site, sys, ev) && x in ev.applyEnv.hidden)
    + (set x | x in Gone(ev.applyEnv.order, site.keep) && x in ev.applyEnv.stuck)
  }

  /** Any trim leaves keep of the backups it lists, or all of them, and those it passes over. */
  lemma TrimCount(site: Site, sys: Sys, clock: int, ev: Event)
    requires Fits(site, sys, clock, ev) && Trimming(site, sys, ev)
    ensures Count(Next(site, sys, Happening(ev, None)).files)
         == |Spared(site, sys, ev)| + Min(|ev.applyEnv.order|, site.keep)
    ensures Count(sys.files) + |Made(site, sys, ev)|
         == |set x | x in StampsIn(sys.files) + Made(site, sys, ev) && x in ev.applyEnv.hidden| + |ev.applyEnv.order|
  {
    hide Next, Fits, StampsIn, FilesAtTrim, Trims, Made, Instant, IsCivil;
    var e, all := ev.applyEnv, StampsIn(sys.files) + Made(site, sys, ev);
    KeepIsPositive(site, sys, ev);
    StampsAfter(site, sys, clock, ev);
    ReadingIsCivil(site, sys, clock, ev);
    StampsAtTrim(site, sys, ev);
    ListsAtTrim(site, sys, clock, ev);
    CardinalityOf(StampsIn(sys.files), Made(site, sys, ev), Removed(site, sys, ev));
    CardinalityOf(StampsIn(sys.files), Made(site, sys, ev), {});
    assert all - {} == all;
    ListedAndHidden(all, e.hidden, e.order);
    GoneInTwo(e.order, site.keep, e.stuck);
  }

  lemma ListedAndHidden(all: set<string>, hidden: set<string>, order: seq<string>)
    requires NoDuplicates(order) && forall s :: s in order <==> s in all && s !in hidden
    ensures |all| == |set x | x in all && x in hidden| + |order|
  {
    var listed, unlisted := set x | x in all && x !in hidden, set x | x in all && x in hidden;
    DistinctCount(listed, order);
    assert all == listed + unlisted;
  }

  lemma GoneInTwo(order: seq<string>, keep: int, stuck: set<string>)
    requires NoDuplicates(order) && keep > 0
    ensures |set s | s in Gone(order, keep) && s in stuck| + |set s | s in Gone(order, keep) && s !in stuck|
         == |order| - Min(|order|, keep)
  {
    var gone := Gone(order, keep);
    var a, b := set s | s in gone && s in stuck, set s | s in gone && s !in stuck;
    assert NoDuplicates(gone);
    DistinctCount(a + b, gone);
  }

  /** A clean trim leaves keep backups or all there are. */
  lemma CleanTrimCount(site: Site, sys: Sys, clock: int, ev: Event)
    requires Fits(site, sys, clock, ev) && TrimsCleanly(site, sys, ev)
    ensures Count(Next(site, sys, Happening(ev, None)).files)
         == Min(site.keep, Count(sys.files) + if Live in sys.files then 1 else 0)
  {
    hide Next, Fits, StampsIn, Trims, Count, Made;
    TrimmingMakes(site, sys, ev);
    TrimCount(site, sys, clock, ev);
    assert Spared(site, sys, ev) == {};
    assert (set x | x in StampsIn(sys.files) + Made(site, sys, ev) && x in ev.applyEnv.hidden) == {};
  }

  /** A request keeps the number of backups within keep exactly when it leaves none, or there
      is room for one, or it is an Apply whose trim passes over nothing. */
  lemma StaysWithinKeepIff(site: Site, sys: Sys, clock: int, ev: Event)
    requires Fits(site, sys, clock, ev) && Count(sys.files) <= site.keep
    ensures Count(Next(site, sys, Happening(ev, None)).files) <= site.keep
       <==> || !Leaves(site, sys, ev)
            || Count(sys.files) < site.keep
            || (Trimming(site, sys, ev) && Spared(site, sys, ev) == {})
  {
    hide Next, Fits, Count, Leaves, Trims, Removed, StampsIn, Made;
    Singletons(site, sys, ev);
    if Trimming(site, sys, ev) {
      TrimCount(site, sys, clock, ev);
      SparedInTwo(site, sys, ev);
    } else {
      CountAfter(site, sys, clock, ev);
      DeletesLeavesNothing(site, sys, ev);
    }
  }

  lemma SparedInTwo(site: Site, sys: Sys, ev: Event)
    requires Trimming(site, sys, ev)
    ensures |Spared(site, sys, ev)|
         >= |set x | x in StampsIn(sys.files) + Made(site, sys, ev) && x in ev.applyEnv.hidden|
    ensures |ev.applyEnv.order| <= site.keep ==>
              |Spared(site, sys, ev)|
              == |set x | x in StampsIn(sys.files) + Made(site, sys, ev) && x in ev.applyEnv.hidden|
    ensures |Spared(site, sys, ev)| == 0 <==> Spared(site, sys, ev) == {}
  {
    hide StampsIn, Trims, Made;
    KeepIsPositive(site, sys, ev);
    var unread := set x | x in StampsIn(sys.files) + Made(site, sys, ev) && x in ev.applyEnv.hidden;
    var undone := set x | x in Gone(ev.applyEnv.order, site.keep) && x in ev.applyEnv.stuck;
    SubsetCount(unread, unread + undone);
    if |ev.applyEnv.order| <= site.keep {
      assert undone == {};
      assert unread + undone == unread;
    }
  }

  lemma DeletesLeavesNothing(site: Site, sys: Sys, ev: Event)
    ensures !(Deletes(site, sys, ev) && Leaves(site, sys, ev))
  {
    hide Links.Node, BackupNames.StampOf, Stamps.Format;
  }

  ghost predicate Uninterrupted(hs: seq<Happening>) { forall h :: h in hs ==> h.crash.None? }

  /** The backups made less those removed, over a run. */
  function Balance(site: Site, sys: Sys, hs: seq<Happening>): int
    decreases |hs|
  {
    if hs == [] then 0
    else
      |Made(site, sys, hs[0].ev)| - |Removed(site, sys, hs[0].ev)| + Balance(site, Next(site, sys, hs[0]), hs[1..])
  }

  lemma {:induction false} CountIsBalance(site: Site, sys: Sys, clock: int, hs: seq<Happening>)
    requires IsRun(site, sys, clock, hs) && Uninterrupted(hs)
    ensures Count(After(site, sys, hs).files) == Count(sys.files) + Balance(site, sys, hs)
    decreases |hs|
  {
    hide Next, Fits, Count, Made, Removed;
    if hs == [] {
    } else {
      assert hs[0] in hs && hs[0] == Happening(hs[0].ev, None);
      CountAfter(site, sys, clock, hs[0].ev);
      CountIsBalance(site, Next(site, sys, hs[0]), ClockAfter(clock, hs[0].ev), hs[1..]);
    }
  }

  /** How many backups there are after an Apply that trimmed and any further requests: the
      trimmed number and the balance since. */
  lemma RetentionIsExact(site: Site, sys: Sys, clock: int, h: Happening, hs: seq<Happening>)
    requires IsRun(site, sys, clock, [h] + hs) && Uninterrupted([h] + hs) && TrimsCleanly(site, sys, h.ev)
    ensures Count(After(site, sys, [h] + hs).files)
         == Min(site.keep, Count(sys.files) + if Live in sys.files then 1 else 0)
            + Balance(site, Next(site, sys, h), hs)
  {
    hide Next, Fits, Count, TrimsCleanly, Balance;
    var run := [h] + hs;
    assert run[0] == h && run[1..] == hs && h in run && h == Happening(h.ev, None);
    assert forall g :: g in hs ==> g in run;
    CleanTrimCount(site, sys, clock, h.ev);
    CountIsBalance(site, Next(site, sys, h), ClockAfter(clock, h.ev), hs);
  }

  // -------------------------------------------------------------------------
  // What piles up
  // -------------------------------------------------------------------------

  /** On an existing live file: a Restore that succeeded, a POST that re-rendered, or an
      Apply that failed after its snapshot. */
  predicate AddsOne(site: Site, sys: Sys, h: Happening)
  {
    var reply := EventOutcome(site, sys, h.ev).reply;
    && h.crash.None? && Live in sys.files
    && (reply.Restored? || (reply.Posted? && reply.reRendered) || reply in {Failed(NoDirectory), Failed(NoWrite)})
  }

  lemma AddsOneLeaves(site: Site, sys: Sys, h: Happening)
    requires AddsOne(site, sys, h)
    ensures Leaves(site, sys, h.ev) && !Trimming(site, sys, h.ev)
  {
    hide Links.Node, Exec, Stamps.Format, BackupNames.StampOf, PostSave, LiveSteps, ApplyMiddle, ApplyTrim;
    match h.ev
    case Apply(raw, e) =>
    case Restore(file, e) =>
    case Post(body, e) => PostLeaves(site, sys, body, e);
    case Delete(_, _) =>
  }

  lemma PostLeaves(site: Site, sys: Sys, body: Option<Settings>, e: PostEnv)
    requires AddsOne(site, sys, Happening(Post(body, e), None))
    ensures Leaves(site, sys, Post(body, e))
  {
    hide Links.Node, Exec, Stamps.Format, PostSave, LiveSteps, LoadState, ValidSettings, Untouched;
    var saved := PostSave(site, body.value, e);
    var f := Exec(sys.files, saved);
    PostSaveTouches(site, body.value, e, StateFile);
    PostSaveTouches(site, body.value, e, Live);
    PostSaveTouches(site, body.value, e, Backup(NameOf(e.snapshot)));
    UntouchedStays(sys.files, saved, StateFile);
    UntouchedStays(sys.files, saved, Live);
    UntouchedStays(sys.files, saved, Backup(NameOf(e.snapshot)));
    SameState(f, sys.files);
  }

  ghost predicate AllAddOne(site: Site, sys: Sys, hs: seq<Happening>)
    decreases |hs|
  {
    hs == [] || (AddsOne(site, sys, hs[0]) && AllAddOne(site, Next(site, sys, hs[0]), hs[1..]))
  }

  /** None of these trims: any number of them adds that many backups, whatever keep is. */
  lemma {:induction false} SnapshotsPileUp(site: Site, sys: Sys, clock: int, hs: seq<Happening>)
    requires IsRun(site, sys, clock, hs) && AllAddOne(site, sys, hs)
    ensures Count(After(site, sys, hs).files) == Count(sys.files) + |hs|
    decreases |hs|
  {
    hide Next, Fits, Count, AddsOne, Leaves, Trimming, Deletes;
    if hs == [] {
    } else {
      AddsOneLeaves(site, sys, hs[0]);
      Uncrashed(site, sys, hs[0]);
      CountAfter(site, sys, clock, hs[0].ev);
      Singletons(site, sys, hs[0].ev);
      DeletesLeavesNothing(site, sys, hs[0].ev);
      SnapshotsPileUp(site, Next(site, sys, hs[0]), ClockAfter(clock, hs[0].ev), hs[1..]);
    }
  }

  lemma Uncrashed(site: Site, sys: Sys, h: Happening)
    requires AddsOne(site, sys, h)
    ensures h == Happening(h.ev, None)
  {
    hide EventOutcome;
  }

  // -------------------------------------------------------------------------
  // Bounds for runs with crashes
  // -------------------------------------------------------------------------

  /** What a request, stopped anywhere, can add: its snapshot if it creates one, unless it
      runs to the end of a clean trim. */
  function Added(site: Site, sys: Sys, h: Happening): nat
  {
    if h.crash.None? && TrimsCleanly(site, sys, h.ev) then 0 else if Begins(site, sys, h.ev) then 1 else 0
  }

  function AddedSince(site: Site, sys: Sys, hs: seq<Happening>): nat
    decreases |hs|
  {
    if hs == [] then 0 else Added(site, sys, hs[0]) + AddedSince(site, Next(site, sys, hs[0]), hs[1..])
  }

  lemma OneMore(a: set<string>, b: set<string>, x: string)
    requires a <= b + {x}
    ensures |a| <= |b| + 1
    ensures a <= b ==> |a| <= |b|
  {
    SubsetCount(a, b + {x});
    assert |b + {x}| <= |b| + 1;
    if a <= b {
      SubsetCount(a, b);
    }
  }

  lemma OnlyRemovedAppend(a: seq<Step>, b: seq<Step>, slot: Slot)
    requires OnlyRemoved(a, slot) && OnlyRemoved(b, slot)
    ensures OnlyRemoved(a + b, slot)
  {
  }

  /** Without the creation of its snapshot a request does nothing but remove backups. */
  lemma OthersAreRemoved(site: Site, sys: Sys, ev: Event, k: string)
    requires !Begins(site, sys, ev) || OwnStamp(ev) != Some(k)
    ensures OnlyRemoved(EventOutcome(site, sys, ev).steps, Backup(k))
  {
    hide EventOutcome, ReachesSnapshot, Stamps.Format, Exec, Trimming, Starts;
    if OwnStamp(ev) != Some(k) {
      OthersOnlyRemoved(site, sys, ev, k);
    } else if ReachesSnapshot(site, sys, ev) {
      UnstartedOnlyRemoves(site, sys, ev, k);
    } else {
      StopsShort(site, sys, ev, k);
    }
  }

  lemma UnstartedOnlyRemoves(site: Site, sys: Sys, ev: Event, k: string)
    requires !ev.Delete? && ReachesSnapshot(site, sys, ev) && !Starts(sys.files, SnapshotOf(ev))
    ensures OnlyRemoved(EventOutcome(site, sys, ev).steps, Backup(k))
  {
    hide EventOutcome, ReachesSnapshot, Stamps.Format, Exec, Trims, ApplyTrim, FilesAtTrim, OnlyRemoved;
    var before, after := Parts(site, sys, ev);
    var f, e := Exec(sys.files, before), SnapshotOf(ev);
    UntouchedStays(sys.files, before, Live);
    UntouchedStays(sys.files, before, Backup(NameOf(e)));
    assert UpToTrim(sys, e, before, after) == before + after;
    UntouchedAppend(before, after, Backup(k));
    UntouchedIsOnlyRemoved(before + after, Backup(k));
    UntouchedIsOnlyRemoved([], Backup(k));
    if Trimming(site, sys, ev) {
      TrimOnlyRemoves(site, ev.applyEnv, k);
    }
    OnlyRemovedAppend(before + after, TrimPart(site, sys, ev), Backup(k));
  }

  lemma UntouchedIsOnlyRemoved(steps: seq<Step>, slot: Slot)
    requires Untouched(steps, slot)
    ensures OnlyRemoved(steps, slot)
  {
  }

  /** A request, wherever it stops, leaves at most what it adds on top of what was there. */
  lemma StepCount(site: Site, sys: Sys, h: Happening)
    ensures !(h.crash.None? && TrimsCleanly(site, sys, h.ev)) ==>
              Count(Next(site, sys, h).files) <= Count(sys.files) + Added(site, sys, h)
  {
    hide EventOutcome, Exec, Next, Stamps.Format, StampsIn, TrimsCleanly, Begins;
    var steps, g := EventOutcome(site, sys, h.ev).steps, Next(site, sys, h).files;
    var i := NextIsPrefix(site, sys, h);
    var own := if OwnStamp(h.ev).Some? then OwnStamp(h.ev).value else "";
    forall s | s in StampsIn(g) && (OwnStamp(h.ev) != Some(s) || !Begins(site, sys, h.ev))
      ensures s in StampsIn(sys.files)
    {
      BackupsIff(g, s);
      BackupsIff(sys.files, s);
      OthersAreRemoved(site, sys, h.ev, s);
      PrefixOnlyRemoved(steps, i, Backup(s));
      OnlyRemovedStays(sys.files, steps[..i], Backup(s));
    }
    OneMore(StampsIn(g), StampsIn(sys.files), own);
  }

  /** Retention over runs with crashes: starting with at most keep backups, as a clean Apply
      leaves them, there are never more than keep plus the snapshots created since, not
      counting those of Applies that trimmed. */
  lemma {:induction false} RetentionHolds(site: Site, sys: Sys, clock: int, hs: seq<Happening>, extra: nat)
    requires IsRun(site, sys, clock, hs) && site.keep > 0
    requires Count(sys.files) <= site.keep + extra
    ensures Count(After(site, sys, hs).files) <= site.keep + extra + AddedSince(site, sys, hs)
    decreases |hs|
  {
    hide Next, Fits, Count, TrimsCleanly, Begins;
    if hs == [] {
    } else {
      if hs[0].crash.None? && TrimsCleanly(site, sys, hs[0].ev) {
        assert hs[0] == Happening(hs[0].ev, None);
        CleanTrimCount(site, sys, clock, hs[0].ev);
      } else {
        StepCount(site, sys, hs[0]);
      }
      RetentionHolds(site, Next(site, sys, hs[0]), ClockAfter(clock, hs[0].ev), hs[1..],
                     extra + Added(site, sys, hs[0]));
    }
  }

  /** Since a clean Apply there are at most keep backups plus the snapshots created after it. */
  lemma RetentionAfterApply(site: Site, sys: Sys, clock: int, h: Happening, hs: seq<Happening>)
    requires IsRun(site, sys, clock, [h] + hs) && h.crash.None? && TrimsCleanly(site, sys, h.ev)
    ensures Count(After(site, sys, [h] + hs).files) <= site.keep + AddedSince(site, Next(site, sys, h), hs)
  {
    hide Next, Fits, Count, Trimming;
    assert ([h] + hs)[0] == h && ([h] + hs)[1..] == hs && h == Happening(h.ev, None);
    CleanTrimCount(site, sys, clock, h.ev);
    KeepIsPositive(site, sys, h.ev);
    RetentionHolds(site, Next(site, sys, h), ClockAfter(clock, h.ev), hs, 0);
  }
}
