/** When an Apply loses the configuration it replaces: RunLosesNothing needs that no backup
    is dated in the future, and this is what happens for any dates. */
module Loss {
  import opened Wrappers
  import opened Disk
  import opened Backups
  import opened Lifecycle
  import opened Runs
  import opened Counting
  import opened Retention
  import opened Managed
  import opened Saves
  import Links
  import Stamps

  /** All backups there are when an Apply trims. */
  function AtTrim(sys: Sys, ev: Event): set<string>
    requires ev.Apply?
  {
    StampsIn(sys.files) + {NameOf(ev.applyEnv.snapshot)}
  }

  /** The trim of the Apply leaves backup x. */
  predicate IsKept(site: Site, sys: Sys, ev: Event, x: string)
    requires ev.Apply?
  {
    Survives(AtTrim(sys, ev), ev.applyEnv.hidden, ev.applyEnv.stuck, site.keep, x)
  }

  /** The listed backup s is that body. */
  predicate HoldsBody(f: Files, s: string, body: Body)
  {
    s in StampsIn(f) && Backup(s) in f && f[Backup(s)] == body
  }

  lemma TrimmingApplied(site: Site, sys: Sys, ev: Event)
    requires Trimming(site, sys, ev)
    ensures Links.Node(ev.raw, site.lib).Success? && ApplyOutcome(site, sys, ev.raw, ev.applyEnv).reply.Applied?
  {
    hide Links.Node, CreateRun, ApplyMiddle, ApplyTrim;
  }

  /** What the backups left by an Apply hold: its snapshot the replaced body, the others what
      they held. */
  lemma BodiesAfter(site: Site, sys: Sys, ev: Event, s: string)
    requires Trimming(site, sys, ev) && Live in sys.files
    requires Backup(s) in Next(site, sys, Happening(ev, None)).files
    ensures var g := Next(site, sys, Happening(ev, None)).files;
      if s == NameOf(ev.applyEnv.snapshot) then g[Backup(s)] == sys.files[Live]
      else Backup(s) in sys.files && g[Backup(s)] == sys.files[Backup(s)]
  {
    hide ApplyOutcome, Exec, Trims, Stamps.Format;
    TrimmingApplied(site, sys, ev);
    if s == NameOf(ev.applyEnv.snapshot) {
      ApplySnapshot(site, sys, ev.raw, ev.applyEnv);
    } else {
      OthersOnlyRemoved(site, sys, ev, s);
      OnlyRemovedStays(sys.files, EventOutcome(site, sys, ev).steps, Backup(s));
    }
  }

  /** The replaced configuration is still live or in a listed backup after an Apply that
      trims exactly when the Apply wrote that same configuration again, or the trim left its
      snapshot, or it left an older backup that holds it. */
  lemma ReplacedBodySurvivesIff(site: Site, sys: Sys, clock: int, ev: Event)
    requires Fits(site, sys, clock, ev) && Trimming(site, sys, ev) && Live in sys.files
    requires Apart(AtTrim(sys, ev))
    ensures Links.Node(ev.raw, site.lib).Success?
    ensures var body := sys.files[Live];
      Holds(Next(site, sys, Happening(ev, None)).files, body)
      <==> || Rendered(Links.Node(ev.raw, site.lib).value, sys.memory, ev.applyEnv.lan) == body
           || IsKept(site, sys, ev, NameOf(ev.applyEnv.snapshot))
           || exists s :: HoldsBody(sys.files, s, body) && IsKept(site, sys, ev, s)
  {
    hide Next, StampsIn, Fits, Trims, Stamps.Format, Links.Node, Rendered, IsKept, Made, Apart;
    var body, own, g := sys.files[Live], NameOf(ev.applyEnv.snapshot), Next(site, sys, Happening(ev, None)).files;
    LiveAfter(site, sys, ev);
    TrimmingMakes(site, sys, ev);
    StampsAfter(site, sys, clock, ev);
    forall s | s in AtTrim(sys, ev)
      ensures s in StampsIn(g) <==> IsKept(site, sys, ev, s)
    {
      KeptIff(site, sys, clock, ev, s);
    }
    forall s | s in StampsIn(g)
      ensures HoldsBody(g, s, body) <==> s == own || HoldsBody(sys.files, s, body)
    {
      Stored(g, s);
      BodiesAfter(site, sys, ev, s);
      assert s in AtTrim(sys, ev);
    }
    if IsKept(site, sys, ev, own) {
      assert own in StampsIn(g);
    }
  }

  lemma Stored(f: Files, s: string)
    requires s in StampsIn(f)
    ensures Backup(s) in f
  {
    hide Stamps.ParseStamp;
  }

  lemma KeptIff(site: Site, sys: Sys, clock: int, ev: Event, s: string)
    requires Fits(site, sys, clock, ev) && Trimming(site, sys, ev) && Live in sys.files
    requires Apart(AtTrim(sys, ev)) && s in AtTrim(sys, ev)
    ensures s in StampsIn(Next(site, sys, Happening(ev, None)).files) <==> IsKept(site, sys, ev, s)
  {
    hide Next, StampsIn, Fits, Trims, Stamps.Format, Made, Apart, Survives;
    TrimmingMakes(site, sys, ev);
    ApplyKeepsIff(site, sys, clock, ev, s);
  }

  lemma LiveAfter(site: Site, sys: Sys, ev: Event)
    requires Trimming(site, sys, ev)
    ensures Links.Node(ev.raw, site.lib).Success?
    ensures var g := Next(site, sys, Happening(ev, None)).files;
      Live in g && g[Live] == Rendered(Links.Node(ev.raw, site.lib).value, sys.memory, ev.applyEnv.lan)
  {
    hide ApplyOutcome, Exec, Trims, Links.Node, Rendered, LoadState;
    TrimmingApplied(site, sys, ev);
    ApplyEnds(site, sys, ev.raw, ev.applyEnv);
  }
}
