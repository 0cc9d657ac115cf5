/** The request handlers over a volume and the in-memory settings: each performs exactly the
    file steps, changes of memory and reply that module Lifecycle gives for it. */
module Server {
  import opened Wrappers
  import opened Disk
  import opened Backups
  import opened Saves
  import opened Settings
  import opened Lifecycle
  import Manager
  import Links
  import Nodes
  import Readback
  import Stamps
  import Runs

  /** The steps between snapshot and trim depend on the settings, not on files or listing. */
  lemma MiddleIgnores(a: Sys, b: Sys, raw: string, n: Nodes.ParsedNode, e: ApplyEnv, order: seq<string>)
    requires a.memory == b.memory
    ensures ApplyMiddle(a, raw, n, e) == ApplyMiddle(b, raw, n, e)
    ensures ApplyMiddle(a, raw, n, e.(order := order)) == ApplyMiddle(a, raw, n, e)
  {
  }

  class Server {
    const site: Site
    const volume: Volume
    const manager: Manager.Manager
    var settings: Settings
    ghost var wrote: Option<Written>

    ghost predicate Valid()
      reads this, volume
    {
      volume.Valid() && manager.volume == volume && manager.cfg == site.cfg
    }

    ghost function View(): Sys
      reads this, volume
    {
      Sys(volume.files, settings, wrote)
    }

    /** Starts with the settings the file gives, or the defaults when it gives none. */
    constructor (site: Site, volume: Volume)
      requires volume.Valid()
      ensures Valid() && this.site == site && this.volume == volume
      ensures View() == Sys(volume.files, Reload(site, volume.files), None)
    {
      var initial := DEFAULTS;
      if site.persist {
        var loaded := ReadSettings(volume);
        if loaded.Success? {
          initial := loaded.value;
        }
      }
      this.site := site;
      this.volume := volume;
      settings := initial;
      wrote := None;
      manager := new Manager.Manager(site.cfg, volume);
    }

    /** handleApply. The returned order is that of the trim's listing. */
    method HandleApply(raw: string, e: ApplyEnv) returns (reply: Reply, ghost order: seq<string>)
      requires Valid()
      modifies this, volume
      ensures Valid()
      ensures var given := e.(order := order);
        Trims(site, old(View()), raw, given) ==>
          IsListing(FilesAtTrim(site, old(View()), raw, given), given.hidden, given.order)
      ensures var o := ApplyOutcome(site, old(View()), raw, e.(order := order));
        && reply == o.reply
        && volume.log == old(volume.log) + o.steps
        && View() == Sys(Exec(old(volume.files), o.steps), o.memory, o.wrote)
    {
      hide Links.Node, CreateRun, ApplyMiddle, ApplyTrim, IsListing, Exec;
      order := e.order;
      ghost var sys := View();
      Runs.ExecNothing(volume.files);
      var parsed := Links.Parse(raw, site.lib);
      if parsed.Failure? {
        return Refused(parsed.error), order;
      }
      var node := parsed.value;
      var bak := manager.Create(e.snapshot);
      if bak.Failure? {
        return Failed(NoSnapshot), order;
      }
      ghost var c := CreateRun(old(volume.files), e.snapshot).steps;
      ghost var f := volume.files;
      reply, order := ApplyRendered(raw, node, bak.value, e);
      ghost var m := ApplyMiddle(sys, raw, node, e);
      ghost var t := ApplyTrim(site, e.(order := order));
      MiddleIgnores(sys, View(), raw, node, e, order);
      MiddleIgnores(sys, Sys(f, settings, sys.wrote), raw, node, e, order);
      ExecAppend(old(volume.files), c, m);
      ExecAppend(old(volume.files), c, m + t);
      assert old(volume.log) + c + (m + t) == old(volume.log) + (c + (m + t));
    }

    /** Apply after its snapshot: write, restart, save the state, trim. */
    method ApplyRendered(raw: string, node: Nodes.ParsedNode, bak: Option<string>, e: ApplyEnv)
      returns (reply: Reply, ghost order: seq<string>)
      requires Valid()
      modifies this, volume
      ensures Valid() && settings == old(settings)
      ensures wrote == if e.mkdirs && e.write.Works() then Some(Written(settings, e.lan)) else old(wrote)
      ensures reply == ApplyReply(site, bak, e)
      ensures var m := ApplyMiddle(old(View()), raw, node, e);
        && (ReachesTrim(site, e) ==> IsListing(Exec(old(volume.files), m), e.hidden, order))
        && volume.log == old(volume.log) + (m + ApplyTrim(site, e.(order := order)))
        && volume.files == Exec(old(volume.files), m + ApplyTrim(site, e.(order := order)))
    {
      hide Rendered, SaveSteps, EncodeState, TrimSteps, IsListing, Exec;
      order := e.order;
      ghost var m := ApplyMiddle(View(), raw, node, e);
      ghost var t := [];
      if e.mkdirs {
        var written := volume.WriteFile(Live, Rendered(node, settings, e.lan), e.write);
        if written {
          wrote := Some(Written(settings, e.lan));
          var st := State(raw, node.nodeLabel, e.at);
          var saved := SaveTo(volume, StateFile, StateTmp, Doc(EncodeState(st)), false, e.save);
          ExecAppend(old(volume.files), LiveSteps(node, settings, e.lan, e.write), SaveStateSteps(st, e.save));
          var trimmed := true;
          if site.keep > 0 {
            var r;
            r, order := manager.Trim(site.keep, e.lists, e.hidden, e.stuck);
            trimmed := r.Success?;
            t := if e.lists then TrimSteps(order, site.keep, e.stuck) else [];
          }
          reply := Applied(bak, e.reachable, e.restarts, saved, trimmed);
        } else {
          reply := Failed(NoWrite);
        }
      } else {
        reply := Failed(NoDirectory);
      }
      assert t == ApplyTrim(site, e.(order := order));
      assert volume.log == old(volume.log) + (m + t);
      volume.Since(m + t);
    }

    /** handleSettingsPost. */
    method HandleSettingsPost(body: Option<Settings>, e: PostEnv) returns (reply: Reply)
      requires Valid()
      modifies this, volume
      ensures Valid()
      ensures var o := PostOutcome(site, old(View()), body, e);
        && reply == o.reply
        && volume.log == old(volume.log) + o.steps
        && View() == Sys(Exec(old(volume.files), o.steps), o.memory, o.wrote)
    {
      hide Links.Node, CreateRun, Rendered, SaveSteps, EncodeSettings, Exec, LoadState, ValidSettings, WriteSteps,
        Stamps.Format;
      Runs.ExecNothing(volume.files);
      if body.None? || !ValidSettings(body.value) {
        return Rejected;
      }
      var newS := body.value;
      ghost var saved := PostSave(site, newS, e);
      if site.persist {
        var ok := SaveTo(volume, SettingsFile, SettingsTmp, Doc(EncodeSettings(newS)), true, e.save);
        if !ok {
          return NotSaved;
        }
      }
      settings := newS;
      ghost var f := volume.files;
      reply := Posted(false, false, None);
      if !e.readable || LoadState(volume.files).Failure? || LoadState(volume.files).value.None? {
        return;
      }
      var parsed := Links.Parse(LoadState(volume.files).value.value.uri, site.lib);
      if parsed.Failure? {
        return;
      }
      var rendered := Rendered(parsed.value, newS, e.lan);
      var bak := manager.Create(e.snapshot);
      ghost var c := CreateRun(f, e.snapshot).steps;
      ExecAppend(old(volume.files), saved, c);
      if bak.Failure? {
        return Posted(false, false, Some(NoSnapshot));
      }
      var written := volume.WriteFile(Live, rendered, e.write);
      ExecAppend(old(volume.files), saved + c, LiveSteps(parsed.value, newS, e.lan, e.write));
      if !written {
        return Posted(false, false, Some(NoWrite));
      }
      wrote := Some(Written(newS, e.lan));
      reply := Posted(true, e.restarts, None);
    }

    /** handleBackupsRestore. */
    method HandleRestore(file: string, e: RestoreEnv) returns (reply: Reply)
      requires Valid()
      modifies this, volume
      ensures Valid()
      ensures var o := EventOutcome(site, old(View()), Restore(file, e));
        && reply == o.reply
        && volume.log == old(volume.log) + o.steps
        && View() == Sys(Exec(old(volume.files), o.steps), o.memory, o.wrote)
    {
      hide RestoreRun, Exec;
      var r := manager.Restore(file, e);
      if r.Failure? {
        return StoreFailed(r.error);
      }
      wrote := None;
      reply := Restored(r.value);
    }

    /** The DELETE branch of handleBackups. */
    method HandleDelete(file: string, removes: bool) returns (reply: Reply)
      requires Valid()
      modifies this, volume
      ensures Valid()
      ensures var o := EventOutcome(site, old(View()), Event.Delete(file, removes));
        && reply == o.reply
        && volume.log == old(volume.log) + o.steps
        && View() == Sys(Exec(old(volume.files), o.steps), o.memory, o.wrote)
    {
      hide DeleteRun, Exec;
      var r := manager.Delete(file, removes);
      if r.Failure? {
        return StoreFailed(r.error);
      }
      reply := Deleted;
    }

    /** handleStatus, as far as the running node goes. */
    method HandleStatus() returns (info: Option<NodeInfo>)
      requires Valid()
      ensures info == Status(site, volume.files)
    {
      hide Links.Node, LoadState, Readback.ReadCurrent;
      var current := CurrentOf(volume.files);
      if current.None? {
        return None;
      }
      var c := current.value;
      var result := NodeInfo(false, "", "", None, c.kind, c.server, c.serverPort);
      var st := LoadState(volume.files);
      if st.Success? && st.value.Some? {
        var parsed := Links.Parse(st.value.value.uri, site.lib);
        if parsed.Success? && parsed.value.outbound.server == c.server
           && parsed.value.outbound.serverPort == c.serverPort {
          result := result.(managed := true, infoLabel := st.value.value.stateLabel, uri := st.value.value.uri,
                            appliedAt := Some(st.value.value.appliedAt));
        }
      }
      info := Some(result);
    }
  }
}
