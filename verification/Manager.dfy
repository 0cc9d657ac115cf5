/** backup.Manager over a volume: each method performs exactly the file steps that module
    Backups gives for it. */
module Manager {
  import opened Wrappers
  import opened Seqs
  import opened Disk
  import opened Backups
  import Stamps
  import BackupNames
  import Readback

  /** One listed backup; summary is what its summary text is made of. */
  datatype Entry = Entry(stamp: string, createdAt: int, summary: Option<Readback.Snapshot>)

  function StampsOf(es: seq<Entry>): (ss: seq<string>)
    ensures |ss| == |es|
    ensures forall i :: 0 <= i < |es| ==> ss[i] == es[i].stamp
  {
    seq(|es|, i requires 0 <= i < |es| => es[i].stamp)
  }

  /** summarise on a file body. */
  function Summary(b: Body): Option<Readback.Snapshot>
  {
    if b.Doc? then Readback.Summarise(b.doc) else None
  }

  predicate IsEntry(f: Files, e: Entry)
  {
    && e.stamp in StampsIn(f)
    && e.createdAt == Instant(e.stamp)
    && Backup(e.stamp) in f && e.summary == Summary(f[Backup(e.stamp)])
  }

  predicate NewestFirst(es: seq<Entry>)
  {
    forall i, j :: 0 <= i < j < |es| ==> es[i].createdAt >= es[j].createdAt
  }

  class Manager {
    const cfg: string
    const volume: Volume

    constructor (cfg: string, volume: Volume)
      ensures this.cfg == cfg && this.volume == volume
    {
      this.cfg := cfg;
      this.volume := volume;
    }

    method Create(e: Snapshot) returns (r: Result<Option<string>, StoreError>)
      requires volume.Valid()
      modifies volume
      ensures volume.Valid()
      ensures var run := CreateRun(old(volume.files), e);
        && r == run.result
        && volume.log == old(volume.log) + run.steps
        && volume.files == Exec(old(volume.files), run.steps)
    {
      hide Stamps.Format;
      ghost var run := CreateRun(volume.files, e);
      if Live !in volume.files {
        return Success(None);
      }
      if !e.opens {
        return Failure(SnapshotFailed);
      }
      var body := volume.files[Live];
      var slot := Backup(NameOf(e));
      if !e.creates || slot in volume.files {
        return Failure(SnapshotFailed);
      }
      volume.Perform(Put(slot, EMPTY));
      volume.Perform(Put(slot, e.partial));
      if e.completes {
        volume.Perform(Put(slot, body));
        r := Success(Some(NameOf(e)));
      } else {
        if e.cleans {
          volume.Perform(Remove(slot));
        }
        r := Failure(SnapshotFailed);
      }
      assert volume.log == old(volume.log) + run.steps;
      volume.Since(run.steps);
    }

    /** The returned name is that of the snapshot taken of the replaced configuration. */
    method Restore(file: string, e: RestoreEnv) returns (r: Result<Option<string>, StoreError>)
      requires volume.Valid()
      modifies volume
      ensures volume.Valid()
      ensures var run := RestoreRun(old(volume.files), cfg, file, e);
        && r == run.result
        && volume.log == old(volume.log) + run.steps
        && volume.files == Exec(old(volume.files), run.steps)
    {
      hide BackupNames.StampOf, Stamps.Format;
      ghost var run := RestoreRun(volume.files, cfg, file, e);
      var stamp := BackupNames.StampOf(cfg, file);
      if stamp.None? {
        return Failure(NotABackup);
      }
      if Backup(stamp.value) !in volume.files || !e.stats {
        return Failure(Missing);
      }
      r := Create(e.snapshot);
      if r.Failure? {
        return;
      }
      if !e.readable {
        return Failure(ReadFailed);
      }
      CreateMakesCopy(old(volume.files), e.snapshot);
      var body := volume.files[Backup(stamp.value)];
      var ok := volume.WriteFile(Live, body, e.write);
      if !ok {
        r := Failure(WriteFailed);
      }
      assert volume.log == old(volume.log) + run.steps;
      volume.Since(run.steps);
    }

    method Delete(file: string, removes: bool) returns (r: Result<(), StoreError>)
      requires volume.Valid()
      modifies volume
      ensures volume.Valid()
      ensures var run := DeleteRun(old(volume.files), cfg, file, removes);
        && r == run.result
        && volume.log == old(volume.log) + run.steps
        && volume.files == Exec(old(volume.files), run.steps)
    {
      hide BackupNames.StampOf;
      ghost var run := DeleteRun(volume.files, cfg, file, removes);
      var stamp := BackupNames.StampOf(cfg, file);
      if stamp.None? {
        return Failure(NotABackup);
      }
      if Backup(stamp.value) !in volume.files || !removes {
        return Failure(RemoveFailed);
      }
      volume.Perform(Remove(Backup(stamp.value)));
      r := Success(());
      assert volume.log == old(volume.log) + run.steps;
      volume.Since(run.steps);
    }

    /** All backups whose details can be read, each once, newest first, with the summary of
        its own body. */
    method List(hidden: set<string>) returns (out: seq<Entry>)
      ensures IsListing(volume.files, hidden, StampsOf(out))
      ensures forall e :: e in out ==> IsEntry(volume.files, e)
    {
      hide Stamps.ParseStamp, Readback.Summarise;
      out := [];
      var f := volume.files;
      var rest := StampsIn(f);
      while rest != {}
        invariant rest <= StampsIn(f)
        invariant NoDuplicates(StampsOf(out))
        invariant forall s :: s in StampsOf(out) <==> s in StampsIn(f) && s !in hidden && s !in rest
        invariant forall e :: e in out ==> IsEntry(f, e)
        invariant NewestFirst(out)
        decreases rest
      {
        var s :| s in rest;
        BackupsIff(f, s);
        if s !in hidden {
          var e := Entry(s, Instant(s), Summary(f[Backup(s)]));
          ghost var was, at := out, 0;
          out, at := Insert(out, e);
          InsertedStamps(was, e, at);
          InsertOne(StampsOf(was), at, s);
          InsertOne(was, at, e);
        }
        rest := rest - {s};
      }
      forall i | 0 <= i < |out|
        ensures out[i].createdAt == Instant(StampsOf(out)[i])
      {
        assert out[i] in out;
      }
    }

    /** Trim with the removals that List's order calls for; order is that order. */
    method Trim(keep: int, lists: bool, hidden: set<string>, stuck: set<string>)
      returns (r: Result<(), StoreError>, ghost order: seq<string>)
      requires volume.Valid()
      modifies volume
      ensures volume.Valid()
      ensures IsListing(old(volume.files), hidden, order)
      ensures r == if keep > 0 && !lists then Failure(ListFailed) else Success(())
      ensures var steps := if lists then TrimSteps(order, keep, stuck) else [];
        && volume.log == old(volume.log) + steps
        && volume.files == Exec(old(volume.files), steps)
    {
      hide IsListing, StampsIn, Exec;
      var all := List(hidden);
      order := StampsOf(all);
      assert volume.log == old(volume.log) + [];
      volume.Since([]);
      if keep <= 0 {
        return Success(()), order;
      }
      if !lists {
        return Failure(ListFailed), order;
      }
      if |all| <= keep {
        return Success(()), order;
      }
      assert StampsOf(all[keep..]) == order[keep..];
      RemoveAll(all[keep..], stuck);
      r := Success(());
    }

    /** Removes the given backups one by one, passing over those that cannot be removed. */
    method RemoveAll(gone: seq<Entry>, stuck: set<string>)
      requires volume.Valid()
      modifies volume
      ensures volume.Valid()
      ensures volume.log == old(volume.log) + Removals(StampsOf(gone), stuck)
      ensures volume.files == Exec(old(volume.files), Removals(StampsOf(gone), stuck))
    {
      hide Exec, Removals;
      ghost var stamps := StampsOf(gone);
      RemovalsNone(stuck);
      var i := 0;
      while i < |gone|
        invariant 0 <= i <= |gone| && volume.Valid()
        invariant volume.log == old(volume.log) + Removals(stamps[..i], stuck)
      {
        RemovalsSnoc(stamps[..i], gone[i].stamp, stuck);
        assert stamps[..i + 1] == stamps[..i] + [gone[i].stamp];
        if gone[i].stamp !in stuck {
          volume.Perform(Remove(Backup(gone[i].stamp)));
        }
        i := i + 1;
      }
      assert stamps[..i] == stamps;
      volume.Since(Removals(stamps, stuck));
    }
  }

  /** Inserts an entry behind all that are not older, as a stable sort by time would. */
  method Insert(es: seq<Entry>, e: Entry) returns (r: seq<Entry>, ghost at: nat)
    requires NewestFirst(es)
    ensures NewestFirst(r)
    ensures at <= |es| && r == es[..at] + [e] + es[at..]
  {
    var i := 0;
    while i < |es| && es[i].createdAt >= e.createdAt
      invariant 0 <= i <= |es|
      invariant forall k :: 0 <= k < i ==> es[k].createdAt >= e.createdAt
    {
      i := i + 1;
    }
    r, at := es[..i] + [e] + es[i..], i;
  }

  lemma InsertedStamps(es: seq<Entry>, e: Entry, at: nat)
    requires at <= |es|
    ensures StampsOf(es[..at] + [e] + es[at..]) == StampsOf(es)[..at] + [e.stamp] + StampsOf(es)[at..]
  {
  }

  /** Inserting a new element keeps elements distinct and adds only itself. */
  lemma InsertOne<T>(xs: seq<T>, at: nat, x: T)
    requires at <= |xs|
    ensures var r := xs[..at] + [x] + xs[at..];
      && (forall y :: y in r <==> y == x || y in xs)
      && (NoDuplicates(xs) && x !in xs ==> NoDuplicates(r))
  {
    var r := xs[..at] + [x] + xs[at..];
    assert xs == xs[..at] + xs[at..];
    forall i, j | 0 <= i < j < |r| && NoDuplicates(xs) && x !in xs
      ensures r[i] != r[j]
    {
      assert i != at ==> r[i] == xs[if i < at then i else i - 1];
      assert j != at ==> r[j] == xs[if j < at then j else j - 1];
    }
  }
}
