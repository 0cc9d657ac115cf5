/** The backup manager (internal/backup/backup.go): what Create, Restore, Delete, Trim and
    List do to the directory, step by step, and what they keep. */
module Backups {
  import opened Wrappers
  import opened Seqs
  import opened Calendar
  import opened Disk
  import Stamps
  import BackupNames
  import Paths

  datatype StoreError = SnapshotFailed | NotABackup | Missing | ReadFailed | WriteFailed | RemoveFailed | ListFailed

  // -------------------------------------------------------------------------
  // Create
  // -------------------------------------------------------------------------

  /** What the environment decides during Create: the clock, whether the live file opens,
      whether the exclusive creation is otherwise possible, what a copy looks like midway,
      whether it completes, and whether a failed copy can be removed. */
  datatype Snapshot = Snapshot(now: Civil, opens: bool, creates: bool, partial: Body, completes: bool, cleans: bool)

  function NameOf(e: Snapshot): string { Stamps.Format(e.now) }

  /** The exclusive creation happens. */
  predicate Starts(f: Files, e: Snapshot)
  {
    Live in f && e.opens && e.creates && Backup(NameOf(e)) !in f
  }

  function CreateRun(f: Files, e: Snapshot): Run<Result<Option<string>, StoreError>>
  {
    var slot := Backup(NameOf(e));
    if Live !in f then Run([], Success(None))
    else if !Starts(f, e) then Run([], Failure(SnapshotFailed))
    else
      var begun := [Put(slot, EMPTY), Put(slot, e.partial)];
      if e.completes then Run(begun + [Put(slot, f[Live])], Success(Some(NameOf(e))))
      else Run(begun + (if e.cleans then [Remove(slot)] else []), Failure(SnapshotFailed))
  }

  lemma CreateTouches(f: Files, e: Snapshot, slot: Slot)
    requires slot != Backup(NameOf(e))
    ensures Untouched(CreateRun(f, e).steps, slot)
  {
  }

  /** A finished snapshot is a new file that holds the live body; nothing else changed. */
  lemma CreateMakesCopy(f: Files, e: Snapshot)
    requires CreateRun(f, e).result.Success?
    ensures var g, r := Exec(f, CreateRun(f, e).steps), CreateRun(f, e).result.value;
      && (r.None? <==> Live !in f)
      && (r.None? ==> g == f)
      && (r.Some? ==> r.value == NameOf(e) && Backup(r.value) !in f && g == f[Backup(r.value) := f[Live]])
  {
    if Live in f {
      var slot := Backup(NameOf(e));
      var begun := [Put(slot, EMPTY), Put(slot, e.partial)];
      ExecAppend(f, begun, [Put(slot, f[Live])]);
      ExecAppend(f, [Put(slot, EMPTY)], [Put(slot, e.partial)]);
      assert begun == [Put(slot, EMPTY)] + [Put(slot, e.partial)];
      ExecOne(f, Put(slot, EMPTY));
      ExecOne(f[slot := EMPTY], Put(slot, e.partial));
      ExecOne(f[slot := e.partial], Put(slot, f[Live]));
    }
  }

  // -------------------------------------------------------------------------
  // Restore and Delete
  // -------------------------------------------------------------------------

  datatype RestoreEnv = RestoreEnv(stats: bool, snapshot: Snapshot, readable: bool, write: Write)

  function RestoreRun(f: Files, cfg: string, file: string, e: RestoreEnv): Run<Result<Option<string>, StoreError>>
  {
    var stamp := BackupNames.StampOf(cfg, file);
    if stamp.None? then Run([], Failure(NotABackup))
    else if Backup(stamp.value) !in f || !e.stats then Run([], Failure(Missing))
    else
      var c := CreateRun(f, e.snapshot);
      if c.result.Failure? then c
      else if !e.readable then Run(c.steps, Failure(ReadFailed))
      else
        var w := WriteSteps(Live, e.write, f[Backup(stamp.value)]);
        Run(c.steps + w, if e.write.Works() then c.result else Failure(WriteFailed))
  }

  function DeleteRun(f: Files, cfg: string, file: string, removes: bool): Run<Result<(), StoreError>>
  {
    var stamp := BackupNames.StampOf(cfg, file);
    if stamp.None? then Run([], Failure(NotABackup))
    else if Backup(stamp.value) !in f || !removes then Run([], Failure(RemoveFailed))
    else Run([Remove(Backup(stamp.value))], Success(()))
  }

  /** A successful Restore puts the named body live and keeps the replaced one. */
  lemma RestoreReplaces(f: Files, cfg: string, file: string, e: RestoreEnv)
    requires RestoreRun(f, cfg, file, e).result.Success?
    ensures var run := RestoreRun(f, cfg, file, e);
      var g, b := Exec(f, run.steps), BackupNames.StampOf(cfg, file);
      && b.Some? && Backup(b.value) in f && Live in g && g[Live] == f[Backup(b.value)]
      && (run.result.value.Some? <==> Live in f)
      && (Live in f ==> var n := run.result.value.value;
            n == NameOf(e.snapshot) && Backup(n) !in f && Backup(n) in g && g[Backup(n)] == f[Live])
  {
    hide CreateRun, WriteSteps, Exec, BackupNames.StampOf, Stamps.Format;
    var c := CreateRun(f, e.snapshot);
    var body := f[Backup(BackupNames.StampOf(cfg, file).value)];
    var w := WriteSteps(Live, e.write, body);
    var g := Exec(f, c.steps);
    CreateMakesCopy(f, e.snapshot);
    ExecAppend(f, c.steps, w);
    WriteStepsEnd(g, Live, e.write, body);
    if c.result.value.Some? {
      WriteTouches(Live, e.write, body, Backup(c.result.value.value));
      UntouchedStays(g, w, Backup(c.result.value.value));
    }
  }

  /** The guard and the list agree on files: a path text is accepted for a backup that is
      there exactly when List shows that backup and the text cleans to the same path as the
      one Create gave it. */
  lemma GuardIsListing(f: Files, cfg: string, file: string, s: string)
    requires cfg != "" && cfg[|cfg| - 1] != '/'
    ensures BackupNames.StampOf(cfg, file) == Some(s) && Backup(s) in f
       <==> s in StampsIn(f) && Paths.Clean(file) == Paths.Clean(cfg + ".bak-" + s)
  {
    hide StampsIn, Stamps.ParseStamp, BackupNames.StampOf;
    BackupsIff(f, s);
    BackupNames.StampOfIsClean(cfg, file, s);
  }

  // -------------------------------------------------------------------------
  // List and Trim
  // -------------------------------------------------------------------------

  /** What List may return: every backup except those whose details cannot be read, once,
      newest first. Go's sort does not fix the order of equal times. */
  ghost predicate IsListing(f: Files, hidden: set<string>, order: seq<string>)
  {
    && NoDuplicates(order)
    && (forall s :: s in order <==> s in StampsIn(f) && s !in hidden)
    && (forall i, j :: 0 <= i < j < |order| ==> Instant(order[i]) >= Instant(order[j]))
  }

  /** The removals of a list of backups, except those that fail. */
  function Removals(gone: seq<string>, stuck: set<string>): (steps: seq<Step>)
    ensures forall i :: 0 <= i < |steps| ==>
              steps[i].Remove? && steps[i].slot.Backup? && steps[i].slot.stamp in gone
  {
    if gone == [] then []
    else (if gone[0] in stuck then [] else [Remove(Backup(gone[0]))]) + Removals(gone[1..], stuck)
  }

  lemma RemovalsNone(stuck: set<string>)
    ensures Removals([], stuck) == []
  {
  }

  lemma {:induction false} RemovalsSnoc(gone: seq<string>, s: string, stuck: set<string>)
    ensures Removals(gone + [s], stuck)
         == Removals(gone, stuck) + if s in stuck then [] else [Remove(Backup(s))]
  {
    if gone == [] {
      assert (gone + [s])[1..] == [];
    } else {
      assert (gone + [s])[1..] == gone[1..] + [s];
      RemovalsSnoc(gone[1..], s, stuck);
    }
  }

  function TrimSteps(order: seq<string>, keep: int, stuck: set<string>): seq<Step>
  {
    if keep <= 0 || |order| <= keep then [] else Removals(order[keep..], stuck)
  }

  lemma {:induction false} RemovalsLeave(f: Files, gone: seq<string>, stuck: set<string>)
    ensures Exec(f, Removals(gone, stuck))
         == map k | k in f && !(k.Backup? && k.stamp in gone && k.stamp !in stuck) :: f[k]
    decreases |gone|
  {
    if gone == [] {
    } else {
      var first := if gone[0] in stuck then [] else [Remove(Backup(gone[0]))];
      var g := if gone[0] in stuck then f else f - {Backup(gone[0])};
      ExecAppend(f, first, Removals(gone[1..], stuck));
      if gone[0] !in stuck {
        ExecOne(f, Remove(Backup(gone[0])));
      }
      RemovalsLeave(g, gone[1..], stuck);
      assert forall s :: s in gone <==> s == gone[0] || s in gone[1..];
    }
  }

  /** No two of these backups are dated the same. */
  ghost predicate Apart(stamps: set<string>)
  {
    forall s, t :: s in stamps && t in stamps && s != t ==> Instant(s) != Instant(t)
  }

  ghost predicate NoTies(f: Files)
  {
    Apart(StampsIn(f))
  }

  /** A backup newer than all others is listed first, if at all. */
  lemma NewestIsFirst(f: Files, hidden: set<string>, order: seq<string>, s: string)
    requires IsListing(f, hidden, order) && s in order
    requires forall t :: t in StampsIn(f) && t != s ==> Instant(t) < Instant(s)
    ensures order[0] == s
  {
    var i :| 0 <= i < |order| && order[i] == s;
    assert order[0] in order;
    assert Instant(order[0]) >= Instant(order[i]);
  }

  /** Trim never removes a backup that is newer than all others. */
  lemma TrimSparesNewest(f: Files, hidden: set<string>, order: seq<string>, keep: int, stuck: set<string>, s: string)
    requires IsListing(f, hidden, order)
    requires forall t :: t in StampsIn(f) && t != s ==> Instant(t) < Instant(s)
    ensures Untouched(TrimSteps(order, keep, stuck), Backup(s))
  {
    if 0 < keep < |order| {
      forall i | keep <= i < |order|
        ensures order[i] != s
      {
        if s in order {
          NewestIsFirst(f, hidden, order, s);
        }
      }
    }
  }

  /** The front of a list, at most keep long. */
  function Kept(order: seq<string>, keep: int): seq<string>
    requires keep > 0
  {
    if |order| <= keep then order else order[..keep]
  }

  /** Without ties and failures, Trim leaves exactly the keep newest: the front of the
      list, each newer than everything it removed. */
  lemma TrimKeepsNewest(f: Files, order: seq<string>, keep: int)
    requires IsListing(f, {}, order) && NoTies(f) && keep > 0
    ensures var g := Exec(f, TrimSteps(order, keep, {}));
      var kept := Kept(order, keep);
      && (forall s :: s in StampsIn(g) <==> s in kept)
      && (forall s, t :: s in StampsIn(g) && t in StampsIn(f) && t !in StampsIn(g) ==> Instant(t) < Instant(s))
      && (forall k :: k in f && !k.Backup? ==> Same(g, f, k))
      && (forall s :: s in kept ==> Same(g, f, Backup(s)))
  {
    hide Exec, TrimSteps, StampsIn, Stamps.ParseStamp, Instant;
    var g := Exec(f, TrimSteps(order, keep, {}));
    var kept := Kept(order, keep);
    TrimIsWithout(f, order, keep);
    forall s
      ensures s in StampsIn(g) <==> s in kept
    {
      BackupsIff(f, s);
      BackupsIff(g, s);
      KeptOrGone(order, keep, s);
    }
    forall s, t | s in kept && t in StampsIn(f) && t !in kept
      ensures Instant(t) < Instant(s)
    {
      KeptIsNewer(f, order, keep, s, t);
    }
    forall s | s in kept
      ensures Same(g, f, Backup(s))
    {
      KeptOrGone(order, keep, s);
    }
  }

  lemma KeptOrGone(order: seq<string>, keep: int, s: string)
    requires NoDuplicates(order) && keep > 0
    ensures s in Kept(order, keep) <==> s in order && s !in Gone(order, keep)
  {
    if |order| > keep {
      assert order == order[..keep] + order[keep..];
    }
  }

  lemma KeptIsNewer(f: Files, order: seq<string>, keep: int, s: string, t: string)
    requires IsListing(f, {}, order) && NoTies(f) && keep > 0
    requires s in Kept(order, keep) && t in StampsIn(f) && t !in Kept(order, keep)
    ensures Instant(t) < Instant(s)
  {
    hide StampsIn, Instant;
    var i :| 0 <= i < |order| && i < keep && order[i] == s;
    KeptOrGone(order, keep, t);
    var j :| keep <= j < |order| && order[j] == t;
  }

  /** Without ties there is only one way to list a directory. */
  lemma ListingIsUnique(f: Files, a: seq<string>, b: seq<string>)
    requires IsListing(f, {}, a) && IsListing(f, {}, b) && NoTies(f)
    ensures a == b
  {
    SameElementsSameOrder(a, b);
  }

  /** Strictly descending sequences with the same elements are equal. */
  lemma {:induction false} SameElementsSameOrder(a: seq<string>, b: seq<string>)
    requires forall s :: s in a <==> s in b
    requires forall i, j :: 0 <= i < j < |a| ==> Instant(a[i]) > Instant(a[j])
    requires forall i, j :: 0 <= i < j < |b| ==> Instant(b[i]) > Instant(b[j])
    ensures a == b
    decreases |a|
  {
    assert forall i :: 0 <= i < |b| ==> b[i] in a;
    assert forall i :: 0 <= i < |a| ==> a[i] in b;
    if a == [] || b == [] {
    } else {
      assert a[0] == b[0];
      forall s
        ensures s in a[1..] <==> s in b[1..]
      {
        assert s in a[1..] ==> s in a && s != a[0];
        assert s in b[1..] ==> s in b && s != b[0];
        assert s in a && s != a[0] ==> s in a[1..];
        assert s in b && s != b[0] ==> s in b[1..];
      }
      SameElementsSameOrder(a[1..], b[1..]);
    }
  }

  function Gone(order: seq<string>, keep: int): seq<string>
    requires keep > 0
  {
    if |order| <= keep then [] else order[keep..]
  }

  function Without(f: Files, gone: seq<string>): Files
  {
    map k | k in f && !(k.Backup? && k.stamp in gone) :: f[k]
  }

  lemma TrimIsWithout(f: Files, order: seq<string>, keep: int)
    requires keep > 0
    ensures Exec(f, TrimSteps(order, keep, {})) == Without(f, Gone(order, keep))
  {
    RemovalsLeave(f, Gone(order, keep), {});
    assert Removals([], {}) == [];
  }

  lemma WithoutTwice(f: Files, a: seq<string>, b: seq<string>)
    ensures Without(Without(f, a), b) == Without(f, b + a)
  {
  }

  lemma GoneTwice(order: seq<string>, a: int, b: int)
    requires 0 < a && 0 < b
    ensures Gone(Kept(order, a), b) + Gone(order, a) == Gone(order, if a < b then a else b)
  {
    if b < a < |order| {
      assert order[b..] == order[..a][b..] + order[a..];
    }
  }

  lemma TrimmedListing(f: Files, order: seq<string>, keep: int)
    requires IsListing(f, {}, order) && NoTies(f) && keep > 0
    ensures var g := Exec(f, TrimSteps(order, keep, {}));
      IsListing(g, {}, Kept(order, keep)) && NoTies(g)
  {
    TrimKeepsNewest(f, order, keep);
    var kept := Kept(order, keep);
    assert forall s :: s in kept ==> s in order;
  }

  /** Trimming to a and then to b is trimming to the smaller of the two. */
  lemma TrimTwice(f: Files, a: int, b: int, first: seq<string>, second: seq<string>, once: seq<string>)
    requires 0 < a && 0 < b && NoTies(f)
    requires IsListing(f, {}, first) && IsListing(f, {}, once)
    requires IsListing(Exec(f, TrimSteps(first, a, {})), {}, second)
    ensures Exec(Exec(f, TrimSteps(first, a, {})), TrimSteps(second, b, {}))
         == Exec(f, TrimSteps(once, if a < b then a else b, {}))
  {
    hide Exec, TrimSteps, Without;
    ListingIsUnique(f, first, once);
    var g := Exec(f, TrimSteps(first, a, {}));
    TrimmedListing(f, first, a);
    ListingIsUnique(g, second, Kept(first, a));
    TrimIsWithout(f, first, a);
    TrimIsWithout(g, second, b);
    TrimIsWithout(f, once, if a < b then a else b);
    WithoutTwice(f, Gone(first, a), Gone(second, b));
    GoneTwice(first, a, b);
  }

  /** On names Create makes, newest first is descending order of the names. */
  lemma NewestFirstIsDescending(f: Files, hidden: set<string>, order: seq<string>, times: seq<Civil>)
    requires IsListing(f, hidden, order) && |times| == |order|
    requires forall i :: 0 <= i < |order| ==> IsCivil(times[i]) && order[i] == Stamps.Format(times[i])
    ensures forall i, j :: 0 <= i < j < |order| ==>
              |order[j]| == |order[i]| && Stamps.Less(order[j], order[i])
  {
    forall i, j | 0 <= i < j < |order|
      ensures Stamps.Less(Stamps.Format(times[j]), Stamps.Format(times[i]))
    {
      Stamps.ParseFormat(times[i]);
      Stamps.ParseFormat(times[j]);
      Stamps.FormatOrder(times[j], times[i]);
      assert order[i] != order[j];
      assert Instant(order[i]) >= Instant(order[j]);
    }
  }
}
