/** The files the helper owns, as a map from names to bodies that single file steps change.
    An operation is the sequence of its steps; stopping it early leaves the effect of a
    prefix. */
module Disk {
  import opened Wrappers
  import opened Json
  import Stamps

  /** What a file holds: a document, or bytes that are not one; Raw("") is an empty file. */
  datatype Body = Doc(doc: Json) | Raw(text: string)

  const EMPTY := Raw("")

  /** File names. Backup(stamp) is the live path followed by ".bak-" and the stamp. */
  datatype Slot = Live | Backup(stamp: string) | StateFile | StateTmp | SettingsFile | SettingsTmp

  type Files = map<Slot, Body>

  datatype Step = Put(slot: Slot, body: Body) | Remove(slot: Slot) | Rename(slot: Slot, to: Slot)

  function Do(f: Files, s: Step): Files
  {
    match s
    case Put(slot, body) => f[slot := body]
    case Remove(slot) => f - {slot}
    case Rename(slot, to) => if slot in f then f[to := f[slot]] - {slot} else f
  }

  function Exec(f: Files, steps: seq<Step>): Files
    decreases |steps|
  {
    if steps == [] then f else Exec(Do(f, steps[0]), steps[1..])
  }

  lemma {:induction false} ExecAppend(f: Files, a: seq<Step>, b: seq<Step>)
    ensures Exec(f, a + b) == Exec(Exec(f, a), b)
    decreases |a|
  {
    if a == [] {
      assert a + b == b;
    } else {
      assert (a + b)[1..] == a[1..] + b;
      ExecAppend(Do(f, a[0]), a[1..], b);
    }
  }

  predicate Touches(s: Step, slot: Slot)
  {
    s.slot == slot || (s.Rename? && s.to == slot)
  }

  predicate Untouched(steps: seq<Step>, slot: Slot)
  {
    forall i :: 0 <= i < |steps| ==> !Touches(steps[i], slot)
  }

  lemma UntouchedAppend(a: seq<Step>, b: seq<Step>, slot: Slot)
    requires Untouched(a, slot) && Untouched(b, slot)
    ensures Untouched(a + b, slot)
  {
  }

  /** Two file maps agree on one name. */
  predicate Same(f: Files, g: Files, slot: Slot)
  {
    (slot in f <==> slot in g) && (slot in f ==> f[slot] == g[slot])
  }

  lemma {:induction false} UntouchedStays(f: Files, steps: seq<Step>, slot: Slot)
    requires Untouched(steps, slot)
    ensures Same(Exec(f, steps), f, slot)
    decreases |steps|
  {
    if steps == [] {
    } else {
      assert !Touches(steps[0], slot);
      assert Same(Do(f, steps[0]), f, slot);
      UntouchedStays(Do(f, steps[0]), steps[1..], slot);
    }
  }

  /** The only thing steps do to a name is remove it. */
  predicate OnlyRemoved(steps: seq<Step>, slot: Slot)
  {
    forall i :: 0 <= i < |steps| && Touches(steps[i], slot) ==> steps[i] == Remove(slot)
  }

  lemma {:induction false} OnlyRemovedStays(f: Files, steps: seq<Step>, slot: Slot)
    requires OnlyRemoved(steps, slot)
    ensures slot in Exec(f, steps) ==> slot in f && Exec(f, steps)[slot] == f[slot]
    decreases |steps|
  {
    if steps == [] {
    } else {
      var g := Do(f, steps[0]);
      assert Touches(steps[0], slot) ==> steps[0] == Remove(slot);
      assert slot in g ==> slot in f && g[slot] == f[slot];
      OnlyRemovedStays(g, steps[1..], slot);
    }
  }

  /** The steps an operation performs and what it returns. */
  datatype Run<+R> = Run(steps: seq<Step>, result: R)

  /** How one os.WriteFile goes: whether the file opens (which truncates it), what is on
      disk midway, and whether the data gets written whole. */
  datatype Write = Write(opens: bool, partial: Body, completes: bool)
  {
    predicate Works() { opens && completes }
  }

  function WriteSteps(slot: Slot, w: Write, body: Body): (steps: seq<Step>)
    ensures forall i :: 0 <= i < |steps| ==> steps[i].Put? && steps[i].slot == slot
  {
    if !w.opens then []
    else [Put(slot, EMPTY), Put(slot, w.partial)] + if w.completes then [Put(slot, body)] else []
  }

  lemma WriteTouches(to: Slot, w: Write, body: Body, slot: Slot)
    requires slot != to
    ensures Untouched(WriteSteps(to, w, body), slot)
  {
  }

  lemma WriteStepsEnd(f: Files, slot: Slot, w: Write, body: Body)
    requires w.Works()
    ensures var g := Exec(f, WriteSteps(slot, w, body)); slot in g && g[slot] == body
  {
    var open := [Put(slot, EMPTY), Put(slot, w.partial)];
    ExecAppend(f, open, [Put(slot, body)]);
    ExecOne(Exec(f, open), Put(slot, body));
  }

  /** A write is not atomic: once the file is open it is empty, then holds whatever got
      written, and only a finished write leaves the data. */
  lemma WriteCanTear(f: Files, slot: Slot, w: Write, body: Body, i: nat)
    requires w.opens && i <= |WriteSteps(slot, w, body)|
    ensures |WriteSteps(slot, w, body)| == if w.completes then 3 else 2
    ensures Exec(f, WriteSteps(slot, w, body)[..i])
         == if i == 0 then f else f[slot := if i == 1 then EMPTY else if i == 2 then w.partial else body]
  {
    var steps := WriteSteps(slot, w, body);
    var a, b := Put(slot, EMPTY), Put(slot, w.partial);
    assert steps[..0] == [] && steps[..1] == [a] && steps[..2] == [a] + [b];
    ExecOne(f, a);
    ExecAppend(f, [a], [b]);
    ExecOne(f[slot := EMPTY], b);
    if i == 3 {
      assert steps[..3] == [a] + [b] + [Put(slot, body)];
      ExecAppend(f, [a] + [b], [Put(slot, body)]);
      ExecOne(f[slot := w.partial], Put(slot, body));
    }
  }

  lemma ExecOne(f: Files, s: Step)
    ensures Exec(f, [s]) == Do(f, s)
  {
    assert [s][1..] == [];
  }

  /** The stamps of the backups a directory scan accepts. */
  function StampsIn(f: Files): set<string>
  {
    set k | k in f.Keys && k.Backup? && Stamps.ParseStamp(k.stamp).Some? :: k.stamp
  }

  /** When the backup with this stamp was made, in nanoseconds. */
  function Instant(stamp: string): int
  {
    match Stamps.ParseStamp(stamp) case Some(t) => t case None => 0
  }

  lemma BackupsIff(f: Files, stamp: string)
    ensures stamp in StampsIn(f) <==> Backup(stamp) in f && Stamps.ParseStamp(stamp).Some?
  {
    if Backup(stamp) in f && Stamps.ParseStamp(stamp).Some? {
      assert Backup(stamp).stamp == stamp;
    }
  }

  /** A disk performs steps one at a time and remembers them. */
  class Volume {
    var files: Files
    ghost const start: Files
    ghost var log: seq<Step>

    ghost predicate Valid()
      reads this
    {
      files == Exec(start, log)
    }

    constructor (initial: Files)
      ensures Valid() && files == initial && log == []
    {
      files := initial;
      start := initial;
      log := [];
    }

    method Perform(s: Step)
      requires Valid()
      modifies this
      ensures Valid() && files == Do(old(files), s)
      ensures log == old(log) + [s]
    {
      files := match s
        case Put(slot, body) => files[slot := body]
        case Remove(slot) => files - {slot}
        case Rename(slot, to) => if slot in files then files[to := files[slot]] - {slot} else files;
      ExecAppend(start, log, [s]);
      ExecOne(old(files), s);
      log := log + [s];
    }

    /** What the log says since an earlier moment is what happened to the files. */
    twostate lemma Since(steps: seq<Step>)
      requires old(Valid()) && Valid()
      requires log == old(log) + steps
      ensures files == Exec(old(files), steps)
    {
      ExecAppend(start, old(log), steps);
    }

    /** os.WriteFile. */
    method WriteFile(slot: Slot, body: Body, w: Write) returns (ok: bool)
      requires Valid()
      modifies this
      ensures Valid() && ok == w.Works()
      ensures log == old(log) + WriteSteps(slot, w, body)
      ensures files == Exec(old(files), WriteSteps(slot, w, body))
    {
      if w.opens {
        Perform(Put(slot, EMPTY));
        Perform(Put(slot, w.partial));
        if w.completes {
          Perform(Put(slot, body));
        }
      }
      ok := w.opens && w.completes;
      assert log == old(log) + WriteSteps(slot, w, body);
      Since(WriteSteps(slot, w, body));
    }
  }
}
