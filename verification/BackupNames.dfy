/** Which files are backups of a configuration: the directory scan of List and the guard of
    Restore and Delete (internal/backup/backup.go). */
module BackupNames {
  import opened Wrappers
  import opened Seqs
  import opened Paths
  import opened Calendar
  import Stamps

  function Prefix(cfg: string): string
  {
    Base(cfg) + ".bak-"
  }

  /** The test List and belongsHere make on an entry name. */
  predicate IsBackupName(cfg: string, name: string)
  {
    HasPrefix(name, Prefix(cfg)) && Stamps.ParseStamp(name[|Prefix(cfg)|..]).Some?
  }

  /** The guard of Restore and Delete. */
  predicate BelongsHere(cfg: string, file: string)
  {
    var clean := Clean(file);
    Dir(clean) == Dir(cfg) && IsBackupName(cfg, Base(clean))
  }

  /** The stamp of a file the guard accepts. */
  function StampOf(cfg: string, file: string): Option<string>
  {
    if BelongsHere(cfg, file) then Some(Base(Clean(file))[|Prefix(cfg)|..]) else None
  }

  /** A set of regular files, each under its clean path. */
  predicate AreFiles(files: set<string>)
  {
    forall p :: p in files ==> Clean(p) == p && Plain(Base(p))
  }

  /** name is a regular entry of the directory the configuration is in. */
  predicate IsEntry(files: set<string>, cfg: string, name: string)
  {
    Plain(name) && Under(Dir(cfg), name) in files
  }

  /** p is the File of some entry that List returns. */
  ghost predicate IsListed(files: set<string>, cfg: string, p: string)
  {
    exists name :: IsEntry(files, cfg, name) && IsBackupName(cfg, name) && p == Under(Dir(cfg), name)
  }

  lemma DirIsClean(path: string)
    ensures Clean(Dir(path)) == Dir(path)
  {
    LastEnds(path);
    CleanOfClean(Front(path));
  }

  /** The guard and the list define the same files: whatever text names an existing file,
      with dots and doubled slashes, it is accepted exactly when its clean path is listed. */
  lemma GuardIsList(files: set<string>, cfg: string, file: string)
    requires AreFiles(files) && Clean(file) in files
    ensures BelongsHere(cfg, file) <==> IsListed(files, cfg, Clean(file))
  {
    hide Clean, Base, Dir;
    var p := Clean(file);
    DirIsClean(cfg);
    PathParts(p);
    if BelongsHere(cfg, file) {
      assert IsEntry(files, cfg, Base(p));
    }
    if IsListed(files, cfg, p) {
      var name :| IsEntry(files, cfg, name) && IsBackupName(cfg, name) && p == Under(Dir(cfg), name);
      UnderParts(Dir(cfg), name);
    }
  }

  /** The path Create gives a backup passes the guard with the stamp it was made from. */
  lemma CreatedPathBelongs(cfg: string, stamp: string)
    requires cfg != "" && cfg[|cfg| - 1] != '/'
    requires '/' !in stamp && Stamps.ParseStamp(stamp).Some?
    ensures StampOf(cfg, cfg + ".bak-" + stamp) == Some(stamp)
  {
    hide Stamps.ParseStamp, Base, Dir, Clean;
    LastEnds(cfg);
    var front, base := Front(cfg), Last(cfg);
    var name := base + ".bak-" + stamp;
    assert base != "" by {
      assert cfg == front + base;
    }
    assert cfg + ".bak-" + stamp == front + name;
    BaseAndFront(front, base);
    NameIsPlain(base, stamp);
    CleanOfFile(front, name);
    NameParts(base + ".bak-", stamp);
  }

  /** The texts the guard takes for a stamp are those that clean to the path Create gives. */
  lemma StampOfIsClean(cfg: string, file: string, s: string)
    requires cfg != "" && cfg[|cfg| - 1] != '/'
    ensures StampOf(cfg, file) == Some(s)
       <==> Stamps.ParseStamp(s).Some? && Clean(file) == Clean(cfg + ".bak-" + s)
  {
    hide Stamps.ParseStamp, Base, Dir, Clean;
    var own := cfg + ".bak-" + s;
    if Stamps.ParseStamp(s).Some? {
      StampHasNoSlash(s);
      CreatedPathBelongs(cfg, s);
      if StampOf(cfg, file) == Some(s) {
        BaseHasNoSlash(cfg);
        SamePath(cfg, file, own, s);
      }
    }
  }

  lemma BaseHasNoSlash(cfg: string)
    requires cfg != "" && cfg[|cfg| - 1] != '/'
    ensures '/' !in Base(cfg)
  {
    assert StripSlashes(cfg) == cfg;
  }

  /** Directory and name determine a clean path. */
  lemma SamePath(cfg: string, a: string, b: string, s: string)
    requires '/' !in s && '/' !in Base(cfg)
    requires StampOf(cfg, a) == Some(s) && StampOf(cfg, b) == Some(s)
    ensures Clean(a) == Clean(b)
  {
    hide Stamps.ParseStamp, Base, Dir, Clean;
    var n := Base(Clean(a));
    assert n == Prefix(cfg) + s == Base(Clean(b));
    NameIsPlain(Base(cfg), s);
    CleanOfClean(a);
    CleanOfClean(b);
    PathParts(Clean(a));
    PathParts(Clean(b));
  }

  lemma NameIsPlain(base: string, stamp: string)
    requires '/' !in base && '/' !in stamp
    ensures Plain(base + ".bak-" + stamp)
  {
    assert |base + ".bak-" + stamp| > 2;
  }

  lemma NameParts(prefix: string, stamp: string)
    ensures (prefix + stamp)[|prefix|..] == stamp && HasPrefix(prefix + stamp, prefix)
  {
  }

  lemma CleanOfFile(front: string, name: string)
    requires front == "" || front[|front| - 1] == '/'
    requires Plain(name)
    ensures Base(Clean(front + name)) == name && Dir(Clean(front + name)) == Clean(front)
  {
    hide Base, Dir;
    ElementsOfFront(front, name);
    ElementsAreNormal(front);
    TextParts(Elements(front), name, Rooted(front));
  }

  lemma FormatHasNoSlash(c: Civil)
    ensures '/' !in Stamps.Format(c)
  {
  }

  /** A stamp is digits, a hyphen and at most a fraction. */
  lemma StampHasNoSlash(s: string)
    requires Stamps.ParseStamp(s).Some?
    ensures '/' !in s
  {
    hide Calendar.IsCivil, Calendar.Seconds;
    var tail := s[15..];
    assert Stamps.ReadFields(s).Some? && Stamps.ReadFraction(tail).Some?;
    forall i | 0 <= i < |s|
      ensures s[i] != '/'
    {
      if i < 15 {
        FieldHasNoSlash(s, i);
      } else {
        assert s[i] == tail[i - 15];
        if i > 15 {
          assert tail[1..][i - 16] in tail[1..];
        }
      }
    }
  }

  lemma FieldHasNoSlash(s: string, i: nat)
    requires |s| >= 15 && i < 15 && Stamps.ReadFields(s).Some?
    ensures s[i] != '/'
  {
    hide Stamps.Number;
    DigitsHaveNoSlash(s, 0, 4);
    DigitsHaveNoSlash(s, 4, 6);
    DigitsHaveNoSlash(s, 6, 8);
    DigitsHaveNoSlash(s, 9, 11);
    DigitsHaveNoSlash(s, 11, 13);
    DigitsHaveNoSlash(s, 13, 15);
  }

  lemma DigitsHaveNoSlash(s: string, from: nat, to: nat)
    requires from <= to <= |s| && Stamps.Number(s, from, to).Some?
    ensures forall i :: from <= i < to ==> s[i] != '/'
  {
    forall i | from <= i < to
      ensures s[i] != '/'
    {
      assert s[from..to][i - from] in s[from..to];
    }
  }
}
