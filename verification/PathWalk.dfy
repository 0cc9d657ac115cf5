/** Where a path text leads: a walk through the directory tree, name by name, that knows
    nothing of cleaning. Clean keeps the place a text leads to, and the guard of Restore and
    Delete accepts exactly the texts that lead to a backup of the configuration. */
module PathWalk {
  import opened Wrappers
  import opened Seqs
  import opened Paths
  import Stamps
  import BackupNames

  /** A place in the tree: the names on the way from the root. */
  type Place = seq<string>

  /** One name: nothing and "." stay, ".." goes up and stays at the root, others go down. */
  function Go(at: Place, name: string): Place
  {
    if name == "" || name == "." then at
    else if name == ".." then if at == [] then [] else at[..|at| - 1]
    else at + [name]
  }

  function Walk(at: Place, names: seq<string>): Place
    decreases |names|
  {
    if names == [] then at else Walk(Go(at, names[0]), names[1..])
  }

  /** Where a path text leads from the working directory cwd. */
  function PlaceOf(cwd: Place, path: string): Place
  {
    Walk(if Rooted(path) then [] else cwd, Split(path, '/'))
  }

  lemma {:induction false} WalkAppend(at: Place, a: seq<string>, b: seq<string>)
    ensures Walk(at, a + b) == Walk(Walk(at, a), b)
    decreases |a|
  {
    if a == [] {
      assert a + b == b;
    } else {
      assert (a + b)[0] == a[0] && (a + b)[1..] == a[1..] + b;
      WalkAppend(Go(at, a[0]), a[1..], b);
    }
  }

  lemma WalkSnoc(at: Place, a: seq<string>, name: string)
    ensures Walk(at, a + [name]) == Go(Walk(at, a), name)
  {
    WalkAppend(at, a, [name]);
    assert [name][1..] == [];
  }

  // -------------------------------------------------------------------------
  // Clean leads to the same place
  // -------------------------------------------------------------------------

  /** The loop of Clean keeps the place: what it has kept so far and what is left lead where
      the text leads. */
  lemma {:induction false} ReduceKeepsPlace(parts: seq<string>, rooted: bool, acc: seq<string>, at: Place)
    requires forall p :: p in parts ==> '/' !in p
    requires Normal(acc, rooted) && (rooted ==> at == [])
    ensures Walk(at, Reduce(parts, rooted, acc)) == Walk(Walk(at, acc), parts)
    decreases |parts|
  {
    if parts == [] {
    } else {
      var p, rest := parts[0], parts[1..];
      assert p in parts;
      if p == "" || p == "." {
        ReduceKeepsPlace(rest, rooted, acc, at);
      } else if p != ".." {
        WalkSnoc(at, acc, p);
        ReduceKeepsPlace(rest, rooted, acc + [p], at);
      } else if acc != [] && acc[|acc| - 1] != ".." {
        var front, last := acc[..|acc| - 1], acc[|acc| - 1];
        assert acc == front + [last] && Plain(last);
        WalkSnoc(at, front, last);
        assert Go(Go(Walk(at, front), last), "..") == Walk(at, front);
        ReduceKeepsPlace(rest, rooted, front, at);
      } else if rooted {
        assert acc == [];
        ReduceKeepsPlace(rest, rooted, acc, at);
      } else {
        WalkSnoc(at, acc, "..");
        ReduceKeepsPlace(rest, rooted, acc + [".."], at);
      }
    }
  }

  /** A clean text leads where its elements lead. */
  lemma TextLeads(elems: seq<string>, rooted: bool, at: Place)
    requires Normal(elems, rooted)
    ensures Walk(at, Split(Text(rooted, elems), '/')) == Walk(at, elems)
  {
    if elems == [] {
      SplitJoin(if rooted then ["", ""] else ["."], '/');
      assert Text(rooted, elems) == Join(if rooted then ["", ""] else ["."], '/');
      assert ["", ""][1..] == [""] && [""][1..] == [] && ["."][1..] == [];
    } else if rooted {
      assert "/" + Join(elems, '/') == Join([""] + elems, '/') by {
        assert ([""] + elems)[1..] == elems;
      }
      SplitJoin([""] + elems, '/');
      assert ([""] + elems)[1..] == elems;
    } else {
      SplitJoin(elems, '/');
    }
  }

  /** Clean leads to the same place: from the root for rooted texts, from every working
      directory for relative ones. */
  lemma CleanKeepsPlace(cwd: Place, path: string)
    ensures PlaceOf(cwd, Clean(path)) == PlaceOf(cwd, path)
  {
    var r := Rooted(path);
    ElementsAreNormal(path);
    TextIsRooted(Elements(path), r);
    TextLeads(Elements(path), r, if r then [] else cwd);
    ReduceKeepsPlace(Split(path, '/'), r, [], if r then [] else cwd);
  }

  // -------------------------------------------------------------------------
  // The place determines the clean text
  // -------------------------------------------------------------------------

  /** The working directory is deep, and none of its names is among these elements. */
  predicate FarFrom(cwd: Place, elems: seq<string>)
  {
    |cwd| >= |elems| && forall n :: n in cwd ==> n !in elems
  }

  /** Elements of a clean path: some ".."s, then plain names. */
  lemma {:induction false} UpsThenNames(elems: seq<string>, rooted: bool) returns (k: nat)
    requires Normal(elems, rooted)
    ensures k <= |elems| && (rooted ==> k == 0)
    ensures forall i :: 0 <= i < k ==> elems[i] == ".."
    ensures forall i :: k <= i < |elems| ==> Plain(elems[i])
  {
    if elems == [] {
      k := 0;
    } else {
      var init, last := elems[..|elems| - 1], elems[|elems| - 1];
      assert forall i :: 0 <= i < |init| ==> init[i] == elems[i];
      k := UpsThenNames(init, rooted);
      if !Plain(last) {
        assert forall i :: 0 <= i < |elems| ==> elems[i] == "..";
        k := |elems|;
      }
    }
  }

  lemma {:induction false} WalkUp(at: Place, elems: seq<string>)
    requires forall i :: 0 <= i < |elems| ==> elems[i] == ".."
    requires |elems| <= |at|
    ensures Walk(at, elems) == at[..|at| - |elems|]
    decreases |elems|
  {
    if elems == [] {
      assert at[..|at|] == at;
    } else {
      WalkUp(at[..|at| - 1], elems[1..]);
      assert at[..|at| - 1][..|at| - |elems|] == at[..|at| - |elems|];
    }
  }

  lemma {:induction false} WalkDown(at: Place, elems: seq<string>)
    requires forall i :: 0 <= i < |elems| ==> Plain(elems[i])
    ensures Walk(at, elems) == at + elems
    decreases |elems|
  {
    if elems == [] {
      assert at + elems == at;
    } else {
      WalkDown(at + [elems[0]], elems[1..]);
      assert at + [elems[0]] + elems[1..] == at + elems;
    }
  }

  lemma WalkOfNormal(at: Place, elems: seq<string>, rooted: bool) returns (k: nat)
    requires Normal(elems, rooted) && (if rooted then at == [] else |at| >= |elems|)
    ensures k <= |elems| && k <= |at|
    ensures forall i :: 0 <= i < k ==> elems[i] == ".."
    ensures Walk(at, elems) == at[..|at| - k] + elems[k..]
  {
    k := UpsThenNames(elems, rooted);
    assert elems == elems[..k] + elems[k..];
    WalkAppend(at, elems[..k], elems[k..]);
    WalkUp(at, elems[..k]);
    WalkDown(at[..|at| - k], elems[k..]);
  }

  /** Different clean elements lead to different places from far away. */
  lemma WalkIsInjective(at: Place, a: seq<string>, b: seq<string>, rooted: bool)
    requires Normal(a, rooted) && Normal(b, rooted)
    requires if rooted then at == [] else FarFrom(at, a) && FarFrom(at, b)
    requires Walk(at, a) == Walk(at, b)
    ensures a == b
  {
    var k := WalkOfNormal(at, a, rooted);
    var l := WalkOfNormal(at, b, rooted);
    if k < l {
      ShallowerDiffers(at, a, b, k, l);
    } else if l < k {
      ShallowerDiffers(at, b, a, l, k);
    } else {
      assert a == a[..k] + a[k..] && b == b[..k] + b[k..];
      assert a[..k] == b[..k];
      SameTail(at[..|at| - k], a[k..], b[k..]);
    }
  }

  lemma SameTail(p: Place, a: seq<string>, b: seq<string>)
    requires p + a == p + b
    ensures a == b
  {
    assert a == (p + a)[|p|..] && b == (p + b)[|p|..];
  }

  lemma ShallowerDiffers(at: Place, a: seq<string>, b: seq<string>, k: nat, l: nat)
    requires k < l <= |at| && k <= |a| && l <= |b| && (forall n :: n in at ==> n !in b)
    ensures at[..|at| - k] + a[k..] != at[..|at| - l] + b[l..]
  {
    var x, y := at[..|at| - k] + a[k..], at[..|at| - l] + b[l..];
    var i := |at| - l;
    assert x[i] == at[i] && at[i] in at;
    if |y| > i {
      assert y[i] == b[l..][0] && b[l..][0] in b;
    }
  }

  /** Two texts of one kind have the same clean text exactly when they lead to the same
      place. */
  lemma SamePlaceIff(cwd: Place, p: string, q: string)
    requires Rooted(p) == Rooted(q)
    requires !Rooted(p) ==> FarFrom(cwd, Elements(p)) && FarFrom(cwd, Elements(q))
    ensures PlaceOf(cwd, p) == PlaceOf(cwd, q) <==> Clean(p) == Clean(q)
  {
    CleanKeepsPlace(cwd, p);
    CleanKeepsPlace(cwd, q);
    if PlaceOf(cwd, p) == PlaceOf(cwd, q) {
      var r := Rooted(p);
      var at := if r then [] else cwd;
      ElementsAreNormal(p);
      ElementsAreNormal(q);
      ReduceKeepsPlace(Split(p, '/'), r, [], at);
      ReduceKeepsPlace(Split(q, '/'), r, [], at);
      WalkIsInjective(at, Elements(p), Elements(q), r);
    }
  }

  // -------------------------------------------------------------------------
  // The guard
  // -------------------------------------------------------------------------

  /** Neither text leads above what can be seen of the working directory. */
  predicate Comparable(cwd: Place, p: string, q: string)
  {
    Rooted(p) == Rooted(q) && (!Rooted(p) ==> FarFrom(cwd, Elements(p)) && FarFrom(cwd, Elements(q)))
  }

  /** Restore and Delete take a text for the backup with stamp s exactly when it leads to the
      file Create makes with that stamp. */
  lemma GuardIsPlace(cwd: Place, cfg: string, file: string, s: string)
    requires cfg != "" && cfg[|cfg| - 1] != '/'
    requires Comparable(cwd, file, cfg + ".bak-" + s)
    ensures BackupNames.StampOf(cfg, file) == Some(s)
       <==> Stamps.ParseStamp(s).Some? && PlaceOf(cwd, file) == PlaceOf(cwd, cfg + ".bak-" + s)
  {
    hide BackupNames.StampOf, Stamps.ParseStamp, Clean, PlaceOf, Elements, FarFrom;
    BackupNames.StampOfIsClean(cfg, file, s);
    SamePlaceIff(cwd, file, cfg + ".bak-" + s);
  }

  /** The file Create makes lies beside the configuration, under the configuration's name,
      ".bak-" and the stamp. */
  lemma BackupLiesBeside(cwd: Place, cfg: string, s: string)
    requires cfg != "" && Plain(Last(cfg)) && '/' !in s
    ensures var c, b := PlaceOf(cwd, cfg), PlaceOf(cwd, cfg + ".bak-" + s);
      c != [] && b == c[..|c| - 1] + [Last(cfg) + ".bak-" + s]
  {
    LastEnds(cfg);
    var front, n := Front(cfg), Last(cfg);
    assert cfg + ".bak-" + s == front + (n + ".bak-" + s);
    FrontAndName(cwd, front, n);
    assert '.' in ".bak-" && |n + ".bak-" + s| > 2;
    FrontAndName(cwd, front, n + ".bak-" + s);
  }

  lemma FrontAndName(cwd: Place, front: string, n: string)
    requires front == "" || front[|front| - 1] == '/'
    requires Plain(n)
    ensures Rooted(front + n) == Rooted(front)
    ensures PlaceOf(cwd, front + n) == PlaceOf(cwd, front) + [n]
  {
    SplitJoin([n], '/');
    if front == "" {
      SplitJoin([""], '/');
      assert front + n == n == Join([n], '/') && front == Join([""], '/');
      WalkSnoc(cwd, [], n);
      WalkSnoc(cwd, [], "");
      assert [] + [n] == [n] && [] + [""] == [""];
    } else {
      var q, at := front[..|front| - 1], if Rooted(front) then [] else cwd;
      assert front + n == q + ['/'] + n && front == q + ['/'] + "";
      SplitConcat(q, '/', n);
      SplitConcat(q, '/', "");
      SplitJoin([""], '/');
      WalkSnoc(at, Split(q, '/'), n);
      WalkSnoc(at, Split(q, '/'), "");
    }
  }

  /** The place beside the configuration with this name. */
  function Beside(cwd: Place, cfg: string, name: string): Place
  {
    var c := PlaceOf(cwd, cfg);
    (if c == [] then c else c[..|c| - 1]) + [name]
  }

  /** A regular file beside the configuration that List shows. */
  predicate IsListedName(tree: set<Place>, cwd: Place, cfg: string, name: string)
  {
    Beside(cwd, cfg, name) in tree && BackupNames.IsBackupName(cfg, name)
  }

  /** A working directory from which relative texts tell files beside cfg apart. */
  predicate FarFromDir(cwd: Place, cfg: string)
  {
    LastEnds(cfg);
    && |cwd| > |Elements(Front(cfg))|
    && forall n :: n in cwd ==> n !in Elements(Front(cfg)) && !BackupNames.IsBackupName(cfg, n)
  }

  lemma FarFromBackups(cwd: Place, cfg: string, s: string)
    requires cfg != "" && Plain(Last(cfg)) && Stamps.ParseStamp(s).Some?
    requires FarFromDir(cwd, cfg)
    ensures FarFrom(cwd, Elements(cfg + ".bak-" + s))
  {
    hide Stamps.ParseStamp, Elements;
    LastEnds(cfg);
    var front, n := Front(cfg), Last(cfg);
    BackupNames.StampHasNoSlash(s);
    assert cfg + ".bak-" + s == front + (n + ".bak-" + s);
    ElementsOfFront(front, n + ".bak-" + s);
    NameIsBackupName(cfg, s);
  }

  lemma NameIsBackupName(cfg: string, s: string)
    requires cfg != "" && Plain(Last(cfg)) && Stamps.ParseStamp(s).Some?
    ensures BackupNames.IsBackupName(cfg, Last(cfg) + ".bak-" + s)
  {
    hide Stamps.ParseStamp;
    LastEnds(cfg);
    BaseAndFront(Front(cfg), Last(cfg));
    BackupNames.NameParts(Last(cfg) + ".bak-", s);
  }

  /** Whatever text leads to a regular file: Restore and Delete accept it exactly when that
      file is one that List shows beside the configuration. */
  lemma GuardIsListedPlace(tree: set<Place>, cwd: Place, cfg: string, file: string)
    requires cfg != "" && Plain(Last(cfg)) && Rooted(file) == Rooted(cfg)
    requires !Rooted(cfg) ==> FarFrom(cwd, Elements(file)) && FarFromDir(cwd, cfg)
    requires PlaceOf(cwd, file) in tree
    ensures BackupNames.BelongsHere(cfg, file)
       <==> exists name :: IsListedName(tree, cwd, cfg, name) && PlaceOf(cwd, file) == Beside(cwd, cfg, name)
  {
    hide Stamps.ParseStamp, PlaceOf, Elements, FarFrom, FarFromDir, Base, Clean, Dir;
    LastEnds(cfg);
    assert cfg[|cfg| - 1] != '/' by {
      assert cfg[|cfg| - 1] == Last(cfg)[|Last(cfg)| - 1];
    }
    BaseAndFront(Front(cfg), Last(cfg));
    if BackupNames.BelongsHere(cfg, file) {
      var s := BackupNames.StampOf(cfg, file).value;
      BackupPlace(cwd, cfg, file, s);
      assert IsListedName(tree, cwd, cfg, Last(cfg) + ".bak-" + s);
    }
    if name :| IsListedName(tree, cwd, cfg, name) && PlaceOf(cwd, file) == Beside(cwd, cfg, name) {
      var s := name[|Last(cfg) + ".bak-"|..];
      assert name == Last(cfg) + ".bak-" + s;
      BackupPlace(cwd, cfg, file, s);
    }
  }

  lemma BackupPlace(cwd: Place, cfg: string, file: string, s: string)
    requires cfg != "" && cfg[|cfg| - 1] != '/' && Plain(Last(cfg)) && Rooted(file) == Rooted(cfg)
    requires !Rooted(cfg) ==> FarFrom(cwd, Elements(file)) && FarFromDir(cwd, cfg)
    requires Stamps.ParseStamp(s).Some?
    ensures BackupNames.StampOf(cfg, file) == Some(s)
       <==> PlaceOf(cwd, file) == Beside(cwd, cfg, Last(cfg) + ".bak-" + s)
    ensures BackupNames.IsBackupName(cfg, Last(cfg) + ".bak-" + s)
  {
    hide Stamps.ParseStamp, PlaceOf, Elements, FarFrom, FarFromDir, Base, Clean, Dir, BackupNames.StampOf;
    BackupNames.StampHasNoSlash(s);
    NameIsBackupName(cfg, s);
    if !Rooted(cfg) {
      FarFromBackups(cwd, cfg, s);
    }
    assert Rooted(cfg + ".bak-" + s) == Rooted(cfg);
    GuardIsPlace(cwd, cfg, file, s);
    BackupLiesBeside(cwd, cfg, s);
  }

  /** A text of the other kind, relative against a rooted configuration or the other way
      round, is never accepted. */
  lemma KindsDoNotMix(cfg: string, file: string)
    requires Rooted(file) != Rooted(cfg)
    ensures BackupNames.StampOf(cfg, file).None?
  {
    hide Stamps.ParseStamp;
    DirIsRooted(Clean(file));
    DirIsRooted(cfg);
    ElementsAreNormal(file);
    TextIsRooted(Elements(file), Rooted(file));
  }

  lemma DirIsRooted(path: string)
    ensures Rooted(Dir(path)) == Rooted(path)
  {
    LastEnds(path);
    var front := Front(path);
    assert Rooted(path) ==> '/' in path && '/' !in Last(path);
    assert Rooted(front) == Rooted(path);
    ElementsAreNormal(front);
    TextIsRooted(Elements(front), Rooted(front));
  }
}
