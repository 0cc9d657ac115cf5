/** Lexical path handling of package filepath on Unix: Clean, Dir, Base and Join. */
module Paths {
  import opened Seqs

  predicate Rooted(path: string) { path != "" && path[0] == '/' }

  /** The element loop of filepath.Clean: skip empty and dot elements, let ".." take back
      the element before it, keep it at the front of a relative path, drop it at a root. */
  function Reduce(parts: seq<string>, rooted: bool, acc: seq<string>): seq<string>
    decreases |parts|
  {
    if parts == [] then acc
    else if parts[0] == "" || parts[0] == "." then Reduce(parts[1..], rooted, acc)
    else if parts[0] != ".." then Reduce(parts[1..], rooted, acc + [parts[0]])
    else if acc != [] && acc[|acc| - 1] != ".." then Reduce(parts[1..], rooted, acc[..|acc| - 1])
    else if rooted then Reduce(parts[1..], rooted, acc)
    else Reduce(parts[1..], rooted, acc + [".."])
  }

  function Text(rooted: bool, elems: seq<string>): string
  {
    if rooted then "/" + Join(elems, '/') else if elems == [] then "." else Join(elems, '/')
  }

  function Elements(path: string): seq<string>
  {
    Reduce(Split(path, '/'), Rooted(path), [])
  }

  /** filepath.Clean. */
  function Clean(path: string): string
  {
    Text(Rooted(path), Elements(path))
  }

  /** What follows the last slash. */
  function Last(path: string): (l: string)
    ensures '/' !in l
  {
    var ps := Split(path, '/');
    assert ps[|ps| - 1] in ps;
    ps[|ps| - 1]
  }

  /** What precedes it, slash included. */
  function Front(path: string): string
    requires |Last(path)| <= |path|
  {
    path[..|path| - |Last(path)|]
  }

  lemma LastEnds(path: string)
    ensures |Last(path)| <= |path|
    ensures path == Front(path) + Last(path)
    ensures Front(path) == "" || Front(path)[|Front(path)| - 1] == '/'
  {
    var ps := Split(path, '/');
    JoinSplit(path, '/');
    if |ps| > 1 {
      var init, last := ps[..|ps| - 1], ps[|ps| - 1];
      assert ps == init + [last];
      JoinConcat(init, '/', [last]);
      assert path == Join(init, '/') + ['/'] + last;
    }
  }

  /** filepath.Dir. */
  function Dir(path: string): string
  {
    LastEnds(path);
    Clean(Front(path))
  }

  function StripSlashes(path: string): (t: string)
    ensures t == "" || t[|t| - 1] != '/'
  {
    if path != "" && path[|path| - 1] == '/' then StripSlashes(path[..|path| - 1]) else path
  }

  /** filepath.Base. */
  function Base(path: string): string
  {
    if path == "" then "."
    else if StripSlashes(path) == "" then "/"
    else Last(StripSlashes(path))
  }

  /** filepath.Join of a directory and a name. */
  function Under(dir: string, name: string): string
  {
    Clean(dir + "/" + name)
  }

  // -------------------------------------------------------------------------
  // Clean paths
  // -------------------------------------------------------------------------

  /** A name a directory entry can have. */
  predicate Plain(n: string)
  {
    n != "" && n != "." && n != ".." && '/' !in n
  }

  /** Elements of a clean path: plain names, after leading ".."s of a relative path. */
  predicate Normal(elems: seq<string>, rooted: bool)
  {
    forall i :: 0 <= i < |elems| ==>
      Plain(elems[i]) || (!rooted && elems[i] == ".." && forall j :: 0 <= j < i ==> elems[j] == "..")
  }

  lemma {:induction false} ReduceIsNormal(parts: seq<string>, rooted: bool, acc: seq<string>)
    requires forall p :: p in parts ==> '/' !in p
    requires Normal(acc, rooted)
    ensures Normal(Reduce(parts, rooted, acc), rooted)
    decreases |parts|
  {
    if parts == [] {
    } else {
      var p := parts[0];
      assert p in parts;
      if p == "" || p == "." {
        ReduceIsNormal(parts[1..], rooted, acc);
      } else if p != ".." {
        ReduceIsNormal(parts[1..], rooted, acc + [p]);
      } else if acc != [] && acc[|acc| - 1] != ".." {
        ReduceIsNormal(parts[1..], rooted, acc[..|acc| - 1]);
      } else if rooted {
        ReduceIsNormal(parts[1..], rooted, acc);
      } else {
        assert acc != [] ==> forall j :: 0 <= j < |acc| ==> acc[j] == "..";
        ReduceIsNormal(parts[1..], rooted, acc + [".."]);
      }
    }
  }

  lemma ElementsAreNormal(path: string)
    ensures Normal(Elements(path), Rooted(path))
  {
    ReduceIsNormal(Split(path, '/'), Rooted(path), []);
  }

  lemma {:induction false} ReduceKeeps(parts: seq<string>, rooted: bool, acc: seq<string>)
    requires Normal(acc + parts, rooted)
    ensures Reduce(parts, rooted, acc) == acc + parts
    decreases |parts|
  {
    if parts == [] {
      assert acc + parts == acc;
    } else {
      var p := parts[0];
      assert (acc + parts)[|acc|] == p;
      assert forall j :: 0 <= j < |acc| ==> (acc + parts)[j] == acc[j];
      assert acc + parts == (acc + [p]) + parts[1..];
      ReduceKeeps(parts[1..], rooted, acc + [p]);
    }
  }

  /** Reducing in two goes. */
  lemma {:induction false} ReduceAppend(a: seq<string>, b: seq<string>, rooted: bool, acc: seq<string>)
    ensures Reduce(a + b, rooted, acc) == Reduce(b, rooted, Reduce(a, rooted, acc))
    decreases |a|
  {
    if a == [] {
      assert a + b == b;
    } else {
      var p := a[0];
      assert (a + b)[0] == p && (a + b)[1..] == a[1..] + b;
      var next := if p == "" || p == "." then acc
                  else if p != ".." then acc + [p]
                  else if acc != [] && acc[|acc| - 1] != ".." then acc[..|acc| - 1]
                  else if rooted then acc
                  else acc + [".."];
      assert Reduce(a, rooted, acc) == Reduce(a[1..], rooted, next);
      assert Reduce(a + b, rooted, acc) == Reduce(a[1..] + b, rooted, next);
      ReduceAppend(a[1..], b, rooted, next);
    }
  }

  lemma TextIsRooted(elems: seq<string>, rooted: bool)
    requires Normal(elems, rooted)
    ensures Rooted(Text(rooted, elems)) == rooted
    ensures Text(rooted, elems) != ""
  {
    if !rooted && elems != [] {
      assert elems[0] != "" && '/' !in elems[0];
      assert Join(elems, '/')[0] == elems[0][0];
    }
  }

  lemma EmptyElements(rooted: bool)
    ensures Elements(if rooted then "/" else ".") == []
  {
    SplitJoin(if rooted then ["", ""] else ["."], '/');
    assert (if rooted then "/" else ".") == Join(if rooted then ["", ""] else ["."], '/');
    assert Reduce([""], true, []) == [];
  }

  lemma RootedElements(elems: seq<string>)
    requires elems != [] && Normal(elems, true)
    ensures Elements("/" + Join(elems, '/')) == Reduce(elems, true, [])
  {
    var parts := [""] + elems;
    assert parts[1..] == elems;
    assert "/" + Join(elems, '/') == Join(parts, '/');
    SplitJoin(parts, '/');
  }

  lemma RelativeElements(elems: seq<string>)
    requires elems != [] && Normal(elems, false)
    ensures Elements(Join(elems, '/')) == Reduce(elems, false, [])
  {
    TextIsRooted(elems, false);
    SplitJoin(elems, '/');
  }

  lemma TextElements(elems: seq<string>, rooted: bool)
    requires Normal(elems, rooted)
    ensures Elements(Text(rooted, elems)) == elems
  {
    assert elems == [] ==> Text(rooted, elems) == if rooted then "/" else ".";
    hide Elements, Join;
    assert [] + elems == elems;
    ReduceKeeps(elems, rooted, []);
    if elems == [] {
      EmptyElements(rooted);
    } else if rooted {
      RootedElements(elems);
    } else {
      RelativeElements(elems);
    }
  }

  /** Clean is idempotent. */
  lemma CleanOfClean(path: string)
    ensures Clean(Clean(path)) == Clean(path)
  {
    ElementsAreNormal(path);
    TextIsRooted(Elements(path), Rooted(path));
    TextElements(Elements(path), Rooted(path));
  }

  // -------------------------------------------------------------------------
  // A directory and a name
  // -------------------------------------------------------------------------

  lemma LastOf(front: string, n: string)
    requires front == "" || front[|front| - 1] == '/'
    requires '/' !in n
    ensures Last(front + n) == n
  {
    SplitJoin([n], '/');
    if front == "" {
      assert front + n == n;
    } else {
      var q := front[..|front| - 1];
      assert front + n == q + ['/'] + n;
      SplitConcat(q, '/', n);
    }
  }

  /** A text that ends in a plain name splits into that name and its front. */
  lemma BaseAndFront(front: string, n: string)
    requires front == "" || front[|front| - 1] == '/'
    requires n != "" && '/' !in n
    ensures Base(front + n) == n && Dir(front + n) == Clean(front)
  {
    var path := front + n;
    assert path[|path| - 1] == n[|n| - 1];
    assert StripSlashes(path) == path;
    LastOf(front, n);
    LastEnds(path);
    assert path[..|path| - |n|] == front;
  }

  /** Cleaning a front text and a plain name after it cleans the front. */
  lemma ElementsOfFront(front: string, n: string)
    requires front == "" || front[|front| - 1] == '/'
    requires Plain(n)
    ensures Rooted(front + n) == Rooted(front)
    ensures Elements(front + n) == Elements(front) + [n]
  {
    SplitJoin([n], '/');
    if front == "" {
      assert front + n == n;
      SplitJoin([""], '/');
      assert Reduce([n], false, []) == [] + [n];
    } else {
      var q, r := front[..|front| - 1], Rooted(front);
      assert front + n == q + ['/'] + n && front == q + ['/'] + "";
      SplitConcat(q, '/', n);
      SplitConcat(q, '/', "");
      SplitJoin([""], '/');
      ReduceAppend(Split(q, '/'), [n], r, []);
      ReduceAppend(Split(q, '/'), [""], r, []);
    }
  }

  /** A trailing slash does not matter to Clean. */
  lemma FrontElements(dir: string)
    requires dir != ""
    ensures Elements(dir + "/") == Elements(dir) && Rooted(dir + "/") == Rooted(dir)
    ensures Clean(dir + "/") == Clean(dir)
  {
    assert dir + "/" == dir + ['/'] + "";
    SplitConcat(dir, '/', "");
    SplitJoin([""], '/');
    ReduceAppend(Split(dir, '/'), [""], Rooted(dir), []);
  }

  /** The text before the last element of a clean path. */
  function FrontText(elems: seq<string>, rooted: bool): string
  {
    if elems == [] then (if rooted then "/" else "") else Text(rooted, elems) + "/"
  }

  lemma TextOfFront(elems: seq<string>, n: string, rooted: bool)
    ensures Text(rooted, elems + [n]) == FrontText(elems, rooted) + n
  {
    if elems == [] {
      assert elems + [n] == [n];
    } else {
      JoinConcat(elems, '/', [n]);
    }
  }

  lemma CleanFrontText(elems: seq<string>, rooted: bool)
    requires Normal(elems, rooted)
    ensures Clean(FrontText(elems, rooted)) == Text(rooted, elems) == Clean(Text(rooted, elems))
  {
    TextElements(elems, rooted);
    TextIsRooted(elems, rooted);
    if elems == [] {
      SplitJoin(["", ""], '/');
      assert Join(["", ""], '/') == "/";
      SplitJoin([""], '/');
    } else {
      FrontElements(Text(rooted, elems));
    }
  }

  lemma TextParts(elems: seq<string>, n: string, rooted: bool)
    requires Normal(elems, rooted) && n != "" && '/' !in n
    ensures Base(Text(rooted, elems + [n])) == n
    ensures Dir(Text(rooted, elems + [n])) == Text(rooted, elems)
  {
    TextOfFront(elems, n, rooted);
    CleanFrontText(elems, rooted);
    BaseAndFront(FrontText(elems, rooted), n);
  }

  /** In a clean directory, a plain name's path has that directory and that name. */
  lemma UnderParts(dir: string, n: string)
    requires Clean(dir) == dir && Plain(n)
    ensures Under(dir, n) == Text(Rooted(dir), Elements(dir) + [n])
    ensures Base(Under(dir, n)) == n && Dir(Under(dir, n)) == dir
  {
    hide Elements, Rooted, Base, Dir;
    ElementsAreNormal(dir);
    TextIsRooted(Elements(dir), Rooted(dir));
    FrontElements(dir);
    ElementsOfFront(dir + "/", n);
    TextParts(Elements(dir), n, Rooted(dir));
  }

  /** A clean path with a plain last element is that element in its directory. */
  lemma PathParts(p: string)
    requires Clean(p) == p && Plain(Base(p))
    ensures Clean(Dir(p)) == Dir(p) && Under(Dir(p), Base(p)) == p
  {
    var e, r := Elements(p), Rooted(p);
    ElementsAreNormal(p);
    if e == [] {
      NoBase(p);
    } else {
      hide Elements, Rooted, Base, Dir;
      var init, n := e[..|e| - 1], e[|e| - 1];
      assert e == init + [n];
      TextParts(init, n, r);
      CleanFrontText(init, r);
      TextElements(init, r);
      TextIsRooted(init, r);
      UnderParts(Dir(p), n);
    }
  }

  /** The current directory and the root have no plain name. */
  lemma NoBase(p: string)
    requires p == "." || p == "/"
    ensures !Plain(Base(p))
  {
    SplitJoin(["."], '/');
    assert Join(["."], '/') == ".";
    assert StripSlashes("/") == "" by {
      assert "/"[..0] == "";
    }
  }
}
