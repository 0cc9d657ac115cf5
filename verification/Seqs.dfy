/** Splitting, joining and windowing of sequences: strings.Split and strings.Join over
    one separator, and "the last n of". Used for log lines, ALPN lists and path segments. */
module Seqs {
  import opened Wrappers

  /** The length of the longest prefix of s that does not contain sep. */
  function Cut<T(==)>(s: seq<T>, sep: T): (i: nat)
    ensures i <= |s|
    ensures sep !in s[..i]
    ensures i < |s| ==> s[i] == sep
  {
    if s == [] || s[0] == sep then 0
    else
      assert s == [s[0]] + s[1..];
      1 + Cut(s[1..], sep)
  }

  lemma {:induction false} CutIs<T>(s: seq<T>, sep: T, i: nat)
    requires i <= |s| && sep !in s[..i]
    requires i < |s| ==> s[i] == sep
    ensures Cut(s, sep) == i
  {
    if i == 0 {
    } else {
      assert s[..i][0] == s[0];
      assert s[..i][1..] == s[1..][..i - 1];
      CutIs(s[1..], sep, i - 1);
    }
  }

  /** The pieces between separators; a text without separators is its own only piece. */
  function Split<T(==)>(s: seq<T>, sep: T): (ps: seq<seq<T>>)
    ensures |ps| > 0
    ensures forall p :: p in ps ==> sep !in p
    decreases |s|
  {
    var i := Cut(s, sep);
    if i == |s| then
      assert s[..i] == s;
      [s]
    else [s[..i]] + Split(s[i + 1..], sep)
  }

  function Join<T>(ps: seq<seq<T>>, sep: T): seq<T>
  {
    if ps == [] then []
    else if |ps| == 1 then ps[0]
    else ps[0] + [sep] + Join(ps[1..], sep)
  }

  lemma JoinCons<T>(p: seq<T>, tail: seq<seq<T>>, sep: T)
    requires tail != []
    ensures Join([p] + tail, sep) == p + [sep] + Join(tail, sep)
  {
    assert ([p] + tail)[1..] == tail;
  }

  /** Splitting drops nothing: the pieces joined again are the text. */
  lemma {:induction false} JoinSplit<T>(s: seq<T>, sep: T)
    ensures Join(Split(s, sep), sep) == s
    decreases |s|
  {
    var i := Cut(s, sep);
    if i == |s| {
    } else {
      JoinSplit(s[i + 1..], sep);
      JoinCons(s[..i], Split(s[i + 1..], sep), sep);
      assert s == s[..i] + [sep] + s[i + 1..];
    }
  }

  /** Joining loses nothing: separator-free pieces come back from the joined text. */
  lemma {:induction false} SplitJoin<T>(ps: seq<seq<T>>, sep: T)
    requires |ps| > 0
    requires forall p :: p in ps ==> sep !in p
    ensures Split(Join(ps, sep), sep) == ps
  {
    var s := Join(ps, sep);
    assert ps[0] in ps;
    if |ps| == 1 {
      assert s[..|s|] == s;
      CutIs(s, sep, |s|);
    } else {
      SplitJoin(ps[1..], sep);
      assert s[..|ps[0]|] == ps[0];
      CutIs(s, sep, |ps[0]|);
      assert s[|ps[0]| + 1..] == Join(ps[1..], sep);
    }
  }

  lemma {:induction false} JoinConcat<T>(ps: seq<seq<T>>, sep: T, qs: seq<seq<T>>)
    requires ps != [] && qs != []
    ensures Join(ps + qs, sep) == Join(ps, sep) + [sep] + Join(qs, sep)
  {
    assert (ps + qs)[0] == ps[0] && (ps + qs)[1..] == ps[1..] + qs;
    if |ps| == 1 {
      assert ps[1..] + qs == qs;
    } else {
      JoinConcat(ps[1..], sep, qs);
      assert ps[0] + [sep] + (Join(ps[1..], sep) + [sep] + Join(qs, sep))
          == (ps[0] + [sep] + Join(ps[1..], sep)) + [sep] + Join(qs, sep);
    }
  }

  /** A separator splits a text into two texts that are split on their own. */
  lemma SplitConcat<T>(a: seq<T>, sep: T, b: seq<T>)
    ensures Split(a + [sep] + b, sep) == Split(a, sep) + Split(b, sep)
  {
    var ps, qs := Split(a, sep), Split(b, sep);
    JoinSplit(a, sep);
    JoinSplit(b, sep);
    JoinConcat(ps, sep, qs);
    SplitJoin(ps + qs, sep);
  }

  lemma Assoc<T>(a: seq<T>, b: seq<T>, c: seq<T>)
    ensures (a + b) + c == a + (b + c)
  {
  }

  /** The last n elements, or all of them when there are fewer. */
  function LastN<T>(s: seq<T>, n: nat): seq<T>
  {
    if |s| <= n then s else s[|s| - n..]
  }

  lemma LastNSkips<T>(s: seq<T>, n: nat)
    requires n < |s|
    ensures LastN(s, n) == LastN(s[1..], n)
  {
  }

  /** Two halves around a separator, put together again; without a second half the first
      alone. */
  function Rejoin<T>(first: seq<T>, sep: T, second: Option<seq<T>>): seq<T>
  {
    if second.None? then first else first + [sep] + second.value
  }

  predicate IsSuffix<T(==)>(s: seq<T>, whole: seq<T>)
  {
    |s| <= |whole| && s == whole[|whole| - |s|..]
  }

  lemma SuffixOfTail<T>(s: seq<T>, whole: seq<T>, from: nat)
    requires from <= |whole| && IsSuffix(s, whole[from..])
    ensures IsSuffix(s, whole)
  {
  }

  predicate HasPrefix<T(==)>(s: seq<T>, prefix: seq<T>)
  {
    |prefix| <= |s| && s[..|prefix|] == prefix
  }

  predicate NoDuplicates<T(==)>(s: seq<T>)
  {
    forall i, j :: 0 <= i < j < |s| ==> s[i] != s[j]
  }
}
