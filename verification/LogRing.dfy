/** The helper's log buffer (internal/logbuf/buf.go): a streaming line splitter that feeds
    a bounded list which drops its oldest line by shifting in place. */
module LogRing {
  import opened Seqs

  type Byte = x: int | 0 <= x < 256
  const LF: Byte := 10
  const CR: Byte := 13

  datatype Line = Line(when: int, text: seq<Byte>)

  /** What a Buffer holds: the stored lines and the bytes of an unfinished line. */
  datatype State = State(lines: seq<Line>, pending: seq<Byte>)

  /** bytes.TrimRight(raw, "\r"). */
  function TrimCR(raw: seq<Byte>): (t: seq<Byte>)
  {
    if raw != [] && raw[|raw| - 1] == CR then TrimCR(raw[..|raw| - 1]) else raw
  }

  /** It takes off CRs at the end, all of them, and nothing else. */
  lemma {:induction false} TrimCRTakesCRs(raw: seq<Byte>) returns (tail: seq<Byte>)
    ensures raw == TrimCR(raw) + tail && (forall b :: b in tail ==> b == CR)
    ensures TrimCR(raw) != [] ==> TrimCR(raw)[|TrimCR(raw)| - 1] != CR
  {
    if raw == [] || raw[|raw| - 1] != CR {
      tail := [];
    } else {
      var rest := TrimCRTakesCRs(raw[..|raw| - 1]);
      tail := rest + [CR];
      assert raw == raw[..|raw| - 1] + [CR];
    }
  }

  function Push(lines: seq<Line>, l: Line, max: nat): seq<Line>
    requires max > 0
  {
    if |lines| < max then lines + [l] else lines[1 + |lines| - max..] + [l]
  }

  /** One turn of the splitting loop of Write: take the first complete line. */
  function TakeLine(s: State, now: int, max: nat): State
    requires max > 0 && LF in s.pending
  {
    var i := Cut(s.pending, LF);
    var text := TrimCR(s.pending[..i]);
    State(if text == [] then s.lines else Push(s.lines, Line(now, text), max), s.pending[i + 1..])
  }

  /** The splitting loop of Write, to its end. */
  function Drain(s: State, now: int, max: nat): (r: State)
    requires max > 0
    ensures LF !in r.pending
    decreases |s.pending|
  {
    if LF in s.pending then Drain(TakeLine(s, now, max), now, max) else s
  }

  function WriteState(s: State, p: seq<Byte>, now: int, max: nat): State
    requires max > 0
  {
    Drain(State(s.lines, s.pending + p), now, max)
  }

  // -------------------------------------------------------------------------
  // The reference: everything ever written, each byte with its write's clock reading
  // -------------------------------------------------------------------------

  datatype Stamped = Stamped(b: Byte, when: int)

  function Stamp(p: seq<Byte>, now: int): (h: seq<Stamped>)
    ensures |h| == |p|
    ensures forall i :: 0 <= i < |p| ==> h[i] == Stamped(p[i], now)
  {
    seq(|p|, i requires 0 <= i < |p| => Stamped(p[i], now))
  }

  function Bytes(h: seq<Stamped>): (p: seq<Byte>)
    ensures |h| == |p|
    ensures forall i :: 0 <= i < |h| ==> p[i] == h[i].b
  {
    seq(|h|, i requires 0 <= i < |h| => h[i].b)
  }

  /** What one complete raw line adds to a log: nothing when only CRs are left of it. */
  function LineOf(raw: seq<Byte>, when: int): seq<Line>
  {
    if TrimCR(raw) == [] then [] else [Line(when, TrimCR(raw))]
  }

  /** The non-empty, CR-trimmed, complete lines of a history. A line carries the clock
      reading of the write that brought its newline. */
  function Lines(h: seq<Stamped>): seq<Line>
    decreases |h|
  {
    var i := Cut(Bytes(h), LF);
    if i == |h| then []
    else LineOf(Bytes(h)[..i], h[i].when) + Lines(h[i + 1..])
  }

  /** The part of a history after its last newline. */
  function Rest(h: seq<Stamped>): (r: seq<Stamped>)
    ensures LF !in Bytes(r)
    ensures IsSuffix(r, h)
    decreases |h|
  {
    var i := Cut(Bytes(h), LF);
    if i == |h| then
      assert Bytes(h)[..i] == Bytes(h);
      h
    else
      SuffixOfTail(Rest(h[i + 1..]), h, i + 1);
      Rest(h[i + 1..])
  }

  /** A history that starts with a complete line, taken apart after that line. */
  lemma FirstLine(raw: seq<Stamped>, lf: Stamped, tail: seq<Stamped>)
    requires LF !in Bytes(raw) && lf.b == LF
    ensures var h := raw + [lf] + tail;
      Lines(h) == LineOf(Bytes(raw), lf.when) + Lines(tail) && Rest(h) == Rest(tail)
  {
    var h := raw + [lf] + tail;
    assert Bytes(h)[..|raw|] == Bytes(raw);
    assert Bytes(h)[|raw|] == LF;
    CutIs(Bytes(h), LF, |raw|);
    assert h[|raw| + 1..] == tail;
  }

  lemma NoLine(h: seq<Stamped>)
    requires LF !in Bytes(h)
    ensures Lines(h) == [] && Rest(h) == h
  {
    assert Bytes(h)[..|h|] == Bytes(h);
    CutIs(Bytes(h), LF, |h|);
  }

  /** Where the first complete line of a history ends, if it has one. */
  lemma FindLine(h: seq<Stamped>) returns (i: nat)
    ensures i <= |h|
    ensures i == |h| ==> LF !in Bytes(h)
    ensures i < |h| ==> LF !in Bytes(h[..i]) && h[i].b == LF && h == h[..i] + [h[i]] + h[i + 1..]
  {
    i := Cut(Bytes(h), LF);
    assert i == |h| ==> Bytes(h)[..i] == Bytes(h);
    assert Bytes(h)[..i] == Bytes(h[..i]);
  }

  lemma BytesCut(h: seq<Stamped>, i: nat)
    requires i < |h|
    ensures Bytes(h) == Bytes(h[..i]) + [h[i].b] + Bytes(h[i + 1..])
  {
  }

  lemma {:induction false} HistoryAppend(h: seq<Stamped>, p: seq<Stamped>)
    ensures Lines(h + p) == Lines(h) + Lines(Rest(h) + p)
    ensures Rest(h + p) == Rest(Rest(h) + p)
    decreases |h|
  {
    var i := FindLine(h);
    if i == |h| {
      NoLine(h);
    } else {
      var tail := h[i + 1..];
      FirstLine(h[..i], h[i], tail);
      FirstLine(h[..i], h[i], tail + p);
      Assoc(h[..i] + [h[i]], tail, p);
      HistoryAppend(tail, p);
      Assoc(LineOf(Bytes(h[..i]), h[i].when), Lines(tail), Lines(Rest(tail) + p));
    }
  }

  /** The state a history leads to, read off the history as a whole. */
  function AfterHistory(h: seq<Stamped>, max: nat): State
  {
    State(LastN(Lines(h), max), Bytes(Rest(h)))
  }

  lemma PushKeepsLast(lines: seq<Line>, more: seq<Line>, max: nat)
    requires max > 0 && |more| <= 1
    ensures (if more == [] then LastN(lines, max) else Push(LastN(lines, max), more[0], max))
         == LastN(lines + more, max)
  {
    if more == [] {
      assert lines + more == lines;
    } else {
      var last := LastN(lines, max);
      assert lines + more == lines + [more[0]];
      if |lines| < max {
        assert last == lines;
      } else {
        assert last[1..] == lines[|lines| - max + 1..];
        assert (lines + more)[|lines| + 1 - max..] == lines[|lines| + 1 - max..] + [more[0]];
      }
    }
  }

  lemma TakeFirstLine(lines: seq<Line>, raw: seq<Byte>, tail: seq<Byte>, now: int, max: nat)
    requires max > 0 && LF !in raw
    ensures LF in raw + [LF] + tail
    ensures TakeLine(State(LastN(lines, max), raw + [LF] + tail), now, max)
         == State(LastN(lines + LineOf(raw, now), max), tail)
  {
    var p := raw + [LF] + tail;
    assert p[|raw|] == LF;
    assert p[..|raw|] == raw;
    CutIs(p, LF, |raw|);
    assert p[|raw| + 1..] == tail;
    PushKeepsLast(lines, LineOf(raw, now), max);
  }

  lemma {:induction false} DrainMeetsLines(lines: seq<Line>, r: seq<Stamped>, now: int, max: nat)
    requires max > 0
    requires forall i :: 0 <= i < |r| && r[i].b == LF ==> r[i].when == now
    ensures Drain(State(LastN(lines, max), Bytes(r)), now, max)
         == State(LastN(lines + Lines(r), max), Bytes(Rest(r)))
    decreases |r|
  {
    var i := FindLine(r);
    if i == |r| {
      NoLine(r);
      assert lines + Lines(r) == lines;
    } else {
      var tail := r[i + 1..];
      FirstLine(r[..i], r[i], tail);
      var more := lines + LineOf(Bytes(r[..i]), now);
      TakeFirstLine(lines, Bytes(r[..i]), Bytes(tail), now, max);
      BytesCut(r, i);
      Assoc(lines, LineOf(Bytes(r[..i]), now), Lines(tail));
      DrainMeetsLines(more, tail, now, max);
    }
  }

  /** The incremental write agrees with the reading of the whole history, wherever the
      history was cut into writes. */
  lemma WriteMeetsHistory(h: seq<Stamped>, p: seq<Byte>, now: int, max: nat)
    requires max > 0
    ensures WriteState(AfterHistory(h, max), p, now, max) == AfterHistory(h + Stamp(p, now), max)
  {
    hide Drain, Lines, Rest, LineOf, TrimCR;
    var r := Rest(h) + Stamp(p, now);
    assert forall i :: 0 <= i < |r| && r[i].b == LF ==> r[i].when == now by {
      assert forall i :: 0 <= i < |Rest(h)| ==> Bytes(Rest(h))[i] != LF;
    }
    assert Bytes(r) == Bytes(Rest(h)) + p;
    DrainMeetsLines(Lines(h), r, now, max);
    HistoryAppend(h, Stamp(p, now));
  }

  // -------------------------------------------------------------------------
  // Chunking does not matter
  // -------------------------------------------------------------------------

  datatype Chunk = Chunk(data: seq<Byte>, now: int)

  function History(ws: seq<Chunk>): seq<Stamped>
  {
    if ws == [] then [] else History(ws[..|ws| - 1]) + Stamp(ws[|ws| - 1].data, ws[|ws| - 1].now)
  }

  /** The state after a sequence of writes on an empty buffer. */
  function WriteAll(ws: seq<Chunk>, max: nat): State
    requires max > 0
  {
    if ws == [] then State([], [])
    else
      var last := ws[|ws| - 1];
      WriteState(WriteAll(ws[..|ws| - 1], max), last.data, last.now, max)
  }

  lemma {:induction false} WriteAllMeetsHistory(ws: seq<Chunk>, max: nat)
    requires max > 0
    ensures WriteAll(ws, max) == AfterHistory(History(ws), max)
  {
    if ws == [] {
    } else {
      var init, last := ws[..|ws| - 1], ws[|ws| - 1];
      WriteAllMeetsHistory(init, max);
      WriteMeetsHistory(History(init), last.data, last.now, max);
    }
  }

  function Texts(ls: seq<Line>): (ts: seq<seq<Byte>>)
  {
    if ls == [] then [] else [ls[0].text] + Texts(ls[1..])
  }

  /** The texts a log should show: trim every piece, keep the non-empty ones. */
  function Shown(pieces: seq<seq<Byte>>): seq<seq<Byte>>
  {
    if pieces == [] then []
    else (if TrimCR(pieces[0]) == [] then [] else [TrimCR(pieces[0])]) + Shown(pieces[1..])
  }

  /** Lines and remainder of a history are those of its plain text split at newlines. */
  lemma {:induction false} HistoryIsSplit(h: seq<Stamped>)
    ensures var ps := Split(Bytes(h), LF);
      Texts(Lines(h)) == Shown(ps[..|ps| - 1]) && Bytes(Rest(h)) == ps[|ps| - 1]
    decreases |h|
  {
    var i := FindLine(h);
    if i == |h| {
      NoLine(h);
      SplitNone(Bytes(h));
    } else {
      var raw, tail := Bytes(h[..i]), Bytes(h[i + 1..]);
      HistoryIsSplit(h[i + 1..]);
      FirstLine(h[..i], h[i], h[i + 1..]);
      BytesCut(h, i);
      SplitFirst(raw, h[i].when, tail);
      TextsAppend(LineOf(raw, h[i].when), Lines(h[i + 1..]));
    }
  }

  lemma SplitNone(raw: seq<Byte>)
    requires LF !in raw
    ensures Split(raw, LF) == [raw] && [raw][..0] == []
  {
    SplitJoin([raw], LF);
  }

  lemma SplitFirst(raw: seq<Byte>, when: int, tail: seq<Byte>)
    requires LF !in raw
    ensures var ps, qs := Split(raw + [LF] + tail, LF), Split(tail, LF);
      && ps[|ps| - 1] == qs[|qs| - 1]
      && Shown(ps[..|ps| - 1]) == Texts(LineOf(raw, when)) + Shown(qs[..|qs| - 1])
  {
    var s, qs := raw + [LF] + tail, Split(tail, LF);
    assert s[..|raw|] == raw && s[|raw| + 1..] == tail;
    CutIs(s, LF, |raw|);
    assert Split(s, LF) == [raw] + qs;
    assert ([raw] + qs)[..|qs|] == [raw] + qs[..|qs| - 1];
    assert ([raw] + qs[..|qs| - 1])[1..] == qs[..|qs| - 1];
  }

  lemma {:induction false} TextsAppend(a: seq<Line>, b: seq<Line>)
    ensures Texts(a + b) == Texts(a) + Texts(b)
  {
    if a == [] {
      assert a + b == b;
    } else {
      TextsAppend(a[1..], b);
      assert (a + b)[1..] == a[1..] + b;
    }
  }

  lemma {:induction false} TextsLastN(ls: seq<Line>, n: nat)
    ensures |Texts(ls)| == |ls|
    ensures Texts(LastN(ls, n)) == LastN(Texts(ls), n)
  {
    if ls == [] {
    } else {
      TextsLastN(ls[1..], n);
      if n < |ls| {
        LastNSkips(ls, n);
        LastNSkips(Texts(ls), n);
      }
    }
  }

  function Concat(ws: seq<Chunk>): seq<Byte>
  {
    if ws == [] then [] else Concat(ws[..|ws| - 1]) + ws[|ws| - 1].data
  }

  lemma {:induction false} HistoryBytes(ws: seq<Chunk>)
    ensures Bytes(History(ws)) == Concat(ws)
  {
    if ws == [] {
    } else {
      HistoryBytes(ws[..|ws| - 1]);
    }
  }

  /** The stored texts are the last max shown lines of all bytes written, the pending bytes
      are what follows the last newline, and the pieces are all there is: joined at newlines
      they are the bytes written. None of the three depends on where the writes were cut. */
  lemma ChunkingDoesNotMatter(ws: seq<Chunk>, max: nat)
    requires max > 0
    ensures var ps := Split(Concat(ws), LF);
      && Texts(WriteAll(ws, max).lines) == LastN(Shown(ps[..|ps| - 1]), max)
      && WriteAll(ws, max).pending == ps[|ps| - 1]
      && Join(ps, LF) == Concat(ws)
  {
    WriteAllMeetsHistory(ws, max);
    HistoryIsSplit(History(ws));
    HistoryBytes(ws);
    TextsLastN(Lines(History(ws)), max);
    JoinSplit(Concat(ws), LF);
  }

  // -------------------------------------------------------------------------
  // Tail
  // -------------------------------------------------------------------------

  function TailOf(lines: seq<Line>, n: int): seq<Line>
  {
    if n <= 0 then lines else LastN(lines, n)
  }

  lemma TailsAreNested(lines: seq<Line>, n: int, m: int)
    requires 0 < n <= m
    ensures IsSuffix(TailOf(lines, n), TailOf(lines, m))
    ensures |TailOf(lines, n)| == if n < |lines| then n else |lines|
  {
  }

  // -------------------------------------------------------------------------
  // The buffer itself
  // -------------------------------------------------------------------------

  /** store[..count] is the slice b.lines; its capacity max is fixed at construction. */
  class Buffer {
    const max: nat
    const store: array<Line>
    var count: nat
    var pendng: seq<Byte>
    /** Every byte ever written. */
    ghost var history: seq<Stamped>

    ghost function View(): State
      reads this, store
      requires count <= store.Length
    {
      State(store[..count], pendng)
    }

    predicate InBounds()
      reads this
    {
      0 < max == store.Length && count <= max
    }

    ghost predicate Valid()
      reads this, store
    {
      && InBounds()
      && View() == AfterHistory(history, max)
    }

    constructor (limit: int)
      ensures Valid() && fresh(store)
      ensures max == if limit <= 0 then 500 else limit
      ensures history == []
    {
      var m := if limit <= 0 then 500 else limit;
      max := m;
      store := new Line[m](_ => Line(0, []));
      count := 0;
      pendng := [];
      history := [];
    }

    /** Splits p at newlines and stores each completed non-empty line. */
    method Write(p: seq<Byte>, now: int)
      requires Valid()
      modifies this, store
      ensures Valid()
      ensures history == old(history) + Stamp(p, now)
      ensures View() == WriteState(old(View()), p, now, max)
    {
      hide AfterHistory, Lines, Rest, LastN, Push, Cut;
      ghost var before := View();
      pendng := pendng + p;
      while true
        invariant InBounds()
        invariant history == old(history)
        invariant Drain(View(), now, max) == WriteState(before, p, now, max)
        decreases |pendng|
      {
        var i := IndexLF();
        if i == |pendng| {
          assert pendng[..i] == pendng;
          break;
        }
        ghost var s := View();
        var line := pendng[..i];
        while line != [] && line[|line| - 1] == CR
          invariant TrimCR(line) == TrimCR(pendng[..i])
        {
          line := line[..|line| - 1];
        }
        if |line| > 0 {
          AppendLocked(Line(now, line));
        }
        pendng := pendng[i + 1..];
        assert s.pending[i] == LF;
        assert View() == TakeLine(s, now, max);
      }
      WriteMeetsHistory(history, p, now, max);
      history := history + Stamp(p, now);
    }

    /** bytes.IndexByte(b.pendng, '\n'), with the length standing for "not found". */
    method IndexLF() returns (i: nat)
      ensures i == Cut(pendng, LF)
    {
      i := 0;
      while i < |pendng| && pendng[i] != LF
        invariant i <= |pendng|
        invariant LF !in pendng[..i]
      {
        i := i + 1;
      }
      CutIs(pendng, LF, i);
    }

    method AppendLocked(l: Line)
      requires InBounds()
      modifies this`count, store
      ensures InBounds()
      ensures store[..count] == Push(old(store[..count]), l, max)
    {
      if count < max {
        store[count] := l;
        count := count + 1;
        return;
      }
      ghost var was := store[..count];
      var j := 0;
      while j + 1 < count
        invariant j < count == old(count) == |was|
        invariant forall k :: 0 <= k < j ==> store[k] == was[k + 1]
        invariant forall k :: j <= k < count ==> store[k] == was[k]
      {
        store[j] := store[j + 1];
        j := j + 1;
      }
      store[count - 1] := l;
      assert store[..count] == was[1..] + [l];
    }

    /** The most recent n lines in an array of their own. */
    method Tail(n: int) returns (out: array<Line>)
      requires InBounds()
      ensures fresh(out)
      ensures out[..] == TailOf(store[..count], n)
    {
      var m := if n <= 0 || n >= count then count else n;
      out := new Line[m](_ => Line(0, []));
      var j := 0;
      while j < m
        invariant j <= m
        invariant forall k :: 0 <= k < j ==> out[k] == store[count - m + k]
      {
        out[j] := store[count - m + j];
        j := j + 1;
      }
    }
  }

  /** A caller may change every line of a tail it got: the buffer does not notice. */
  method OverwriteTail(b: Buffer, n: int, junk: Line) returns (t: array<Line>)
    requires b.Valid()
    ensures b.Valid() && b.View() == old(b.View())
    ensures fresh(t) && forall i :: 0 <= i < t.Length ==> t[i] == junk
  {
    t := b.Tail(n);
    for i := 0 to t.Length
      invariant forall k :: 0 <= k < i ==> t[k] == junk
      invariant b.Valid() && b.View() == old(b.View())
    {
      t[i] := junk;
    }
  }
}
