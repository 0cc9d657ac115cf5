/** Concurrent writers of one log buffer. Write takes b.mu in its first statement and gives
    it back in its last (internal/logbuf/buf.go:44-62); here its statements are single steps
    of a machine in which any number of writers interleave, each with a place of its own. */
module LogWriters {
  import opened Wrappers
  import opened Seqs
  import opened LogRing

  type Tid = nat

  /** How far a writer's Write has come: before b.mu.Lock(), holding the mutex, past
      time.Now(), at the head of the splitting loop, with a newline found, with its line
      stored. */
  datatype Phase =
    | Outside
    | Locked
    | Clocked(now: int)
    | Splitting(now: int)
    | Cutting(now: int, at: nat)
    | Dropping(now: int, at: nat)

  /** A finished Write. */
  datatype Entry = Entry(tid: Tid, chunk: Chunk)

  /** The mutex and its owner, each writer's phase, the buffer they share, and the data
      writer t still has to pass to Write in queues[t]; log is a history variable that lists
      the finished writes. */
  datatype Machine = Machine(owner: Option<Tid>, phases: map<Tid, Phase>, buf: State,
                             queues: map<Tid, seq<seq<Byte>>>, clock: int, log: seq<Entry>)

  datatype Step =
    | Acquire(t: Tid) | ReadClock(t: Tid, reading: int) | Append(t: Tid)
    | Find(t: Tid) | Store(t: Tid) | Drop(t: Tid) | Release(t: Tid)

  predicate Waiting(m: Machine, t: Tid)
  {
    t in m.queues && m.queues[t] != []
  }

  /** A step looks at its writer's phase only; none but Acquire looks at the mutex. */
  predicate Enabled(m: Machine, s: Step)
  {
    && s.t in m.phases
    && var p := m.phases[s.t];
       match s
       case Acquire(t) => m.owner.None? && p.Outside? && Waiting(m, t)
       case ReadClock(_, now) => p.Locked? && m.clock <= now
       case Append(t) => p.Clocked? && Waiting(m, t)
       case Find(_) => p.Splitting? && LF in m.buf.pending
       case Store(_) => p.Cutting? && p.at < |m.buf.pending|
       case Drop(_) => p.Dropping? && p.at < |m.buf.pending|
       case Release(t) => p.Splitting? && LF !in m.buf.pending && Waiting(m, t)
  }

  function Next(m: Machine, s: Step, max: nat): Machine
    requires max > 0 && Enabled(m, s)
  {
    var p := m.phases[s.t];
    match s
    case Acquire(t) => m.(owner := Some(t), phases := m.phases[t := Locked])
    case ReadClock(t, now) => m.(phases := m.phases[t := Clocked(now)], clock := now)
    case Append(t) =>
      m.(phases := m.phases[t := Splitting(p.now)],
         buf := m.buf.(pending := m.buf.pending + m.queues[t][0]))
    case Find(t) => m.(phases := m.phases[t := Cutting(p.now, Cut(m.buf.pending, LF))])
    case Store(t) =>
      var text := TrimCR(m.buf.pending[..p.at]);
      m.(phases := m.phases[t := Dropping(p.now, p.at)],
         buf := m.buf.(lines := if text == [] then m.buf.lines else Push(m.buf.lines, Line(p.now, text), max)))
    case Drop(t) =>
      m.(phases := m.phases[t := Splitting(p.now)],
         buf := m.buf.(pending := m.buf.pending[p.at + 1..]))
    case Release(t) =>
      m.(owner := None, phases := m.phases[t := Outside],
         queues := m.queues[t := m.queues[t][1..]],
         log := m.log + [Entry(t, Chunk(m.queues[t][0], p.now))])
  }

  predicate Run(m: Machine, steps: seq<Step>, max: nat)
    requires max > 0
    decreases |steps|
  {
    steps == [] || (Enabled(m, steps[0]) && Run(Next(m, steps[0], max), steps[1..], max))
  }

  function Final(m: Machine, steps: seq<Step>, max: nat): Machine
    requires max > 0 && Run(m, steps, max)
    decreases |steps|
  {
    if steps == [] then m else Final(Next(m, steps[0], max), steps[1..], max)
  }

  function Start(queues: map<Tid, seq<seq<Byte>>>, clock: int): Machine
  {
    Machine(None, map t | t in queues :: Outside, State([], []), queues, clock, [])
  }

  // -------------------------------------------------------------------------
  // What every interleaving keeps
  // -------------------------------------------------------------------------

  function Writes(log: seq<Entry>): (ws: seq<Chunk>)
    ensures |ws| == |log|
    ensures forall i :: 0 <= i < |log| ==> ws[i] == log[i].chunk
  {
    seq(|log|, i requires 0 <= i < |log| => log[i].chunk)
  }

  /** The writes of writer t so far, in its own order. */
  function OwnWrites(log: seq<Entry>, t: Tid): seq<Chunk>
  {
    if log == [] then []
    else OwnWrites(log[..|log| - 1], t)
         + if log[|log| - 1].tid == t then [log[|log| - 1].chunk] else []
  }

  /** The data of those writes. */
  function Own(log: seq<Entry>, t: Tid): (ds: seq<seq<Byte>>)
    ensures |ds| == |OwnWrites(log, t)|
    ensures forall i :: 0 <= i < |ds| ==> ds[i] == OwnWrites(log, t)[i].data
  {
    var ws := OwnWrites(log, t);
    seq(|ws|, i requires 0 <= i < |ws| => ws[i].data)
  }

  lemma OwnSnoc(log: seq<Entry>, e: Entry, t: Tid)
    ensures Own(log + [e], t) == Own(log, t) + if e.tid == t then [e.chunk.data] else []
  {
    assert (log + [e])[..|log|] == log;
  }

  predicate InOrder(ws: seq<Chunk>)
  {
    forall i, j :: 0 <= i < j < |ws| ==> ws[i].now <= ws[j].now
  }

  /** Mutual exclusion: the owner of the mutex is inside Write and nobody else is. */
  ghost predicate Exclusive(m: Machine)
  {
    && (forall t :: t in m.phases ==> (m.phases[t] != Outside <==> m.owner == Some(t)))
    && (m.owner.Some? ==> m.owner.value in m.phases)
  }

  /** No writer has lost, repeated or reordered data. */
  ghost predicate Accounted(m: Machine, queues: map<Tid, seq<seq<Byte>>>)
  {
    && m.queues.Keys == m.phases.Keys == queues.Keys
    && (forall t :: t in queues ==> Own(m.log, t) + m.queues[t] == queues[t])
    && (forall e :: e in m.log ==> e.tid in queues)
  }

  /** The clock reading of a writer that has taken one. */
  function NowOf(p: Phase): Option<int>
  {
    if p.Outside? || p.Locked? then None else Some(p.now)
  }

  ghost predicate Timed(m: Machine)
  {
    && InOrder(Writes(m.log))
    && (forall e :: e in m.log ==> e.chunk.now <= m.clock)
    && (m.owner.Some? && m.owner.value in m.phases ==>
          var now := NowOf(m.phases[m.owner.value]); now.Some? ==> now.value == m.clock)
  }

  /** The buffer is the serial result, or becomes it when the owner's loop is run out. */
  ghost predicate Linear(m: Machine, max: nat)
    requires max > 0
  {
    match m.owner
    case None => m.buf == WriteAll(Writes(m.log), max)
    case Some(t) => t in m.phases && Waiting(m, t) && LinearInside(m, t, max)
  }

  ghost predicate LinearInside(m: Machine, t: Tid, max: nat)
    requires max > 0 && t in m.phases && Waiting(m, t)
  {
    var serial := WriteAll(Writes(m.log), max);
    match m.phases[t]
    case Outside => false
    case Locked => m.buf == serial
    case Clocked(_) => m.buf == serial
    case Splitting(now) => Drain(m.buf, now, max) == WriteState(serial, m.queues[t][0], now, max)
    case Cutting(now, i) =>
      && i == Cut(m.buf.pending, LF) < |m.buf.pending|
      && Drain(m.buf, now, max) == WriteState(serial, m.queues[t][0], now, max)
    case Dropping(now, i) =>
      && i < |m.buf.pending|
      && Drain(State(m.buf.lines, m.buf.pending[i + 1..]), now, max) == WriteState(serial, m.queues[t][0], now, max)
  }

  lemma StepKeepsExclusive(m: Machine, s: Step, max: nat)
    requires max > 0 && Enabled(m, s) && Exclusive(m)
    ensures Exclusive(Next(m, s, max))
    ensures s.Acquire? || m.owner == Some(s.t)
  {
    hide TrimCR, Push, Cut;
  }

  lemma StoreKeepsLinear(m: Machine, t: Tid, max: nat)
    requires max > 0 && Enabled(m, Store(t)) && m.owner == Some(t) && Linear(m, max)
    ensures Linear(Next(m, Store(t), max), max)
  {
    hide TrimCR, Push, WriteAll, WriteState;
    assert m.buf.pending[m.phases[t].at] == LF;
  }

  lemma ReleaseKeepsLinear(m: Machine, t: Tid, max: nat)
    requires max > 0 && Enabled(m, Release(t)) && m.owner == Some(t) && Linear(m, max)
    ensures Linear(Next(m, Release(t), max), max)
  {
    hide TrimCR, Push, TakeLine;
    var ws := Writes(Next(m, Release(t), max).log);
    assert ws[..|ws| - 1] == Writes(m.log);
    assert ws[|ws| - 1] == Chunk(m.queues[t][0], m.phases[t].now);
  }

  lemma StepKeepsLinear(m: Machine, s: Step, max: nat)
    requires max > 0 && Enabled(m, s) && Exclusive(m) && Linear(m, max)
    ensures Linear(Next(m, s, max), max)
  {
    hide TrimCR, Push, WriteAll, Drain, TakeLine;
    StepKeepsExclusive(m, s, max);
    match s
    case Store(t) => StoreKeepsLinear(m, t, max);
    case Release(t) => ReleaseKeepsLinear(m, t, max);
    case Find(_) => assert m.buf.pending[..|m.buf.pending|] == m.buf.pending;
    case _ =>
  }

  lemma StepKeepsTimed(m: Machine, s: Step, max: nat)
    requires max > 0 && Enabled(m, s) && Exclusive(m) && Timed(m)
    ensures Timed(Next(m, s, max))
  {
    hide TrimCR, Push, Cut;
    StepKeepsExclusive(m, s, max);
    if s.Release? {
      var n := Next(m, s, max);
      assert forall i :: 0 <= i < |m.log| ==> m.log[i] in m.log && n.log[i] == m.log[i];
    }
  }

  lemma ReleaseKeepsAccounted(m: Machine, u: Tid, max: nat, queues: map<Tid, seq<seq<Byte>>>)
    requires max > 0 && Enabled(m, Release(u)) && Accounted(m, queues)
    ensures Accounted(Next(m, Release(u), max), queues)
  {
    hide Own;
    var e := Entry(u, Chunk(m.queues[u][0], m.phases[u].now));
    var n := Next(m, Release(u), max);
    assert n.log == m.log + [e];
    forall t | t in queues
      ensures Own(n.log, t) + n.queues[t] == queues[t]
    {
      OwnMoves(m.log, e, t, m.queues[u], queues[t]);
    }
  }

  lemma StepKeepsAccounted(m: Machine, s: Step, max: nat, queues: map<Tid, seq<seq<Byte>>>)
    requires max > 0 && Enabled(m, s) && Accounted(m, queues)
    ensures Accounted(Next(m, s, max), queues)
  {
    hide TrimCR, Push, Cut, Own;
    if s.Release? {
      ReleaseKeepsAccounted(m, s.t, max, queues);
    }
  }

  /** A finished write moves from the front of its writer's queue to its own writes. */
  lemma OwnMoves(log: seq<Entry>, e: Entry, t: Tid, queue: seq<seq<Byte>>, all: seq<seq<Byte>>)
    requires e.tid == t ==> queue != [] && e.chunk.data == queue[0] && Own(log, t) + queue == all
    ensures e.tid == t ==> Own(log + [e], t) + queue[1..] == all
    ensures e.tid != t ==> Own(log + [e], t) == Own(log, t)
  {
    hide Own;
    OwnSnoc(log, e, t);
    if e.tid == t {
      assert queue == [queue[0]] + queue[1..];
      Assoc(Own(log, t), [queue[0]], queue[1..]);
    } else {
      assert Own(log, t) + [] == Own(log, t);
    }
  }

  lemma {:induction false} RunKeeps(m: Machine, steps: seq<Step>, max: nat,
                                    queues: map<Tid, seq<seq<Byte>>>)
    requires max > 0 && Run(m, steps, max)
    requires Exclusive(m) && Linear(m, max) && Timed(m) && Accounted(m, queues)
    ensures var f := Final(m, steps, max); Exclusive(f) && Linear(f, max) && Timed(f) && Accounted(f, queues)
    decreases |steps|
  {
    hide Exclusive, Linear, Timed, Accounted, Enabled, Next;
    if steps == [] {
    } else {
      StepKeepsExclusive(m, steps[0], max);
      StepKeepsLinear(m, steps[0], max);
      StepKeepsTimed(m, steps[0], max);
      StepKeepsAccounted(m, steps[0], max, queues);
      RunKeeps(Next(m, steps[0], max), steps[1..], max, queues);
    }
  }

  /** Stamps start at low or later and never decrease. */
  predicate Ordered(ls: seq<Line>, low: int)
  {
    ls == [] || (low <= ls[0].when && Ordered(ls[1..], ls[0].when))
  }

  lemma {:induction false} OrderedPairs(ls: seq<Line>, low: int)
    requires Ordered(ls, low)
    ensures forall i :: 0 <= i < |ls| ==> low <= ls[i].when
    ensures forall i, j :: 0 <= i < j < |ls| ==> ls[i].when <= ls[j].when
  {
    if ls == [] {
    } else {
      OrderedPairs(ls[1..], ls[0].when);
    }
  }

  lemma OrderedCons(raw: seq<Byte>, when: int, tail: seq<Line>, low: int)
    requires low <= when && Ordered(tail, when)
    ensures Ordered(LineOf(raw, when) + tail, low)
  {
    var first := LineOf(raw, when);
    if first == [] {
      assert first + tail == tail;
    } else {
      assert (first + tail)[1..] == tail;
    }
  }

  /** Clock readings start at low or later and never decrease. */
  predicate TimedFrom(h: seq<Stamped>, low: int)
  {
    && (forall i :: 0 <= i < |h| ==> low <= h[i].when)
    && (forall i, j :: 0 <= i < j < |h| ==> h[i].when <= h[j].when)
  }

  lemma TimedTail(h: seq<Stamped>, low: int, i: nat)
    requires TimedFrom(h, low) && i < |h|
    ensures TimedFrom(h[i + 1..], h[i].when) && low <= h[i].when
  {
  }

  lemma {:induction false} LineTimes(h: seq<Stamped>, low: int)
    requires TimedFrom(h, low)
    ensures Ordered(Lines(h), low)
    decreases |h|
  {
    hide TimedFrom, Bytes, LineOf;
    var i := FindLine(h);
    if i == |h| {
      NoLine(h);
    } else {
      TimedTail(h, low, i);
      FirstLine(h[..i], h[i], h[i + 1..]);
      LineTimes(h[i + 1..], h[i].when);
      OrderedCons(Bytes(h[..i]), h[i].when, Lines(h[i + 1..]), low);
    }
  }

  /** Clock readings never decrease along h and none is later than last. */
  predicate TimedUpTo(h: seq<Stamped>, last: int)
  {
    && (forall i :: 0 <= i < |h| ==> h[i].when <= last)
    && (forall i, j :: 0 <= i < j < |h| ==> h[i].when <= h[j].when)
  }

  lemma TimesAppend(h: seq<Stamped>, mid: int, p: seq<Byte>, last: int)
    requires TimedUpTo(h, mid) && mid <= last
    ensures TimedUpTo(h + Stamp(p, last), last)
  {
    var a := Stamp(p, last);
    assert forall i :: 0 <= i < |a| ==> a[i].when == last;
  }

  lemma {:induction false} HistoryTimes(ws: seq<Chunk>)
    requires InOrder(ws)
    ensures TimedUpTo(History(ws), if ws == [] then 0 else ws[|ws| - 1].now)
  {
    if ws == [] {
    } else {
      var init, last := ws[..|ws| - 1], ws[|ws| - 1];
      HistoryTimes(init);
      if init == [] {
        TimesAppend([], last.now, last.data, last.now);
      } else {
        TimesAppend(History(init), init[|init| - 1].now, last.data, last.now);
      }
    }
  }

  /** At every moment of every interleaving, only the owner of the mutex is inside Write and
      every other writer's next step has to wait for it. */
  lemma OnlyOwnerWrites(queues: map<Tid, seq<seq<Byte>>>, clock: int, steps: seq<Step>, max: nat, s: Step)
    requires max > 0 && Run(Start(queues, clock), steps, max)
    requires Enabled(Final(Start(queues, clock), steps, max), s)
    ensures var f := Final(Start(queues, clock), steps, max);
      if f.owner.None? then s.Acquire? else f.owner == Some(s.t)
  {
    hide Final, Run, Linear, Timed, Accounted;
    StartIsFine(queues, clock, max);
    RunKeeps(Start(queues, clock), steps, max, queues);
  }

  /** No interleaving gets stuck: while a writer has data left, some writer can go on. */
  lemma NeverStuck(queues: map<Tid, seq<seq<Byte>>>, clock: int, steps: seq<Step>, max: nat, t: Tid)
    returns (s: Step)
    requires max > 0 && Run(Start(queues, clock), steps, max)
    requires Waiting(Final(Start(queues, clock), steps, max), t)
    ensures Enabled(Final(Start(queues, clock), steps, max), s)
  {
    hide Final, Run, Timed, WriteAll, Own, Drain;
    StartIsFine(queues, clock, max);
    RunKeeps(Start(queues, clock), steps, max, queues);
    var f := Final(Start(queues, clock), steps, max);
    if f.owner.None? {
      return Acquire(t);
    }
    var u := f.owner.value;
    match f.phases[u]
    case Locked => return ReadClock(u, f.clock);
    case Clocked(_) => return Append(u);
    case Splitting(_) => return if LF in f.buf.pending then Find(u) else Release(u);
    case Cutting(_, _) => return Store(u);
    case Dropping(_, _) => return Drop(u);
  }

  /** Every interleaving that leaves the mutex free ends in the state of the finished writes
      run one after the other in the order they held it; that order respects every writer's
      own order and omits nothing it finished; stored stamps never decrease. */
  lemma WritersLinearise(queues: map<Tid, seq<seq<Byte>>>, clock: int, steps: seq<Step>, max: nat)
    requires max > 0 && Run(Start(queues, clock), steps, max)
    requires Final(Start(queues, clock), steps, max).owner.None?
    ensures var f := Final(Start(queues, clock), steps, max);
      && f.buf == WriteAll(Writes(f.log), max)
      && f.queues.Keys == queues.Keys
      && (forall t :: t in queues ==> Own(f.log, t) + f.queues[t] == queues[t])
      && (forall i, j :: 0 <= i < j < |f.buf.lines| ==> f.buf.lines[i].when <= f.buf.lines[j].when)
  {
    hide Final, Run, History, Lines, Ordered, AfterHistory, WriteAll, Own, LastN, Exclusive;
    var m := Start(queues, clock);
    StartIsFine(queues, clock, max);
    RunKeeps(m, steps, max, queues);
    var f := Final(m, steps, max);
    var ws := Writes(f.log);
    HistoryTimes(ws);
    var h := History(ws);
    var low := if h == [] then 0 else h[0].when;
    LineTimes(h, low);
    OrderedPairs(Lines(h), low);
    assert f.buf.lines == LastN(Lines(h), max) by {
      BufferLines(f, max);
    }
    SuffixTimes(Lines(h), max);
  }

  lemma BufferLines(f: Machine, max: nat)
    requires max > 0 && f.buf == WriteAll(Writes(f.log), max)
    ensures f.buf.lines == LastN(Lines(History(Writes(f.log))), max)
  {
    WriteAllMeetsHistory(Writes(f.log), max);
  }

  lemma SuffixTimes(ls: seq<Line>, n: nat)
    requires forall i, j :: 0 <= i < j < |ls| ==> ls[i].when <= ls[j].when
    ensures var r := LastN(ls, n); forall i, j :: 0 <= i < j < |r| ==> r[i].when <= r[j].when
  {
  }

  lemma StartIsFine(queues: map<Tid, seq<seq<Byte>>>, clock: int, max: nat)
    requires max > 0
    ensures var m := Start(queues, clock); Exclusive(m) && Linear(m, max) && Timed(m) && Accounted(m, queues)
  {
    assert forall t :: t in queues ==> [] + queues[t] == queues[t];
  }

  // -------------------------------------------------------------------------
  // Writers that end every chunk with a newline
  // -------------------------------------------------------------------------

  datatype Tagged = Tagged(tid: Tid, line: Line)

  predicate Terminated(p: seq<Byte>)
  {
    p != [] && p[|p| - 1] == LF
  }

  function Tag(t: Tid, ls: seq<Line>): (r: seq<Tagged>)
    ensures |r| == |ls|
    ensures forall i :: 0 <= i < |ls| ==> r[i] == Tagged(t, ls[i])
  {
    seq(|ls|, i requires 0 <= i < |ls| => Tagged(t, ls[i]))
  }

  /** The lines each finished write brings on its own, marked with its writer. */
  function TaggedLines(log: seq<Entry>): seq<Tagged>
  {
    if log == [] then []
    else
      var e := log[|log| - 1];
      TaggedLines(log[..|log| - 1]) + Tag(e.tid, Lines(Stamp(e.chunk.data, e.chunk.now)))
  }

  function Untag(ts: seq<Tagged>): (ls: seq<Line>)
    ensures |ls| == |ts|
    ensures forall i :: 0 <= i < |ts| ==> ls[i] == ts[i].line
  {
    seq(|ts|, i requires 0 <= i < |ts| => ts[i].line)
  }

  /** The lines of writer t among tagged lines, in order. */
  function Of(ts: seq<Tagged>, t: Tid): seq<Line>
  {
    if ts == [] then []
    else (if ts[0].tid == t then [ts[0].line] else []) + Of(ts[1..], t)
  }

  lemma NothingPending(p: seq<Byte>, now: int)
    requires Terminated(p)
    ensures Rest(Stamp(p, now)) == []
  {
    var init := Stamp(p[..|p| - 1], now);
    var lf := Stamped(LF, now);
    assert Stamp(p, now) == init + [lf];
    HistoryAppend(init, [lf]);
    FirstLine(Rest(init), lf, []);
    assert Rest(init) + [lf] + [] == Rest(init) + [lf];
  }

  lemma AddTerminated(h: seq<Stamped>, p: seq<Byte>, now: int)
    requires Rest(h) == [] && Terminated(p)
    ensures Lines(h + Stamp(p, now)) == Lines(h) + Lines(Stamp(p, now))
    ensures Rest(h + Stamp(p, now)) == []
  {
    HistoryAppend(h, Stamp(p, now));
    NothingPending(p, now);
    assert [] + Stamp(p, now) == Stamp(p, now);
  }

  lemma {:induction false} TaggedIsWhole(log: seq<Entry>)
    requires forall e :: e in log ==> Terminated(e.chunk.data)
    ensures Untag(TaggedLines(log)) == Lines(History(Writes(log)))
    ensures Rest(History(Writes(log))) == []
  {
    if log == [] {
    } else {
      var init, e := log[..|log| - 1], log[|log| - 1];
      TaggedIsWhole(init);
      assert Writes(log)[..|log| - 1] == Writes(init);
      AddTerminated(History(Writes(init)), e.chunk.data, e.chunk.now);
      UntagAppend(TaggedLines(init), e.tid, Lines(Stamp(e.chunk.data, e.chunk.now)));
      assert Writes(log)[|log| - 1] == e.chunk;
    }
  }

  lemma UntagAppend(a: seq<Tagged>, t: Tid, ls: seq<Line>)
    ensures Untag(a + Tag(t, ls)) == Untag(a) + ls
  {
  }

  lemma UntagLastN(ts: seq<Tagged>, n: nat)
    ensures Untag(LastN(ts, n)) == LastN(Untag(ts), n)
  {
  }

  lemma {:induction false} OfAppend(a: seq<Tagged>, b: seq<Tagged>, t: Tid)
    ensures Of(a + b, t) == Of(a, t) + Of(b, t)
  {
    if a == [] {
      assert a + b == b;
    } else {
      assert (a + b)[0] == a[0] && (a + b)[1..] == a[1..] + b;
      OfAppend(a[1..], b, t);
      Assoc(if a[0].tid == t then [a[0].line] else [], Of(a[1..], t), Of(b, t));
    }
  }

  lemma {:induction false} OfTag(ls: seq<Line>, owner: Tid, t: Tid)
    ensures Of(Tag(owner, ls), t) == if owner == t then ls else []
  {
    if ls == [] {
    } else {
      assert Tag(owner, ls)[1..] == Tag(owner, ls[1..]);
      OfTag(ls[1..], owner, t);
    }
  }

  lemma HistorySnoc(ws: seq<Chunk>, c: Chunk)
    ensures History(ws + [c]) == History(ws) + Stamp(c.data, c.now)
  {
    assert (ws + [c])[..|ws|] == ws;
  }

  lemma {:induction false} OwnLines(log: seq<Entry>, t: Tid)
    requires forall e :: e in log ==> Terminated(e.chunk.data)
    ensures Of(TaggedLines(log), t) == Lines(History(OwnWrites(log, t)))
    ensures Rest(History(OwnWrites(log, t))) == []
  {
    if log == [] {
    } else {
      var init, e := log[..|log| - 1], log[|log| - 1];
      hide Of, Lines, Rest, History, Terminated, TaggedLines, OwnWrites;
      assert log == init + [e];
      OwnLines(init, t);
      OwnLinesSnoc(init, e, t);
    }
  }

  lemma OwnLinesSnoc(init: seq<Entry>, e: Entry, t: Tid)
    requires Terminated(e.chunk.data)
    requires Of(TaggedLines(init), t) == Lines(History(OwnWrites(init, t))) && Rest(History(OwnWrites(init, t))) == []
    ensures var log := init + [e];
      Of(TaggedLines(log), t) == Lines(History(OwnWrites(log, t))) && Rest(History(OwnWrites(log, t))) == []
  {
    hide Of, Lines, Rest, History, Terminated;
    assert (init + [e])[..|init|] == init;
    var added, mine := Lines(Stamp(e.chunk.data, e.chunk.now)), OwnWrites(init, t);
    OfAppend(TaggedLines(init), Tag(e.tid, added), t);
    OfTag(added, e.tid, t);
    if e.tid == t {
      HistorySnoc(mine, e.chunk);
      AddTerminated(History(mine), e.chunk.data, e.chunk.now);
    } else {
      assert mine + [] == mine;
      assert Of(TaggedLines(init), t) + [] == Of(TaggedLines(init), t);
    }
  }

  lemma OfSuffix(ts: seq<Tagged>, n: nat, t: Tid)
    ensures IsSuffix(Of(LastN(ts, n), t), Of(ts, t))
  {
    if n < |ts| {
      var k := |ts| - n;
      assert ts == ts[..k] + ts[k..];
      OfAppend(ts[..k], ts[k..], t);
    }
  }

  lemma LogLines(log: seq<Entry>, max: nat, t: Tid)
    requires max > 0
    requires forall e :: e in log ==> Terminated(e.chunk.data)
    ensures var kept := LastN(TaggedLines(log), max);
      && WriteAll(Writes(log), max) == State(Untag(kept), [])
      && IsSuffix(Of(kept, t), Lines(History(OwnWrites(log, t))))
  {
    WriteAllMeetsHistory(Writes(log), max);
    TaggedIsWhole(log);
    OwnLines(log, t);
    OfSuffix(TaggedLines(log), max, t);
    UntagLastN(TaggedLines(log), max);
  }

  lemma {:induction false} LoggedIsOwn(log: seq<Entry>, e: Entry)
    requires e in log
    ensures e.chunk.data in Own(log, e.tid)
  {
    var init, last := log[..|log| - 1], log[|log| - 1];
    assert log == init + [last];
    OwnSnoc(init, last, e.tid);
    if e == last {
      assert Own(log, e.tid)[|Own(init, e.tid)|] == e.chunk.data;
    } else {
      LoggedIsOwn(init, e);
    }
  }

  /** When every chunk the writers are given ends in a newline, then after any interleaving
      each stored line is a line of exactly one write, and the stored lines of writer t are
      the end of what t's own writes would log alone: the chunks it has taken from the front
      of its queue, in that order. */
  lemma LinesBelongToWriters(queues: map<Tid, seq<seq<Byte>>>, clock: int, steps: seq<Step>, max: nat, t: Tid)
    requires max > 0 && Run(Start(queues, clock), steps, max)
    requires Final(Start(queues, clock), steps, max).owner.None?
    requires forall u, p :: u in queues && p in queues[u] ==> Terminated(p)
    requires t in queues
    ensures var f := Final(Start(queues, clock), steps, max);
      var kept := LastN(TaggedLines(f.log), max);
      && f.buf == State(Untag(kept), [])
      && IsSuffix(Of(kept, t), Lines(History(OwnWrites(f.log, t))))
      && t in f.queues && Own(f.log, t) + f.queues[t] == queues[t]
  {
    hide Final, Run, WriteAll, TaggedLines, Own, OwnWrites, Exclusive, Timed, LastN, IsSuffix, Terminated;
    StartIsFine(queues, clock, max);
    RunKeeps(Start(queues, clock), steps, max, queues);
    var f := Final(Start(queues, clock), steps, max);
    forall e | e in f.log
      ensures Terminated(e.chunk.data)
    {
      LoggedIsOwn(f.log, e);
      assert e.chunk.data in Own(f.log, e.tid) + f.queues[e.tid];
    }
    LogLines(f.log, max, t);
  }
}
