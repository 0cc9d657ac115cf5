/** Concurrent settings POSTs and readers of the in-memory settings. Settings are replaced
    field by field under the write lock and copied field by field under the read lock
    (internal/web/server.go:54-65); every statement is a step of its own here, and the
    steps of all requests interleave freely. A save takes effect in one step, its rename. */
module SettingsRace {
  import opened Wrappers
  import opened Seqs
  import opened Settings

  type Tid = nat

  datatype Word = Text(s: string) | Flag(b: bool) | Number(n: int)

  /** The settings as the fields a struct assignment copies. */
  function Words(s: Settings): (ws: seq<Word>)
    ensures |ws| == 14
  {
    [Text(s.logLevel), Flag(s.logTimestamp), Text(s.upstreamDns), Text(s.dnsStrategy),
     Text(s.tunInterfaceName), Text(s.tunAddress), Number(s.tunMtu), Text(s.tunStack),
     Flag(s.enableMixed), Text(s.mixedListen), Number(s.mixedListenPort),
     Flag(s.enableClashApi), Text(s.clashApiListen), Text(s.clashApiUiDir)]
  }

  /** A POST: not looked at yet, past validation, past its save, assigning its k-th field
      under the write lock, answered. */
  datatype PostState =
    | Fresh(body: Settings)
    | Passed(body: Settings)
    | Stored(body: Settings)
    | Assigning(body: Settings, k: nat)
    | Answered

  /** A call of Settings(): waiting, holding the read lock with some fields copied, done. */
  datatype ReadState = Waiting | Copying(part: seq<Word>) | Returned(snapshot: seq<Word>)

  /** file is what the settings file loads as; saves and sets are history variables that
      list the POSTs in the order of their renames and of their finished assignments. */
  datatype Machine = Machine(memory: seq<Word>, writer: Option<Tid>, readers: set<Tid>,
                             posts: map<Tid, PostState>, calls: map<Tid, ReadState>,
                             file: Settings, saves: seq<Tid>, sets: seq<Tid>)

  datatype Step =
    | Validate(t: Tid) | Save(t: Tid, works: bool) | Lock(t: Tid) | Assign(t: Tid) | Unlock(t: Tid)
    | RLock(t: Tid) | Copy(t: Tid) | RUnlock(t: Tid)

  predicate Enabled(m: Machine, s: Step)
  {
    match s
    case Validate(t) => t in m.posts && m.posts[t].Fresh?
    case Save(t, _) => t in m.posts && m.posts[t].Passed?
    case Lock(t) => t in m.posts && m.posts[t].Stored? && m.writer.None? && m.readers == {}
    case Assign(t) => t in m.posts && m.posts[t].Assigning? && m.posts[t].k < |m.memory| && m.posts[t].k < 14
    case Unlock(t) => t in m.posts && m.posts[t].Assigning? && m.posts[t].k == 14
    case RLock(t) => t in m.calls && m.calls[t].Waiting? && m.writer.None?
    case Copy(t) => t in m.calls && m.calls[t].Copying? && |m.calls[t].part| < |m.memory|
    case RUnlock(t) => t in m.calls && m.calls[t].Copying? && |m.calls[t].part| == |m.memory|
  }

  function Next(m: Machine, s: Step): Machine
    requires Enabled(m, s)
  {
    match s
    case Validate(t) =>
      var b := m.posts[t].body;
      m.(posts := m.posts[t := if ValidSettings(b) then Passed(b) else Answered])
    case Save(t, works) =>
      if works then
        m.(posts := m.posts[t := Stored(m.posts[t].body)], file := m.posts[t].body, saves := m.saves + [t])
      else m.(posts := m.posts[t := Answered])
    case Lock(t) => m.(writer := Some(t), posts := m.posts[t := Assigning(m.posts[t].body, 0)])
    case Assign(t) =>
      var k := m.posts[t].k;
      m.(memory := m.memory[k := Words(m.posts[t].body)[k]],
         posts := m.posts[t := Assigning(m.posts[t].body, k + 1)])
    case Unlock(t) => m.(writer := None, posts := m.posts[t := Answered], sets := m.sets + [t])
    case RLock(t) => m.(readers := m.readers + {t}, calls := m.calls[t := Copying([])])
    case Copy(t) =>
      var part := m.calls[t].part;
      m.(calls := m.calls[t := Copying(part + [m.memory[|part|]])])
    case RUnlock(t) => m.(readers := m.readers - {t}, calls := m.calls[t := Returned(m.calls[t].part)])
  }

  predicate Run(m: Machine, steps: seq<Step>)
    decreases |steps|
  {
    steps == [] || (Enabled(m, steps[0]) && Run(Next(m, steps[0]), steps[1..]))
  }

  function Final(m: Machine, steps: seq<Step>): Machine
    requires Run(m, steps)
    decreases |steps|
  {
    if steps == [] then m else Final(Next(m, steps[0]), steps[1..])
  }

  function Start(initial: Settings, bodies: map<Tid, Settings>, readers: set<Tid>): Machine
  {
    Machine(Words(initial), None, {}, map t | t in bodies :: Fresh(bodies[t]), map t | t in readers :: Waiting,
            initial, [], [])
  }

  // -------------------------------------------------------------------------
  // What every interleaving keeps
  // -------------------------------------------------------------------------

  /** All fields of the initial settings, or all fields of one posted value that passed
      validateSettings. */
  ghost predicate Whole(ws: seq<Word>, initial: Settings, bodies: map<Tid, Settings>)
  {
    ws == Words(initial) || exists t :: t in bodies && ValidSettings(bodies[t]) && ws == Words(bodies[t])
  }

  ghost predicate PostOk(m: Machine, t: Tid, bodies: map<Tid, Settings>)
    requires t in m.posts
  {
    match m.posts[t]
    case Fresh(b) => t in bodies && b == bodies[t] && t !in m.saves && t !in m.sets
    case Passed(b) => t in bodies && b == bodies[t] && ValidSettings(b) && t !in m.saves && t !in m.sets
    case Stored(b) => t in bodies && b == bodies[t] && ValidSettings(b) && t in m.saves && t !in m.sets
    case Assigning(b, k) =>
      && t in bodies && b == bodies[t] && ValidSettings(b)
      && m.writer == Some(t) && k <= 14 == |m.memory| && m.memory[..k] == Words(b)[..k]
      && t in m.saves && t !in m.sets
    case Answered => m.writer != Some(t) && (t in m.saves <==> t in m.sets)
  }

  ghost predicate ReadOk(m: Machine, t: Tid, initial: Settings, bodies: map<Tid, Settings>)
    requires t in m.calls
  {
    match m.calls[t]
    case Waiting => true
    case Copying(part) => t in m.readers && |part| <= |m.memory| && part == m.memory[..|part|]
    case Returned(v) => Whole(v, initial, bodies)
  }

  ghost predicate LockOk(m: Machine, initial: Settings, bodies: map<Tid, Settings>)
  {
    && |m.memory| == 14
    && (m.writer.None? ==> Whole(m.memory, initial, bodies))
    && (m.writer.Some? ==> m.readers == {} && m.writer.value in m.posts && m.posts[m.writer.value].Assigning?)
  }

  /** The body of the last POST of a list, or the initial settings. */
  function LastBody(ts: seq<Tid>, initial: Settings, bodies: map<Tid, Settings>): Settings
  {
    if ts == [] || ts[|ts| - 1] !in bodies then initial else bodies[ts[|ts| - 1]]
  }

  ghost predicate HistoryOk(m: Machine, initial: Settings, bodies: map<Tid, Settings>)
  {
    && m.file == LastBody(m.saves, initial, bodies)
    && (m.writer.None? ==> m.memory == Words(LastBody(m.sets, initial, bodies)))
    && NoDuplicates(m.saves) && NoDuplicates(m.sets)
    && (forall t :: t in m.saves || t in m.sets ==> t in m.posts && t in bodies && ValidSettings(bodies[t]))
  }

  ghost predicate Inv(m: Machine, initial: Settings, bodies: map<Tid, Settings>)
  {
    && LockOk(m, initial, bodies)
    && HistoryOk(m, initial, bodies)
    && (forall t :: t in m.posts ==> PostOk(m, t, bodies))
    && (forall t :: t in m.calls ==> ReadOk(m, t, initial, bodies))
  }

  lemma StepKeepsLock(m: Machine, s: Step, initial: Settings, bodies: map<Tid, Settings>)
    requires Inv(m, initial, bodies) && Enabled(m, s)
    ensures LockOk(Next(m, s), initial, bodies)
  {
    hide ValidSettings, Words;
    match s
    case Validate(t) => assert PostOk(m, t, bodies);
    case Save(t, _) => assert PostOk(m, t, bodies);
    case Lock(t) => assert PostOk(m, t, bodies);
    case Assign(t) => assert PostOk(m, t, bodies);
    case Unlock(t) =>
      assert PostOk(m, t, bodies);
      assert m.memory[..14] == m.memory && Words(m.posts[t].body)[..14] == Words(m.posts[t].body);
    case RLock(t) =>
    case Copy(t) =>
    case RUnlock(t) =>
  }

  lemma StepKeepsHistory(m: Machine, s: Step, initial: Settings, bodies: map<Tid, Settings>)
    requires Inv(m, initial, bodies) && Enabled(m, s)
    ensures HistoryOk(Next(m, s), initial, bodies)
  {
    hide ValidSettings, Words, LockOk, ReadOk;
    if s.Save? || s.Unlock? || s.Lock? || s.Assign? {
      assert PostOk(m, s.t, bodies);
    }
    if s.Unlock? {
      var ws := Words(m.posts[s.t].body);
      assert m.memory[..14] == m.memory && ws[..14] == ws;
    }
  }

  lemma StepKeepsOtherPosts(m: Machine, s: Step, initial: Settings, bodies: map<Tid, Settings>, u: Tid)
    requires Inv(m, initial, bodies) && Enabled(m, s) && u in Next(m, s).posts && u != s.t
    ensures PostOk(Next(m, s), u, bodies)
  {
    hide ValidSettings, Words, HistoryOk, ReadOk;
    assert PostOk(m, u, bodies);
    if s.Assign? || s.Unlock? {
      assert PostOk(m, s.t, bodies);
    }
  }

  lemma StepKeepsOwnPost(m: Machine, s: Step, initial: Settings, bodies: map<Tid, Settings>)
    requires Inv(m, initial, bodies) && Enabled(m, s) && s.t in Next(m, s).posts
    ensures PostOk(Next(m, s), s.t, bodies)
  {
    hide ValidSettings, Words, HistoryOk, ReadOk;
    assert PostOk(m, s.t, bodies);
    if s.Assign? {
      var k, ws := m.posts[s.t].k, Words(m.posts[s.t].body);
      assert ws[..k + 1] == ws[..k] + [ws[k]];
      assert m.memory[k := ws[k]][..k + 1] == m.memory[..k] + [ws[k]];
    }
  }

  lemma StepKeepsPosts(m: Machine, s: Step, initial: Settings, bodies: map<Tid, Settings>, u: Tid)
    requires Inv(m, initial, bodies) && Enabled(m, s) && u in Next(m, s).posts
    ensures PostOk(Next(m, s), u, bodies)
  {
    hide Inv, Enabled, Next, PostOk;
    if u == s.t {
      StepKeepsOwnPost(m, s, initial, bodies);
    } else {
      StepKeepsOtherPosts(m, s, initial, bodies, u);
    }
  }

  lemma StepKeepsReads(m: Machine, s: Step, initial: Settings, bodies: map<Tid, Settings>, u: Tid)
    requires Inv(m, initial, bodies) && Enabled(m, s) && u in Next(m, s).calls
    ensures ReadOk(Next(m, s), u, initial, bodies)
  {
    hide ValidSettings, Words;
    assert ReadOk(m, u, initial, bodies);
    if s.Assign? {
      assert PostOk(m, s.t, bodies);
    }
    if s.Copy? && u == s.t {
      var part := m.calls[u].part;
      assert m.memory[..|part| + 1] == m.memory[..|part|] + [m.memory[|part|]];
    }
    if s.RUnlock? && u == s.t {
      assert m.memory[..|m.memory|] == m.memory;
    }
  }

  lemma {:induction false} RunKeepsInv(m: Machine, steps: seq<Step>, initial: Settings, bodies: map<Tid, Settings>)
    requires Inv(m, initial, bodies) && Run(m, steps)
    ensures Inv(Final(m, steps), initial, bodies)
    decreases |steps|
  {
    hide LockOk, HistoryOk, PostOk, ReadOk;
    if steps == [] {
    } else {
      var n := Next(m, steps[0]);
      StepKeepsLock(m, steps[0], initial, bodies);
      StepKeepsHistory(m, steps[0], initial, bodies);
      forall u | u in n.posts
        ensures PostOk(n, u, bodies)
      {
        StepKeepsPosts(m, steps[0], initial, bodies, u);
      }
      forall u | u in n.calls
        ensures ReadOk(n, u, initial, bodies)
      {
        StepKeepsReads(m, steps[0], initial, bodies, u);
      }
      RunKeepsInv(n, steps[1..], initial, bodies);
    }
  }

  lemma StartIsFine(initial: Settings, bodies: map<Tid, Settings>, readers: set<Tid>)
    ensures Inv(Start(initial, bodies, readers), initial, bodies)
  {
    hide ValidSettings, Words;
  }

  /** In every interleaving, whenever no write is under way the settings in memory are the
      initial ones or one whole posted value that passed validation, and every snapshot a
      reader ever got is one too: never a mixture of fields, never a rejected value. */
  lemma SettingsAreNeverTorn(initial: Settings, bodies: map<Tid, Settings>, readers: set<Tid>, steps: seq<Step>)
    requires Run(Start(initial, bodies, readers), steps)
    ensures var f := Final(Start(initial, bodies, readers), steps);
      && (f.writer.None? ==> Whole(f.memory, initial, bodies))
      && (forall t :: t in f.calls && f.calls[t].Returned? ==> Whole(f.calls[t].snapshot, initial, bodies))
  {
    hide ValidSettings, Words;
    var m := Start(initial, bodies, readers);
    StartIsFine(initial, bodies, readers);
    RunKeepsInv(m, steps, initial, bodies);
    var f := Final(m, steps);
    forall t | t in f.calls && f.calls[t].Returned?
      ensures Whole(f.calls[t].snapshot, initial, bodies)
    {
      assert ReadOk(f, t, initial, bodies);
    }
  }

  /** The fields determine the settings. */
  lemma WordsAreInjective(a: Settings, b: Settings)
    requires Words(a) == Words(b)
    ensures a == b
  {
    assert forall i :: 0 <= i < 14 ==> Words(a)[i] == Words(b)[i];
    assert Words(a)[0] == Words(b)[0] && Words(a)[1] == Words(b)[1] && Words(a)[2] == Words(b)[2]
        && Words(a)[3] == Words(b)[3] && Words(a)[4] == Words(b)[4] && Words(a)[5] == Words(b)[5]
        && Words(a)[6] == Words(b)[6] && Words(a)[7] == Words(b)[7] && Words(a)[8] == Words(b)[8]
        && Words(a)[9] == Words(b)[9] && Words(a)[10] == Words(b)[10] && Words(a)[11] == Words(b)[11]
        && Words(a)[12] == Words(b)[12] && Words(a)[13] == Words(b)[13];
  }

  // -------------------------------------------------------------------------
  // The file beside the memory
  // -------------------------------------------------------------------------

  /** No POST is between its save and the end of its assignment. */
  predicate AtRest(m: Machine)
  {
    m.writer.None? && forall t :: t in m.posts ==> !m.posts[t].Stored?
  }

  /** In every interleaving that comes to rest, file and memory each are the initial settings
      or one whole accepted value. The same POSTs have been saved and assigned, each once, but
      not always in the same order: file and memory agree exactly when the last save and the
      last assignment carried equal settings. */
  lemma FileAndMemoryAgreeIff(initial: Settings, bodies: map<Tid, Settings>, readers: set<Tid>, steps: seq<Step>)
    requires Run(Start(initial, bodies, readers), steps)
    requires AtRest(Final(Start(initial, bodies, readers), steps))
    ensures var f := Final(Start(initial, bodies, readers), steps);
      && Whole(f.memory, initial, bodies) && Whole(Words(f.file), initial, bodies)
      && NoDuplicates(f.saves) && NoDuplicates(f.sets) && (forall t :: t in f.saves <==> t in f.sets)
      && (f.memory == Words(f.file) <==> LastBody(f.saves, initial, bodies) == LastBody(f.sets, initial, bodies))
  {
    hide ValidSettings, Words, Final, Run;
    var m := Start(initial, bodies, readers);
    StartIsFine(initial, bodies, readers);
    RunKeepsInv(m, steps, initial, bodies);
    var f := Final(m, steps);
    if f.memory == Words(f.file) {
      WordsAreInjective(LastBody(f.sets, initial, bodies), f.file);
    }
    forall t
      ensures t in f.saves <==> t in f.sets
    {
      if t in f.posts {
        assert PostOk(f, t, bodies);
      }
    }
    if f.saves != [] {
      assert f.saves[|f.saves| - 1] in f.saves;
    }
  }

  lemma {:induction false} RunAppend(m: Machine, a: seq<Step>, b: seq<Step>)
    requires Run(m, a) && Run(Final(m, a), b)
    ensures Run(m, a + b) && Final(m, a + b) == Final(Final(m, a), b)
    decreases |a|
  {
    hide Enabled, Next;
    if a == [] {
      assert a + b == b;
    } else {
      assert (a + b)[0] == a[0] && (a + b)[1..] == a[1..] + b;
      RunAppend(Next(m, a[0]), a[1..], b);
    }
  }

  lemma OneStep(m: Machine, s: Step)
    requires Enabled(m, s)
    ensures Run(m, [s]) && Final(m, [s]) == Next(m, s)
  {
    hide Enabled, Next;
    assert [s][1..] == [];
  }

  /** The rest of an assignment. */
  lemma {:induction false} AssignRest(m: Machine, t: Tid) returns (steps: seq<Step>)
    requires t in m.posts && m.posts[t].Assigning? && m.posts[t].k <= 14 == |m.memory|
    requires m.memory[..m.posts[t].k] == Words(m.posts[t].body)[..m.posts[t].k]
    ensures Run(m, steps)
    ensures Final(m, steps)
         == m.(memory := Words(m.posts[t].body), posts := m.posts[t := Assigning(m.posts[t].body, 14)])
    decreases 14 - m.posts[t].k
  {
    hide Words;
    var k, ws := m.posts[t].k, Words(m.posts[t].body);
    if k == 14 {
      assert m.memory[..14] == m.memory && ws[..14] == ws;
      assert m.posts[t := m.posts[t]] == m.posts;
      steps := [];
    } else {
      var n := Next(m, Assign(t));
      OneStep(m, Assign(t));
      assert n.memory[..k + 1] == m.memory[..k] + [ws[k]] == ws[..k + 1];
      var rest := AssignRest(n, t);
      RunAppend(m, [Assign(t)], rest);
      assert n.posts[t := Assigning(m.posts[t].body, 14)] == m.posts[t := Assigning(m.posts[t].body, 14)];
      steps := [Assign(t)] + rest;
    }
  }

  /** A stored POST can take the lock, assign and finish. */
  lemma SetMemory(m: Machine, t: Tid) returns (steps: seq<Step>)
    requires t in m.posts && m.posts[t].Stored? && m.writer.None? && m.readers == {} && |m.memory| == 14
    ensures Run(m, steps)
    ensures Final(m, steps)
         == m.(memory := Words(m.posts[t].body), posts := m.posts[t := Answered], sets := m.sets + [t])
  {
    hide Words, Run, Final;
    var b := m.posts[t].body;
    var locked := Next(m, Lock(t));
    OneStep(m, Lock(t));
    var assigns := AssignRest(locked, t);
    var done := Final(locked, assigns);
    OneStep(done, Unlock(t));
    RunAppend(m, [Lock(t)], assigns);
    RunAppend(m, [Lock(t)] + assigns, [Unlock(t)]);
    assert m.posts[t := Assigning(b, 0)][t := Assigning(b, 14)][t := Answered] == m.posts[t := Answered];
    steps := [Lock(t)] + assigns + [Unlock(t)];
  }

  /** Two POSTs of different accepted settings can leave the second in the file and the first
      in memory: saved first and second, assigned second and first. */
  lemma FileAndMemoryCanDiffer(initial: Settings, a: Settings, b: Settings) returns (steps: seq<Step>)
    requires ValidSettings(a) && ValidSettings(b) && a != b
    ensures var m := Start(initial, map[1 := a, 2 := b], {});
      && Run(m, steps) && AtRest(Final(m, steps))
      && Final(m, steps).file == b && Final(m, steps).memory == Words(a) != Words(b)
  {
    hide ValidSettings, Words, Run, Final;
    var m := Start(initial, map[1 := a, 2 := b], {});
    var m4, head := BothSaved(initial, a, b);
    var second := SetMemory(m4, 2);
    var m5 := Final(m4, second);
    var first := SetMemory(m5, 1);
    RunAppend(m, head, second);
    RunAppend(m, head + second, first);
    if Words(a) == Words(b) {
      WordsAreInjective(a, b);
    }
    steps := head + second + first;
  }

  lemma BothSaved(initial: Settings, a: Settings, b: Settings)
    returns (m4: Machine, steps: seq<Step>)
    requires ValidSettings(a) && ValidSettings(b)
    ensures Run(Start(initial, map[1 := a, 2 := b], {}), steps)
    ensures Final(Start(initial, map[1 := a, 2 := b], {}), steps) == m4
    ensures m4 == Start(initial, map[1 := a, 2 := b], {}).(posts := map[1 := Stored(a), 2 := Stored(b)], file := b,
                                                            saves := [1, 2])
  {
    hide ValidSettings, Words, Run, Final;
    var m := Start(initial, map[1 := a, 2 := b], {});
    var m1 := Next(m, Validate(1));
    var m2 := Next(m1, Validate(2));
    var m3 := Next(m2, Save(1, true));
    m4 := Next(m3, Save(2, true));
    OneStep(m, Validate(1));
    OneStep(m1, Validate(2));
    OneStep(m2, Save(1, true));
    OneStep(m3, Save(2, true));
    RunAppend(m, [Validate(1)], [Validate(2)]);
    RunAppend(m, [Validate(1)] + [Validate(2)], [Save(1, true)]);
    RunAppend(m, [Validate(1)] + [Validate(2)] + [Save(1, true)], [Save(2, true)]);
    steps := [Validate(1)] + [Validate(2)] + [Save(1, true)] + [Save(2, true)];
    assert m4.posts == map[1 := Stored(a), 2 := Stored(b)];
  }
}
