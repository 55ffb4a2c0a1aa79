/** The loops of run_init and co_run_init take their steps in one of the orders of the interleaved machine. */
module ModulesSchedules {
  import opened Sequences
  import opened ModulesOrder
  import opened ModulesHistory
  import opened ModulesInterleaved
  import ModulesRun

  function Erased(log: seq<Entry>): seq<ModulesRun.Event> {
    seq(|log|, i requires 0 <= i < |log| =>
      if log[i].Began? then ModulesRun.Start(log[i].reg) else ModulesRun.Finish(log[i].reg))
  }

  /** The same program state, the log without the runs. */
  ghost predicate Matches(w: ModulesRun.World, m: Machine) {
    && w.registry == m.registry && w.nextId == m.nextId && w.pending == m.pending && w.outstanding == m.outstanding
    && w.log == Erased(m.log) && w.runs == Ledger(m).runs
  }

  function Turned(act: ModulesRun.Act): Turn {
    match act
    case Complete(r) => Turn.Complete(r)
    case Register(level, kind) => Turn.Register(level, kind)
  }

  lemma ActMatches(w: ModulesRun.World, m: Machine, act: ModulesRun.Act)
    requires Matches(w, m)
    ensures Matches(ModulesRun.Happen(w, act), Next(m, Turned(act))) && Next(m, Turned(act)).runs == m.runs
  {
    var m' := Next(m, Turned(act));
    assert m'.log != m.log ==> Erased(m'.log) == Erased(m.log) + [ModulesRun.Finish(act.reg)];
    assert Ledger(m').runs == Ledger(m).runs;
  }

  lemma {:induction false} ActsMatch(w: ModulesRun.World, m: Machine, acts: seq<ModulesRun.Act>) returns (turns: seq<Turn>)
    requires Matches(w, m)
    ensures Matches(ModulesRun.HappenAll(w, acts), Run(m, turns)) && Run(m, turns).runs == m.runs
    decreases |acts|
  {
    if acts == [] {
      turns := [];
    } else {
      ActMatches(w, m, acts[0]);
      hide Matches;
      var more := ActsMatch(ModulesRun.Happen(w, acts[0]), Next(m, Turned(acts[0])), acts[1..]);
      turns := [Turned(acts[0])] + more;
    }
  }

  lemma YieldMatches(w: ModulesRun.World, m: Machine, timing: ModulesRun.Timing) returns (turns: seq<Turn>)
    requires Matches(w, m)
    ensures Matches(ModulesRun.Yield(w, timing), Run(m, turns)) && Run(m, turns).runs == m.runs
  {
    turns := ActsMatch(w, m, timing(w.clock));
  }

  function Futures(r: Reg): seq<Reg> {
    if r.kind.Future? then [r] else []
  }

  lemma LogMatches(w: ModulesRun.World, m: Machine, m': Machine, e: Entry)
    requires Matches(w, m) && m' == m.(outstanding := m'.outstanding, runs := m'.runs, log := m.log + [e])
    requires Ledger(m').runs == Ledger(m).runs
    ensures Matches(ModulesRun.Log(w, Erased([e])[0]).(outstanding := m'.outstanding), m')
  {
    assert Erased(m'.log) == Erased(m.log) + [Erased([e])[0]];
  }

  function Called(a: Active, rs: seq<Reg>): Active {
    a.(next := a.next + |rs|, waits := a.waits + FlatMap(Futures, rs))
  }

  lemma CalledFirst(a: Active, rs: seq<Reg>)
    requires rs != []
    ensures Called(a, rs) == Called(Called(a, [rs[0]]), rs[1..])
  {
    FlatMapOne(Futures, rs[0]);
    assert a.waits + Futures(rs[0]) + FlatMap(Futures, rs[1..]) == a.waits + FlatMap(Futures, rs);
  }

  /** The functions the run calls next are all of one level, the level of the futures it waits for. */
  ghost predicate Upcoming(a: Active, rs: seq<Reg>, level: nat) {
    && a.busy.None? && (forall r :: r in a.waits ==> r.level == level) && (forall r :: r in rs ==> r.level == level)
    && a.next <= |a.drained| && rs <= a.drained[a.next..]
  }

  lemma UpcomingNext(a: Active, rs: seq<Reg>, level: nat)
    requires Upcoming(a, rs, level) && rs != []
    ensures a.next < |a.drained| && a.drained[a.next] == rs[0] && Upcoming(a, [rs[0]], level)
    ensures Upcoming(Called(a, [rs[0]]), rs[1..], level)
  {
    FlatMapOne(Futures, rs[0]);
    assert a.drained[a.next..][1..] == a.drained[a.next + 1..];
    assert rs[0] in rs && forall r :: r in rs[1..] ==> r in rs;
  }

  /** One function of a level is called. */
  lemma CallMatches(w: ModulesRun.World, m: Machine, n: nat, r: Reg, timing: ModulesRun.Timing)
    returns (turns: seq<Turn>)
    requires Matches(w, m) && n < |m.runs| && Upcoming(m.runs[n], [r], r.level)
    ensures Matches(ModulesRun.Call(w, m.runs[n].co, r, timing), Run(m, turns))
    ensures Run(m, turns).runs == m.runs[n := Called(m.runs[n], [r])]
  {
    var a := m.runs[n];
    UpcomingNext(a, [r], r.level);
    FlatMapOne(Futures, r);
    var m1 := Next(m, Advance(n));
    assert Ledger(m1).runs == Ledger(m).runs;
    assert a.waits + [] == a.waits;
    assert CanCall(a) by {
      assert a.waits != [] ==> a.waits[0] in a.waits;
    }
    if !ModulesRun.Executes(a.co, r) {
      turns := [Advance(n)];
    } else {
      LogMatches(w, m, m1, Began(n, r));
      if r.kind.Future? {
        var more := YieldMatches(
          ModulesRun.Log(w, ModulesRun.Start(r)).(outstanding := w.outstanding + {r}), m1, timing);
        turns := [Advance(n)] + more;
      } else {
        var w1 := ModulesRun.Log(w, ModulesRun.Start(r));
        var more := YieldMatches(w1, m1, timing);
        var m2 := Run(m1, more);
        var m3 := Next(m2, Advance(n));
        assert Ledger(m3).runs == Ledger(m2).runs;
        LogMatches(ModulesRun.Yield(w1, timing), m2, m3, Ended(r));
        RunConcat(m1, more, [Advance(n)]);
        turns := [Advance(n)] + (more + [Advance(n)]);
      }
    }
  }

  lemma {:induction false} CallAllMatches(
    w: ModulesRun.World, m: Machine, n: nat, rs: seq<Reg>, level: nat, timing: ModulesRun.Timing)
    returns (turns: seq<Turn>)
    requires Matches(w, m) && n < |m.runs| && Upcoming(m.runs[n], rs, level)
    ensures Matches(ModulesRun.CallAll(w, m.runs[n].co, rs, timing), Run(m, turns))
    ensures Run(m, turns).runs == m.runs[n := Called(m.runs[n], rs)]
    decreases |rs|
  {
    var a := m.runs[n];
    if rs == [] {
      turns := [];
      assert a.waits + [] == a.waits;
    } else {
      UpcomingNext(a, rs, level);
      CalledFirst(a, rs);
      assert rs[0].level == level;
      hide Matches, Run, Upcoming, Called, ModulesRun.Call;
      var first := CallMatches(w, m, n, rs[0], timing);
      var m1 := Run(m, first);
      assert m1.runs[n] == Called(a, [rs[0]]);
      assert m1.runs[n].co == a.co by { SameKind(a, [rs[0]]); }
      var more := CallAllMatches(ModulesRun.Call(w, a.co, rs[0], timing), m1, n, rs[1..], level, timing);
      RunConcat(m, first, more);
      turns := first + more;
    }
  }

  lemma SameKind(a: Active, rs: seq<Reg>)
    ensures Called(a, rs).co == a.co
  {
  }

  /** The wait for the first future of the list. */
  lemma WaitMatches(w: ModulesRun.World, m: Machine, n: nat, timing: ModulesRun.Timing) returns (turns: seq<Turn>)
    requires Matches(w, m) && n < |m.runs| && m.runs[n].busy.None? && m.runs[n].waits != [] && !CanCall(m.runs[n])
    ensures var a, m' := m.runs[n], Run(m, turns);
            && Matches(ModulesRun.Wait(w, a.waits[0], timing), m')
            && m'.runs == m.runs[n := a.(waits := a.waits[1..])]
  {
    var a := m.runs[n];
    var r := a.waits[0];
    var more := YieldMatches(w, m, timing);
    var m1 := Run(m, more);
    ActMatches(ModulesRun.Yield(w, timing), m1, ModulesRun.Complete(r));
    var m2 := Next(m1, Turn.Complete(r));
    var m3 := Next(m2, Advance(n));
    assert Ledger(m3).runs == Ledger(m2).runs;
    assert Run(m2, [Advance(n)]) == m3 && [Turn.Complete(r), Advance(n)][1..] == [Advance(n)];
    RunConcat(m, more, [Turn.Complete(r), Advance(n)]);
    turns := more + [Turn.Complete(r), Advance(n)];
  }

  lemma {:induction false} WaitAllMatches(
    w: ModulesRun.World, m: Machine, n: nat, rs: seq<Reg>, level: nat, timing: ModulesRun.Timing)
    returns (turns: seq<Turn>)
    requires Matches(w, m) && n < |m.runs| && m.runs[n].busy.None? && m.runs[n].waits == FlatMap(Futures, rs)
    requires forall r :: r in m.runs[n].waits ==> r.level == level
    requires m.runs[n].next < |m.runs[n].drained| ==> m.runs[n].drained[m.runs[n].next].level != level
    ensures Matches(ModulesRun.WaitAll(w, rs, timing), Run(m, turns))
    ensures Run(m, turns).runs == m.runs[n := m.runs[n].(waits := [])]
    decreases |rs|
  {
    if rs == [] {
      turns := [];
    } else if rs[0].kind.Future? {
      var a := m.runs[n];
      assert a.waits[0] == rs[0] && a.waits[0] in a.waits && a.waits[1..] == FlatMap(Futures, rs[1..]);
      var first := WaitMatches(w, m, n, timing);
      hide Matches;
      assert forall r :: r in a.waits[1..] ==> r in a.waits;
      var more := WaitAllMatches(ModulesRun.Wait(w, rs[0], timing), Run(m, first), n, rs[1..], level, timing);
      RunConcat(m, first, more);
      turns := first + more;
    } else {
      turns := WaitAllMatches(w, m, n, rs[1..], level, timing);
    }
  }

  lemma LevelMatches(
    w: ModulesRun.World, m: Machine, n: nat, rs: seq<Reg>, level: nat, timing: ModulesRun.Timing)
    returns (turns: seq<Turn>)
    requires Matches(w, m) && n < |m.runs| && m.runs[n].waits == [] && Upcoming(m.runs[n], rs, level)
    requires var end := m.runs[n].next + |rs|;
             end < |m.runs[n].drained| ==> m.runs[n].drained[end].level != level
    ensures Matches(ModulesRun.RunLevel(w, m.runs[n].co, rs, timing), Run(m, turns))
    ensures Run(m, turns).runs == m.runs[n := m.runs[n].(next := m.runs[n].next + |rs|)]
  {
    hide Matches, Run, Upcoming, Futures, FlatMap, ModulesRun.CallAll, ModulesRun.WaitAll;
    var a := m.runs[n];
    var calls := CallAllMatches(w, m, n, rs, level, timing);
    var m1 := Run(m, calls);
    assert [] + FlatMap(Futures, rs) == FlatMap(Futures, rs);
    assert m1.runs[n] == Called(a, rs) && a.busy.None? by {
      UpcomingIdle(a, rs, level);
    }
    FuturesOfLevel(a, rs, level);
    var waits := WaitAllMatches(ModulesRun.CallAll(w, a.co, rs, timing), m1, n, rs, level, timing);
    RunConcat(m, calls, waits);
    turns := calls + waits;
  }

  lemma UpcomingIdle(a: Active, rs: seq<Reg>, level: nat)
    requires Upcoming(a, rs, level)
    ensures a.busy.None?
  {
  }

  lemma FuturesOfLevel(a: Active, rs: seq<Reg>, level: nat)
    requires Upcoming(a, rs, level)
    ensures forall r :: r in FlatMap(Futures, rs) ==> r.level == level
  {
    forall r | r in FlatMap(Futures, rs) ensures r.level == level {
      FlatMapIn(Futures, rs, r);
    }
  }

  /** The run stands in front of the given levels. */
  ghost predicate Facing(a: Active, f: nat -> seq<Reg>, levels: seq<nat>) {
    && a.busy.None? && a.waits == [] && a.next <= |a.drained| && a.drained[a.next..] == FlatMap(f, levels)
    && Increasing(levels) && Leveled(f, levels)
  }

  lemma FacingNext(a: Active, f: nat -> seq<Reg>, levels: seq<nat>)
    requires Facing(a, f, levels) && levels != []
    ensures var own := f(levels[0]);
            var end := a.next + |own|;
            && a.waits == [] && Upcoming(a, own, levels[0])
            && (end < |a.drained| ==> a.drained[end].level != levels[0])
            && Facing(a.(next := end), f, levels[1..])
  {
    var own, later := f(levels[0]), FlatMap(f, levels[1..]);
    var end := a.next + |own|;
    assert a.drained[a.next..] == own + later;
    hide FlatMap;
    LeveledTail(f, levels);
    SliceOf(a.drained, a.next, own, later);
    assert own <= a.drained[a.next..];
    assert levels[0] in levels;
    if end < |a.drained| {
      hide Increasing, Leveled, Upcoming;
      assert a.drained[end] == later[0] && later[0] in later;
      LaterLevel(f, levels, later[0]);
    }
  }

  lemma SliceOf(s: seq<Reg>, from: nat, own: seq<Reg>, later: seq<Reg>)
    requires from <= |s| && s[from..] == own + later
    ensures from + |own| <= |s| && s[from + |own|..] == later
  {
    assert s[from + |own|..] == s[from..][|own|..];
  }

  lemma LaterLevel(f: nat -> seq<Reg>, levels: seq<nat>, r: Reg)
    requires levels != [] && Increasing(levels) && Leveled(f, levels) && r in FlatMap(f, levels[1..])
    ensures r.level != levels[0]
  {
    LeveledTail(f, levels);
    LevelsOf(f, levels[1..], r);
  }

  lemma FacingEnd(a: Active, f: nat -> seq<Reg>)
    requires Facing(a, f, [])
    ensures a.next == |a.drained|
  {
    assert |a.drained[a.next..]| == 0;
  }

  lemma {:induction false} LevelsMatch(
    w: ModulesRun.World, m: Machine, n: nat, f: nat -> seq<Reg>, levels: seq<nat>, timing: ModulesRun.Timing)
    returns (turns: seq<Turn>)
    requires Matches(w, m) && n < |m.runs| && Facing(m.runs[n], f, levels)
    ensures Matches(ModulesRun.RunLevels(w, m.runs[n].co, f, levels, timing), Run(m, turns))
    ensures Run(m, turns).runs == m.runs[n := m.runs[n].(next := |m.runs[n].drained|)]
    decreases |levels|
  {
    hide Matches, Facing, Upcoming, ModulesRun.RunLevel;
    var a := m.runs[n];
    if levels == [] {
      turns := [];
      FacingEnd(a, f);
    } else {
      FacingNext(a, f, levels);
      var own := f(levels[0]);
      var first := LevelMatches(w, m, n, own, levels[0], timing);
      var more := LevelsMatch(ModulesRun.RunLevel(w, a.co, own, timing), Run(m, first), n, f, levels[1..], timing);
      RunConcat(m, first, more);
      turns := first + more;
    }
  }

  /** A whole run is a schedule of the machine in which a run begins and completes. */
  lemma RunMatches(w: ModulesRun.World, m: Machine, co: bool, timing: ModulesRun.Timing) returns (turns: seq<Turn>)
    requires Matches(w, m) && Accounts(w)
    ensures var m' := Run(m, turns);
            && Matches(ModulesRun.RunInit(w, co, timing), m')
            && |m'.runs| == |m.runs| + 1 && m'.runs[..|m.runs|] == m.runs && m'.runs[|m.runs|].Idle()
  {
    var n, m1 := |m.runs|, Next(m, Begin(co));
    assert Ledger(m1).runs == Ledger(m).runs + [(co, Drain(m.registry))];
    assert Matches(ModulesRun.Take(w, co), m1);
    var f, levels := LevelOf(w.registry), Ascending(w.registry.Keys);
    assert Leveled(f, levels) by {
      BucketLevels(w.pending);
    }
    assert m1.runs[n].drained[0..] == FlatMap(f, levels);
    var more := LevelsMatch(ModulesRun.Take(w, co), m1, n, f, levels, timing);
    turns := [Begin(co)] + more;
  }

  ghost predicate AllIdle(m: Machine) {
    forall n :: 0 <= n < |m.runs| ==> m.runs[n].Idle()
  }

  lemma OpMatches(w: ModulesRun.World, m: Machine, op: Op) returns (turns: seq<Turn>)
    requires Matches(w, m) && Accounts(w) && AllIdle(m)
    ensures Matches(Perform(w, op), Run(m, turns)) && AllIdle(Run(m, turns))
  {
    if op.Init? {
      turns := RunMatches(w, m, op.co, op.timing);
      var m' := Run(m, turns);
      assert forall n :: 0 <= n < |m.runs| ==> m'.runs[n] == m'.runs[..|m.runs|][n];
    } else if op.valid {
      ActMatches(w, m, ModulesRun.Register(op.level, op.kind));
      turns := [Turn.Register(op.level, op.kind)];
    } else {
      turns := [];
    }
  }

  lemma {:induction false} OpsMatch(w: ModulesRun.World, m: Machine, ops: seq<Op>) returns (turns: seq<Turn>)
    requires Matches(w, m) && Balanced(w) && AllIdle(m)
    ensures Matches(PerformAll(w, ops), Run(m, turns)) && AllIdle(Run(m, turns))
    decreases |ops|
  {
    if ops == [] {
      turns := [];
    } else {
      var first := OpMatches(w, m, ops[0]);
      PerformKeeps(w, ops[0]);
      hide Matches, Balanced, AllIdle;
      var more := OpsMatch(Perform(w, ops[0]), Run(m, first), ops[1..]);
      RunConcat(m, first, more);
      turns := first + more;
    }
  }

  /** Every history of registrations and runs under every timing is a schedule of the machine, in which each run
      has nothing left to do. */
  lemma HistoryIsSchedule(ops: seq<Op>) returns (turns: seq<Turn>)
    ensures Matches(PerformAll(ModulesRun.BLANK, ops), Run(START, turns)) && AllIdle(Run(START, turns))
  {
    assert Ids(AllRegs(ModulesRun.BLANK)) == [];
    turns := OpsMatch(ModulesRun.BLANK, START, ops);
  }
}
