/** Whole histories of registrations and initialisation runs. */
module ModulesHistory {
  import opened Sequences
  import opened ModulesOrder
  import opened ModulesRun

  /** A registration of a possibly empty function object, or a run. */
  datatype Op = RegInit(valid: bool, level: nat, kind: Kind) | Init(co: bool, timing: Timing)

  /** An empty function object is refused with an exception and leaves no trace. */
  function Perform(w: World, op: Op): World {
    match op
    case RegInit(valid, level, kind) => if valid then Enter(w, level, kind) else w
    case Init(co, timing) => RunInit(w, co, timing)
  }

  function PerformAll(w: World, ops: seq<Op>): World
    decreases |ops|
  {
    if ops == [] then w else PerformAll(Perform(w, ops[0]), ops[1..])
  }

  function Id(r: Reg): seq<nat> {
    [r.id]
  }

  function Drained(run: (bool, seq<Reg>)): seq<Reg> {
    run.1
  }

  function RunStarts(run: (bool, seq<Reg>)): seq<Reg> {
    FlatMap(Executed(run.0), run.1)
  }

  /** Every registration ever made, drained or pending. */
  function AllRegs(w: World): seq<Reg> {
    FlatMap(Drained, w.runs) + w.pending
  }

  function Ids(rs: seq<Reg>): seq<nat> {
    FlatMap(Id, rs)
  }

  /** The registry buckets exactly the pending registrations, and every number given out occurs exactly once
      among the drained and the pending registrations. */
  ghost predicate Accounts(w: World) {
    && w.registry == Bucket(w.pending)
    && NoDup(Ids(AllRegs(w)))
    && forall i: nat :: i in Ids(AllRegs(w)) <==> i < w.nextId
  }

  lemma EnterKeeps(w: World, level: nat, kind: Kind)
    requires Accounts(w)
    ensures Accounts(Enter(w, level, kind))
  {
    var r := Reg(w.nextId, level, kind);
    var w' := Enter(w, level, kind);
    assert w'.pending[..|w'.pending| - 1] == w.pending;
    assert AllRegs(w') == AllRegs(w) + [r];
    FlatMapConcat(Id, AllRegs(w), [r]);
    FlatMapOne(Id, r);
    var ids := Ids(AllRegs(w));
    NoDupConcat(ids, [r.id]);
    assert forall i: nat :: i in ids + [r.id] <==> i in ids || i == r.id;
    assert NoDup([r.id]);
  }

  lemma {:induction false} HappenAllKeeps(w: World, acts: seq<Act>)
    requires Accounts(w)
    ensures Accounts(HappenAll(w, acts))
    decreases |acts|
  {
    if acts != [] {
      if acts[0].Register? {
        EnterKeeps(w, acts[0].level, acts[0].kind);
      }
      HappenAllKeeps(Happen(w, acts[0]), acts[1..]);
    }
  }

  lemma CallKeeps(w: World, co: bool, r: Reg, timing: Timing)
    requires Accounts(w)
    ensures Accounts(Call(w, co, r, timing))
  {
    var launched := Log(w, Start(r));
    HappenAllKeeps(launched, timing(w.clock));
    HappenAllKeeps(launched.(outstanding := launched.outstanding + {r}), timing(w.clock));
  }

  lemma {:induction false} CallAllKeeps(w: World, co: bool, rs: seq<Reg>, timing: Timing)
    requires Accounts(w)
    ensures Accounts(CallAll(w, co, rs, timing))
    decreases |rs|
  {
    if rs != [] {
      hide Accounts;
      CallKeeps(w, co, rs[0], timing);
      CallAllKeeps(Call(w, co, rs[0], timing), co, rs[1..], timing);
    }
  }

  lemma {:induction false} WaitAllKeeps(w: World, rs: seq<Reg>, timing: Timing)
    requires Accounts(w)
    ensures Accounts(WaitAll(w, rs, timing))
    decreases |rs|
  {
    if rs != [] {
      HappenAllKeeps(w, timing(w.clock));
      WaitAllKeeps(if rs[0].kind.Future? then Wait(w, rs[0], timing) else w, rs[1..], timing);
    }
  }

  lemma {:induction false} RunLevelsKeeps(w: World, co: bool, f: nat -> seq<Reg>, levels: seq<nat>, timing: Timing)
    requires Accounts(w)
    ensures Accounts(RunLevels(w, co, f, levels, timing))
    decreases |levels|
  {
    if levels != [] {
      hide Accounts;
      CallAllKeeps(w, co, f(levels[0]), timing);
      WaitAllKeeps(CallAll(w, co, f(levels[0]), timing), f(levels[0]), timing);
      RunLevelsKeeps(RunLevel(w, co, f(levels[0]), timing), co, f, levels[1..], timing);
    }
  }

  /** Draining only moves registrations from pending to the new run. */
  lemma TakeKeeps(w: World, co: bool)
    requires Accounts(w)
    ensures Accounts(Take(w, co))
  {
    hide NoDup, Drain;
    var run, w' := (co, Drain(w.registry)), Take(w, co);
    FlatMapConcat(Drained, w.runs, [run]);
    FlatMapOne(Drained, run);
    var done := FlatMap(Drained, w.runs);
    DrainKeeps(w.pending);
    assert AllRegs(w') == done + Drain(w.registry) by {
      assert w'.pending == [];
    }
    SameIds(AllRegs(w), AllRegs(w'));
  }

  lemma SameIds(a: seq<Reg>, b: seq<Reg>)
    requires multiset(a) == multiset(b)
    ensures NoDup(Ids(a)) <==> NoDup(Ids(b))
    ensures forall i: nat :: i in Ids(a) <==> i in Ids(b)
  {
    hide NoDup;
    FlatMapPermutes(Id, a, b);
    NoDupPermutes(Ids(a), Ids(b));
    forall i: nat ensures i in Ids(a) <==> i in Ids(b) {
      assert i in Ids(a) <==> i in multiset(Ids(a));
      assert i in Ids(b) <==> i in multiset(Ids(b));
    }
  }

  lemma {:induction false} BucketLevels(regs: seq<Reg>)
    ensures forall level, r :: level in Bucket(regs) && r in LevelOf(Bucket(regs))(level) ==> r.level == level
  {
    forall level, r | level in Bucket(regs) && r in LevelOf(Bucket(regs))(level) ensures r.level == level {
      BucketHolds(regs, level);
      OfLevelMembers(regs, level);
    }
  }

  /** One run from any state, under any timing: it drains the registrations made since the previous run, and it
      starts the stable sort of them by level (run_init: without the awaitable ones), serially and behind the
      barriers. */
  lemma RunOrder(w: World, co: bool, timing: Timing) returns (chunk: seq<Event>, out: seq<Reg>)
    requires Accounts(w)
    ensures StableSortOf(w.pending, out)
    ensures var w' := RunInit(w, co, timing);
            && w'.log == w.log + chunk
            && w'.runs == w.runs + [(co, out)]
            && Starts(chunk) == FlatMap(Executed(co), out)
            && Serial(chunk)
            && Barrier(w'.log, |w.log|, co, out)
  {
    DrainSorts(w.pending);
    out := Drain(w.registry);
    BucketLevels(w.pending);
    hide StableSortOf, Serial, Barrier, Bucket, RunLevels;
    chunk := RunLevelsOrder(Take(w, co), co, LevelOf(w.registry), Ascending(w.registry.Keys), timing);
  }

  /** A stable sort has the same members. */
  lemma SortMembers(regs: seq<Reg>, out: seq<Reg>, r: Reg)
    requires StableSortOf(regs, out)
    ensures r in out <==> r in regs
  {
    OfLevelMembers(regs, r.level);
    OfLevelMembers(out, r.level);
    assert OfLevel(out, r.level) == OfLevel(regs, r.level);
  }

  lemma StartIn(log: seq<Event>, r: Reg)
    ensures r in Starts(log) <==> Start(r) in log
  {
    FlatMapIn(Started, log, r);
    assert forall e :: r in Started(e) <==> e == Start(r);
  }

  /** The starts of a list of functions: co_run_init starts them all, run_init the plain ones and the futures and no
      awaitable one, whatever their level. */
  ghost predicate StartsExactly(log: seq<Event>, log': seq<Event>, co: bool, rs: seq<Reg>) {
    && log <= log'
    && forall r :: Start(r) in log'[|log|..] <==> r in rs && (co || r.kind.Plain? || r.kind.Future?)
  }

  lemma ExecutedStarts(chunk: seq<Event>, co: bool, rs: seq<Reg>, r: Reg)
    requires Starts(chunk) == FlatMap(Executed(co), rs)
    ensures Start(r) in chunk <==> r in rs && (co || r.kind.Plain? || r.kind.Future?)
  {
    StartIn(chunk, r);
    FlatMapIn(Executed(co), rs, r);
    assert forall x :: r in Executed(co)(x) <==> x == r && (co || r.kind.Plain? || r.kind.Future?);
  }

  /** What the loops over one level start. */
  lemma LevelStartsExactly(w: World, co: bool, rs: seq<Reg>, timing: Timing)
    ensures StartsExactly(w.log, RunLevel(w, co, rs, timing).log, co, rs)
  {
    var chunk := RunLevelExtends(w, co, rs, timing);
    hide RunLevel, Starts, FlatMap;
    forall r ensures Start(r) in chunk <==> r in rs && (co || r.kind.Plain? || r.kind.Future?) {
      ExecutedStarts(chunk, co, rs, r);
    }
    assert RunLevel(w, co, rs, timing).log[|w.log|..] == chunk;
  }

  /** What a whole run starts: of everything that was pending. */
  lemma RunStartsExactly(w: World, co: bool, timing: Timing)
    requires Accounts(w)
    ensures StartsExactly(w.log, RunInit(w, co, timing).log, co, w.pending)
  {
    var chunk, out := RunOrder(w, co, timing);
    hide RunInit, StableSortOf, Accounts, Starts, FlatMap;
    forall r ensures Start(r) in chunk <==> r in w.pending && (co || r.kind.Plain? || r.kind.Future?) {
      ExecutedStarts(chunk, co, out, r);
      SortMembers(w.pending, out, r);
    }
    assert RunInit(w, co, timing).log[|w.log|..] == chunk;
  }

  lemma RunKeeps(w: World, co: bool, timing: Timing)
    requires Accounts(w)
    ensures Accounts(RunInit(w, co, timing))
  {
    hide Accounts;
    TakeKeeps(w, co);
    RunLevelsKeeps(Take(w, co), co, LevelOf(w.registry), Ascending(w.registry.Keys), timing);
  }

  /** What every history keeps: the accounts balance, and what has started is what the runs drained. */
  ghost predicate Balanced(w: World) {
    Accounts(w) && Starts(w.log) == FlatMap(RunStarts, w.runs)
  }

  lemma PerformKeeps(w: World, op: Op)
    requires Balanced(w)
    ensures Balanced(Perform(w, op))
  {
    match op {
      case RegInit(valid, level, kind) =>
        EnterKeeps(w, level, kind);
      case Init(co, timing) =>
        hide Accounts;
        RunKeeps(w, co, timing);
        var chunk, out := RunOrder(w, co, timing);
        FlatMapConcat(Started, w.log, chunk);
        FlatMapConcat(RunStarts, w.runs, [(co, out)]);
        FlatMapOne(RunStarts, (co, out));
    }
  }

  lemma {:induction false} PerformAllKeeps(w: World, ops: seq<Op>)
    requires Balanced(w)
    ensures Balanced(PerformAll(w, ops))
    decreases |ops|
  {
    if ops != [] {
      PerformKeeps(w, ops[0]);
      PerformAllKeeps(Perform(w, ops[0]), ops[1..]);
    }
  }

  lemma {:induction false} ExecutedIds(co: bool, rs: seq<Reg>, i: nat)
    ensures i in Ids(FlatMap(Executed(co), rs)) ==> i in Ids(rs)
    ensures NoDup(Ids(rs)) ==> NoDup(Ids(FlatMap(Executed(co), rs)))
  {
    if rs != [] {
      var own, later := Executed(co)(rs[0]), FlatMap(Executed(co), rs[1..]);
      FlatMapConcat(Id, own, later);
      FlatMapOne(Id, rs[0]);
      assert rs == [rs[0]] + rs[1..];
      NoDupConcat([rs[0].id], Ids(rs[1..]));
      NoDupConcat(Ids(own), Ids(later));
      ExecutedIds(co, rs[1..], i);
      ExecutedIds(co, rs[1..], rs[0].id);
      assert Ids(own) == [] || Ids(own) == [rs[0].id];
    }
  }

  lemma {:induction false} RunStartsIds(runs: seq<(bool, seq<Reg>)>)
    requires NoDup(Ids(FlatMap(Drained, runs)))
    ensures NoDup(Ids(FlatMap(RunStarts, runs)))
    ensures forall i: nat :: i in Ids(FlatMap(RunStarts, runs)) ==> i in Ids(FlatMap(Drained, runs))
  {
    if runs != [] {
      var a, b := runs[0].1, FlatMap(Drained, runs[1..]);
      var a', b' := RunStarts(runs[0]), FlatMap(RunStarts, runs[1..]);
      FlatMapConcat(Id, a, b);
      FlatMapConcat(Id, a', b');
      NoDupConcat(Ids(a), Ids(b));
      NoDupConcat(Ids(a'), Ids(b'));
      RunStartsIds(runs[1..]);
      forall i: nat ensures i in Ids(a') ==> i in Ids(a) {
        ExecutedIds(runs[0].0, a, i);
      }
      ExecutedIds(runs[0].0, a, 0);
    }
  }

  /** Over every history of registrations and runs under any timing: each registration is consumed by exactly one
      run or still pending; what has started is, run by run, what was drained, awaitable initialisers of run_init
      left out; and nothing has started twice. */
  lemma ExactlyOnce(ops: seq<Op>)
    ensures var w := PerformAll(BLANK, ops);
            && NoDup(Ids(FlatMap(Drained, w.runs) + w.pending))
            && (forall i: nat :: i in Ids(FlatMap(Drained, w.runs) + w.pending) <==> i < w.nextId)
            && Starts(w.log) == FlatMap(RunStarts, w.runs)
            && NoDup(Ids(Starts(w.log)))
  {
    assert Ids(AllRegs(BLANK)) == [];
    PerformAllKeeps(BLANK, ops);
    var w := PerformAll(BLANK, ops);
    var done := FlatMap(Drained, w.runs);
    FlatMapConcat(Id, done, w.pending);
    NoDupConcat(Ids(done), Ids(w.pending));
    RunStartsIds(w.runs);
  }

  // ---- run_init and co_run_init ----

  lemma {:induction false} CallAllAgree(w: World, rs: seq<Reg>, timing: Timing)
    requires forall r :: r in rs ==> !r.kind.Await?
    ensures CallAll(w, true, rs, timing) == CallAll(w, false, rs, timing)
    decreases |rs|
  {
    if rs != [] {
      assert rs[0] in rs && forall r :: r in rs[1..] ==> r in rs;
      assert Call(w, true, rs[0], timing) == Call(w, false, rs[0], timing);
      CallAllAgree(Call(w, true, rs[0], timing), rs[1..], timing);
    }
  }

  /** Without awaitable initialisers the two kinds of run do the same under the same timing. */
  lemma {:induction false} RunsAgree(w: World, f: nat -> seq<Reg>, levels: seq<nat>, timing: Timing)
    requires forall level, r :: level in levels && r in f(level) ==> !r.kind.Await?
    ensures RunLevels(w, true, f, levels, timing) == RunLevels(w, false, f, levels, timing)
    decreases |levels|
  {
    if levels != [] {
      hide CallAll, WaitAll;
      assert levels[0] in levels && forall level :: level in levels[1..] ==> level in levels;
      CallAllAgree(w, f(levels[0]), timing);
      RunsAgree(RunLevel(w, true, f(levels[0]), timing), f, levels[1..], timing);
    }
  }

  /** co_run_init leaves nothing out. */
  lemma {:induction false} CoRunExecutesAll(rs: seq<Reg>)
    ensures FlatMap(Executed(true), rs) == rs
  {
    if rs != [] {
      CoRunExecutesAll(rs[1..]);
    }
  }
}
