/** The initialisation runs of libgs::modules under every timing of the asynchronous futures. */
module ModulesRun {
  import opened Sequences
  import opened ModulesOrder

  datatype Event = Start(reg: Reg) | Finish(reg: Reg)

  /** What may happen while an initialiser or a wait is in progress: a launched future completes, or user code
      registers another initialiser. */
  datatype Act = Complete(reg: Reg) | Register(level: nat, kind: Kind)

  /** The timing: what happens at the n-th point where other code can run. */
  type Timing = nat -> seq<Act>

  /** pending and runs are the accounts of the registrations not yet drained and of those every run drained, with
      the kind of run; the registry is what the program really keeps. */
  datatype World = World(
    registry: Registry, nextId: nat, outstanding: set<Reg>, log: seq<Event>, clock: nat,
    pending: seq<Reg>, runs: seq<(bool, seq<Reg>)>)

  const BLANK := World(map[], 0, {}, [], 0, [], [])

  function Enter(w: World, level: nat, kind: Kind): World {
    var r := Reg(w.nextId, level, kind);
    w.(registry := Add(w.registry, r), nextId := w.nextId + 1, pending := w.pending + [r])
  }

  function Happen(w: World, a: Act): World {
    match a
    case Complete(r) =>
      if r in w.outstanding then w.(outstanding := w.outstanding - {r}, log := w.log + [Finish(r)]) else w
    case Register(level, kind) => Enter(w, level, kind)
  }

  function HappenAll(w: World, acts: seq<Act>): World
    decreases |acts|
  {
    if acts == [] then w else HappenAll(Happen(w, acts[0]), acts[1..])
  }

  function Yield(w: World, timing: Timing): World {
    HappenAll(w, timing(w.clock)).(clock := w.clock + 1)
  }

  function Log(w: World, e: Event): World {
    w.(log := w.log + [e])
  }

  /** run_init skips awaitable initialisers. */
  predicate Executes(co: bool, r: Reg) {
    co || !r.kind.Await?
  }

  /** One initialiser: a plain one runs to its end, an awaitable one is awaited, a future is only launched. */
  function Call(w: World, co: bool, r: Reg, timing: Timing): World {
    if !Executes(co, r) then w
    else if r.kind.Future? then
      var launched := Log(w, Start(r));
      Yield(launched.(outstanding := launched.outstanding + {r}), timing)
    else
      Log(Yield(Log(w, Start(r)), timing), Finish(r))
  }

  function CallAll(w: World, co: bool, rs: seq<Reg>, timing: Timing): World
    decreases |rs|
  {
    if rs == [] then w else CallAll(Call(w, co, rs[0], timing), co, rs[1..], timing)
  }

  /** The wait on one future returns when it has completed. */
  function Wait(w: World, r: Reg, timing: Timing): World {
    Happen(Yield(w, timing), Complete(r))
  }

  function WaitAll(w: World, rs: seq<Reg>, timing: Timing): World
    decreases |rs|
  {
    if rs == [] then w else WaitAll(if rs[0].kind.Future? then Wait(w, rs[0], timing) else w, rs[1..], timing)
  }

  /** All functions of a level, then the barrier. */
  function RunLevel(w: World, co: bool, rs: seq<Reg>, timing: Timing): World {
    WaitAll(CallAll(w, co, rs, timing), rs, timing)
  }

  function RunLevels(w: World, co: bool, f: nat -> seq<Reg>, levels: seq<nat>, timing: Timing): World
    decreases |levels|
  {
    if levels == [] then w else RunLevels(RunLevel(w, co, f(levels[0]), timing), co, f, levels[1..], timing)
  }

  /** The registry is moved out first, so registrations made from now on wait for a later run. */
  function Take(w: World, co: bool): World {
    w.(registry := map[], pending := [], runs := w.runs + [(co, Drain(w.registry))])
  }

  function RunInit(w: World, co: bool, timing: Timing): World {
    RunLevels(Take(w, co), co, LevelOf(w.registry), Ascending(w.registry.Keys), timing)
  }

  // ---- Order of starts ----

  function Started(e: Event): seq<Reg> {
    if e.Start? then [e.reg] else []
  }

  function Starts(log: seq<Event>): seq<Reg> {
    FlatMap(Started, log)
  }

  function Executed(co: bool): Reg -> seq<Reg> {
    (r: Reg) => if Executes(co, r) then [r] else []
  }

  /** What a stretch of execution between two worlds leaves alone: it only adds to the log, and the ledger of runs
      and the registrations already made are kept. */
  ghost predicate Extends(w: World, w': World, chunk: seq<Event>) {
    w'.log == w.log + chunk && w'.runs == w.runs
  }

  lemma {:induction false} HappenAllExtends(w: World, acts: seq<Act>) returns (chunk: seq<Event>)
    ensures Extends(w, HappenAll(w, acts), chunk)
    ensures forall e :: e in chunk ==> e.Finish?
    decreases |acts|
  {
    if acts == [] {
      chunk := [];
    } else {
      var next := Happen(w, acts[0]);
      var later := HappenAllExtends(next, acts[1..]);
      chunk := next.log[|w.log|..] + later;
    }
  }

  lemma {:induction false} NoStarts(chunk: seq<Event>)
    requires forall e :: e in chunk ==> e.Finish?
    ensures Starts(chunk) == []
  {
    if chunk != [] {
      assert chunk[0] in chunk && forall e :: e in chunk[1..] ==> e in chunk;
      NoStarts(chunk[1..]);
    }
  }

  /** Plain and awaitable initialisers finish before anything else starts. */
  ghost predicate Serial(log: seq<Event>) {
    forall i :: 0 <= i < |log| && log[i].Start? && !log[i].reg.kind.Future? ==> Closed(log, i)
  }

  ghost predicate Closed(log: seq<Event>, i: nat)
    requires i < |log|
  {
    exists k :: i < k < |log| && log[k] == Finish(log[i].reg) && forall j :: i < j < k ==> log[j].Finish?
  }

  lemma ClosedStays(a: seq<Event>, b: seq<Event>, i: nat)
    requires i < |a| && Closed(a, i)
    ensures Closed(a + b, i)
  {
    var k :| i < k < |a| && a[k] == Finish(a[i].reg) && forall j :: i < j < k ==> a[j].Finish?;
    assert (a + b)[k] == Finish((a + b)[i].reg);
  }

  lemma SerialConcat(a: seq<Event>, b: seq<Event>)
    requires Serial(a) && Serial(b)
    ensures Serial(a + b)
  {
    var c := a + b;
    forall i | 0 <= i < |c| && c[i].Start? && !c[i].reg.kind.Future? ensures Closed(c, i) {
      if i < |a| {
        ClosedStays(a, b, i);
      } else {
        var n := i - |a|;
        assert b[n] == c[i] && Closed(b, n);
        var k :| n < k < |b| && b[k] == Finish(b[n].reg) && forall j :: n < j < k ==> b[j].Finish?;
        assert c[k + |a|] == b[k];
        forall j | i < j < k + |a| ensures c[j].Finish? {
          assert c[j] == b[j - |a|];
        }
      }
    }
  }

  lemma SerialFinishes(chunk: seq<Event>)
    requires forall e :: e in chunk ==> e.Finish?
    ensures Serial(chunk)
  {
    assert forall i :: 0 <= i < |chunk| ==> chunk[i] in chunk;
  }

  lemma SerialStart(r: Reg, tail: seq<Event>)
    requires forall e :: e in tail ==> e.Finish?
    requires !r.kind.Future? ==> tail != [] && tail[|tail| - 1] == Finish(r)
    ensures Serial([Start(r)] + tail)
  {
    var chunk := [Start(r)] + tail;
    assert forall i :: 0 < i < |chunk| ==> chunk[i] == tail[i - 1] && tail[i - 1] in tail;
    if !r.kind.Future? {
      assert chunk[|chunk| - 1] == Finish(r);
      assert Closed(chunk, 0);
    }
  }

  /** One call. */
  lemma CallExtends(w: World, co: bool, r: Reg, timing: Timing) returns (chunk: seq<Event>)
    ensures Extends(w, Call(w, co, r, timing), chunk)
    ensures Starts(chunk) == Executed(co)(r) && Serial(chunk)
  {
    if !Executes(co, r) {
      chunk := [];
    } else {
      var launched := Log(w, Start(r));
      if r.kind.Future? {
        var mid := launched.(outstanding := launched.outstanding + {r});
        var inner := HappenAllExtends(mid, timing(mid.clock));
        NoStarts(inner);
        SerialStart(r, inner);
        chunk := [Start(r)] + inner;
      } else {
        var inner := HappenAllExtends(launched, timing(launched.clock));
        var tail := inner + [Finish(r)];
        assert forall e :: e in tail ==> e.Finish?;
        NoStarts(tail);
        SerialStart(r, tail);
        chunk := [Start(r)] + tail;
      }
    }
  }

  lemma StartsConcat(a: seq<Event>, b: seq<Event>)
    ensures Starts(a + b) == Starts(a) + Starts(b)
  {
    FlatMapConcat(Started, a, b);
  }

  lemma {:induction false} CallAllExtends(w: World, co: bool, rs: seq<Reg>, timing: Timing) returns (chunk: seq<Event>)
    ensures Extends(w, CallAll(w, co, rs, timing), chunk)
    ensures Starts(chunk) == FlatMap(Executed(co), rs) && Serial(chunk)
    decreases |rs|
  {
    if rs == [] {
      chunk := [];
      SerialFinishes(chunk);
    } else {
      hide Serial, Call, FlatMap, Starts;
      var a := CallExtends(w, co, rs[0], timing);
      var b := CallAllExtends(Call(w, co, rs[0], timing), co, rs[1..], timing);
      chunk := a + b;
      StartsConcat(a, b);
      FlatMapHead(Executed(co), rs);
      SerialConcat(a, b);
    }
  }

  lemma {:induction false} WaitAllExtends(w: World, rs: seq<Reg>, timing: Timing) returns (chunk: seq<Event>)
    ensures Extends(w, WaitAll(w, rs, timing), chunk)
    ensures forall e :: e in chunk ==> e.Finish?
    decreases |rs|
  {
    if rs == [] {
      chunk := [];
    } else {
      var next, a := w, [];
      if rs[0].kind.Future? {
        next := Wait(w, rs[0], timing);
        a := HappenAllExtends(w, timing(w.clock));
        a := a + next.log[|Yield(w, timing).log|..];
      }
      var b := WaitAllExtends(next, rs[1..], timing);
      chunk := a + b;
    }
  }

  lemma RunLevelExtends(w: World, co: bool, rs: seq<Reg>, timing: Timing) returns (chunk: seq<Event>)
    ensures Extends(w, RunLevel(w, co, rs, timing), chunk)
    ensures Starts(chunk) == FlatMap(Executed(co), rs) && Serial(chunk)
  {
    hide Serial, Starts, FlatMap, CallAll, WaitAll;
    var a := CallAllExtends(w, co, rs, timing);
    var b := WaitAllExtends(CallAll(w, co, rs, timing), rs, timing);
    chunk := a + b;
    StartsConcat(a, b);
    NoStarts(b);
    SerialFinishes(b);
    SerialConcat(a, b);
  }

  // ---- The barrier ----

  ghost predicate Finished(log: seq<Event>, r: Reg) {
    Finish(r) in log
  }

  /** Launched futures that have not finished are still outstanding. */
  lemma {:induction false} HappenAllOutstanding(w: World, acts: seq<Act>, r: Reg)
    requires r in w.outstanding || Finished(w.log, r)
    ensures r in HappenAll(w, acts).outstanding || Finished(HappenAll(w, acts).log, r)
    ensures Finished(w.log, r) ==> Finished(HappenAll(w, acts).log, r)
    decreases |acts|
  {
    if acts != [] {
      HappenAllOutstanding(Happen(w, acts[0]), acts[1..], r);
    }
  }

  ghost predicate Underway(w: World, r: Reg) {
    Finished(w.log, r) || (r.kind.Future? && r in w.outstanding)
  }

  lemma CallUnderway(w: World, co: bool, r: Reg, timing: Timing, other: Reg)
    requires Underway(w, other) || (other == r && Executes(co, r))
    ensures Underway(Call(w, co, r, timing), other)
  {
    if Executes(co, r) {
      var launched := Log(w, Start(r));
      if r.kind.Future? {
        var mid := launched.(outstanding := launched.outstanding + {r});
        HappenAllOutstanding(mid, timing(mid.clock), other);
      } else if other != r {
        HappenAllOutstanding(launched, timing(launched.clock), other);
      }
    }
  }

  lemma {:induction false} CallAllUnderway(w: World, co: bool, rs: seq<Reg>, timing: Timing, other: Reg)
    requires Underway(w, other) || (other in rs && Executes(co, other))
    ensures Underway(CallAll(w, co, rs, timing), other)
    decreases |rs|
  {
    if rs != [] {
      if Underway(w, other) || other == rs[0] {
        CallUnderway(w, co, rs[0], timing, other);
      }
      CallAllUnderway(Call(w, co, rs[0], timing), co, rs[1..], timing, other);
    }
  }

  lemma {:induction false} WaitAllFinishes(w: World, rs: seq<Reg>, timing: Timing, other: Reg)
    requires Underway(w, other) && (Finished(w.log, other) || other in rs)
    ensures Finished(WaitAll(w, rs, timing).log, other)
    decreases |rs|
  {
    if rs != [] {
      var next := w;
      if rs[0].kind.Future? {
        next := Wait(w, rs[0], timing);
        HappenAllOutstanding(w, timing(w.clock), other);
      }
      WaitAllFinishes(next, rs[1..], timing, other);
    }
  }

  /** Behind the barrier of a level every executed function of the level has finished, futures included. */
  lemma LevelFinishes(w: World, co: bool, rs: seq<Reg>, timing: Timing, r: Reg)
    requires r in rs && Executes(co, r)
    ensures Finished(RunLevel(w, co, rs, timing).log, r)
  {
    CallAllUnderway(w, co, rs, timing, r);
    WaitAllFinishes(CallAll(w, co, rs, timing), rs, timing, r);
  }

  /** In the part of the log that a run adds, whenever a function starts, every executed function of a lower level
      of that run has finished. */
  ghost predicate Barrier(log: seq<Event>, from: nat, co: bool, rs: seq<Reg>) {
    forall i, r :: from <= i < |log| && log[i].Start? && r in rs && Executes(co, r) && r.level < log[i].reg.level ==>
      Finished(log[..i], r)
  }

  /** Everything a run owes: it starts the executed functions in order, serially, behind the barriers. */
  ghost predicate RunsAll(w: World, w': World, chunk: seq<Event>, co: bool, rs: seq<Reg>) {
    && Extends(w, w', chunk)
    && Starts(chunk) == FlatMap(Executed(co), rs)
    && Serial(chunk)
    && Barrier(w.log + chunk, |w.log|, co, rs)
  }

  lemma {:induction false} RunLevelsOrder(w: World, co: bool, f: nat -> seq<Reg>, levels: seq<nat>, timing: Timing)
    returns (chunk: seq<Event>)
    requires Increasing(levels)
    requires forall level, r :: level in levels && r in f(level) ==> r.level == level
    ensures RunsAll(w, RunLevels(w, co, f, levels, timing), chunk, co, FlatMap(f, levels))
    decreases |levels|
  {
    if levels == [] {
      chunk := [];
      SerialFinishes(chunk);
    } else {
      hide RunLevel, RunsAll, Increasing;
      TailIncreasing(levels);
      var mid := RunLevel(w, co, f(levels[0]), timing);
      var b := RunLevelsOrder(mid, co, f, levels[1..], timing);
      chunk := OneMoreLevel(w, co, f, levels, timing, RunLevels(mid, co, f, levels[1..], timing), b);
    }
  }

  lemma OneMoreLevel(w: World, co: bool, f: nat -> seq<Reg>, levels: seq<nat>, timing: Timing, end: World, b: seq<Event>)
    returns (chunk: seq<Event>)
    requires levels != [] && Increasing(levels)
    requires forall level, r :: level in levels && r in f(level) ==> r.level == level
    requires RunsAll(RunLevel(w, co, f(levels[0]), timing), end, b, co, FlatMap(f, levels[1..]))
    ensures RunsAll(w, end, chunk, co, FlatMap(f, levels))
  {
    hide RunLevel, Serial, Barrier, Increasing, Starts, FlatMap;
    var own := f(levels[0]);
    var mid := RunLevel(w, co, own, timing);
    var a := FirstLevel(w, co, own, timing);
    chunk := a + b;
    assert w.log + chunk == mid.log + b;
    assert Starts(chunk) == FlatMap(Executed(co), FlatMap(f, levels)) by {
      StartsConcat(a, b);
      FlatMapHead(f, levels);
      FlatMapConcat(Executed(co), own, FlatMap(f, levels[1..]));
    }
    assert Serial(chunk) by {
      SerialConcat(a, b);
    }
    assert Barrier(mid.log + b, |w.log|, co, FlatMap(f, levels)) by {
      BarrierCons(|w.log|, mid.log, b, co, f, levels);
    }
  }

  lemma TailIncreasing(levels: seq<nat>)
    requires levels != [] && Increasing(levels)
    ensures Increasing(levels[1..])
    ensures forall level :: level in levels[1..] ==> level in levels
  {
  }

  /** What one level contributes. */
  lemma FirstLevel(w: World, co: bool, own: seq<Reg>, timing: Timing) returns (a: seq<Event>)
    ensures var mid := RunLevel(w, co, own, timing);
            && Extends(w, mid, a) && Starts(a) == FlatMap(Executed(co), own) && Serial(a)
            && (forall j :: |w.log| <= j < |mid.log| && mid.log[j].Start? ==> mid.log[j].reg in own)
            && (forall q :: q in own && Executes(co, q) ==> Finished(mid.log, q))
  {
    hide RunLevel, Serial;
    var mid := RunLevel(w, co, own, timing);
    a := RunLevelExtends(w, co, own, timing);
    StartsAreOf(a, co, own);
    assert forall j :: |w.log| <= j < |mid.log| ==> mid.log[j] == a[j - |w.log|];
    forall q | q in own && Executes(co, q) ensures Finished(mid.log, q) {
      LevelFinishes(w, co, own, timing, q);
    }
  }

  lemma BarrierCons(from: nat, mid: seq<Event>, b: seq<Event>, co: bool, f: nat -> seq<Reg>, levels: seq<nat>)
    requires levels != [] && Increasing(levels) && from <= |mid|
    requires forall level, q :: level in levels && q in f(level) ==> q.level == level
    requires forall j :: from <= j < |mid| && mid[j].Start? ==> mid[j].reg in f(levels[0])
    requires forall q :: q in f(levels[0]) && Executes(co, q) ==> Finished(mid, q)
    requires Barrier(mid + b, |mid|, co, FlatMap(f, levels[1..]))
    ensures Barrier(mid + b, from, co, FlatMap(f, levels))
  {
    var log, rs := mid + b, FlatMap(f, levels);
    forall i, r | from <= i < |log| && log[i].Start? && r in rs && Executes(co, r) && r.level < log[i].reg.level
      ensures Finished(log[..i], r)
    {
      BarrierCase(from, mid, b, co, f, levels, i, r);
    }
  }

  /** The registrations that start in a chunk are among those it was given. */
  lemma StartsAreOf(chunk: seq<Event>, co: bool, rs: seq<Reg>)
    requires Starts(chunk) == FlatMap(Executed(co), rs)
    ensures forall i :: 0 <= i < |chunk| && chunk[i].Start? ==> chunk[i].reg in rs
  {
    forall i | 0 <= i < |chunk| && chunk[i].Start? ensures chunk[i].reg in rs {
      var r := chunk[i].reg;
      assert chunk[i] in chunk && r in Started(chunk[i]);
      FlatMapIn(Started, chunk, r);
      FlatMapIn(Executed(co), rs, r);
    }
  }

  lemma BarrierCase(from: nat, mid: seq<Event>, b: seq<Event>, co: bool, f: nat -> seq<Reg>, levels: seq<nat>,
                    i: nat, r: Reg)
    requires levels != [] && Increasing(levels) && from <= |mid|
    requires forall level, q :: level in levels && q in f(level) ==> q.level == level
    requires forall j :: from <= j < |mid| && mid[j].Start? ==> mid[j].reg in f(levels[0])
    requires forall q :: q in f(levels[0]) && Executes(co, q) ==> Finished(mid, q)
    requires Barrier(mid + b, |mid|, co, FlatMap(f, levels[1..]))
    requires from <= i < |mid + b| && (mid + b)[i].Start? && r.level < (mid + b)[i].reg.level
    requires r in FlatMap(f, levels) && Executes(co, r)
    ensures Finished((mid + b)[..i], r)
  {
    FlatMapIn(f, levels, r);
    var level :| level in levels && r in f(level);
    var n :| 0 <= n < |levels| && levels[n] == level;
    assert levels[0] <= levels[n] == r.level;
    if i < |mid| {
    } else if n == 0 {
      assert (mid + b)[..i] == mid + b[..i - |mid|];
    } else {
      assert level == levels[1..][n - 1];
      FlatMapIn(f, levels[1..], r);
    }
  }

  // ---- Futures of one level run together ----

  /** No launched future completes by itself. */
  ghost predicate Lazy(timing: Timing) {
    forall n, a :: a in timing(n) ==> !a.Complete?
  }

  /** The log has only grown, without the end of a future. */
  ghost predicate NoFutureEnds(log: seq<Event>, log': seq<Event>) {
    log <= log' && forall i :: |log| <= i < |log'| && log'[i].Finish? ==> !log'[i].reg.kind.Future?
  }

  lemma {:induction false} LazyHappens(w: World, acts: seq<Act>)
    requires forall a :: a in acts ==> !a.Complete?
    ensures HappenAll(w, acts).log == w.log
    decreases |acts|
  {
    if acts != [] {
      assert acts[0] in acts && forall a :: a in acts[1..] ==> a in acts;
      LazyHappens(Happen(w, acts[0]), acts[1..]);
    }
  }

  lemma LazyCall(w: World, co: bool, r: Reg, timing: Timing)
    requires Lazy(timing)
    ensures NoFutureEnds(w.log, Call(w, co, r, timing).log)
  {
    var launched := Log(w, Start(r));
    LazyHappens(launched, timing(launched.clock));
    LazyHappens(launched.(outstanding := launched.outstanding + {r}), timing(launched.clock));
  }

  lemma {:induction false} LazyCalls(w: World, co: bool, rs: seq<Reg>, timing: Timing)
    requires Lazy(timing)
    ensures NoFutureEnds(w.log, CallAll(w, co, rs, timing).log)
    decreases |rs|
  {
    if rs != [] {
      var next := Call(w, co, rs[0], timing);
      LazyCall(w, co, rs[0], timing);
      LazyCalls(next, co, rs[1..], timing);
      hide Call, CallAll;
      var log, mid, end := w.log, next.log, CallAll(next, co, rs[1..], timing).log;
      assert NoFutureEnds(log, mid) && NoFutureEnds(mid, end);
      forall i | |log| <= i < |end| && end[i].Finish? ensures !end[i].reg.kind.Future? {
        assert i < |mid| ==> end[i] == mid[i];
      }
    }
  }

  /** No run waits for a future before it has called everything of the level: when no future completes by itself, the
      part of the log that a level adds falls into all its starts, without the end of any future, and then only ends. */
  lemma LaunchedTogether(w: World, co: bool, rs: seq<Reg>, timing: Timing) returns (calls: seq<Event>, waits: seq<Event>)
    requires Lazy(timing)
    ensures RunLevel(w, co, rs, timing).log == w.log + calls + waits
    ensures Starts(calls) == FlatMap(Executed(co), rs)
    ensures forall e :: e in calls && e.Finish? ==> !e.reg.kind.Future?
    ensures forall e :: e in waits ==> e.Finish?
  {
    hide Serial, Starts, FlatMap, CallAll, WaitAll, Call;
    calls := CallAllExtends(w, co, rs, timing);
    waits := WaitAllExtends(CallAll(w, co, rs, timing), rs, timing);
    LazyCalls(w, co, rs, timing);
    var log := CallAll(w, co, rs, timing).log;
    forall e | e in calls && e.Finish? ensures !e.reg.kind.Future? {
      var i :| 0 <= i < |calls| && calls[i] == e;
      assert log[|w.log| + i] == e;
    }
  }
}
