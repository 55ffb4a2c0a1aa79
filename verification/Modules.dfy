/** libgs::modules as an object: the static registry and the loops of its two initialisation runs. */
module Modules {
  import opened ModulesOrder
  import opened ModulesRun
  import ModulesHistory

  function OnlyFutures(rs: seq<Reg>): seq<Reg> {
    if rs == [] then [] else (if rs[0].kind.Future? then [rs[0]] else []) + OnlyFutures(rs[1..])
  }

  lemma {:induction false} WaitOnlyFutures(w: World, rs: seq<Reg>, timing: Timing)
    ensures WaitAll(w, rs, timing) == WaitAll(w, OnlyFutures(rs), timing)
    decreases |rs|
  {
    if rs != [] {
      var next := if rs[0].kind.Future? then Wait(w, rs[0], timing) else w;
      WaitOnlyFutures(next, rs[1..], timing);
      if rs[0].kind.Future? {
        assert OnlyFutures(rs)[1..] == OnlyFutures(rs[1..]);
      } else {
        assert OnlyFutures(rs) == OnlyFutures(rs[1..]);
      }
    }
  }

  lemma {:induction false} OnlyFuturesNext(rs: seq<Reg>, n: nat)
    requires n < |rs|
    ensures OnlyFutures(rs[..n + 1]) == OnlyFutures(rs[..n]) + if rs[n].kind.Future? then [rs[n]] else []
  {
    if n > 0 {
      OnlyFuturesNext(rs[1..], n - 1);
      assert rs[..n + 1][1..] == rs[1..][..n] && rs[..n][1..] == rs[1..][..n - 1];
    }
  }

  lemma {:induction false} OnlyFuturesAre(rs: seq<Reg>)
    ensures forall i :: 0 <= i < |OnlyFutures(rs)| ==> OnlyFutures(rs)[i].kind.Future?
  {
    if rs != [] {
      OnlyFuturesAre(rs[1..]);
    }
  }

  class Modules {
    var initMap: Registry
    var nextId: nat
    var outstanding: set<Reg>
    var log: seq<Event>
    var clock: nat
    ghost var pending: seq<Reg>
    ghost var runs: seq<(bool, seq<Reg>)>

    ghost function Abs(): World
      reads this
    {
      World(initMap, nextId, outstanding, log, clock, pending, runs)
    }

    constructor ()
      ensures Abs() == BLANK
    {
      initMap, nextId, outstanding, log, clock, pending, runs := map[], 0, {}, [], 0, [], [];
    }

    /** ok is false when the original throws. */
    method RegInit(valid: bool, level: nat, kind: Kind) returns (ok: bool)
      modifies this
      ensures ok == valid
      ensures Abs() == if valid then Enter(old(Abs()), level, kind) else old(Abs())
      ensures pending == old(pending) + if valid then [Reg(old(nextId), level, kind)] else []
    {
      if !valid {
        return false;
      }
      var r := Reg(nextId, level, kind);
      initMap := initMap[level := (if level in initMap then initMap[level] else []) + [r]];
      nextId := nextId + 1;
      pending := pending + [r];
      return true;
    }

    /** A launched future completes. */
    method CompleteFuture(r: Reg)
      modifies this
      ensures Abs() == Happen(old(Abs()), Act.Complete(r))
    {
      if r in outstanding {
        outstanding := outstanding - {r};
        log := log + [Finish(r)];
      }
    }

    /** Other code runs: futures complete and initialisers are registered. */
    method OtherCode(timing: Timing)
      modifies this
      ensures Abs() == Yield(old(Abs()), timing)
    {
      var acts := timing(clock);
      for n := 0 to |acts|
        invariant HappenAll(Abs(), acts[n..]) == HappenAll(old(Abs()), acts)
        invariant clock == old(clock)
      {
        match acts[n] {
          case Complete(r) => CompleteFuture(r);
          case Register(level, kind) => var _ := RegInit(true, level, kind);
        }
        assert acts[n..][1..] == acts[n + 1..];
      }
      ClockApart(old(Abs()), acts);
      clock := clock + 1;
    }

    /** Call a plain initialiser or await an awaitable one. */
    method Invoke(r: Reg, timing: Timing)
      requires !r.kind.Future?
      modifies this
      ensures Abs() == Call(old(Abs()), true, r, timing)
    {
      log := log + [Start(r)];
      OtherCode(timing);
      log := log + [Finish(r)];
    }

    method Launch(r: Reg, timing: Timing)
      requires r.kind.Future?
      modifies this
      ensures Abs() == Call(old(Abs()), true, r, timing)
    {
      log := log + [Start(r)];
      outstanding := outstanding + {r};
      OtherCode(timing);
    }

    method WaitFor(r: Reg, timing: Timing)
      modifies this
      ensures Abs() == Wait(old(Abs()), r, timing)
    {
      OtherCode(timing);
      CompleteFuture(r);
    }

    /** The barrier at the end of a level. */
    method WaitForAll(futureList: seq<Reg>, timing: Timing)
      requires forall i :: 0 <= i < |futureList| ==> futureList[i].kind.Future?
      modifies this
      ensures Abs() == WaitAll(old(Abs()), futureList, timing)
    {
      for n := 0 to |futureList|
        invariant WaitAll(Abs(), futureList[n..], timing) == WaitAll(old(Abs()), futureList, timing)
      {
        WaitFor(futureList[n], timing);
        assert futureList[n..][1..] == futureList[n + 1..];
      }
    }

    method RunInitLevel(funcList: seq<Reg>, timing: Timing)
      modifies this
      ensures Abs() == RunLevel(old(Abs()), false, funcList, timing)
      ensures ModulesHistory.StartsExactly(old(log), log, false, funcList)
    {
      ModulesHistory.LevelStartsExactly(Abs(), false, funcList, timing);
      var futureList: seq<Reg> := [];
      for n := 0 to |funcList|
        invariant CallAll(Abs(), false, funcList[n..], timing) == CallAll(old(Abs()), false, funcList, timing)
        invariant futureList == OnlyFutures(funcList[..n])
      {
        var func := funcList[n];
        OnlyFuturesNext(funcList, n);
        assert funcList[n..][1..] == funcList[n + 1..];
        if func.kind.Plain? {
          Invoke(func, timing);
        } else if func.kind.Future? {
          Launch(func, timing);
          futureList := futureList + [func];
        }
      }
      assert funcList[..|funcList|] == funcList;
      OnlyFuturesAre(funcList);
      WaitOnlyFutures(Abs(), funcList, timing);
      WaitForAll(futureList, timing);
    }

    method CoRunInitLevel(funcList: seq<Reg>, timing: Timing)
      modifies this
      ensures Abs() == RunLevel(old(Abs()), true, funcList, timing)
      ensures ModulesHistory.StartsExactly(old(log), log, true, funcList)
    {
      ModulesHistory.LevelStartsExactly(Abs(), true, funcList, timing);
      var futureList: seq<Reg> := [];
      for n := 0 to |funcList|
        invariant CallAll(Abs(), true, funcList[n..], timing) == CallAll(old(Abs()), true, funcList, timing)
        invariant futureList == OnlyFutures(funcList[..n])
      {
        var func := funcList[n];
        OnlyFuturesNext(funcList, n);
        assert funcList[n..][1..] == funcList[n + 1..];
        if func.kind.Plain? {
          Invoke(func, timing);
        } else if func.kind.Future? {
          Launch(func, timing);
          futureList := futureList + [func];
        } else {
          Invoke(func, timing);
        }
      }
      assert funcList[..|funcList|] == funcList;
      OnlyFuturesAre(funcList);
      WaitOnlyFutures(Abs(), funcList, timing);
      WaitForAll(futureList, timing);
    }

    method TakeMap(co: bool) returns (m: Registry)
      modifies this
      ensures m == old(initMap) && Abs() == Take(old(Abs()), co)
    {
      m := initMap;
      runs := runs + [(co, Drain(initMap))];
      initMap, pending := map[], [];
    }

    method DoRunInit(timing: Timing)
      modifies this
      ensures Abs() == RunInit(old(Abs()), false, timing)
      ensures old(ModulesHistory.Accounts(Abs())) ==> ModulesHistory.StartsExactly(old(log), log, false, old(pending))
    {
      hide ModulesHistory.Accounts, ModulesHistory.StartsExactly;
      if ModulesHistory.Accounts(Abs()) {
        ModulesHistory.RunStartsExactly(Abs(), false, timing);
      }
      var m := TakeMap(false);
      ghost var taken := Abs();
      var levels := Ascending(m.Keys);
      for n := 0 to |levels|
        invariant RunLevels(Abs(), false, LevelOf(m), levels[n..], timing) ==
                  RunLevels(taken, false, LevelOf(m), levels, timing)
      {
        assert levels[n] in levels && levels[n..][1..] == levels[n + 1..];
        RunInitLevel(m[levels[n]], timing);
      }
    }

    method DoCoRunInit(timing: Timing)
      modifies this
      ensures Abs() == RunInit(old(Abs()), true, timing)
      ensures old(ModulesHistory.Accounts(Abs())) ==> ModulesHistory.StartsExactly(old(log), log, true, old(pending))
    {
      hide ModulesHistory.Accounts, ModulesHistory.StartsExactly;
      if ModulesHistory.Accounts(Abs()) {
        ModulesHistory.RunStartsExactly(Abs(), true, timing);
      }
      var m := TakeMap(true);
      ghost var taken := Abs();
      var levels := Ascending(m.Keys);
      for n := 0 to |levels|
        invariant RunLevels(Abs(), true, LevelOf(m), levels[n..], timing) ==
                  RunLevels(taken, true, LevelOf(m), levels, timing)
      {
        assert levels[n] in levels && levels[n..][1..] == levels[n + 1..];
        CoRunInitLevel(m[levels[n]], timing);
      }
    }
  }

  lemma {:induction false} ClockApart(w: World, acts: seq<Act>)
    ensures HappenAll(w, acts).clock == w.clock
    decreases |acts|
  {
    if acts != [] {
      ClockApart(Happen(w, acts[0]), acts[1..]);
    }
  }
}
