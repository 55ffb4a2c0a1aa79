/** Any number of initialisation runs in progress at once: a run started by an initialiser of another run, or
    coroutine runs that take turns at their suspension points. */
module ModulesInterleaved {
  import opened Sequences
  import opened ModulesOrder
  import opened ModulesHistory
  import ModulesRun

  datatype Entry = Began(run: nat, reg: Reg) | Ended(reg: Reg)

  /** A run in progress: what it drained and from what, the position of its next function, the launched futures it
      has not waited for, and the plain or awaitable initialiser that is running. */
  datatype Active = Active(
    co: bool, source: seq<Reg>, drained: seq<Reg>, next: nat, waits: seq<Reg>, busy: Option<Reg>)
  {
    predicate Idle() {
      next == |drained| && waits == [] && busy == None
    }
  }

  datatype Machine = Machine(
    registry: Registry, nextId: nat, pending: seq<Reg>, outstanding: set<Reg>, runs: seq<Active>, log: seq<Entry>)

  const START := Machine(map[], 0, [], {}, [], [])

  /** One scheduling decision: a run begins, a run moves, a launched future completes, or something registers. */
  datatype Turn = Begin(co: bool) | Advance(run: nat) | Complete(reg: Reg) | Register(level: nat, kind: Kind)

  function Set(m: Machine, n: nat, a: Active): Machine
    requires n < |m.runs|
  {
    m.(runs := m.runs[n := a])
  }

  /** The function at the run's position may be called: no future of a lower level is left to wait for. */
  predicate CanCall(a: Active) {
    a.next < |a.drained| && (a.waits == [] || a.waits[0].level == a.drained[a.next].level)
  }

  function CallNext(m: Machine, n: nat): Machine
    requires n < |m.runs| && CanCall(m.runs[n])
  {
    var a := m.runs[n];
    var r := a.drained[a.next];
    if !ModulesRun.Executes(a.co, r) then Set(m, n, a.(next := a.next + 1))
    else
      var started := m.(log := m.log + [Began(n, r)]);
      if r.kind.Future? then
        Set(started.(outstanding := m.outstanding + {r}), n, a.(next := a.next + 1, waits := a.waits + [r]))
      else Set(started, n, a.(next := a.next + 1, busy := Some(r)))
  }

  function Move(m: Machine, n: nat): Machine
    requires n < |m.runs|
  {
    var a := m.runs[n];
    if a.busy.Some? then Set(m.(log := m.log + [Ended(a.busy.value)]), n, a.(busy := None))
    else if CanCall(a) then CallNext(m, n)
    else if a.waits != [] && a.waits[0] !in m.outstanding then Set(m, n, a.(waits := a.waits[1..]))
    else m
  }

  function Next(m: Machine, t: Turn): Machine {
    match t
    case Begin(co) =>
      var a := Active(co, m.pending, Drain(m.registry), 0, [], None);
      m.(registry := map[], pending := [], runs := m.runs + [a])
    case Advance(n) => if n < |m.runs| then Move(m, n) else m
    case Complete(r) =>
      if r in m.outstanding then m.(outstanding := m.outstanding - {r}, log := m.log + [Ended(r)]) else m
    case Register(level, kind) =>
      var r := Reg(m.nextId, level, kind);
      m.(registry := Add(m.registry, r), nextId := m.nextId + 1, pending := m.pending + [r])
  }

  function Run(m: Machine, turns: seq<Turn>): Machine
    decreases |turns|
  {
    if turns == [] then m else Run(Next(m, turns[0]), turns[1..])
  }

  // ---- What a run owes, whatever the others do ----

  function StartedIn(n: nat): Entry -> seq<Reg> {
    (e: Entry) => if e.Began? && e.run == n then [e.reg] else []
  }

  function StartsOf(log: seq<Entry>, n: nat): seq<Reg> {
    FlatMap(StartedIn(n), log)
  }

  /** The run drained the stable sort of what was registered, and has started its executed functions in that order
      up to its position. */
  ghost predicate InOrder(m: Machine, n: nat)
    requires n < |m.runs|
  {
    var a := m.runs[n];
    && StableSortOf(a.source, a.drained) && a.next <= |a.drained|
    && StartsOf(m.log, n) == FlatMap(ModulesRun.Executed(a.co), a.drained[..a.next])
  }

  /** Every function the run has called has ended, is running, or is a future to be waited for. */
  ghost predicate Tracked(m: Machine, n: nat)
    requires n < |m.runs| && m.runs[n].next <= |m.runs[n].drained|
  {
    var a := m.runs[n];
    && (forall i :: 0 <= i < a.next && ModulesRun.Executes(a.co, a.drained[i]) ==>
          Ended(a.drained[i]) in m.log || a.busy == Some(a.drained[i]) || a.drained[i] in a.waits)
    && (forall r :: r in a.waits ==> (Ended(r) in m.log || r in m.outstanding) && r.level == a.waits[0].level)
    && (a.busy.Some? ==> !a.busy.value.kind.Future?)
  }

  ghost predicate RunOk(m: Machine, n: nat)
    requires n < |m.runs|
  {
    InOrder(m, n) && Tracked(m, n)
  }

  ghost predicate AllRunsOk(m: Machine) {
    forall n :: 0 <= n < |m.runs| ==> RunOk(m, n)
  }

  /** Every function of a lower level that the run executes has ended. */
  ghost predicate Guarded(a: Active, before: seq<Entry>, r: Reg) {
    forall q :: q in a.drained && ModulesRun.Executes(a.co, q) && q.level < r.level ==> Ended(q) in before
  }

  /** When a function of a run starts, every executed function of a lower level of that run has ended. */
  ghost predicate Barrier(m: Machine) {
    forall i :: 0 <= i < |m.log| && m.log[i].Began? ==>
      m.log[i].run < |m.runs| && Guarded(m.runs[m.log[i].run], m.log[..i], m.log[i].reg)
  }

  ghost predicate EndedBetween(log: seq<Entry>, i: nat, j: nat, r: Reg) {
    exists k :: i < k < j && k < |log| && log[k] == Ended(r)
  }

  ghost predicate SerialStart(e: Entry) {
    e.Began? && !e.reg.kind.Future?
  }

  /** Between two starts of one run, the first of a plain or awaitable initialiser, that initialiser ends. */
  ghost predicate Serial(log: seq<Entry>) {
    forall i, j :: (0 <= i < j < |log| && SerialStart(log[i]) && log[j].Began? && log[i].run == log[j].run) ==>
      EndedBetween(log, i, j, log[i].reg)
  }

  /** A plain or awaitable initialiser that has started has ended or is the one its run is busy with. */
  ghost predicate BusyOrEnded(m: Machine) {
    forall i :: 0 <= i < |m.log| && SerialStart(m.log[i]) ==>
      m.log[i].run < |m.runs| &&
      (m.runs[m.log[i].run].busy == Some(m.log[i].reg) || EndedBetween(m.log, i, |m.log|, m.log[i].reg))
  }

  /** Nothing starts twice, in one run or in two. */
  ghost predicate Once(log: seq<Entry>) {
    forall i, j :: 0 <= i < j < |log| && log[i].Began? && log[j].Began? ==> log[i].reg.id != log[j].reg.id
  }

  ghost predicate Passed(a: Active, r: Reg) {
    exists k :: 0 <= k < a.next && k < |a.drained| && a.drained[k] == r
  }

  /** What has started lies behind the position of its run. */
  ghost predicate Behind(m: Machine) {
    forall i :: 0 <= i < |m.log| && m.log[i].Began? ==>
      m.log[i].run < |m.runs| && Passed(m.runs[m.log[i].run], m.log[i].reg)
  }

  /** The accounts of registrations, drained run by run or pending. */
  function Ledger(m: Machine): ModulesRun.World {
    ModulesRun.World(m.registry, m.nextId, {}, [], 0, m.pending, seq(|m.runs|, n requires 0 <= n < |m.runs| =>
      (m.runs[n].co, m.runs[n].drained)))
  }

  ghost predicate Inv(m: Machine) {
    && Accounts(Ledger(m)) && AllRunsOk(m)
    && Barrier(m) && Serial(m.log) && BusyOrEnded(m) && Once(m.log) && Behind(m)
  }

  lemma LedgerStays(m: Machine, m': Machine)
    requires m'.registry == m.registry && m'.nextId == m.nextId && m'.pending == m.pending && |m'.runs| == |m.runs|
    requires forall n :: 0 <= n < |m.runs| ==> Older(m.runs[n], m'.runs[n])
    ensures Ledger(m') == Ledger(m)
  {
  }

  // ---- Entries that are no starts ----

  lemma StartsOfAppend(log: seq<Entry>, e: Entry, n: nat)
    ensures StartsOf(log + [e], n) == StartsOf(log, n) + StartedIn(n)(e)
  {
    FlatMapConcat(StartedIn(n), log, [e]);
    FlatMapOne(StartedIn(n), e);
  }

  // ---- The log, entry by entry ----

  ghost predicate Older(a: Active, b: Active) {
    a.co == b.co && a.drained == b.drained && a.next <= b.next
  }

  /** A step adds at most one entry and at most one run. */
  ghost predicate Grows(m: Machine, m': Machine, added: seq<Entry>) {
    && m'.log == m.log + added && |added| <= 1 && |m.runs| <= |m'.runs|
    && forall n :: 0 <= n < |m.runs| ==> Older(m.runs[n], m'.runs[n])
  }

  lemma BarrierStays(m: Machine, m': Machine, added: seq<Entry>)
    requires Grows(m, m', added) && Barrier(m)
    requires forall e :: e in added && e.Began? ==> e.run < |m.runs| && Guarded(m.runs[e.run], m.log, e.reg)
    ensures Barrier(m')
  {
    forall i | 0 <= i < |m'.log| && m'.log[i].Began?
      ensures m'.log[i].run < |m'.runs| && Guarded(m'.runs[m'.log[i].run], m'.log[..i], m'.log[i].reg)
    {
      var e := m'.log[i];
      if i < |m.log| {
        assert e == m.log[i] && m'.log[..i] == m.log[..i];
      } else {
        assert e in added && m'.log[..i] == m.log;
      }
      assert Older(m.runs[e.run], m'.runs[e.run]);
    }
  }

  lemma BehindStays(m: Machine, m': Machine, added: seq<Entry>)
    requires Grows(m, m', added) && Behind(m)
    requires forall e :: e in added && e.Began? ==> e.run < |m'.runs| && Passed(m'.runs[e.run], e.reg)
    ensures Behind(m')
  {
    forall i | 0 <= i < |m'.log| && m'.log[i].Began?
      ensures m'.log[i].run < |m'.runs| && Passed(m'.runs[m'.log[i].run], m'.log[i].reg)
    {
      var e := m'.log[i];
      if i < |m.log| {
        assert e == m.log[i];
        assert Older(m.runs[e.run], m'.runs[e.run]);
        var k :| 0 <= k < m.runs[e.run].next && k < |m.runs[e.run].drained| && m.runs[e.run].drained[k] == e.reg;
        assert m'.runs[e.run].drained[k] == e.reg;
      } else {
        assert e in added;
      }
    }
  }

  lemma EndedStays(log: seq<Entry>, added: seq<Entry>, i: nat, j: nat, last: nat, r: Reg)
    requires EndedBetween(log, i, j, r) && j <= last
    ensures EndedBetween(log + added, i, last, r)
  {
    var k :| i < k < j && k < |log| && log[k] == Ended(r);
    assert (log + added)[k] == Ended(r);
  }

  lemma SerialStays(log: seq<Entry>, added: seq<Entry>)
    requires Serial(log) && |added| <= 1
    requires forall e, i :: e in added && e.Began? && 0 <= i < |log| && SerialStart(log[i]) && log[i].run == e.run ==>
               EndedBetween(log, i, |log|, log[i].reg)
    ensures Serial(log + added)
  {
    var log' := log + added;
    hide EndedBetween;
    forall i, j | (0 <= i < j < |log'| && SerialStart(log'[i]) && log'[j].Began? && log'[i].run == log'[j].run)
      ensures EndedBetween(log', i, j, log'[i].reg)
    {
      assert log'[i] == log[i];
      if j < |log| {
        assert log'[j] == log[j];
      } else {
        assert log'[j] in added;
      }
      EndedStays(log, added, i, j, j, log[i].reg);
    }
  }

  /** The initialiser of a run may end, and an idle run may start one. */
  ghost predicate BusyMoves(a: Active, b: Active, added: seq<Entry>) {
    a.busy == b.busy || a.busy.None? || Ended(a.busy.value) in added
  }

  lemma BusyStays(m: Machine, m': Machine, added: seq<Entry>)
    requires Grows(m, m', added) && BusyOrEnded(m)
    requires forall n :: 0 <= n < |m.runs| ==> BusyMoves(m.runs[n], m'.runs[n], added)
    requires forall e :: e in added && SerialStart(e) ==> e.run < |m'.runs| && m'.runs[e.run].busy == Some(e.reg)
    ensures BusyOrEnded(m')
  {
    hide EndedBetween;
    forall i | 0 <= i < |m'.log| && SerialStart(m'.log[i])
      ensures m'.log[i].run < |m'.runs|
      ensures m'.runs[m'.log[i].run].busy == Some(m'.log[i].reg) || EndedBetween(m'.log, i, |m'.log|, m'.log[i].reg)
    {
      var e := m'.log[i];
      if i >= |m.log| {
        assert e in added;
      } else {
        assert e == m.log[i];
        if EndedBetween(m.log, i, |m.log|, e.reg) {
          EndedStays(m.log, added, i, |m.log|, |m'.log|, e.reg);
        } else {
          assert BusyMoves(m.runs[e.run], m'.runs[e.run], added);
          if m'.runs[e.run].busy != Some(e.reg) {
            EndedNow(m.log, added, i, e.reg);
          }
        }
      }
    }
  }

  lemma EndedNow(log: seq<Entry>, added: seq<Entry>, i: nat, r: Reg)
    requires i < |log| && |added| <= 1 && Ended(r) in added
    ensures EndedBetween(log + added, i, |log + added|, r)
  {
    assert (log + added)[|log|] == Ended(r);
  }

  lemma OnceStays(log: seq<Entry>, added: seq<Entry>)
    requires Once(log) && |added| <= 1
    requires forall e, i :: e in added && e.Began? && 0 <= i < |log| && log[i].Began? ==> log[i].reg.id != e.reg.id
    ensures Once(log + added)
  {
    assert |added| == 1 ==> added[0] in added;
  }

  /** A step that starts nothing. */
  lemma LogStays(m: Machine, m': Machine, added: seq<Entry>)
    requires Barrier(m) && Serial(m.log) && BusyOrEnded(m) && Once(m.log) && Behind(m)
    requires Grows(m, m', added) && (forall e :: e in added ==> e.Ended?)
    requires forall n :: 0 <= n < |m.runs| ==> BusyMoves(m.runs[n], m'.runs[n], added)
    ensures Barrier(m') && Serial(m'.log) && BusyOrEnded(m') && Once(m'.log) && Behind(m')
  {
    BarrierStays(m, m', added);
    BehindStays(m, m', added);
    SerialStays(m.log, added);
    BusyStays(m, m', added);
    OnceStays(m.log, added);
  }

  /** A run that the step does not touch. */
  lemma OtherRunOk(m: Machine, m': Machine, n: nat)
    requires n < |m.runs| && n < |m'.runs| && m'.runs[n] == m.runs[n] && RunOk(m, n)
    requires m.log <= m'.log && StartsOf(m'.log, n) == StartsOf(m.log, n)
    requires forall r :: r in m.outstanding ==> r in m'.outstanding || Ended(r) in m'.log
    ensures RunOk(m', n)
  {
    assert forall e :: e in m.log ==> e in m'.log;
  }

  /** The runs but one are as they were. */
  lemma RunsStay(m: Machine, m': Machine, n: nat, added: seq<Entry>)
    requires AllRunsOk(m) && m'.log == m.log + added && |added| <= 1
    requires n <= |m.runs| <= |m'.runs| <= |m.runs| + 1 && (|m.runs| < |m'.runs| ==> n == |m.runs|)
    requires forall k :: 0 <= k < |m.runs| && k != n ==> m'.runs[k] == m.runs[k]
    requires forall e :: e in added && e.Began? ==> e.run == n
    requires forall r :: r in m.outstanding ==> r in m'.outstanding || Ended(r) in m'.log
    requires n < |m'.runs| ==> RunOk(m', n)
    ensures AllRunsOk(m')
  {
    forall k | 0 <= k < |m'.runs| ensures RunOk(m', k) {
      if k != n {
        assert RunOk(m, k);
        StartsStay(m.log, added, k);
        OtherRunOk(m, m', k);
      }
    }
  }

  lemma StartsStay(log: seq<Entry>, added: seq<Entry>, n: nat)
    requires |added| <= 1 && forall e :: e in added && e.Began? ==> e.run != n
    ensures StartsOf(log + added, n) == StartsOf(log, n)
  {
    if added == [] {
      assert log + added == log;
    } else {
      assert added == [added[0]] && added[0] in added;
      StartsOfAppend(log, added[0], n);
    }
  }

  lemma EndKeeps(m: Machine, n: nat)
    requires Inv(m) && n < |m.runs| && m.runs[n].busy.Some?
    ensures Inv(Move(m, n))
  {
    var a, m' := m.runs[n], Move(m, n);
    var e := Ended(a.busy.value);
    assert RunOk(m', n) by {
      assert RunOk(m, n);
      EndedRunOk(m, n);
    }
    LedgerStays(m, m');
    hide Accounts, RunOk, Barrier, Serial, BusyOrEnded, Once, Behind;
    RunsStay(m, m', n, [e]);
    LogStays(m, m', [e]);
  }

  lemma EndedRunOk(m: Machine, n: nat)
    requires n < |m.runs| && RunOk(m, n) && m.runs[n].busy.Some?
    ensures RunOk(Move(m, n), n)
  {
    var m' := Move(m, n);
    var e := Ended(m.runs[n].busy.value);
    StartsStay(m.log, [e], n);
    hide StableSortOf, StartsOf;
    assert forall x :: x in m.log ==> x in m'.log;
    assert e in m'.log;
  }

  lemma CompleteKeeps(m: Machine, r: Reg)
    requires Inv(m) && r in m.outstanding
    ensures Inv(Next(m, Complete(r)))
  {
    hide Accounts, RunOk, Barrier, Serial, BusyOrEnded, Once, Behind, Ledger;
    var m' := Next(m, Complete(r));
    var e := Ended(r);
    LedgerStays(m, m');
    assert e in m'.log;
    RunsStay(m, m', |m.runs|, [e]);
    LogStays(m, m', [e]);
  }

  // ---- Steps without an entry ----

  /** Skipping an initialiser that the run does not execute, or leaving a wait. */
  lemma SilentKeeps(m: Machine, n: nat, a: Active)
    requires Inv(m) && n < |m.runs| && RunOk(Set(m, n, a), n)
    requires Older(m.runs[n], a) && a.busy == m.runs[n].busy
    ensures Inv(Set(m, n, a))
  {
    hide Accounts, RunOk, Barrier, Serial, BusyOrEnded, Once, Behind, Ledger;
    var m' := Set(m, n, a);
    LedgerStays(m, m');
    RunsStay(m, m', n, []);
    LogStays(m, m', []);
  }

  lemma ExecutedNext(co: bool, rs: seq<Reg>, i: nat)
    requires i < |rs|
    ensures FlatMap(ModulesRun.Executed(co), rs[..i + 1]) ==
            FlatMap(ModulesRun.Executed(co), rs[..i]) + ModulesRun.Executed(co)(rs[i])
  {
    assert rs[..i + 1] == rs[..i] + [rs[i]];
    FlatMapConcat(ModulesRun.Executed(co), rs[..i], [rs[i]]);
    FlatMapOne(ModulesRun.Executed(co), rs[i]);
  }

  lemma SkippedRunOk(m: Machine, n: nat)
    requires n < |m.runs| && RunOk(m, n) && m.runs[n].next < |m.runs[n].drained|
    requires !ModulesRun.Executes(m.runs[n].co, m.runs[n].drained[m.runs[n].next])
    ensures RunOk(Set(m, n, m.runs[n].(next := m.runs[n].next + 1)), n)
  {
    ExecutedNext(m.runs[n].co, m.runs[n].drained, m.runs[n].next);
    hide StableSortOf, StartsOf;
  }

  lemma SkipKeeps(m: Machine, n: nat)
    requires Inv(m) && n < |m.runs| && m.runs[n].busy.None? && CanCall(m.runs[n])
    requires !ModulesRun.Executes(m.runs[n].co, m.runs[n].drained[m.runs[n].next])
    ensures Inv(Move(m, n))
  {
    assert RunOk(m, n);
    SkippedRunOk(m, n);
    hide Accounts, RunOk, Barrier, Serial, BusyOrEnded, Once, Behind;
    SilentKeeps(m, n, m.runs[n].(next := m.runs[n].next + 1));
  }

  lemma WaitKeeps(m: Machine, n: nat)
    requires Inv(m) && n < |m.runs| && m.runs[n].waits != [] && m.runs[n].waits[0] !in m.outstanding
    ensures Inv(Set(m, n, m.runs[n].(waits := m.runs[n].waits[1..])))
  {
    var a := m.runs[n];
    var b := a.(waits := a.waits[1..]);
    assert RunOk(m, n);
    assert RunOk(Set(m, n, b), n) by {
      hide StableSortOf, StartsOf;
      assert a.waits[0] in a.waits && Ended(a.waits[0]) in m.log;
      assert forall r :: r in a.waits <==> r == a.waits[0] || r in b.waits;
      assert b.waits != [] ==> b.waits[0] in a.waits;
    }
    SilentKeeps(m, n, b);
  }

  // ---- A start ----

  /** Registrations at different places of the ledger have different ids. */
  lemma {:induction false} DistinctPlaces(runs: seq<(bool, seq<Reg>)>, m: nat, i: nat, n: nat, j: nat)
    requires NoDup(Ids(FlatMap(Drained, runs)))
    requires m < |runs| && i < |runs[m].1| && n < |runs| && j < |runs[n].1| && (m != n || i != j)
    ensures runs[m].1[i].id != runs[n].1[j].id
  {
    var own, later := runs[0].1, FlatMap(Drained, runs[1..]);
    FlatMapConcat(Id, own, later);
    NoDupConcat(Ids(own), Ids(later));
    if m > 0 && n > 0 {
      DistinctPlaces(runs[1..], m - 1, i, n - 1, j);
    } else {
      IdsAt(own);
      if m > 0 {
        IdIn(runs[1..], m - 1, i);
      }
      if n > 0 {
        IdIn(runs[1..], n - 1, j);
      }
      assert m == 0 ==> Ids(own)[i] == own[i].id && own[i].id in Ids(own);
      assert n == 0 ==> Ids(own)[j] == own[j].id && own[j].id in Ids(own);
    }
  }

  lemma {:induction false} IdsAt(rs: seq<Reg>)
    ensures |Ids(rs)| == |rs| && forall i :: 0 <= i < |rs| ==> Ids(rs)[i] == rs[i].id
  {
    if rs != [] {
      IdsAt(rs[1..]);
      assert Ids(rs) == [rs[0].id] + Ids(rs[1..]);
    }
  }

  lemma IdIn(runs: seq<(bool, seq<Reg>)>, n: nat, j: nat)
    requires n < |runs| && j < |runs[n].1|
    ensures runs[n].1[j].id in Ids(FlatMap(Drained, runs))
  {
    var r := runs[n].1[j];
    assert runs[n] in runs && r in Drained(runs[n]) && r.id in Id(r);
    FlatMapIn(Drained, runs, r);
    FlatMapIn(Id, FlatMap(Drained, runs), r.id);
  }

  /** The function a run is about to start has not started anywhere. */
  lemma StartIsNew(m: Machine, n: nat, i: nat)
    requires Accounts(Ledger(m)) && Behind(m) && n < |m.runs| && m.runs[n].next < |m.runs[n].drained|
    requires i < |m.log| && m.log[i].Began?
    ensures m.log[i].reg.id != m.runs[n].drained[m.runs[n].next].id
  {
    var w := Ledger(m);
    FlatMapConcat(Id, FlatMap(Drained, w.runs), w.pending);
    NoDupConcat(Ids(FlatMap(Drained, w.runs)), Ids(w.pending));
    var l := m.log[i].run;
    var k :| 0 <= k < m.runs[l].next && k < |m.runs[l].drained| && m.runs[l].drained[k] == m.log[i].reg;
    DistinctPlaces(w.runs, l, k, n, m.runs[n].next);
  }

  /** Nothing of a lower level is left when the next function is called. */
  lemma LowerEnded(m: Machine, n: nat, r: Reg)
    requires n < |m.runs| && RunOk(m, n) && m.runs[n].busy.None? && CanCall(m.runs[n])
    requires r in m.runs[n].drained && ModulesRun.Executes(m.runs[n].co, r)
    requires r.level < m.runs[n].drained[m.runs[n].next].level
    ensures Ended(r) in m.log
  {
    var a := m.runs[n];
    var i :| 0 <= i < |a.drained| && a.drained[i] == r;
    assert Sorted(a.drained);
    assert i < a.next;
  }

  /** What the start of a function changes. */
  lemma StartedStep(m: Machine, n: nat, r: Reg)
    requires n < |m.runs| && m.runs[n].busy.None? && CanCall(m.runs[n]) && r == m.runs[n].drained[m.runs[n].next]
    requires ModulesRun.Executes(m.runs[n].co, r)
    ensures var m' := CallNext(m, n);
            && Grows(m, m', [Began(n, r)]) && Ledger(m') == Ledger(m) && Passed(m'.runs[n], r)
            && (forall k :: 0 <= k < |m.runs| && k != n ==> m'.runs[k] == m.runs[k])
            && (forall k :: 0 <= k < |m.runs| ==> BusyMoves(m.runs[k], m'.runs[k], [Began(n, r)]))
            && (r.kind.Future? || m'.runs[n].busy == Some(r)) && |m'.runs| == |m.runs|
            && (forall q :: q in m.outstanding ==> q in m'.outstanding)
  {
    var m' := CallNext(m, n);
    assert m'.runs[n].drained[m.runs[n].next] == r;
    hide Ledger;
    LedgerStays(m, m');
  }

  lemma NextGuarded(m: Machine, n: nat, r: Reg)
    requires n < |m.runs| && RunOk(m, n) && m.runs[n].busy.None? && CanCall(m.runs[n])
    requires r == m.runs[n].drained[m.runs[n].next]
    ensures Guarded(m.runs[n], m.log, r)
  {
    var a := m.runs[n];
    forall q | q in a.drained && ModulesRun.Executes(a.co, q) && q.level < r.level ensures Ended(q) in m.log {
      LowerEnded(m, n, q);
    }
  }

  lemma StartedLog(m: Machine, n: nat, r: Reg)
    requires Inv(m) && n < |m.runs| && m.runs[n].busy.None? && CanCall(m.runs[n])
    requires r == m.runs[n].drained[m.runs[n].next] && ModulesRun.Executes(m.runs[n].co, r)
    ensures var m' := CallNext(m, n);
            Barrier(m') && Serial(m'.log) && BusyOrEnded(m') && Once(m'.log) && Behind(m')
  {
    hide Accounts, RunOk, Barrier, Behind, Serial, BusyOrEnded, Once, Ledger, StableSortOf, StartsOf;
    var m' := CallNext(m, n);
    var added := [Began(n, r)];
    assert RunOk(m, n);
    NextGuarded(m, n, r);
    forall i | 0 <= i < |m.log| && m.log[i].Began? ensures m.log[i].reg.id != r.id {
      StartIsNew(m, n, i);
    }
    StartedStep(m, n, r);
    hide Guarded, Passed, CallNext, CanCall, BusyMoves;
    StartedSerial(m, n, added);
    BarrierStays(m, m', added);
    BehindStays(m, m', added);
    BusyStays(m, m', added);
    OnceStays(m.log, added);
  }

  lemma StartedSerial(m: Machine, n: nat, added: seq<Entry>)
    requires Serial(m.log) && BusyOrEnded(m) && n < |m.runs| && m.runs[n].busy.None?
    requires |added| <= 1 && forall e :: e in added && e.Began? ==> e.run == n
    ensures Serial(m.log + added)
  {
    hide EndedBetween;
    SerialStays(m.log, added);
  }

  /** The run that starts the function. */
  lemma StartedInOrder(m: Machine, n: nat, r: Reg)
    requires n < |m.runs| && InOrder(m, n) && m.runs[n].busy.None? && CanCall(m.runs[n])
    requires r == m.runs[n].drained[m.runs[n].next] && ModulesRun.Executes(m.runs[n].co, r)
    ensures InOrder(CallNext(m, n), n)
  {
    var a := m.runs[n];
    StartsOfAppend(m.log, Began(n, r), n);
    ExecutedNext(a.co, a.drained, a.next);
    hide StableSortOf, StartsOf;
    assert CallNext(m, n).log == m.log + [Began(n, r)];
  }

  lemma StartedTracked(m: Machine, n: nat, r: Reg)
    requires n < |m.runs| && m.runs[n].busy.None? && CanCall(m.runs[n]) && Tracked(m, n)
    requires r == m.runs[n].drained[m.runs[n].next] && ModulesRun.Executes(m.runs[n].co, r)
    ensures Tracked(CallNext(m, n), n)
  {
    var a, m' := m.runs[n], CallNext(m, n);
    assert forall e :: e in m.log ==> e in m'.log;
    assert forall q :: q in m'.runs[n].waits <==> q in a.waits || (r.kind.Future? && q == r);
  }

  lemma StartKeeps(m: Machine, n: nat)
    requires Inv(m) && n < |m.runs| && m.runs[n].busy.None? && CanCall(m.runs[n])
    requires ModulesRun.Executes(m.runs[n].co, m.runs[n].drained[m.runs[n].next])
    ensures Inv(CallNext(m, n))
  {
    hide Accounts, Barrier, Serial, BusyOrEnded, Once, Behind, Ledger, StableSortOf, StartsOf, BusyMoves, Passed;
    var m', r := CallNext(m, n), m.runs[n].drained[m.runs[n].next];
    StartedLog(m, n, r);
    assert RunOk(m', n) by {
      assert RunOk(m, n);
      hide InOrder, Tracked, CallNext;
      StartedInOrder(m, n, r);
      StartedTracked(m, n, r);
    }
    StartedStep(m, n, r);
    hide RunOk, CallNext, CanCall;
    RunsStay(m, m', n, [Began(n, r)]);
  }

  // ---- Registrations and new runs ----

  lemma RegisterKeeps(m: Machine, level: nat, kind: Kind)
    requires Inv(m)
    ensures Inv(Next(m, Register(level, kind)))
  {
    var m' := Next(m, Register(level, kind));
    EnterKeeps(Ledger(m), level, kind);
    assert Ledger(m') == ModulesRun.Enter(Ledger(m), level, kind);
    hide Accounts, RunOk, Barrier, Serial, BusyOrEnded, Once, Behind;
    RunsStay(m, m', |m.runs|, []);
    LogStays(m, m', []);
  }

  lemma {:induction false} NoStartsYet(log: seq<Entry>, n: nat)
    requires forall i :: 0 <= i < |log| && log[i].Began? ==> log[i].run < n
    ensures StartsOf(log, n) == []
  {
    if log != [] {
      NoStartsYet(log[1..], n);
    }
  }

  lemma FreshRunOk(m: Machine, n: nat)
    requires n < |m.runs| && m.runs[n].next == 0 && m.runs[n].waits == [] && m.runs[n].busy == None
    requires StableSortOf(m.runs[n].source, m.runs[n].drained) && StartsOf(m.log, n) == []
    ensures RunOk(m, n)
  {
    hide StableSortOf, StartsOf;
    assert m.runs[n].drained[..0] == [];
  }

  lemma BegunRunOk(m: Machine, co: bool)
    requires m.registry == Bucket(m.pending) && Behind(m)
    ensures RunOk(Next(m, Begin(co)), |m.runs|)
  {
    NoStartsYet(m.log, |m.runs|);
    hide Behind, RunOk, StableSortOf, Drain, Bucket, StartsOf;
    DrainSorts(m.pending);
    FreshRunOk(Next(m, Begin(co)), |m.runs|);
  }

  lemma BegunLedger(m: Machine, co: bool)
    ensures Ledger(Next(m, Begin(co))) == ModulesRun.Take(Ledger(m), co)
  {
    hide Drain;
    assert Ledger(Next(m, Begin(co))).runs == Ledger(m).runs + [(co, Drain(m.registry))];
  }

  lemma BeginKeeps(m: Machine, co: bool)
    requires Inv(m)
    ensures Inv(Next(m, Begin(co)))
  {
    var m', n := Next(m, Begin(co)), |m.runs|;
    hide Drain;
    assert m.registry == Bucket(m.pending);
    BegunRunOk(m, co);
    BegunLedger(m, co);
    TakeKeeps(Ledger(m), co);
    hide Ledger, StableSortOf, StartsOf, ModulesRun.Take, Accounts, RunOk, Barrier, Serial, BusyOrEnded, Once, Behind;
    RunsStay(m, m', n, []);
    LogStays(m, m', []);
  }

  lemma NextKeeps(m: Machine, t: Turn)
    requires Inv(m)
    ensures Inv(Next(m, t))
  {
    match t {
      case Begin(co) => BeginKeeps(m, co);
      case Advance(n) =>
        if n < |m.runs| {
          var a := m.runs[n];
          if a.busy.Some? {
            EndKeeps(m, n);
          } else if CanCall(a) {
            if ModulesRun.Executes(a.co, a.drained[a.next]) {
              StartKeeps(m, n);
            } else {
              SkipKeeps(m, n);
            }
          } else if a.waits != [] && a.waits[0] !in m.outstanding {
            WaitKeeps(m, n);
          }
        }
      case Complete(r) =>
        if r in m.outstanding {
          CompleteKeeps(m, r);
        }
      case Register(level, kind) => RegisterKeeps(m, level, kind);
    }
  }

  lemma StartInv()
    ensures Inv(START)
  {
    assert Ids(AllRegs(Ledger(START))) == [];
  }

  function Batch(rs: seq<Reg>): seq<Reg> {
    rs
  }

  function Sources(m: Machine): seq<seq<Reg>> {
    seq(|m.runs|, n requires 0 <= n < |m.runs| => m.runs[n].source)
  }

  /** The registrations in the order in which the runs consumed them, and then the pending ones. */
  function Consumed(m: Machine): seq<Reg> {
    FlatMap(Batch, Sources(m)) + m.pending
  }

  /** In the order in which they began the runs consumed the registrations in the order in which they were made. */
  ghost predicate InBatches(m: Machine) {
    var ids := Ids(Consumed(m));
    |ids| == m.nextId && forall i :: 0 <= i < |ids| ==> ids[i] == i
  }

  lemma ConsumedNext(m: Machine, t: Turn)
    ensures Consumed(Next(m, t)) ==
            Consumed(m) + if t.Register? then [Reg(m.nextId, t.level, t.kind)] else []
  {
    hide Drain, FlatMap;
    var m' := Next(m, t);
    if t.Begin? {
      assert Sources(m') == Sources(m) + [m.pending];
      FlatMapConcat(Batch, Sources(m), [m.pending]);
      FlatMapOne(Batch, m.pending);
    } else {
      SourcesStay(m, t);
      if t.Register? {
        var before, r := FlatMap(Batch, Sources(m)), Reg(m.nextId, t.level, t.kind);
        assert before + (m.pending + [r]) == before + m.pending + [r];
      }
    }
  }

  lemma SourcesStay(m: Machine, t: Turn)
    requires !t.Begin?
    ensures Sources(Next(m, t)) == Sources(m)
  {
  }

  lemma NextBatches(m: Machine, t: Turn)
    requires InBatches(m)
    ensures InBatches(Next(m, t))
  {
    ConsumedNext(m, t);
    assert Next(m, t).nextId == m.nextId + if t.Register? then 1 else 0;
    if t.Register? {
      var r := Reg(m.nextId, t.level, t.kind);
      hide Consumed, Next;
      FlatMapConcat(Id, Consumed(m), [r]);
      FlatMapOne(Id, r);
    } else {
      assert Consumed(Next(m, t)) == Consumed(m);
    }
  }

  lemma {:induction false} RunKeepsAll(m: Machine, turns: seq<Turn>)
    requires Inv(m) && InBatches(m)
    ensures Inv(Run(m, turns)) && InBatches(Run(m, turns))
    decreases |turns|
  {
    if turns != [] {
      hide Inv, InBatches;
      NextKeeps(m, turns[0]);
      NextBatches(m, turns[0]);
      RunKeepsAll(Next(m, turns[0]), turns[1..]);
    }
  }

  /** Over every interleaving of registrations, future completions and the steps of any number of runs, nested ones
      included: every registration is drained by exactly one run or pending, and the runs took them in the order of
      registration; each run drained the stable sort of what was registered and not yet drained when it began, and
      starts the functions it executes in that order; in each run a plain or awaitable initialiser ends before the
      next start, and nothing starts before all executed functions of lower levels have ended; nothing starts twice,
      in one run or in two. */
  lemma AnyInterleaving(turns: seq<Turn>)
    ensures var m := Run(START, turns);
            && NoDup(Ids(FlatMap(Drained, Ledger(m).runs) + m.pending))
            && (forall i: nat :: i in Ids(FlatMap(Drained, Ledger(m).runs) + m.pending) <==> i < m.nextId)
            && InBatches(m) && AllRunsOk(m) && Barrier(m) && Serial(m.log) && Once(m.log)
  {
    StartInv();
    RunKeepsAll(START, turns);
  }

  /** A run that has nothing left to do has started all it executes, and all of that has ended. */
  lemma IdleRunIsDone(turns: seq<Turn>, n: nat)
    requires n < |Run(START, turns).runs| && Run(START, turns).runs[n].Idle()
    ensures var m := Run(START, turns);
            var a := m.runs[n];
            && StartsOf(m.log, n) == FlatMap(ModulesRun.Executed(a.co), a.drained)
            && forall r :: r in a.drained && ModulesRun.Executes(a.co, r) ==> Ended(r) in m.log
  {
    AnyInterleaving(turns);
    var m := Run(START, turns);
    assert RunOk(m, n);
    hide StableSortOf, StartsOf;
    assert m.runs[n].drained[..m.runs[n].next] == m.runs[n].drained;
  }

  lemma BeganIn(log: seq<Entry>, n: nat, r: Reg)
    ensures r in StartsOf(log, n) <==> Began(n, r) in log
  {
    FlatMapIn(StartedIn(n), log, r);
    assert forall e :: r in StartedIn(n)(e) <==> e == Began(n, r);
  }

  /** What a run starts among all the others: a run of run_init only plain initialisers and futures of its batch,
      whatever their level, a run of co_run_init anything of its batch; all of it once the run has nothing left
      to do. */
  lemma RunStartsExactly(turns: seq<Turn>, n: nat, r: Reg)
    requires n < |Run(START, turns).runs|
    ensures var m := Run(START, turns);
            var a := m.runs[n];
            && (Began(n, r) in m.log ==> r in a.source && (a.co || r.kind.Plain? || r.kind.Future?))
            && (a.Idle() ==>
                  (Began(n, r) in m.log <==> r in a.source && (a.co || r.kind.Plain? || r.kind.Future?)))
  {
    AnyInterleaving(turns);
    var m := Run(START, turns);
    var a := m.runs[n];
    assert RunOk(m, n);
    SortMembers(a.source, a.drained, r);
    hide Run, StableSortOf, StartsOf;
    BeganIn(m.log, n, r);
    var done := a.drained[..a.next];
    FlatMapIn(ModulesRun.Executed(a.co), done, r);
    assert forall x :: r in ModulesRun.Executed(a.co)(x) <==> x == r && (a.co || r.kind.Plain? || r.kind.Future?);
    assert r in done ==> r in a.drained;
    assert a.Idle() ==> done == a.drained;
  }

  /** The registrations of a schedule, numbered as they are made. */
  function Made(turns: seq<Turn>, from: nat): seq<Reg> {
    if turns == [] then []
    else if turns[0].Register? then [Reg(from, turns[0].level, turns[0].kind)] + Made(turns[1..], from + 1)
    else Made(turns[1..], from)
  }

  lemma NextNumber(m: Machine, t: Turn)
    ensures Next(m, t).nextId == m.nextId + if t.Register? then 1 else 0
  {
  }

  lemma {:induction false} ConsumedGrows(m: Machine, turns: seq<Turn>)
    ensures Consumed(Run(m, turns)) == Consumed(m) + Made(turns, m.nextId)
    decreases |turns|
  {
    hide Consumed, Next;
    if turns == [] {
      assert Consumed(m) + [] == Consumed(m);
    } else {
      var t := turns[0];
      NextNumber(m, t);
      ConsumedNext(m, t);
      ConsumedGrows(Next(m, t), turns[1..]);
      OneMore(Consumed(m), if t.Register? then [Reg(m.nextId, t.level, t.kind)] else [],
              Made(turns[1..], Next(m, t).nextId));
    }
  }

  lemma OneMore(a: seq<Reg>, b: seq<Reg>, c: seq<Reg>)
    ensures a + (b + c) == a + b + c
  {
  }

  /** Batch after batch and then the pending ones: exactly the registrations of the schedule, in order, each with the
      level and the kind it was made with. */
  lemma BatchesAreRegistrations(turns: seq<Turn>)
    ensures var m := Run(START, turns); FlatMap(Batch, Sources(m)) + m.pending == Made(turns, 0)
  {
    ConsumedGrows(START, turns);
    assert Consumed(START) == [];
  }

  function Left(a: Active): int {
    2 * (|a.drained| - a.next) + |a.waits| + if a.busy.Some? then 1 else 0
  }

  /** What a run needs to move once: the first future it waits for, if it is still running. */
  function Nudge(m: Machine, n: nat): seq<Turn>
    requires n < |m.runs|
  {
    var a := m.runs[n];
    if a.busy.None? && !CanCall(a) && a.waits != [] then [Complete(a.waits[0]), Advance(n)] else [Advance(n)]
  }

  lemma MoveShrinks(m: Machine, n: nat)
    requires n < |m.runs| && m.runs[n].next <= |m.runs[n].drained| && !m.runs[n].Idle()
    requires m.runs[n].busy.Some? || CanCall(m.runs[n]) || m.runs[n].waits[0] !in m.outstanding
    ensures var m' := Move(m, n);
            && |m'.runs| == |m.runs| && m'.runs[n].next <= |m'.runs[n].drained|
            && Left(m'.runs[n]) < Left(m.runs[n])
  {
  }

  lemma NudgeMoves(m: Machine, n: nat)
    requires n < |m.runs| && m.runs[n].next <= |m.runs[n].drained| && !m.runs[n].Idle()
    ensures var m' := Run(m, Nudge(m, n));
            && |m'.runs| == |m.runs| && m'.runs[n].next <= |m'.runs[n].drained|
            && Left(m'.runs[n]) < Left(m.runs[n])
  {
    hide Left, Move;
    var a, ts := m.runs[n], Nudge(m, n);
    if a.busy.None? && !CanCall(a) && a.waits != [] {
      var m1 := Next(m, Complete(a.waits[0]));
      MoveShrinks(m1, n);
      assert ts[1..] == [Advance(n)] && Run(m1, [Advance(n)]) == Next(m1, Advance(n));
    } else {
      MoveShrinks(m, n);
      assert Run(m, [Advance(n)]) == Next(m, Advance(n));
    }
  }

  lemma {:induction false} RunConcat(m: Machine, a: seq<Turn>, b: seq<Turn>)
    ensures Run(m, a + b) == Run(Run(m, a), b)
    decreases |a|
  {
    if a == [] {
      assert a + b == b;
    } else {
      assert (a + b)[1..] == a[1..] + b;
      RunConcat(Next(m, a[0]), a[1..], b);
    }
  }

  lemma {:induction false} Finish(m: Machine, n: nat) returns (turns: seq<Turn>)
    requires n < |m.runs| && m.runs[n].next <= |m.runs[n].drained|
    ensures n < |Run(m, turns).runs| && Run(m, turns).runs[n].Idle()
    decreases Left(m.runs[n])
  {
    if m.runs[n].Idle() {
      turns := [];
    } else {
      NudgeMoves(m, n);
      var more := Finish(Run(m, Nudge(m, n)), n);
      RunConcat(m, Nudge(m, n), more);
      turns := Nudge(m, n) + more;
    }
  }

  /** No run can get stuck: whatever has happened, some continuation completes it. */
  lemma EveryRunCanFinish(turns: seq<Turn>, n: nat)
    requires n < |Run(START, turns).runs|
    ensures exists more ::
              n < |Run(START, turns + more).runs| && Run(START, turns + more).runs[n].Idle()
  {
    AnyInterleaving(turns);
    assert RunOk(Run(START, turns), n);
    var more := Finish(Run(START, turns), n);
    RunConcat(START, turns, more);
  }
}
