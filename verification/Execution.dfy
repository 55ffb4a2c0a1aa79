/** The shutdown handshake between exec() and any number of exit() calls, as interleaved atomic steps over the two
    shared atomics and the stopped flag of the io_context. */
module Execution {

  /** Where exec() stands: each constructor names the next atomic step. Running is the blocking run() call, which
      the work guard keeps from returning until the io_context is stopped. */
  datatype ExecPc = CheckReentry | RaiseFlag | Running | CheckFlag | Restart | ReadCode | Returned(result: int) | Thrown

  datatype ExitPc = Guard | StoreCode | ClearFlag | Stop | Ignored | Done

  datatype ExitCall = ExitCall(code: int, pc: ExitPc)
  {
    /** The call has passed the guard and its code has been the exit code. */
    predicate Stored() {
      pc.ClearFlag? || pc.Stop? || pc.Done?
    }

    predicate Cleared() {
      pc.Stop? || pc.Done?
    }
  }

  datatype State = State(flag: bool, code: int, stopped: bool, exec: ExecPc, exits: map<nat, ExitCall>)

  /** One scheduling decision: exec moves, a new exit call arrives, or a pending one moves. */
  datatype Turn = ExecTurn | Arrive(id: nat, code: int) | ExitTurn(id: nat)

  function NextExec(s: State): State {
    match s.exec
    case CheckReentry => s.(exec := if s.flag then Thrown else RaiseFlag)
    case RaiseFlag => s.(flag := true, exec := Running)
    case Running => if s.stopped then s.(exec := CheckFlag) else s
    case CheckFlag => s.(exec := if s.flag then Restart else ReadCode)
    case Restart => s.(stopped := false, exec := Running)
    case ReadCode => s.(exec := Returned(s.code))
    case Returned(_) => s
    case Thrown => s
  }

  function NextExit(s: State, id: nat): State
    requires id in s.exits
  {
    var c := s.exits[id];
    match c.pc
    case Guard => s.(exits := s.exits[id := c.(pc := if s.flag then StoreCode else Ignored)])
    case StoreCode => s.(code := c.code, exits := s.exits[id := c.(pc := ClearFlag)])
    case ClearFlag => s.(flag := false, exits := s.exits[id := c.(pc := Stop)])
    case Stop => s.(stopped := true, exits := s.exits[id := c.(pc := Done)])
    case Ignored => s
    case Done => s
  }

  function Next(s: State, t: Turn): State {
    match t
    case ExecTurn => NextExec(s)
    case Arrive(id, code) => if id in s.exits then s else s.(exits := s.exits[id := ExitCall(code, Guard)])
    case ExitTurn(id) => if id in s.exits then NextExit(s, id) else s
  }

  function Run(s: State, turns: seq<Turn>): State
    decreases |turns|
  {
    if turns == [] then s else Run(Next(s, turns[0]), turns[1..])
  }

  /** exec() is called while nothing else is running; stopped says whether an earlier run left the io_context
      stopped. */
  function Start(stopped: bool, code: int): State {
    State(false, code, stopped, CheckReentry, map[])
  }

  /** Some exit call that passed the guard stored this code. */
  ghost predicate StoredBy(s: State, code: int) {
    exists id :: id in s.exits && s.exits[id].Stored() && s.exits[id].code == code
  }

  ghost predicate SomeExit(s: State, pc: ExitPc) {
    exists id :: id in s.exits && s.exits[id].pc == pc
  }

  ghost predicate SomeCleared(s: State) {
    exists id :: id in s.exits && s.exits[id].Cleared()
  }

  /** What every step of a run on a fresh io_context keeps. */
  ghost predicate Inv(s: State) {
    match s.exec
    case Restart => false
    case Thrown => false
    case CheckReentry => Quiet(s)
    case RaiseFlag => Quiet(s)
    case Running => Live(s)
    case CheckFlag => Live(s) && s.stopped
    case ReadCode => Live(s) && s.stopped
    case Returned(c) => Live(s) && s.stopped && StoredBy(s, c)
  }

  ghost predicate Quiet(s: State) {
    !s.flag && !s.stopped && forall id :: id in s.exits ==> s.exits[id].pc.Guard? || s.exits[id].pc.Ignored?
  }

  ghost predicate Live(s: State) {
    && (s.stopped <==> SomeExit(s, Done))
    && (!s.flag <==> SomeCleared(s))
    && ((exists id :: id in s.exits && s.exits[id].Stored()) ==> StoredBy(s, s.code))
  }

  lemma ExecKeepsInv(s: State)
    requires Inv(s)
    ensures Inv(NextExec(s))
  {
    if s.exec.CheckFlag? {
      var id :| id in s.exits && s.exits[id].pc == Done;
      assert s.exits[id].Cleared() && s.exits[id].Stored();
    } else if s.exec.ReadCode? {
      var id :| id in s.exits && s.exits[id].pc == Done;
      assert s.exits[id].Stored();
    }
  }

  /** A step of one exit call seen from the other calls. */
  lemma ExitKeepsLive(s: State, id: nat)
    requires Live(s) && id in s.exits
    ensures Live(NextExit(s, id))
    ensures s.stopped ==> NextExit(s, id).stopped
  {
    var n := NextExit(s, id);
    assert forall j :: j in s.exits && j != id ==> n.exits[j] == s.exits[j];
    assert n.exits[id].code == s.exits[id].code;
    assert SomeExit(n, Done) <==> SomeExit(s, Done) || n.exits[id].pc == Done by {
      if j :| j in s.exits && s.exits[j].pc == Done { assert n.exits[j].pc == Done; }
    }
    assert SomeCleared(n) <==> SomeCleared(s) || n.exits[id].Cleared() by {
      if j :| j in s.exits && s.exits[j].Cleared() { assert n.exits[j].Cleared(); }
    }
    if s.exits[id].pc.StoreCode? {
      assert n.exits[id].Stored();
    } else if j :| j in s.exits && s.exits[j].Stored() && s.exits[j].code == s.code {
      assert n.exits[j].Stored();
    }
  }

  lemma StoredStays(s: State, t: Turn, c: int)
    requires StoredBy(s, c)
    ensures StoredBy(Next(s, t), c)
  {
    var id :| id in s.exits && s.exits[id].Stored() && s.exits[id].code == c;
    assert Next(s, t).exits[id].Stored();
  }

  lemma ArriveKeepsLive(s: State, id: nat, code: int)
    requires Live(s)
    ensures Live(Next(s, Arrive(id, code)))
  {
    var n := Next(s, Arrive(id, code));
    assert forall j :: j in s.exits ==> n.exits[j] == s.exits[j];
    assert SomeExit(n, Done) <==> SomeExit(s, Done);
    assert SomeCleared(n) <==> SomeCleared(s);
    if StoredBy(s, s.code) {
      StoredStays(s, Arrive(id, code), s.code);
    }
  }

  lemma NextKeepsInv(s: State, t: Turn)
    requires Inv(s)
    ensures Inv(Next(s, t))
  {
    match t {
      case ExecTurn => ExecKeepsInv(s);
      case Arrive(id, code) =>
        if Live(s) { ArriveKeepsLive(s, id, code); }
      case ExitTurn(id) =>
        if Live(s) && id in s.exits { ExitKeepsLive(s, id); }
    }
    if s.exec.Returned? {
      StoredStays(s, t, s.exec.result);
    }
  }

  lemma {:induction false} RunKeepsInv(s: State, turns: seq<Turn>)
    requires Inv(s)
    ensures Inv(Run(s, turns))
    decreases |turns|
  {
    if turns != [] {
      NextKeepsInv(s, turns[0]);
      RunKeepsInv(Next(s, turns[0]), turns[1..]);
    }
  }

  /** For every interleaving of a run on a fresh io_context: restart is never reached, no stop is lost, and when
      exec has returned the flag is false and its result was stored by an exit call that passed the guard. */
  lemma Handshake(code: int, turns: seq<Turn>)
    ensures var s := Run(Start(false, code), turns);
            && !s.exec.Restart? && !s.exec.Thrown?
            && (SomeExit(s, Done) ==> s.stopped)
            && (s.exec.Returned? ==> !s.flag && StoredBy(s, s.exec.result))
            && (s.exec == Running && SomeExit(s, Done) ==> NextExec(s).exec == CheckFlag)
  {
    RunKeepsInv(Start(false, code), turns);
    var s := Run(Start(false, code), turns);
    if s.exec.Returned? {
      var id :| id in s.exits && s.exits[id].pc == Done;
      assert s.exits[id].Cleared();
    }
  }

  /** How often exec is scheduled. */
  function ExecTurns(turns: seq<Turn>): nat {
    if turns == [] then 0 else (if turns[0] == ExecTurn then 1 else 0) + ExecTurns(turns[1..])
  }

  function Remaining(e: ExecPc): nat {
    match e
    case Running => 3
    case CheckFlag => 2
    case ReadCode => 1
    case _ => 0
  }

  /** Once some exit call has executed stop, exec returns after at most three more of its own steps, whatever the
      other calls do meanwhile. */
  lemma {:induction false} ReturnsAfterStop(s: State, turns: seq<Turn>)
    requires Inv(s) && SomeExit(s, Done) && ExecTurns(turns) >= Remaining(s.exec)
    ensures Run(s, turns).exec.Returned?
    decreases |turns|
  {
    var id :| id in s.exits && s.exits[id].pc == Done;
    assert s.exits[id].Cleared();
    if turns != [] {
      var n := Next(s, turns[0]);
      NextKeepsInv(s, turns[0]);
      assert n.exits[id].pc == Done;
      ReturnsAfterStop(n, turns[1..]);
    }
  }

  // ---- What becomes of one exit call ----

  /** How often the exit call is scheduled. */
  function ExitTurns(turns: seq<Turn>, id: nat): nat {
    if turns == [] then 0 else (if turns[0] == ExitTurn(id) then 1 else 0) + ExitTurns(turns[1..], id)
  }

  function Needs(pc: ExitPc): nat {
    match pc
    case Guard => 4
    case StoreCode => 3
    case ClearFlag => 2
    case Stop => 1
    case Ignored => 0
    case Done => 0
  }

  /** Behind the guard a call runs to its end in three turns, however the others are scheduled. */
  lemma {:induction false} PassedCallCompletes(s: State, turns: seq<Turn>, id: nat)
    requires id in s.exits && !s.exits[id].pc.Guard? && !s.exits[id].pc.Ignored?
    ensures var e := Run(s, turns).exits;
            && id in e && e[id].code == s.exits[id].code && !e[id].pc.Guard? && !e[id].pc.Ignored?
            && (ExitTurns(turns, id) >= Needs(s.exits[id].pc) ==> e[id].pc == Done)
    decreases |turns|
  {
    if turns != [] {
      PassedCallCompletes(Next(s, turns[0]), turns[1..], id);
    }
  }

  lemma {:induction false} IgnoredForever(s: State, turns: seq<Turn>, id: nat)
    requires id in s.exits && s.exits[id].pc.Ignored?
    ensures id in Run(s, turns).exits && Run(s, turns).exits[id].pc.Ignored?
    decreases |turns|
  {
    if turns != [] {
      IgnoredForever(Next(s, turns[0]), turns[1..], id);
    }
  }

  /** From every state and under every schedule in which the n-th turn is the first of the call: the call is ignored
      exactly when the flag is down at that turn, and otherwise its four turns complete it. */
  lemma {:induction false} CallOutcome(s: State, turns: seq<Turn>, id: nat, n: nat)
    requires id in s.exits && s.exits[id].pc.Guard?
    requires n < |turns| && turns[n] == ExitTurn(id) && forall i :: 0 <= i < n ==> turns[i] != ExitTurn(id)
    ensures var flag, e := Run(s, turns[..n]).flag, Run(s, turns).exits;
            && id in e && (e[id].pc == Ignored <==> !flag)
            && (flag && ExitTurns(turns, id) >= 4 ==> e[id].pc == Done)
    decreases n
  {
    var next := Next(s, turns[0]);
    if n == 0 {
      if s.flag {
        PassedCallCompletes(next, turns[1..], id);
      } else {
        IgnoredForever(next, turns[1..], id);
      }
    } else {
      assert turns[..n][1..] == turns[1..][..n - 1];
      CallOutcome(next, turns[1..], id, n - 1);
    }
  }

  lemma {:induction false} RunConcat(s: State, a: seq<Turn>, b: seq<Turn>)
    ensures Run(s, a + b) == Run(Run(s, a), b)
    decreases |a|
  {
    if a == [] {
      assert a + b == b;
    } else {
      assert (a + b)[1..] == a[1..] + b;
      RunConcat(Next(s, a[0]), a[1..], b);
    }
  }

  /** A stop is never lost in a run on a fresh io_context: when a call finds the flag up at its first turn and gets
      four turns, exec returns once it is scheduled three times afterwards, whatever else happens in between. */
  lemma ExitMakesExecReturn(code: int, before: seq<Turn>, turns: seq<Turn>, id: nat, n: nat, after: seq<Turn>)
    requires var s := Run(Start(false, code), before); id in s.exits && s.exits[id].pc.Guard?
    requires n < |turns| && turns[n] == ExitTurn(id) && forall i :: 0 <= i < n ==> turns[i] != ExitTurn(id)
    requires Run(Start(false, code), before + turns[..n]).flag
    requires ExitTurns(turns, id) >= 4 && ExecTurns(after) >= 3
    ensures Run(Start(false, code), before + turns + after).exec.Returned?
  {
    var s := Run(Start(false, code), before);
    RunConcat(Start(false, code), before, turns[..n]);
    CallOutcome(s, turns, id, n);
    RunConcat(Start(false, code), before, turns);
    RunConcat(Start(false, code), before + turns, after);
    RunKeepsInv(Start(false, code), before + turns);
    ReturnsAfterStop(Run(Start(false, code), before + turns), after);
  }

  /** Alone with exec, a call hands its own code over: from every state of such a run in which exec waits and the
      flag is up. */
  lemma ExitHandsOverItsCode(code: int, before: seq<Turn>, id: nat, k: int)
    requires var s := Run(Start(false, code), before); s.exec == Running && s.flag && id !in s.exits
    ensures var call := [Arrive(id, k), ExitTurn(id), ExitTurn(id), ExitTurn(id), ExitTurn(id)];
            Run(Start(false, code), before + (call + [ExecTurn, ExecTurn, ExecTurn])).exec == Returned(k)
  {
    var s := Run(Start(false, code), before);
    var call := [Arrive(id, k), ExitTurn(id), ExitTurn(id), ExitTurn(id), ExitTurn(id)];
    var last := [ExecTurn, ExecTurn, ExecTurn];
    RunConcat(Start(false, code), before, call + last);
    RunConcat(s, call, last);
    var s1 := Next(s, Arrive(id, k));
    RunFrom(s, call, 0);
    RunFour(s1, call, 1);
    assert call[0..] == call && call[1..][4..] == [] && call[5..] == [];
    var s5 := s.(flag := false, code := k, stopped := true, exits := s.exits[id := ExitCall(k, Done)]);
    assert Next(Next(Next(Next(s1, ExitTurn(id)), ExitTurn(id)), ExitTurn(id)), ExitTurn(id)) == s5;
    RunFrom(s5, last, 0);
    RunFrom(s5.(exec := CheckFlag), last, 1);
    RunFrom(s5.(exec := ReadCode), last, 2);
    assert last[0..] == last && last[3..] == [];
  }

  /** exec called while the flag is up throws, which neither starts a run nor disturbs the one in progress. */
  lemma ReentryThrows(s: State)
    requires s.exec == CheckReentry
    ensures Run(s, [ExecTurn]) == s.(exec := if s.flag then Thrown else RaiseFlag)
    ensures s.flag ==> Run(s, [ExecTurn, ExecTurn]) == s.(exec := Thrown)
  {
    var one, two := [ExecTurn], [ExecTurn, ExecTurn];
    assert one[1..] == [] && two[1..] == one;
    RunFrom(s, one, 0);
    RunFrom(s, two, 0);
    RunFrom(NextExec(s), one, 0);
    assert one[0..] == one && two[0..] == two;
  }

  // ---- A run that starts on a stopped io_context ----

  /** exec waits in run(), nobody will stop it and every exit call gives up at the guard. */
  ghost predicate Hung(s: State) {
    && s.exec == Running && !s.flag && !s.stopped
    && forall id :: id in s.exits ==> s.exits[id].pc in {Guard, Ignored, Done}
  }

  ghost predicate HangsUnder(stopped: bool, code: int, turns: seq<Turn>) {
    Hung(Run(Start(stopped, code), turns))
  }

  lemma {:induction false} HungForever(s: State, turns: seq<Turn>)
    requires Hung(s)
    ensures Hung(Run(s, turns))
    decreases |turns|
  {
    if turns != [] {
      HungForever(Next(s, turns[0]), turns[1..]);
    }
  }

  /** The exit call arrives after exec has seen the flag still up and before it restarts the io_context. */
  function LosingSchedule(code: int): seq<Turn> {
    [ExecTurn, ExecTurn, ExecTurn, ExecTurn, Arrive(0, code), ExitTurn(0), ExitTurn(0), ExitTurn(0), ExitTurn(0), ExecTurn]
  }

  lemma StopIsLost(code: int)
    ensures Hung(Run(Start(true, code), LosingSchedule(code)))
  {
    var t := LosingSchedule(code);
    var s0 := Start(true, code);
    var s4 := State(true, code, true, Restart, map[]);
    RunFour(s0, t, 0);
    assert t[0..] == t;
    assert Next(Next(Next(Next(s0, t[0]), t[1]), t[2]), t[3]) == s4;
    var s8 := State(false, code, false, Running, map[0 := ExitCall(code, Stop)]).(stopped := true, exec := Restart);
    RunFour(s4, t, 4);
    assert Next(Next(Next(Next(s4, t[4]), t[5]), t[6]), t[7]) == s8;
    RunFrom(s8, t, 8);
    RunFrom(Next(s8, t[8]), t, 9);
    assert Run(s0, t) == NextExec(Next(s8, t[8]));
  }

  lemma RunFrom(s: State, t: seq<Turn>, i: nat)
    requires i < |t|
    ensures Run(s, t[i..]) == Run(Next(s, t[i]), t[i + 1..])
  {
    assert t[i..][1..] == t[i + 1..];
  }

  lemma RunFour(s: State, t: seq<Turn>, i: nat)
    requires i + 4 <= |t|
    ensures Run(s, t[i..]) == Run(Next(Next(Next(Next(s, t[i]), t[i + 1]), t[i + 2]), t[i + 3]), t[i + 4..])
  {
    RunFrom(s, t, i);
    RunFrom(Next(s, t[i]), t, i + 1);
    RunFrom(Next(Next(s, t[i]), t[i + 1]), t, i + 2);
    RunFrom(Next(Next(Next(s, t[i]), t[i + 1]), t[i + 2]), t, i + 3);
  }

  /** The handshake can hang in some interleaving exactly when exec is entered on a stopped io_context, which is
      how every completed run leaves it. */
  lemma HangsIffStartedStopped(stopped: bool, code: int)
    ensures (exists turns :: HangsUnder(stopped, code, turns)) <==> stopped
  {
    if stopped {
      StopIsLost(code);
      assert HangsUnder(stopped, code, LosingSchedule(code));
    } else {
      forall turns ensures !HangsUnder(stopped, code, turns) {
        RunKeepsInv(Start(false, code), turns);
      }
    }
  }

  /** What a run keeps on whichever io_context it started: nobody but the exit calls lowers the flag, and the steps
      behind the blocking call happen on a stopped io_context. */
  ghost predicate AnyStart(s: State) {
    match s.exec
    case Thrown => false
    case CheckReentry => Unraised(s)
    case RaiseFlag => Unraised(s)
    case Running => Raised(s)
    case CheckFlag => Raised(s) && s.stopped
    case Restart => Raised(s) && s.stopped
    case ReadCode => Raised(s) && s.stopped && !s.flag
    case Returned(c) => Raised(s) && s.stopped && !s.flag && StoredBy(s, c)
  }

  ghost predicate Unraised(s: State) {
    !s.flag && forall id :: id in s.exits ==> s.exits[id].pc.Guard? || s.exits[id].pc.Ignored?
  }

  ghost predicate Raised(s: State) {
    && (!s.flag <==> SomeCleared(s))
    && ((exists id :: id in s.exits && s.exits[id].Stored()) ==> StoredBy(s, s.code))
  }

  lemma ExitKeepsRaised(s: State, id: nat)
    requires Raised(s) && id in s.exits
    ensures Raised(NextExit(s, id))
  {
    var n := NextExit(s, id);
    assert forall j :: j in s.exits && j != id ==> n.exits[j] == s.exits[j];
    assert SomeCleared(n) <==> SomeCleared(s) || n.exits[id].Cleared() by {
      if j :| j in s.exits && s.exits[j].Cleared() { assert n.exits[j].Cleared(); }
    }
    if s.exits[id].pc.StoreCode? {
      assert n.exits[id].Stored();
    } else if j :| j in s.exits && s.exits[j].Stored() && s.exits[j].code == s.code {
      assert n.exits[j].Stored();
    }
  }

  lemma ArriveKeepsRaised(s: State, id: nat, code: int)
    requires Raised(s)
    ensures Raised(Next(s, Arrive(id, code)))
  {
    var n := Next(s, Arrive(id, code));
    assert forall j :: j in s.exits ==> n.exits[j] == s.exits[j];
    assert SomeCleared(n) <==> SomeCleared(s);
    if StoredBy(s, s.code) {
      StoredStays(s, Arrive(id, code), s.code);
    }
  }

  lemma ExecKeepsAnyStart(s: State)
    requires AnyStart(s)
    ensures AnyStart(NextExec(s))
  {
    if s.exec.ReadCode? {
      var id :| id in s.exits && s.exits[id].Cleared();
      assert s.exits[id].Stored();
    }
  }

  lemma NextKeepsAnyStart(s: State, t: Turn)
    requires AnyStart(s)
    ensures AnyStart(Next(s, t))
  {
    match t {
      case ExecTurn => ExecKeepsAnyStart(s);
      case Arrive(id, code) =>
        if Raised(s) { ArriveKeepsRaised(s, id, code); }
      case ExitTurn(id) =>
        if Raised(s) && id in s.exits { ExitKeepsRaised(s, id); }
    }
    if s.exec.Returned? {
      StoredStays(s, t, s.exec.result);
    }
  }

  lemma {:induction false} RunKeepsAnyStart(s: State, turns: seq<Turn>)
    requires AnyStart(s)
    ensures AnyStart(Run(s, turns))
    decreases |turns|
  {
    if turns != [] {
      NextKeepsAnyStart(s, turns[0]);
      RunKeepsAnyStart(Next(s, turns[0]), turns[1..]);
    }
  }

  /** Every completed run, on a fresh io_context or a stopped one, leaves the io_context stopped and the flag down,
      and its result was stored by an exit call that passed the guard. */
  lemma CompletedRunLeavesStopped(stopped: bool, code: int, turns: seq<Turn>)
    requires Run(Start(stopped, code), turns).exec.Returned?
    ensures var s := Run(Start(stopped, code), turns); s.stopped && !s.flag && StoredBy(s, s.exec.result)
  {
    RunKeepsAnyStart(Start(stopped, code), turns);
  }

  /** What is_run answers: exec has raised the flag and no exit call has lowered it since. */
  lemma FlagMeans(stopped: bool, code: int, turns: seq<Turn>)
    ensures var s := Run(Start(stopped, code), turns);
            s.flag <==> !s.exec.CheckReentry? && !s.exec.RaiseFlag? && !SomeCleared(s)
  {
    RunKeepsAnyStart(Start(stopped, code), turns);
  }

  // ---- The shared variables as an object ----

  class Process {
    var runFlag: bool
    var exitCode: int
    var stopped: bool
    var exec: ExecPc
    var exits: map<nat, ExitCall>

    ghost function Abs(): State
      reads this
    {
      State(runFlag, exitCode, stopped, exec, exits)
    }

    constructor (wasStopped: bool, code: int)
      ensures Abs() == Start(wasStopped, code)
    {
      runFlag, exitCode, stopped, exec, exits := false, code, wasStopped, CheckReentry, map[];
    }

    method StepExec()
      modifies this
      ensures Abs() == NextExec(old(Abs()))
    {
      match exec {
        case CheckReentry =>
          if runFlag {
            exec := Thrown;
          } else {
            exec := RaiseFlag;
          }
        case RaiseFlag =>
          runFlag := true;
          exec := Running;
        case Running =>
          if stopped {
            exec := CheckFlag;
          }
        case CheckFlag =>
          if !runFlag {
            exec := ReadCode;
          } else {
            exec := Restart;
          }
        case Restart =>
          stopped := false;
          exec := Running;
        case ReadCode =>
          exec := Returned(exitCode);
        case _ =>
      }
    }

    method StepExit(id: nat)
      requires id in exits
      modifies this
      ensures Abs() == NextExit(old(Abs()), id)
      ensures id in exits && (old(exits[id].pc).Guard? ==> exits[id].pc == if old(runFlag) then StoreCode else Ignored)
    {
      var c := exits[id];
      match c.pc {
        case Guard =>
          if !runFlag {
            exits := exits[id := c.(pc := Ignored)];
          } else {
            exits := exits[id := c.(pc := StoreCode)];
          }
        case StoreCode =>
          exitCode := c.code;
          exits := exits[id := c.(pc := ClearFlag)];
        case ClearFlag =>
          runFlag := false;
          exits := exits[id := c.(pc := Stop)];
        case Stop =>
          stopped := true;
          exits := exits[id := c.(pc := Done)];
        case _ =>
      }
    }

    method IsRun() returns (r: bool)
      ensures r == Abs().flag
    {
      r := runFlag;
    }

    method Schedule(turns: seq<Turn>)
      modifies this
      ensures Abs() == Run(old(Abs()), turns)
    {
      for i := 0 to |turns|
        invariant Run(Abs(), turns[i..]) == Run(old(Abs()), turns)
      {
        match turns[i] {
          case ExecTurn => StepExec();
          case Arrive(id, code) =>
            if id !in exits {
              exits := exits[id := ExitCall(code, Guard)];
            }
          case ExitTurn(id) =>
            if id in exits {
              StepExit(id);
            }
        }
        assert turns[i..][1..] == turns[i + 1..];
      }
    }
  }
}
