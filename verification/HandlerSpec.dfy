/** Ownership of type-erased completion handlers by any number of wrappers. */
module HandlerSpec {
  import opened Sequences

  /** What happens to a target: its memory is freed, its handler is invoked. */
  datatype Event = Freed(target: nat) | Invoked(target: nat)

  /** fn_table_ and impl_; a table is named by the handler type it was made for. */
  datatype Slot = Slot(table: Option<nat>, impl: Option<nat>)

  const NULL := Slot(None, None)

  /** Targets are numbered as they are created; kinds records their handler types. */
  datatype Pool = Pool(slots: map<nat, Slot>, kinds: seq<nat>, log: seq<Event>)

  const NOTHING := Pool(map[], [], [])

  datatype Op =
    | ConstructNull(w: nat)
    | Construct(w: nat, kind: nat)
    | MoveConstruct(w: nat, from: nat)
    | MoveAssign(w: nat, from: nat)   // self-moves included
    | AssignNull(w: nat)
    | Swap(w: nat, other: nat)
    | Call(w: nat)
    | Destroy(w: nat)

  /** A constructor needs a new wrapper, everything else an existing one. */
  predicate Enabled(p: Pool, op: Op) {
    match op
    case ConstructNull(w) => w !in p.slots
    case Construct(w, _) => w !in p.slots
    case MoveConstruct(w, from) => w !in p.slots && from in p.slots
    case MoveAssign(w, from) => w in p.slots && from in p.slots
    case Swap(w, other) => w in p.slots && other in p.slots
    case _ => op.w in p.slots
  }

  /** The log after destroying whatever a slot owns. */
  function Release(log: seq<Event>, s: Slot): seq<Event> {
    if s.impl.Some? then log + [Freed(s.impl.value)] else log
  }

  function Perform(p: Pool, op: Op): Pool
    requires Enabled(p, op)
  {
    match op
    case ConstructNull(w) => p.(slots := p.slots[w := NULL])
    case Construct(w, kind) =>
      p.(slots := p.slots[w := Slot(Some(kind), Some(|p.kinds|))], kinds := p.kinds + [kind])
    case MoveConstruct(w, from) => p.(slots := p.slots[w := p.slots[from]][from := NULL])
    case MoveAssign(w, from) =>
      if w == from then p
      else p.(slots := p.slots[w := p.slots[from]][from := NULL], log := Release(p.log, p.slots[w]))
    case AssignNull(w) => p.(slots := p.slots[w := NULL], log := Release(p.log, p.slots[w]))
    case Swap(w, other) => p.(slots := p.slots[w := p.slots[other]][other := p.slots[w]])
    case Call(w) =>
      var s := p.slots[w];
      if s.impl.None? then p  // std::bad_function_call
      else p.(slots := p.slots[w := s.(impl := None)], log := Release(p.log, s) + [Invoked(s.impl.value)])
    case Destroy(w) => p.(slots := p.slots - {w}, log := Release(p.log, p.slots[w]))
  }

  function Step(p: Pool, op: Op): Pool {
    if Enabled(p, op) then Perform(p, op) else p
  }

  function Run(p: Pool, ops: seq<Op>): Pool
    decreases |ops|
  {
    if ops == [] then p else Run(Step(p, ops[0]), ops[1..])
  }

  ghost predicate Owns(p: Pool, w: nat, i: nat) {
    w in p.slots && p.slots[w].impl == Some(i)
  }

  ghost predicate Owned(p: Pool, i: nat) {
    exists w :: Owns(p, w, i)
  }

  /** No two wrappers own the same target. */
  ghost predicate Unshared(p: Pool) {
    forall a, b, i :: Owns(p, a, i) && Owns(p, b, i) ==> a == b
  }

  /** An owning wrapper has the function table of its target's type. */
  ghost predicate Typed(p: Pool) {
    forall w: nat, i: nat :: Owns(p, w, i) ==> i < |p.kinds| && p.slots[w].table == Some(p.kinds[i])
  }

  /** Of every target created, either a wrapper owns it or it has been freed exactly once. */
  ghost predicate FreedOnce(p: Pool) {
    forall i: nat :: multiset(p.log)[Freed(i)] == if i < |p.kinds| && !Owned(p, i) then 1 else 0
  }

  /** No target is invoked twice, and none before it has been freed. */
  ghost predicate FreedThenInvoked(log: seq<Event>) {
    && (forall i: nat :: multiset(log)[Invoked(i)] <= multiset(log)[Freed(i)])
    && (forall k :: 0 <= k < |log| && log[k].Invoked? ==> Freed(log[k].target) in log[..k])
  }

  ghost predicate Inv(p: Pool) {
    Unshared(p) && Typed(p) && FreedOnce(p) && FreedThenInvoked(p.log)
  }

  /** Moving ownership around: the slots change, but every target keeps having an owner or none. */
  lemma MovedKeeps(p: Pool, p': Pool)
    requires Inv(p) && p'.kinds == p.kinds && p'.log == p.log
    requires Unshared(p') && Typed(p')
    requires forall i :: Owned(p', i) <==> Owned(p, i)
    ensures Inv(p')
  {
  }

  lemma LogFreed(log: seq<Event>, i: nat)
    requires FreedThenInvoked(log)
    ensures FreedThenInvoked(log + [Freed(i)])
  {
    var log' := log + [Freed(i)];
    forall k | 0 <= k < |log'| && log'[k].Invoked? ensures Freed(log'[k].target) in log'[..k] {
      assert log'[..k] == log[..k];
    }
  }

  lemma LogInvoked(log: seq<Event>, i: nat)
    requires FreedThenInvoked(log) && Freed(i) in log && multiset(log)[Invoked(i)] == 0
    ensures FreedThenInvoked(log + [Invoked(i)])
  {
    var log' := log + [Invoked(i)];
    assert Freed(i) in multiset(log);
    forall k | 0 <= k < |log'| && log'[k].Invoked? ensures Freed(log'[k].target) in log'[..k] {
      if k < |log| {
        assert log'[..k] == log[..k];
      } else {
        assert log'[..k] == log;
      }
    }
  }

  /** Giving up one target and freeing it. */
  lemma ReleasedKeeps(p: Pool, p': Pool, w: nat)
    requires Inv(p) && w in p.slots && p'.kinds == p.kinds && p'.log == Release(p.log, p.slots[w])
    requires Unshared(p') && Typed(p')
    requires forall i: nat :: Owned(p', i) <==> Owned(p, i) && p.slots[w].impl != Some(i)
    ensures Inv(p')
  {
    if p.slots[w].impl.Some? {
      var t := p.slots[w].impl.value;
      assert Owns(p, w, t);
      LogFreed(p.log, t);
    }
  }

  lemma ConstructKeeps(p: Pool, w: nat, kind: nat)
    requires Inv(p) && w !in p.slots
    ensures Inv(Perform(p, Construct(w, kind)))
  {
    var p', t := Perform(p, Construct(w, kind)), |p.kinds|;
    assert forall a, i :: Owns(p', a, i) <==> Owns(p, a, i) || (a == w && i == t);
    assert Owns(p', w, t);
    forall i ensures Owned(p', i) <==> Owned(p, i) || i == t {
      if a :| Owns(p, a, i) {
        assert Owns(p', a, i);
      }
    }
  }

  /** Owners after a change of the slots, wrapper by wrapper. */
  lemma OwnedVia(p: Pool, p': Pool, f: nat -> nat, g: nat -> nat)
    requires forall a, i :: Owns(p, a, i) ==> Owns(p', f(a), i)
    requires forall a, i :: Owns(p', a, i) ==> Owns(p, g(a), i)
    ensures forall i :: Owned(p', i) <==> Owned(p, i)
  {
    forall i ensures Owned(p', i) <==> Owned(p, i) {
      if a :| Owns(p, a, i) {
        assert Owns(p', f(a), i);
      }
      if a :| Owns(p', a, i) {
        assert Owns(p, g(a), i);
      }
    }
  }

  /** Moving into another wrapper that is empty. */
  lemma MoveIntoEmpty(p: Pool, w: nat, from: nat)
    requires Inv(p) && w in p.slots && from in p.slots && w != from && p.slots[w].impl.None?
    ensures Inv(p.(slots := p.slots[w := p.slots[from]][from := NULL]))
  {
    var p' := p.(slots := p.slots[w := p.slots[from]][from := NULL]);
    var f := (a: nat) => if a == from then w else a;
    var g := (a: nat) => if a == w then from else a;
    assert forall a, i :: Owns(p, a, i) ==> Owns(p', f(a), i);
    assert forall a, i :: Owns(p', a, i) ==> Owns(p, g(a), i) && g(a) != w && f(g(a)) == a;
    OwnedVia(p, p', f, g);
    MovedKeeps(p, p');
  }

  lemma MoveConstructKeeps(p: Pool, w: nat, from: nat)
    requires Inv(p) && w !in p.slots && from in p.slots
    ensures Inv(Perform(p, MoveConstruct(w, from)))
  {
    var mid := p.(slots := p.slots[w := NULL]);
    ConstructNullKeeps(p, w);
    hide Inv;
    MoveIntoEmpty(mid, w, from);
    assert mid.slots[w := mid.slots[from]][from := NULL] == p.slots[w := p.slots[from]][from := NULL];
  }

  lemma ConstructNullKeeps(p: Pool, w: nat)
    requires Inv(p) && w !in p.slots
    ensures Inv(p.(slots := p.slots[w := NULL]))
  {
    var p' := p.(slots := p.slots[w := NULL]);
    var id := (a: nat) => a;
    assert forall a, i :: Owns(p', a, i) <==> Owns(p, a, i);
    OwnedVia(p, p', id, id);
    MovedKeeps(p, p');
  }

  lemma SwapKeeps(p: Pool, w: nat, other: nat)
    requires Inv(p) && w in p.slots && other in p.slots
    ensures Inv(Perform(p, Swap(w, other)))
  {
    var p' := Perform(p, Swap(w, other));
    var f := (a: nat) => if a == w then other else if a == other then w else a;
    assert forall a, i :: Owns(p', a, i) ==> Owns(p, f(a), i);
    OwnedVia(p, p', f, f);
    MovedKeeps(p, p');
  }

  lemma DropOwned(p: Pool, p': Pool, w: nat, i: nat)
    requires Unshared(p) && w in p.slots
    requires forall a: nat, j: nat :: Owns(p', a, j) <==> Owns(p, a, j) && a != w
    ensures Owned(p', i) <==> Owned(p, i) && p.slots[w].impl != Some(i)
  {
    if Owns(p, w, i) {
      assert forall a: nat :: Owns(p, a, i) ==> a == w;
    } else if a :| Owns(p, a, i) {
      assert Owns(p', a, i);
    }
  }

  /** The slot of w ends up owning nothing of what it owned before. */
  lemma DropKeeps(p: Pool, p': Pool, w: nat)
    requires Inv(p) && w in p.slots && p'.kinds == p.kinds && p'.log == Release(p.log, p.slots[w])
    requires forall a: nat, i: nat :: Owns(p', a, i) <==> Owns(p, a, i) && a != w
    requires forall a :: a in p'.slots && a != w ==> a in p.slots && p'.slots[a] == p.slots[a]
    ensures Inv(p')
  {
    forall i: nat ensures Owned(p', i) <==> Owned(p, i) && p.slots[w].impl != Some(i) {
      DropOwned(p, p', w, i);
    }
    assert Unshared(p');
    assert Typed(p') by {
      forall a: nat, i: nat | Owns(p', a, i) ensures i < |p'.kinds| && p'.slots[a].table == Some(p'.kinds[i]) {
        assert Owns(p, a, i);
      }
    }
    hide Unshared, Typed, FreedOnce, FreedThenInvoked, Owned, Owns;
    ReleasedKeeps(p, p', w);
  }

  lemma AssignNullKeeps(p: Pool, w: nat)
    requires Inv(p) && w in p.slots
    ensures Inv(Perform(p, AssignNull(w)))
  {
    DropKeeps(p, Perform(p, AssignNull(w)), w);
  }

  /** Assigning is dropping what w owns and then moving into the emptied wrapper. */
  lemma MoveAssignKeeps(p: Pool, w: nat, from: nat)
    requires Inv(p) && w in p.slots && from in p.slots
    ensures Inv(Perform(p, MoveAssign(w, from)))
  {
    hide Inv;
    if w != from {
      var mid := Perform(p, AssignNull(w));
      AssignNullKeeps(p, w);
      assert mid.slots[w] == NULL && mid.slots[from] == p.slots[from];
      MoveIntoEmpty(mid, w, from);
      assert mid.slots[w := mid.slots[from]][from := NULL] == p.slots[w := p.slots[from]][from := NULL];
    }
  }

  lemma CallKeeps(p: Pool, w: nat)
    requires Inv(p) && w in p.slots
    ensures Inv(Perform(p, Call(w)))
  {
    var s := p.slots[w];
    if s.impl.Some? {
      var t := s.impl.value;
      assert Owns(p, w, t);
      var mid := p.(slots := p.slots[w := s.(impl := None)], log := Release(p.log, s));
      DropKeeps(p, mid, w);
      assert multiset(p.log)[Invoked(t)] <= multiset(p.log)[Freed(t)] == 0;
      LogInvoked(mid.log, t);
      var p' := Perform(p, Call(w));
      assert forall a: nat, i: nat :: Owns(p', a, i) <==> Owns(mid, a, i);
      var id := (a: nat) => a;
      OwnedVia(mid, p', id, id);
    }
  }

  lemma StepKeeps(p: Pool, op: Op)
    requires Inv(p)
    ensures Inv(Step(p, op))
  {
    if Enabled(p, op) {
      match op {
        case ConstructNull(w) => ConstructNullKeeps(p, w);
        case Construct(w, kind) => ConstructKeeps(p, w, kind);
        case MoveConstruct(w, from) => MoveConstructKeeps(p, w, from);
        case MoveAssign(w, from) => MoveAssignKeeps(p, w, from);
        case AssignNull(w) => AssignNullKeeps(p, w);
        case Swap(w, other) => SwapKeeps(p, w, other);
        case Call(w) => CallKeeps(p, w);
        case Destroy(w) => DropKeeps(p, Perform(p, op), w);
      }
    }
  }

  lemma {:induction false} RunKeeps(p: Pool, ops: seq<Op>)
    requires Inv(p)
    ensures Inv(Run(p, ops))
    decreases |ops|
  {
    if ops != [] {
      StepKeeps(p, ops[0]);
      RunKeeps(Step(p, ops[0]), ops[1..]);
    }
  }

  /** Over every interleaving of operations on any number of wrappers: no two wrappers own the same target, every
      target is freed exactly once unless a wrapper still owns it, it is invoked at most once, and only after it
      has been freed; and a wrapper always has the function table of the target it owns. */
  lemma OneShot(ops: seq<Op>)
    ensures var p := Run(NOTHING, ops);
            && Unshared(p) && Typed(p)
            && (forall i: nat :: multiset(p.log)[Freed(i)] == if i < |p.kinds| && !Owned(p, i) then 1 else 0)
            && (forall i: nat :: multiset(p.log)[Invoked(i)] <= 1)
            && (forall k :: 0 <= k < |p.log| && p.log[k].Invoked? ==> Freed(p.log[k].target) in p.log[..k])
  {
    RunKeeps(NOTHING, ops);
    var p := Run(NOTHING, ops);
    forall i: nat ensures multiset(p.log)[Invoked(i)] <= 1 {
      assert multiset(p.log)[Invoked(i)] <= multiset(p.log)[Freed(i)];
    }
  }

  /** Nothing leaks: when all wrappers are gone every target has been freed, exactly once. */
  lemma NoLeak(ops: seq<Op>)
    requires Run(NOTHING, ops).slots == map[]
    ensures var p := Run(NOTHING, ops);
            forall i: nat :: i < |p.kinds| ==> multiset(p.log)[Freed(i)] == 1
  {
    RunKeeps(NOTHING, ops);
  }

  /** The n-th operation of the run calls a wrapper that owns target i at that moment. */
  ghost predicate CalledAt(p: Pool, ops: seq<Op>, n: nat, i: nat) {
    n < |ops| && ops[n].Call? && Owns(Run(p, ops[..n]), ops[n].w, i)
  }

  lemma StepInvokes(p: Pool, op: Op, i: nat)
    ensures Invoked(i) in Step(p, op).log <==> Invoked(i) in p.log || (op.Call? && Owns(p, op.w, i))
  {
    var p' := Step(p, op);
    if op.Call? && op.w in p.slots && p.slots[op.w].impl.Some? {
      var t := p.slots[op.w].impl.value;
      assert p'.log == p.log + [Freed(t), Invoked(t)];
    } else {
      assert p'.log == p.log || p'.log[..|p'.log| - 1] == p.log;
    }
  }

  lemma CalledLater(p: Pool, ops: seq<Op>, n: nat, i: nat)
    requires ops != []
    ensures CalledAt(p, ops, n + 1, i) <==> CalledAt(Step(p, ops[0]), ops[1..], n, i)
  {
    if n + 1 < |ops| {
      assert ops[..n + 1][1..] == ops[1..][..n];
    }
  }

  lemma CalledFirst(p: Pool, ops: seq<Op>, i: nat)
    requires ops != []
    ensures CalledAt(p, ops, 0, i) <==> ops[0].Call? && Owns(p, ops[0].w, i)
  {
    assert ops[..0] == [];
  }

  lemma {:induction false} RunInvokes(p: Pool, ops: seq<Op>, i: nat)
    ensures Invoked(i) in Run(p, ops).log <==> Invoked(i) in p.log || exists n: nat :: CalledAt(p, ops, n, i)
    decreases |ops|
  {
    if ops != [] {
      var next := Step(p, ops[0]);
      StepInvokes(p, ops[0], i);
      RunInvokes(next, ops[1..], i);
      CalledFirst(p, ops, i);
      hide CalledAt, Step, Owns;
      forall n: nat ensures CalledAt(p, ops, n + 1, i) <==> CalledAt(next, ops[1..], n, i) {
        CalledLater(p, ops, n, i);
      }
      if exists n: nat :: CalledAt(p, ops, n, i) {
        var n: nat :| CalledAt(p, ops, n, i);
        if n > 0 {
          assert CalledAt(p, ops, n - 1 + 1, i);
          assert CalledAt(next, ops[1..], n - 1, i);
        }
      }
      if exists n: nat :: CalledAt(next, ops[1..], n, i) {
        var n: nat :| CalledAt(next, ops[1..], n, i);
        assert CalledAt(p, ops, n + 1, i);
      }
    }
  }

  /** A target is invoked exactly when some operation calls the wrapper that owns it, whichever way it came there. */
  lemma InvokedIffCalled(ops: seq<Op>, i: nat)
    ensures Invoked(i) in Run(NOTHING, ops).log <==> exists n: nat :: CalledAt(NOTHING, ops, n, i)
  {
    RunInvokes(NOTHING, ops, i);
  }
}
