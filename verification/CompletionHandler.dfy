/** any_completion_handler as an object, with its operations composed as the original composes them. */
module CompletionHandler {
  import opened Sequences
  import opened HandlerSpec

  /** The memory behind the impl_ pointers. */
  class Targets {
    var kinds: seq<nat>
    var log: seq<Event>

    constructor ()
      ensures kinds == [] && log == []
    {
      kinds, log := [], [];
    }

    method Create(kind: nat) returns (target: nat)
      modifies this
      ensures target == |old(kinds)| && kinds == old(kinds) + [kind] && log == old(log)
    {
      target := |kinds|;
      kinds := kinds + [kind];
    }

    method Free(target: nat)
      modifies this`log
      ensures log == old(log) + [Freed(target)]
    {
      log := log + [Freed(target)];
    }

    /** any_completion_handler_impl::call: the handler is moved out and the memory freed before it runs. */
    method Invoke(target: nat)
      modifies this`log
      ensures log == old(log) + [Freed(target), Invoked(target)]
    {
      Free(target);
      log := log + [Invoked(target)];
    }
  }

  class AnyCompletionHandler {
    var fnTable: Option<nat>
    var impl: Option<nat>

    function Abs(): Slot
      reads this
    {
      Slot(fnTable, impl)
    }

    constructor Null()
      ensures Abs() == NULL
    {
      fnTable, impl := None, None;
    }

    constructor (kind: nat, targets: Targets)
      modifies targets
      ensures Abs() == Slot(Some(kind), Some(|old(targets.kinds)|))
      ensures targets.kinds == old(targets.kinds) + [kind] && targets.log == old(targets.log)
    {
      fnTable := Some(kind);
      var target := targets.Create(kind);
      impl := Some(target);
    }

    constructor Move(other: AnyCompletionHandler)
      modifies other
      ensures Abs() == old(other.Abs()) && other.Abs() == NULL
    {
      fnTable, impl := other.fnTable, other.impl;
      new;
      other.fnTable := None;
      other.impl := None;
    }

    method Swap(other: AnyCompletionHandler)
      modifies this, other
      ensures Abs() == old(other.Abs()) && other.Abs() == old(Abs())
    {
      fnTable, other.fnTable := other.fnTable, fnTable;
      impl, other.impl := other.impl, impl;
    }

    /** The destructor; it goes through the function table. */
    method Destroy(targets: Targets)
      requires impl.Some? ==> fnTable.Some?
      modifies targets`log
      ensures targets.log == Release(old(targets.log), Abs())
    {
      if impl.Some? {
        targets.Free(impl.value);
      }
    }

    /** Move into a temporary, swap, destroy the temporary. */
    method MoveAssign(other: AnyCompletionHandler, targets: Targets)
      requires impl.Some? ==> fnTable.Some?
      modifies this, other, targets`log
      ensures Abs() == old(other.Abs())
      ensures other != this ==> other.Abs() == NULL && targets.log == Release(old(targets.log), old(Abs()))
      ensures other == this ==> targets.log == old(targets.log)
    {
      var tmp := new AnyCompletionHandler.Move(other);
      tmp.Swap(this);
      tmp.Destroy(targets);
    }

    method AssignNull(targets: Targets)
      requires impl.Some? ==> fnTable.Some?
      modifies this, targets`log
      ensures Abs() == NULL && targets.log == Release(old(targets.log), old(Abs()))
    {
      var tmp := new AnyCompletionHandler.Null();
      tmp.Swap(this);
      tmp.Destroy(targets);
    }

    /** ok is false when the original throws std::bad_function_call. */
    method Call(targets: Targets) returns (ok: bool)
      requires impl.Some? ==> fnTable.Some?
      modifies this`impl, targets`log
      ensures ok == old(impl).Some? && impl == None
      ensures targets.log ==
              if ok then old(targets.log) + [Freed(old(impl).value), Invoked(old(impl).value)] else old(targets.log)
    {
      if impl.Some? {
        var target := impl.value;
        impl := None;
        targets.Invoke(target);
        return true;
      }
      return false;
    }
  }

  /** Any number of wrappers over the same memory. */
  class Wrappers {
    const targets: Targets
    var wrappers: map<nat, AnyCompletionHandler>

    ghost predicate Valid()
      reads this, targets, wrappers.Values
    {
      && (forall v, w :: v in wrappers && w in wrappers && wrappers[v] == wrappers[w] ==> v == w)
      && (forall w :: w in wrappers && wrappers[w].impl.Some? ==> wrappers[w].fnTable.Some?)
    }

    ghost function Abs(): Pool
      reads this, targets, wrappers.Values
    {
      Pool(map w | w in wrappers :: wrappers[w].Abs(), targets.kinds, targets.log)
    }

    constructor ()
      ensures Valid() && Abs() == NOTHING
    {
      targets := new Targets();
      wrappers := map[];
    }

    // Each operation is carried out if it is possible, and ignored otherwise.

    method DoConstructNull(w: nat)
      requires Valid()
      modifies this`wrappers
      ensures Valid() && Abs() == Step(old(Abs()), ConstructNull(w))
      ensures fresh(wrappers.Values - old(wrappers.Values))
    {
      if w !in wrappers {
        var h := new AnyCompletionHandler.Null();
        wrappers := wrappers[w := h];
      }
    }

    method DoConstruct(w: nat, kind: nat)
      requires Valid()
      modifies this`wrappers, targets
      ensures Valid() && Abs() == Step(old(Abs()), Construct(w, kind))
      ensures fresh(wrappers.Values - old(wrappers.Values))
    {
      if w !in wrappers {
        var h := new AnyCompletionHandler(kind, targets);
        wrappers := wrappers[w := h];
      }
    }

    method DoMoveConstruct(w: nat, from: nat)
      requires Valid()
      modifies this`wrappers, wrappers.Values
      ensures Valid() && Abs() == Step(old(Abs()), MoveConstruct(w, from))
      ensures fresh(wrappers.Values - old(wrappers.Values))
    {
      if w !in wrappers && from in wrappers {
        var h := new AnyCompletionHandler.Move(wrappers[from]);
        wrappers := wrappers[w := h];
      }
    }

    method DoMoveAssign(w: nat, from: nat)
      requires Valid()
      modifies targets`log, wrappers.Values
      ensures Valid() && Abs() == Step(old(Abs()), MoveAssign(w, from))
      ensures fresh(wrappers.Values - old(wrappers.Values))
    {
      if w in wrappers && from in wrappers {
        wrappers[w].MoveAssign(wrappers[from], targets);
      }
    }

    method DoAssignNull(w: nat)
      requires Valid()
      modifies targets`log, wrappers.Values
      ensures Valid() && Abs() == Step(old(Abs()), AssignNull(w))
      ensures fresh(wrappers.Values - old(wrappers.Values))
    {
      if w in wrappers {
        wrappers[w].AssignNull(targets);
      }
    }

    method DoSwap(w: nat, other: nat)
      requires Valid()
      modifies wrappers.Values
      ensures Valid() && Abs() == Step(old(Abs()), Swap(w, other))
      ensures fresh(wrappers.Values - old(wrappers.Values))
    {
      if w in wrappers && other in wrappers {
        wrappers[w].Swap(wrappers[other]);
      }
    }

    method DoCall(w: nat)
      requires Valid()
      modifies targets`log, wrappers.Values
      ensures Valid() && Abs() == Step(old(Abs()), Call(w))
      ensures fresh(wrappers.Values - old(wrappers.Values))
    {
      if w in wrappers {
        var _ := wrappers[w].Call(targets);
      }
    }

    method DoDestroy(w: nat)
      requires Valid()
      modifies this`wrappers, targets`log
      ensures Valid() && Abs() == Step(old(Abs()), Destroy(w))
      ensures fresh(wrappers.Values - old(wrappers.Values))
    {
      if w in wrappers {
        wrappers[w].Destroy(targets);
        wrappers := wrappers - {w};
      }
    }

    method Do(op: Op)
      requires Valid()
      modifies this`wrappers, targets, wrappers.Values
      ensures Valid() && Abs() == Step(old(Abs()), op)
      ensures fresh(wrappers.Values - old(wrappers.Values))
    {
      match op {
        case ConstructNull(w) => DoConstructNull(w);
        case Construct(w, kind) => DoConstruct(w, kind);
        case MoveConstruct(w, from) => DoMoveConstruct(w, from);
        case MoveAssign(w, from) => DoMoveAssign(w, from);
        case AssignNull(w) => DoAssignNull(w);
        case Swap(w, other) => DoSwap(w, other);
        case Call(w) => DoCall(w);
        case Destroy(w) => DoDestroy(w);
      }
    }

    /** A whole interleaving. */
    method DoAll(ops: seq<Op>)
      requires Valid()
      modifies this`wrappers, targets, wrappers.Values
      ensures Valid() && Abs() == Run(old(Abs()), ops)
    {
      for n := 0 to |ops|
        invariant Valid() && Run(Abs(), ops[n..]) == Run(old(Abs()), ops)
        invariant fresh(wrappers.Values - old(wrappers.Values))
      {
        Do(ops[n]);
        assert ops[n..][1..] == ops[n + 1..];
      }
    }
  }
}
