/** What a parse does to its local state: the shared "already used" set, the result map and the list of
    leftover tokens. */
module ArgsEffects {
  import opened Sequences

  /** Use: a duplicate-checked option with its emplace; Keep: a duplicate-checked leftover;
      Push: the leftover push at the end of a cluster, which is not duplicate-checked. */
  datatype Effect =
    | Use(group: string, iden: string, value: string)
    | Keep(token: string)
    | Push(token: string)

  datatype Store = Store(used: set<string>, args: map<string, string>, other: seq<string>)

  const EMPTY := Store({}, map[], [])

  /** unordered_map::emplace: the first value wins. */
  function Emplace(m: map<string, string>, k: string, v: string): map<string, string> {
    if k in m then m else m[k := v]
  }

  /** None stands for the exit with "Too many parameters.". */
  function Apply(st: Store, e: Effect): Option<Store> {
    match e
    case Use(g, k, v) =>
      if g in st.used then None else Some(Store(st.used + {g}, Emplace(st.args, k, v), st.other))
    case Keep(t) =>
      if t in st.used then None else Some(Store(st.used + {t}, st.args, st.other + [t]))
    case Push(t) =>
      Some(st.(other := st.other + [t]))
  }

  function ApplyAll(st: Store, es: seq<Effect>): Option<Store>
    decreases |es|
  {
    if es == [] then Some(st) else
      match Apply(st, es[0])
      case None => None
      case Some(next) => ApplyAll(next, es[1..])
  }

  /** The strings an effect enters into the shared set. */
  function Mark(e: Effect): seq<string> {
    match e
    case Use(g, _, _) => [g]
    case Keep(t) => [t]
    case Push(_) => []
  }

  function Group(e: Effect): seq<string> {
    if e.Use? then [e.group] else []
  }

  function Iden(e: Effect): seq<string> {
    if e.Use? then [e.iden] else []
  }

  function Kept(e: Effect): seq<string> {
    if e.Keep? then [e.token] else []
  }

  /** The tokens an effect appends to the leftover list. */
  function Shown(e: Effect): seq<string> {
    if e.Use? then [] else [e.token]
  }

  lemma {:induction false} ApplyConcat(st: Store, a: seq<Effect>, b: seq<Effect>)
    ensures ApplyAll(st, a + b) ==
            (match ApplyAll(st, a) case None => None case Some(mid) => ApplyAll(mid, b))
    decreases |a|
  {
    if a == [] {
      assert a + b == b;
    } else {
      assert (a + b)[0] == a[0] && (a + b)[1..] == a[1..] + b;
      if Apply(st, a[0]).Some? {
        ApplyConcat(Apply(st, a[0]).value, a[1..], b);
      }
    }
  }

  /** A run of effects is cut short exactly when some string would enter the shared set twice. */
  lemma {:induction false} AppliesIff(st: Store, es: seq<Effect>)
    ensures ApplyAll(st, es).Some? <==>
            NoDup(FlatMap(Mark, es)) && forall m :: m in FlatMap(Mark, es) ==> m !in st.used
    decreases |es|
  {
    if es != [] {
      var head, tail := Mark(es[0]), FlatMap(Mark, es[1..]);
      NoDupConcat(head, tail);
      assert forall m :: m in head + tail <==> m in head || m in tail;
      assert es[0].Push? || (|head| == 1 && head[0] in head);
      if Apply(st, es[0]).Some? {
        var next := Apply(st, es[0]).value;
        AppliesIff(next, es[1..]);
        assert forall m :: m in next.used <==> m in st.used || m in head;
      }
    }
  }

  /** First position in es that uses identifier k. */
  ghost predicate FirstUse(es: seq<Effect>, k: string, i: nat) {
    i < |es| && es[i].Use? && es[i].iden == k && forall j :: 0 <= j < i ==> !(es[j].Use? && es[j].iden == k)
  }

  lemma {:induction false} ApplyAllUsed(st: Store, es: seq<Effect>)
    requires ApplyAll(st, es).Some?
    ensures forall m :: m in ApplyAll(st, es).value.used <==> m in st.used || m in FlatMap(Mark, es)
    decreases |es|
  {
    if es != [] {
      ApplyAllUsed(Apply(st, es[0]).value, es[1..]);
      assert forall m :: m in FlatMap(Mark, es) <==> m in Mark(es[0]) || m in FlatMap(Mark, es[1..]);
      assert !es[0].Push? ==> Mark(es[0])[0] in Mark(es[0]);
    }
  }

  /** Leftovers accumulate in the order of the run. */
  lemma {:induction false} ApplyAllOther(st: Store, es: seq<Effect>)
    requires ApplyAll(st, es).Some?
    ensures ApplyAll(st, es).value.other == st.other + FlatMap(Shown, es)
    decreases |es|
  {
    if es != [] {
      var next := Apply(st, es[0]).value;
      ApplyAllOther(next, es[1..]);
      assert next.other == st.other + Shown(es[0]);
    }
  }

  /** Entries are never replaced, and a new identifier gets the value of its first use. */
  lemma {:induction false} ApplyAllArgs(st: Store, es: seq<Effect>)
    requires ApplyAll(st, es).Some?
    ensures var args := ApplyAll(st, es).value.args;
            && (forall k :: k in st.args ==> k in args && args[k] == st.args[k])
            && (forall k :: k in FlatMap(Iden, es) ==> k in args)
            && (forall k :: k in args && k !in st.args ==>
                  exists i: nat :: FirstUse(es, k, i) && args[k] == es[i].value)
    decreases |es|
  {
    if es != [] {
      var next, tail := Apply(st, es[0]).value, es[1..];
      ApplyAllArgs(next, tail);
      var args := ApplyAll(st, es).value.args;
      forall k | k in FlatMap(Iden, es) ensures k in args {
        assert k in Iden(es[0]) || k in FlatMap(Iden, tail);
      }
      forall k | k in args && k !in st.args
        ensures exists i: nat :: FirstUse(es, k, i) && args[k] == es[i].value
      {
        if k in next.args {
          assert FirstUse(es, k, 0);
        } else {
          var i: nat :| FirstUse(tail, k, i) && args[k] == tail[i].value;
          LaterUse(es, k, i);
        }
      }
    }
  }

  lemma LaterUse(es: seq<Effect>, k: string, i: nat)
    requires es != [] && Iden(es[0]) != [k] && FirstUse(es[1..], k, i)
    ensures FirstUse(es, k, i + 1)
  {
    forall j | 0 <= j < i + 1 ensures !(es[j].Use? && es[j].iden == k) {
      assert j > 0 ==> es[j] == es[1..][j - 1];
    }
  }

  /** When all used identifiers are fresh and distinct, nothing is dropped or replaced: every use has its own entry. */
  lemma {:induction false} NothingDropped(st: Store, es: seq<Effect>)
    requires ApplyAll(st, es).Some?
    requires NoDup(FlatMap(Iden, es)) && forall k :: k in FlatMap(Iden, es) ==> k !in st.args
    ensures var r := ApplyAll(st, es).value;
            && |r.args| == |st.args| + |FlatMap(Iden, es)|
            && (forall e :: e in es && e.Use? ==> e.iden in r.args && r.args[e.iden] == e.value)
    decreases |es|
  {
    if es != [] {
      var next, tail := Apply(st, es[0]).value, es[1..];
      NoDupConcat(Iden(es[0]), FlatMap(Iden, tail));
      assert forall m :: m in FlatMap(Iden, es) <==> m in Iden(es[0]) || m in FlatMap(Iden, tail);
      assert es[0].Use? ==> es[0].iden in Iden(es[0]);
      NothingDropped(next, tail);
      ApplyAllArgs(next, tail);
      assert forall e :: e in es <==> e == es[0] || e in tail;
    }
  }

  /** The value of the first use of identifier k. */
  function FirstValue(es: seq<Effect>, k: string): Option<string> {
    if es == [] then None
    else if es[0].Use? && es[0].iden == k then Some(es[0].value)
    else FirstValue(es[1..], k)
  }

  lemma {:induction false} FirstValueConcat(a: seq<Effect>, b: seq<Effect>, k: string)
    ensures FirstValue(a + b, k) == if FirstValue(a, k).Some? then FirstValue(a, k) else FirstValue(b, k)
  {
    if a == [] {
      assert a + b == b;
    } else {
      assert (a + b)[0] == a[0] && (a + b)[1..] == a[1..] + b;
      FirstValueConcat(a[1..], b, k);
    }
  }

  /** The result map is the map of first values. */
  lemma {:induction false} ArgsAreFirst(st: Store, es: seq<Effect>, k: string)
    requires ApplyAll(st, es).Some?
    ensures var args := ApplyAll(st, es).value.args;
            && (k in args <==> k in st.args || FirstValue(es, k).Some?)
            && (k in st.args ==> args[k] == st.args[k])
            && (k !in st.args && FirstValue(es, k).Some? ==> args[k] == FirstValue(es, k).value)
    decreases |es|
  {
    if es != [] {
      ArgsAreFirst(Apply(st, es[0]).value, es[1..], k);
    }
  }

  lemma {:induction false} FirstValueIn(es: seq<Effect>, k: string)
    ensures FirstValue(es, k).Some? <==> k in FlatMap(Iden, es)
    ensures FirstValue(es, k).Some? ==> exists e :: e in es && e.Use? && e.iden == k && e.value == FirstValue(es, k).value
  {
    if es != [] {
      FirstValueIn(es[1..], k);
      assert k in FlatMap(Iden, es) <==> k in Iden(es[0]) || k in FlatMap(Iden, es[1..]);
      assert es[0] in es && forall e :: e in es[1..] ==> e in es;
    }
  }
}
