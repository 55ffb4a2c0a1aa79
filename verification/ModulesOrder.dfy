/** The level buckets of the module registry, and why draining them is a stable sort. */
module ModulesOrder {
  import opened Sequences

  /** void, std::future<void> and awaitable<void> initialisers. */
  datatype Kind = Plain | Future | Await

  /** A registration; ids number the registrations of the process. */
  datatype Reg = Reg(id: nat, level: nat, kind: Kind)

  type Registry = map<nat, seq<Reg>>

  /** init_map()[level].emplace_back(func) */
  function Add(m: Registry, r: Reg): Registry {
    m[r.level := (if r.level in m then m[r.level] else []) + [r]]
  }

  function Bucket(regs: seq<Reg>): Registry {
    if regs == [] then map[] else Add(Bucket(regs[..|regs| - 1]), regs[|regs| - 1])
  }

  function OfLevel(regs: seq<Reg>, level: nat): seq<Reg> {
    if regs == [] then [] else (if regs[0].level == level then [regs[0]] else []) + OfLevel(regs[1..], level)
  }

  predicate Increasing(levels: seq<nat>) {
    forall i, j :: 0 <= i < j < |levels| ==> levels[i] < levels[j]
  }

  lemma {:induction false} FindLeast(keys: set<nat>) returns (m: nat)
    requires keys != {}
    ensures m in keys && forall k :: k in keys ==> m <= k
    decreases |keys|
  {
    m :| m in keys;
    var rest := keys - {m};
    assert forall k :: k in keys ==> k == m || k in rest;
    if rest != {} {
      var n := FindLeast(rest);
      m := if m <= n then m else n;
    }
  }

  lemma LeastExists(keys: set<nat>)
    requires keys != {}
    ensures exists m :: m in keys && forall k :: k in keys ==> m <= k
  {
    var m := FindLeast(keys);
  }

  function Least(keys: set<nat>): (m: nat)
    requires keys != {}
    ensures m in keys && forall k :: k in keys ==> m <= k
  {
    LeastExists(keys);
    var m :| m in keys && forall k :: k in keys ==> m <= k;
    m
  }

  /** The iteration order of std::map. */
  function Ascending(keys: set<nat>): (s: seq<nat>)
    ensures Increasing(s) && forall k :: k in s <==> k in keys
    decreases |keys|
  {
    if keys == {} then [] else
      var m := Least(keys);
      var rest := Ascending(keys - {m});
      assert forall i :: 0 <= i < |rest| ==> rest[i] in rest;
      [m] + rest
  }

  function LevelOf(m: Registry): nat -> seq<Reg> {
    (level: nat) => if level in m then m[level] else []
  }

  /** The registrations in the order in which a run visits them. */
  function Drain(m: Registry): seq<Reg> {
    FlatMap(LevelOf(m), Ascending(m.Keys))
  }

  predicate Sorted(regs: seq<Reg>) {
    forall i, j :: 0 <= i < j < |regs| ==> regs[i].level <= regs[j].level
  }

  /** out is regs sorted by level, registrations of one level staying in their order. */
  ghost predicate StableSortOf(regs: seq<Reg>, out: seq<Reg>) {
    Sorted(out) && forall level :: OfLevel(out, level) == OfLevel(regs, level)
  }

  lemma {:induction false} OfLevelConcat(a: seq<Reg>, b: seq<Reg>, level: nat)
    ensures OfLevel(a + b, level) == OfLevel(a, level) + OfLevel(b, level)
  {
    if a == [] {
      assert a + b == b;
    } else {
      assert (a + b)[0] == a[0] && (a + b)[1..] == a[1..] + b;
      OfLevelConcat(a[1..], b, level);
      var head := if a[0].level == level then [a[0]] else [];
      assert OfLevel(a + b, level) == head + (OfLevel(a[1..], level) + OfLevel(b, level));
      assert OfLevel(a, level) == head + OfLevel(a[1..], level);
    }
  }

  lemma {:induction false} OfLevelUniform(regs: seq<Reg>, at: nat, level: nat)
    requires forall i :: 0 <= i < |regs| ==> regs[i].level == at
    ensures OfLevel(regs, level) == if level == at then regs else []
  {
    if regs != [] {
      OfLevelUniform(regs[1..], at, level);
    }
  }

  /** The buckets hold the registrations of their level in order. */
  lemma {:induction false} BucketHolds(regs: seq<Reg>, level: nat)
    ensures LevelOf(Bucket(regs))(level) == OfLevel(regs, level)
    ensures level in Bucket(regs) <==> OfLevel(regs, level) != []
  {
    if regs != [] {
      var init, last := regs[..|regs| - 1], regs[|regs| - 1];
      assert regs == init + [last];
      BucketHolds(init, level);
      OfLevelConcat(init, [last], level);
      OfLevelUniform([last], last.level, level);
    }
  }

  lemma {:induction false} OfLevelMembers(regs: seq<Reg>, level: nat)
    ensures forall r :: r in OfLevel(regs, level) <==> r in regs && r.level == level
  {
    if regs != [] {
      OfLevelMembers(regs[1..], level);
    }
  }

  ghost predicate Leveled(f: nat -> seq<Reg>, levels: seq<nat>) {
    forall level, r :: level in levels && r in f(level) ==> r.level == level
  }

  lemma LeveledTail(f: nat -> seq<Reg>, levels: seq<nat>)
    requires levels != [] && Increasing(levels) && Leveled(f, levels)
    ensures Increasing(levels[1..]) && Leveled(f, levels[1..])
    ensures forall level :: level in levels[1..] ==> levels[0] < level
  {
    assert forall level :: level in levels[1..] ==> level in levels;
  }

  lemma LevelsOf(f: nat -> seq<Reg>, levels: seq<nat>, r: Reg)
    requires Leveled(f, levels) && r in FlatMap(f, levels)
    ensures r.level in levels
  {
    FlatMapIn(f, levels, r);
  }

  /** Draining level by level in increasing order. */
  lemma {:induction false} DrainSorted(f: nat -> seq<Reg>, levels: seq<nat>)
    requires Increasing(levels) && Leveled(f, levels)
    ensures Sorted(FlatMap(f, levels))
  {
    if levels != [] {
      var own, later := f(levels[0]), FlatMap(f, levels[1..]);
      LeveledTail(f, levels);
      DrainSorted(f, levels[1..]);
      forall i | 0 <= i < |own| ensures own[i].level == levels[0] {
        assert levels[0] in levels && own[i] in own;
      }
      forall i | 0 <= i < |later| ensures later[i].level > levels[0] {
        assert later[i] in later;
        LevelsOf(f, levels[1..], later[i]);
      }
      SortedConcat(own, later, levels[0]);
    }
  }

  lemma SortedConcat(own: seq<Reg>, later: seq<Reg>, level: nat)
    requires (forall i :: 0 <= i < |own| ==> own[i].level == level) && Sorted(later)
    requires forall i :: 0 <= i < |later| ==> later[i].level > level
    ensures Sorted(own + later)
  {
  }

  lemma {:induction false} DrainOfLevel(f: nat -> seq<Reg>, levels: seq<nat>, level: nat)
    requires Increasing(levels) && Leveled(f, levels)
    ensures OfLevel(FlatMap(f, levels), level) == if level in levels then f(level) else []
  {
    if levels != [] {
      var own, later := f(levels[0]), FlatMap(f, levels[1..]);
      LeveledTail(f, levels);
      DrainOfLevel(f, levels[1..], level);
      OfLevelConcat(own, later, level);
      forall i | 0 <= i < |own| ensures own[i].level == levels[0] {
        assert levels[0] in levels && own[i] in own;
      }
      OfLevelUniform(own, levels[0], level);
      assert level in levels <==> level == levels[0] || level in levels[1..];
    }
  }

  /** Bucketing and draining is a stable sort by level. */
  lemma DrainSorts(regs: seq<Reg>)
    ensures StableSortOf(regs, Drain(Bucket(regs)))
  {
    var m := Bucket(regs);
    var f, levels := LevelOf(m), Ascending(m.Keys);
    forall level, r | level in levels && r in f(level) ensures r.level == level {
      BucketHolds(regs, level);
      OfLevelMembers(regs, level);
    }
    DrainSorted(f, levels);
    forall level ensures OfLevel(Drain(m), level) == OfLevel(regs, level) {
      BucketHolds(regs, level);
      DrainOfLevel(f, levels, level);
    }
  }

  lemma {:induction false} SortedUnique(a: seq<Reg>, b: seq<Reg>)
    requires Sorted(a) && StableSortOf(a, b)
    ensures a == b
    decreases |a|
  {
    if a == [] {
      HeadHasLevel(b);
    } else {
      OfLevelMembers(a, a[0].level);
      OfLevelMembers(b, a[0].level);
      assert a[0] in OfLevel(b, a[0].level);
      assert b != [];
      OfLevelMembers(a, b[0].level);
      OfLevelMembers(b, b[0].level);
      assert b[0] in OfLevel(a, b[0].level);
      assert a[0].level == b[0].level;
      assert OfLevel(a, a[0].level)[0] == a[0] && OfLevel(b, a[0].level)[0] == b[0];
      forall level ensures OfLevel(b[1..], level) == OfLevel(a[1..], level) {
        TailOfLevel(a, level);
        TailOfLevel(b, level);
      }
      SortedUnique(a[1..], b[1..]);
    }
  }

  lemma HeadHasLevel(b: seq<Reg>)
    ensures b != [] ==> OfLevel(b, b[0].level) != []
  {
  }

  lemma TailOfLevel(a: seq<Reg>, level: nat)
    requires a != []
    ensures OfLevel(a[1..], level) == OfLevel(a, level)[if a[0].level == level then 1 else 0..]
  {
  }

  /** There is only one stable sort. */
  lemma StableSortUnique(regs: seq<Reg>, a: seq<Reg>, b: seq<Reg>)
    requires StableSortOf(regs, a) && StableSortOf(regs, b)
    ensures a == b
  {
    forall level ensures OfLevel(b, level) == OfLevel(a, level) {
      assert OfLevel(a, level) == OfLevel(regs, level);
    }
    SortedUnique(a, b);
  }

  /** A stable sort keeps every registration exactly as often as it was made. */
  lemma {:induction false} SameCounts(a: seq<Reg>, b: seq<Reg>, r: Reg)
    requires OfLevel(a, r.level) == OfLevel(b, r.level)
    ensures multiset(a)[r] == multiset(b)[r]
  {
    CountOfLevel(a, r);
    CountOfLevel(b, r);
  }

  lemma {:induction false} CountOfLevel(a: seq<Reg>, r: Reg)
    ensures multiset(a)[r] == multiset(OfLevel(a, r.level))[r]
  {
    if a != [] {
      assert a == [a[0]] + a[1..];
      CountOfLevel(a[1..], r);
    }
  }

  lemma DrainKeeps(regs: seq<Reg>)
    ensures multiset(Drain(Bucket(regs))) == multiset(regs)
  {
    DrainSorts(regs);
    var out := Drain(Bucket(regs));
    forall r ensures multiset(out)[r] == multiset(regs)[r] {
      SameCounts(out, regs, r);
    }
  }
}
