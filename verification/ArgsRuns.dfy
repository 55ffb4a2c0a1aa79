/** What whole parses guarantee: order independence, exclusive groups, leftovers, duplicates. */
module ArgsRuns {
  import opened Sequences
  import opened ArgsTables
  import opened ArgsEffects
  import opened ArgsGrammar

  /** The command line that consists of the given segments. */
  function Argv(prog: string, ss: seq<Segment>): seq<string> {
    [prog] + FlatMap(Tokens, ss)
  }

  function EffectsOf(cfg: Config, ss: seq<Segment>): seq<Effect> {
    FlatMap(SegmentEffects(cfg), ss)
  }

  lemma ParseSegments(cfg: Config, prog: string, ss: seq<Segment>)
    requires AreSegments(cfg, ss)
    ensures Parse(cfg, Argv(prog, ss)) == Conclude(ApplyAll(EMPTY, EffectsOf(cfg, ss)), None)
  {
    hide IsSegment, ScanHead;
    var argv := Argv(prog, ss);
    assert argv[1..] == FlatMap(Tokens, ss);
    ScanIsTheSegmentation(cfg, |argv|, argv[1..], ss);
    assert EffectsOf(cfg, ss) + [] == EffectsOf(cfg, ss);
  }

  /** Every parse that does not exit is the parse of a command line made of segments. */
  lemma ParsedSegments(cfg: Config, argv: seq<string>) returns (ss: seq<Segment>)
    requires argv != [] && Parse(cfg, argv).Parsed?
    ensures AreSegments(cfg, ss) && argv == Argv(argv[0], ss)
  {
    hide IsSegment, ScanHead;
    var sc := Scan(cfg, |argv|, argv[1..]);
    ScanSound(cfg, |argv|, argv[1..]);
    ss := sc.segments;
    assert argv == [argv[0]] + argv[1..];
  }

  // ---- Which groups are used ----

  lemma InteriorEffectsShape(cfg: Config, token: string, e: Effect)
    requires e in InteriorEffects(cfg, token)
    ensures e == Keep(token) || (e.Use? && cfg.IsInfo(ArgInfo(e.group, e.iden)) && e.value == e.iden)
  {
    FlatMapIn(LetterEffects(cfg, token), Interior(token), e);
    var c :| c in Interior(token) && e in LetterEffects(cfg, token)(c);
  }

  lemma UsesAreInfos(cfg: Config, ss: seq<Segment>, e: Effect)
    requires e in EffectsOf(cfg, ss) && e.Use?
    ensures cfg.IsInfo(ArgInfo(e.group, e.iden))
  {
    var n := EffectSource(cfg, ss, e);
    SegmentUses(cfg, ss[n], e);
  }

  lemma EffectSource(cfg: Config, ss: seq<Segment>, e: Effect) returns (n: nat)
    requires e in EffectsOf(cfg, ss)
    ensures n < |ss| && e in SegmentEffects(cfg)(ss[n])
  {
    hide SegmentEffects;
    FlatMapIn(SegmentEffects(cfg), ss, e);
    var s :| s in ss && e in SegmentEffects(cfg)(s);
    n :| 0 <= n < |ss| && ss[n] == s;
  }

  lemma SegmentUses(cfg: Config, s: Segment, e: Effect)
    requires e in SegmentEffects(cfg)(s) && e.Use?
    ensures cfg.IsInfo(ArgInfo(e.group, e.iden))
  {
    hide InteriorEffects;
    if (s.Cluster? || s.ClusterValue?) && e in InteriorEffects(cfg, s.token) {
      InteriorEffectsShape(cfg, s.token, e);
    }
  }

  lemma {:induction false} MarksMembers(es: seq<Effect>, m: string)
    ensures m in FlatMap(Mark, es) <==> m in FlatMap(Group, es) || m in FlatMap(Kept, es)
  {
    if es != [] {
      MarksMembers(es[1..], m);
      assert Mark(es[0]) == Group(es[0]) + Kept(es[0]);
    }
  }

  /** The shared set holds used group ids and checked leftovers side by side. */
  lemma {:induction false} MarksSplit(es: seq<Effect>)
    ensures NoDup(FlatMap(Mark, es)) <==>
            && NoDup(FlatMap(Group, es)) && NoDup(FlatMap(Kept, es))
            && forall m :: m in FlatMap(Group, es) ==> m !in FlatMap(Kept, es)
    ensures forall m :: m in FlatMap(Mark, es) <==> m in FlatMap(Group, es) || m in FlatMap(Kept, es)
  {
    forall m ensures m in FlatMap(Mark, es) <==> m in FlatMap(Group, es) || m in FlatMap(Kept, es) {
      MarksMembers(es, m);
    }
    if es != [] {
      var e, tail := es[0], es[1..];
      MarksSplit(tail);
      var marks, groups, kepts := FlatMap(Mark, tail), FlatMap(Group, tail), FlatMap(Kept, tail);
      NoDupConcat(Mark(e), marks);
      NoDupConcat(Group(e), groups);
      NoDupConcat(Kept(e), kepts);
      hide NoDup;
      assert FlatMap(Mark, es) == Mark(e) + marks;
      assert FlatMap(Group, es) == Group(e) + groups;
      assert FlatMap(Kept, es) == Kept(e) + kepts;
      SingleNoDup(e);
      assert forall m :: m in FlatMap(Group, es) <==> m in Group(e) || m in groups;
      assert forall m :: m in FlatMap(Kept, es) <==> m in Kept(e) || m in kepts;
      assert e.Use? ==> e.group in Group(e) && e.group in Mark(e);
      assert e.Keep? ==> e.token in Kept(e) && e.token in Mark(e);
    }
  }

  lemma SingleNoDup(e: Effect)
    ensures NoDup(Mark(e)) && NoDup(Group(e)) && NoDup(Kept(e))
  {
  }

  lemma {:induction false} DistinctGroupsDistinctIdens(es: seq<Effect>)
    requires NoDup(FlatMap(Group, es))
    requires forall d, e :: d in es && e in es && d.Use? && e.Use? && d.iden == e.iden ==> d.group == e.group
    ensures NoDup(FlatMap(Iden, es))
  {
    if es != [] {
      var e, tail := es[0], es[1..];
      assert forall d :: d in tail ==> d in es;
      NoDupConcat(Group(e), FlatMap(Group, tail));
      NoDupConcat(Iden(e), FlatMap(Iden, tail));
      DistinctGroupsDistinctIdens(tail);
      if e.Use? {
        FlatMapIn(Iden, tail, e.iden);
        FlatMapIn(Group, tail, e.group);
        assert e.group in Group(e);
        assert forall d :: d in tail && e.iden in Iden(d) ==> e.group in Group(d);
      }
    }
  }

  lemma RunFacts(cfg: Config, prog: string, ss: seq<Segment>)
    requires AreSegments(cfg, ss)
    ensures var es, out := EffectsOf(cfg, ss), Parse(cfg, Argv(prog, ss));
            && out == Conclude(ApplyAll(EMPTY, es), None)
            && (out.Parsed? <==> NoDup(FlatMap(Mark, es)))
            && (!out.Parsed? ==> out == Exited(TooManyParameters))
  {
    ParseSegments(cfg, prog, ss);
    AppliesIff(EMPTY, EffectsOf(cfg, ss));
  }

  /** ss is a reading of argv in which nothing enters the shared set twice. */
  ghost predicate Accepts(cfg: Config, argv: seq<string>, ss: seq<Segment>) {
    argv != [] && AreSegments(cfg, ss) && argv == Argv(argv[0], ss) && NoDup(FlatMap(Mark, EffectsOf(cfg, ss)))
  }

  /** The command lines that do not exit are exactly those with such a reading. */
  lemma ParsesIff(cfg: Config, argv: seq<string>)
    requires argv != []
    ensures Parse(cfg, argv).Parsed? <==> exists ss :: Accepts(cfg, argv, ss)
  {
    hide AreSegments, Parse, Argv, EffectsOf;
    if Parse(cfg, argv).Parsed? {
      var ss := ParsedSegments(cfg, argv);
      RunFacts(cfg, argv[0], ss);
      assert Accepts(cfg, argv, ss);
    } else if ss :| Accepts(cfg, argv, ss) {
      RunFacts(cfg, argv[0], ss);
    }
  }

  lemma RunIdens(cfg: Config, ss: seq<Segment>)
    requires cfg.DistinctIdens() && NoDup(FlatMap(Mark, EffectsOf(cfg, ss)))
    ensures NoDup(FlatMap(Iden, EffectsOf(cfg, ss)))
  {
    var es := EffectsOf(cfg, ss);
    MarksSplit(es);
    forall d, e | d in es && e in es && d.Use? && e.Use? && d.iden == e.iden ensures d.group == e.group {
      UsesAreInfos(cfg, ss, d);
      UsesAreInfos(cfg, ss, e);
      assert ArgInfo(d.group, d.iden).iden == ArgInfo(e.group, e.iden).iden;
    }
    DistinctGroupsDistinctIdens(es);
  }

  /** Exclusivity: in a parse that does not exit every group is used at most once, through whichever alias.
      Conservation: with distinct identifiers the result has one entry per option use, and each use finds its own
      value there; nothing is replaced or dropped. */
  lemma ExclusiveAndConserved(cfg: Config, prog: string, ss: seq<Segment>)
    requires AreSegments(cfg, ss) && Parse(cfg, Argv(prog, ss)).Parsed?
    ensures var es, args := EffectsOf(cfg, ss), Parse(cfg, Argv(prog, ss)).args;
            && NoDup(FlatMap(Group, es))
            && (forall k :: k in args <==> k in FlatMap(Iden, es))
            && (cfg.DistinctIdens() ==>
                  && |args| == |FlatMap(Group, es)|
                  && forall e :: e in es && e.Use? ==> e.iden in args && args[e.iden] == e.value)
  {
    hide IsSegment, Parse, SegmentEffects;
    var es := EffectsOf(cfg, ss);
    RunFacts(cfg, prog, ss);
    MarksSplit(es);
    OnlyUsedIdens(es);
    if cfg.DistinctIdens() {
      RunIdens(cfg, ss);
      NothingDropped(EMPTY, es);
      SameCount(es);
    }
  }

  lemma {:induction false} SameCount(es: seq<Effect>)
    ensures |FlatMap(Iden, es)| == |FlatMap(Group, es)|
  {
    if es != [] {
      SameCount(es[1..]);
    }
  }

  // ---- Order independence ----

  lemma BothApply(es: seq<Effect>, es': seq<Effect>)
    requires multiset(es) == multiset(es')
    ensures ApplyAll(EMPTY, es).Some? <==> ApplyAll(EMPTY, es').Some?
  {
    hide ApplyAll;
    FlatMapPermutes(Mark, es, es');
    NoDupPermutes(FlatMap(Mark, es), FlatMap(Mark, es'));
    AppliesIff(EMPTY, es);
    AppliesIff(EMPTY, es');
  }

  lemma ShownOnly(es: seq<Effect>)
    requires ApplyAll(EMPTY, es).Some?
    ensures ApplyAll(EMPTY, es).value.other == FlatMap(Shown, es)
  {
    ApplyAllOther(EMPTY, es);
    assert [] + FlatMap(Shown, es) == FlatMap(Shown, es);
  }

  lemma OnlyUsedIdens(es: seq<Effect>)
    requires ApplyAll(EMPTY, es).Some?
    ensures forall k :: k in ApplyAll(EMPTY, es).value.args <==> k in FlatMap(Iden, es)
  {
    ApplyAllArgs(EMPTY, es);
    var args := ApplyAll(EMPTY, es).value.args;
    forall k | k in args ensures k in FlatMap(Iden, es) {
      var i: nat :| FirstUse(es, k, i) && args[k] == es[i].value;
      assert k in Iden(es[i]);
      FlatMapIn(Iden, es, k);
    }
  }

  /** The value a segment gives to identifier k, if it uses it. */
  function Gives(cfg: Config, s: Segment, k: string): Option<string> {
    FirstValue(SegmentEffects(cfg)(s), k)
  }

  /** Any two segments that give a value to the same identifier give it the same value. */
  ghost predicate Agree(cfg: Config, ss: seq<Segment>) {
    forall s, t, k :: s in ss && t in ss && Gives(cfg, s, k).Some? && Gives(cfg, t, k).Some? ==>
      Gives(cfg, s, k) == Gives(cfg, t, k)
  }

  /** A reordering that parses to the same result map. */
  ghost predicate SameResult(cfg: Config, prog: string, ss: seq<Segment>, ss': seq<Segment>) {
    var a, b := Parse(cfg, Argv(prog, ss)), Parse(cfg, Argv(prog, ss'));
    a.Parsed? && b.Parsed? && b.args == a.args
  }

  lemma {:induction false} FirstOfSegments(cfg: Config, ss: seq<Segment>, k: string)
    ensures FirstValue(EffectsOf(cfg, ss), k) ==
            if ss == [] then None
            else if Gives(cfg, ss[0], k).Some? then Gives(cfg, ss[0], k)
            else FirstValue(EffectsOf(cfg, ss[1..]), k)
  {
    if ss != [] {
      FlatMapHead(SegmentEffects(cfg), ss);
      FirstValueConcat(SegmentEffects(cfg)(ss[0]), EffectsOf(cfg, ss[1..]), k);
    }
  }

  /** Some segment gives the first value, and a segment that gives one leaves none out. */
  lemma {:induction false} FirstComesFrom(cfg: Config, ss: seq<Segment>, k: string)
    ensures FirstValue(EffectsOf(cfg, ss), k).Some? ==>
              exists s :: s in ss && Gives(cfg, s, k) == FirstValue(EffectsOf(cfg, ss), k)
    ensures (exists s :: s in ss && Gives(cfg, s, k).Some?) ==> FirstValue(EffectsOf(cfg, ss), k).Some?
  {
    hide Gives, EffectsOf;
    FirstOfSegments(cfg, ss, k);
    if ss != [] {
      FirstComesFrom(cfg, ss[1..], k);
      assert ss[0] in ss && forall s :: s in ss <==> s == ss[0] || s in ss[1..];
    }
  }

  /** The result map of a parse, entry by entry. */
  lemma ResultIsFirst(cfg: Config, prog: string, ss: seq<Segment>, k: string)
    requires AreSegments(cfg, ss) && Parse(cfg, Argv(prog, ss)).Parsed?
    ensures var args, first := Parse(cfg, Argv(prog, ss)).args, FirstValue(EffectsOf(cfg, ss), k);
            (k in args <==> first.Some?) && (first.Some? ==> args[k] == first.value)
  {
    hide AreSegments, Parse, SegmentEffects, Argv;
    RunFacts(cfg, prog, ss);
    ArgsAreFirst(EMPTY, EffectsOf(cfg, ss), k);
  }

  /** Reordering segments never changes whether and how a parse exits, and only reorders the leftovers. */
  lemma ReorderedParse(cfg: Config, prog: string, ss: seq<Segment>, ss': seq<Segment>)
    requires AreSegments(cfg, ss) && multiset(ss) == multiset(ss')
    ensures AreSegments(cfg, ss')
    ensures var a, b := Parse(cfg, Argv(prog, ss)), Parse(cfg, Argv(prog, ss'));
            if a.Exited? then b == a else b.Parsed? && multiset(b.other) == multiset(a.other)
  {
    hide IsSegment, AreSegments, Parse, SegmentEffects, Tokens, ApplyAll;
    SegmentsPermute(cfg, ss, ss');
    var es, es' := EffectsOf(cfg, ss), EffectsOf(cfg, ss');
    FlatMapPermutes(SegmentEffects(cfg), ss, ss');
    RunFacts(cfg, prog, ss);
    RunFacts(cfg, prog, ss');
    BothApply(es, es');
    if ApplyAll(EMPTY, es).Some? {
      ShownOnly(es);
      ShownOnly(es');
      FlatMapPermutes(Shown, es, es');
    }
  }

  /** Agreeing segments may be reordered. */
  lemma AgreeingReorder(cfg: Config, prog: string, ss: seq<Segment>, ss': seq<Segment>)
    requires AreSegments(cfg, ss) && multiset(ss) == multiset(ss') && Agree(cfg, ss)
    requires Parse(cfg, Argv(prog, ss)).Parsed?
    ensures SameResult(cfg, prog, ss, ss')
  {
    hide AreSegments, Parse, Gives, EffectsOf, Argv;
    ReorderedParse(cfg, prog, ss, ss');
    var a, b := Parse(cfg, Argv(prog, ss)).args, Parse(cfg, Argv(prog, ss')).args;
    forall k ensures (k in a <==> k in b) && (k in a && k in b ==> a[k] == b[k]) {
      ResultIsFirst(cfg, prog, ss, k);
      ResultIsFirst(cfg, prog, ss', k);
      FirstComesFrom(cfg, ss, k);
      FirstComesFrom(cfg, ss', k);
      forall s ensures s in ss <==> s in ss' {
        InPermuted(ss, ss', s);
      }
    }
  }

  /** The value of identifier k when segment s comes first. */
  lemma MovedToFront(cfg: Config, prog: string, ss: seq<Segment>, s: Segment, k: string) returns (ss': seq<Segment>)
    requires AreSegments(cfg, ss) && s in ss && Parse(cfg, Argv(prog, ss)).Parsed? && Gives(cfg, s, k).Some?
    ensures multiset(ss') == multiset(ss) && Parse(cfg, Argv(prog, ss')).Parsed?
    ensures var args := Parse(cfg, Argv(prog, ss')).args; k in args && args[k] == Gives(cfg, s, k).value
  {
    hide AreSegments, Parse, Gives, EffectsOf, Argv;
    var i := IndexIn(ss, s, ss);
    ss' := [s] + (ss[..i] + ss[i + 1..]);
    CountMiddle(ss[..i], s, ss[i + 1..]);
    assert multiset(ss') == multiset(ss);
    ReorderedParse(cfg, prog, ss, ss');
    ResultIsFirst(cfg, prog, ss', k);
    FirstOfSegments(cfg, ss', k);
  }

  /** The exact condition of order independence: all reorderings of a command line that parses give the same result
      exactly when any two of its segments that give a value to the same identifier give it the same value. */
  lemma OrderIndependenceIff(cfg: Config, prog: string, ss: seq<Segment>)
    requires AreSegments(cfg, ss) && Parse(cfg, Argv(prog, ss)).Parsed?
    ensures (forall ss' :: multiset(ss') == multiset(ss) ==> SameResult(cfg, prog, ss, ss')) <==> Agree(cfg, ss)
  {
    hide AreSegments, Parse, Gives, Argv;
    if Agree(cfg, ss) {
      forall ss' | multiset(ss') == multiset(ss) ensures SameResult(cfg, prog, ss, ss') {
        AgreeingReorder(cfg, prog, ss, ss');
      }
    }
    if forall ss' :: multiset(ss') == multiset(ss) ==> SameResult(cfg, prog, ss, ss') {
      forall s, t, k | s in ss && t in ss && Gives(cfg, s, k).Some? && Gives(cfg, t, k).Some?
        ensures Gives(cfg, s, k) == Gives(cfg, t, k)
      {
        var front := MovedToFront(cfg, prog, ss, s, k);
        var other := MovedToFront(cfg, prog, ss, t, k);
        assert SameResult(cfg, prog, ss, front) && SameResult(cfg, prog, ss, other);
      }
    }
  }

  /** Identifiers that belong to one registration each make any two segments agree: a parse that does not exit uses
      such an identifier once. */
  lemma DistinctIdensAgree(cfg: Config, prog: string, ss: seq<Segment>)
    requires cfg.DistinctIdens() && AreSegments(cfg, ss) && Parse(cfg, Argv(prog, ss)).Parsed?
    ensures Agree(cfg, ss)
  {
    hide AreSegments, Parse, SegmentEffects;
    RunFacts(cfg, prog, ss);
    RunIdens(cfg, ss);
    forall s, t, k | s in ss && t in ss && Gives(cfg, s, k).Some? && Gives(cfg, t, k).Some?
      ensures Gives(cfg, s, k) == Gives(cfg, t, k)
    {
      if s != t {
        UsedBySegmentsTwice(cfg, ss, s, t, k);
      }
    }
  }

  lemma {:induction false} UsedBySegmentsTwice(cfg: Config, ss: seq<Segment>, s: Segment, t: Segment, k: string)
    requires s in ss && t in ss && s != t && Gives(cfg, s, k).Some? && Gives(cfg, t, k).Some?
    ensures !NoDup(FlatMap(Iden, EffectsOf(cfg, ss)))
  {
    hide SegmentEffects, NoDup;
    var own, later := SegmentEffects(cfg)(ss[0]), EffectsOf(cfg, ss[1..]);
    FlatMapHead(SegmentEffects(cfg), ss);
    FlatMapConcat(Iden, own, later);
    NoDupConcat(FlatMap(Iden, own), FlatMap(Iden, later));
    assert s == ss[0] || s in ss[1..];
    assert t == ss[0] || t in ss[1..];
    if s in ss[1..] && t in ss[1..] {
      UsedBySegmentsTwice(cfg, ss[1..], s, t, k);
    } else {
      FirstValueIn(own, k);
      FirstValueIn(later, k);
      FirstComesFrom(cfg, ss[1..], k);
    }
  }

  /** Without groups every use stores its own identifier, so any two segments agree. */
  lemma FlagsAgree(cfg: Config, ss: seq<Segment>)
    requires cfg.groups == map[]
    ensures Agree(cfg, ss)
  {
    forall s, k | Gives(cfg, s, k).Some? ensures Gives(cfg, s, k) == Some(k) {
      FirstValueIn(SegmentEffects(cfg)(s), k);
      var e :| e in SegmentEffects(cfg)(s) && e.Use? && e.iden == k && e.value == Gives(cfg, s, k).value;
      if (s.Cluster? || s.ClusterValue?) && e in InteriorEffects(cfg, s.token) {
        InteriorEffectsShape(cfg, s.token, e);
      }
    }
  }

  /** Reordering complete segments changes neither whether the parse exits nor its result map, and it only
      reorders the leftovers. */
  lemma OrderIndependence(cfg: Config, prog: string, ss: seq<Segment>, ss': seq<Segment>)
    requires cfg.DistinctIdens() && AreSegments(cfg, ss) && multiset(ss) == multiset(ss')
    ensures var a, b := Parse(cfg, Argv(prog, ss)), Parse(cfg, Argv(prog, ss'));
            if a.Exited? then b == a
            else b.Parsed? && b.args == a.args && multiset(b.other) == multiset(a.other)
  {
    hide AreSegments, Parse, Argv;
    ReorderedParse(cfg, prog, ss, ss');
    if Parse(cfg, Argv(prog, ss)).Parsed? {
      DistinctIdensAgree(cfg, prog, ss);
      OrderIndependenceIff(cfg, prog, ss);
      assert SameResult(cfg, prog, ss, ss');
    }
  }

  lemma InPermuted<T>(s: seq<T>, t: seq<T>, x: T)
    requires multiset(s) == multiset(t)
    ensures x in s <==> x in t
  {
    assert x in s <==> x in multiset(s);
    assert x in t <==> x in multiset(t);
  }

  lemma SegmentsPermute(cfg: Config, ss: seq<Segment>, ss': seq<Segment>)
    requires AreSegments(cfg, ss) && multiset(ss) == multiset(ss')
    ensures AreSegments(cfg, ss')
  {
    hide IsSegment;
    forall i | 0 <= i < |ss'| ensures IsSegment(cfg, ss'[i]) {
      InPermuted(ss, ss', ss'[i]);
    }
  }

  /** In particular for two adjacent segments. */
  lemma AdjacentSwap(cfg: Config, prog: string, before: seq<Segment>, s: Segment, t: Segment, after: seq<Segment>)
    requires cfg.DistinctIdens() && AreSegments(cfg, before + [s, t] + after)
    ensures var a := Parse(cfg, Argv(prog, before + [s, t] + after));
            var b := Parse(cfg, Argv(prog, before + [t, s] + after));
            if a.Exited? then b == a
            else b.Parsed? && b.args == a.args && multiset(b.other) == multiset(a.other)
  {
    hide IsSegment, Parse;
    assert multiset([s, t]) == multiset([t, s]);
    OrderIndependence(cfg, prog, before + [s, t] + after, before + [t, s] + after);
  }

  /** Two segments that give an identifier different values do not commute: whichever comes first decides. */
  lemma DisagreeingPair(cfg: Config, prog: string, s: Segment, t: Segment, k: string)
    requires AreSegments(cfg, [s, t]) && Parse(cfg, Argv(prog, [s, t])).Parsed?
    requires Gives(cfg, s, k).Some? && Gives(cfg, t, k).Some? && Gives(cfg, s, k) != Gives(cfg, t, k)
    ensures var a, b := Parse(cfg, Argv(prog, [s, t])), Parse(cfg, Argv(prog, [t, s]));
            && b.Parsed? && k in a.args && k in b.args
            && a.args[k] == Gives(cfg, s, k).value && b.args[k] == Gives(cfg, t, k).value && a.args != b.args
  {
    hide AreSegments, Parse, Gives, Argv, EffectsOf;
    assert multiset([s, t]) == multiset([t, s]);
    ReorderedParse(cfg, prog, [s, t], [t, s]);
    ResultIsFirst(cfg, prog, [s, t], k);
    ResultIsFirst(cfg, prog, [t, s], k);
    FirstOfSegments(cfg, [s, t], k);
    FirstOfSegments(cfg, [t, s], k);
  }

  /** So do a group key and a flag of different registrations that share an identifier, unless the value happens to
      be that identifier. */
  lemma SharedIdenDependsOnOrder(cfg: Config, prog: string, k: string, v: string, f: string)
    requires IsSegment(cfg, KeyValue(k, v)) && IsSegment(cfg, FlagUse(f))
    requires cfg.groups[k].group != cfg.flags[f].group && cfg.groups[k].iden == cfg.flags[f].iden != v
    ensures var iden := cfg.flags[f].iden;
            && Parse(cfg, [prog, k, v, f]) == Parsed(map[iden := v], [])
            && Parse(cfg, [prog, f, k, v]) == Parsed(map[iden := iden], [])
  {
    var a, b := cfg.groups[k], cfg.flags[f];
    var g, h := Use(a.group, a.iden, v), Use(b.group, b.iden, b.iden);
    TwoSegments(cfg, prog, KeyValue(k, v), FlagUse(f));
    TwoSegments(cfg, prog, FlagUse(f), KeyValue(k, v));
    TwoEffects(g, h);
    TwoEffects(h, g);
    assert [prog] + [k, v] + [f] == [prog, k, v, f] && [prog] + [f] + [k, v] == [prog, f, k, v];
  }

  /** And two group keys of different registrations with different values. */
  lemma SharedIdenOfGroups(cfg: Config, prog: string, k: string, v: string, l: string, w: string)
    requires IsSegment(cfg, KeyValue(k, v)) && IsSegment(cfg, KeyValue(l, w)) && v != w
    requires cfg.groups[k].group != cfg.groups[l].group && cfg.groups[k].iden == cfg.groups[l].iden
    ensures var iden := cfg.groups[k].iden;
            && Parse(cfg, [prog, k, v, l, w]) == Parsed(map[iden := v], [])
            && Parse(cfg, [prog, l, w, k, v]) == Parsed(map[iden := w], [])
  {
    var a, b := cfg.groups[k], cfg.groups[l];
    var g, h := Use(a.group, a.iden, v), Use(b.group, b.iden, w);
    TwoSegments(cfg, prog, KeyValue(k, v), KeyValue(l, w));
    TwoSegments(cfg, prog, KeyValue(l, w), KeyValue(k, v));
    TwoEffects(g, h);
    TwoEffects(h, g);
    assert [prog] + [k, v] + [l, w] == [prog, k, v, l, w] && [prog] + [l, w] + [k, v] == [prog, l, w, k, v];
  }

  lemma TwoEffects(d: Effect, e: Effect)
    requires d.Use? && e.Use? && d.group != e.group && d.iden == e.iden
    ensures ApplyAll(EMPTY, [d] + [e]) == Some(Store({d.group, e.group}, map[d.iden := d.value], []))
  {
    assert ([d] + [e])[1..] == [e] && [e][1..] == [];
    var mid := Store({d.group}, map[d.iden := d.value], []);
    assert EMPTY.used + {d.group} == mid.used && Emplace(EMPTY.args, d.iden, d.value) == mid.args;
    assert mid.used + {e.group} == {d.group, e.group};
    assert ApplyAll(mid, [e]) == Apply(mid, e);
    assert ApplyAll(EMPTY, [d] + [e]) == ApplyAll(mid, [e]);
  }

  lemma TwoSegments(cfg: Config, prog: string, s: Segment, t: Segment)
    requires IsSegment(cfg, s) && IsSegment(cfg, t)
    ensures Parse(cfg, [prog] + Tokens(s) + Tokens(t)) ==
            Conclude(ApplyAll(EMPTY, SegmentEffects(cfg)(s) + SegmentEffects(cfg)(t)), None)
  {
    hide IsSegment, Parse;
    var ss := [s, t];
    FlatMapConcat(Tokens, [s], [t]);
    FlatMapOne(Tokens, s);
    FlatMapOne(Tokens, t);
    FlatMapConcat(SegmentEffects(cfg), [s], [t]);
    FlatMapOne(SegmentEffects(cfg), s);
    FlatMapOne(SegmentEffects(cfg), t);
    assert [s] + [t] == ss;
    assert Argv(prog, ss) == [prog] + Tokens(s) + Tokens(t);
    ParseSegments(cfg, prog, ss);
  }
}
