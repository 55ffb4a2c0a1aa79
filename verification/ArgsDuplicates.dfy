/** When a parse exits over a duplicate, what the leftover list contains, and what the interior letters of a
    cluster do. */
module ArgsDuplicates {
  import opened Sequences
  import opened ArgsTables
  import opened ArgsEffects
  import opened ArgsGrammar
  import opened ArgsRuns
  import Decimal

  /** The group ids a command line uses, and the leftovers it enters into the shared set. */
  function UsedGroups(cfg: Config, ss: seq<Segment>): seq<string> {
    FlatMap(Group, EffectsOf(cfg, ss))
  }

  function CheckedLeftovers(cfg: Config, ss: seq<Segment>): seq<string> {
    FlatMap(Kept, EffectsOf(cfg, ss))
  }

  /** The exact condition of the duplicate exit. The third cause is an accident of the shared set: a leftover
      token that spells the id of a used group. */
  lemma DuplicateExitIff(cfg: Config, prog: string, ss: seq<Segment>)
    requires AreSegments(cfg, ss)
    ensures var gs, ts := UsedGroups(cfg, ss), CheckedLeftovers(cfg, ss);
            Parse(cfg, Argv(prog, ss)) == Exited(TooManyParameters) <==>
            !NoDup(gs) || !NoDup(ts) || exists t :: t in gs && t in ts
  {
    RunFacts(cfg, prog, ss);
    MarksSplit(EffectsOf(cfg, ss));
  }

  lemma CheckedLeftoverShape(cfg: Config, ss: seq<Segment>, t: string)
    requires AreSegments(cfg, ss) && t in CheckedLeftovers(cfg, ss)
    ensures Leftover(t) in ss || ClusterToken(cfg, t)
  {
    var es := EffectsOf(cfg, ss);
    FlatMapIn(Kept, es, t);
    var e :| e in es && t in Kept(e);
    var n := EffectSource(cfg, ss, e);
    var s := ss[n];
    if s.Cluster? || s.ClusterValue? {
      ClusterKeeps(cfg, s, e);
    }
  }

  lemma ClusterKeeps(cfg: Config, s: Segment, e: Effect)
    requires (s.Cluster? || s.ClusterValue?) && e in SegmentEffects(cfg)(s) && e.Keep?
    ensures e == Keep(s.token)
  {
    if e in InteriorEffects(cfg, s.token) {
      InteriorEffectsShape(cfg, s.token, e);
    }
  }

  lemma UsedGroupIsNumeral(cfg: Config, ss: seq<Segment>, g: string)
    requires cfg.NumberedIds() && g in UsedGroups(cfg, ss)
    ensures Decimal.IsNumeral(g)
  {
    var es := EffectsOf(cfg, ss);
    FlatMapIn(Group, es, g);
    var e :| e in es && g in Group(e);
    UsesAreInfos(cfg, ss, e);
  }

  /** When no leftover is a decimal numeral, a parse exits over a duplicate exactly when a group is used twice
      or a leftover is recorded twice. */
  lemma DuplicateExitWithoutNumerals(cfg: Config, prog: string, ss: seq<Segment>)
    requires AreSegments(cfg, ss) && cfg.NumberedIds()
    requires forall t :: Leftover(t) in ss ==> !Decimal.IsNumeral(t)
    ensures Parse(cfg, Argv(prog, ss)) == Exited(TooManyParameters) <==>
            !NoDup(UsedGroups(cfg, ss)) || !NoDup(CheckedLeftovers(cfg, ss))
  {
    hide IsSegment, AreSegments, Parse;
    DuplicateExitIff(cfg, prog, ss);
    forall t | t in UsedGroups(cfg, ss) ensures t !in CheckedLeftovers(cfg, ss) {
      UsedGroupIsNumeral(cfg, ss, t);
      if t in CheckedLeftovers(cfg, ss) {
        CheckedLeftoverShape(cfg, ss, t);
      }
    }
  }

  /** The restriction is needed: a flag followed by its own id as a leftover exits although neither is repeated,
      while any other leftover is accepted. */
  lemma IdAsLeftover(cfg: Config, prog: string, f: string, t: string)
    requires IsSegment(cfg, FlagUse(f)) && IsSegment(cfg, Leftover(t))
    ensures Parse(cfg, [prog, f, t]) ==
            if t == cfg.flags[f].group then Exited(TooManyParameters)
            else Parsed(map[cfg.flags[f].iden := cfg.flags[f].iden], [t])
  {
    var info := cfg.flags[f];
    var d, e := Use(info.group, info.iden, info.iden), Keep(t);
    TwoSegments(cfg, prog, FlagUse(f), Leftover(t));
    hide IsSegment, Parse;
    assert [prog] + [f] + [t] == [prog, f, t];
    assert ([d] + [e])[1..] == [e] && [e][1..] == [];
    var mid := Store({} + {info.group}, map[][info.iden := info.iden], []);
    assert Apply(EMPTY, d) == Some(mid);
    assert ApplyAll(mid, [e]) == Apply(mid, e);
    assert t != info.group ==> Apply(mid, e) == Some(Store({info.group, t}, mid.args, [] + [t])) by {
      assert mid.used + {t} == {info.group, t};
    }
  }

  // ---- Leftovers ----

  function Repeat(t: string, n: nat): seq<string> {
    seq(n, _ => t)
  }

  lemma RepeatNoDup(t: string, n: nat)
    ensures NoDup(Repeat(t, n)) <==> n <= 1
  {
    var ts := Repeat(t, n);
    if n > 1 {
      assert ts[0] == ts[1];
    }
  }

  /** The interior letters of a cluster that are no flags. */
  function UnknownInterior(cfg: Config, token: string): string {
    Unknown(cfg, Interior(token))
  }

  function Unknown(cfg: Config, letters: string): string {
    if letters == "" then ""
    else (if Dash(letters[0]) in cfg.flags then "" else [letters[0]]) + Unknown(cfg, letters[1..])
  }

  /** How often the token of a segment ends up in the leftover list. */
  function Copies(cfg: Config, s: Segment): nat {
    match s
    case Leftover(_) => 1
    case Cluster(t) =>
      |UnknownInterior(cfg, t)| + if t != "" && LastOption(t) in cfg.flags then 0 else 1
    case ClusterValue(t, _) => |UnknownInterior(cfg, t)|
    case _ => 0
  }

  function CopiesOf(cfg: Config): Segment -> seq<string> {
    (s: Segment) => Repeat(Tokens(s)[0], Copies(cfg, s))
  }

  lemma {:induction false} InteriorTokens(cfg: Config, token: string, letters: string)
    ensures var es := FlatMap(LetterEffects(cfg, token), letters);
            var ts := Repeat(token, |Unknown(cfg, letters)|);
            FlatMap(Shown, es) == ts && FlatMap(Kept, es) == ts
  {
    if letters != "" {
      var f := LetterEffects(cfg, token);
      InteriorTokens(cfg, token, letters[1..]);
      var own, later := f(letters[0]), FlatMap(f, letters[1..]);
      FlatMapConcat(Shown, own, later);
      FlatMapConcat(Kept, own, later);
      FlatMapOne(Shown, own[0]);
      FlatMapOne(Kept, own[0]);
      assert own == [own[0]];
    }
  }

  lemma SegmentShown(cfg: Config, s: Segment)
    requires IsSegment(cfg, s)
    ensures FlatMap(Shown, SegmentEffects(cfg)(s)) == CopiesOf(cfg)(s)
  {
    hide Reserved, ClusterToken;
    match s {
      case Cluster(t) =>
        assert t != "" by { assert ClusterToken(cfg, t); ClusterNonEmpty(cfg, t); }
        var last := if LastOption(t) in cfg.flags then UseFlag(cfg, LastOption(t)) else [Push(t)];
        InteriorTokens(cfg, t, Interior(t));
        FlatMapConcat(Shown, InteriorEffects(cfg, t), last);
        FlatMapOne(Shown, last[0]);
        assert last == [last[0]];
      case ClusterValue(t, v) =>
        assert t != "" by { assert ClusterToken(cfg, t); ClusterNonEmpty(cfg, t); }
        var last := UseGroup(cfg, LastOption(t), v);
        InteriorTokens(cfg, t, Interior(t));
        FlatMapConcat(Shown, InteriorEffects(cfg, t), last);
        FlatMapOne(Shown, last[0]);
        assert last == [last[0]];
      case _ =>
        var e := SegmentEffects(cfg)(s)[0];
        assert SegmentEffects(cfg)(s) == [e];
        FlatMapOne(Shown, e);
    }
  }

  lemma ClusterNonEmpty(cfg: Config, t: string)
    requires ClusterToken(cfg, t)
    ensures t != ""
  {
  }

  lemma {:induction false} ShownCopies(cfg: Config, ss: seq<Segment>)
    requires AreSegments(cfg, ss)
    ensures FlatMap(Shown, EffectsOf(cfg, ss)) == FlatMap(CopiesOf(cfg), ss)
  {
    hide IsSegment, Copies;
    if ss != [] {
      assert AreSegments(cfg, ss[1..]);
      SegmentShown(cfg, ss[0]);
      FlatMapConcat(Shown, SegmentEffects(cfg)(ss[0]), EffectsOf(cfg, ss[1..]));
      ShownCopies(cfg, ss[1..]);
    }
  }

  /** The interior letters of a cluster, from any state: they go through only if at most one of them is no flag,
      and then the flags of all the others are recorded. */
  lemma ClusterInterior(cfg: Config, token: string, st: Store)
    ensures ApplyAll(st, InteriorEffects(cfg, token)).Some? ==>
              && |UnknownInterior(cfg, token)| <= 1
              && forall c :: c in Interior(token) && Dash(c) in cfg.flags ==>
                   var done, info := ApplyAll(st, InteriorEffects(cfg, token)).value, cfg.flags[Dash(c)];
                   info.group in done.used && info.iden in done.args
  {
    var f := LetterEffects(cfg, token);
    var es := InteriorEffects(cfg, token);
    if ApplyAll(st, es).Some? {
      AppliesIff(st, es);
      MarksSplit(es);
      InteriorTokens(cfg, token, Interior(token));
      RepeatNoDup(token, |UnknownInterior(cfg, token)|);
      ApplyAllArgs(st, es);
      ApplyAllUsed(st, es);
      forall c | c in Interior(token) && Dash(c) in cfg.flags
        ensures cfg.flags[Dash(c)].group in FlatMap(Mark, es) && cfg.flags[Dash(c)].iden in FlatMap(Iden, es)
      {
        var e := f(c)[0];
        assert e in f(c) && e.group in Mark(e) && e.iden in Iden(e);
        FlatMapIn(f, Interior(token), e);
        FlatMapIn(Mark, es, e.group);
        FlatMapIn(Iden, es, e.iden);
      }
    }
  }

  /** The leftover list of a parse is made of 0, 1 or 2 copies of the token of each segment, in order. */
  lemma LeftoversAreCopies(cfg: Config, prog: string, ss: seq<Segment>)
    requires AreSegments(cfg, ss) && Parse(cfg, Argv(prog, ss)).Parsed?
    ensures Parse(cfg, Argv(prog, ss)).other == FlatMap(CopiesOf(cfg), ss)
    ensures forall s :: s in ss ==> Copies(cfg, s) <= 2
  {
    hide IsSegment, Parse;
    RunFacts(cfg, prog, ss);
    ApplyAllOther(EMPTY, EffectsOf(cfg, ss));
    ShownCopies(cfg, ss);
    assert [] + FlatMap(CopiesOf(cfg), ss) == FlatMap(CopiesOf(cfg), ss);
    forall s | s in ss ensures Copies(cfg, s) <= 2 {
      var i :| 0 <= i < |ss| && ss[i] == s;
      var mid := SegmentApplies(cfg, ss, i, EMPTY);
      CopiesBound(cfg, s, mid);
    }
  }

  /** In a run that goes through, every segment goes through from some state. */
  lemma SegmentApplies(cfg: Config, ss: seq<Segment>, i: nat, st: Store) returns (mid: Store)
    requires i < |ss| && ApplyAll(st, EffectsOf(cfg, ss)).Some?
    ensures ApplyAll(mid, SegmentEffects(cfg)(ss[i])).Some?
  {
    hide SegmentEffects;
    var f := SegmentEffects(cfg);
    var before, own, later := FlatMap(f, ss[..i]), f(ss[i]), FlatMap(f, ss[i + 1..]);
    assert ss == ss[..i] + ([ss[i]] + ss[i + 1..]);
    FlatMapConcat(f, ss[..i], [ss[i]] + ss[i + 1..]);
    FlatMapConcat(f, [ss[i]], ss[i + 1..]);
    FlatMapOne(f, ss[i]);
    ApplyConcat(st, before, own + later);
    mid := ApplyAll(st, before).value;
    ApplyConcat(mid, own, later);
  }

  lemma CopiesBound(cfg: Config, s: Segment, st: Store)
    requires ApplyAll(st, SegmentEffects(cfg)(s)).Some?
    ensures Copies(cfg, s) <= 2
  {
    if s.Cluster? || s.ClusterValue? {
      var es, inner := SegmentEffects(cfg)(s), InteriorEffects(cfg, s.token);
      assert es == inner + es[|inner|..];
      ApplyConcat(st, inner, es[|inner|..]);
      ClusterInterior(cfg, s.token, st);
    }
  }

  /** The parse without a leftover list succeeds exactly on the command lines that have a reading without
      duplicates in which no segment leaves a token over. */
  lemma StrictParsesIff(cfg: Config, argv: seq<string>)
    requires argv != []
    ensures ParseStrict(cfg, argv).Parsed? <==>
            exists ss :: Accepts(cfg, argv, ss) && forall s :: s in ss ==> Copies(cfg, s) == 0
  {
    hide AreSegments, Parse, Copies, Argv, EffectsOf;
    if Parse(cfg, argv).Parsed? {
      var ss := ParsedSegments(cfg, argv);
      RunFacts(cfg, argv[0], ss);
      assert Accepts(cfg, argv, ss);
      StrictReading(cfg, argv, ss);
    }
    if ss :| Accepts(cfg, argv, ss) && forall s :: s in ss ==> Copies(cfg, s) == 0 {
      StrictReading(cfg, argv, ss);
    }
  }

  lemma StrictReading(cfg: Config, argv: seq<string>, ss: seq<Segment>)
    requires Accepts(cfg, argv, ss)
    ensures ParseStrict(cfg, argv).Parsed? <==> forall s :: s in ss ==> Copies(cfg, s) == 0
  {
    hide AreSegments, Parse, Copies, Argv, EffectsOf;
    RunFacts(cfg, argv[0], ss);
    LeftoversAreCopies(cfg, argv[0], ss);
    NoCopies(cfg, ss);
  }

  lemma NoCopies(cfg: Config, ss: seq<Segment>)
    ensures FlatMap(CopiesOf(cfg), ss) == [] <==> forall s :: s in ss ==> Copies(cfg, s) == 0
  {
    var ts := FlatMap(CopiesOf(cfg), ss);
    if ts != [] {
      assert ts[0] in ts;
      FlatMapIn(CopiesOf(cfg), ss, ts[0]);
    }
    forall s | s in ss && Copies(cfg, s) > 0 ensures ts != [] {
      assert CopiesOf(cfg)(s)[0] in CopiesOf(cfg)(s);
      FlatMapIn(CopiesOf(cfg), ss, CopiesOf(cfg)(s)[0]);
    }
  }
}
