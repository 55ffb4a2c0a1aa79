/** Where the values of a parse come from, what a consumed value is not, and when the parser prints. */
module ArgsProvenance {
  import opened Sequences
  import opened ArgsTables
  import opened ArgsEffects
  import opened ArgsGrammar
  import opened ArgsRuns
  import opened ArgsLaws

  /** argv[i] is where the parse looks for an option: a segment starts there, so it is not itself consumed as the
      value of another option. */
  ghost predicate AtHead(cfg: Config, argv: seq<string>, i: nat) {
    argv != [] && exists ss, n: nat :: AreSegments(cfg, ss) && argv == Argv(argv[0], ss) && StartsAt(ss, n, i)
  }

  ghost predicate StartsAt(ss: seq<Segment>, n: nat, i: nat) {
    n < |ss| && Position(ss, n) == i
  }

  /** argv[i] is the option that gave identifier key its value: a group key followed by a value that is no
      alias, a cluster ending in such a key, key=value cut at the first '=', or a flag, which stores its own
      identifier. */
  ghost predicate Origin(cfg: Config, argv: seq<string>, i: nat, key: string, value: string) {
    && 1 <= i < |argv| && AtHead(cfg, argv, i)
    && var t := argv[i];
       || (t in cfg.groups && cfg.groups[t].iden == key && FollowedBy(cfg, argv, i, value))
       || (ClusterToken(cfg, t) && LastOption(t) !in cfg.flags && LastOption(t) in cfg.groups &&
           cfg.groups[LastOption(t)].iden == key && FollowedBy(cfg, argv, i, value))
       || (exists k :: Assigns(cfg, t, k, value) && cfg.groups[k].iden == key)
       || (value == key && FlagOrigin(cfg, t, key))
  }

  ghost predicate FollowedBy(cfg: Config, argv: seq<string>, i: nat, value: string) {
    i + 1 < |argv| && argv[i + 1] == value && !cfg.Known(value)
  }

  ghost predicate FlagOrigin(cfg: Config, t: string, key: string) {
    || (t in cfg.flags && cfg.flags[t].iden == key)
    || (ClusterToken(cfg, t) && exists c :: c in t[1..] && Dash(c) in cfg.flags && cfg.flags[Dash(c)].iden == key)
  }

  /** The tokens of segment n of a command line start at this position. */
  function Position(ss: seq<Segment>, n: nat): nat
    requires n <= |ss|
  {
    1 + |FlatMap(Tokens, ss[..n])|
  }

  lemma SegmentAt(prog: string, ss: seq<Segment>, n: nat)
    requires n < |ss|
    ensures var p := Position(ss, n);
            p + |Tokens(ss[n])| <= |Argv(prog, ss)| &&
            Argv(prog, ss)[p..p + |Tokens(ss[n])|] == Tokens(ss[n])
  {
    var before, after := FlatMap(Tokens, ss[..n]), FlatMap(Tokens, ss[n + 1..]);
    assert ss == ss[..n] + ([ss[n]] + ss[n + 1..]);
    FlatMapConcat(Tokens, ss[..n], [ss[n]] + ss[n + 1..]);
    FlatMapConcat(Tokens, [ss[n]], ss[n + 1..]);
    FlatMapOne(Tokens, ss[n]);
    assert Argv(prog, ss) == [prog] + before + Tokens(ss[n]) + after;
  }

  lemma InteriorOrigin(cfg: Config, t: string, e: Effect)
    requires ClusterToken(cfg, t) && e in InteriorEffects(cfg, t) && e.Use?
    ensures e.value == e.iden && FlagOrigin(cfg, t, e.iden)
  {
    FlatMapIn(LetterEffects(cfg, t), Interior(t), e);
    var c :| c in Interior(t) && e in LetterEffects(cfg, t)(c);
    assert Interior(t) == t[1..][..|t| - 2];
    assert c in t[1..];
  }

  lemma LastOrigin(cfg: Config, t: string)
    requires ClusterToken(cfg, t) && LastOption(t) in cfg.flags
    ensures FlagOrigin(cfg, t, cfg.flags[LastOption(t)].iden)
  {
    var c := t[|t| - 1];
    assert t[1..][|t| - 2] == c;
    assert c in t[1..];
  }

  lemma SegmentOrigin(cfg: Config, argv: seq<string>, i: nat, s: Segment, e: Effect)
    requires IsSegment(cfg, s) && e in SegmentEffects(cfg)(s) && e.Use?
    requires 1 <= i && i + |Tokens(s)| <= |argv| && argv[i..i + |Tokens(s)|] == Tokens(s) && AtHead(cfg, argv, i)
    ensures Origin(cfg, argv, i, e.iden, e.value)
  {
    hide Reserved, ClusterToken, AtHead;
    var own := argv[i..i + |Tokens(s)|];
    assert argv[i] == own[0];
    assert |own| > 1 ==> argv[i + 1] == own[1];
    match s {
      case Assignment(k, v) => assert Assigns(cfg, argv[i], k, v);
      case Cluster(t) =>
        if e in InteriorEffects(cfg, t) {
          InteriorOrigin(cfg, t, e);
        } else {
          LastOrigin(cfg, t);
        }
      case ClusterValue(t, v) =>
        if e in InteriorEffects(cfg, t) {
          InteriorOrigin(cfg, t, e);
        }
      case _ =>
    }
  }

  /** Every stored value has an origin on the command line. */
  lemma Provenance(cfg: Config, argv: seq<string>, key: string)
    requires argv != [] && Parse(cfg, argv).Parsed? && key in Parse(cfg, argv).args
    ensures exists i :: Origin(cfg, argv, i, key, Parse(cfg, argv).args[key])
  {
    hide IsSegment, Parse, Origin, Tokens, SegmentEffects;
    var ss := ParsedSegments(cfg, argv);
    var es := EffectsOf(cfg, ss);
    RunFacts(cfg, argv[0], ss);
    ApplyAllArgs(EMPTY, es);
    var args := Parse(cfg, argv).args;
    var j: nat :| FirstUse(es, key, j) && args[key] == es[j].value;
    var n := EffectSource(cfg, ss, es[j]);
    SegmentAt(argv[0], ss, n);
    assert StartsAt(ss, n, Position(ss, n));
    SegmentOrigin(cfg, argv, Position(ss, n), ss[n], es[j]);
  }

  /** A token consumed as a value is never interpreted: from any state, key and value are recorded together and
      the parse goes on behind the value, whatever the value spells, be it "--help". */
  lemma ValueIsNotInterpreted(cfg: Config, argc: nat, k: string, v: string, rest: seq<string>, st: Store)
    requires !Reserved(cfg, k) && k in cfg.groups && !cfg.Known(v)
    ensures var info := cfg.groups[k];
            Resume(cfg, argc, [k, v] + rest, st) ==
            if info.group in st.used then Exited(TooManyParameters)
            else Resume(cfg, argc, rest, Store(st.used + {info.group}, Emplace(st.args, info.iden, v), st.other))
  {
    var toks := [k, v] + rest;
    SegmentIsHead(cfg, argc, KeyValue(k, v), rest);
    ResumeStep(cfg, argc, toks, st);
    hide Resume, ScanHead, Reserved;
    assert toks[2..] == rest;
    var e := Use(cfg.groups[k].group, cfg.groups[k].iden, v);
    assert SegmentEffects(cfg)(KeyValue(k, v)) == [e];
    assert [e][1..] == [];
    assert ApplyAll(st, [e]) == Apply(st, e);
  }

  /** The same for the value a cluster takes: the interior letters are recorded, then the last option with its value,
      and the parse goes on behind the value. */
  lemma ClusterValueIsNotInterpreted(cfg: Config, argc: nat, t: string, v: string, rest: seq<string>, st: Store)
    requires IsSegment(cfg, ClusterValue(t, v))
    ensures var info, inner := cfg.groups[LastOption(t)], ApplyAll(st, InteriorEffects(cfg, t));
            Resume(cfg, argc, [t, v] + rest, st) ==
            if inner.None? || info.group in inner.value.used then Exited(TooManyParameters)
            else
              var mid := inner.value;
              Resume(cfg, argc, rest, Store(mid.used + {info.group}, Emplace(mid.args, info.iden, v), mid.other))
  {
    var toks, s := [t, v] + rest, ClusterValue(t, v);
    var e := Use(cfg.groups[LastOption(t)].group, cfg.groups[LastOption(t)].iden, v);
    assert SegmentEffects(cfg)(s) == InteriorEffects(cfg, t) + [e];
    hide Resume, ScanHead, Reserved, IsSegment, InteriorEffects, SegmentEffects;
    SegmentIsHead(cfg, argc, s, rest);
    ResumeStep(cfg, argc, toks, st);
    assert toks[2..] == rest;
    ApplyConcat(st, InteriorEffects(cfg, t), [e]);
    assert [e][1..] == [];
  }

  predicate IsPrint(e: Exit) {
    e.PrintVersion? || e.PrintV? || e.PrintHelp?
  }

  lemma {:induction false} PrintNeedsFewArguments(cfg: Config, argc: nat, toks: seq<string>)
    ensures var exit := Scan(cfg, argc, toks).exit;
            exit.Some? && IsPrint(exit.value) ==> argc <= 2 && toks != []
    decreases |toks|
  {
    if toks != [] {
      var head := ScanHead(cfg, argc, toks);
      HeadPrints(cfg, argc, toks);
      hide ScanHead;
      if head.Complete? {
        PrintNeedsFewArguments(cfg, argc, toks[|Tokens(head.segment)|..]);
      }
    }
  }

  lemma HeadPrints(cfg: Config, argc: nat, toks: seq<string>)
    requires toks != []
    ensures var head := ScanHead(cfg, argc, toks);
            && (Reserved(cfg, toks[0]) ==> head == Stopped([], ReservedExit(cfg, argc, toks[0])))
            && (head.Stopped? && IsPrint(head.exit) ==> argc <= 2 && Reserved(cfg, toks[0]))
  {
  }

  lemma PrintsAlone(cfg: Config, argv: seq<string>, e: Exit)
    requires IsPrint(e)
    ensures Parse(cfg, argv) == Exited(e) <==>
            |argv| == 2 && Reserved(cfg, argv[1]) && ReservedExit(cfg, 2, argv[1]) == e
  {
    hide Reserved, ReservedExit, ScanHead;
    var toks := From(argv, 1);
    PrintNeedsFewArguments(cfg, |argv|, toks);
    if |argv| == 2 {
      assert toks == [argv[1]];
      HeadPrints(cfg, 2, toks);
      ResumeStep(cfg, 2, toks, EMPTY);
      var head := ScanHead(cfg, 2, toks);
      if head.Complete? {
        assert toks[|Tokens(head.segment)|..] == [];
        assert Scan(cfg, 2, toks).exit == Scan(cfg, 2, []).exit == None;
      }
    } else if |argv| < 2 {
      assert toks == [];
    }
  }

  /** What the parser prints and when: only for a print option that is the only argument. */
  lemma PrintsIff(cfg: Config, argv: seq<string>)
    ensures Parse(cfg, argv) == Exited(PrintVersion) <==>
            |argv| == 2 && argv[1] == "--version" && cfg.version != ""
    ensures Parse(cfg, argv) == Exited(PrintV) <==>
            |argv| == 2 && cfg.v != "" && (argv[1] == "-v" || (argv[1] == "--version" && cfg.version == ""))
    ensures Parse(cfg, argv) == Exited(PrintHelp) <==>
            |argv| == 2 && ((argv[1] == "--help" && cfg.help != "") || (argv[1] == "-h" && cfg.h))
  {
    PrintsAlone(cfg, argv, PrintVersion);
    PrintsAlone(cfg, argv, PrintV);
    PrintsAlone(cfg, argv, PrintHelp);
    hide Parse;
  }

  /** Among other arguments a version or help option at a loop head always exits with too many parameters, whatever
      comes before or after it. */
  lemma PrintOptionAmongOthers(cfg: Config, prog: string, before: seq<Segment>, t: string, rest: seq<string>)
    requires before != [] || rest != []
    requires AreSegments(cfg, before) && Reserved(cfg, t) && t != "-" && t != "--"
    ensures Parse(cfg, After(prog, before, [t] + rest)) == Exited(TooManyParameters)
  {
    var argv := After(prog, before, [t] + rest);
    if before != [] {
      assert |FlatMap(Tokens, before)| >= |Tokens(before[0])| >= 1;
    }
    assert |argv| > 2;
    HeadPrints(cfg, |argv|, [t] + rest);
    ScanHeadEffects(cfg, |argv|, [t] + rest);
    hide Reserved, ScanHead, Parse, Scan, Tokens, IsSegment;
    ParseAfter(cfg, prog, before, [t] + rest);
  }

  lemma InvalidHead(cfg: Config, argc: nat, t: string, rest: seq<string>)
    requires t == "-" || t == "--" || (!Reserved(cfg, t) && t in cfg.groups && (rest == [] || cfg.Known(rest[0])))
    ensures ScanHead(cfg, argc, [t] + rest) == Stopped([], InvalidArguments)
  {
    assert rest != [] ==> ([t] + rest)[1] == rest[0];
  }

  /** A dash or double dash at a loop head, or a group key there that is last or followed by an alias, makes the
      arguments invalid, provided what comes before it parses. */
  lemma InvalidExit(cfg: Config, prog: string, before: seq<Segment>, t: string, rest: seq<string>)
    requires AreSegments(cfg, before) && Parse(cfg, Argv(prog, before)).Parsed?
    requires t == "-" || t == "--" || (!Reserved(cfg, t) && t in cfg.groups && (rest == [] || cfg.Known(rest[0])))
    ensures Parse(cfg, After(prog, before, [t] + rest)) == Exited(InvalidArguments)
  {
    var argc := |After(prog, before, [t] + rest)|;
    InvalidHead(cfg, argc, t, rest);
    ScanHeadEffects(cfg, argc, [t] + rest);
    hide Reserved, ScanHead, Parse, Scan, IsSegment;
    RunFacts(cfg, prog, before);
    ParseAfter(cfg, prog, before, [t] + rest);
    assert EffectsOf(cfg, before) + [] == EffectsOf(cfg, before);
  }

  // ---- A cluster on its own ----

  lemma KnownSegmentIsFlag(cfg: Config, s: Segment)
    requires IsSegment(cfg, s) && forall i :: 0 <= i < |Tokens(s)| ==> cfg.Known(Tokens(s)[i])
    ensures s.FlagUse?
  {
    hide Reserved;
    var ts := Tokens(s);
    var first, last := ts[0], ts[|ts| - 1];
  }

  lemma {:induction false} AllFlagsSegments(cfg: Config, toks: seq<string>, ss: seq<Segment>)
    requires AreSegments(cfg, ss) && FlatMap(Tokens, ss) == toks
    requires forall i :: 0 <= i < |toks| ==> cfg.Known(toks[i])
    ensures forall i :: 0 <= i < |toks| ==> PlainFlag(cfg, toks[i])
  {
    hide Reserved;
    if ss != [] {
      var own, later := Tokens(ss[0]), FlatMap(Tokens, ss[1..]);
      assert toks == own + later;
      forall i | 0 <= i < |own| ensures cfg.Known(own[i]) {
        assert toks[i] == own[i];
      }
      KnownSegmentIsFlag(cfg, ss[0]);
      assert toks[1..] == later;
      assert forall i :: 0 <= i < |later| ==> later[i] == toks[i + 1];
      AllFlagsSegments(cfg, later, ss[1..]);
      assert forall i :: 1 <= i < |toks| ==> toks[i] == later[i - 1];
    }
  }

  /** A leftover is always one of the tokens. */
  lemma LeftoverIsToken(cfg: Config, ss: seq<Segment>, t: string)
    requires AreSegments(cfg, ss) && t in FlatMap(Shown, EffectsOf(cfg, ss))
    ensures t in FlatMap(Tokens, ss)
  {
    var es := EffectsOf(cfg, ss);
    FlatMapIn(Shown, es, t);
    var e :| e in es && t in Shown(e);
    var n := EffectSource(cfg, ss, e);
    var s := ss[n];
    if (s.Cluster? || s.ClusterValue?) && e in InteriorEffects(cfg, s.token) {
      InteriorEffectsShape(cfg, s.token, e);
    }
    assert Tokens(s)[0] == t;
    assert t in Tokens(s);
    FlatMapIn(Tokens, ss, t);
  }

  lemma UnknownLetterShows(cfg: Config, t: string, i: nat)
    requires ClusterToken(cfg, t) && 1 <= i < |t| && Dash(t[i]) !in cfg.flags
    ensures t in FlatMap(Shown, SegmentEffects(cfg)(Cluster(t)))
  {
    var es := SegmentEffects(cfg)(Cluster(t));
    if i < |t| - 1 {
      assert Interior(t)[i - 1] == t[i];
      FlatMapIn(LetterEffects(cfg, t), Interior(t), Keep(t));
      assert t[i] in Interior(t) && Keep(t) in LetterEffects(cfg, t)(t[i]);
      assert Keep(t) in es && t in Shown(Keep(t));
    } else {
      assert Push(t) in es && t in Shown(Push(t));
    }
    FlatMapIn(Shown, es, t);
  }

  lemma LoneClusterHead(cfg: Config, t: string)
    requires ClusterToken(cfg, t) && Resume(cfg, 2, [t], EMPTY).Parsed?
    ensures ScanHead(cfg, 2, [t]) == Complete(Cluster(t))
  {
    ClusterIsNotReserved(cfg, t);
    LettersHaveNoEq(t);
    ResumeStep(cfg, 2, [t], EMPTY);
    hide Reserved, Resume, ClusterToken, InteriorEffects;
  }

  /** Scanning a lone cluster that parses. */
  lemma LoneCluster(cfg: Config, prog: string, t: string)
    requires ClusterToken(cfg, t) && Parse(cfg, [prog, t]).Parsed?
    ensures IsSegment(cfg, Cluster(t))
    ensures Parse(cfg, [prog, t]).other == FlatMap(Shown, SegmentEffects(cfg)(Cluster(t)))
  {
    var argv, s := [prog, t], Cluster(t);
    assert argv[1..] == [t];
    LoneClusterHead(cfg, t);
    hide Parse, SegmentEffects, ScanHead;
    HeadIsSegment(cfg, 2, [t]);
    hide IsSegment, ClusterToken;
    FlatMapOne(Tokens, s);
    FlatMapOne(SegmentEffects(cfg), s);
    assert Argv(prog, [s]) == argv;
    RunFacts(cfg, prog, [s]);
    ApplyAllOther(EMPTY, SegmentEffects(cfg)(s));
    assert [] + FlatMap(Shown, SegmentEffects(cfg)(s)) == FlatMap(Shown, SegmentEffects(cfg)(s));
  }

  /** A letter by letter parse that succeeds and has the outcome of the cluster consists of plain flags. */
  lemma SinglesArePlain(cfg: Config, prog: string, letters: string, ss: seq<Segment>)
    requires ClusterToken(cfg, "-" + letters) && Parse(cfg, [prog, "-" + letters]).Parsed?
    requires AreSegments(cfg, ss) && FlatMap(Tokens, ss) == Singles(letters)
    requires Parse(cfg, [prog, "-" + letters]) == Parse(cfg, Argv(prog, ss))
    ensures PlainFlags(cfg, letters)
  {
    hide Parse, IsSegment, Reserved, SegmentEffects;
    var t := "-" + letters;
    LoneCluster(cfg, prog, t);
    forall i | 0 <= i < |letters| ensures Dash(letters[i]) in cfg.flags {
      if Dash(t[i + 1]) !in cfg.flags {
        UnknownLetterShows(cfg, t, i + 1);
        TokenNotShown(cfg, prog, ss, t);
      }
    }
    AllFlagsSegments(cfg, Singles(letters), ss);
    assert forall i :: 0 <= i < |letters| ==> Singles(letters)[i] == Dash(letters[i]);
  }

  lemma TokenNotShown(cfg: Config, prog: string, ss: seq<Segment>, t: string)
    requires AreSegments(cfg, ss) && Parse(cfg, Argv(prog, ss)).Parsed? && t !in FlatMap(Tokens, ss)
    ensures t !in Parse(cfg, Argv(prog, ss)).other
  {
    hide Parse, IsSegment, SegmentEffects, Tokens;
    RunFacts(cfg, prog, ss);
    ApplyAllOther(EMPTY, EffectsOf(cfg, ss));
    if t in FlatMap(Shown, EffectsOf(cfg, ss)) {
      LeftoverIsToken(cfg, ss, t);
    }
  }

  /** A cluster that parses on its own parses like its letters one by one exactly when every letter is a flag that
      is neither a group key nor reserved. */
  lemma LoneClusterIff(cfg: Config, prog: string, letters: string)
    requires ClusterToken(cfg, "-" + letters) && Parse(cfg, [prog, "-" + letters]).Parsed?
    ensures Parse(cfg, [prog, "-" + letters]) == Parse(cfg, [prog] + Singles(letters)) <==> PlainFlags(cfg, letters)
  {
    hide Parse, IsSegment, Reserved, SegmentEffects;
    var t := "-" + letters;
    if PlainFlags(cfg, letters) {
      ClusterExpansion(cfg, prog, [], letters, []);
      assert After(prog, [], [t] + []) == [prog, t];
      assert After(prog, [], Singles(letters) + []) == [prog] + Singles(letters);
    } else if Parse(cfg, [prog] + Singles(letters)) == Parse(cfg, [prog, t]) {
      var ss := ParsedSegments(cfg, [prog] + Singles(letters));
      assert ([prog] + Singles(letters))[1..] == Singles(letters);
      assert Argv(prog, ss)[1..] == FlatMap(Tokens, ss);
      SinglesArePlain(cfg, prog, letters, ss);
    }
  }

  // ---- A cluster and its value ----

  /** No reading ends in a group key. */
  lemma EndsInNoKey(cfg: Config, ss: seq<Segment>)
    requires AreSegments(cfg, ss) && ss != []
    ensures var toks := FlatMap(Tokens, ss); toks != [] && toks[|toks| - 1] !in cfg.groups
  {
    hide Reserved, ClusterToken;
    var n := |ss| - 1;
    var s := ss[n];
    assert ss == ss[..n] + [s];
    FlatMapConcat(Tokens, ss[..n], [s]);
    FlatMapOne(Tokens, s);
    var own := Tokens(s);
    assert IsSegment(cfg, s);
    EndOfSegment(cfg, s);
    assert FlatMap(Tokens, ss) == FlatMap(Tokens, ss[..n]) + own;
  }

  lemma EndOfSegment(cfg: Config, s: Segment)
    requires IsSegment(cfg, s)
    ensures Tokens(s)[|Tokens(s)| - 1] !in cfg.groups
  {
    hide Reserved;
  }

  /** A reading of known tokens, the last of them a group key, and an unknown one: flags, then the key with the
      unknown token as its value. */
  lemma {:induction false} FlagsThenKey(cfg: Config, ks: seq<string>, v: string, ss: seq<Segment>)
    requires AreSegments(cfg, ss) && FlatMap(Tokens, ss) == ks + [v] && ks != []
    requires (forall i :: 0 <= i < |ks| ==> cfg.Known(ks[i])) && !cfg.Known(v)
    requires ks[|ks| - 1] in cfg.groups
    ensures forall i :: 0 <= i < |ks| - 1 ==> PlainFlag(cfg, ks[i])
    ensures !Reserved(cfg, ks[|ks| - 1])
  {
    hide Reserved;
    var toks := ks + [v];
    assert ss != [];
    FlatMapHead(Tokens, ss);
    var own, later := Tokens(ss[0]), FlatMap(Tokens, ss[1..]);
    assert own[0] == toks[0] == ks[0];
    if |ks| > 1 {
      forall i | 0 <= i < |own| ensures cfg.Known(own[i]) {
        assert own[i] == toks[i] == ks[i];
      }
      KnownSegmentIsFlag(cfg, ss[0]);
      assert later == toks[1..] == ks[1..] + [v];
      FlagsThenKey(cfg, ks[1..], v, ss[1..]);
      assert forall i :: 1 <= i < |ks| ==> ks[i] == ks[1..][i - 1];
    }
  }

  /** A leftover is the first token of its segment. */
  lemma LeftoverStarts(cfg: Config, ss: seq<Segment>, t: string) returns (n: nat)
    requires t in FlatMap(Shown, EffectsOf(cfg, ss))
    ensures n < |ss| && Tokens(ss[n])[0] == t
  {
    var es := EffectsOf(cfg, ss);
    FlatMapIn(Shown, es, t);
    var e :| e in es && t in Shown(e);
    n := EffectSource(cfg, ss, e);
    var s := ss[n];
    if (s.Cluster? || s.ClusterValue?) && e in InteriorEffects(cfg, s.token) {
      InteriorEffectsShape(cfg, s.token, e);
    }
  }

  /** In a reading of single letters and a value, the last letter being a group key, the token that starts a segment
      is a single letter: the value never does. */
  lemma ValueStartsNothing(cfg: Config, letters: string, v: string, ss: seq<Segment>, n: nat)
    requires AreSegments(cfg, ss) && FlatMap(Tokens, ss) == Singles(letters) + [v] && n < |ss|
    requires letters != "" && Dash(letters[|letters| - 1]) in cfg.groups
    ensures |Tokens(ss[n])[0]| == 2
  {
    hide IsSegment;
    var before, own, after := FlatMap(Tokens, ss[..n]), Tokens(ss[n]), FlatMap(Tokens, ss[n + 1..]);
    assert ss == ss[..n] + ([ss[n]] + ss[n + 1..]);
    FlatMapMiddle(Tokens, ss[..n], ss[n], ss[n + 1..]);
    var toks := Singles(letters) + [v];
    assert toks == before + (own + after);
    assert toks[|before|] == own[0];
    if |before| < |letters| {
      assert toks[|before|] == Dash(letters[|before|]);
    } else {
      assert before == Singles(letters) by {
        assert before == toks[..|before|];
      }
      assert ss[..n] != [];
      EndsInNoKey(cfg, ss[..n]);
    }
  }

  lemma UnknownInteriorShows(cfg: Config, t: string, v: string, i: nat)
    requires ClusterToken(cfg, t) && 1 <= i < |t| - 1 && Dash(t[i]) !in cfg.flags
    ensures t in FlatMap(Shown, SegmentEffects(cfg)(ClusterValue(t, v)))
  {
    var es := SegmentEffects(cfg)(ClusterValue(t, v));
    assert Interior(t)[i - 1] == t[i];
    FlatMapIn(LetterEffects(cfg, t), Interior(t), Keep(t));
    assert t[i] in Interior(t) && Keep(t) in LetterEffects(cfg, t)(t[i]);
    assert Keep(t) in es && t in Shown(Keep(t));
    FlatMapIn(Shown, es, t);
  }

  lemma LoneClusterValue(cfg: Config, prog: string, t: string, v: string)
    requires IsSegment(cfg, ClusterValue(t, v)) && Parse(cfg, [prog, t, v]).Parsed?
    ensures Parse(cfg, [prog, t, v]).other == FlatMap(Shown, SegmentEffects(cfg)(ClusterValue(t, v)))
  {
    hide IsSegment, Parse, SegmentEffects;
    var s := ClusterValue(t, v);
    FlatMapOne(Tokens, s);
    FlatMapOne(SegmentEffects(cfg), s);
    assert Argv(prog, [s]) == [prog, t, v];
    RunFacts(cfg, prog, [s]);
    ShownOnly(SegmentEffects(cfg)(s));
  }

  lemma SinglesWithValueArePlain(cfg: Config, prog: string, letters: string, v: string, ss: seq<Segment>)
    requires IsSegment(cfg, ClusterValue("-" + letters, v)) && Parse(cfg, [prog, "-" + letters, v]).Parsed?
    requires AreSegments(cfg, ss) && FlatMap(Tokens, ss) == Singles(letters) + [v]
    requires Parse(cfg, [prog, "-" + letters, v]) == Parse(cfg, Argv(prog, ss))
    ensures PlainFlags(cfg, letters[..|letters| - 1]) && !Reserved(cfg, Dash(letters[|letters| - 1]))
  {
    hide Parse, Reserved, SegmentEffects;
    var t := "-" + letters;
    assert |letters| >= 2 && LastOption(t) == Dash(letters[|letters| - 1]);
    LoneClusterValue(cfg, prog, t, v);
    forall i | 0 <= i < |letters| - 1 ensures Dash(letters[i]) in cfg.flags {
      if Dash(t[i + 1]) !in cfg.flags {
        UnknownInteriorShows(cfg, t, v, i + 1);
        RunFacts(cfg, prog, ss);
        ShownOnly(EffectsOf(cfg, ss));
        var n := LeftoverStarts(cfg, ss, t);
        ValueStartsNothing(cfg, letters, v, ss, n);
      }
    }
    var ks := Singles(letters);
    assert forall i :: 0 <= i < |letters| ==> ks[i] == Dash(letters[i]);
    FlagsThenKey(cfg, ks, v, ss);
    assert forall i :: 0 <= i < |letters| - 1 ==> letters[..|letters| - 1][i] == letters[i];
  }

  /** A cluster that parses with the next token as the value of its last letter parses like its letters one by one
      in front of that token exactly when the letters before the last are flags that are neither group keys nor
      reserved, and the last is not reserved. */
  lemma ClusterValueIff(cfg: Config, prog: string, letters: string, v: string)
    requires IsSegment(cfg, ClusterValue("-" + letters, v)) && Parse(cfg, [prog, "-" + letters, v]).Parsed?
    ensures Parse(cfg, [prog, "-" + letters, v]) == Parse(cfg, [prog] + Singles(letters) + [v]) <==>
            PlainFlags(cfg, letters[..|letters| - 1]) && !Reserved(cfg, Dash(letters[|letters| - 1]))
  {
    hide Parse, Reserved, SegmentEffects;
    var t, inner := "-" + letters, letters[..|letters| - 1];
    assert LastOption(t) == Dash(letters[|letters| - 1]);
    if PlainFlags(cfg, inner) && !Reserved(cfg, LastOption(t)) {
      ClusterExpansion(cfg, prog, [], letters, [v]);
      assert After(prog, [], [t] + [v]) == [prog, t, v];
      assert After(prog, [], Singles(letters) + [v]) == [prog] + Singles(letters) + [v];
    } else if Parse(cfg, [prog] + Singles(letters) + [v]) == Parse(cfg, [prog, t, v]) {
      var argv := [prog] + Singles(letters) + [v];
      var ss := ParsedSegments(cfg, argv);
      assert argv[1..] == Singles(letters) + [v];
      assert Argv(prog, ss)[1..] == FlatMap(Tokens, ss);
      SinglesWithValueArePlain(cfg, prog, letters, v, ss);
    }
  }
}
