/** What a token means at the head of the loop, from any state, in terms of the tables and the characters alone. */
module ArgsMeaning {
  import opened Sequences
  import opened ArgsTables
  import opened ArgsEffects
  import opened ArgsGrammar

  /** Neither a dash, nor a double dash, nor a version or help option that is switched on. */
  predicate Ordinary(cfg: Config, t: string) {
    && t !in {"-", "--", "--version", "--help"}
    && (t == "-v" ==> cfg.v == "")
    && (t == "-h" ==> !cfg.h)
  }

  lemma OrdinaryIff(cfg: Config, t: string)
    ensures Ordinary(cfg, t) <==> !Reserved(cfg, t)
  {
  }

  /** Every option that stands alone on the command line and is not looked up in the tables. */
  lemma AloneOnTheLine(cfg: Config, prog: string)
    ensures Parse(cfg, [prog, "-"]) == Parse(cfg, [prog, "--"]) == Exited(InvalidArguments)
    ensures Parse(cfg, [prog, "--version"]) ==
            Exited(if cfg.version != "" then PrintVersion else if cfg.v != "" then PrintV else InvalidArguments)
    ensures cfg.v != "" ==> Parse(cfg, [prog, "-v"]) == Exited(PrintV)
    ensures Parse(cfg, [prog, "--help"]) == Exited(if cfg.help != "" then PrintHelp else InvalidArguments)
    ensures cfg.h ==> Parse(cfg, [prog, "-h"]) == Exited(PrintHelp)
  {
    hide Parse;
    AloneExits(cfg, prog, "-");
    AloneExits(cfg, prog, "--");
    AloneExits(cfg, prog, "--version");
    AloneExits(cfg, prog, "-v");
    AloneExits(cfg, prog, "--help");
    AloneExits(cfg, prog, "-h");
  }

  lemma AloneExits(cfg: Config, prog: string, t: string)
    ensures Reserved(cfg, t) ==> Parse(cfg, [prog, t]) == Exited(ReservedExit(cfg, 2, t))
  {
    if Reserved(cfg, t) {
      var argv := [prog, t];
      assert From(argv, 1) == [t];
      assert ScanHead(cfg, 2, [t]) == Stopped([], ReservedExit(cfg, 2, t));
      hide ScanHead, Reserved, ReservedExit;
      ResumeStep(cfg, 2, [t], EMPTY);
      assert ApplyAll(EMPTY, []) == Some(EMPTY);
    }
  }

  lemma ResumeHead(cfg: Config, argc: nat, toks: seq<string>, st: Store, s: Segment, e: Effect)
    requires toks != [] && ScanHead(cfg, argc, toks) == Complete(s) && SegmentEffects(cfg)(s) == [e]
    ensures Resume(cfg, argc, toks, st) ==
            if Apply(st, e).None? then Exited(TooManyParameters)
            else Resume(cfg, argc, toks[|Tokens(s)|..], Apply(st, e).value)
  {
    hide Resume, ScanHead;
    ResumeStep(cfg, argc, toks, st);
    assert [e][1..] == [];
    assert ApplyAll(st, [e]) == Apply(st, e);
  }

  /** A flag stores its own identifier, unless an entry is there. */
  lemma FlagToken(cfg: Config, argc: nat, f: string, rest: seq<string>, st: Store)
    requires Ordinary(cfg, f) && f in cfg.flags && f !in cfg.groups
    ensures var info := cfg.flags[f];
            Resume(cfg, argc, [f] + rest, st) ==
            if info.group in st.used then Exited(TooManyParameters)
            else Resume(cfg, argc, rest,
              Store(st.used + {info.group}, if info.iden in st.args then st.args else st.args[info.iden := info.iden], st.other))
  {
    OrdinaryIff(cfg, f);
    var toks, info := [f] + rest, cfg.flags[f];
    assert ScanHead(cfg, argc, toks) == Complete(FlagUse(f));
    hide Resume, ScanHead, Reserved;
    ResumeHead(cfg, argc, toks, st, FlagUse(f), Use(info.group, info.iden, info.iden));
    assert toks[1..] == rest;
  }

  /** A group key with a value stores that value, unless an entry is there. */
  lemma KeyToken(cfg: Config, argc: nat, k: string, v: string, rest: seq<string>, st: Store)
    requires Ordinary(cfg, k) && k in cfg.groups && v !in cfg.groups && v !in cfg.flags
    ensures var info := cfg.groups[k];
            Resume(cfg, argc, [k, v] + rest, st) ==
            if info.group in st.used then Exited(TooManyParameters)
            else Resume(cfg, argc, rest,
              Store(st.used + {info.group}, if info.iden in st.args then st.args else st.args[info.iden := v], st.other))
  {
    OrdinaryIff(cfg, k);
    var toks, info := [k, v] + rest, cfg.groups[k];
    assert toks[1] == v;
    assert ScanHead(cfg, argc, toks) == Complete(KeyValue(k, v));
    hide Resume, ScanHead, Reserved;
    ResumeHead(cfg, argc, toks, st, KeyValue(k, v), Use(info.group, info.iden, v));
    assert toks[2..] == rest;
  }

  /** A group key at the end, or in front of an alias, ends the parse. */
  lemma KeyWithoutValue(cfg: Config, argc: nat, k: string, rest: seq<string>, st: Store)
    requires Ordinary(cfg, k) && k in cfg.groups && (rest == [] || rest[0] in cfg.groups || rest[0] in cfg.flags)
    ensures Resume(cfg, argc, [k] + rest, st) == Exited(InvalidArguments)
  {
    OrdinaryIff(cfg, k);
    var toks := [k] + rest;
    assert rest != [] ==> toks[1] == rest[0];
    assert ScanHead(cfg, argc, toks) == Stopped([], InvalidArguments);
    hide Resume, ScanHead, Reserved;
    ResumeStep(cfg, argc, toks, st);
    assert ApplyAll(st, []) == Some(st);
  }

  /** key=value in one token, of more than two characters, cut at its first '='. */
  lemma AssignmentToken(cfg: Config, argc: nat, k: string, v: string, rest: seq<string>, st: Store)
    requires k in cfg.groups && '=' !in k && |k| + |v| > 1 && k + "=" + v !in cfg.groups && k + "=" + v !in cfg.flags
    ensures var info := cfg.groups[k];
            Resume(cfg, argc, [k + "=" + v] + rest, st) ==
            if info.group in st.used then Exited(TooManyParameters)
            else Resume(cfg, argc, rest,
              Store(st.used + {info.group}, if info.iden in st.args then st.args else st.args[info.iden := v], st.other))
  {
    var t, info := k + "=" + v, cfg.groups[k];
    var toks := [t] + rest;
    assert ScanHead(cfg, argc, toks) == Complete(Assignment(k, v)) by {
      SplitAt(t, k, v);
      ReservedHasNoEq(cfg, t);
      hide Reserved;
    }
    hide Resume, ScanHead;
    ResumeHead(cfg, argc, toks, st, Assignment(k, v), Use(info.group, info.iden, v));
    assert toks[1..] == rest;
  }

  /** No registered key ends at the first '=' of the token. */
  ghost predicate AssignsNothing(cfg: Config, t: string) {
    forall k, v :: Splits(t, k, v) ==> k !in cfg.groups
  }

  /** A token that is neither reserved nor an alias is left over exactly when it is at most two characters long, or
      has a '=' that ends no group key, or has no '=' and does not consist of a dash and letters. */
  lemma LeftoverIff(cfg: Config, argc: nat, t: string, rest: seq<string>)
    requires Ordinary(cfg, t) && t !in cfg.groups && t !in cfg.flags
    ensures ScanHead(cfg, argc, [t] + rest) == Complete(Leftover(t)) <==>
            || |t| <= 2
            || ('=' in t && AssignsNothing(cfg, t))
            || ('=' !in t && (t[0] != '-' || exists i :: 1 <= i < |t| && !('A' <= t[i] <= 'Z') && !('a' <= t[i] <= 'z')))
  {
    OrdinaryIff(cfg, t);
    hide Reserved;
    var p := FindEq(t);
    EqIn(t);
    if t != "" {
      LettersOut(t);
    }
    if |t| > 2 && p < |t| {
      SplitIff(t, t[..p], t[p + 1..]);
      if t[..p] !in cfg.groups {
        forall k, v | Splits(t, k, v) ensures k !in cfg.groups {
          SplitIff(t, k, v);
        }
      } else {
        assert Splits(t, t[..p], t[p + 1..]);
      }
    }
  }

  lemma EqIn(t: string)
    ensures '=' in t <==> FindEq(t) < |t|
  {
  }

  lemma LettersOut(t: string)
    requires t != ""
    ensures AllLetters(t[1..]) <==> forall i :: 1 <= i < |t| ==> 'A' <= t[i] <= 'Z' || 'a' <= t[i] <= 'z'
  {
    var s := t[1..];
    assert forall i :: 1 <= i < |t| ==> t[i] == s[i - 1];
    assert forall i :: 0 <= i < |s| ==> s[i] == t[i + 1];
  }

  /** What is left over is recorded once, and only once. */
  lemma LeftoverToken(cfg: Config, argc: nat, t: string, rest: seq<string>, st: Store)
    requires Ordinary(cfg, t) && t !in cfg.groups && t !in cfg.flags
    requires || |t| <= 2
             || ('=' in t && AssignsNothing(cfg, t))
             || ('=' !in t && (t[0] != '-' || exists i :: 1 <= i < |t| && !('A' <= t[i] <= 'Z') && !('a' <= t[i] <= 'z')))
    ensures Resume(cfg, argc, [t] + rest, st) ==
            if t in st.used then Exited(TooManyParameters)
            else Resume(cfg, argc, rest, Store(st.used + {t}, st.args, st.other + [t]))
  {
    var toks := [t] + rest;
    LeftoverIff(cfg, argc, t, rest);
    hide Resume, ScanHead;
    ResumeHead(cfg, argc, toks, st, Leftover(t), Keep(t));
    assert toks[1..] == rest;
  }

  /** The token is taken apart letter by letter: as a cluster, as a cluster with a value, or as one whose last letter
      lacks its value. */
  predicate ReadAsCluster(cfg: Config, t: string, head: Head) {
    match head
    case Complete(s) => s == Cluster(t) || (s.ClusterValue? && s.token == t)
    case Stopped(pending, exit) => pending == InteriorEffects(cfg, t) && exit == InvalidArguments
  }

  /** A token of more than two characters that starts with a dash and is no alias is read as a cluster exactly when
      every character behind the dash is a letter from A to Z or from a to z. */
  lemma ClusterIff(cfg: Config, argc: nat, t: string, rest: seq<string>)
    requires |t| > 2 && t[0] == '-' && t !in cfg.groups && t !in cfg.flags && t !in {"--version", "--help"}
    ensures ReadAsCluster(cfg, t, ScanHead(cfg, argc, [t] + rest)) <==>
            forall i :: 1 <= i < |t| ==> 'A' <= t[i] <= 'Z' || 'a' <= t[i] <= 'z'
  {
    assert Ordinary(cfg, t);
    OrdinaryIff(cfg, t);
    hide Reserved, InteriorEffects;
    LettersOut(t);
    if AllLetters(t[1..]) {
      LettersHaveNoEq(t);
    }
  }

  /** A cluster whose last letter is a group key without a value: the letters before it are used first. */
  lemma ClusterWithoutValue(cfg: Config, argc: nat, t: string, rest: seq<string>, st: Store)
    requires |t| > 2 && t[0] == '-' && t !in cfg.groups && t !in cfg.flags
    requires forall i :: 1 <= i < |t| ==> 'A' <= t[i] <= 'Z' || 'a' <= t[i] <= 'z'
    requires ['-', t[|t| - 1]] in cfg.groups && ['-', t[|t| - 1]] !in cfg.flags
    requires rest == [] || rest[0] in cfg.groups || rest[0] in cfg.flags
    ensures Resume(cfg, argc, [t] + rest, st) ==
            Exited(if ApplyAll(st, InteriorEffects(cfg, t)).Some? then InvalidArguments else TooManyParameters)
  {
    var toks := [t] + rest;
    assert t[1] != '-';
    assert Ordinary(cfg, t);
    OrdinaryIff(cfg, t);
    LettersOut(t);
    LettersHaveNoEq(t);
    assert rest != [] ==> toks[1] == rest[0];
    hide Reserved, InteriorEffects;
    assert LastOption(t) == ['-', t[|t| - 1]];
    assert ScanHead(cfg, argc, toks) == Stopped(InteriorEffects(cfg, t), InvalidArguments);
    hide Resume, ScanHead;
    ResumeStep(cfg, argc, toks, st);
  }

  /** The long options are no clusters whatever stands in the tables. */
  lemma LongOptionIsNoCluster(cfg: Config, argc: nat, t: string, rest: seq<string>)
    requires t in {"--version", "--help"}
    ensures ScanHead(cfg, argc, [t] + rest) == Stopped([], ReservedExit(cfg, argc, t))
    ensures exists i :: 1 <= i < |t| && !('A' <= t[i] <= 'Z') && !('a' <= t[i] <= 'z')
  {
    assert t[1] == '-';
  }

  /** Two registered flags in one token: whatever their letters, both are recorded and nothing is left over. */
  lemma FlagPair(cfg: Config, prog: string, a: char, b: char)
    requires (('A' <= a <= 'Z') || ('a' <= a <= 'z')) && (('A' <= b <= 'Z') || ('a' <= b <= 'z'))
    requires ['-', a] in cfg.flags && ['-', b] in cfg.flags && ['-', a, b] !in cfg.groups && ['-', a, b] !in cfg.flags
    requires cfg.flags[['-', a]].group != cfg.flags[['-', b]].group
    requires cfg.flags[['-', a]].iden != cfg.flags[['-', b]].iden
    ensures var i, j := cfg.flags[['-', a]].iden, cfg.flags[['-', b]].iden;
            Parse(cfg, [prog, ['-', a, b]]) == Parsed(map[i := i, j := j], [])
  {
    var t, x, y := ['-', a, b], cfg.flags[['-', a]], cfg.flags[['-', b]];
    var ex, ey := Use(x.group, x.iden, x.iden), Use(y.group, y.iden, y.iden);
    assert Dash(a) == ['-', a] && Dash(b) == ['-', b] && LastOption(t) == ['-', b];
    assert t[1..] == [a, b];
    assert AllLetters(t[1..]);
    LettersHaveNoEq(t);
    assert From([prog, t], 1) == [t];
    assert ScanHead(cfg, 2, [t]) == Complete(Cluster(t));
    assert InteriorEffects(cfg, t) == [ex] by {
      assert Interior(t) == [a];
      FlatMapOne(LetterEffects(cfg, t), a);
    }
    assert SegmentEffects(cfg)(Cluster(t)) == [ex] + [ey];
    hide ScanHead, Resume, Reserved, InteriorEffects, SegmentEffects;
    ResumeStep(cfg, 2, [t], EMPTY);
    assert [t][1..] == [] && [ex, ey] == [ex] + [ey] && [ex, ey][1..] == [ey] && [ey][1..] == [];
    var mid := Store({x.group}, map[x.iden := x.iden], []);
    var end := Store({x.group, y.group}, map[x.iden := x.iden, y.iden := y.iden], []);
    assert {} + {x.group} == {x.group} && {x.group} + {y.group} == {x.group, y.group};
    assert map[x.iden := x.iden][y.iden := y.iden] == map[x.iden := x.iden, y.iden := y.iden];
    assert Apply(EMPTY, ex) == Some(mid) && Apply(mid, ey) == Some(end);
    assert ApplyAll(mid, [ey]) == Some(end);
    assert ApplyAll(EMPTY, [ex, ey]) == Some(end);
    ResumeEnd(cfg, 2, end);
  }

  /** Without a leftover list: success is success with nothing left over, and with the same result; a leftover makes
      the arguments invalid; every exit is passed on. */
  lemma StrictParse(cfg: Config, argv: seq<string>)
    ensures forall args :: ParseStrict(cfg, argv) == Parsed(args, []) <==> Parse(cfg, argv) == Parsed(args, [])
    ensures forall args, other :: other != [] && Parse(cfg, argv) == Parsed(args, other) ==>
              ParseStrict(cfg, argv) == Exited(InvalidArguments)
    ensures forall e :: Parse(cfg, argv) == Exited(e) ==> ParseStrict(cfg, argv) == Exited(e)
    ensures ParseStrict(cfg, argv) == Exited(InvalidArguments) <==>
            || Parse(cfg, argv) == Exited(InvalidArguments)
            || (Parse(cfg, argv).Parsed? && Parse(cfg, argv).other != [])
  {
  }
}
