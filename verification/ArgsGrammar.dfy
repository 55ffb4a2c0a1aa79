/** The language the parsing loop accepts, as segments of the argument list. */
module ArgsGrammar {
  import opened Sequences
  import opened ArgsTables
  import opened ArgsEffects

  datatype Exit = InvalidArguments | TooManyParameters | PrintVersion | PrintV | PrintHelp

  datatype Segment =
    | FlagUse(token: string)
    | KeyValue(key: string, value: string)
    | Assignment(key: string, value: string)      // one token, key=value
    | Leftover(token: string)
    | Cluster(token: string)                      // -abc
    | ClusterValue(token: string, value: string)  // -abf value

  function Tokens(s: Segment): seq<string> {
    match s
    case FlagUse(t) => [t]
    case KeyValue(k, v) => [k, v]
    case Assignment(k, v) => [k + "=" + v]
    case Leftover(t) => [t]
    case Cluster(t) => [t]
    case ClusterValue(t, v) => [t, v]
  }

  predicate IsLetter(c: char) {
    'A' <= c <= 'Z' || 'a' <= c <= 'z'
  }

  predicate AllLetters(s: string) {
    forall i :: 0 <= i < |s| ==> IsLetter(s[i])
  }

  function Dash(c: char): string {
    ['-', c]
  }

  function LastOption(token: string): string
    requires token != ""
  {
    Dash(token[|token| - 1])
  }

  function Interior(token: string): string {
    if |token| < 2 then "" else token[1..|token| - 1]
  }

  /** Position of the first '=', or |s|. */
  function FindEq(s: string): (p: nat)
    ensures p <= |s|
    ensures forall i :: 0 <= i < p ==> s[i] != '='
    ensures p < |s| ==> s[p] == '='
  {
    if s == "" || s[0] == '=' then 0 else
      var q := FindEq(s[1..]);
      assert forall i :: 1 <= i < q + 1 ==> s[i] == s[1..][i - 1];
      q + 1
  }

  /** t is k=v, cut at its first '='. */
  predicate Splits(t: string, k: string, v: string) {
    t == k + "=" + v && '=' !in k
  }

  lemma SplitAt(t: string, k: string, v: string)
    requires Splits(t, k, v)
    ensures |t| == |k| + 1 + |v| && FindEq(t) == |k| && t[..|k|] == k && t[|k| + 1..] == v
  {
    var p := FindEq(t);
    assert t[|k|] == '=';
    assert forall i :: 0 <= i < |k| ==> t[i] == k[i] && k[i] in k;
  }

  lemma CutAt(t: string, p: nat)
    requires p < |t| && t[p] == '='
    ensures t == t[..p] + "=" + t[p + 1..]
  {
  }

  lemma SplitFrom(t: string, p: nat)
    requires p < |t| && t[p] == '=' && forall i :: 0 <= i < p ==> t[i] != '='
    ensures Splits(t, t[..p], t[p + 1..])
  {
    CutAt(t, p);
  }

  lemma SplitIff(t: string, k: string, v: string)
    ensures Splits(t, k, v) <==> FindEq(t) < |t| && k == t[..FindEq(t)] && v == t[FindEq(t) + 1..]
  {
    if FindEq(t) < |t| {
      SplitFrom(t, FindEq(t));
    }
    if Splits(t, k, v) {
      SplitAt(t, k, v);
    }
  }

  /** Tokens that end the parse wherever they stand at a segment boundary. */
  predicate Reserved(cfg: Config, t: string) {
    || t in {"-", "--", "--version", "--help"}
    || (t == "-v" && cfg.v != "")
    || (t == "-h" && cfg.h)
  }

  function ReservedExit(cfg: Config, argc: nat, t: string): Exit
    requires Reserved(cfg, t)
  {
    if t == "-" || t == "--" then InvalidArguments
    else if argc > 2 then TooManyParameters
    else if t == "--version" then
      if cfg.version != "" then PrintVersion else if cfg.v != "" then PrintV else InvalidArguments
    else if t == "-v" then PrintV
    else if t == "--help" then
      if cfg.help != "" then PrintHelp else InvalidArguments
    else PrintHelp
  }

  /** t gives group key k the value v in one token. A token of two characters is never an assignment. */
  predicate Assigns(cfg: Config, t: string, k: string, v: string) {
    Splits(t, k, v) && k in cfg.groups && |t| > 2
  }

  predicate ClusterToken(cfg: Config, t: string) {
    |t| > 2 && t[0] == '-' && AllLetters(t[1..]) && !cfg.Known(t)
  }

  /** When a segment is well formed under the tables. The cases say what each form of option means;
      no case refers to the order in which the parsing loop tries them. */
  ghost predicate IsSegment(cfg: Config, s: Segment) {
    match s
    case FlagUse(t) =>
      !Reserved(cfg, t) && t in cfg.flags && t !in cfg.groups
    case KeyValue(k, v) =>
      !Reserved(cfg, k) && k in cfg.groups && !cfg.Known(v)
    case Assignment(k, v) =>
      !cfg.Known(k + "=" + v) && Assigns(cfg, k + "=" + v, k, v)
    case Cluster(t) =>
      ClusterToken(cfg, t) && !Reserved(cfg, t) &&
      (LastOption(t) in cfg.flags || LastOption(t) !in cfg.groups)
    case ClusterValue(t, v) =>
      ClusterToken(cfg, t) && !Reserved(cfg, t) &&
      LastOption(t) !in cfg.flags && LastOption(t) in cfg.groups && !cfg.Known(v)
    case Leftover(t) =>
      !Reserved(cfg, t) && !cfg.Known(t) && !ClusterToken(cfg, t) && !exists k, v :: Assigns(cfg, t, k, v)
  }

  ghost predicate AreSegments(cfg: Config, ss: seq<Segment>) {
    forall i :: 0 <= i < |ss| ==> IsSegment(cfg, ss[i])
  }

  function UseFlag(cfg: Config, t: string): seq<Effect> {
    if t in cfg.flags then [Use(cfg.flags[t].group, cfg.flags[t].iden, cfg.flags[t].iden)] else []
  }

  function UseGroup(cfg: Config, k: string, v: string): seq<Effect> {
    if k in cfg.groups then [Use(cfg.groups[k].group, cfg.groups[k].iden, v)] else []
  }

  /** An interior letter of a cluster: a flag, or else the whole token is recorded as a leftover. */
  function LetterEffects(cfg: Config, token: string): char -> seq<Effect> {
    (c: char) => if Dash(c) in cfg.flags then UseFlag(cfg, Dash(c)) else [Keep(token)]
  }

  function InteriorEffects(cfg: Config, token: string): seq<Effect> {
    FlatMap(LetterEffects(cfg, token), Interior(token))
  }

  function SegmentEffects(cfg: Config): Segment -> seq<Effect> {
    (s: Segment) =>
      match s
      case FlagUse(t) => UseFlag(cfg, t)
      case KeyValue(k, v) => UseGroup(cfg, k, v)
      case Assignment(k, v) => UseGroup(cfg, k, v)
      case Leftover(t) => [Keep(t)]
      case Cluster(t) =>
        InteriorEffects(cfg, t) +
        if t != "" && LastOption(t) in cfg.flags then UseFlag(cfg, LastOption(t)) else [Push(t)]
      case ClusterValue(t, v) =>
        InteriorEffects(cfg, t) + if t != "" then UseGroup(cfg, LastOption(t), v) else []
  }

  /** The first segment of a non-empty argument list, or the reason why the parse cannot go on. A cluster
      whose last letter lacks its value has already recorded its other letters: they are left pending. */
  datatype Head = Complete(segment: Segment) | Stopped(pending: seq<Effect>, exit: Exit)

  predicate NoValue(cfg: Config, toks: seq<string>) {
    |toks| < 2 || cfg.Known(toks[1])
  }

  function ScanHead(cfg: Config, argc: nat, toks: seq<string>): (head: Head)
    requires toks != []
    ensures head.Complete? ==> Tokens(head.segment) <= toks
  {
    var t := toks[0];
    if Reserved(cfg, t) then Stopped([], ReservedExit(cfg, argc, t))
    else if t in cfg.groups then
      if NoValue(cfg, toks) then Stopped([], InvalidArguments) else Complete(KeyValue(t, toks[1]))
    else if t in cfg.flags then Complete(FlagUse(t))
    else if |t| <= 2 then Complete(Leftover(t))
    else if FindEq(t) < |t| then
      var p := FindEq(t);
      CutAt(t, p);
      if t[..p] in cfg.groups then Complete(Assignment(t[..p], t[p + 1..])) else Complete(Leftover(t))
    else if t[0] != '-' || !AllLetters(t[1..]) then Complete(Leftover(t))
    else if LastOption(t) in cfg.flags || LastOption(t) !in cfg.groups then Complete(Cluster(t))
    else if NoValue(cfg, toks) then Stopped(InteriorEffects(cfg, t), InvalidArguments)
    else Complete(ClusterValue(t, toks[1]))
  }

  datatype Scanned = Scanned(segments: seq<Segment>, pending: seq<Effect>, exit: Option<Exit>)

  function Scan(cfg: Config, argc: nat, toks: seq<string>): Scanned
    decreases |toks|
  {
    if toks == [] then Scanned([], [], None) else
      match ScanHead(cfg, argc, toks)
      case Stopped(pending, exit) => Scanned([], pending, Some(exit))
      case Complete(s) =>
        var rest := Scan(cfg, argc, toks[|Tokens(s)|..]);
        rest.(segments := [s] + rest.segments)
  }

  /** All effects of a scan, in order. */
  function Effects(cfg: Config, sc: Scanned): seq<Effect> {
    FlatMap(SegmentEffects(cfg), sc.segments) + sc.pending
  }

  /** libgs::value is represented by the string it is built from. */
  datatype Outcome = Parsed(args: map<string, string>, other: seq<string>) | Exited(exit: Exit)

  function Conclude(applied: Option<Store>, exit: Option<Exit>): Outcome {
    match applied
    case None => Exited(TooManyParameters)
    case Some(st) => if exit.Some? then Exited(exit.value) else Parsed(st.args, st.other)
  }

  /** The parse of the remaining tokens from a loop-head state. */
  function Resume(cfg: Config, argc: nat, toks: seq<string>, st: Store): Outcome {
    var sc := Scan(cfg, argc, toks);
    Conclude(ApplyAll(st, Effects(cfg, sc)), sc.exit)
  }

  function From(argv: seq<string>, i: nat): seq<string> {
    if i <= |argv| then argv[i..] else []
  }

  /** argv[0] is the program name. */
  function Parse(cfg: Config, argv: seq<string>): Outcome {
    Resume(cfg, |argv|, From(argv, 1), EMPTY)
  }

  /** The parse without a leftover list. */
  function ParseStrict(cfg: Config, argv: seq<string>): Outcome {
    var out := Parse(cfg, argv);
    if out.Parsed? && out.other != [] then Exited(InvalidArguments) else out
  }

  // ---- The scan is the grammar ----

  lemma ReservedHasNoEq(cfg: Config, t: string)
    ensures Reserved(cfg, t) ==> FindEq(t) == |t|
  {
    assert forall i :: 0 <= i < |"--version"| ==> "--version"[i] != '=';
    assert forall i :: 0 <= i < |"--help"| ==> "--help"[i] != '=';
  }

  lemma LettersHaveNoEq(t: string)
    requires t != "" && t[0] == '-' && AllLetters(t[1..])
    ensures FindEq(t) == |t|
  {
    assert forall i :: 1 <= i < |t| ==> t[i] == t[1..][i - 1];
  }

  lemma AssignsIff(cfg: Config, t: string)
    ensures (exists k, v :: Assigns(cfg, t, k, v)) <==>
            |t| > 2 && FindEq(t) < |t| && t[..FindEq(t)] in cfg.groups
  {
    var p := FindEq(t);
    if |t| > 2 && p < |t| && t[..p] in cfg.groups {
      SplitIff(t, t[..p], t[p + 1..]);
      assert Assigns(cfg, t, t[..p], t[p + 1..]);
    } else if k, v :| Assigns(cfg, t, k, v) {
      SplitIff(t, k, v);
      assert false;
    }
  }

  lemma HeadIsSegment(cfg: Config, argc: nat, toks: seq<string>)
    requires toks != [] && ScanHead(cfg, argc, toks).Complete?
    ensures IsSegment(cfg, ScanHead(cfg, argc, toks).segment)
  {
    var t := toks[0];
    AssignsIff(cfg, t);
    if ClusterToken(cfg, t) {
      LettersHaveNoEq(t);
    }
    var p := FindEq(t);
    if p < |t| {
      SplitIff(t, t[..p], t[p + 1..]);
    }
  }

  /** A well-formed segment is recognised whatever follows it: no segment looks beyond its own tokens. */
  lemma SegmentIsHead(cfg: Config, argc: nat, s: Segment, rest: seq<string>)
    requires IsSegment(cfg, s)
    ensures ScanHead(cfg, argc, Tokens(s) + rest) == Complete(s)
  {
    var toks := Tokens(s) + rest;
    var t := toks[0];
    AssignsIff(cfg, t);
    match s {
      case Assignment(k, v) =>
        SplitIff(t, k, v);
        ReservedHasNoEq(cfg, t);
      case Cluster(_) => LettersHaveNoEq(t);
      case ClusterValue(_, v) => LettersHaveNoEq(t); assert toks[1] == v;
      case KeyValue(_, v) => assert toks[1] == v;
      case Leftover(_) =>
      case FlagUse(_) =>
    }
  }

  lemma ScanOne(cfg: Config, argc: nat, s: Segment, rest: seq<string>)
    requires IsSegment(cfg, s)
    ensures var r := Scan(cfg, argc, rest);
            Scan(cfg, argc, Tokens(s) + rest) == r.(segments := [s] + r.segments)
  {
    SegmentIsHead(cfg, argc, s, rest);
    assert (Tokens(s) + rest)[|Tokens(s)|..] == rest;
  }

  lemma {:induction false} ScanPrefix(cfg: Config, argc: nat, ss: seq<Segment>, rest: seq<string>)
    requires AreSegments(cfg, ss)
    ensures var r := Scan(cfg, argc, rest);
            Scan(cfg, argc, FlatMap(Tokens, ss) + rest) == r.(segments := ss + r.segments)
  {
    hide IsSegment, ScanHead, Scan, Tokens;
    var r := Scan(cfg, argc, rest);
    if ss == [] {
      assert FlatMap(Tokens, ss) + rest == rest;
    } else {
      var later := FlatMap(Tokens, ss[1..]) + rest;
      assert FlatMap(Tokens, ss) + rest == Tokens(ss[0]) + later;
      ScanOne(cfg, argc, ss[0], later);
      ScanPrefix(cfg, argc, ss[1..], rest);
      assert [ss[0]] + (ss[1..] + r.segments) == ss + r.segments;
    }
  }

  /** Soundness: what is scanned are well-formed segments, and their tokens are a prefix of the input, all of
      it when the scan does not stop. */
  lemma {:induction false} ScanSound(cfg: Config, argc: nat, toks: seq<string>)
    ensures var sc := Scan(cfg, argc, toks);
            && AreSegments(cfg, sc.segments)
            && FlatMap(Tokens, sc.segments) <= toks
            && (sc.exit.None? <==> FlatMap(Tokens, sc.segments) == toks)
            && (sc.exit.None? ==> sc.pending == [])
    decreases |toks|
  {
    if toks != [] && ScanHead(cfg, argc, toks).Complete? {
      hide IsSegment, ScanHead;
      var s := ScanHead(cfg, argc, toks).segment;
      var later := toks[|Tokens(s)|..];
      HeadIsSegment(cfg, argc, toks);
      ScanSound(cfg, argc, later);
      var sc := Scan(cfg, argc, later);
      hide Tokens;
      assert toks == Tokens(s) + later;
      assert ([s] + sc.segments)[1..] == sc.segments;
      FlatMapHead(Tokens, [s] + sc.segments);
    }
  }

  /** The grammar is unambiguous and the scan decides it: a list of segments is the scan of an argument list
      exactly when it is a well-formed segmentation of it, each token lying in exactly one segment. */
  lemma ScanIsTheSegmentation(cfg: Config, argc: nat, toks: seq<string>, ss: seq<Segment>)
    ensures Scan(cfg, argc, toks) == Scanned(ss, [], None) <==>
            AreSegments(cfg, ss) && FlatMap(Tokens, ss) == toks
  {
    ScanSound(cfg, argc, toks);
    if AreSegments(cfg, ss) && FlatMap(Tokens, ss) == toks {
      ScanPrefix(cfg, argc, ss, []);
      assert FlatMap(Tokens, ss) + [] == toks && ss + [] == ss;
    }
  }

  // ---- Stepping through a parse ----

  function Iterate(cfg: Config, argc: nat, toks: seq<string>, st: Store): Outcome
    requires toks != []
  {
    match ScanHead(cfg, argc, toks)
    case Stopped(pending, exit) => Conclude(ApplyAll(st, pending), Some(exit))
    case Complete(s) =>
      match ApplyAll(st, SegmentEffects(cfg)(s))
      case None => Exited(TooManyParameters)
      case Some(next) => Resume(cfg, argc, toks[|Tokens(s)|..], next)
  }

  lemma ConsEffects(cfg: Config, s: Segment, sc: Scanned)
    ensures Effects(cfg, sc.(segments := [s] + sc.segments)) == SegmentEffects(cfg)(s) + Effects(cfg, sc)
  {
    hide SegmentEffects;
    assert ([s] + sc.segments)[1..] == sc.segments;
  }

  /** One segment at a time, as the loop goes. */
  lemma ResumeStep(cfg: Config, argc: nat, toks: seq<string>, st: Store)
    requires toks != []
    ensures Resume(cfg, argc, toks, st) == Iterate(cfg, argc, toks, st)
  {
    match ScanHead(cfg, argc, toks) {
      case Stopped(pending, exit) => assert [] + pending == pending;
      case Complete(s) =>
        var rest := Scan(cfg, argc, toks[|Tokens(s)|..]);
        var own := SegmentEffects(cfg)(s);
        ConsEffects(cfg, s, rest);
        ApplyConcat(st, own, Effects(cfg, rest));
    }
  }

  lemma ResumeEnd(cfg: Config, argc: nat, st: Store)
    ensures Resume(cfg, argc, [], st) == Parsed(st.args, st.other)
  {
    assert Effects(cfg, Scan(cfg, argc, [])) == [];
  }

  /** The loop position moves past a complete segment, or the parse exits. */
  lemma ResumeSegment(cfg: Config, argv: seq<string>, i: nat, st: Store, s: Segment)
    requires i < |argv| && ScanHead(cfg, |argv|, argv[i..]) == Complete(s)
    ensures i + |Tokens(s)| <= |argv|
    ensures var applied := ApplyAll(st, SegmentEffects(cfg)(s));
            Resume(cfg, |argv|, argv[i..], st) ==
            if applied.None? then Exited(TooManyParameters)
            else Resume(cfg, |argv|, argv[i + |Tokens(s)|..], applied.value)
  {
    hide Resume, ScanHead, Reserved;
    ResumeStep(cfg, |argv|, argv[i..], st);
    assert argv[i..][|Tokens(s)|..] == argv[i + |Tokens(s)|..];
  }

  lemma ResumeSingle(cfg: Config, argv: seq<string>, i: nat, st: Store, s: Segment, e: Effect)
    requires i < |argv| && ScanHead(cfg, |argv|, argv[i..]) == Complete(s) && SegmentEffects(cfg)(s) == [e]
    ensures i + |Tokens(s)| <= |argv|
    ensures Resume(cfg, |argv|, argv[i..], st) ==
            if Apply(st, e).None? then Exited(TooManyParameters)
            else Resume(cfg, |argv|, argv[i + |Tokens(s)|..], Apply(st, e).value)
  {
    hide Resume, ScanHead, Reserved;
    ResumeSegment(cfg, argv, i, st, s);
    assert [e][1..] == [];
  }

  /** A segment whose one effect is an option use. */
  lemma ResumeUse(cfg: Config, argv: seq<string>, i: nat, st: Store, s: Segment, info: ArgInfo, value: string)
    requires i < |argv| && ScanHead(cfg, |argv|, argv[i..]) == Complete(s)
    requires SegmentEffects(cfg)(s) == [Use(info.group, info.iden, value)]
    ensures i + |Tokens(s)| <= |argv|
    ensures Resume(cfg, |argv|, argv[i..], st) ==
            if info.group in st.used then Exited(TooManyParameters)
            else Resume(cfg, |argv|, argv[i + |Tokens(s)|..],
                        Store(st.used + {info.group}, Emplace(st.args, info.iden, value), st.other))
  {
    hide Resume, ScanHead, Reserved;
    ResumeSingle(cfg, argv, i, st, s, Use(info.group, info.iden, value));
  }

  /** A checked leftover. */
  lemma ResumeKeep(cfg: Config, argv: seq<string>, i: nat, st: Store)
    requires i < |argv| && ScanHead(cfg, |argv|, argv[i..]) == Complete(Leftover(argv[i]))
    ensures Resume(cfg, |argv|, argv[i..], st) ==
            if argv[i] in st.used then Exited(TooManyParameters)
            else Resume(cfg, |argv|, argv[i + 1..], Store(st.used + {argv[i]}, st.args, st.other + [argv[i]]))
  {
    hide Resume, ScanHead, Reserved;
    ResumeSingle(cfg, argv, i, st, Leftover(argv[i]), Keep(argv[i]));
  }
}
