/** The equivalences the header promises: -abc for -a -b -c, and --file=x for --file x. */
module ArgsLaws {
  import opened Sequences
  import opened ArgsTables
  import opened ArgsEffects
  import opened ArgsGrammar
  import opened ArgsRuns

  /** Two argument lists that the loop treats alike from every state. */
  ghost predicate Alike(cfg: Config, argc: nat, xs: seq<string>, argc': nat, ys: seq<string>) {
    var a, b := Scan(cfg, argc, xs), Scan(cfg, argc', ys);
    Effects(cfg, a) == Effects(cfg, b) && a.exit == b.exit
  }

  /** The command line after some complete segments, that is, with xs starting at a loop head. */
  function After(prog: string, before: seq<Segment>, xs: seq<string>): seq<string> {
    [prog] + FlatMap(Tokens, before) + xs
  }

  lemma PrefixEffects(cfg: Config, argc: nat, before: seq<Segment>, xs: seq<string>)
    requires AreSegments(cfg, before)
    ensures var all, own := Scan(cfg, argc, FlatMap(Tokens, before) + xs), Scan(cfg, argc, xs);
            && Effects(cfg, all) == EffectsOf(cfg, before) + Effects(cfg, own)
            && all.exit == own.exit
  {
    hide IsSegment, AreSegments, Scan, SegmentEffects, Tokens;
    ScanPrefix(cfg, argc, before, xs);
    var own := Scan(cfg, argc, xs);
    FlatMapConcat(SegmentEffects(cfg), before, own.segments);
  }

  lemma ParseAfter(cfg: Config, prog: string, before: seq<Segment>, xs: seq<string>)
    requires AreSegments(cfg, before)
    ensures var argv := After(prog, before, xs);
            var own := Scan(cfg, |argv|, xs);
            Parse(cfg, argv) == Conclude(ApplyAll(EMPTY, EffectsOf(cfg, before) + Effects(cfg, own)), own.exit)
  {
    hide AreSegments, Scan, Effects, EffectsOf, ApplyAll, Conclude;
    var argv := After(prog, before, xs);
    PrefixEffects(cfg, |argv|, before, xs);
    assert argv[1..] == FlatMap(Tokens, before) + xs;
  }

  lemma AlikeParses(cfg: Config, prog: string, before: seq<Segment>, xs: seq<string>, ys: seq<string>)
    requires AreSegments(cfg, before)
    requires Alike(cfg, |After(prog, before, xs)|, xs, |After(prog, before, ys)|, ys)
    ensures Parse(cfg, After(prog, before, xs)) == Parse(cfg, After(prog, before, ys))
  {
    hide AreSegments, Parse, Scan, Effects, EffectsOf, After;
    ParseAfter(cfg, prog, before, xs);
    ParseAfter(cfg, prog, before, ys);
  }

  /** The number of arguments only matters to a reserved token, and only whether it stands alone. */
  lemma {:induction false} ArgcIrrelevant(cfg: Config, argc: nat, argc': nat, toks: seq<string>)
    requires toks == [] || (argc > 2 && argc' > 2)
    ensures Scan(cfg, argc, toks) == Scan(cfg, argc', toks)
    decreases |toks|
  {
    if toks != [] {
      assert ScanHead(cfg, argc, toks) == ScanHead(cfg, argc', toks);
      if ScanHead(cfg, argc, toks).Complete? {
        ArgcIrrelevant(cfg, argc, argc', toks[|Tokens(ScanHead(cfg, argc, toks).segment)|..]);
      }
    }
  }

  // ---- Clusters ----

  function Singles(letters: string): seq<string> {
    seq(|letters|, i requires 0 <= i < |letters| => Dash(letters[i]))
  }

  predicate PlainFlag(cfg: Config, t: string) {
    !Reserved(cfg, t) && t in cfg.flags && t !in cfg.groups
  }

  predicate PlainFlags(cfg: Config, letters: string) {
    forall i :: 0 <= i < |letters| ==> PlainFlag(cfg, Dash(letters[i]))
  }

  function FlagSegments(letters: string): seq<Segment> {
    seq(|letters|, i requires 0 <= i < |letters| => FlagUse(Dash(letters[i])))
  }

  /** Flag letters do the same inside a cluster as on their own. */
  lemma {:induction false} FlagLetters(cfg: Config, token: string, letters: string)
    requires PlainFlags(cfg, letters)
    ensures AreSegments(cfg, FlagSegments(letters))
    ensures FlatMap(Tokens, FlagSegments(letters)) == Singles(letters)
    ensures EffectsOf(cfg, FlagSegments(letters)) == FlatMap(LetterEffects(cfg, token), letters)
  {
    hide Reserved;
    if letters != "" {
      assert forall i :: 0 <= i < |letters[1..]| ==> Dash(letters[1..][i]) == Dash(letters[i + 1]);
      FlagLetters(cfg, token, letters[1..]);
      assert FlagSegments(letters)[1..] == FlagSegments(letters[1..]);
      assert Singles(letters) == [Dash(letters[0])] + Singles(letters[1..]);
    }
  }

  /** An option letter that ends a cluster, seen as a token of its own. */
  predicate PlainLast(cfg: Config, t: string) {
    !Reserved(cfg, t) && (t in cfg.flags <==> t !in cfg.groups)
  }

  lemma LastAlone(cfg: Config, argc: nat, t: string, rest: seq<string>)
    requires PlainLast(cfg, t)
    ensures ScanHead(cfg, argc, [t] + rest) ==
            if t in cfg.flags then Complete(FlagUse(t))
            else if rest == [] || cfg.Known(rest[0]) then Stopped([], InvalidArguments)
            else Complete(KeyValue(t, rest[0]))
  {
    hide Reserved, ReservedExit;
    assert rest != [] ==> ([t] + rest)[1] == rest[0];
  }

  lemma ClusterHead(cfg: Config, argc: nat, t: string, rest: seq<string>)
    requires ClusterToken(cfg, t) && PlainLast(cfg, LastOption(t))
    ensures ScanHead(cfg, argc, [t] + rest) ==
            if LastOption(t) in cfg.flags then Complete(Cluster(t))
            else if rest == [] || cfg.Known(rest[0]) then Stopped(InteriorEffects(cfg, t), InvalidArguments)
            else Complete(ClusterValue(t, rest[0]))
  {
    hide InteriorEffects, ReservedExit;
    LettersHaveNoEq(t);
    assert t != "--version" && t != "--help" by {
      assert IsLetter(t[1..][0]);
    }
    assert rest != [] ==> ([t] + rest)[1] == rest[0];
  }

  /** The scan of a list whose first segment or halt is known. */
  lemma ScanHeadEffects(cfg: Config, argc: nat, toks: seq<string>)
    requires toks != []
    ensures var head, sc := ScanHead(cfg, argc, toks), Scan(cfg, argc, toks);
            if head.Stopped? then Effects(cfg, sc) == head.pending && sc.exit == Some(head.exit)
            else
              var rest := Scan(cfg, argc, toks[|Tokens(head.segment)|..]);
              && Effects(cfg, sc) == SegmentEffects(cfg)(head.segment) + Effects(cfg, rest)
              && sc.exit == rest.exit
  {
    hide ScanHead, SegmentEffects;
    var head := ScanHead(cfg, argc, toks);
    if head.Complete? {
      ConsEffects(cfg, head.segment, Scan(cfg, argc, toks[|Tokens(head.segment)|..]));
    }
  }

  /** The last option of a cluster and the same option on its own, on the same remaining arguments. */
  lemma LastOptionAlike(cfg: Config, argc: nat, argc': nat, t: string, rest: seq<string>)
    requires ClusterToken(cfg, t) && PlainLast(cfg, LastOption(t))
    requires rest == [] || (argc > 2 && argc' > 2)
    ensures var a, b := Scan(cfg, argc, [t] + rest), Scan(cfg, argc', [LastOption(t)] + rest);
            && Effects(cfg, a) == InteriorEffects(cfg, t) + Effects(cfg, b)
            && a.exit == b.exit
  {
    hide ScanHead, Scan, InteriorEffects, PlainLast, ReservedExit, Effects;
    var last := LastOption(t);
    var xs, ys := [t] + rest, [last] + rest;
    ClusterHead(cfg, argc, t, rest);
    LastAlone(cfg, argc', last, rest);
    ScanHeadEffects(cfg, argc, xs);
    ScanHeadEffects(cfg, argc', ys);
    var inner := InteriorEffects(cfg, t);
    if last in cfg.flags {
      assert xs[1..] == rest && ys[1..] == rest;
      ArgcIrrelevant(cfg, argc, argc', rest);
      Regroup(inner, UseFlag(cfg, last), Effects(cfg, Scan(cfg, argc, rest)));
    } else if rest == [] || cfg.Known(rest[0]) {
      assert inner + [] == inner;
    } else {
      var v, later := rest[0], rest[1..];
      assert xs[2..] == later && ys[2..] == later;
      ArgcIrrelevant(cfg, argc, argc', later);
      Regroup(inner, UseGroup(cfg, last, v), Effects(cfg, Scan(cfg, argc, later)));
    }
  }

  lemma Regroup(a: seq<Effect>, b: seq<Effect>, c: seq<Effect>)
    ensures (a + b) + c == a + (b + c)
  {
  }

  /** -abc parses exactly like -a -b -c wherever it stands at a loop head, exits included, and also when its last
      letter takes the next token as its value. */
  lemma ClusterExpansion(cfg: Config, prog: string, before: seq<Segment>, letters: string, rest: seq<string>)
    requires AreSegments(cfg, before)
    requires |letters| >= 2 && ClusterToken(cfg, "-" + letters)
    requires PlainFlags(cfg, letters[..|letters| - 1]) && PlainLast(cfg, Dash(letters[|letters| - 1]))
    ensures Parse(cfg, After(prog, before, ["-" + letters] + rest)) ==
            Parse(cfg, After(prog, before, Singles(letters) + rest))
  {
    hide IsSegment, Parse, Scan, ScanHead, ClusterToken, Reserved, PlainFlags, PlainLast, Effects;
    var t := "-" + letters;
    var inner, last := letters[..|letters| - 1], Dash(letters[|letters| - 1]);
    assert LastOption(t) == last && Interior(t) == inner;
    var xs, ys := [t] + rest, Singles(letters) + rest;
    var argc, argc' := |After(prog, before, xs)|, |After(prog, before, ys)|;
    FlagLetters(cfg, t, inner);
    assert ys == FlatMap(Tokens, FlagSegments(inner)) + ([last] + rest);
    PrefixEffects(cfg, argc', FlagSegments(inner), [last] + rest);
    LastOptionAlike(cfg, argc, argc', t, rest);
    AlikeParses(cfg, prog, before, xs, ys);
  }

  /** A cluster whose two letters are both unregistered is recorded twice. */
  lemma UnknownPairIsPushedTwice(cfg: Config, prog: string, c: char, d: char)
    requires ClusterToken(cfg, ['-', c, d]) && !cfg.Known(Dash(c)) && !cfg.Known(Dash(d))
    ensures Parse(cfg, [prog, ['-', c, d]]) == Parsed(map[], [['-', c, d], ['-', c, d]])
  {
    var t := ['-', c, d];
    var s := Cluster(t);
    PairEffects(cfg, c, d);
    hide Reserved, Parse, ClusterToken, SegmentEffects;
    ParseSegments(cfg, prog, [s]);
    FlatMapOne(Tokens, s);
    FlatMapOne(SegmentEffects(cfg), s);
    assert Argv(prog, [s]) == [prog, t];
    var es := [Keep(t), Push(t)];
    hide ApplyAll, FlatMap;
    KeepAndPush(t);
  }

  lemma KeepAndPush(t: string)
    ensures ApplyAll(EMPTY, [Keep(t), Push(t)]).Some?
    ensures var st := ApplyAll(EMPTY, [Keep(t), Push(t)]).value; st.args == map[] && st.other == [t, t]
  {
    var es, mid := [Keep(t), Push(t)], Store({} + {t}, map[], [] + [t]);
    assert es[1..] == [Push(t)] && es[1..][1..] == [];
    assert Apply(EMPTY, Keep(t)) == Some(mid);
    assert ApplyAll(mid, [Push(t)]) == Some(Store(mid.used, map[], mid.other + [t]));
    assert mid.other + [t] == [t, t];
  }

  lemma PairEffects(cfg: Config, c: char, d: char)
    requires ClusterToken(cfg, ['-', c, d]) && !cfg.Known(Dash(c)) && !cfg.Known(Dash(d))
    ensures var t := ['-', c, d];
            IsSegment(cfg, Cluster(t)) && SegmentEffects(cfg)(Cluster(t)) == [Keep(t), Push(t)]
  {
    var t := ['-', c, d];
    ClusterIsNotReserved(cfg, t);
    assert Interior(t) == [c];
    FlatMapOne(LetterEffects(cfg, t), c);
  }

  lemma ClusterIsNotReserved(cfg: Config, t: string)
    requires ClusterToken(cfg, t)
    ensures !Reserved(cfg, t)
  {
    assert IsLetter(t[1..][0]);
  }

  // ---- Assignments ----

  /** A key=value token is taken as an assignment to that key exactly when it is not itself an alias and is
      longer than two characters; accepted aliases leave only the empty value open. */
  lemma AssignmentIff(cfg: Config, argc: nat, k: string, v: string, rest: seq<string>)
    requires cfg.WellKeyed() && k in cfg.groups && '=' !in k
    ensures ScanHead(cfg, argc, [k + "=" + v] + rest) == Complete(Assignment(k, v)) <==>
            v != "" || (|k| > 1 && !cfg.Known(k + "="))
  {
    var t := k + "=" + v;
    if v == "" {
      assert t == k + "=";
    } else {
      InteriorEqIsNoAlias(cfg, k, v);
    }
    if v != "" || (|k| > 1 && !cfg.Known(t)) {
      SegmentIsHead(cfg, argc, Assignment(k, v), rest);
    } else if ScanHead(cfg, argc, [t] + rest) == Complete(Assignment(k, v)) {
      HeadIsSegment(cfg, argc, [t] + rest);
    }
  }

  /** Registration cannot create a key that competes with a non-empty assignment. */
  lemma InteriorEqIsNoAlias(cfg: Config, k: string, v: string)
    requires cfg.WellKeyed() && k in cfg.groups && v != ""
    ensures !cfg.Known(k + "=" + v) && k != ""
  {
    var t := k + "=" + v;
    assert cfg.Known(k) && |k| >= 1;
    assert t[|k|] == '=' && !Printable(t[|k|]);
    assert !CheckSpec(t);
  }

  /** --file=x parses like --file x wherever it stands at a loop head, provided x is not an option itself. */
  lemma AssignmentForm(cfg: Config, prog: string, before: seq<Segment>, k: string, v: string, rest: seq<string>)
    requires AreSegments(cfg, before) && IsSegment(cfg, Assignment(k, v)) && IsSegment(cfg, KeyValue(k, v))
    ensures Parse(cfg, After(prog, before, [k + "=" + v] + rest)) == Parse(cfg, After(prog, before, [k, v] + rest))
  {
    var xs, ys := [k + "=" + v] + rest, [k, v] + rest;
    var argc, argc' := |After(prog, before, xs)|, |After(prog, before, ys)|;
    SegmentIsHead(cfg, argc, Assignment(k, v), rest);
    SegmentIsHead(cfg, argc', KeyValue(k, v), rest);
    ScanHeadEffects(cfg, argc, xs);
    ScanHeadEffects(cfg, argc', ys);
    hide ScanHead, Scan, IsSegment, Effects;
    assert xs[1..] == rest && ys[2..] == rest;
    ArgcIrrelevant(cfg, argc, argc', rest);
    AlikeParses(cfg, prog, before, xs, ys);
  }

  /** When the value is an option or the key is reserved the separate form never parses, so the two forms agree on
      a successful assignment exactly when neither is the case. */
  lemma AssignmentFormIff(cfg: Config, prog: string, before: seq<Segment>, k: string, v: string, rest: seq<string>)
    requires AreSegments(cfg, before) && IsSegment(cfg, Assignment(k, v))
    requires Parse(cfg, After(prog, before, [k + "=" + v] + rest)).Parsed?
    ensures Parse(cfg, After(prog, before, [k + "=" + v] + rest)) == Parse(cfg, After(prog, before, [k, v] + rest))
            <==> !cfg.Known(v) && !Reserved(cfg, k)
  {
    hide Reserved, Parse;
    if !cfg.Known(v) && !Reserved(cfg, k) {
      AssignmentForm(cfg, prog, before, k, v, rest);
    } else {
      SeparateFormStops(cfg, |After(prog, before, [k, v] + rest)|, k, v, rest);
      ParseAfter(cfg, prog, before, [k, v] + rest);
    }
  }

  lemma SeparateFormStops(cfg: Config, argc: nat, k: string, v: string, rest: seq<string>)
    requires k in cfg.groups && (cfg.Known(v) || Reserved(cfg, k))
    ensures Scan(cfg, argc, [k, v] + rest).exit.Some?
  {
    hide Reserved, ReservedExit;
    assert ([k, v] + rest)[1] == v;
  }
}
