/** libgs::cmdline::args_parser as an object: registration mutates the tables, parsing runs the loop over argv. */
module ArgsParser {
  import opened Sequences
  import opened ArgsTables
  import opened ArgsEffects
  import opened ArgsGrammar
  import Decimal

  /** The static counter that numbers the add calls of all parsers of the process. */
  class IdSource {
    var next: nat

    constructor ()
      ensures next == 0
    {
      next := 0;
    }
  }

  /** Every id in the table is the printed number of its alias's add call, one of calls. */
  ghost predicate Numbered(t: Table, call: map<string, nat>, calls: set<nat>) {
    && t.Keys == call.Keys
    && forall k :: k in t ==> t[k].group == Decimal.Print(call[k]) && call[k] in calls
  }

  /** The aliases are acceptable and numbered by add calls below bound, none of which fills both tables. */
  ghost predicate WellNumbered(cfg: Config, groupCall: map<string, nat>, flagCall: map<string, nat>, calls: set<nat>,
                               bound: nat)
  {
    && cfg.WellKeyed()
    && Numbered(cfg.groups, groupCall, calls)
    && Numbered(cfg.flags, flagCall, calls)
    && (forall n :: n in calls ==> n < bound)
    && forall k, l :: k in cfg.groups && l in cfg.flags ==> groupCall[k] != flagCall[l]
  }

  ghost function NewCalls(call: map<string, nat>, t: Table, id: nat): map<string, nat> {
    map k | k in t :: if k in call then call[k] else id
  }

  /** Registration under a new number keeps a table well numbered and well keyed. */
  lemma RegisteredKeeps(t: Table, call: map<string, nat>, calls: set<nat>, aliases: seq<string>, id: nat,
                        identification: string)
    requires Numbered(t, call, calls)
    ensures var r := Registered(t, aliases, Decimal.Print(id), identification);
            && Numbered(r, NewCalls(call, r, id), calls + {id})
            && (forall k :: k in r ==> k in t || Acceptable(k))
            && (forall k :: k in r ==> NewCalls(call, r, id)[k] == if k in t then call[k] else id)
  {
    var r := Registered(t, aliases, Decimal.Print(id), identification);
    assert t.Keys <= r.Keys;
  }

  lemma GroupsKeep(cfg: Config, groupCall: map<string, nat>, flagCall: map<string, nat>, calls: set<nat>,
                   aliases: seq<string>, id: nat, identification: string, help: string)
    requires WellNumbered(cfg, groupCall, flagCall, calls, id)
    ensures var r := Registered(cfg.groups, aliases, Decimal.Print(id), identification);
            && WellNumbered(cfg.(groups := r, help := help), NewCalls(groupCall, r, id), flagCall, calls + {id}, id + 1)
            && forall k :: k in r ==> NewCalls(groupCall, r, id)[k] == if k in cfg.groups then groupCall[k] else id
  {
    hide Registered, Acceptable;
    RegisteredKeeps(cfg.groups, groupCall, calls, aliases, id, identification);
  }

  lemma FlagsKeep(cfg: Config, groupCall: map<string, nat>, flagCall: map<string, nat>, calls: set<nat>,
                  aliases: seq<string>, id: nat, identification: string, help: string)
    requires WellNumbered(cfg, groupCall, flagCall, calls, id)
    ensures var r := Registered(cfg.flags, aliases, Decimal.Print(id), identification);
            && WellNumbered(cfg.(flags := r, help := help), groupCall, NewCalls(flagCall, r, id), calls + {id}, id + 1)
            && forall k :: k in r ==> NewCalls(flagCall, r, id)[k] == if k in cfg.flags then flagCall[k] else id
  {
    hide Registered, Acceptable;
    RegisteredKeeps(cfg.flags, flagCall, calls, aliases, id, identification);
  }

  class ArgsParser {
    const ids: IdSource
    var groups: Table
    var flags: Table
    var version: string
    var v: string
    var help: string
    var h: bool

    /** The numbers of the add calls on this parser, and which of them every alias comes from. */
    ghost var calls: set<nat>
    ghost var groupCall: map<string, nat>
    ghost var flagCall: map<string, nat>

    function Tables(): Config
      reads this
    {
      Config(groups, flags, version, v, help, h)
    }

    ghost predicate NumberedBelow(bound: nat)
      reads this
    {
      WellNumbered(Tables(), groupCall, flagCall, calls, bound)
    }

    ghost predicate Valid()
      reads this, ids
    {
      NumberedBelow(ids.next)
    }

    /** The two parsers were filled by different add calls. */
    ghost predicate Apart(other: ArgsParser)
      reads this, other
    {
      calls !! other.calls
    }

    /** Any other parsers of the process, filled by other add calls than this one. */
    ghost predicate Beside(others: set<ArgsParser>)
      reads this, ids, others, set q | q in others :: q.ids
    {
      forall q :: q in others ==> q != this && q.ids == ids && q.Valid() && Apart(q)
    }

    /** The other parsers before an add call numbered id on this one, which is theirs to read alone. */
    ghost predicate Filled(others: set<ArgsParser>, id: nat, before: set<nat>)
      reads others
    {
      forall q :: q in others ==> q != this && q.ids == ids && q.NumberedBelow(id) && before !! q.calls
    }

    lemma BesideFilled(others: set<ArgsParser>)
      requires Beside(others)
      ensures Filled(others, ids.next, calls) && this !in others
    {
    }

    /** An add call numbered id on this parser leaves the others beside it. */
    lemma StillBeside(others: set<ArgsParser>, id: nat, before: set<nat>)
      requires Filled(others, id, before) && calls == before + {id} && id <= ids.next
      ensures Beside(others)
    {
      forall q | q in others ensures q.Valid() && Apart(q) {
        assert forall n :: n in q.calls ==> n < id;
      }
    }

    constructor (source: IdSource)
      ensures Valid() && ids == source
      ensures forall other: ArgsParser :: Apart(other)
      ensures Tables() == Config(map[], map[], "", "", "", false)
    {
      ids := source;
      groups, flags := map[], map[];
      version, v, help, h := "", "", "", false;
      calls, groupCall, flagCall := {}, map[], map[];
    }

    /** aliases is the trimmed alias list of rule. */
    method AddGroup(rule: string, aliases: seq<string>, description: string, identification: string,
                    ghost others: set<ArgsParser> := {})
      requires Valid() && Beside(others)
      modifies this`groups, this`groupCall, this`calls, this`help, ids
      ensures Valid() && ids.next == old(ids.next) + 1
      ensures groups == Registered(old(groups), aliases, Decimal.Print(old(ids.next)), identification)
      ensures Enters(old(groups), groups, aliases, Decimal.Print(old(ids.next)), identification)
      ensures help == old(help) + "    " + rule + " :\n        " + description + "\n\n" && help != ""
      ensures calls == old(calls) + {old(ids.next)}
      ensures forall k :: k in groups ==>
                groupCall[k] == if k in old(groups) then old(groupCall)[k] else old(ids.next)
      ensures Beside(others)
    {
      var id := ids.next;
      hide Registered, Enters, NewCalls, WellNumbered, HelpEntry, Filled, Beside, Apart;
      ghost var before := calls;
      BesideFilled(others);
      GroupsKeep(Tables(), groupCall, flagCall, calls, aliases, id, identification, help + HelpEntry(rule, description));
      ids.next := ids.next + 1;
      groups := Register(groups, aliases, Decimal.Print(id), identification);
      HelpGrows(help, rule, description);
      help := help + HelpEntry(rule, description);
      calls, groupCall := calls + {id}, NewCalls(groupCall, groups, id);
      StillBeside(others, id, before);
    }

    method AddFlag(rule: string, aliases: seq<string>, description: string, identification: string,
                    ghost others: set<ArgsParser> := {})
      requires Valid() && Beside(others)
      modifies this`flags, this`flagCall, this`calls, this`help, ids
      ensures Valid() && ids.next == old(ids.next) + 1
      ensures flags == Registered(old(flags), aliases, Decimal.Print(old(ids.next)), identification)
      ensures Enters(old(flags), flags, aliases, Decimal.Print(old(ids.next)), identification)
      ensures help == old(help) + "    " + rule + " :\n        " + description + "\n\n" && help != ""
      ensures calls == old(calls) + {old(ids.next)}
      ensures forall k :: k in flags ==>
                flagCall[k] == if k in old(flags) then old(flagCall)[k] else old(ids.next)
      ensures Beside(others)
    {
      var id := ids.next;
      hide Registered, Enters, NewCalls, WellNumbered, HelpEntry, Filled, Beside, Apart;
      ghost var before := calls;
      BesideFilled(others);
      FlagsKeep(Tables(), groupCall, flagCall, calls, aliases, id, identification, help + HelpEntry(rule, description));
      ids.next := ids.next + 1;
      flags := Register(flags, aliases, Decimal.Print(id), identification);
      HelpGrows(help, rule, description);
      help := help + HelpEntry(rule, description);
      calls, flagCall := calls + {id}, NewCalls(flagCall, flags, id);
      StillBeside(others, id, before);
    }

    /** Two aliases share a group id exactly when one add call registered both; in particular an alias of a group
        never shares its id with an alias of a flag. */
    lemma IdsIdentifyCalls()
      requires Valid()
      ensures Tables().WellKeyed() && Tables().NumberedIds()
      ensures forall k, l :: k in groups && l in groups ==>
                (groups[k].group == groups[l].group <==> groupCall[k] == groupCall[l])
      ensures forall k, l :: k in flags && l in flags ==>
                (flags[k].group == flags[l].group <==> flagCall[k] == flagCall[l])
      ensures forall k, l :: k in groups && l in flags ==> groups[k].group != flags[l].group
    {
      forall k, l | k in groups && l in groups
        ensures groups[k].group == groups[l].group <==> groupCall[k] == groupCall[l]
      {
        Decimal.PrintInjective(groupCall[k], groupCall[l]);
      }
      forall k, l | k in flags && l in flags
        ensures flags[k].group == flags[l].group <==> flagCall[k] == flagCall[l]
      {
        Decimal.PrintInjective(flagCall[k], flagCall[l]);
      }
      forall k, l | k in groups && l in flags ensures groups[k].group != flags[l].group {
        Decimal.PrintInjective(groupCall[k], flagCall[l]);
      }
      forall k | k in groups ensures Decimal.IsNumeral(groups[k].group) {
        Decimal.PrintIsNumeral(groupCall[k]);
      }
      forall k | k in flags ensures Decimal.IsNumeral(flags[k].group) {
        Decimal.PrintIsNumeral(flagCall[k]);
      }
    }

    /** The same across two parsers of one process: no add call fills both, so they never share a group id. */
    lemma IdsApart(other: ArgsParser)
      requires Valid() && other.Valid() && Apart(other)
      ensures forall a, b :: Tables().IsInfo(a) && other.Tables().IsInfo(b) ==> a.group != b.group
    {
      forall a, b | Tables().IsInfo(a) && other.Tables().IsInfo(b) ensures a.group != b.group {
        var m := CallOf(a);
        var n := other.CallOf(b);
        Decimal.PrintInjective(m, n);
      }
    }

    lemma CallOf(a: ArgInfo) returns (n: nat)
      requires Valid() && Tables().IsInfo(a)
      ensures n in calls && a.group == Decimal.Print(n)
    {
      if k :| k in groups && groups[k] == a {
        n := groupCall[k];
      } else {
        var k :| k in flags && flags[k] == a;
        n := flagCall[k];
      }
    }

    method SetVersion(d: string)
      requires Valid()
      modifies this`version
      ensures Valid() && Tables() == old(Tables()).(version := d)
    {
      version := d;
    }

    method SetV(d: string)
      requires Valid()
      modifies this`v
      ensures Valid() && Tables() == old(Tables()).(v := d)
    {
      v := d;
    }

    method EnableH()
      requires Valid()
      modifies this`h
      ensures Valid() && Tables() == old(Tables()).(h := true)
    {
      h := true;
    }

    method DisableH()
      requires Valid()
      modifies this`h
      ensures Valid() && Tables() == old(Tables()).(h := false)
    {
      h := false;
    }

    /** group_check_duplication; ok is false when the original exits. */
    method GroupCheckDuplication(cache: set<string>, group: string) returns (ok: bool, cache': set<string>)
      ensures ok == (group !in cache)
      ensures cache' == cache + {group}
    {
      ok := group !in cache;
      cache' := cache + {group};
    }

    /** The tokens that end the parse. */
    method CheckReserved(argc: nat, arg: string) returns (exit: Option<Exit>)
      ensures exit == if Reserved(Tables(), arg) then Some(ReservedExit(Tables(), argc, arg)) else None
    {
      if arg == "-" || arg == "--" {
        return Some(InvalidArguments);
      } else if arg == "--version" {
        if argc > 2 {
          return Some(TooManyParameters);
        } else if version != "" {
          return Some(PrintVersion);
        } else if v != "" {
          return Some(PrintV);
        } else {
          return Some(InvalidArguments);
        }
      } else if arg == "-v" {
        if v != "" {
          if argc > 2 {
            return Some(TooManyParameters);
          }
          return Some(PrintV);
        }
      } else if arg == "--help" {
        if argc > 2 {
          return Some(TooManyParameters);
        } else if help != "" {
          return Some(PrintHelp);
        } else {
          return Some(InvalidArguments);
        }
      } else if arg == "-h" {
        if h {
          if argc > 2 {
            return Some(TooManyParameters);
          }
          return Some(PrintHelp);
        }
      }
      return None;
    }

    method CheckLetters(arg: string) returns (flag: bool)
      requires arg != ""
      ensures flag == AllLetters(arg[1..])
      ensures flag <==> forall k :: 1 <= k < |arg| ==> 'A' <= arg[k] <= 'Z' || 'a' <= arg[k] <= 'z'
    {
      flag := true;
      var j := 1;
      while j < |arg|
        invariant 1 <= j <= |arg|
        invariant flag && forall k :: 1 <= k < j ==> IsLetter(arg[k])
      {
        if arg[j] < 'A' || (arg[j] > 'Z' && arg[j] < 'a') || arg[j] > 'z' {
          assert !IsLetter(arg[1..][j - 1]);
          return false;
        }
        j := j + 1;
      }
    }

    /** The letters of a cluster before the last one. */
    method ParseInterior(arg: string, cache: set<string>, result: map<string, string>, other: seq<string>)
      returns (ok: bool, cache': set<string>, result': map<string, string>, other': seq<string>)
      requires |arg| > 2
      ensures ApplyAll(Store(cache, result, other), InteriorEffects(Tables(), arg)) ==
              if ok then Some(Store(cache', result', other')) else None
    {
      ghost var cfg, st := Tables(), Store(cache, result, other);
      ghost var effect := LetterEffects(cfg, arg);
      cache', result', other' := cache, result, other;
      var j := 1;
      while j < |arg| - 1
        invariant 1 <= j <= |arg| - 1
        invariant ApplyAll(st, FlatMap(effect, arg[1..j])) == Some(Store(cache', result', other'))
      {
        var letter := Dash(arg[j]);
        InteriorNext(cfg, arg, j, st, Store(cache', result', other'));
        if letter !in flags {
          ok, cache' := GroupCheckDuplication(cache', arg);
          if !ok {
            InteriorCut(cfg, arg, j + 1, st);
            return;
          }
          other' := other' + [arg];
        } else {
          var info := flags[letter];
          ok, cache' := GroupCheckDuplication(cache', info.group);
          if !ok {
            InteriorCut(cfg, arg, j + 1, st);
            return;
          }
          result' := Emplace(result', info.iden, info.iden);
        }
        j := j + 1;
      }
      ok := true;
    }

    /** The end of an iteration, for a token starting with '-' made of letters only. exit tells how the original
        exits; otherwise the loop goes on at position next. */
    method ParseCluster(argv: seq<string>, i: nat, cache: set<string>, result: map<string, string>, other: seq<string>)
      returns (exit: Option<Exit>, next: nat, cache': set<string>, result': map<string, string>, other': seq<string>)
      requires i < |argv| && !Reserved(Tables(), argv[i]) && ClusterToken(Tables(), argv[i])
      ensures Continues(argv, i, Store(cache, result, other), exit, next, Store(cache', result', other'))
    {
      hide Resume, ScanHead, Reserved, ReservedExit, AllLetters, SegmentEffects, ApplyAll, InteriorEffects;
      ghost var cfg, st := Tables(), Store(cache, result, other);
      ClusterCases(cfg, |argv|, argv[i..]);
      exit, next, cache', result', other' := None, i + 1, cache, result, other;
      var arg := argv[i];
      var ok;
      ok, cache', result', other' := ParseInterior(arg, cache', result', other');
      if !ok {
        InteriorFails(cfg, argv, i, st);
        exit := Some(TooManyParameters);
        return;
      }
      ghost var mid := Store(cache', result', other');
      var tmp := Dash(arg[|arg| - 1]);
      if tmp in flags {
        var info := flags[tmp];
        ResumeClusterFlag(cfg, argv, i, st, mid);
        ok, cache' := GroupCheckDuplication(cache', info.group);
        if !ok {
          exit := Some(TooManyParameters);
          return;
        }
        result' := Emplace(result', info.iden, info.iden);
        return;
      }
      if tmp in groups {
        if i + 1 == |argv| || argv[i + 1] in groups || argv[i + 1] in flags {
          ResumeStep(cfg, |argv|, argv[i..], st);
          exit := Some(InvalidArguments);
          return;
        }
        var info := groups[tmp];
        var value := argv[i + 1];
        ResumeClusterGroup(cfg, argv, i, st, mid);
        ok, cache' := GroupCheckDuplication(cache', info.group);
        if !ok {
          exit := Some(TooManyParameters);
          return;
        }
        result' := Emplace(result', info.iden, value);
        next := i + 2;
        return;
      }
      ResumeClusterUnknown(cfg, argv, i, st, mid);
      other' := other' + [arg];
    }

    /** The middle of an iteration, for a token that is not an alias and is longer than two characters. */
    method ParseLong(argv: seq<string>, i: nat, cache: set<string>, result: map<string, string>, other: seq<string>)
      returns (exit: Option<Exit>, next: nat, cache': set<string>, result': map<string, string>, other': seq<string>)
      requires i < |argv| && |argv[i]| > 2
      requires !Reserved(Tables(), argv[i]) && !Tables().Known(argv[i])
      ensures Continues(argv, i, Store(cache, result, other), exit, next, Store(cache', result', other'))
    {
      hide Resume, ScanHead, Reserved, ReservedExit, AllLetters;
      ghost var cfg, st := Tables(), Store(cache, result, other);
      HeadCases(cfg, |argv|, argv[i..]);
      exit, next, cache', result', other' := None, i + 1, cache, result, other;
      var arg := argv[i];
      var ok;
      var pos := FindEq(arg);
      if pos < |arg| {
        if arg[..pos] !in groups {
          ResumeKeep(cfg, argv, i, st);
          ok, cache' := GroupCheckDuplication(cache', arg);
          if !ok {
            exit := Some(TooManyParameters);
            return;
          }
          other' := other' + [arg];
        } else {
          var info := groups[arg[..pos]];
          var value := arg[pos + 1..];
          ResumeUse(cfg, argv, i, st, Assignment(arg[..pos], value), info, value);
          ok, cache' := GroupCheckDuplication(cache', info.group);
          if !ok {
            exit := Some(TooManyParameters);
            return;
          }
          result' := Emplace(result', info.iden, value);
        }
        return;
      }
      var flag := false;
      if arg[0] == '-' {
        flag := CheckLetters(arg);
      }
      if !flag {
        ResumeKeep(cfg, argv, i, st);
        ok, cache' := GroupCheckDuplication(cache', arg);
        if !ok {
          exit := Some(TooManyParameters);
          return;
        }
        other' := other' + [arg];
        return;
      }
      exit, next, cache', result', other' := ParseCluster(argv, i, cache, result, other);
    }

    /** One iteration of the loop. */
    method ParseOne(argv: seq<string>, i: nat, cache: set<string>, result: map<string, string>, other: seq<string>)
      returns (exit: Option<Exit>, next: nat, cache': set<string>, result': map<string, string>, other': seq<string>)
      requires i < |argv|
      ensures Continues(argv, i, Store(cache, result, other), exit, next, Store(cache', result', other'))
    {
      hide Resume, ScanHead, Reserved, ReservedExit, AllLetters;
      ghost var cfg, st := Tables(), Store(cache, result, other);
      HeadCases(cfg, |argv|, argv[i..]);
      next, cache', result', other' := i + 1, cache, result, other;
      var arg := argv[i];
      var ok;
      exit := CheckReserved(|argv|, arg);
      if exit.Some? {
        ResumeStep(cfg, |argv|, argv[i..], st);
        return;
      }
      if arg in groups {
        if i + 1 == |argv| || argv[i + 1] in groups || argv[i + 1] in flags {
          ResumeStep(cfg, |argv|, argv[i..], st);
          exit := Some(InvalidArguments);
          return;
        }
        var info := groups[arg];
        ResumeUse(cfg, argv, i, st, KeyValue(arg, argv[i + 1]), info, argv[i + 1]);
        ok, cache' := GroupCheckDuplication(cache', info.group);
        if !ok {
          exit := Some(TooManyParameters);
          return;
        }
        result' := Emplace(result', info.iden, argv[i + 1]);
        next := i + 2;
        return;
      }
      if arg in flags {
        var info := flags[arg];
        ResumeUse(cfg, argv, i, st, FlagUse(arg), info, info.iden);
        ok, cache' := GroupCheckDuplication(cache', info.group);
        if !ok {
          exit := Some(TooManyParameters);
          return;
        }
        result' := Emplace(result', info.iden, info.iden);
        return;
      } else if |arg| <= 2 {
        ResumeKeep(cfg, argv, i, st);
        ok, cache' := GroupCheckDuplication(cache', arg);
        if !ok {
          exit := Some(TooManyParameters);
          return;
        }
        other' := other' + [arg];
        return;
      }
      exit, next, cache', result', other' := ParseLong(argv, i, cache, result, other);
    }

    /** What one iteration owes the loop. */
    ghost predicate Continues(argv: seq<string>, i: nat, st: Store, exit: Option<Exit>, next: nat, st': Store)
      requires i < |argv|
      reads this
    {
      var before := Resume(Tables(), |argv|, argv[i..], st);
      if exit.Some? then before == Exited(exit.value)
      else i < next <= |argv| && before == Resume(Tables(), |argv|, argv[next..], st')
    }

    /** The parse with a caller-supplied leftover list. */
    method Parsing(argv: seq<string>) returns (out: Outcome)
      ensures out == Parse(Tables(), argv)
    {
      ghost var cfg := Tables();
      var argc := |argv|;
      var result: map<string, string>, cache: set<string>, other: seq<string> := map[], {}, [];
      var i := 1;
      while i < argc
        invariant 1 <= i && (i <= argc || argc == 0)
        invariant Parse(cfg, argv) == Resume(cfg, argc, From(argv, i), Store(cache, result, other))
      {
        var exit;
        exit, i, cache, result, other := ParseOne(argv, i, cache, result, other);
        if exit.Some? {
          return Exited(exit.value);
        }
      }
      ResumeEnd(cfg, argc, Store(cache, result, other));
      return Parsed(result, other);
    }

    /** The parse without a leftover list: any leftover is an error. */
    method ParsingStrict(argv: seq<string>) returns (out: Outcome)
      ensures out == ParseStrict(Tables(), argv)
      ensures var full := Parse(Tables(), argv);
              out == if full.Exited? then full
                     else if full.other == [] then Parsed(full.args, [])
                     else Exited(InvalidArguments)
    {
      out := Parsing(argv);
      if out.Parsed? && out.other != [] {
        return Exited(InvalidArguments);
      }
    }
  }

  /** ScanHead case by case, for a token that a loop iteration starts at. */
  lemma HeadCases(cfg: Config, argc: nat, toks: seq<string>)
    requires toks != []
    ensures var t, head := toks[0], ScanHead(cfg, argc, toks);
            && (Reserved(cfg, t) ==> head == Stopped([], ReservedExit(cfg, argc, t)))
            && (!Reserved(cfg, t) ==>
                  if t in cfg.groups then
                    head == if NoValue(cfg, toks) then Stopped([], InvalidArguments) else Complete(KeyValue(t, toks[1]))
                  else if t in cfg.flags then head == Complete(FlagUse(t))
                  else if |t| <= 2 then head == Complete(Leftover(t))
                  else if FindEq(t) < |t| then
                    var p := FindEq(t);
                    head == if t[..p] in cfg.groups then Complete(Assignment(t[..p], t[p + 1..])) else Complete(Leftover(t))
                  else if t[0] != '-' || !AllLetters(t[1..]) then head == Complete(Leftover(t))
                  else if LastOption(t) in cfg.flags || LastOption(t) !in cfg.groups then head == Complete(Cluster(t))
                  else if NoValue(cfg, toks) then head == Stopped(InteriorEffects(cfg, t), InvalidArguments)
                  else head == Complete(ClusterValue(t, toks[1])))
  {
  }

  lemma ClusterCases(cfg: Config, argc: nat, toks: seq<string>)
    requires toks != [] && !Reserved(cfg, toks[0]) && ClusterToken(cfg, toks[0])
    ensures var t, head := toks[0], ScanHead(cfg, argc, toks);
            if LastOption(t) in cfg.flags || LastOption(t) !in cfg.groups then head == Complete(Cluster(t))
            else if NoValue(cfg, toks) then head == Stopped(InteriorEffects(cfg, t), InvalidArguments)
            else head == Complete(ClusterValue(t, toks[1]))
  {
    HeadCases(cfg, argc, toks);
    LettersHaveNoEq(toks[0]);
  }

  /** One more interior letter. */
  lemma InteriorNext(cfg: Config, token: string, j: nat, st: Store, now: Store)
    requires 1 <= j < |token| - 1
    requires ApplyAll(st, FlatMap(LetterEffects(cfg, token), token[1..j])) == Some(now)
    ensures ApplyAll(st, FlatMap(LetterEffects(cfg, token), token[1..j + 1])) ==
            Apply(now, if Dash(token[j]) in cfg.flags then UseFlag(cfg, Dash(token[j]))[0] else Keep(token))
  {
    var f := LetterEffects(cfg, token);
    assert token[1..j + 1] == token[1..j] + [token[j]];
    FlatMapConcat(f, token[1..j], [token[j]]);
    FlatMapOne(f, token[j]);
    ApplyConcat(st, FlatMap(f, token[1..j]), f(token[j]));
    assert f(token[j])[1..] == [];
  }

  lemma InteriorCut(cfg: Config, token: string, j: nat, st: Store)
    requires 1 <= j <= |token| - 1
    requires ApplyAll(st, FlatMap(LetterEffects(cfg, token), token[1..j])).None?
    ensures ApplyAll(st, InteriorEffects(cfg, token)).None?
  {
    var f := LetterEffects(cfg, token);
    assert Interior(token) == token[1..j] + token[j..|token| - 1];
    FlatMapConcat(f, token[1..j], token[j..|token| - 1]);
    ApplyConcat(st, FlatMap(f, token[1..j]), FlatMap(f, token[j..|token| - 1]));
  }

  /** A cluster whose interior letters exit. */
  lemma InteriorFails(cfg: Config, argv: seq<string>, i: nat, st: Store)
    requires i < |argv| && argv[i] != "" && ApplyAll(st, InteriorEffects(cfg, argv[i])).None?
    requires var head := ScanHead(cfg, |argv|, argv[i..]);
             || head == Complete(Cluster(argv[i]))
             || (i + 1 < |argv| && head == Complete(ClusterValue(argv[i], argv[i + 1])))
             || head == Stopped(InteriorEffects(cfg, argv[i]), InvalidArguments)
    ensures Resume(cfg, |argv|, argv[i..], st) == Exited(TooManyParameters)
  {
    hide ScanHead, Resume, InteriorEffects;
    ResumeStep(cfg, |argv|, argv[i..], st);
    var head := ScanHead(cfg, |argv|, argv[i..]);
    if head.Complete? {
      var es := SegmentEffects(cfg)(head.segment);
      var inner := InteriorEffects(cfg, argv[i]);
      assert es == inner + es[|inner|..];
      ApplyConcat(st, inner, es[|inner|..]);
    }
  }

  /** A cluster whose interior letters led to mid, and its last letter's effect. */
  lemma ResumeCluster(cfg: Config, argv: seq<string>, i: nat, st: Store, s: Segment, mid: Store, last: Effect)
    requires i < |argv| && (s.Cluster? || s.ClusterValue?)
    requires ScanHead(cfg, |argv|, argv[i..]) == Complete(s)
    requires SegmentEffects(cfg)(s) == InteriorEffects(cfg, s.token) + [last]
    requires ApplyAll(st, InteriorEffects(cfg, s.token)) == Some(mid)
    ensures i + |Tokens(s)| <= |argv|
    ensures Resume(cfg, |argv|, argv[i..], st) ==
            if Apply(mid, last).None? then Exited(TooManyParameters)
            else Resume(cfg, |argv|, argv[i + |Tokens(s)|..], Apply(mid, last).value)
  {
    hide ScanHead, Resume, InteriorEffects;
    ResumeSegment(cfg, argv, i, st, s);
    ApplyConcat(st, InteriorEffects(cfg, s.token), [last]);
    assert [last][1..] == [];
  }

  lemma ResumeClusterFlag(cfg: Config, argv: seq<string>, i: nat, st: Store, mid: Store)
    requires i < |argv| && argv[i] != "" && LastOption(argv[i]) in cfg.flags
    requires ScanHead(cfg, |argv|, argv[i..]) == Complete(Cluster(argv[i]))
    requires ApplyAll(st, InteriorEffects(cfg, argv[i])) == Some(mid)
    ensures var info := cfg.flags[LastOption(argv[i])];
            Resume(cfg, |argv|, argv[i..], st) ==
            if info.group in mid.used then Exited(TooManyParameters)
            else Resume(cfg, |argv|, argv[i + 1..],
                        Store(mid.used + {info.group}, Emplace(mid.args, info.iden, info.iden), mid.other))
  {
    hide ScanHead, Resume, InteriorEffects, ApplyAll;
    var info := cfg.flags[LastOption(argv[i])];
    ResumeCluster(cfg, argv, i, st, Cluster(argv[i]), mid, Use(info.group, info.iden, info.iden));
  }

  lemma ResumeClusterGroup(cfg: Config, argv: seq<string>, i: nat, st: Store, mid: Store)
    requires i + 1 < |argv| && argv[i] != "" && LastOption(argv[i]) in cfg.groups
    requires ScanHead(cfg, |argv|, argv[i..]) == Complete(ClusterValue(argv[i], argv[i + 1]))
    requires ApplyAll(st, InteriorEffects(cfg, argv[i])) == Some(mid)
    ensures var info := cfg.groups[LastOption(argv[i])];
            Resume(cfg, |argv|, argv[i..], st) ==
            if info.group in mid.used then Exited(TooManyParameters)
            else Resume(cfg, |argv|, argv[i + 2..],
                        Store(mid.used + {info.group}, Emplace(mid.args, info.iden, argv[i + 1]), mid.other))
  {
    hide ScanHead, Resume, InteriorEffects, ApplyAll;
    var info := cfg.groups[LastOption(argv[i])];
    ResumeCluster(cfg, argv, i, st, ClusterValue(argv[i], argv[i + 1]), mid, Use(info.group, info.iden, argv[i + 1]));
  }

  lemma ResumeClusterUnknown(cfg: Config, argv: seq<string>, i: nat, st: Store, mid: Store)
    requires i < |argv| && argv[i] != "" && LastOption(argv[i]) !in cfg.flags
    requires ScanHead(cfg, |argv|, argv[i..]) == Complete(Cluster(argv[i]))
    requires ApplyAll(st, InteriorEffects(cfg, argv[i])) == Some(mid)
    ensures Resume(cfg, |argv|, argv[i..], st) ==
            Resume(cfg, |argv|, argv[i + 1..], mid.(other := mid.other + [argv[i]]))
  {
    hide ScanHead, Resume, InteriorEffects, ApplyAll;
    ResumeCluster(cfg, argv, i, st, Cluster(argv[i]), mid, Push(argv[i]));
  }

  lemma HelpGrows(help: string, rule: string, description: string)
    ensures help + HelpEntry(rule, description) == help + "    " + rule + " :\n        " + description + "\n\n" != ""
  {
  }

  function HelpEntry(rule: string, description: string): string {
    "    " + rule + " :\n        " + description + "\n\n"
  }
}
