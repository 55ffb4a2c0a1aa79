/** The alias tables of the command-line parser and how registration fills them. */
module ArgsTables {
  import Decimal

  datatype ArgInfo = ArgInfo(group: string, iden: string)

  type Table = map<string, ArgInfo>

  predicate Printable(c: char) {
    33 <= c as int <= 126 && c != '=' && c != '\\'
  }

  /** The first and the last character are exempt. */
  predicate CheckSpec(s: string) {
    s != "" && forall i :: 1 <= i < |s| - 1 ==> Printable(s[i])
  }

  method Check(s: string) returns (ok: bool)
    ensures ok == CheckSpec(s)
  {
    if s == "" {
      return false;
    }
    var i := 1;
    while i < |s| - 1
      invariant 1 <= i
      invariant forall k :: 1 <= k < i && k < |s| - 1 ==> Printable(s[k])
    {
      if s[i] as int < 33 || s[i] as int == 61 || s[i] as int == 92 || s[i] as int > 126 {
        return false;
      }
      i := i + 1;
    }
    return true;
  }

  /** The aliases registration accepts. */
  predicate Acceptable(alias: string) {
    CheckSpec(alias) && alias != "-" && alias != "--"
  }

  /** Which aliases are accepted, with the characters written out. */
  lemma AcceptableIff(alias: string)
    ensures Acceptable(alias) <==>
            && alias !in {"", "-", "--"}
            && forall i :: 1 <= i < |alias| - 1 ==> '!' <= alias[i] <= '<' || '>' <= alias[i] <= '[' || ']' <= alias[i] <= '~'
  {
  }

  predicate NameChar(c: char) {
    'a' <= c <= 'z' || 'A' <= c <= 'Z' || '0' <= c <= '9' || c == '-' || c == '_' || c == '.'
  }

  /** Every ordinary spelling is accepted: -c, --name, and a bare character or name. */
  lemma UsualSpellings(c: char, name: string)
    requires name != "" && forall i :: 0 <= i < |name| ==> NameChar(name[i])
    ensures c != '-' ==> Acceptable(['-', c]) && Acceptable([c])
    ensures Acceptable("--" + name)
    ensures name != "-" && name != "--" ==> Acceptable(name)
  {
    var long := "--" + name;
    assert forall i :: 2 <= i < |long| ==> long[i] == name[i - 2];
    assert long[1] == '-';
    assert forall i :: 0 <= i < |name| ==> Printable(name[i]);
    assert |long| > 2;
  }

  function Info(id: string, alias: string, identification: string): ArgInfo {
    ArgInfo(id, if identification == "" then alias else identification)
  }

  /** t after registering a list of aliases: accepted aliases that were free get an entry, nothing else changes. */
  function Registered(t: Table, aliases: seq<string>, id: string, identification: string): Table {
    t + map a | a in aliases && Acceptable(a) && a !in t :: Info(id, a, identification)
  }

  /** What a call with these aliases leaves behind in t: entries are never replaced, each accepted alias that was free
      has the id of the call and carries the identification, or its own name when that is empty, and no other alias
      appears. */
  ghost predicate Enters(t: Table, r: Table, aliases: seq<string>, id: string, identification: string) {
    && (forall a :: a in t ==> a in r && r[a] == t[a])
    && (forall a :: a in aliases && Acceptable(a) && a !in t ==>
          a in r && r[a].group == id && r[a].iden == if identification == "" then a else identification)
    && (forall a :: a in r && a !in t ==> a in aliases && Acceptable(a))
  }

  lemma RegisteredEnters(t: Table, aliases: seq<string>, id: string, identification: string)
    ensures Enters(t, Registered(t, aliases, id, identification), aliases, id, identification)
  {
  }

  /** That says everything about the table. */
  lemma EntersUnique(t: Table, r: Table, r': Table, aliases: seq<string>, id: string, identification: string)
    requires Enters(t, r, aliases, id, identification) && Enters(t, r', aliases, id, identification)
    ensures r == r'
  {
    assert forall a :: a in r <==> a in t || (a in aliases && Acceptable(a));
    assert forall a :: a in r' <==> a in t || (a in aliases && Acceptable(a));
    forall a | a in r ensures r[a] == r'[a] {}
  }

  function RegisterOne(t: Table, alias: string, id: string, identification: string): Table {
    if Acceptable(alias) && alias !in t then t[alias := Info(id, alias, identification)] else t
  }

  lemma RegisteredNext(t: Table, aliases: seq<string>, alias: string, id: string, identification: string)
    ensures Registered(t, aliases + [alias], id, identification) ==
            RegisterOne(Registered(t, aliases, id, identification), alias, id, identification)
  {
    var before, after := Registered(t, aliases, id, identification), Registered(t, aliases + [alias], id, identification);
    hide Acceptable, Registered, Enters;
    RegisteredEnters(t, aliases, id, identification);
    RegisteredEnters(t, aliases + [alias], id, identification);
    EntersNext(t, before, aliases, aliases + [alias], alias, id, identification);
    EntersUnique(t, RegisterOne(before, alias, id, identification), after, aliases + [alias], id, identification);
  }

  lemma EntersNext(t: Table, r: Table, aliases: seq<string>, more: seq<string>, alias: string, id: string,
                   identification: string)
    requires Enters(t, r, aliases, id, identification) && forall a :: a in more <==> a in aliases || a == alias
    ensures Enters(t, RegisterOne(r, alias, id, identification), more, id, identification)
  {
    hide Acceptable;
  }

  method Register(t: Table, aliases: seq<string>, id: string, identification: string) returns (r: Table)
    ensures r == Registered(t, aliases, id, identification) && Enters(t, r, aliases, id, identification)
  {
    RegisteredEnters(t, aliases, id, identification);
    r := t;
    for n := 0 to |aliases|
      invariant r == Registered(t, aliases[..n], id, identification)
    {
      var arg := aliases[n];
      RegisteredNext(t, aliases[..n], arg, id, identification);
      assert aliases[..n + 1] == aliases[..n] + [arg];
      var ok := Check(arg);
      if !ok || arg == "--" {
        continue;
      } else if |arg| == 1 {
        if arg != "-" {
          r := if arg in r then r else r[arg := Info(id, arg, identification)];
        }
      } else {
        r := if arg in r then r else r[arg := Info(id, arg, identification)];
      }
    }
    assert aliases[..|aliases|] == aliases;
  }

  /** Everything the parsing loop reads from the parser object. */
  datatype Config = Config(groups: Table, flags: Table, version: string, v: string, help: string, h: bool)
  {
    predicate Known(t: string) {
      t in groups || t in flags
    }

    /** What every sequence of registrations keeps. */
    ghost predicate WellKeyed() {
      forall k :: Known(k) ==> Acceptable(k)
    }

    /** Group ids are printed registration numbers. */
    ghost predicate NumberedIds() {
      && (forall k :: k in groups ==> Decimal.IsNumeral(groups[k].group))
      && (forall k :: k in flags ==> Decimal.IsNumeral(flags[k].group))
    }

    ghost predicate IsInfo(a: ArgInfo) {
      (exists k :: k in groups && groups[k] == a) || (exists k :: k in flags && flags[k] == a)
    }

    /** Different registrations use different identifiers. */
    ghost predicate DistinctIdens() {
      forall a, b :: IsInfo(a) && IsInfo(b) && a.iden == b.iden ==> a.group == b.group
    }
  }
}
