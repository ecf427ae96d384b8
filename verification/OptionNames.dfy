/**
 What each option does, by the name it has on the command line (src/observer/ob_command_line_parser.cpp).
 */
module OptionNames {

  import opened OptionParser

  /** The loop goes on behind the next `n` arguments with these options. */
  ghost predicate GoesOn(levels: Levels, argv: seq<string>, i: nat, n: nat, s: State, t: State) {
    Loop(levels, argv, i, s) == Loop(levels, argv, i + n, t)
  }

  function WithValues(s: State, x: Values): State {
    s.(opts := s.opts.(values := x))
  }

  function WithSwitches(s: State, x: Switches): State {
    s.(opts := s.opts.(switches := x))
  }

  /** The table of long options, entry by entry. */
  lemma DirectoryTable()
    ensures |LONG| == 17
    ensures LONG[5] == LongOption("base-dir", true, BaseDir)
    ensures LONG[6] == LongOption("data-dir", true, DataDir)
    ensures LONG[7] == LongOption("redo-dir", true, RedoDir)
  {
  }

  lemma ValueTable()
    ensures |LONG| == 17
    ensures LONG[1] == LongOption("variable", true, Variable)
    ensures LONG[2] == LongOption("port", true, Port)
    ensures LONG[8] == LongOption("log-level", true, LogLevel)
    ensures LONG[9] == LongOption("parameter", true, Parameter)
    ensures LONG[10] == LongOption("role", true, Role)
  {
  }

  lemma SwitchTable()
    ensures |LONG| == 17
    ensures LONG[0] == LongOption("initialize", false, Initialize)
    ensures LONG[3] == LongOption("nodaemon", false, NoDaemon)
    ensures LONG[4] == LongOption("use-ipv6", false, UseIpv6)
    ensures LONG[11] == LongOption("embedded", false, Embedded)
  {
  }

  lemma ServiceTable()
    ensures |LONG| == 17
    ensures LONG[12] == LongOption("install-service", false, InstallService)
    ensures LONG[13] == LongOption("remove-service", false, RemoveService)
    ensures LONG[14] == LongOption("service", false, Service)
  {
  }

  lemma RequestTable()
    ensures |LONG| == 17
    ensures LONG[15] == LongOption("version", false, Version)
    ensures LONG[16] == LongOption("help", false, Help)
  {
  }

  // ---------------------------------------------------------------- one argument

  /** `--name=value`: the entry of that name handles the value. */
  lemma Joined(levels: Levels, argv: seq<string>, i: nat, s: State, k: nat, v: string)
    requires i < |argv| && k < |LONG| && LONG[k].hasArg && argv[i] == "--" + LONG[k].name + "=" + v
    ensures var (ret, t) := Handle(levels, s, LONG[k].opt, Text(v));
            if ret == Success then GoesOn(levels, argv, i, 1, s, t) else Loop(levels, argv, i, s) == Stop(ret, t, i + 1)
  {
    hide LONG, Scan, Handle;
    assert Spell(Setting(k, v), LongJoined) == [argv[i]];
    SpellingFound(argv, i, Setting(k, v), LongJoined);
  }

  /** `--name value`. */
  lemma Separate(levels: Levels, argv: seq<string>, i: nat, s: State, k: nat)
    requires i + 1 < |argv| && k < |LONG| && LONG[k].hasArg && argv[i] == "--" + LONG[k].name
    ensures var (ret, t) := Handle(levels, s, LONG[k].opt, Text(argv[i + 1]));
            if ret == Success then GoesOn(levels, argv, i, 2, s, t) else Loop(levels, argv, i, s) == Stop(ret, t, i + 2)
  {
    hide LONG, Scan, Handle;
    var v := argv[i + 1];
    assert Spell(Setting(k, v), LongSeparate) == [argv[i], v];
    SpellingFound(argv, i, Setting(k, v), LongSeparate);
  }

  /** `--name` of a switch. */
  lemma Bare(levels: Levels, argv: seq<string>, i: nat, s: State, k: nat)
    requires i < |argv| && k < |LONG| && !LONG[k].hasArg && IsSwitch(LONG[k].opt) && argv[i] == "--" + LONG[k].name
    ensures GoesOn(levels, argv, i, 1, s, Handle(levels, s, LONG[k].opt, Null).1)
  {
    hide LONG, Scan, TurnOn;
    assert Spell(Setting(k, ""), LongJoined) == [argv[i]];
    SpellingFound(argv, i, Setting(k, ""), LongJoined);
  }

  /** The three directories go into their own fields, as given. */
  lemma DirectoryNames(levels: Levels, argv: seq<string>, i: nat, s: State, v: string)
    requires i < |argv|
    ensures argv[i] == "--" + "base-dir" + "=" + v ==>
              GoesOn(levels, argv, i, 1, s, WithValues(s, s.opts.values.(baseDir := v)))
    ensures argv[i] == "--" + "data-dir" + "=" + v ==>
              GoesOn(levels, argv, i, 1, s, WithValues(s, s.opts.values.(dataDir := v)))
    ensures argv[i] == "--" + "redo-dir" + "=" + v ==>
              GoesOn(levels, argv, i, 1, s, WithValues(s, s.opts.values.(redoDir := v)))
  {
    hide Loop, LONG;
    DirectoryTable();
    if argv[i] == "--" + "base-dir" + "=" + v { Joined(levels, argv, i, s, 5, v); }
    if argv[i] == "--" + "data-dir" + "=" + v { Joined(levels, argv, i, s, 6, v); }
    if argv[i] == "--" + "redo-dir" + "=" + v { Joined(levels, argv, i, s, 7, v); }
  }

  lemma SeparateDirectoryNames(levels: Levels, argv: seq<string>, i: nat, s: State)
    requires i + 1 < |argv|
    ensures argv[i] == "--" + "base-dir" ==>
              GoesOn(levels, argv, i, 2, s, WithValues(s, s.opts.values.(baseDir := argv[i + 1])))
    ensures argv[i] == "--" + "data-dir" ==>
              GoesOn(levels, argv, i, 2, s, WithValues(s, s.opts.values.(dataDir := argv[i + 1])))
    ensures argv[i] == "--" + "redo-dir" ==>
              GoesOn(levels, argv, i, 2, s, WithValues(s, s.opts.values.(redoDir := argv[i + 1])))
  {
    hide Loop, LONG;
    DirectoryTable();
    if argv[i] == "--" + "base-dir" { Separate(levels, argv, i, s, 5); }
    if argv[i] == "--" + "data-dir" { Separate(levels, argv, i, s, 6); }
    if argv[i] == "--" + "redo-dir" { Separate(levels, argv, i, s, 7); }
  }

  /** A port in decimal, by its name or by the letter. */
  lemma PortNames(levels: Levels, argv: seq<string>, i: nat, s: State, n: nat)
    requires i < |argv| && (argv[i] == "--" + "port" + "=" + Decimal(n) || argv[i] == "-" + "P" + Decimal(n))
    ensures if 0 < n <= 65535 then GoesOn(levels, argv, i, 1, s, WithValues(s, s.opts.values.(port := n)))
            else Loop(levels, argv, i, s) == Stop(InvalidArgument, s, i + 1)
  {
    hide Loop, LONG, Decimal, HandlePort;
    ValueTable();
    PortRoundTrip(s.opts.values, n);
    assert WithValues(s, s.opts.values) == s;
    if argv[i] == "--" + "port" + "=" + Decimal(n) {
      Joined(levels, argv, i, s, 2, Decimal(n));
    } else {
      PortLetter(levels, argv, i, s, Decimal(n));
    }
  }

  lemma PortLetter(levels: Levels, argv: seq<string>, i: nat, s: State, v: string)
    requires i < |argv| && v != "" && argv[i] == "-" + "P" + v
    ensures var (ret, t) := Handle(levels, s, Port, Text(v));
            if ret == Success then GoesOn(levels, argv, i, 1, s, t) else Loop(levels, argv, i, s) == Stop(ret, t, i + 1)
  {
    hide LONG, Scan, Handle;
    ShortScan(argv, i, Port, v);
  }

  /** A role is taken if it is one of the two, in whatever case. */
  lemma RoleName(levels: Levels, argv: seq<string>, i: nat, s: State, v: string)
    requires i < |argv| && argv[i] == "--" + "role" + "=" + v
    ensures if SameIgnoringCase(v, "PRIMARY") || SameIgnoringCase(v, "STANDBY")
            then GoesOn(levels, argv, i, 1, s, WithValues(s, s.opts.values.(role := v)))
            else Loop(levels, argv, i, s) == Stop(NotSupported, s, i + 1)
  {
    hide Loop, LONG, SameIgnoringCase;
    ValueTable();
    Joined(levels, argv, i, s, 10, v);
    assert WithValues(s, s.opts.values) == s;
  }

  /** A log level the logger does not know falls back on the default. */
  lemma LogLevelName(levels: Levels, argv: seq<string>, i: nat, s: State, v: string)
    requires i < |argv| && argv[i] == "--" + "log-level" + "=" + v
    ensures GoesOn(levels, argv, i, 1, s, WithValues(s, s.opts.values.(logLevel :=
              if v in levels.known then levels.known[v] else levels.default)))
  {
    hide Loop, LONG;
    ValueTable();
    Joined(levels, argv, i, s, 8, v);
  }

  /** `key=value`, cut at the first equals sign. */
  lemma PairRead(key: string, value: string)
    requires key != "" && '=' !in key && key[0] != '-'
    ensures KeyValueOk(Text(key + "=" + value)) && KeyValue(Text(key + "=" + value)) == (key, value)
  {
    var text := key + "=" + value;
    assert text[|key|] == '=' && forall i :: 0 <= i < |key| ==> text[i] == key[i] && key[i] in key;
    assert IndexOf(text, '=') == |key|;
    assert text[..|key|] == key && text[|key| + 1..] == value;
    assert text[0] != '-';
  }

  /** Parameters and variables go to the end of their own lists. */
  lemma PairNames(levels: Levels, argv: seq<string>, i: nat, s: State, key: string, value: string)
    requires i < |argv| && key != "" && '=' !in key && key[0] != '-'
    ensures argv[i] == "--" + "parameter" + "=" + (key + "=" + value) ==>
              GoesOn(levels, argv, i, 1, s, WithValues(s, s.opts.values.(parameters := s.opts.values.parameters + [(key, value)])))
    ensures argv[i] == "--" + "variable" + "=" + (key + "=" + value) ==>
              GoesOn(levels, argv, i, 1, s, WithValues(s, s.opts.values.(variables := s.opts.values.variables + [(key, value)])))
  {
    hide Loop, LONG, KeyValueOk, KeyValue;
    ValueTable();
    PairRead(key, value);
    var v := key + "=" + value;
    if argv[i] == "--" + "parameter" + "=" + v { Joined(levels, argv, i, s, 9, v); }
    if argv[i] == "--" + "variable" + "=" + v { Joined(levels, argv, i, s, 1, v); }
  }

  /** A pair without a key, without an equals sign or with a dash in front is refused. */
  lemma PairRefused(levels: Levels, argv: seq<string>, i: nat, s: State, v: string)
    requires i < |argv| && (argv[i] == "--" + "parameter" + "=" + v || argv[i] == "--" + "variable" + "=" + v)
    requires v == "" || v[0] == '-' || v[0] == '=' || '=' !in v
    ensures Loop(levels, argv, i, s) == Stop(InvalidArgument, s, i + 1)
  {
    hide Loop, LONG;
    ValueTable();
    NoPair(v);
    assert WithValues(s, s.opts.values) == s;
    if argv[i] == "--" + "parameter" + "=" + v {
      Joined(levels, argv, i, s, 9, v);
    } else {
      Joined(levels, argv, i, s, 1, v);
    }
  }

  lemma NoPair(v: string)
    requires v == "" || v[0] == '-' || v[0] == '=' || '=' !in v
    ensures !KeyValueOk(Text(v))
  {
    assert forall i :: 0 <= i < |v| ==> v[i] in v;
  }

  /** Each switch turns on its own field, and `--service` the absence of a daemon besides. */
  lemma SwitchNames(levels: Levels, argv: seq<string>, i: nat, s: State)
    requires i < |argv|
    ensures var on := s.opts.switches;
            && (argv[i] == "--" + "initialize" ==> GoesOn(levels, argv, i, 1, s, WithSwitches(s, on.(initialize := true))))
            && (argv[i] == "--" + "nodaemon" ==> GoesOn(levels, argv, i, 1, s, WithSwitches(s, on.(nodaemon := true))))
            && (argv[i] == "--" + "use-ipv6" ==> GoesOn(levels, argv, i, 1, s, WithSwitches(s, on.(useIpv6 := true))))
            && (argv[i] == "--" + "embedded" ==> GoesOn(levels, argv, i, 1, s, WithSwitches(s, on.(embedded := true))))
  {
    hide Loop, LONG;
    SwitchTable();
    if argv[i] == "--" + "initialize" { Bare(levels, argv, i, s, 0); }
    if argv[i] == "--" + "nodaemon" { Bare(levels, argv, i, s, 3); }
    if argv[i] == "--" + "use-ipv6" { Bare(levels, argv, i, s, 4); }
    if argv[i] == "--" + "embedded" { Bare(levels, argv, i, s, 11); }
  }

  lemma ServiceNames(levels: Levels, argv: seq<string>, i: nat, s: State)
    requires i < |argv|
    ensures var on := s.opts.switches;
            && (argv[i] == "--" + "install-service" ==>
                  GoesOn(levels, argv, i, 1, s, WithSwitches(s, on.(installService := true))))
            && (argv[i] == "--" + "remove-service" ==>
                  GoesOn(levels, argv, i, 1, s, WithSwitches(s, on.(removeService := true))))
            && (argv[i] == "--" + "service" ==>
                  GoesOn(levels, argv, i, 1, s, WithSwitches(s, on.(runAsService := true, nodaemon := true))))
  {
    hide Loop, LONG;
    ServiceTable();
    if argv[i] == "--" + "install-service" { Bare(levels, argv, i, s, 12); }
    if argv[i] == "--" + "remove-service" { Bare(levels, argv, i, s, 13); }
    if argv[i] == "--" + "service" { Bare(levels, argv, i, s, 14); }
  }

  /** The two requests, by name and by letter, and the letter of the switch that has one. */
  lemma RequestNames(levels: Levels, argv: seq<string>, i: nat, s: State)
    requires i < |argv|
    ensures argv[i] == "--" + "version" || argv[i] == "-" + "V" + "" ==> GoesOn(levels, argv, i, 1, s, s.(version := true))
    ensures argv[i] == "--" + "help" || argv[i] == "-" + "h" + "" ==> GoesOn(levels, argv, i, 1, s, s.(help := true))
    ensures argv[i] == "-" + "6" + "" ==>
              GoesOn(levels, argv, i, 1, s, WithSwitches(s, s.opts.switches.(useIpv6 := true)))
  {
    hide Loop, LONG;
    RequestTable();
    assert s.opts.(switches := s.opts.switches) == s.opts;
    if argv[i] == "--" + "version" { Bare(levels, argv, i, s, 15); }
    if argv[i] == "--" + "help" { Bare(levels, argv, i, s, 16); }
    if argv[i] == "-" + "V" + "" { LetterStep(levels, argv, i, s, Version); }
    if argv[i] == "-" + "h" + "" { LetterStep(levels, argv, i, s, Help); }
    if argv[i] == "-" + "6" + "" { LetterStep(levels, argv, i, s, UseIpv6); }
  }

  lemma LetterStep(levels: Levels, argv: seq<string>, i: nat, s: State, opt: Opt)
    requires i < |argv| && opt != Port && IsSwitch(opt) && Letter(opt) != "" && argv[i] == "-" + Letter(opt) + ""
    ensures GoesOn(levels, argv, i, 1, s, Handle(levels, s, opt, Null).1)
  {
    hide LONG, Scan, TurnOn;
    ShortScan(argv, i, opt, "");
  }

  // ---------------------------------------------------------------- a whole command line

  lemma DirectoryEntries(k: nat)
    requires k < |LONG|
    ensures LONG[k].name == "base-dir" <==> LONG[k].opt == BaseDir
    ensures LONG[k].name == "data-dir" <==> LONG[k].opt == DataDir
    ensures LONG[k].name == "redo-dir" <==> LONG[k].opt == RedoDir
  {
    LongIsGood();
    NamedEntries();
    hide LONG;
  }

  lemma NamedEntries()
    ensures |LONG| > 7 && LONG[5].name == "base-dir" && LONG[6].name == "data-dir" && LONG[7].name == "redo-dir"
    ensures forall k :: 0 <= k < |LONG| ==> (LONG[k].opt == BaseDir <==> k == 5)
    ensures forall k :: 0 <= k < |LONG| ==> (LONG[k].opt == DataDir <==> k == 6)
    ensures forall k :: 0 <= k < |LONG| ==> (LONG[k].opt == RedoDir <==> k == 7)
  {
  }

  /** Setting `i` is the last one of that name. */
  ghost predicate LastNamed(xs: seq<Setting>, i: nat, name: string)
    requires forall j :: 0 <= j < |xs| ==> SettingOk(xs[j])
  {
    && i < |xs| && SettingOk(xs[i]) && LONG[xs[i].k].name == name
    && forall j :: i < j < |xs| ==> SettingOk(xs[j]) && LONG[xs[j].k].name != name
  }

  /** On every command line that spells settings, in whatever styles, and is accepted: each directory is the one given
      last under its name. */
  lemma DirectoriesByName(levels: Levels, program: string, s: State, xs: seq<Setting>, styles: seq<Style>, i: nat)
    requires AllAllowed(xs, styles) && forall j :: 0 <= j < |xs| ==> SettingOk(xs[j])
    requires var argv := [program] + SpellAll(xs, styles); Loop(levels, argv, 1, s).ret == Success
    ensures var o := Loop(levels, [program] + SpellAll(xs, styles), 1, s).state.opts.values;
            && (LastNamed(xs, i, "base-dir") ==> o.baseDir == xs[i].text)
            && (LastNamed(xs, i, "data-dir") ==> o.dataDir == xs[i].text)
            && (LastNamed(xs, i, "redo-dir") ==> o.redoDir == xs[i].text)
  {
    hide LONG, Loop, Apply, SpellAll;
    var argv := [program] + SpellAll(xs, styles);
    assert argv[1..] == SpellAll(xs, styles);
    LoopApplies(levels, argv, 1, s, xs, styles);
    forall j | 0 <= j < |xs|
      ensures LONG[xs[j].k].name == "base-dir" <==> LONG[xs[j].k].opt == BaseDir
      ensures LONG[xs[j].k].name == "data-dir" <==> LONG[xs[j].k].opt == DataDir
      ensures LONG[xs[j].k].name == "redo-dir" <==> LONG[xs[j].k].opt == RedoDir
    {
      DirectoryEntries(xs[j].k);
    }
    if LastNamed(xs, i, "base-dir") { LastGivenCounts(levels, xs, s, BaseDir, i); }
    if LastNamed(xs, i, "data-dir") { LastGivenCounts(levels, xs, s, DataDir, i); }
    if LastNamed(xs, i, "redo-dir") { LastGivenCounts(levels, xs, s, RedoDir, i); }
  }
}
