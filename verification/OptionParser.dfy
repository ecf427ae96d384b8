/**
 The hand-written option scanner and the loop around it (src/observer/ob_command_line_parser.cpp).
 */
module OptionParser {

  datatype Opt =
    | Initialize | Variable | Port | NoDaemon | UseIpv6 | BaseDir | DataDir | RedoDir | LogLevel | Parameter
    | Role | Embedded | InstallService | RemoveService | Service | Version | Help
    | Colon     // "-:", which the search in the short option string finds
    | Question  // '?'

  datatype LongOption = LongOption(name: string, hasArg: bool, opt: Opt)

  const LONG: seq<LongOption> := [
    LongOption("initialize", false, Initialize),
    LongOption("variable", true, Variable),
    LongOption("port", true, Port),
    LongOption("nodaemon", false, NoDaemon),
    LongOption("use-ipv6", false, UseIpv6),
    LongOption("base-dir", true, BaseDir),
    LongOption("data-dir", true, DataDir),
    LongOption("redo-dir", true, RedoDir),
    LongOption("log-level", true, LogLevel),
    LongOption("parameter", true, Parameter),
    LongOption("role", true, Role),
    LongOption("embedded", false, Embedded),
    LongOption("install-service", false, InstallService),
    LongOption("remove-service", false, RemoveService),
    LongOption("service", false, Service),
    LongOption("version", false, Version),
    LongOption("help", false, Help)
  ]

  /** optarg */
  datatype Value = Null | Text(text: string)

  /** `End` is the return value -1. Only an option that is found moves the index. */
  datatype Token = End | Bad | Found(opt: Opt, value: Value, next: nat)

  // ---------------------------------------------------------------- scanning one argument

  /** The entries of the table from `k` on, against an argument without its two dashes. */
  function LongToken(table: seq<LongOption>, argv: seq<string>, i: nat, body: string, k: nat): Token
    requires i < |argv| && k <= |table|
    decreases |table| - k
  {
    if k == |table| then Bad
    else
      var o := table[k];
      if o.name <= body && |body| > |o.name| && body[|o.name|] == '=' && o.hasArg then
        Found(o.opt, Text(body[|o.name| + 1..]), i + 1)
      else if body == o.name && o.hasArg && i + 1 < |argv| then Found(o.opt, Text(argv[i + 1]), i + 2)
      else if body == o.name && !o.hasArg then Found(o.opt, Null, i + 1)
      else LongToken(table, argv, i, body, k + 1)
  }

  /** strchr in "P:Vh6" */
  function ShortOpt(c: char): Opt {
    match c
    case 'P' => Port
    case 'V' => Version
    case 'h' => Help
    case '6' => UseIpv6
    case ':' => Colon
    case _ => Question
  }

  /** Of a cluster such as `-Vh` only the first letter is seen. */
  function ShortToken(argv: seq<string>, i: nat): Token
    requires i < |argv| && |argv[i]| >= 2
  {
    var opt := ShortOpt(argv[i][1]);
    if opt == Question then Bad
    else if opt != Port then Found(opt, Null, i + 1)
    else if |argv[i]| > 2 then Found(opt, Text(argv[i][2..]), i + 1)
    else if i + 1 < |argv| then Found(opt, Text(argv[i + 1]), i + 2)
    else Bad
  }

  function Scan(argv: seq<string>, i: nat): Token {
    if i >= |argv| || argv[i] == "" || argv[i][0] != '-' then End
    else if |argv[i]| >= 2 && argv[i][1] == '-' then LongToken(LONG, argv, i, argv[i][2..], 0)
    else if |argv[i]| == 1 then End
    else ShortToken(argv, i)
  }

  lemma LongAdvances(table: seq<LongOption>, argv: seq<string>, i: nat, body: string, k: nat)
    requires i < |argv| && k <= |table|
    ensures var t := LongToken(table, argv, i, body, k); t.Found? ==> i < t.next <= |argv|
    ensures LongToken(table, argv, i, body, k) != End
    decreases |table| - k
  {
  }

  /** Whatever the arguments, an option that is found moves the index on and stays inside them. */
  lemma ScanAdvances(argv: seq<string>, i: nat)
    ensures Scan(argv, i).Found? ==> i < Scan(argv, i).next <= |argv|
  {
    if i < |argv| && |argv[i]| >= 2 && argv[i][1] == '-' {
      LongAdvances(LONG, argv, i, argv[i][2..], 0);
    }
  }

  // ---------------------------------------------------------------- one option

  datatype Ret = Success | InvalidArgument | NotSupported

  datatype Values = Values(
    port: int, logLevel: int, baseDir: string, dataDir: string, redoDir: string,
    parameters: seq<(string, string)>, variables: seq<(string, string)>, role: string)

  datatype Switches = Switches(
    nodaemon: bool, useIpv6: bool, embedded: bool, initialize: bool,
    installService: bool, removeService: bool, runAsService: bool)

  datatype Options = Options(values: Values, switches: Switches)

  /** The options and the two requests the parser remembers. */
  datatype State = State(opts: Options, help: bool, version: bool)

  /** What the logger makes of a level name, and the level it falls back on. */
  datatype Levels = Levels(known: map<string, int>, default: int)

  function TextOf(v: Value): string {
    if v.Null? then "" else v.text
  }

  function IndexOf(s: string, c: char): nat
    ensures IndexOf(s, c) <= |s|
    ensures forall i :: 0 <= i < IndexOf(s, c) ==> s[i] != c
    ensures IndexOf(s, c) < |s| ==> s[IndexOf(s, c)] == c
  {
    if s == "" || s[0] == c then 0 else 1 + IndexOf(s[1..], c)
  }

  predicate KeyValueOk(v: Value) {
    && v.Text?
    && !("-" <= v.text)
    && 0 < IndexOf(v.text, '=') < |v.text|
  }

  function KeyValue(v: Value): (string, string)
    requires KeyValueOk(v)
  {
    var k := IndexOf(v.text, '=');
    (v.text[..k], v.text[k + 1..])
  }

  predicate IsSpace(c: char) {
    c == ' ' || '\t' <= c <= '\r'
  }

  predicate IsDigit(c: char) {
    '0' <= c <= '9'
  }

  function SkipSpace(s: string, i: nat): nat
    requires i <= |s|
    ensures i <= SkipSpace(s, i) <= |s|
    decreases |s| - i
  {
    if i < |s| && IsSpace(s[i]) then SkipSpace(s, i + 1) else i
  }

  function SkipDigits(s: string, i: nat): nat
    requires i <= |s|
    ensures i <= SkipDigits(s, i) <= |s|
    ensures forall j :: i <= j < SkipDigits(s, i) ==> IsDigit(s[j])
    decreases |s| - i
  {
    if i < |s| && IsDigit(s[i]) then SkipDigits(s, i + 1) else i
  }

  function Number(digits: string): nat
    requires forall i :: 0 <= i < |digits| ==> IsDigit(digits[i])
  {
    if digits == "" then 0
    else
      var last := digits[|digits| - 1];
      assert IsDigit(last);
      Number(digits[..|digits| - 1]) * 10 + (last as int - '0' as int)
  }

  /** strtol in base ten: the number and the index of the first character that is not part of it. The limits of
      `long` lie outside the range of ports on either side, so saturation makes no difference to the caller. */
  function StrToL(s: string): (int, nat)
    ensures StrToL(s).1 <= |s|
  {
    var start := SkipSpace(s, 0);
    var signed := start < |s| && (s[start] == '-' || s[start] == '+');
    var from := if signed then start + 1 else start;
    var to := SkipDigits(s, from);
    if from == to then (0, 0)
    else
      var n: int := Number(s[from..to]);
      (if signed && s[start] == '-' then -n else n, to)
  }

  /** A number followed by something else is an error that stores the port all the same. */
  function HandlePort(x: Values, text: string): (Ret, Values) {
    var (port, end) := StrToL(text);
    var inRange := 0 < port <= 65535;
    (if text == "" || end != |text| || !inRange then InvalidArgument else Success,
     if inRange then x.(port := port) else x)
  }

  function Upper(c: char): char {
    if 'a' <= c <= 'z' then (c as int - 32) as char else c
  }

  predicate SameIgnoringCase(a: string, b: string) {
    |a| == |b| && forall i :: 0 <= i < |a| ==> Upper(a[i]) == Upper(b[i])
  }

  function HandleValue(levels: Levels, x: Values, opt: Opt, v: Value): (Ret, Values) {
    match opt
    case Variable =>
      if !KeyValueOk(v) then (InvalidArgument, x) else (Success, x.(variables := x.variables + [KeyValue(v)]))
    case Port => if v.Null? then (InvalidArgument, x) else HandlePort(x, v.text)
    case BaseDir => (Success, x.(baseDir := TextOf(v)))
    case DataDir => (Success, x.(dataDir := TextOf(v)))
    case RedoDir => (Success, x.(redoDir := TextOf(v)))
    case LogLevel =>
      if v.Null? then (InvalidArgument, x)
      else (Success, x.(logLevel := if v.text in levels.known then levels.known[v.text] else levels.default))
    case Parameter =>
      if !KeyValueOk(v) then (InvalidArgument, x) else (Success, x.(parameters := x.parameters + [KeyValue(v)]))
    case Role =>
      if v.Null? then (InvalidArgument, x)
      else if !SameIgnoringCase(v.text, "PRIMARY") && !SameIgnoringCase(v.text, "STANDBY") then (NotSupported, x)
      else (Success, x.(role := v.text))
    case _ => (InvalidArgument, x)
  }

  predicate IsSwitch(opt: Opt) {
    || opt.Initialize? || opt.NoDaemon? || opt.UseIpv6? || opt.Embedded? || opt.InstallService?
    || opt.RemoveService? || opt.Service? || opt.Version? || opt.Help?
  }

  function TurnOn(x: Switches, opt: Opt): Switches {
    match opt
    case Initialize => x.(initialize := true)
    case NoDaemon => x.(nodaemon := true)
    case UseIpv6 => x.(useIpv6 := true)
    case Embedded => x.(embedded := true)
    case InstallService => x.(installService := true)
    case RemoveService => x.(removeService := true)
    case Service => x.(runAsService := true, nodaemon := true)
    case _ => x
  }

  /** handle_option */
  function Handle(levels: Levels, s: State, opt: Opt, v: Value): (Ret, State) {
    if IsSwitch(opt) then
      (Success, State(s.opts.(switches := TurnOn(s.opts.switches, opt)), s.help || opt == Help, s.version || opt == Version))
    else
      var (ret, x) := HandleValue(levels, s.opts.values, opt, v);
      (ret, s.(opts := s.opts.(values := x)))
  }

  // ---------------------------------------------------------------- the loop

  /** Where the loop ends up: the code, the state and the index of the next argument. */
  datatype Stop = Stop(ret: Ret, state: State, index: nat)

  function Loop(levels: Levels, argv: seq<string>, i: nat, s: State): Stop
    decreases |argv| - i
  {
    ScanAdvances(argv, i);
    match Scan(argv, i)
    case End => Stop(Success, s, i)
    case Bad => Stop(InvalidArgument, s, i)
    case Found(opt, v, next) =>
      var (ret, t) := Handle(levels, s, opt, v);
      if ret != Success then Stop(ret, t, next) else Loop(levels, argv, next, t)
  }

  /** What parse_args comes to, before it looks at the directories. */
  datatype Outcome =
    | Failed(ret: Ret)
    | UsageExit          // an argument that is no option is left
    | HelpExit
    | VersionExit
    | Parsed(opts: Options)

  function Conclude(argv: seq<string>, stop: Stop): Outcome {
    if stop.ret != Success then Failed(stop.ret)
    else if stop.index < |argv| then UsageExit
    else if stop.state.help then HelpExit
    else if stop.state.version then VersionExit
    else if stop.state.opts.values.baseDir == "" then
      Parsed(stop.state.opts.(values := stop.state.opts.values.(baseDir := ".")))
    else Parsed(stop.state.opts)
  }

  class Parser {
    const levels: Levels
    var optind: nat
    var optarg: Value
    var state: State

    constructor (levels: Levels, opts: Options)
      ensures this.levels == levels && optind == 1 && state.opts == opts
    {
      this.levels := levels;
      optind, optarg, state := 1, Null, State(opts, false, false);
    }

    /** Returns -1 (`None`), '?' (`Question`) or the option; the index moves only for the last. */
    method GetoptLong(argv: seq<string>) returns (end: bool, c: Opt)
      modifies this`optind, this`optarg
      ensures var t := Scan(argv, old(optind));
              && end == t.End?
              && (t.Bad? ==> c == Question && optind == old(optind) && optarg == Null)
              && (t.Found? ==> c == t.opt && optind == t.next && optarg == t.value && c != Question)
              && (t.End? ==> optind == old(optind))
    {
      hide LONG;
      optarg := Null;
      end, c := true, Question;
      if optind >= |argv| || argv[optind] == "" || argv[optind][0] != '-' {
        return;
      }
      var arg := argv[optind];
      if |arg| >= 2 && arg[1] == '-' {
        end := false;
        var body := arg[2..];
        ghost var i := optind;
        TableOpts();
        var k := 0;
        while k < |LONG|
          invariant k <= |LONG| && optind == i && optarg == Null
          invariant LongToken(LONG, argv, i, body, 0) == LongToken(LONG, argv, i, body, k)
        {
          var o := LONG[k];
          assert o.opt != Question;
          if o.name <= body {
            if |body| > |o.name| && body[|o.name|] == '=' {
              if o.hasArg {
                optarg := Text(body[|o.name| + 1..]);
                optind := optind + 1;
                c := o.opt;
                return;
              }
            } else if |body| == |o.name| {
              assert body == o.name;
              if o.hasArg && optind + 1 < |argv| {
                optarg := Text(argv[optind + 1]);
                optind := optind + 2;
                c := o.opt;
                return;
              } else if !o.hasArg {
                optind := optind + 1;
                c := o.opt;
                return;
              }
            }
          }
          k := k + 1;
        }
        return;
      }
      if |arg| == 1 {
        return;
      }
      end := false;
      var opt := ShortOpt(arg[1]);
      if opt == Question {
        return;
      }
      if opt == Port {
        if |arg| > 2 {
          optarg := Text(arg[2..]);
        } else if optind + 1 < |argv| {
          optarg := Text(argv[optind + 1]);
          optind := optind + 1;
        } else {
          return;
        }
      }
      optind := optind + 1;
      c := opt;
    }

    method HandleOption(opt: Opt) returns (ret: Ret)
      modifies this`state
      ensures (ret, state) == Handle(levels, old(state), opt, optarg)
    {
      ret := Success;
      var x, on := state.opts.values, state.opts.switches;
      match opt {
        case Initialize => on := on.(initialize := true);
        case Variable =>
          if KeyValueOk(optarg) {
            x := x.(variables := x.variables + [KeyValue(optarg)]);
          } else {
            ret := InvalidArgument;
          }
        case Port =>
          if optarg.Null? {
            ret := InvalidArgument;
          } else {
            var (port, end) := StrToL(optarg.text);
            if optarg.text == "" || end != |optarg.text| {
              ret := InvalidArgument;
            }
            if port <= 0 || port > 65535 {
              ret := InvalidArgument;
            } else {
              x := x.(port := port);
            }
          }
        case NoDaemon => on := on.(nodaemon := true);
        case UseIpv6 => on := on.(useIpv6 := true);
        case BaseDir => x := x.(baseDir := TextOf(optarg));
        case DataDir => x := x.(dataDir := TextOf(optarg));
        case RedoDir => x := x.(redoDir := TextOf(optarg));
        case LogLevel =>
          if optarg.Null? {
            ret := InvalidArgument;
          } else if optarg.text in levels.known {
            x := x.(logLevel := levels.known[optarg.text]);
          } else {
            x := x.(logLevel := levels.default);
          }
        case Parameter =>
          if KeyValueOk(optarg) {
            x := x.(parameters := x.parameters + [KeyValue(optarg)]);
          } else {
            ret := InvalidArgument;
          }
        case Role =>
          if optarg.Null? {
            ret := InvalidArgument;
          } else if !SameIgnoringCase(optarg.text, "PRIMARY") && !SameIgnoringCase(optarg.text, "STANDBY") {
            ret := NotSupported;
          } else {
            x := x.(role := optarg.text);
          }
        case Embedded => on := on.(embedded := true);
        case InstallService => on := on.(installService := true);
        case RemoveService => on := on.(removeService := true);
        case Service => on := on.(runAsService := true, nodaemon := true);
        case Version => state := state.(version := true);
        case Help => state := state.(help := true);
        case _ => ret := InvalidArgument;
      }
      state := state.(opts := Options(x, on));
    }

    /** The loop ends on every argument vector. Of what is then to be done, an error comes first, an argument that is
        left over second, help third and the version last; a base directory that is not given is the current one. */
    method ParseArgs(argv: seq<string>) returns (outcome: Outcome)
      modifies this
      ensures var stop := Loop(levels, argv, old(optind), State(old(state).opts, false, false));
              && outcome == Conclude(argv, stop) && optind == stop.index
              && (outcome.Failed? <==> stop.ret != Success) && (outcome.Failed? ==> outcome.ret == stop.ret)
              && (outcome.UsageExit? <==> stop.ret == Success && stop.index < |argv|)
              && (outcome.HelpExit? <==> stop.ret == Success && stop.index >= |argv| && stop.state.help)
              && (outcome.VersionExit? <==> stop.ret == Success && stop.index >= |argv| && !stop.state.help && stop.state.version)
              && (outcome.Parsed? ==>
                    outcome.opts == stop.state.opts.(values := stop.state.opts.values.(baseDir :=
                      if stop.state.opts.values.baseDir == "" then "." else stop.state.opts.values.baseDir)))
    {
      hide LONG, Scan;
      state := State(state.opts, false, false);
      ghost var start, first := optind, state;
      var ret := Success;
      var more := true;
      while ret == Success && more
        invariant more && ret == Success ==> Loop(levels, argv, start, first) == Loop(levels, argv, optind, state)
        invariant !(more && ret == Success) ==> Loop(levels, argv, start, first) == Stop(ret, state, optind)
        decreases more, ret == Success, |argv| - optind
      {
        ScanAdvances(argv, optind);
        ghost var i := optind;
        var end, c := GetoptLong(argv);
        if end {
          more := false;
        } else {
          ret := HandleOption(c);
        }
      }
      if ret != Success {
        outcome := Failed(ret);
      } else if optind < |argv| {
        outcome := UsageExit;
      } else if state.help {
        outcome := HelpExit;
      } else if state.version {
        outcome := VersionExit;
      } else {
        var x := state.opts.values;
        if x.baseDir == "" {
          x := x.(baseDir := ".");
        }
        outcome := Parsed(state.opts.(values := x));
      }
    }
  }

  lemma TableOpts()
    ensures forall k :: 0 <= k < |LONG| ==> LONG[k].opt != Question
  {
  }

  // ---------------------------------------------------------------- spellings

  /** The names tell the entries apart, and none holds an equals sign. */
  ghost predicate GoodTable(table: seq<LongOption>) {
    && (forall j, k :: 0 <= j < k < |table| ==> table[j].name != table[k].name)
    && (forall k :: 0 <= k < |table| ==> '=' !in table[k].name)
  }

  /** Length and first letter tell the names apart. */
  function Print(name: string): (int, char) {
    (|name|, if name == "" then ' ' else name[0])
  }

  const PRINTS: seq<(int, char)> := [
    (10, 'i'), (8, 'v'), (4, 'p'), (8, 'n'), (8, 'u'), (8, 'b'), (8, 'd'), (8, 'r'), (9, 'l'), (9, 'p'),
    (4, 'r'), (8, 'e'), (15, 'i'), (14, 'r'), (7, 's'), (7, 'v'), (4, 'h')
  ]

  lemma PrintsDiffer()
    ensures forall j, k :: 0 <= j < k < |PRINTS| ==> PRINTS[j] != PRINTS[k]
  {
  }

  lemma PrintsFit()
    ensures |PRINTS| == |LONG|
    ensures forall k :: 0 <= k < |LONG| ==> Print(LONG[k].name) == PRINTS[k]
  {
  }

  lemma FirstNamesHaveNoEquals(k: nat)
    requires k < 6
    ensures '=' !in LONG[k].name
  {
  }

  lemma MiddleNamesHaveNoEquals(k: nat)
    requires 6 <= k < 12
    ensures '=' !in LONG[k].name
  {
  }

  lemma LongestNameHasNoEquals()
    ensures '=' !in LONG[12].name
  {
  }

  lemma SecondLongestNameHasNoEquals()
    ensures '=' !in LONG[13].name
  {
  }

  lemma LastNamesHaveNoEquals(k: nat)
    requires 14 <= k < |LONG|
    ensures '=' !in LONG[k].name
  {
  }

  lemma NameHasNoEquals(k: nat)
    requires k < |LONG|
    ensures '=' !in LONG[k].name
  {
    hide LONG;
    if k < 6 {
      FirstNamesHaveNoEquals(k);
    } else if k < 12 {
      MiddleNamesHaveNoEquals(k);
    } else if k < 14 {
      LongestNameHasNoEquals();
      SecondLongestNameHasNoEquals();
    } else {
      LastNamesHaveNoEquals(k);
    }
  }

  lemma LongIsGood()
    ensures GoodTable(LONG)
  {
    hide LONG, PRINTS, Print;
    PrintsFit();
    PrintsDiffer();
    forall k | 0 <= k < |LONG| ensures '=' !in LONG[k].name {
      NameHasNoEquals(k);
    }
    forall j, k | 0 <= j < k < |LONG| ensures LONG[j].name != LONG[k].name {
      assert Print(LONG[j].name) == PRINTS[j] != PRINTS[k] == Print(LONG[k].name);
    }
  }

  /** One thing the user wants set: an entry of the table and its value, if it takes one. */
  datatype Setting = Setting(k: nat, text: string)

  predicate SettingOk(x: Setting) {
    x.k < |LONG|
  }

  datatype Style = LongJoined | LongSeparate | ShortJoined | ShortSeparate

  function Letter(opt: Opt): string {
    match opt
    case Port => "P"
    case Version => "V"
    case Help => "h"
    case UseIpv6 => "6"
    case _ => ""
  }

  /** Short spellings exist for four options; a value cannot be joined to `-P` if it is empty. */
  predicate Allowed(x: Setting, style: Style)
    requires SettingOk(x)
  {
    match style
    case LongJoined => true
    case LongSeparate => true
    case ShortJoined => Letter(LONG[x.k].opt) != "" && (LONG[x.k].hasArg ==> x.text != "")
    case ShortSeparate => Letter(LONG[x.k].opt) != ""
  }

  function Spell(x: Setting, style: Style): seq<string>
    requires SettingOk(x) && Allowed(x, style)
  {
    var o := LONG[x.k];
    if !o.hasArg then
      [if style.LongJoined? || style.LongSeparate? then "--" + o.name else "-" + Letter(o.opt)]
    else
      match style
      case LongJoined => ["--" + o.name + "=" + x.text]
      case LongSeparate => ["--" + o.name, x.text]
      case ShortJoined => ["-" + Letter(o.opt) + x.text]
      case ShortSeparate => ["-" + Letter(o.opt), x.text]
  }

  function ValueOf(x: Setting): Value
    requires SettingOk(x)
  {
    if LONG[x.k].hasArg then Text(x.text) else Null
  }

  predicate AllAllowed(xs: seq<Setting>, styles: seq<Style>) {
    && |styles| == |xs|
    && forall i :: 0 <= i < |xs| ==> SettingOk(xs[i]) && Allowed(xs[i], styles[i])
  }

  function SpellAll(xs: seq<Setting>, styles: seq<Style>): seq<string>
    requires AllAllowed(xs, styles)
  {
    if xs == [] then [] else Spell(xs[0], styles[0]) + SpellAll(xs[1..], styles[1..])
  }

  /** The settings themselves, one after the other, up to the first that is refused. */
  function Apply(levels: Levels, xs: seq<Setting>, s: State): (Ret, State)
    requires forall i :: 0 <= i < |xs| ==> SettingOk(xs[i])
  {
    if xs == [] then (Success, s)
    else
      assert SettingOk(xs[0]);
      var (ret, t) := Handle(levels, s, LONG[xs[0].k].opt, ValueOf(xs[0]));
      if ret != Success then (ret, t) else Apply(levels, xs[1..], t)
  }

  /** A name with an equals sign behind it does not start two different entries. */
  lemma NoEquals(a: string, b: string, v: string)
    requires '=' !in a && '=' !in b && a + "=" <= b + "=" + v
    ensures a == b
  {
    var whole := b + "=" + v;
    assert (a + "=")[|a|] == whole[|a|] == '=' == whole[|b|];
    assert forall i :: 0 <= i < |a| ==> a[i] in a && a[i] == (a + "=")[i] == whole[i];
    assert forall i :: 0 <= i < |b| ==> b[i] in b && b[i] == whole[i];
    assert |a| == |b|;
  }

  lemma OtherNameMisses(a: string, b: string, v: string)
    requires '=' !in a && '=' !in b && a != b
    ensures var body := b + "=" + v;
            body != a && !(a <= body && |body| > |a| && body[|a|] == '=')
  {
    var body := b + "=" + v;
    assert body[|b|] == '=' && body[|b|] in body;
    assert a <= body && |body| > |a| && body[|a|] == '=' ==> a + "=" <= body;
    if a + "=" <= body {
      NoEquals(a, b, v);
    }
  }

  /** `--name=value` */
  lemma {:induction false} JoinedFound(table: seq<LongOption>, argv: seq<string>, i: nat, k: nat, v: string, j: nat)
    requires GoodTable(table) && i < |argv| && j <= k < |table| && table[k].hasArg
    ensures LongToken(table, argv, i, table[k].name + "=" + v, j) == Found(table[k].opt, Text(v), i + 1)
    decreases k - j
  {
    if j == k {
      var body := table[k].name + "=" + v;
      assert table[k].name <= body && body[|table[k].name|] == '=' && body[|table[k].name| + 1..] == v;
    } else {
      OtherNameMisses(table[j].name, table[k].name, v);
      JoinedFound(table, argv, i, k, v, j + 1);
    }
  }

  /** `--name`, with the value in the next argument if there is one to take. */
  lemma {:induction false} BareFound(table: seq<LongOption>, argv: seq<string>, i: nat, k: nat, j: nat)
    requires GoodTable(table) && i < |argv| && j <= k < |table| && (table[k].hasArg ==> i + 1 < |argv|)
    ensures LongToken(table, argv, i, table[k].name, j)
         == if table[k].hasArg then Found(table[k].opt, Text(argv[i + 1]), i + 2) else Found(table[k].opt, Null, i + 1)
    decreases k - j
  {
    var body := table[k].name;
    if j < k {
      assert |body| > |table[j].name| ==> body[|table[j].name|] in body;
      BareFound(table, argv, i, k, j + 1);
    } else {
      assert !(|body| > |table[j].name|);
    }
  }

  lemma LettersFit(k: nat)
    requires k < |LONG| && Letter(LONG[k].opt) != ""
    ensures LONG[k].hasArg <==> LONG[k].opt == Port
  {
  }

  lemma LetterReadBack(opt: Opt)
    requires Letter(opt) != ""
    ensures |Letter(opt)| == 1 && Letter(opt)[0] != '-' && ShortOpt(Letter(opt)[0]) == opt
  {
  }

  lemma LongScan(argv: seq<string>, i: nat, body: string)
    requires i < |argv| && argv[i] == "--" + body
    ensures Scan(argv, i) == LongToken(LONG, argv, i, body, 0)
  {
    assert argv[i][2..] == body;
  }

  lemma ShortScan(argv: seq<string>, i: nat, opt: Opt, rest: string)
    requires i < |argv| && Letter(opt) != "" && argv[i] == "-" + Letter(opt) + rest
    requires opt == Port && rest == "" ==> i + 1 < |argv|
    ensures Scan(argv, i) == if opt != Port then Found(opt, Null, i + 1)
                             else if rest != "" then Found(opt, Text(rest), i + 1)
                             else Found(opt, Text(argv[i + 1]), i + 2)
  {
    hide LONG;
    LetterReadBack(opt);
    assert argv[i][1] == Letter(opt)[0];
    assert argv[i][2..] == rest;
  }

  /** Whatever the spelling, the scanner reads back the option and its value and moves past the spelling. */
  lemma SpellingFound(argv: seq<string>, i: nat, x: Setting, style: Style)
    requires SettingOk(x) && Allowed(x, style) && i <= |argv| && Spell(x, style) <= argv[i..]
    ensures Scan(argv, i) == Found(LONG[x.k].opt, ValueOf(x), i + |Spell(x, style)|)
  {
    hide LONG, Scan, Letter;
    var o := LONG[x.k];
    var spelled := Spell(x, style);
    assert argv[i] == spelled[0];
    assert |spelled| == 2 ==> argv[i + 1] == spelled[1];
    LongIsGood();
    if style.LongJoined? && o.hasArg {
      assert argv[i] == "--" + (o.name + "=" + x.text);
      LongScan(argv, i, o.name + "=" + x.text);
      JoinedFound(LONG, argv, i, x.k, x.text, 0);
    } else if style.LongJoined? || style.LongSeparate? {
      LongScan(argv, i, o.name);
      BareFound(LONG, argv, i, x.k, 0);
    } else {
      LettersFit(x.k);
      var rest := if style.ShortJoined? && o.hasArg then x.text else "";
      assert argv[i] == "-" + Letter(o.opt) + rest;
      ShortScan(argv, i, o.opt, rest);
    }
  }

  /** Any mix of spellings of any list of settings does what the settings do one after the other, and an error
      stops the loop at the same setting with the same code. */
  lemma {:induction false} LoopApplies(levels: Levels, argv: seq<string>, i: nat, s: State,
                                       xs: seq<Setting>, styles: seq<Style>)
    requires AllAllowed(xs, styles) && i <= |argv| && argv[i..] == SpellAll(xs, styles)
    ensures var (ret, t) := Apply(levels, xs, s);
            var stop := Loop(levels, argv, i, s);
            stop.ret == ret && stop.state == t && (ret == Success ==> stop.index == |argv|)
    decreases |xs|
  {
    hide LONG, Scan, Spell, Handle;
    if xs == [] {
      ScanAtEnd(argv, i);
    } else {
      var spelled := Spell(xs[0], styles[0]);
      var rest := SpellAll(xs[1..], styles[1..]);
      assert argv[i..] == spelled + rest;
      SpellingFound(argv, i, xs[0], styles[0]);
      var next := i + |spelled|;
      assert argv[next..] == argv[i..][|spelled|..] == rest;
      var (ret, t) := Handle(levels, s, LONG[xs[0].k].opt, ValueOf(xs[0]));
      if ret == Success {
        LoopApplies(levels, argv, next, t, xs[1..], styles[1..]);
      }
    }
  }

  lemma ScanAtEnd(argv: seq<string>, i: nat)
    requires i >= |argv|
    ensures Scan(argv, i) == End
  {
  }

  /** So two command lines that spell the same settings come to the same outcome. */
  lemma SpellingsAgree(levels: Levels, program: string, s: State,
                       xs: seq<Setting>, one: seq<Style>, other: seq<Style>)
    requires AllAllowed(xs, one) && AllAllowed(xs, other)
    ensures var a := [program] + SpellAll(xs, one);
            var b := [program] + SpellAll(xs, other);
            Conclude(a, Loop(levels, a, 1, s)) == Conclude(b, Loop(levels, b, 1, s))
  {
    hide Loop, SpellAll, Apply, LONG;
    var a := [program] + SpellAll(xs, one);
    var b := [program] + SpellAll(xs, other);
    assert a[1..] == SpellAll(xs, one) && b[1..] == SpellAll(xs, other);
    LoopApplies(levels, a, 1, s, xs, one);
    LoopApplies(levels, b, 1, s, xs, other);
  }

  lemma {:induction false} LongFound(argv: seq<string>, i: nat, body: string, k: nat) returns (x: Setting, style: Style)
    requires i < |argv| && k <= |LONG| && LongToken(LONG, argv, i, body, k).Found?
    requires argv[i] == "--" + body
    ensures SettingOk(x) && (style.LongJoined? || style.LongSeparate?)
    ensures var t := LongToken(LONG, argv, i, body, k);
            && t.opt == LONG[x.k].opt && t.value == ValueOf(x)
            && i <= t.next <= |argv| && Spell(x, style) == argv[i..t.next]
    decreases |LONG| - k
  {
    hide LONG;
    var o := LONG[k];
    if o.name <= body && |body| > |o.name| && body[|o.name|] == '=' && o.hasArg {
      x, style := Setting(k, body[|o.name| + 1..]), LongJoined;
      assert "--" + body == "--" + o.name + "=" + x.text;
      assert argv[i..i + 1] == [argv[i]];
    } else if body == o.name && o.hasArg && i + 1 < |argv| {
      x, style := Setting(k, argv[i + 1]), LongSeparate;
      assert argv[i..i + 2] == [argv[i], argv[i + 1]];
    } else if body == o.name && !o.hasArg {
      x, style := Setting(k, ""), LongJoined;
      assert argv[i..i + 1] == [argv[i]];
    } else {
      x, style := LongFound(argv, i, body, k + 1);
    }
  }

  /** Conversely, an argument with two dashes is taken only if it spells a setting in one of the two ways, and
      it is then that setting that is taken. */
  lemma OnlySpellingsFound(argv: seq<string>, i: nat) returns (x: Setting, style: Style)
    requires Scan(argv, i).Found? && "--" <= argv[i]
    ensures SettingOk(x) && (style.LongJoined? || style.LongSeparate?)
    ensures var t := Scan(argv, i);
            && t.opt == LONG[x.k].opt && t.value == ValueOf(x)
            && i <= t.next <= |argv| && Spell(x, style) == argv[i..t.next]
  {
    hide LONG;
    assert argv[i] == "--" + argv[i][2..];
    x, style := LongFound(argv, i, argv[i][2..], 0);
  }

  // ---------------------------------------------------------------- what a command line comes to

  predicate Sets(xs: seq<Setting>, i: nat, opt: Opt)
    requires forall j :: 0 <= j < |xs| ==> SettingOk(xs[j])
  {
    i < |xs| && SettingOk(xs[i]) && LONG[xs[i].k].opt == opt
  }

  /** The options that hold a text. */
  function TextField(o: Values, opt: Opt): string {
    match opt
    case BaseDir => o.baseDir
    case DataDir => o.dataDir
    case RedoDir => o.redoDir
    case Role => o.role
    case _ => ""
  }

  predicate IsText(opt: Opt) {
    opt == BaseDir || opt == DataDir || opt == RedoDir || opt == Role
  }

  lemma TextsTakeValues(k: nat)
    requires k < |LONG| && (IsText(LONG[k].opt) || LONG[k].opt in {Parameter, Variable})
    ensures LONG[k].hasArg
  {
  }

  lemma HandleText(levels: Levels, s: State, opt: Opt, v: Value, field: Opt)
    requires IsText(field) && Handle(levels, s, opt, v).0 == Success && (opt == field ==> v.Text?)
    ensures TextField(Handle(levels, s, opt, v).1.opts.values, field)
         == if opt == field then v.text else TextField(s.opts.values, field)
  {
    hide KeyValueOk, KeyValue, SameIgnoringCase, StrToL;
  }

  /** A text option that is not given stays as it was. */
  lemma {:induction false} NotGivenStays(levels: Levels, xs: seq<Setting>, s: State, field: Opt)
    requires (forall j :: 0 <= j < |xs| ==> SettingOk(xs[j])) && IsText(field)
    requires Apply(levels, xs, s).0 == Success && forall j :: 0 <= j < |xs| ==> !Sets(xs, j, field)
    ensures TextField(Apply(levels, xs, s).1.opts.values, field) == TextField(s.opts.values, field)
    decreases |xs|
  {
    hide LONG, Handle;
    if xs != [] {
      assert !Sets(xs, 0, field);
      HandleText(levels, s, LONG[xs[0].k].opt, ValueOf(xs[0]), field);
      assert forall j :: 0 <= j < |xs[1..]| ==> Sets(xs[1..], j, field) == Sets(xs, j + 1, field);
      NotGivenStays(levels, xs[1..], Handle(levels, s, LONG[xs[0].k].opt, ValueOf(xs[0])).1, field);
    }
  }

  /** Of a text option that is given several times the last one counts. */
  lemma {:induction false} LastGivenCounts(levels: Levels, xs: seq<Setting>, s: State, field: Opt, i: nat)
    requires (forall j :: 0 <= j < |xs| ==> SettingOk(xs[j])) && IsText(field)
    requires Apply(levels, xs, s).0 == Success
    requires Sets(xs, i, field) && forall j :: i < j < |xs| ==> !Sets(xs, j, field)
    ensures TextField(Apply(levels, xs, s).1.opts.values, field) == xs[i].text
    decreases |xs|
  {
    hide LONG, Handle;
    var t := Handle(levels, s, LONG[xs[0].k].opt, ValueOf(xs[0])).1;
    assert forall j :: 0 <= j < |xs[1..]| ==> Sets(xs[1..], j, field) == Sets(xs, j + 1, field);
    if i == 0 {
      TextsTakeValues(xs[0].k);
      HandleText(levels, s, field, ValueOf(xs[0]), field);
      NotGivenStays(levels, xs[1..], t, field);
    } else {
      LastGivenCounts(levels, xs[1..], t, field, i - 1);
    }
  }

  /** The key-value pairs of one option, in the order given. */
  function Pairs(xs: seq<Setting>, opt: Opt): seq<(string, string)>
    requires forall j :: 0 <= j < |xs| ==> SettingOk(xs[j])
  {
    if xs == [] then []
    else
      var rest := Pairs(xs[1..], opt);
      if Sets(xs, 0, opt) && KeyValueOk(Text(xs[0].text)) then [KeyValue(Text(xs[0].text))] + rest else rest
  }

  lemma HandlePairs(levels: Levels, s: State, opt: Opt, v: Value)
    requires Handle(levels, s, opt, v).0 == Success
    ensures var o := Handle(levels, s, opt, v).1.opts.values;
            && (opt == Parameter || opt == Variable ==> KeyValueOk(v))
            && o.parameters == s.opts.values.parameters + (if opt == Parameter then [KeyValue(v)] else [])
            && o.variables == s.opts.values.variables + (if opt == Variable then [KeyValue(v)] else [])
  {
    hide KeyValueOk, KeyValue, SameIgnoringCase, StrToL;
  }

  /** Parameters and variables pile up in order, none lost and none mixed up. */
  lemma {:induction false} PairsPileUp(levels: Levels, xs: seq<Setting>, s: State)
    requires (forall j :: 0 <= j < |xs| ==> SettingOk(xs[j])) && Apply(levels, xs, s).0 == Success
    ensures var o := Apply(levels, xs, s).1.opts.values;
            && o.parameters == s.opts.values.parameters + Pairs(xs, Parameter)
            && o.variables == s.opts.values.variables + Pairs(xs, Variable)
    decreases |xs|
  {
    hide LONG, Handle, KeyValueOk, KeyValue;
    if xs != [] {
      assert SettingOk(xs[0]);
      var opt, v := LONG[xs[0].k].opt, ValueOf(xs[0]);
      HandlePairs(levels, s, opt, v);
      if opt == Parameter || opt == Variable { TextsTakeValues(xs[0].k); }
      PairsPileUp(levels, xs[1..], Handle(levels, s, opt, v).1);
    }
  }

  /** The options that are switched on. */
  predicate Switch(s: State, opt: Opt) {
    match opt
    case Initialize => s.opts.switches.initialize
    case NoDaemon => s.opts.switches.nodaemon
    case UseIpv6 => s.opts.switches.useIpv6
    case Embedded => s.opts.switches.embedded
    case InstallService => s.opts.switches.installService
    case RemoveService => s.opts.switches.removeService
    case Service => s.opts.switches.runAsService
    case Version => s.version
    case Help => s.help
    case _ => false
  }

  /** Running as a service is never as a daemon. */
  predicate SwitchesOn(opt: Opt, switch: Opt) {
    opt == switch || (opt == Service && switch == NoDaemon)
  }

  lemma SwitchTurned(x: Switches, opts: Options, help: bool, version: bool, opt: Opt, switch: Opt)
    requires IsSwitch(opt) && IsSwitch(switch) && !switch.Help? && !switch.Version? && opts.switches == TurnOn(x, opt)
    ensures Switch(State(opts, help, version), switch)
        <==> Switch(State(opts.(switches := x), help, version), switch) || SwitchesOn(opt, switch)
  {
  }

  lemma SameSwitch(s: State, t: State, switch: Opt)
    requires t.opts.switches == s.opts.switches && t.help == s.help && t.version == s.version
    ensures Switch(t, switch) == Switch(s, switch)
  {
  }

  lemma OnlySwitchesTurn(opt: Opt, switch: Opt)
    requires SwitchesOn(opt, switch) && IsSwitch(switch)
    ensures IsSwitch(opt)
  {
  }

  lemma HandleSwitch(levels: Levels, s: State, opt: Opt, v: Value, switch: Opt)
    requires IsSwitch(switch)
    ensures Switch(Handle(levels, s, opt, v).1, switch) <==> Switch(s, switch) || SwitchesOn(opt, switch)
  {
    hide HandleValue, TurnOn, IsSwitch;
    var t := Handle(levels, s, opt, v).1;
    if !IsSwitch(opt) {
      hide Switch, SwitchesOn;
      SameSwitch(s, t, switch);
      if SwitchesOn(opt, switch) { OnlySwitchesTurn(opt, switch); }
    } else if !switch.Help? && !switch.Version? {
      hide Switch, SwitchesOn;
      SwitchTurned(s.opts.switches, t.opts, t.help, t.version, opt, switch);
      StateOnly(s, t, switch);
    }
  }

  lemma StateOnly(s: State, t: State, switch: Opt)
    requires !switch.Help? && !switch.Version?
    ensures Switch(State(t.opts.(switches := s.opts.switches), t.help, t.version), switch) == Switch(s, switch)
  {
  }

  ghost predicate Given(xs: seq<Setting>, switch: Opt)
    requires forall j :: 0 <= j < |xs| ==> SettingOk(xs[j])
  {
    exists i :: 0 <= i < |xs| && SettingOk(xs[i]) && SwitchesOn(LONG[xs[i].k].opt, switch)
  }

  /** A switch is on afterwards exactly if it was on or is given, wherever it stands on the command line. */
  lemma {:induction false} SwitchesAddUp(levels: Levels, xs: seq<Setting>, s: State, switch: Opt)
    requires (forall j :: 0 <= j < |xs| ==> SettingOk(xs[j])) && IsSwitch(switch)
    requires Apply(levels, xs, s).0 == Success
    ensures Switch(Apply(levels, xs, s).1, switch) <==> Switch(s, switch) || Given(xs, switch)
    decreases |xs|
  {
    hide LONG, Handle, Switch, SwitchesOn, IsSwitch;
    if xs != [] {
      assert SettingOk(xs[0]);
      var opt, v, rest := LONG[xs[0].k].opt, ValueOf(xs[0]), xs[1..];
      HandleSwitch(levels, s, opt, v, switch);
      SwitchesAddUp(levels, rest, Handle(levels, s, opt, v).1, switch);
      if i :| 0 <= i < |rest| && SettingOk(rest[i]) && SwitchesOn(LONG[rest[i].k].opt, switch) {
        assert rest[i] == xs[i + 1];
      }
      if i :| 0 <= i < |xs| && SettingOk(xs[i]) && SwitchesOn(LONG[xs[i].k].opt, switch) {
        if i > 0 { assert rest[i - 1] == xs[i]; }
      }
    }
  }

  // ---------------------------------------------------------------- ports

  function Decimal(n: nat): string
    ensures forall i :: 0 <= i < |Decimal(n)| ==> IsDigit(Decimal(n)[i])
    ensures Decimal(n) != ""
  {
    if n < 10 then [('0' as int + n) as char] else Decimal(n / 10) + [('0' as int + n % 10) as char]
  }

  lemma {:induction false} DecimalNumber(n: nat)
    ensures Number(Decimal(n)) == n
  {
    if n < 10 {
      assert Decimal(n)[..|Decimal(n)| - 1] == "";
    } else {
      DecimalNumber(n / 10);
      assert Decimal(n)[..|Decimal(n)| - 1] == Decimal(n / 10);
    }
  }

  lemma {:induction false} DigitsThenTail(s: string, tail: string, i: nat)
    requires i <= |s| && (forall j :: 0 <= j < |s| ==> IsDigit(s[j])) && (tail != "" ==> !IsDigit(tail[0]))
    ensures SkipDigits(s + tail, i) == |s|
    decreases |s| - i
  {
    if i < |s| {
      assert (s + tail)[i] == s[i];
      DigitsThenTail(s, tail, i + 1);
    } else if tail != "" {
      assert (s + tail)[i] == tail[0];
    }
  }

  lemma DigitsRead(s: string, tail: string)
    requires s != "" && (forall j :: 0 <= j < |s| ==> IsDigit(s[j])) && (tail != "" ==> !IsDigit(tail[0]))
    ensures StrToL(s + tail) == (Number(s), |s|)
  {
    hide Number;
    var text := s + tail;
    assert text[0] == s[0] && IsDigit(text[0]);
    assert SkipSpace(text, 0) == 0;
    DigitsThenTail(s, tail, 0);
    assert text[0..|s|] == s;
  }

  /** Every port written in decimal is read back, and only the range stands in the way of other numbers. */
  lemma PortRoundTrip(x: Values, n: nat)
    ensures HandlePort(x, Decimal(n)) == if 0 < n <= 65535 then (Success, x.(port := n)) else (InvalidArgument, x)
  {
    hide StrToL, Decimal, Number;
    DigitsRead(Decimal(n), "");
    assert Decimal(n) + "" == Decimal(n);
    DecimalNumber(n);
  }

  /** Spaces in front and a sign are read over; a minus makes every port invalid. */
  lemma SignedPort(x: Values, n: nat)
    ensures HandlePort(x, " +" + Decimal(n)) == HandlePort(x, Decimal(n))
    ensures HandlePort(x, "-" + Decimal(n)) == (InvalidArgument, x)
  {
    hide Decimal, Number;
    PortRoundTrip(x, n);
    SignedRead(" ", '+', Decimal(n));
    SignedRead("", '-', Decimal(n));
    DecimalNumber(n);
    assert " " + ['+'] + Decimal(n) == " +" + Decimal(n);
    assert "" + ['-'] + Decimal(n) == "-" + Decimal(n);
  }

  lemma SignedRead(space: string, sign: char, digits: string)
    requires space == "" || space == " "
    requires (sign == '+' || sign == '-') && digits != "" && forall j :: 0 <= j < |digits| ==> IsDigit(digits[j])
    ensures StrToL(space + [sign] + digits)
         == (if sign == '-' then 0 - Number(digits) else Number(digits), |space| + 1 + |digits|)
  {
    hide Number, SkipSpace, SkipDigits, StrToL, IsDigit;
    var text, k := space + [sign] + digits, |space|;
    SignFound(space, sign, digits);
    AllDigits(space + [sign], digits, k + 1);
    assert text[k + 1..|text|] == digits;
    SignedParts(text, k, sign, digits);
  }

  lemma SignedParts(text: string, k: nat, sign: char, digits: string)
    requires k < |text| && text[k] == sign && (sign == '+' || sign == '-') && SkipSpace(text, 0) == k
    requires SkipDigits(text, k + 1) == |text| && digits != "" && text[k + 1..|text|] == digits
    requires forall j :: 0 <= j < |digits| ==> IsDigit(digits[j])
    ensures StrToL(text) == (if sign == '-' then 0 - Number(digits) else Number(digits), |text|)
  {
    hide Number, SkipSpace, SkipDigits;
  }

  lemma SignFound(space: string, sign: char, digits: string)
    requires (space == "" || space == " ") && (sign == '+' || sign == '-')
    ensures SkipSpace(space + [sign] + digits, 0) == |space| && (space + [sign] + digits)[|space|] == sign
  {
    var text, k := space + [sign] + digits, |space|;
    assert text[k] == sign && (k == 1 ==> text[0] == ' ');
    assert SkipSpace(text, k) == k;
  }

  lemma {:induction false} AllDigits(front: string, digits: string, i: nat)
    requires |front| <= i <= |front| + |digits| && forall j :: 0 <= j < |digits| ==> IsDigit(digits[j])
    ensures SkipDigits(front + digits, i) == |front| + |digits|
    decreases |front| + |digits| - i
  {
    if i < |front| + |digits| {
      assert (front + digits)[i] == digits[i - |front|];
      AllDigits(front, digits, i + 1);
    }
  }

  /** Letters of either case are the same: those of the small alphabet lie 32 above those of the large one. */
  lemma CaseIgnoredIff(a: string, b: string)
    ensures SameIgnoringCase(a, b) <==>
              && |a| == |b|
              && forall i :: 0 <= i < |a| ==>
                   || a[i] == b[i]
                   || ('A' <= a[i] <= 'Z' && b[i] as int == a[i] as int + 32)
                   || ('A' <= b[i] <= 'Z' && a[i] as int == b[i] as int + 32)
  {
  }

  /** A port with something behind it is refused, but only after it has been stored. */
  lemma TrailingJunkIsStored(x: Values, n: nat, junk: string)
    requires 0 < n <= 65535 && junk != "" && !IsDigit(junk[0])
    ensures HandlePort(x, Decimal(n) + junk) == (InvalidArgument, x.(port := n))
  {
    hide StrToL, Decimal, Number;
    DigitsRead(Decimal(n), junk);
    DecimalNumber(n);
  }

  /** A refused option leaves everything as it was, with exactly this exception: a port whose text starts with
      another number in the range. */
  lemma RefusalKeepsStateIff(levels: Levels, s: State, opt: Opt, v: Value)
    requires Handle(levels, s, opt, v).0 != Success
    ensures Handle(levels, s, opt, v).1 == s
        <==> !(opt == Port && v.Text? && 0 < StrToL(v.text).0 <= 65535 && StrToL(v.text).0 != s.opts.values.port)
  {
    hide StrToL, KeyValueOk, KeyValue, SameIgnoringCase;
    if opt == Port && v.Text? && 0 < StrToL(v.text).0 <= 65535 {
      assert Handle(levels, s, opt, v).1.opts.values.port == StrToL(v.text).0;
    }
  }
}
