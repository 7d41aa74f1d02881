/**
  Model of `getcfg` and `struct cli_cfg` in src/cli.c: the command-line
  parser of the mem-db client.

  `getcfg` walks argv from index 1, recognises `--host <hostname>`,
  `--port <port>`, `--version` and `--help`, and fills in defaults once every
  argument is consumed. Its side effects (printing the version or the usage
  text and exiting with status 0, or reporting an error through `fatal` and
  exiting with status 1) are modelled as the outcome values ShowVersion,
  ShowHelp and Fatal.
 */
module Cli {

  datatype Option<T> = None | Some(value: T)

  /** A `uint16_t`. */
  type Port = p: int | 0 <= p < 0x1_0000

  /** `struct cli_cfg`: the hostname (None while it is still NULL) and the
      port (0 while unset). */
  datatype CliCfg = CliCfg(hostname: Option<string>, port: Port)

  /** What `fatal` reports, with the argument its message quotes. */
  datatype Failure =
    | MissingArgument(option: string)    // "Expected argument for option '%s'"
    | UnknownOption(arg: string)         // "Unknown option: '%s'"
    | UnexpectedArgument(arg: string)    // "Unexpected argument: '%s'"

  /** How a run of `getcfg` ends. */
  datatype Outcome =
    | Config(host: string, port: Port)   // the returned configuration
    | ShowVersion                        // prints `version`, exits with 0
    | ShowHelp                           // prints `usage`, exits with 0
    | Fatal(failure: Failure)            // reports through `fatal`, exits with 1

  const DefaultHost: string := "127.0.0.1"
  const DefaultPort: Port := 11111

  // ---------------------------------------------------------------------
  // atoi and the store into a uint16_t
  // ---------------------------------------------------------------------

  /** The characters `isspace` accepts in the C locale: space, and '\t',
      '\n', '\v', '\f', '\r' (codes 9 to 13). */
  predicate IsSpace(c: char) {
    c == ' ' || '\t' <= c <= '\r'
  }

  predicate IsDigit(c: char) {
    '0' <= c <= '9'
  }

  /** The rest of s after its leading white space (SkipSpaceSuffix). */
  function SkipSpace(s: string): string {
    if |s| > 0 && IsSpace(s[0]) then SkipSpace(s[1..]) else s
  }

  /** The value of the longest run of decimal digits at the front of s,
      appended to the digits already read (worth acc). */
  function DigitRun(s: string, acc: nat): nat {
    if |s| > 0 && IsDigit(s[0]) then DigitRun(s[1..], 10 * acc + (s[0] as int - '0' as int)) else acc
  }

  /** `atoi`: leading white space, an optional sign, then the longest run
      of digits; 0 when no digit follows. */
  function Atoi(s: string): int {
    var t := SkipSpace(s);
    if |t| > 0 && t[0] == '-' then -(DigitRun(t[1..], 0) as int)
    else if |t| > 0 && t[0] == '+' then DigitRun(t[1..], 0)
    else DigitRun(t, 0)
  }

  /** The store `cfg->port = atoi(...)`: conversion to `uint16_t`, which
      keeps the value modulo 2^16. */
  function ToPort(n: int): (p: Port)
    ensures (p - n) % 0x1_0000 == 0
  {
    n % 0x1_0000
  }

  /** The decimal numeral of n, without leading zeros. */
  function Decimal(n: nat): (s: string)
    ensures |s| > 0 && forall k :: 0 <= k < |s| ==> IsDigit(s[k])
    decreases n
  {
    if n < 10 then [Digit(n)] else Decimal(n / 10) + [Digit(n % 10)]
  }

  function Digit(d: nat): (c: char)
    requires d < 10
    ensures IsDigit(c) && c as int - '0' as int == d
  {
    ('0' as int + d) as char
  }

  // ---------------------------------------------------------------------
  // getcfg
  // ---------------------------------------------------------------------

  /** Where a scan of argv stands: every argument consumed (with the
      configuration built so far), or stopped with an outcome. */
  datatype Scanned = Done(cfg: CliCfg) | Stop(outcome: Outcome)

  /** The loop of `getcfg` from index i, with the configuration cfg built
      so far. */
  function Scan(argv: seq<string>, i: nat, cfg: CliCfg): Scanned
    decreases |argv| - i
  {
    if i >= |argv| then Done(cfg)
    else
      var arg, last := argv[i], i + 1 == |argv|;
      if arg == "--host" then
        if last then Stop(Fatal(MissingArgument(arg)))
        else Scan(argv, i + 2, cfg.(hostname := Some(argv[i + 1])))
      else if arg == "--port" then
        if last then Stop(Fatal(MissingArgument(arg)))
        else Scan(argv, i + 2, cfg.(port := ToPort(Atoi(argv[i + 1]))))
      else if arg == "--version" then Stop(ShowVersion)
      else if arg == "--help" then Stop(ShowHelp)
      else if |arg| > 0 && arg[0] == '-' then Stop(Fatal(UnknownOption(arg)))
      else Stop(Fatal(UnexpectedArgument(arg)))
  }

  /** The defaults applied after the loop: a NULL hostname becomes
      "127.0.0.1" and a zero port becomes 11111. */
  function Finish(cfg: CliCfg): (o: Outcome)
    ensures o.Config? && o.port != 0
    ensures cfg.hostname.Some? ==> o.host == cfg.hostname.value
    ensures cfg.hostname.None? ==> o.host == DefaultHost
    ensures cfg.port != 0 ==> o.port == cfg.port
    ensures cfg.port == 0 ==> o.port == DefaultPort
  {
    Config(if cfg.hostname.None? then DefaultHost else cfg.hostname.value,
           if cfg.port == 0 then DefaultPort else cfg.port)
  }

  function Result(s: Scanned): Outcome {
    match s
    case Done(cfg) => Finish(cfg)
    case Stop(o) => o
  }

  /** The zero-filled configuration `xzalloc` returns. */
  const Blank: CliCfg := CliCfg(None, 0)

  /** `getcfg(argc, argv)`, argv[0] being the program name. */
  function GetCfg(argv: seq<string>): Outcome {
    Result(Scan(argv, 1, Blank))
  }

  /** `getcfg` as written: a for loop whose index the option cases advance
      a second time, early exits, and the defaults after the loop. */
  method GetCfgLoop(argv: seq<string>) returns (outcome: Outcome)
    ensures outcome == GetCfg(argv)
  {
    var cfg := Blank;
    var i := 1;
    while i < |argv|
      invariant Result(Scan(argv, i, cfg)) == GetCfg(argv)
      decreases |argv| - i
    {
      var last := i + 1 == |argv|;
      var arg := argv[i];
      if arg == "--host" {
        if last {
          return Fatal(MissingArgument(arg));
        }
        i := i + 1;
        cfg := cfg.(hostname := Some(argv[i]));
      } else if arg == "--port" {
        if last {
          return Fatal(MissingArgument(arg));
        }
        i := i + 1;
        cfg := cfg.(port := ToPort(Atoi(argv[i])));
      } else if arg == "--version" {
        return ShowVersion;
      } else if arg == "--help" {
        return ShowHelp;
      } else if |arg| > 0 && arg[0] == '-' {
        return Fatal(UnknownOption(arg));
      } else {
        return Fatal(UnexpectedArgument(arg));
      }
      i := i + 1;
    }
    if cfg.hostname.None? {
      cfg := cfg.(hostname := Some(DefaultHost));
    }
    if cfg.port == 0 {
      cfg := cfg.(port := DefaultPort);
    }
    return Config(cfg.hostname.value, cfg.port);
  }

  // ---------------------------------------------------------------------
  // atoi: properties
  // ---------------------------------------------------------------------

  /** Reading a run of digits, then whatever follows, continues from the
      value of the run. */
  lemma {:induction false} DigitRunAppend(s: string, t: string, acc: nat)
    requires forall k :: 0 <= k < |s| ==> IsDigit(s[k])
    ensures DigitRun(s + t, acc) == DigitRun(t, DigitRun(s, acc))
    decreases |s|
  {
    if s == [] {
      assert s + t == t;
    } else {
      assert (s + t)[1..] == s[1..] + t;
      DigitRunAppend(s[1..], t, 10 * acc + (s[0] as int - '0' as int));
    }
  }

  /** `atoi` reads back the decimal numeral of every n. */
  lemma {:induction false} DigitRunDecimal(n: nat)
    ensures DigitRun(Decimal(n), 0) == n
    decreases n
  {
    if n >= 10 {
      DigitRunDecimal(n / 10);
      DigitRunAppend(Decimal(n / 10), [Digit(n % 10)], 0);
    }
  }

  /** `atoi` of a numeral after white space is its value. */
  lemma AtoiDecimal(pad: string, n: nat)
    requires forall k :: 0 <= k < |pad| ==> IsSpace(pad[k])
    ensures Atoi(pad + Decimal(n)) == n
  {
    var t := Decimal(n);
    SkipSpaceAll(pad, t);
    assert SkipSpace(pad + t) == t && IsDigit(t[0]);
    DigitRunDecimal(n);
  }

  /** `atoi` of a numeral after white space and '-' is its negation. */
  lemma AtoiNegative(pad: string, n: nat)
    requires forall k :: 0 <= k < |pad| ==> IsSpace(pad[k])
    ensures Atoi(pad + "-" + Decimal(n)) == -(n as int)
  {
    var t := "-" + Decimal(n);
    assert pad + "-" + Decimal(n) == pad + t;
    SkipSpaceAll(pad, t);
    assert t[1..] == Decimal(n);
    DigitRunDecimal(n);
  }

  /** What `atoi` reads after skipping white space is a suffix of its
      argument that does not start with white space. */
  lemma {:induction false} SkipSpaceSuffix(s: string)
    ensures var t := SkipSpace(s); |t| <= |s| && t == s[|s| - |t|..]
    ensures SkipSpace(s) == [] || !IsSpace(SkipSpace(s)[0])
    decreases |s|
  {
    if |s| > 0 && IsSpace(s[0]) {
      SkipSpaceSuffix(s[1..]);
    }
  }

  lemma {:induction false} SkipSpaceAll(pad: string, t: string)
    requires forall k :: 0 <= k < |pad| ==> IsSpace(pad[k])
    requires t == [] || !IsSpace(t[0])
    ensures SkipSpace(pad + t) == t
    decreases |pad|
  {
    if pad == [] {
      assert pad + t == t;
    } else {
      assert (pad + t)[1..] == pad[1..] + t;
      SkipSpaceAll(pad[1..], t);
    }
  }

  /** Without a digit after the white space and the sign, `atoi` gives 0. */
  lemma AtoiNoDigits(s: string)
    requires var t := SkipSpace(s);
             var u := if |t| > 0 && (t[0] == '-' || t[0] == '+') then t[1..] else t;
             u == [] || !IsDigit(u[0])
    ensures Atoi(s) == 0
  {
  }

  // ---------------------------------------------------------------------
  // getcfg: properties
  // ---------------------------------------------------------------------

  /** A scan that consumes all of argv, continued over more arguments,
      takes them up with the configuration it ended with. */
  lemma {:induction false} ScanAppendDone(argv: seq<string>, rest: seq<string>, i: nat, cfg: CliCfg, c: CliCfg)
    requires i <= |argv| && Scan(argv, i, cfg) == Done(c)
    ensures Scan(argv + rest, i, cfg) == Scan(argv + rest, |argv|, c)
    decreases |argv| - i
  {
    if i < |argv| {
      var all := argv + rest;
      assert all[i] == argv[i] && all[i + 1] == argv[i + 1];
      if argv[i] == "--host" {
        ScanAppendDone(argv, rest, i + 2, cfg.(hostname := Some(argv[i + 1])), c);
      } else {
        ScanAppendDone(argv, rest, i + 2, cfg.(port := ToPort(Atoi(argv[i + 1]))), c);
      }
    }
  }

  /** A scan that stops at an argument for any reason but a missing option
      argument stops the same way whatever follows: arguments after the
      stopping point are never inspected. */
  lemma {:induction false} ScanAppendStop(argv: seq<string>, rest: seq<string>, i: nat, cfg: CliCfg, o: Outcome)
    requires Scan(argv, i, cfg) == Stop(o) && !(o.Fatal? && o.failure.MissingArgument?)
    ensures Scan(argv + rest, i, cfg) == Stop(o)
    decreases |argv| - i
  {
    var all := argv + rest;
    assert all[i] == argv[i];
    if argv[i] == "--host" {
      assert all[i + 1] == argv[i + 1];
      ScanAppendStop(argv, rest, i + 2, cfg.(hostname := Some(argv[i + 1])), o);
    } else if argv[i] == "--port" {
      assert all[i + 1] == argv[i + 1];
      ScanAppendStop(argv, rest, i + 2, cfg.(port := ToPort(Atoi(argv[i + 1]))), o);
    }
  }

  /** With no argument besides the program name, the configuration is
      the default one. */
  lemma NoArguments(argv: seq<string>)
    requires |argv| <= 1
    ensures GetCfg(argv) == Config(DefaultHost, DefaultPort)
  {
  }

  /** `--host x` after any accepted command line sets the hostname to x,
      whatever x is (so a later `--host` overrides an earlier one, and
      x is never read as an option), and leaves the port alone. */
  lemma HostLastWins(argv: seq<string>, c: CliCfg, x: string)
    requires |argv| >= 1 && Scan(argv, 1, Blank) == Done(c)
    ensures GetCfg(argv + ["--host", x]) == Config(x, Finish(c).port)
  {
    ScanAppendDone(argv, ["--host", x], 1, Blank, c);
    var all := argv + ["--host", x];
    assert all[|argv|] == "--host" && all[|argv| + 1] == x;
  }

  /** `--port v` after any accepted command line sets the port to `atoi(v)`
      modulo 2^16, falling back to 11111 when that is 0, and leaves the
      hostname alone. */
  lemma PortLastWins(argv: seq<string>, c: CliCfg, v: string)
    requires |argv| >= 1 && Scan(argv, 1, Blank) == Done(c)
    ensures GetCfg(argv + ["--port", v]) ==
      Config(Finish(c).host, if ToPort(Atoi(v)) == 0 then DefaultPort else ToPort(Atoi(v)))
  {
    ScanAppendDone(argv, ["--port", v], 1, Blank, c);
    var all, p := argv + ["--port", v], ToPort(Atoi(v));
    assert all[|argv|] == "--port" && all[|argv| + 1] == v;
    var c' := c.(port := p);
    assert Scan(all, |argv|, c) == Scan(all, |argv| + 2, c');
    assert Scan(all, |argv| + 2, c') == Done(c');
    assert GetCfg(all) == Finish(c');
  }

  /** `--host` or `--port` as the final argument is an error naming the
      option. */
  lemma MissingOptionArgument(argv: seq<string>, c: CliCfg, option: string)
    requires |argv| >= 1 && Scan(argv, 1, Blank) == Done(c)
    requires option == "--host" || option == "--port"
    ensures GetCfg(argv + [option]) == Fatal(MissingArgument(option))
  {
    ScanAppendDone(argv, [option], 1, Blank, c);
    assert (argv + [option])[|argv|] == option;
  }

  /** An argument that is none of the four options stops the parse with
      an error: "Unknown option" when it starts with '-', "Unexpected
      argument" otherwise (the empty argument included); what follows it
      is never inspected. */
  lemma StrayArgument(argv: seq<string>, c: CliCfg, arg: string, rest: seq<string>)
    requires |argv| >= 1 && Scan(argv, 1, Blank) == Done(c)
    requires arg != "--host" && arg != "--port" && arg != "--version" && arg != "--help"
    ensures GetCfg(argv + [arg] + rest) ==
      Fatal(if |arg| > 0 && arg[0] == '-' then UnknownOption(arg) else UnexpectedArgument(arg))
  {
    ScanAppendDone(argv, [arg] + rest, 1, Blank, c);
    assert argv + [arg] + rest == argv + ([arg] + rest);
    assert (argv + ([arg] + rest))[|argv|] == arg;
  }

  /** `--version` and `--help` after any accepted arguments end the parse
      successfully; what follows them is never inspected. */
  lemma VersionAndHelp(argv: seq<string>, c: CliCfg, option: string, rest: seq<string>)
    requires |argv| >= 1 && Scan(argv, 1, Blank) == Done(c)
    requires option == "--version" || option == "--help"
    ensures GetCfg(argv + [option] + rest) == if option == "--version" then ShowVersion else ShowHelp
  {
    ScanAppendDone(argv, [option] + rest, 1, Blank, c);
    assert argv + [option] + rest == argv + ([option] + rest);
    assert (argv + ([option] + rest))[|argv|] == option;
  }

  /** Arguments are checked in order: once a prefix of the command line
      stops the parse (other than by a missing option argument, which a
      further argument would supply), appending arguments cannot change
      the outcome, so `--version` or `--help` after a bad argument does
      not rescue it. */
  lemma EarlierStopWins(argv: seq<string>, rest: seq<string>, o: Outcome)
    requires Scan(argv, 1, Blank) == Stop(o) && !(o.Fatal? && o.failure.MissingArgument?)
    ensures GetCfg(argv + rest) == o
  {
    ScanAppendStop(argv, rest, 1, Blank, o);
  }

  /** A port value whose conversion gives 0 falls back to 11111. */
  lemma PortFallback(prog: string, v: string)
    requires ToPort(Atoi(v)) == 0
    ensures GetCfg([prog, "--port", v]) == Config(DefaultHost, DefaultPort)
  {
    PortLastWins([prog], Blank, v);
    assert [prog] + ["--port", v] == [prog, "--port", v];
  }

  /** A value with no digits converts to port 0. */
  lemma PortNotNumeric(v: string)
    requires v == "abc"
    ensures ToPort(Atoi(v)) == 0
  {
    assert SkipSpace(v) == v;
    AtoiNoDigits(v);
  }

  /** A numeral is read in full and stored modulo 2^16, so exactly the
      multiples of 65536 ("0", "65536", "131072", ...) convert to port 0. */
  lemma PortOfNumeral(n: nat)
    ensures ToPort(Atoi(Decimal(n))) == n % 0x1_0000
    ensures ToPort(Atoi(Decimal(n))) == 0 <==> n % 0x1_0000 == 0
  {
    AtoiDecimal("", n);
    assert "" + Decimal(n) == Decimal(n);
  }

  /** The value after `--host` is taken as the hostname even when it looks
      like an option. */
  lemma HostValueNotAnOption(prog: string)
    ensures GetCfg([prog, "--host", "--help"]) == Config("--help", DefaultPort)
  {
    HostLastWins([prog], Blank, "--help");
    assert [prog] + ["--host", "--help"] == [prog, "--host", "--help"];
  }

  /** The empty argument is unexpected, not an unknown option. */
  lemma EmptyArgument(prog: string)
    ensures GetCfg([prog, ""]) == Fatal(UnexpectedArgument(""))
  {
  }
}
