/**
 * Command-line handling of the flow-completion-time tool `fcttest`:
 * the getopt loop that accumulates settings, and the ordered sequence of
 * checks in `main` that decides between server mode, client mode and the
 * error exits.
 */
module FctOptions {
  import opened Wrappers

  /** One option as getopt delivers it for the option string "sca:p:g:rltv".
      `Unknown` is getopt's '?' (an unlisted letter, or -a/-p/-g without
      its argument). The numeric arguments are what atoi produced. */
  datatype Opt =
    | ServerFlag
    | ClientFlag
    | Port(number: int)
    | Address(text: string)
    | Length(number: int)
    | Rc3Flag
    | Rc3LogFlag
    | Rc3LogTimeFlag
    | VerboseFlag
    | Unknown

  const PORT_RANGE: int := 0x1_0000

  /** An unsigned 16-bit port value, as `uint16_t port` holds it. */
  type Port16 = p: int | 0 <= p < PORT_RANGE

  /** Everything the option loop writes: the locals of main
      (server, client, port, address) and the globals
      (length, rc3, rc3_log, rc3_logtime, verbose). */
  datatype Settings = Settings(
    server: bool,
    client: bool,
    port: Port16,
    address: Option<string>,
    length: int,
    rc3: bool,
    rc3Log: bool,
    rc3LogTime: bool,
    verbose: bool)

  /** The values every variable has before the first option is read. */
  const DEFAULTS: Settings :=
    Settings(false, false, 0, None, 0, false, false, false, false)

  /** The conversion of atoi's int to uint16_t: reduction modulo 2^16. */
  function ToPort(n: int): (p: Port16)
    ensures p == n || n < 0 || n >= PORT_RANGE
    ensures (p - n) % PORT_RANGE == 0
  {
    n % PORT_RANGE
  }

  /** Progress of the option loop: still reading, or stopped by the default
      branch (usage printed, exit failure). */
  datatype Parse = Reading(settings: Settings) | Aborted

  /** The effect of one switch case on the settings. */
  function Apply(s: Settings, o: Opt): (p: Parse)
    ensures p.Aborted? <==> o.Unknown?
  {
    match o
    case ServerFlag => Reading(s.(server := true))
    case ClientFlag => Reading(s.(client := true))
    case Port(n) => Reading(s.(port := ToPort(n)))
    case Address(a) => Reading(s.(address := Some(a)))
    case Length(n) => Reading(s.(length := n))
    case Rc3Flag => Reading(s.(rc3 := true))
    case Rc3LogFlag => Reading(s.(rc3Log := true))
    case Rc3LogTimeFlag => Reading(s.(rc3LogTime := true))
    case VerboseFlag => Reading(s.(verbose := true))
    case Unknown => Aborted
  }

  /** The state after getopt has delivered `opts`, in order. */
  function Accumulate(opts: seq<Opt>): (p: Parse)
    ensures p.Aborted? <==> !AllRecognised(opts)
    decreases |opts|
  {
    if opts == [] then Reading(DEFAULTS)
    else
      var init, last := opts[..|opts| - 1], opts[|opts| - 1];
      assert AllRecognised(opts) <==> AllRecognised(init) && !last.Unknown? by {
        if AllRecognised(init) && !last.Unknown? {
          forall i | 0 <= i < |opts| ensures !opts[i].Unknown? {
            if i < |init| {
              assert opts[i] == init[i];
            }
          }
        }
      }
      match Accumulate(init)
      case Aborted => Aborted
      case Reading(s) => Apply(s, last)
  }

  /** What main does once the option loop is over. */
  datatype Verdict =
    | UsageError                  // unrecognised option: usage, exit failure
    | BothModes                   // "[ERROR] Can't be server AND client."
    | MissingPort                 // "[ERROR] Must set a port."
    | MissingLength               // "[ERROR] Need length!"
    | Serve(port: Port16, length: int)
    | Connect(address: Option<string>, port: Port16, length: int)
    | NoMode                      // "[ERROR] must be client or server."

  /** The checks of main after the option loop, in the order they run. */
  function Decide(s: Settings): (v: Verdict)
    ensures v == BothModes <==> s.server && s.client
    ensures v == MissingPort <==> !(s.server && s.client) && s.port == 0
    ensures v == MissingLength <==>
      !(s.server && s.client) && s.port != 0 && s.length == 0
    ensures v.Serve? <==>
      s.server && !s.client && s.port != 0 && s.length != 0
    ensures v.Connect? <==>
      s.client && !s.server && s.port != 0 && s.length != 0
    ensures v == NoMode <==>
      !s.server && !s.client && s.port != 0 && s.length != 0
    ensures v.Serve? ==> v.port == s.port && v.length == s.length
    ensures v.Connect? ==>
      v.address == s.address && v.port == s.port && v.length == s.length
    ensures v != UsageError
  {
    if s.server && s.client then BothModes
    else if s.port == 0 then MissingPort
    else if s.length == 0 then MissingLength
    else if s.server then Serve(s.port, s.length)
    else if s.client then Connect(s.address, s.port, s.length)
    else NoMode
  }

  /** The verdict main reaches for a given option list. */
  function Outcome(opts: seq<Opt>): (v: Verdict)
    ensures v == UsageError <==> !AllRecognised(opts)
    ensures AllRecognised(opts) ==> v == Decide(Accumulate(opts).settings)
  {
    match Accumulate(opts)
    case Aborted => UsageError
    case Reading(s) => Decide(s)
  }

  /** main up to the call of do_server or do_client: the getopt loop
      mutating its variables, then the early exits. */
  method Run(opts: seq<Opt>) returns (v: Verdict)
    ensures v == Outcome(opts)
  {
    var server, client := false, false;
    var port: Port16 := 0;
    var address: Option<string> := None;
    var length := 0;
    var rc3, rc3Log, rc3LogTime, verbose := false, false, false, false;
    var i := 0;
    while i < |opts|
      invariant 0 <= i <= |opts|
      invariant Accumulate(opts[..i]) == Reading(Settings(server, client,
        port, address, length, rc3, rc3Log, rc3LogTime, verbose))
    {
      AccumulateStep(opts, i);
      match opts[i] {
        case ServerFlag => server := true;
        case ClientFlag => client := true;
        case Port(n) => port := ToPort(n);
        case Address(a) => address := Some(a);
        case Length(n) => length := n;
        case Rc3Flag => rc3 := true;
        case Rc3LogFlag => rc3Log := true;
        case Rc3LogTimeFlag => rc3LogTime := true;
        case VerboseFlag => verbose := true;
        case Unknown =>
          AbortedStaysAborted(opts[..i + 1], opts[i + 1..]);
          assert opts[..i + 1] + opts[i + 1..] == opts;
          return UsageError;
      }
      i := i + 1;
    }
    assert opts[..i] == opts;
    if server && client {
      return BothModes;
    }
    if port == 0 {
      return MissingPort;
    }
    if length == 0 {
      return MissingLength;
    }
    if server {
      return Serve(port, length);
    }
    if client {
      return Connect(address, port, length);
    }
    return NoMode;
  }

  /** The loop's state after one more option. */
  lemma AccumulateStep(opts: seq<Opt>, i: int)
    requires 0 <= i < |opts|
    ensures Accumulate(opts[..i + 1]) ==
      match Accumulate(opts[..i])
      case Aborted => Aborted
      case Reading(s) => Apply(s, opts[i])
  {
    assert opts[..i + 1][..i] == opts[..i];
  }

  /** Once the default branch has fired, later options change nothing. */
  lemma {:induction false} AbortedStaysAborted(pre: seq<Opt>, post: seq<Opt>)
    requires Accumulate(pre) == Aborted
    ensures Accumulate(pre + post) == Aborted
    decreases |post|
  {
    if post == [] {
      assert pre + post == pre;
    } else {
      var init := post[..|post| - 1];
      AbortedStaysAborted(pre, init);
      assert (pre + post)[..|pre + post| - 1] == pre + init;
    }
  }

  /** No option is getopt's '?'. */
  predicate AllRecognised(opts: seq<Opt>)
  {
    forall i :: 0 <= i < |opts| ==> !opts[i].Unknown?
  }

  /** No -p option. */
  predicate NoPortOption(opts: seq<Opt>)
  {
    forall i :: 0 <= i < |opts| ==> !opts[i].Port?
  }

  /** No -g option. */
  predicate NoLengthOption(opts: seq<Opt>)
  {
    forall i :: 0 <= i < |opts| ==> !opts[i].Length?
  }

  /** One recognised option keeps the loop reading, keeps the flags set and
      changes the port or the length only if it is -p or -g. */
  lemma ApplyKeeps(s: Settings, o: Opt)
    requires !o.Unknown?
    ensures Apply(s, o).Reading?
    ensures var b := Apply(s, o).settings;
      && (s.server ==> b.server)
      && (s.client ==> b.client)
      && (!o.Port? ==> b.port == s.port)
      && (!o.Length? ==> b.length == s.length)
  {
  }

  /** Options that do not abort keep the loop reading; a flag once set stays
      set, and a field no later option writes keeps its value. */
  lemma {:induction false} LaterOptionsKeep(pre: seq<Opt>, post: seq<Opt>)
    requires Accumulate(pre).Reading?
    requires AllRecognised(post)
    ensures Accumulate(pre + post).Reading?
    ensures var a, b := Accumulate(pre).settings, Accumulate(pre + post).settings;
      && (a.server ==> b.server)
      && (a.client ==> b.client)
      && (NoPortOption(post) ==> b.port == a.port)
      && (NoLengthOption(post) ==> b.length == a.length)
    decreases |post|
  {
    if post == [] {
      assert pre + post == pre;
    } else {
      var init, last := post[..|post| - 1], post[|post| - 1];
      assert AllRecognised(init) && !last.Unknown?;
      LaterOptionsKeep(pre, init);
      assert (pre + post)[..|pre + post| - 1] == pre + init;
      assert (pre + post)[|pre + post| - 1] == last;
      ApplyKeeps(Accumulate(pre + init).settings, last);
      assert NoPortOption(post) ==> NoPortOption(init) && !last.Port?;
      assert NoLengthOption(post) ==> NoLengthOption(init) && !last.Length?;
    }
  }

  /** An option list without '?' never hits the default branch. */
  lemma NoUnknownKeepsReading(opts: seq<Opt>)
    requires AllRecognised(opts)
    ensures Accumulate(opts).Reading?
  {
    LaterOptionsKeep([], opts);
    assert [] + opts == opts;
  }

  /** An unrecognised option anywhere makes main print usage and exit with
      failure, whatever came before or after it. */
  lemma {:induction false} UnknownOptionIsUsageError(opts: seq<Opt>, k: nat)
    requires k < |opts| && opts[k] == Unknown
    ensures Outcome(opts) == UsageError
  {
    var pre := opts[..k + 1];
    assert pre[..|pre| - 1] == opts[..k];
    assert Accumulate(pre) == Aborted;
    AbortedStaysAborted(pre, opts[k + 1..]);
    assert pre + opts[k + 1..] == opts;
  }

  /** Repeated -p options overwrite each other: the last one decides the
      port, reduced to 16 bits. */
  lemma LastPortWins(pre: seq<Opt>, n: int, post: seq<Opt>)
    requires AllRecognised(pre) && AllRecognised(post)
    requires NoPortOption(post)
    ensures Accumulate(pre + [Port(n)] + post).Reading?
    ensures Accumulate(pre + [Port(n)] + post).settings.port == ToPort(n)
  {
    NoUnknownKeepsReading(pre);
    assert (pre + [Port(n)])[..|pre|] == pre;
    LaterOptionsKeep(pre + [Port(n)], post);
  }

  /** Repeated -g options overwrite each other: the last one decides the
      flow length. */
  lemma LastLengthWins(pre: seq<Opt>, n: int, post: seq<Opt>)
    requires AllRecognised(pre) && AllRecognised(post)
    requires NoLengthOption(post)
    ensures Accumulate(pre + [Length(n)] + post).Reading?
    ensures Accumulate(pre + [Length(n)] + post).settings.length == n
  {
    NoUnknownKeepsReading(pre);
    assert (pre + [Length(n)])[..|pre|] == pre;
    LaterOptionsKeep(pre + [Length(n)], post);
  }

  /** Giving both -s and -c is rejected before port or length are looked
      at: the verdict is BothModes whatever -p and -g say. */
  lemma BothModesRejectedFirst(opts: seq<Opt>, i: nat, j: nat)
    requires AllRecognised(opts)
    requires i < |opts| && opts[i] == ServerFlag
    requires j < |opts| && opts[j] == ClientFlag
    ensures Outcome(opts) == BothModes
  {
    ModeFlagsExact(opts);
    assert opts[i] in opts && opts[j] in opts;
  }

  /** With one mode chosen, a missing port is reported before a missing
      length, and a missing length before anything else. */
  lemma PortCheckedBeforeLength(s: Settings)
    requires s.server != s.client
    ensures s.port == 0 ==> Decide(s) == MissingPort
    ensures s.port != 0 && s.length == 0 ==> Decide(s) == MissingLength
    ensures s.port != 0 && s.length != 0 ==> Decide(s).Serve? || Decide(s).Connect?
  {
  }

  /** After a list without '?', server mode is set exactly when -s occurs
      in it, and client mode exactly when -c does. */
  lemma {:induction false} ModeFlagsExact(opts: seq<Opt>)
    requires AllRecognised(opts)
    ensures Accumulate(opts).Reading?
    ensures Accumulate(opts).settings.server <==> ServerFlag in opts
    ensures Accumulate(opts).settings.client <==> ClientFlag in opts
    decreases |opts|
  {
    if opts != [] {
      var init, last := opts[..|opts| - 1], opts[|opts| - 1];
      assert AllRecognised(init);
      ModeFlagsExact(init);
      assert opts == init + [last];
      assert ServerFlag in opts <==> ServerFlag in init || last == ServerFlag;
      assert ClientFlag in opts <==> ClientFlag in init || last == ClientFlag;
    }
  }

  /** A -p value that is a multiple of 2^16 wraps to port 0: when it is the
      last -p and not both modes are given, main reports a missing port. */
  lemma PortWrapsToZero(pre: seq<Opt>, n: int, post: seq<Opt>)
    requires AllRecognised(pre) && AllRecognised(post) && NoPortOption(post)
    requires n % PORT_RANGE == 0
    requires !(ServerFlag in pre + [Port(n)] + post && ClientFlag in pre + [Port(n)] + post)
    ensures Outcome(pre + [Port(n)] + post) == MissingPort
  {
    var opts := pre + [Port(n)] + post;
    LastPortWins(pre, n, post);
    ModeFlagsExact(opts);
  }

  // ---------------------------------------------------------------------
  // Exit statuses

  const EXIT_FAILURE: int := 1

  /** How main leaves after the checks: with an exit status, or by going on
      into do_server / do_client. */
  datatype Exit = Exits(status: int) | Continues

  /** main as written: the four early exits call exit(EXIT_FAILURE); the
      "must be client or server" path falls off the end of main, which
      returns 0. */
  function ExitAfterChecks(v: Verdict): (e: Exit)
    ensures e.Continues? <==> v.Serve? || v.Connect?
    ensures v in {UsageError, BothModes, MissingPort, MissingLength} ==>
      e == Exits(EXIT_FAILURE)
    ensures v == NoMode ==> e == Exits(0)
  {
    match v
    case Serve(_, _) => Continues
    case Connect(_, _, _) => Continues
    case NoMode => Exits(0)
    case _ => Exits(EXIT_FAILURE)
  }

  /** The no-mode error reports "[ERROR] must be client or server." and prints
      usage, yet the process exits with status 0. */
  lemma NoModeExitsWithSuccess()
    ensures Outcome([Port(5001), Length(1460)]) == NoMode
    ensures ExitAfterChecks(Outcome([Port(5001), Length(1460)])) == Exits(0)
  {
    var opts := [Port(5001), Length(1460)];
    assert opts[..1] == [Port(5001)];
    assert [Port(5001)][..0] == [];
  }

  /** main as evidently intended: every path that reports an error exits
      with EXIT_FAILURE. */
  function IntendedExitAfterChecks(v: Verdict): (e: Exit)
    ensures e.Continues? <==> v.Serve? || v.Connect?
    ensures e.Exits? ==> e.status == EXIT_FAILURE
  {
    if v.Serve? || v.Connect? then Continues else Exits(EXIT_FAILURE)
  }

  /** The two exit policies differ exactly on the no-mode path. */
  lemma IntendedDiffersOnlyOnNoMode(v: Verdict)
    ensures IntendedExitAfterChecks(v) != ExitAfterChecks(v) <==> v == NoMode
  {
  }

  // ---------------------------------------------------------------------
  // Negative flow lengths

  /** `if (!length)` rejects only zero: a negative -g value passes all the
      checks and reaches server mode. */
  lemma NegativeLengthAccepted(n: int)
    requires n < 0
    ensures Outcome([ServerFlag, Port(5001), Length(n)]) == Serve(5001, n)
  {
    var opts := [ServerFlag, Port(5001), Length(n)];
    assert [ServerFlag][..0] == [];
    assert Accumulate([ServerFlag]) == Reading(DEFAULTS.(server := true));
    assert opts[..2][..1] == [ServerFlag];
    assert Accumulate(opts[..2]) == Reading(DEFAULTS.(server := true, port := 5001));
  }

  /** The checks as evidently intended: a flow length must be positive
      ("Length, in bytes, of flow"), so zero and negative lengths are both
      reported as a missing length. */
  function IntendedDecide(s: Settings): (v: Verdict)
    ensures v.Serve? || v.Connect? ==> v.length > 0 && v.port != 0
    ensures v == MissingLength <==>
      !(s.server && s.client) && s.port != 0 && s.length <= 0
    ensures s.length > 0 ==> v == Decide(s)
  {
    if s.server && s.client then BothModes
    else if s.port == 0 then MissingPort
    else if s.length <= 0 then MissingLength
    else if s.server then Serve(s.port, s.length)
    else if s.client then Connect(s.address, s.port, s.length)
    else NoMode
  }
}
