/**
 * The client's connection-attempt loop (`ClientConnector.Connect`), a
 * reconstruction of the connect logic of the framework's named-pipe client.
 *
 * The operating system is a scripted environment: each call to
 * `WaitNamedPipe` takes the next reply from `waits`, each `CreateFile` the
 * next from `opens`, and each read of `Environment.TickCount` the next value
 * from `ticks`. When a sequence runs out the model stops with
 * `ScriptExhausted`, an outcome the real program never has. Every call the
 * loop makes is recorded, with its arguments and its reply, in a trace.
 */
module ClientConnector {
  import opened Int32
  import opened Wrappers

  const INFINITE: Int32 := -1                 // Timeout.Infinite
  const ERROR_SUCCESS: Int32 := 0x0
  const ERROR_FILE_NOT_FOUND: Int32 := 0x2
  const ERROR_SEM_TIMEOUT: Int32 := 0x79      // 121
  const ERROR_PIPE_BUSY: Int32 := 0xE7        // 231

  const SECURITY_SQOS_PRESENT: bv32 := 0x0010_0000
  /** The two bits that carry the SECURITY_* impersonation level. */
  const IMPERSONATION_FIELD: bv32 := 0x0003_0000
  const GENERIC_READ: bv32 := 0x8000_0000
  const GENERIC_WRITE: bv32 := 0x4000_0000

  /** Values of the framework's PipeOptions flags. */
  const PIPE_OPTIONS_NONE: bv32 := 0
  const PIPE_OPTIONS_CURRENT_USER_ONLY: bv32 := 0x2000_0000
  const PIPE_OPTIONS_ASYNCHRONOUS: bv32 := 0x4000_0000
  const PIPE_OPTIONS_WRITE_THROUGH: bv32 := 0x8000_0000

  /** HandleInheritability. */
  datatype Inheritability = NoInheritance | Inheritable

  /** TokenImpersonationLevel, in declaration order (values 0 to 4). */
  datatype ImpersonationLevel = NoImpersonation | Anonymous | Identification | Impersonation | Delegation

  function LevelValue(level: ImpersonationLevel): (v: nat)
    ensures v <= 4
    ensures (v == 0) <==> level == NoImpersonation
  {
    match level
    case NoImpersonation => 0
    case Anonymous => 1
    case Identification => 2
    case Impersonation => 3
    case Delegation => 4
  }

  /** The connector's fields; they are initialised once and never assigned again. */
  datatype Config = Config(
    inheritability: Inheritability,
    pipeOptions: bv32,
    impersonation: ImpersonationLevel,
    serverName: string,
    pipeName: string)

  const DEFAULT_CONFIG: Config :=
    Config(NoInheritance, PIPE_OPTIONS_ASYNCHRONOUS, NoImpersonation, ".", "Test Pipe")

  /** SECURITY_ATTRIBUTES as filled in by PipeStream_GetSecAttrs; `None` is `null`. */
  datatype SecurityAttributes = SecurityAttributes(nLength: int, inheritHandle: int)

  /**
   * PipeStream_GetSecAttrs: no structure at all unless the handle is to be
   * inheritable. `structSize` is what `Marshal.SizeOf` reports.
   */
  function GetSecAttrs(inheritability: Inheritability, structSize: nat): (r: Option<SecurityAttributes>)
    ensures r.Some? <==> inheritability == Inheritable
    ensures r.Some? ==> r.value.inheritHandle == 1 && r.value.nLength == structSize
  {
    if inheritability == Inheritable then Some(SecurityAttributes(structSize, 1)) else None
  }

  /** `(int)level - 1` as a 32-bit value, for a level other than `None`. */
  function LevelField(level: ImpersonationLevel): (f: bv32)
    requires level != NoImpersonation
    ensures f as int == LevelValue(level) - 1
  {
    match level
    case Anonymous => 0
    case Identification => 1
    case Impersonation => 2
    case Delegation => 3
  }

  /** The impersonation bits of the CreateFile flags: SECURITY_SQOS_PRESENT and `(level - 1) << 16`. */
  function ImpersonationBits(level: ImpersonationLevel): bv32 {
    if level == NoImpersonation then 0
    else SECURITY_SQOS_PRESENT | (LevelField(level) << 16)
  }

  /** The `dwFlagsAndAttributes` that Connect hands to CreateFile. */
  function PipeFlags(options: bv32, level: ImpersonationLevel): bv32 {
    options | ImpersonationBits(level)
  }

  /** Reads the impersonation level back out of CreateFile flags. */
  function DecodeImpersonation(flags: bv32): ImpersonationLevel {
    if flags & SECURITY_SQOS_PRESENT == 0 then NoImpersonation
    else
      var field := (flags & IMPERSONATION_FIELD) >> 16;
      if field == 0 then Anonymous
      else if field == 1 then Identification
      else if field == 2 then Impersonation
      else Delegation
  }

  lemma OrAssociates(a: bv32, b: bv32, c: bv32)
    ensures (a | b) | c == a | (b | c)
  {
  }

  /** Or-ing in bits of the impersonation mask keeps the options and adds nothing else. */
  lemma OrImpersonationBits(options: bv32, bits: bv32, flags: bv32)
    requires flags == options | bits
    requires bits & !(SECURITY_SQOS_PRESENT | IMPERSONATION_FIELD) == 0
    ensures flags & options == options
    ensures flags & !(options | SECURITY_SQOS_PRESENT | IMPERSONATION_FIELD) == 0
  {
  }

  /** Options that leave the impersonation mask clear do not disturb the decoding. */
  lemma DecodeIgnoresOptions(options: bv32, bits: bv32, flags: bv32)
    requires flags == options | bits
    requires options & (SECURITY_SQOS_PRESENT | IMPERSONATION_FIELD) == 0
    ensures DecodeImpersonation(flags) == DecodeImpersonation(bits)
  {
    assert flags & SECURITY_SQOS_PRESENT == bits & SECURITY_SQOS_PRESENT;
    assert flags & IMPERSONATION_FIELD == bits & IMPERSONATION_FIELD;
  }

  /**
   * The impersonation bits lie within the impersonation mask, are zero
   * exactly for `None`, carry SECURITY_SQOS_PRESENT otherwise, and decode
   * back to the level.
   */
  lemma ImpersonationBitsFacts(level: ImpersonationLevel)
    ensures ImpersonationBits(level) & !(SECURITY_SQOS_PRESENT | IMPERSONATION_FIELD) == 0
    ensures level == NoImpersonation ==> ImpersonationBits(level) == 0
    ensures level != NoImpersonation ==> ImpersonationBits(level) & SECURITY_SQOS_PRESENT != 0
    ensures DecodeImpersonation(ImpersonationBits(level)) == level
  {
    match level {
      case NoImpersonation =>
      case Anonymous => assert ImpersonationBits(level) == 0x0010_0000;
      case Identification => assert ImpersonationBits(level) == 0x0011_0000;
      case Impersonation => assert ImpersonationBits(level) == 0x0012_0000;
      case Delegation => assert ImpersonationBits(level) == 0x0013_0000;
    }
  }

  /**
   * The flags keep every option bit, set nothing beyond the option bits and
   * the impersonation bits, equal the options alone when there is no
   * impersonation and carry SECURITY_SQOS_PRESENT otherwise.
   */
  lemma PipeFlagsKeepOptions(options: bv32, level: ImpersonationLevel)
    ensures PipeFlags(options, level) & options == options
    ensures PipeFlags(options, level) & !(options | SECURITY_SQOS_PRESENT | IMPERSONATION_FIELD) == 0
    ensures level == NoImpersonation ==> PipeFlags(options, level) == options
    ensures level != NoImpersonation ==> PipeFlags(options, level) & SECURITY_SQOS_PRESENT != 0
  {
    ImpersonationBitsFacts(level);
    OrImpersonationBits(options, ImpersonationBits(level), PipeFlags(options, level));
  }

  /**
   * Every PipeOptions value, a combination of the flags above, leaves the
   * impersonation bits clear.
   */
  lemma PipeOptionsLeaveImpersonationClear(options: bv32)
    requires options & !(PIPE_OPTIONS_NONE | PIPE_OPTIONS_CURRENT_USER_ONLY | PIPE_OPTIONS_ASYNCHRONOUS | PIPE_OPTIONS_WRITE_THROUGH) == 0
    ensures options & (SECURITY_SQOS_PRESENT | IMPERSONATION_FIELD) == 0
  {
  }

  /**
   * For options that leave the impersonation bits clear (every PipeOptions
   * value does), the flags decode back to the impersonation level.
   */
  lemma PipeFlagsRoundTrip(options: bv32, level: ImpersonationLevel)
    requires options & (SECURITY_SQOS_PRESENT | IMPERSONATION_FIELD) == 0
    ensures DecodeImpersonation(PipeFlags(options, level)) == level
  {
    ImpersonationBitsFacts(level);
    DecodeIgnoresOptions(options, ImpersonationBits(level), PipeFlags(options, level));
  }

  /** `@"\\" + serverName + @"\pipe\" + pipeName`. */
  function PipePath(serverName: string, pipeName: string): string {
    "\\\\" + serverName + "\\pipe\\" + pipeName
  }

  /** The first position of `c` in `s`. */
  function IndexOf(s: string, c: char): (r: Option<nat>)
    ensures r.None? ==> c !in s
    ensures r.Some? ==> r.value < |s| && s[r.value] == c && c !in s[..r.value]
  {
    if |s| == 0 then None
    else if s[0] == c then Some(0)
    else
      match IndexOf(s[1..], c)
      case None => None
      case Some(i) => assert s[..i + 1] == [s[0]] + s[1..][..i]; Some(i + 1)
  }

  /** Splits a `\\server\pipe\name` path into its server and pipe names. */
  function ParsePipePath(path: string): Option<(string, string)> {
    if |path| < 2 || path[..2] != "\\\\" then None
    else
      var rest := path[2..];
      match IndexOf(rest, '\\')
      case None => None
      case Some(i) =>
        var tail := rest[i + 1..];
        if |tail| < 5 || tail[..5] != "pipe\\" then None
        else Some((rest[..i], tail[5..]))
  }

  /**
   * The pipe path determines the server and pipe names it was built from
   * whenever the server name holds no backslash, so client and server agree
   * on the endpoint exactly when they agree on both names.
   */
  lemma {:induction false} PipePathRoundTrip(serverName: string, pipeName: string)
    requires '\\' !in serverName
    ensures ParsePipePath(PipePath(serverName, pipeName)) == Some((serverName, pipeName))
  {
    var path := PipePath(serverName, pipeName);
    var rest := path[2..];
    assert rest == serverName + "\\pipe\\" + pipeName;
    assert rest[|serverName|] == '\\';
    assert rest[..|serverName|] == serverName;
    var i := IndexOf(rest, '\\');
    assert i == Some(|serverName|);
    assert rest[|serverName| + 1..] == "pipe\\" + pipeName;
  }

  /** What WaitNamedPipe reports: success, or failure with `GetLastWin32Error()`. */
  datatype WaitReply = WaitSucceeded | WaitFailed(code: Int32)

  /** What CreateFile returns: a valid handle, or an invalid one with `GetLastWin32Error()`. */
  datatype OpenReply = HandleValid | HandleInvalid(code: Int32)

  /** The arguments Connect passes to CreateFile (share mode none, open existing, no template). */
  datatype OpenRequest = OpenRequest(path: string, access: bv32, flags: bv32, secAttrs: Option<SecurityAttributes>)

  /** One call into the operating system, with its arguments and its reply. */
  datatype Event =
    | Wait(path: string, timeout: Int32, waitReply: WaitReply)
    | Open(request: OpenRequest, openReply: OpenReply)
    | Tick(count: Int32)

  /** The scripted operating system. `attributesSize` is what `Marshal.SizeOf` reports. */
  datatype Script = Script(waits: seq<WaitReply>, opens: seq<OpenReply>, ticks: seq<Int32>, attributesSize: nat)

  /** How Connect ends: it returns, or throws one of three exceptions. */
  datatype Outcome =
    | Connected
    | TimedOut                 // TimeoutException
    | ArgOutOfRange            // ArgumentOutOfRangeException("timeout")
    | Win32Error(code: Int32)  // Exception("Win32 error " + code)
    | ScriptExhausted          // the script ran out of replies

  datatype Attempt = Attempt(outcome: Outcome, trace: seq<Event>)

  /** What stays fixed during the loop: the timeout, the start tick and the call arguments. */
  datatype Call = Call(timeout: Int32, start: Int32, path: string, request: OpenRequest)

  function CallOf(config: Config, timeout: Int32, script: Script, start: Int32): Call {
    var path := PipePath(config.serverName, config.pipeName);
    Call(timeout, start, path,
         OpenRequest(path, GENERIC_READ | GENERIC_WRITE,
                     PipeFlags(config.pipeOptions, config.impersonation),
                     GetSecAttrs(config.inheritability, script.attributesSize)))
  }

  /**
   * What a single call decides on its own: `None` for the three retry
   * conditions (no pipe yet, a wait success to be followed by an open, a busy
   * pipe) and for a tick still within budget, otherwise the outcome.
   */
  function Verdict(c: Call, e: Event): Option<Outcome> {
    match e
    case Wait(_, _, WaitSucceeded) => None
    case Wait(_, _, WaitFailed(code)) =>
      if code == ERROR_FILE_NOT_FOUND then None
      else if code == ERROR_SUCCESS then Some(TimedOut)
      else Some(Win32Error(code))
    case Open(_, HandleValid) => Some(Connected)
    case Open(_, HandleInvalid(code)) =>
      if code == ERROR_PIPE_BUSY then None else Some(Win32Error(code))
    case Tick(count) =>
      if c.timeout != INFINITE && WrapSub(count, c.start) >= c.timeout then Some(TimedOut) else None
  }

  /** The calls after which the loop goes to its condition: no pipe yet, or pipe busy. */
  predicate Retry(e: Event) {
    || (e.Wait? && e.waitReply == WaitFailed(ERROR_FILE_NOT_FOUND))
    || (e.Open? && e.openReply == HandleInvalid(ERROR_PIPE_BUSY))
  }

  /**
   * `e` may come right after `prev`: a wait follows a tick (under a finite
   * timeout, with the remaining budget as argument) or, under an infinite
   * timeout, the start tick or a retry, always with argument -1; an open
   * follows a successful wait; the clock is read only after a retry and only
   * under a finite timeout.
   */
  ghost predicate Follows(c: Call, prev: Event, e: Event) {
    match e
    case Wait(path, arg, _) =>
      && path == c.path
      && if c.timeout == INFINITE then arg == INFINITE && (prev == Tick(c.start) || Retry(prev))
         else prev.Tick? && arg == WrapSub(c.timeout, WrapSub(prev.count, c.start))
    case Open(request, _) =>
      request == c.request && prev.Wait? && prev.waitReply == WaitSucceeded
    case Tick(_) =>
      c.timeout != INFINITE && Retry(prev)
  }

  /** The call at position `k` of `trace` may follow the one before it. */
  ghost predicate FollowsAt(c: Call, trace: seq<Event>, k: nat) {
    0 < k < |trace| && Follows(c, trace[k - 1], trace[k])
  }

  /**
   * `r` continues the calls `acc` already made: every new call may follow
   * the one before it, every tick comes from `ticks`, all new calls but the
   * last are retries or within budget, the last one decides the outcome, and
   * only a run of the script out of replies can end without a deciding call.
   */
  ghost predicate Extends(c: Call, ticks: seq<Int32>, acc: seq<Event>, r: Attempt) {
    && |acc| <= |r.trace| && r.trace[..|acc|] == acc
    && r.outcome != ArgOutOfRange
    && (r.outcome != ScriptExhausted ==> |acc| < |r.trace|)
    && (forall k | |acc| <= k < |r.trace| ::
          Verdict(c, r.trace[k]) == if k == |r.trace| - 1 && r.outcome != ScriptExhausted then Some(r.outcome) else None)
    && (forall k | |acc| <= k < |r.trace| :: FollowsAt(c, r.trace, k))
    && (forall k | |acc| <= k < |r.trace| && r.trace[k].Tick? :: r.trace[k].count in ticks)
  }

  /** The state in which an iteration of the loop starts. */
  ghost predicate AtIteration(c: Call, elapsed: Int32, acc: seq<Event>) {
    && 0 < |acc|
    && (c.timeout == INFINITE ==> elapsed == 0 && (acc[|acc| - 1] == Tick(c.start) || Retry(acc[|acc| - 1])))
    && (c.timeout != INFINITE ==> acc[|acc| - 1].Tick? && elapsed == WrapSub(acc[|acc| - 1].count, c.start))
  }

  /** One iteration of the do/while body, from the call to WaitNamedPipe. */
  function Loop(c: Call, elapsed: Int32, waits: seq<WaitReply>, opens: seq<OpenReply>, ticks: seq<Int32>, acc: seq<Event>): (r: Attempt)
    requires AtIteration(c, elapsed, acc)
    decreases |waits|, 0
  {
    if |waits| == 0 then Attempt(ScriptExhausted, acc)
    else
      var acc1 := acc + [Wait(c.path, WrapSub(c.timeout, elapsed), waits[0])];
      match waits[0]
      case WaitFailed(code) =>
        if code == ERROR_FILE_NOT_FOUND then Condition(c, elapsed, waits[1..], opens, ticks, acc1)
        else if code == ERROR_SUCCESS then Attempt(TimedOut, acc1)
        else Attempt(Win32Error(code), acc1)
      case WaitSucceeded =>
        if |opens| == 0 then Attempt(ScriptExhausted, acc1)
        else
          var acc2 := acc1 + [Open(c.request, opens[0])];
          match opens[0]
          case HandleValid => Attempt(Connected, acc2)
          case HandleInvalid(code) =>
            if code == ERROR_PIPE_BUSY then Condition(c, elapsed, waits[1..], opens[1..], ticks, acc2)
            else Attempt(Win32Error(code), acc2)
  }

  /**
   * The loop condition `timeout == Timeout.Infinite || (elapsed =
   * unchecked(TickCount - startTime)) < timeout`, reached from a `continue`.
   */
  function Condition(c: Call, elapsed: Int32, waits: seq<WaitReply>, opens: seq<OpenReply>, ticks: seq<Int32>, acc: seq<Event>): (r: Attempt)
    requires 0 < |acc| && Retry(acc[|acc| - 1])
    requires c.timeout == INFINITE ==> elapsed == 0
    decreases |waits|, 1
  {
    if c.timeout == INFINITE then Loop(c, elapsed, waits, opens, ticks, acc)
    else if |ticks| == 0 then Attempt(ScriptExhausted, acc)
    else
      var now := WrapSub(ticks[0], c.start);
      var acc1 := acc + [Tick(ticks[0])];
      if now < c.timeout then Loop(c, now, waits, opens, ticks[1..], acc1)
      else Attempt(TimedOut, acc1)
  }

  /** The whole of Connect: the argument check, the start tick, then the loop. */
  function Run(config: Config, timeout: Int32, script: Script): Attempt {
    if timeout < 0 && timeout != INFINITE then Attempt(ArgOutOfRange, [])
    else if |script.ticks| == 0 then Attempt(ScriptExhausted, [])
    else
      var start := script.ticks[0];
      Loop(CallOf(config, timeout, script, start), 0, script.waits, script.opens, script.ticks[1..], [Tick(start)])
  }

  /** A run of the script out of replies, with no new calls, continues any trace. */
  lemma ExtendsByNothing(c: Call, ticks: seq<Int32>, acc: seq<Event>)
    ensures Extends(c, ticks, acc, Attempt(ScriptExhausted, acc))
  {
    assert acc[..|acc|] == acc;
  }

  /** One deciding call ends the trace with its verdict. */
  lemma ExtendsByLast(c: Call, ticks: seq<Int32>, acc: seq<Event>, e: Event, o: Outcome)
    requires 0 < |acc| && Follows(c, acc[|acc| - 1], e)
    requires Verdict(c, e) == Some(o) && o != ScriptExhausted && o != ArgOutOfRange
    requires e.Tick? ==> e.count in ticks
    ensures Extends(c, ticks, acc, Attempt(o, acc + [e]))
  {
    var tr := acc + [e];
    assert tr[..|acc|] == acc;
    assert tr[|acc|] == e;
    assert FollowsAt(c, tr, |acc|);
  }

  /** A retry in front of a trace that continues `acc + [e]` gives one that continues `acc`. */
  lemma ExtendsByRetry(c: Call, ticks': seq<Int32>, ticks: seq<Int32>, acc: seq<Event>, e: Event, r: Attempt)
    requires 0 < |acc| && Follows(c, acc[|acc| - 1], e) && Verdict(c, e).None?
    requires e.Tick? ==> e.count in ticks
    requires forall t | t in ticks' :: t in ticks
    requires Extends(c, ticks', acc + [e], r)
    ensures Extends(c, ticks, acc, r)
  {
    var n := |acc|;
    assert r.trace[..n + 1] == acc + [e];
    assert r.trace[..n] == (acc + [e])[..n] == acc;
    assert r.trace[n] == e;
    assert FollowsAt(c, r.trace, n);
  }

  lemma {:induction false} LoopExtends(c: Call, elapsed: Int32, waits: seq<WaitReply>, opens: seq<OpenReply>, ticks: seq<Int32>, acc: seq<Event>)
    requires AtIteration(c, elapsed, acc)
    ensures Extends(c, ticks, acc, Loop(c, elapsed, waits, opens, ticks, acc))
    decreases |waits|, 0
  {
    if |waits| == 0 {
      ExtendsByNothing(c, ticks, acc);
    } else {
      var w := Wait(c.path, WrapSub(c.timeout, elapsed), waits[0]);
      var acc1 := acc + [w];
      assert Follows(c, acc[|acc| - 1], w);
      match waits[0]
      case WaitFailed(code) =>
        if code == ERROR_FILE_NOT_FOUND {
          ConditionExtends(c, elapsed, waits[1..], opens, ticks, acc1);
          ExtendsByRetry(c, ticks, ticks, acc, w, Condition(c, elapsed, waits[1..], opens, ticks, acc1));
        } else if code == ERROR_SUCCESS {
          ExtendsByLast(c, ticks, acc, w, TimedOut);
        } else {
          ExtendsByLast(c, ticks, acc, w, Win32Error(code));
        }
      case WaitSucceeded =>
        if |opens| == 0 {
          ExtendsByNothing(c, ticks, acc1);
          ExtendsByRetry(c, ticks, ticks, acc, w, Attempt(ScriptExhausted, acc1));
        } else {
          var o := Open(c.request, opens[0]);
          var acc2 := acc1 + [o];
          assert Follows(c, acc1[|acc1| - 1], o);
          match opens[0]
          case HandleValid =>
            ExtendsByLast(c, ticks, acc1, o, Connected);
            ExtendsByRetry(c, ticks, ticks, acc, w, Attempt(Connected, acc2));
          case HandleInvalid(code) =>
            if code == ERROR_PIPE_BUSY {
              var r := Condition(c, elapsed, waits[1..], opens[1..], ticks, acc2);
              ConditionExtends(c, elapsed, waits[1..], opens[1..], ticks, acc2);
              ExtendsByRetry(c, ticks, ticks, acc1, o, r);
              ExtendsByRetry(c, ticks, ticks, acc, w, r);
            } else {
              ExtendsByLast(c, ticks, acc1, o, Win32Error(code));
              ExtendsByRetry(c, ticks, ticks, acc, w, Attempt(Win32Error(code), acc2));
            }
        }
    }
  }

  lemma {:induction false} ConditionExtends(c: Call, elapsed: Int32, waits: seq<WaitReply>, opens: seq<OpenReply>, ticks: seq<Int32>, acc: seq<Event>)
    requires 0 < |acc| && Retry(acc[|acc| - 1])
    requires c.timeout == INFINITE ==> elapsed == 0
    ensures Extends(c, ticks, acc, Condition(c, elapsed, waits, opens, ticks, acc))
    decreases |waits|, 1
  {
    if c.timeout == INFINITE {
      LoopExtends(c, elapsed, waits, opens, ticks, acc);
    } else if |ticks| == 0 {
      ExtendsByNothing(c, ticks, acc);
    } else {
      var now := WrapSub(ticks[0], c.start);
      var t := Tick(ticks[0]);
      assert Follows(c, acc[|acc| - 1], t);
      if now < c.timeout {
        LoopExtends(c, now, waits, opens, ticks[1..], acc + [t]);
        ExtendsByRetry(c, ticks[1..], ticks, acc, t, Loop(c, now, waits, opens, ticks[1..], acc + [t]));
      } else {
        ExtendsByLast(c, ticks, acc, t, TimedOut);
      }
    }
  }

  /**
   * What Connect promises: a negative timeout other than `Timeout.Infinite`
   * is refused before any call; otherwise the start tick is read first and
   * the remaining calls continue it as `Extends` says.
   */
  lemma RunShape(config: Config, timeout: Int32, script: Script)
    ensures (timeout < 0 && timeout != INFINITE) <==> Run(config, timeout, script).outcome == ArgOutOfRange
    ensures Run(config, timeout, script).outcome == ArgOutOfRange ==> Run(config, timeout, script).trace == []
    ensures !(timeout < 0 && timeout != INFINITE) && |script.ticks| == 0 ==>
      Run(config, timeout, script) == Attempt(ScriptExhausted, [])
    ensures !(timeout < 0 && timeout != INFINITE) && |script.ticks| > 0 ==>
      Extends(CallOf(config, timeout, script, script.ticks[0]), script.ticks[1..], [Tick(script.ticks[0])], Run(config, timeout, script))
  {
    if !(timeout < 0 && timeout != INFINITE) && |script.ticks| > 0 {
      var start := script.ticks[0];
      LoopExtends(CallOf(config, timeout, script, start), 0, script.waits, script.opens, script.ticks[1..], [Tick(start)]);
    }
  }

  /**
   * Which call ends a run, outcome by outcome: success only when a valid
   * handle comes straight after a successful wait; a timeout only when
   * WaitNamedPipe fails with ERROR_SUCCESS or, under a finite timeout, when
   * the clock reads at or past the budget; a Win32 error only from a wait
   * failure other than ERROR_FILE_NOT_FOUND and ERROR_SUCCESS, or from an
   * invalid handle other than ERROR_PIPE_BUSY, carrying that code.
   */
  lemma OutcomeCauses(config: Config, timeout: Int32, script: Script)
    ensures var r := Run(config, timeout, script);
      r.outcome == Connected ==>
        && 2 <= |r.trace|
        && r.trace[|r.trace| - 1].Open? && r.trace[|r.trace| - 1].openReply == HandleValid
        && r.trace[|r.trace| - 2].Wait? && r.trace[|r.trace| - 2].waitReply == WaitSucceeded
    ensures var r := Run(config, timeout, script);
      r.outcome == TimedOut ==>
        && 2 <= |r.trace|
        && var last := r.trace[|r.trace| - 1];
          || (last.Wait? && last.waitReply == WaitFailed(ERROR_SUCCESS))
          || (last.Tick? && timeout != INFINITE && WrapSub(last.count, script.ticks[0]) >= timeout)
    ensures var r := Run(config, timeout, script);
      r.outcome.Win32Error? ==>
        && 2 <= |r.trace|
        && var last := r.trace[|r.trace| - 1];
          || (last.Wait? && last.waitReply == WaitFailed(r.outcome.code)
              && r.outcome.code != ERROR_FILE_NOT_FOUND && r.outcome.code != ERROR_SUCCESS)
          || (last.Open? && last.openReply == HandleInvalid(r.outcome.code) && r.outcome.code != ERROR_PIPE_BUSY)
  {
    RunShape(config, timeout, script);
    var r := Run(config, timeout, script);
    if r.outcome != ArgOutOfRange && r.outcome != ScriptExhausted {
      var c := CallOf(config, timeout, script, script.ticks[0]);
      var k := |r.trace| - 1;
      assert Verdict(c, r.trace[k]) == Some(r.outcome);
      assert FollowsAt(c, r.trace, k);
    }
  }

  /**
   * Under `Timeout.Infinite`, every WaitNamedPipe call receives -1 and the
   * clock is read only once, at the start.
   */
  lemma InfiniteTimeoutCalls(config: Config, script: Script)
    requires |script.ticks| > 0
    ensures var r := Run(config, INFINITE, script);
      r.outcome == TimedOut ==>
        0 < |r.trace| && r.trace[|r.trace| - 1] == Wait(PipePath(config.serverName, config.pipeName), INFINITE, WaitFailed(ERROR_SUCCESS))
    ensures var r := Run(config, INFINITE, script);
      forall k | 0 <= k < |r.trace| :: (r.trace[k].Wait? ==> r.trace[k].timeout == INFINITE) && (r.trace[k].Tick? ==> k == 0)
  {
    RunShape(config, INFINITE, script);
    var c := CallOf(config, INFINITE, script, script.ticks[0]);
    var r := Run(config, INFINITE, script);
    forall k | 0 <= k < |r.trace|
      ensures (r.trace[k].Wait? ==> r.trace[k].timeout == INFINITE) && (r.trace[k].Tick? ==> k == 0)
    {
      if k > 0 {
        assert FollowsAt(c, r.trace, k);
      }
    }
    if r.outcome == TimedOut {
      var last := r.trace[|r.trace| - 1];
      assert Verdict(c, last) == Some(TimedOut);
      assert FollowsAt(c, r.trace, |r.trace| - 1);
    }
  }

  /**
   * Under a finite timeout, and with a tick counter that never reads below
   * its start value (modulo wrap-around), the first WaitNamedPipe call gets
   * the whole timeout and every later one gets `timeout - elapsed` for an
   * `elapsed` in `[0, timeout)`, hence a value in `[1, timeout]`.
   */
  lemma FiniteTimeoutWaitArguments(config: Config, timeout: Int32, script: Script)
    requires 0 <= timeout && |script.ticks| > 0
    requires forall i | 0 <= i < |script.ticks| :: WrapSub(script.ticks[i], script.ticks[0]) >= 0
    ensures var r := Run(config, timeout, script);
      forall k | 0 <= k < |r.trace| && r.trace[k].Wait? ::
        && 0 <= r.trace[k].timeout <= timeout
        && (k == 1 ==> r.trace[k].timeout == timeout)
        && (k > 1 ==> 1 <= r.trace[k].timeout)
  {
    RunShape(config, timeout, script);
    var start := script.ticks[0];
    var c := CallOf(config, timeout, script, start);
    var r := Run(config, timeout, script);
    assert r.trace[..1] == [Tick(start)];
    forall k | 0 <= k < |r.trace| && r.trace[k].Wait?
      ensures 0 <= r.trace[k].timeout <= timeout
      ensures k == 1 ==> r.trace[k].timeout == timeout
      ensures k > 1 ==> 1 <= r.trace[k].timeout
    {
      assert r.trace[0] == Tick(start);
      assert k > 0;
      assert FollowsAt(c, r.trace, k);
      var prev := r.trace[k - 1];
      var elapsed := WrapSub(prev.count, start);
      if k == 1 {
        assert elapsed == 0;
      } else {
        assert Verdict(c, prev) == None;
        assert prev.count in script.ticks[1..];
        var j :| 0 <= j < |script.ticks[1..]| && script.ticks[1..][j] == prev.count;
        assert script.ticks[j + 1] == prev.count;
        assert 0 <= elapsed < timeout;
      }
    }
  }

  /**
   * The limit of the wrap-around budget: `elapsed` is right only while the
   * clock stays within 2^31 ms of the start. With the default connector, a
   * timeout of `int.MaxValue`, no server, and clock readings 0, MAX - 1 and
   * MAX + 15 (which wraps to MIN + 14), the loop does not time out although
   * more than `timeout` ms have passed: the wrapped `elapsed` is negative, and
   * the next WaitNamedPipe receives -15, outside `[1, timeout]`.
   */
  lemma WrappedClockEscapesBudget()
    ensures var path := PipePath(DEFAULT_CONFIG.serverName, DEFAULT_CONFIG.pipeName);
      var notFound := WaitFailed(ERROR_FILE_NOT_FOUND);
      Run(DEFAULT_CONFIG, MAX, Script([notFound, notFound, notFound], [], [0, MAX - 1, MIN + 14], 0))
        == Attempt(ScriptExhausted,
                   [Tick(0), Wait(path, MAX, notFound), Tick(MAX - 1), Wait(path, 1, notFound),
                    Tick(MIN + 14), Wait(path, -15, notFound)])
    ensures Wrap(0 + MAX + 15) == MIN + 14 && MAX + 15 > MAX
  {
    var path := PipePath(DEFAULT_CONFIG.serverName, DEFAULT_CONFIG.pipeName);
    var notFound := WaitFailed(ERROR_FILE_NOT_FOUND);
    var waits := [notFound, notFound, notFound];
    var ticks: seq<Int32> := [0, MAX - 1, MIN + 14];
    var script := Script(waits, [], ticks, 0);
    var c := CallOf(DEFAULT_CONFIG, MAX, script, 0);
    assert WrapSub(MAX, 0) == MAX;
    assert WrapSub(MAX - 1, 0) == MAX - 1;
    assert WrapSub(MAX, MAX - 1) == 1;
    assert WrapSub(MIN + 14, 0) == MIN + 14;
    assert WrapSub(MAX, MIN + 14) == -15;
    var a1 := [Tick(0)] + [Wait(path, MAX, notFound)];
    var a2 := a1 + [Tick(MAX - 1)];
    var a3 := a2 + [Wait(path, 1, notFound)];
    var a4 := a3 + [Tick(MIN + 14)];
    var a5 := a4 + [Wait(path, -15, notFound)];
    assert Run(DEFAULT_CONFIG, MAX, script) == Loop(c, 0, waits, [], ticks[1..], [Tick(0)]);
    assert Loop(c, 0, waits, [], ticks[1..], [Tick(0)]) == Condition(c, 0, waits[1..], [], ticks[1..], a1);
    assert Condition(c, 0, waits[1..], [], ticks[1..], a1) == Loop(c, MAX - 1, waits[1..], [], ticks[2..], a2);
    assert Loop(c, MAX - 1, waits[1..], [], ticks[2..], a2) == Condition(c, MAX - 1, waits[2..], [], ticks[2..], a3);
    assert Condition(c, MAX - 1, waits[2..], [], ticks[2..], a3) == Loop(c, MIN + 14, waits[2..], [], ticks[3..], a4);
    assert Loop(c, MIN + 14, waits[2..], [], ticks[3..], a4) == Condition(c, MIN + 14, waits[3..], [], ticks[3..], a5);
    assert Condition(c, MIN + 14, waits[3..], [], ticks[3..], a5) == Attempt(ScriptExhausted, a5);
    assert a5 == [Tick(0), Wait(path, MAX, notFound), Tick(MAX - 1), Wait(path, 1, notFound),
                  Tick(MIN + 14), Wait(path, -15, notFound)];
  }

  /** The number of CreateFile calls in a trace. */
  function CountOpens(trace: seq<Event>): nat {
    if trace == [] then 0
    else CountOpens(trace[..|trace| - 1]) + if trace[|trace| - 1].Open? then 1 else 0
  }

  lemma CountOpensAppend(trace: seq<Event>, e: Event)
    ensures CountOpens(trace + [e]) == CountOpens(trace) + if e.Open? then 1 else 0
  {
    assert (trace + [e])[..|trace|] == trace;
  }

  lemma {:induction false} BusyLoop(c: Call, elapsed: Int32, waits: seq<WaitReply>, opens: seq<OpenReply>, ticks: seq<Int32>, acc: seq<Event>, n: nat)
    requires AtIteration(c, elapsed, acc)
    requires n < |waits| && forall i | 0 <= i <= n :: waits[i] == WaitSucceeded
    requires n < |opens| && opens[n] == HandleValid
    requires forall i | 0 <= i < n :: opens[i] == HandleInvalid(ERROR_PIPE_BUSY)
    requires c.timeout != INFINITE ==> n <= |ticks| && forall i | 0 <= i < n :: WrapSub(ticks[i], c.start) < c.timeout
    ensures Loop(c, elapsed, waits, opens, ticks, acc).outcome == Connected
    ensures CountOpens(Loop(c, elapsed, waits, opens, ticks, acc).trace) == CountOpens(acc) + n + 1
    decreases n
  {
    var acc1 := acc + [Wait(c.path, WrapSub(c.timeout, elapsed), waits[0])];
    var acc2 := acc1 + [Open(c.request, opens[0])];
    CountOpensAppend(acc, acc1[|acc1| - 1]);
    CountOpensAppend(acc1, acc2[|acc2| - 1]);
    if n > 0 {
      if c.timeout == INFINITE {
        BusyLoop(c, elapsed, waits[1..], opens[1..], ticks, acc2, n - 1);
      } else {
        var acc3 := acc2 + [Tick(ticks[0])];
        CountOpensAppend(acc2, acc3[|acc3| - 1]);
        BusyLoop(c, WrapSub(ticks[0], c.start), waits[1..], opens[1..], ticks[1..], acc3, n - 1);
      }
    }
  }

  /**
   * A pipe that is busy on the first `n` CreateFile calls and free on the
   * next, with every wait succeeding, gives success after exactly `n + 1`
   * CreateFile calls, provided the clock stays within a finite budget.
   */
  lemma BusyThenConnected(config: Config, timeout: Int32, script: Script, n: nat)
    requires !(timeout < 0 && timeout != INFINITE) && |script.ticks| > 0
    requires n < |script.waits| && forall i | 0 <= i <= n :: script.waits[i] == WaitSucceeded
    requires n < |script.opens| && script.opens[n] == HandleValid
    requires forall i | 0 <= i < n :: script.opens[i] == HandleInvalid(ERROR_PIPE_BUSY)
    requires timeout != INFINITE ==>
      n < |script.ticks| && forall i | 1 <= i <= n :: WrapSub(script.ticks[i], script.ticks[0]) < timeout
    ensures Run(config, timeout, script).outcome == Connected
    ensures CountOpens(Run(config, timeout, script).trace) == n + 1
  {
    var start := script.ticks[0];
    var ticks := script.ticks[1..];
    assert forall i | 0 <= i < n && timeout != INFINITE :: ticks[i] == script.ticks[i + 1];
    assert CountOpens([Tick(start)]) == 0 by { CountOpensAppend([], Tick(start)); }
    BusyLoop(CallOf(config, timeout, script, start), 0, script.waits, script.opens, ticks, [Tick(start)], n);
  }

  lemma {:induction false} NoServerLoop(c: Call, elapsed: Int32, waits: seq<WaitReply>, opens: seq<OpenReply>, ticks: seq<Int32>, acc: seq<Event>)
    requires AtIteration(c, elapsed, acc)
    requires forall i | 0 <= i < |waits| :: waits[i] == WaitFailed(ERROR_FILE_NOT_FOUND)
    ensures var r := Loop(c, elapsed, waits, opens, ticks, acc);
      && (r.outcome == TimedOut || r.outcome == ScriptExhausted)
      && (c.timeout == INFINITE ==> r.outcome == ScriptExhausted)
      && (r.outcome == TimedOut ==> 0 < |r.trace| && r.trace[|r.trace| - 1].Tick? && WrapSub(r.trace[|r.trace| - 1].count, c.start) >= c.timeout)
    ensures c.timeout != INFINITE && 0 < |ticks| <= |waits| && WrapSub(ticks[|ticks| - 1], c.start) >= c.timeout ==>
      Loop(c, elapsed, waits, opens, ticks, acc).outcome == TimedOut
    decreases |waits|
  {
    if |waits| > 0 {
      var acc1 := acc + [Wait(c.path, WrapSub(c.timeout, elapsed), waits[0])];
      if c.timeout == INFINITE {
        NoServerLoop(c, elapsed, waits[1..], opens, ticks, acc1);
      } else if |ticks| > 0 {
        var now := WrapSub(ticks[0], c.start);
        if now < c.timeout {
          NoServerLoop(c, now, waits[1..], opens, ticks[1..], acc1 + [Tick(ticks[0])]);
        }
      }
    }
  }

  /**
   * When no server ever listens (every wait reports ERROR_FILE_NOT_FOUND)
   * the loop never connects and never fails: under an infinite timeout it
   * retries for as long as the script lasts; under a finite one it times out
   * only on a clock reading at or past the budget, and it does time out once
   * the clock gets there.
   */
  lemma NeverListening(config: Config, timeout: Int32, script: Script)
    requires !(timeout < 0 && timeout != INFINITE) && |script.ticks| > 0
    requires forall i | 0 <= i < |script.waits| :: script.waits[i] == WaitFailed(ERROR_FILE_NOT_FOUND)
    ensures var r := Run(config, timeout, script);
      && (r.outcome == TimedOut || r.outcome == ScriptExhausted)
      && (timeout == INFINITE ==> r.outcome == ScriptExhausted)
      && (r.outcome == TimedOut ==>
            0 < |r.trace| && r.trace[|r.trace| - 1].Tick? && WrapSub(r.trace[|r.trace| - 1].count, script.ticks[0]) >= timeout)
    ensures (timeout != INFINITE && 1 < |script.ticks| <= |script.waits| + 1 &&
             WrapSub(script.ticks[|script.ticks| - 1], script.ticks[0]) >= timeout) ==>
      Run(config, timeout, script).outcome == TimedOut
  {
    var start := script.ticks[0];
    NoServerLoop(CallOf(config, timeout, script, start), 0, script.waits, script.opens, script.ticks[1..], [Tick(start)]);
  }

  /**
   * The failure that motivated the reconstruction: a WaitNamedPipe that
   * fails with ERROR_SEM_TIMEOUT is thrown as a Win32 error at once, with no
   * retry and no CreateFile call.
   */
  lemma SemaphoreTimeoutIsNotRetried(config: Config, timeout: Int32, script: Script)
    requires !(timeout < 0 && timeout != INFINITE) && |script.ticks| > 0
    requires |script.waits| > 0 && script.waits[0] == WaitFailed(ERROR_SEM_TIMEOUT)
    ensures Run(config, timeout, script) ==
      Attempt(Win32Error(ERROR_SEM_TIMEOUT),
              [Tick(script.ticks[0]), Wait(PipePath(config.serverName, config.pipeName), timeout, WaitFailed(ERROR_SEM_TIMEOUT))])
  {
  }

  /** The `_pipeFlags` computation at the start of Connect. */
  method ComputePipeFlags(options: bv32, level: ImpersonationLevel) returns (pipeFlags: bv32)
    ensures pipeFlags == PipeFlags(options, level)
  {
    pipeFlags := options;
    if level != NoImpersonation {
      pipeFlags := pipeFlags | SECURITY_SQOS_PRESENT;
      pipeFlags := pipeFlags | (LevelField(level) << 16);
      OrAssociates(options, SECURITY_SQOS_PRESENT, LevelField(level) << 16);
    }
  }

  /**
   * `ClientConnector.Connect(timeout)`. The do/while loop is a `while true`
   * whose body is the labelled block `Iteration`: leaving the block is the
   * C# `continue`, which goes to the loop condition; `break` leaves the loop
   * and ends in the TimeoutException after it.
   */
  method Connect(config: Config, timeout: Int32, script: Script) returns (outcome: Outcome, trace: seq<Event>)
    ensures Attempt(outcome, trace) == Run(config, timeout, script)
  {
    if timeout < 0 && timeout != INFINITE {
      return ArgOutOfRange, [];
    }

    var secAttrs := GetSecAttrs(config.inheritability, script.attributesSize);

    var pipeFlags := ComputePipeFlags(config.pipeOptions, config.impersonation);

    var path := PipePath(config.serverName, config.pipeName);
    var access := GENERIC_READ | GENERIC_WRITE;

    trace := [];
    if |script.ticks| == 0 {
      return ScriptExhausted, trace;
    }
    var startTime := script.ticks[0];
    trace := [Tick(startTime)];
    var elapsed: Int32 := 0;
    var w, o, t := 0, 0, 1;
    ghost var c := CallOf(config, timeout, script, startTime);
    assert script.ticks[1..] == script.ticks[t..];
    while true
      invariant w <= |script.waits| && o <= |script.opens| && 1 <= t <= |script.ticks|
      invariant AtIteration(c, elapsed, trace)
      invariant Loop(c, elapsed, script.waits[w..], script.opens[o..], script.ticks[t..], trace) == Run(config, timeout, script)
      decreases |script.waits| - w
    {
      ghost var before := Loop(c, elapsed, script.waits[w..], script.opens[o..], script.ticks[t..], trace);
      label Iteration: {
        if w == |script.waits| {
          return ScriptExhausted, trace;
        }
        // Wait for the pipe to become free.
        var waitReply := script.waits[w];
        trace := trace + [Wait(path, WrapSub(timeout, elapsed), waitReply)];
        w := w + 1;
        assert script.waits[w - 1..][1..] == script.waits[w..];
        if waitReply.WaitFailed? {
          var errorCode := waitReply.code;
          if errorCode == ERROR_FILE_NOT_FOUND {
            // No server yet: spin, then the loop condition.
            assert before == Condition(c, elapsed, script.waits[w..], script.opens[o..], script.ticks[t..], trace);
            break Iteration;
          }
          if errorCode == ERROR_SUCCESS {
            outcome := TimedOut;
            break;
          }
          return Win32Error(errorCode), trace;
        }
        // The pipe should be free: try to open it.
        if o == |script.opens| {
          return ScriptExhausted, trace;
        }
        var handle := script.opens[o];
        trace := trace + [Open(OpenRequest(path, access, pipeFlags, secAttrs), handle)];
        o := o + 1;
        assert script.opens[o - 1..][1..] == script.opens[o..];
        if handle.HandleInvalid? {
          var errorCode := handle.code;
          if errorCode == ERROR_PIPE_BUSY {
            // Another client won the race: spin, then the loop condition.
            assert before == Condition(c, elapsed, script.waits[w..], script.opens[o..], script.ticks[t..], trace);
            break Iteration;
          }
          return Win32Error(errorCode), trace;
        }
        return Connected, trace;
      }
      // The loop condition: `timeout == Timeout.Infinite || (elapsed = unchecked(TickCount - startTime)) < timeout`.
      if timeout != INFINITE {
        if t == |script.ticks| {
          return ScriptExhausted, trace;
        }
        var now := script.ticks[t];
        trace := trace + [Tick(now)];
        t := t + 1;
        assert script.ticks[t - 1..][1..] == script.ticks[t..];
        elapsed := WrapSub(now, startTime);
        if !(elapsed < timeout) {
          outcome := TimedOut;
          break;
        }
      }
    }
    return outcome, trace;
  }
}
