# Named-pipe connection test harness, modelled in Dafny

The repository is a small test bed for a named-pipe connection failure on
Windows. It has three programs:

- **Server**: accepts clients on the pipe "Test Pipe". For each client a
  worker sends a preamble naming its thread, ten random dictionary words and
  an end marker, and mirrors every line into the console. If the client goes
  away, the worker logs one `DISCONNECTED` line.
- **Client**: connects, reads and checks that protocol, and reports what it
  saw as an exit code from 0 to 5. It also contains `ClientConnector`, a
  step-by-step reconstruction of the framework's pipe `Connect` retry loop.
- **ClientRunner**: launches a hundred clients and waits for each in turn.
  It prints the meaning of each exit code and prints a summary line when all
  of them agree.

The model covers all four pieces of logic in these programs:

- **`ClientConnector`** (`connector.dfy`): the `Connect` retry loop as an
  imperative method. The operating system is a script of replies for
  `WaitNamedPipe`, `CreateFile` and `Environment.TickCount`. The method is
  proved equal to a recursive specification (`Loop`/`Condition`/`Run`), and
  the retry, timeout and error behaviour is proved about that specification.
  The module also covers the pipe-flag computation, the pipe path and the
  security attributes. `int32.dfy` supplies the wrap-around arithmetic of
  `unchecked(TickCount - startTime)`.
- **`ServerProgram`** (`server.dfy`): two classes and the worker's methods.
  `ServerStream` is the pipe as the worker's writer sees it, and `ConsoleLog`
  is the shared console; each has its own `WriteLine` (and the stream a
  `Close`). `Emit`, `WriteWords`, `SendProtocol` and `Worker` are
  module-level methods that take a stream and a log and change them. The main
  method, `Worker`, is proved against the protocol functions `Protocol` and
  `LogImage`.
- **`ClientProgram`** (`client.dfy`): `Main` after the connect step, as a
  method with the source's `while` loop. It is proved equal to a declarative
  exit-code function, and the checks in the validation loop are proved about
  that function.
- **`ClientRunner`** (`runner.dfy`): the `CheckClient` mapping, the fold
  over `commonCheckResult` and the report lines. The launch loop and the
  check loop are proved against `Describe`, `Common` and `ReportLines`.
- **`EndToEnd`** (`end_to_end.dfy`): the cross-program theorems. A client that
  reads a worker's whole output exits with 0. A client that gets only part of
  it does not. When all children pass, the runner prints the "succeeded"
  summary; when one fails and another passes, it prints none.

`decimal.dfy` renders thread ids and report numbers in decimal and pads them.
`sequences.dfy` holds a few generic sequence facts, and `wrappers.dfy` holds
`Option`.

## Model

| member | source | states |
|---|---|---|
| Int32.WrapSub | Client/ClientConnector.cs:138 | `unchecked(a - b)` has the same low 32 bits as the true difference, and equals it when that difference fits in an `int` |
| Int32.WrapSubRecoversElapsed | Client/ClientConnector.cs:138-140 | a tick counter read again `d < 2^31` ms later gives `elapsed == d`, even if the counter wrapped in between |
| ClientConnector.LevelValue | Client/ClientConnector.cs:64-67 | the impersonation level's integer value is at most 4, and is 0 exactly for `None`; `LevelField`, the `(int)level - 1` of line 67, is proved to be this value minus one |
| ClientConnector.PipeOptionsLeaveImpersonationClear | Client/ClientConnector.cs:62 | every PipeOptions value leaves the impersonation bits clear, so `PipeFlagsRoundTrip` applies to all of them |
| ClientConnector.GetSecAttrs | Client/ClientConnector.cs:145-155 | a security-attributes structure exists iff the handle is inheritable; then `bInheritHandle` is 1 and `nLength` is the structure size |
| ClientConnector.ComputePipeFlags | Client/ClientConnector.cs:62-68 | the `|=` sequence computes the options or-ed with SECURITY_SQOS_PRESENT and `(level - 1) << 16` when the level is not `None` |
| ClientConnector.PipeFlagsKeepOptions | Client/ClientConnector.cs:62-68 | the flags keep every option bit and add only impersonation bits; they equal the options when the level is `None` and carry SECURITY_SQOS_PRESENT otherwise |
| ClientConnector.PipeFlagsRoundTrip | Client/ClientConnector.cs:64-68 | for options that leave the impersonation bits clear, the flags decode back to the impersonation level |
| ClientConnector.PipePathRoundTrip | Client/ClientConnector.cs:70 | the `\\server\pipe\name` path decodes back to its server and pipe names when the server name has no backslash |
| ClientConnector.Connect | Client/ClientConnector.cs:53-143 | the imperative do/while loop yields the outcome and the call trace of the specification `Run`, for every script |
| ClientConnector.LoopExtends | Client/ClientConnector.cs:80-138 | every loop iteration continues its trace: each new call may follow the previous one, only the last call decides, and each tick comes from the clock |
| ClientConnector.RunShape | Client/ClientConnector.cs:55-80 | a negative timeout other than -1 gives the argument error with no OS call at all; otherwise the start tick comes first and the rest of the trace obeys the loop's rules |
| ClientConnector.OutcomeCauses | Client/ClientConnector.cs:83-142 | success only from a valid handle straight after a successful wait; a timeout only from a wait failing with ERROR_SUCCESS or a clock reading past the budget; a Win32 error only from a wait code other than 2 and 0, or an open code other than 231, carrying that code |
| ClientConnector.InfiniteTimeoutCalls | Client/ClientConnector.cs:77-138 | under `Timeout.Infinite` every `WaitNamedPipe` receives -1, the clock is read only at the start, and a timeout can only come from a wait reporting ERROR_SUCCESS |
| ClientConnector.FiniteTimeoutWaitArguments | Client/ClientConnector.cs:77-138 | under a finite timeout, and provided every clock reading is less than 2^31 ms after the start, the first wait gets the whole timeout and every later wait gets a value in `[1, timeout]` |
| ClientConnector.WrappedClockEscapesBudget | Client/ClientConnector.cs:83-138 | without that proviso the bound fails: with `timeout == int.MaxValue` and a clock that reads `MAX + 15` ms after the start, the wrapped `elapsed` is negative, the loop goes on, and `WaitNamedPipe` receives -15 |
| ClientConnector.BusyThenConnected | Client/ClientConnector.cs:109-136 | `n` busy replies followed by a valid handle give success after exactly `n + 1` `CreateFile` calls |
| ClientConnector.NeverListening | Client/ClientConnector.cs:83-142 | when every wait reports ERROR_FILE_NOT_FOUND the loop never connects or fails; it times out exactly on a clock reading whose wrapped difference from the start, `unchecked(TickCount - startTime)`, is at or past the budget, and it never times out under an infinite timeout |
| ClientConnector.SemaphoreTimeoutIsNotRetried | Client/ClientConnector.cs:94-100 | a wait failing with ERROR_SEM_TIMEOUT (121) is thrown as that Win32 error at once, with no retry and no `CreateFile` |
| Decimal.DecimalString | Server/Program.cs:89 | the decimal rendering of a thread id is a non-empty string of digits |
| Decimal.DecimalRoundTrip | Server/Program.cs:89 | the decimal rendering reads back as the number rendered |
| Decimal.PadLeft | ClientRunner/Program.cs:32 | `{0,4}` pads on the left with spaces to the field width and keeps the text as its suffix |
| ServerProgram.WordLinesAt | Server/Program.cs:91-93 | the `i`-th word line is `"WORD: "` followed by the `i`-th word drawn |
| ServerProgram.ProtocolShape | Server/Program.cs:89-98 | a complete protocol has 12 lines: the preamble, one word line per draw and the end marker |
| ServerProgram.ProtocolLinesDistinct | Server/Program.cs:89-98 | no protocol line is `DISCONNECTED`, and the end marker is only the last line |
| ServerProgram.LogImageAt | Server/Program.cs:85-86 | the `i`-th log line is `"[tid] "` followed by the `i`-th line sent |
| ServerProgram.LogImageConcat | Server/Program.cs:80-87 | the log image of consecutive groups of lines is the concatenation of their images |
| ServerProgram.LogLineInjective | Server/Program.cs:86 | two log lines of one worker are equal iff the lines they mirror are equal |
| ServerProgram.DisconnectedNotMirrored | Server/Program.cs:103-106 | no mirrored protocol line is the worker's `DISCONNECTED` entry |
| ServerProgram.Written | Server/Program.cs:80-83 | a client that reads `accepted` lines receives `min(accepted, 12)` of them |
| ServerProgram.ServerStream.WriteLine | Server/Program.cs:82-83 | a write succeeds and appends exactly when the client still reads; otherwise nothing changes (the IOException) |
| ServerProgram.ServerStream.Close | Server/Program.cs:101 | closing leaves the lines as they are |
| ServerProgram.ConsoleLog.WriteLine | Server/Program.cs:85-86 | each console write appends one line |
| ServerProgram.Emit | Server/Program.cs:80-87 | a line goes to the log only after its write succeeds; a failed write changes neither pipe nor log |
| ServerProgram.WriteWords | Server/Program.cs:91-96 | the word loop sends the first word lines the client accepts, logs their image, and sleeps once after each one sent |
| ServerProgram.PreambleRefused | Server/Program.cs:89 | a refused preamble leaves the pipe and the log empty and makes no pause |
| ServerProgram.WordsRefused | Server/Program.cs:89-98 | a write refused after the preamble and `n` words leaves exactly those `n + 1` protocol lines, their image and `n` pauses |
| ServerProgram.AllSent | Server/Program.cs:89-101 | when every write succeeds the pipe holds the whole protocol and the log its image |
| ServerProgram.SendProtocol | Server/Program.cs:78-101 | the pipe holds the first `min(accepted, 12)` protocol lines and the log their image; the block completes iff all 12 fit, and `serverStream.Close()` is called iff it completes |
| ServerProgram.Worker | Server/Program.cs:72-107 | the pipe holds a prefix of the protocol, proper iff the client stopped early; the log is its line-for-line image followed, on failure only, by one DISCONNECTED entry; there is one pause in `[250, 2500)` after each word sent; `serverStream.Close()` is called iff the end marker went out |
| ClientProgram.ReadLine | Client/Program.cs:83-86 | a read yields the next line while lines remain, then `null` at the end of the stream (a broken pipe included) or an exception when the read itself fails |
| ClientProgram.FirstEnd | Client/Program.cs:81-93 | the first end marker's position, or none exactly when there is no end marker |
| ClientProgram.CountWordsAppend | Client/Program.cs:91-92 | reading one more line adds one to the word count exactly when it starts with `"WORD: "` |
| ClientProgram.Session | Client/Program.cs:22-116 | the imperative read loop produces the exit code `ExitCode` and consumes the lines `LinesConsumed` states |
| ClientProgram.EndMarkerFound | Client/Program.cs:96-103 | with the preamble accepted and the first end marker found, the word count decides between 4 and 0, and reading stops at the marker |
| ClientProgram.ConnectFailureExit | Client/Program.cs:22-37 | a failed connect gives exit code 1 and reads no line |
| ClientProgram.NullPreambleExit | Client/Program.cs:70-76 | an empty pipe makes `null.StartsWith` throw, giving exit code 5, not 2 |
| ClientProgram.IgnoresAfterEnd | Client/Program.cs:81-93 | lines after the first end marker, and how the stream ends after it, change neither the exit code nor the lines read; reading stops at the marker |
| ClientProgram.MissingEndMarkerExit | Client/Program.cs:83-97 | with no end marker after the preamble, the end of the stream gives 3 whatever the word count, and a failing read gives 5 |
| ClientProgram.SuccessIff | Client/Program.cs:75-103 | exit code 0 iff connected, the preamble has its prefix, an end marker follows, and exactly ten word lines come up to the first one (both directions) |
| ClientProgram.SuccessValidates | Client/Program.cs:75-103 | exit code 0 implies the preamble has its prefix and an end marker follows exactly ten word lines |
| ClientProgram.ValidatesSucceeds | Client/Program.cs:75-103 | a preamble with its prefix and an end marker after exactly ten word lines give exit code 0 |
| ClientProgram.WrongWordCountExit | Client/Program.cs:88-100 | an end marker after a word count other than ten gives 4, however the stream ends |
| ClientRunner.CheckClient | ClientRunner/Program.cs:50-65 | the description is never empty, and it is "UNKNOWN" exactly for codes outside 0..5 |
| ClientRunner.CheckClientDistinct | ClientRunner/Program.cs:54-63 | the six known exit codes have six different descriptions |
| ClientRunner.DescribeAt | ClientRunner/Program.cs:23-25 | the `i`-th result describes the `i`-th child's exit code |
| ClientRunner.CommonAppend | ClientRunner/Program.cs:23-32 | one more child extends the fold by one step and the report by one line numbered `count + 1` |
| ClientRunner.CommonStaysEmpty | ClientRunner/Program.cs:27-30 | once the common result is `""` it stays `""` whatever follows |
| ClientRunner.CommonAgreement | ClientRunner/Program.cs:21-33 | after the loop the common result is the first result if every result equals it, and `""` otherwise |
| ClientRunner.ReportLinesAt | ClientRunner/Program.cs:32 | the `i`-th report line is numbered `i + 1` and shows the `i`-th result |
| ClientRunner.LaunchClients | ClientRunner/Program.cs:18-19 | the launch loop starts one child per exit code, in order |
| ClientRunner.DescribeOneMore | ClientRunner/Program.cs:23-25 | checking one more child appends its description to the results |
| ClientRunner.CheckClients | ClientRunner/Program.cs:23-33 | the check loop checks each child once, in launch order; it leaves the fold of the results in `commonCheckResult` and one numbered line per child on the console |
| ClientRunner.RunClients | ClientRunner/Program.cs:16-39 | a hundred children are launched and checked once each, in launch order; the console gets one numbered line per child, plus the summary iff all results agree |
| EndToEnd.WordLinesCount | Server/Program.cs:93 | every word line the server sends counts as a word for the client |
| EndToEnd.PreambleAccepted | Client/Program.cs:75 | the server's preamble has the prefix the client checks for |
| EndToEnd.EndMarkerAgreed | Client/Program.cs:90 | both programs spell the end marker the same way, and it is not a word line |
| EndToEnd.FullProtocolSucceeds | Client/Program.cs:70-103 | a client that receives a worker's whole output exits with 0 after reading exactly 12 lines, however the stream ends |
| EndToEnd.TruncatedProtocolFails | Client/Program.cs:70-115 | a proper prefix of a worker's output fails validation: 3 (or 5 if empty) at the end of the stream, and 5 when the read fails |
| EndToEnd.AllSessionsSucceed | ClientRunner/Program.cs:35-39 | a hundred passing children give the common result "succeeded" and the summary |
| EndToEnd.OneFailureSuppressesSummary | ClientRunner/Program.cs:27-35 | one passing and one failing child make the common result `""`, so no summary is printed |

## Left out

- ClientConnector.FiniteTimeoutWaitArguments: proves the `[1, timeout]` bound only for clock readings less than 2^31 ms after the start. `elapsed` is a wrapped 32-bit difference, so a later reading makes it negative: the loop then does not time out, and the next `WaitNamedPipe` gets an argument outside `[1, timeout]` (`WrappedClockEscapesBudget` shows this for `timeout == int.MaxValue`).
- Win32 calls (`WaitNamedPipe`, `CreateFile`, `GetLastWin32Error`, `Environment.TickCount`) are replies taken from a script, not implementations. `ScriptExhausted` is an outcome of the model only: it stands for "the script ran out", which the real program never meets.
- `Marshal.SizeOf` is a parameter (`attributesSize`). `Path.GetFullPath` is left out; only the concatenation that builds the pipe path is modelled.
- `SpinWait.SpinOnce` and `Thread.Sleep` take time, which is not modelled. Only the sleep arguments are kept, as the `naps` sequence.
- The server's accept loop is left out: `BeginWaitForConnection`, `EndWaitForConnection`, `GetNamedPipeClientProcessId` and its console line, `Task.Run`, and the `lock` that serialises console writes. Each worker is modelled on its own, with a log of its own.
- `System.Random`: the word indices and pauses are inputs, within the ranges `Next` guarantees.
- `CreateAllAccessPipeSecurity` has no caller and is left out, as are the commented-out reverse-direction pumps.
- `StreamReader` and `StreamWriter` are left out: line framing, UTF-8 encoding and buffering. The pipe is a sequence of lines. A client that stops reading is modelled as a count of lines it accepts, after which every write fails.
- ServerProgram.ServerStream: `closed` records only the explicit `serverStream.Close()`. The writer's disposal at the end of the `using` block, which also closes the stream, is not modelled.
- ServerProgram.Worker: requires a non-empty word dictionary and picks below its length. With an empty dictionary, `Words[rnd.Next(0)]` throws an IndexOutOfRangeException, which the handler does not catch; that path is not modelled.
- ClientProgram.Session: takes the framework's `NamedPipeClientStream.Connect(10000)` as a boolean `connected`. The framework connect is close to `ClientConnector.Connect`, but the model does not link the two.
- ClientProgram.Session: `numberOfWords` is unbounded. A 32-bit overflow would need more than 2^31 word lines and is not modelled.
- `StartsWith` is taken as an ordinal prefix test; the culture-sensitive comparison of the real call is not modelled.
- The client's console output (the "Connected" banner and the echo of each line) and the details printed when arguments are given are left out. So are the `"debugger"` path, which only calls `ClientConnector.Connect(10000)` first, and `Console.ReadLine` pauses.
- `Process.Start` and `WaitForExit` are left out: each child is known only by the exit code it ends with, given in launch order.
