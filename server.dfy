/**
 * The per-client worker of the server (the body handed to `Task.Run` in
 * `ConnectCallback`): it writes the preamble, ten word lines and the end
 * marker to the pipe, mirrors every line it sends into the shared console
 * log, and logs a single DISCONNECTED line when a write fails.
 *
 * The word dictionary, the thread id and the outputs of `Random` are
 * parameters; `Thread.Sleep` is kept only as the sequence of its arguments.
 */
module ServerProgram {
  import opened Decimal
  import opened Sequences

  const PREAMBLE_PREFIX: string := "You are connected to thread "
  const WORD_PREFIX: string := "WORD: "
  const END_OF_STREAM: string := "END OF STREAM"
  const DISCONNECTED: string := "DISCONNECTED"
  const WORD_COUNT: nat := 10
  /** The bounds of `rnd.Next(250, 2500)`: the upper one is exclusive. */
  const MIN_PAUSE: int := 250
  const MAX_PAUSE: int := 2500
  /** Preamble, words and end marker. */
  const PROTOCOL_LINES: nat := WORD_COUNT + 2

  function Preamble(tid: nat): string {
    PREAMBLE_PREFIX + DecimalString(tid)
  }

  function WordLine(word: string): string {
    WORD_PREFIX + word
  }

  /** The word lines for the dictionary indices drawn by `rnd.Next(Words.Length)`. */
  function WordLines(words: seq<string>, picks: seq<nat>): (lines: seq<string>)
    requires forall i | 0 <= i < |picks| :: picks[i] < |words|
    ensures |lines| == |picks|
  {
    if picks == [] then [] else [WordLine(words[picks[0]])] + WordLines(words, picks[1..])
  }

  /** Everything a worker that is not interrupted sends to its client. */
  function Protocol(tid: nat, words: seq<string>, picks: seq<nat>): seq<string>
    requires forall i | 0 <= i < |picks| :: picks[i] < |words|
  {
    [Preamble(tid)] + WordLines(words, picks) + [END_OF_STREAM]
  }

  /** `Console.WriteLine("[{0}] {1}", tid, line)`. */
  function LogLine(tid: nat, line: string): string {
    "[" + DecimalString(tid) + "] " + line
  }

  /** The console lines that mirror `lines`. */
  function LogImage(tid: nat, lines: seq<string>): (image: seq<string>)
    ensures |image| == |lines|
  {
    if lines == [] then [] else [LogLine(tid, lines[0])] + LogImage(tid, lines[1..])
  }

  /** How many protocol lines reach a client that reads `accepted` lines. */
  function Written(accepted: nat): (n: nat)
    ensures n <= PROTOCOL_LINES && n <= accepted
    ensures n == accepted || n == PROTOCOL_LINES
  {
    if accepted < PROTOCOL_LINES then accepted else PROTOCOL_LINES
  }

  /** The `i`-th word line carries the `i`-th drawn word. */
  lemma {:induction false} WordLinesAt(words: seq<string>, picks: seq<nat>, i: nat)
    requires forall j | 0 <= j < |picks| :: picks[j] < |words|
    requires i < |picks|
    ensures WordLines(words, picks)[i] == WordLine(words[picks[i]])
    decreases i
  {
    if 0 < i {
      WordLinesAt(words, picks[1..], i - 1);
    }
  }

  /** The `i`-th log line mirrors the `i`-th line sent. */
  lemma {:induction false} LogImageAt(tid: nat, lines: seq<string>, i: nat)
    requires i < |lines|
    ensures LogImage(tid, lines)[i] == LogLine(tid, lines[i])
    decreases i
  {
    if 0 < i {
      LogImageAt(tid, lines[1..], i - 1);
    }
  }

  /** The protocol is the preamble, one line per pick, then the end marker. */
  lemma ProtocolShape(tid: nat, words: seq<string>, picks: seq<nat>)
    requires forall i | 0 <= i < |picks| :: picks[i] < |words|
    ensures var full := Protocol(tid, words, picks);
      && |full| == |picks| + 2
      && full[0] == Preamble(tid)
      && (forall i | 0 <= i < |picks| :: full[i + 1] == WordLine(words[picks[i]]))
      && full[|picks| + 1] == END_OF_STREAM
  {
    forall i | 0 <= i < |picks|
      ensures Protocol(tid, words, picks)[i + 1] == WordLine(words[picks[i]])
    {
      WordLinesAt(words, picks, i);
    }
  }

  lemma LogImageAppend(tid: nat, lines: seq<string>, line: string)
    ensures LogImage(tid, lines + [line]) == LogImage(tid, lines) + [LogLine(tid, line)]
  {
    LogImageConcat(tid, lines, [line]);
  }

  /** The number of `Thread.Sleep` calls made once the first `written` lines have gone out. */
  function PausesAfter(written: nat): nat {
    if written == 0 then 0 else if written - 1 < WORD_COUNT then written - 1 else WORD_COUNT
  }

  /**
   * The pipe as the worker sees it through its StreamWriter: `lines` are the
   * lines written and flushed so far. The client disconnects after reading
   * `acceptedLines` lines; every write after that throws an IOException.
   * `closed` records the explicit `serverStream.Close()`.
   */
  class ServerStream {
    var lines: seq<string>
    var closed: bool
    const acceptedLines: nat

    constructor (acceptedLines: nat)
      ensures this.acceptedLines == acceptedLines
      ensures lines == [] && !closed
    {
      this.acceptedLines := acceptedLines;
      lines := [];
      closed := false;
    }

    /** `writer.WriteLine(line); writer.Flush();`, where `false` stands for the IOException. */
    method WriteLine(line: string) returns (ok: bool)
      requires !closed
      modifies this
      ensures ok <==> |old(lines)| < acceptedLines
      ensures lines == if ok then old(lines) + [line] else old(lines)
      ensures !closed
    {
      ok := |lines| < acceptedLines;
      if ok {
        lines := lines + [line];
      }
    }

    method Close()
      modifies this
      ensures closed && lines == old(lines)
    {
      closed := true;
    }
  }

  /** The server's console, shared by all workers under `lock (s_sync)`. */
  class ConsoleLog {
    var lines: seq<string>

    constructor ()
      ensures lines == []
    {
      lines := [];
    }

    method WriteLine(line: string)
      modifies this
      ensures lines == old(lines) + [line]
    {
      lines := lines + [line];
    }
  }

  /** The local function `Emit`: send a line, then mirror it into the log. */
  method Emit(tid: nat, line: string, stream: ServerStream, log: ConsoleLog) returns (ok: bool)
    requires !stream.closed
    modifies stream, log
    ensures ok <==> |old(stream.lines)| < stream.acceptedLines
    ensures stream.lines == if ok then old(stream.lines) + [line] else old(stream.lines)
    ensures log.lines == if ok then old(log.lines) + [LogLine(tid, line)] else old(log.lines)
    ensures !stream.closed
  {
    ok := stream.WriteLine(line);
    if ok {
      log.WriteLine(LogLine(tid, line));
    }
  }

  /** A log line determines the line it mirrors. */
  lemma LogLineInjective(tid: nat, a: string, b: string)
    ensures LogLine(tid, a) == LogLine(tid, b) <==> a == b
  {
    var prefix := "[" + DecimalString(tid) + "] ";
    assert LogLine(tid, a) == prefix + a && LogLine(tid, b) == prefix + b;
    if LogLine(tid, a) == LogLine(tid, b) {
      assert a == (prefix + a)[|prefix|..];
      assert b == (prefix + b)[|prefix|..];
    }
  }

  /**
   * No protocol line is the DISCONNECTED entry, and the end marker occurs
   * only as the last line: the preamble, the word lines, the end marker and
   * DISCONNECTED all begin with different letters.
   */
  lemma ProtocolLinesDistinct(tid: nat, words: seq<string>, picks: seq<nat>)
    requires forall i | 0 <= i < |picks| :: picks[i] < |words|
    ensures var full := Protocol(tid, words, picks);
      && (forall i | 0 <= i < |full| :: full[i] != DISCONNECTED)
      && (forall i | 0 <= i < |full| - 1 :: full[i] != END_OF_STREAM)
  {
    var full := Protocol(tid, words, picks);
    ProtocolShape(tid, words, picks);
    forall i | 0 <= i < |full|
      ensures full[i] != DISCONNECTED
      ensures i < |full| - 1 ==> full[i] != END_OF_STREAM
    {
      if i == 0 {
        assert full[i][0] == 'Y';
      } else if i <= |picks| {
        assert full[i] == WordLine(words[picks[i - 1]]);
        assert full[i][0] == 'W';
      } else {
        assert full[i] == END_OF_STREAM;
      }
    }
  }

  /** The only DISCONNECTED entry in a worker's log is the one its handler writes. */
  lemma DisconnectedNotMirrored(tid: nat, words: seq<string>, picks: seq<nat>, n: nat)
    requires forall i | 0 <= i < |picks| :: picks[i] < |words|
    requires n <= |Protocol(tid, words, picks)|
    ensures LogLine(tid, DISCONNECTED) !in LogImage(tid, Protocol(tid, words, picks)[..n])
  {
    var sent := Protocol(tid, words, picks)[..n];
    ProtocolLinesDistinct(tid, words, picks);
    forall i | 0 <= i < |sent|
      ensures LogImage(tid, sent)[i] != LogLine(tid, DISCONNECTED)
    {
      LogImageAt(tid, sent, i);
      LogLineInjective(tid, sent[i], DISCONNECTED);
    }
  }

  /**
   * The `for` loop of the worker: ten word lines, each followed by a pause.
   * It stops at the first write that fails, with `ok` false.
   */
  method WriteWords(tid: nat, words: seq<string>, picks: seq<nat>, pauses: seq<int>, stream: ServerStream, log: ConsoleLog)
    returns (ok: bool, naps: seq<int>)
    requires |picks| == WORD_COUNT && forall i | 0 <= i < |picks| :: picks[i] < |words|
    requires |pauses| == WORD_COUNT
    requires 1 <= |stream.lines| <= stream.acceptedLines && !stream.closed
    modifies stream, log
    ensures ok <==> |old(stream.lines)| + WORD_COUNT <= stream.acceptedLines
    ensures |naps| <= WORD_COUNT && naps == pauses[..|naps|]
    ensures ok ==> |naps| == WORD_COUNT
    ensures !ok ==> |stream.lines| == stream.acceptedLines
    ensures stream.lines == old(stream.lines) + WordLines(words, picks)[..|naps|]
    ensures log.lines == old(log.lines) + LogImage(tid, WordLines(words, picks)[..|naps|])
    ensures !stream.closed
  {
    ghost var body := WordLines(words, picks);
    ghost var lines0 := stream.lines;
    ghost var log0 := log.lines;
    naps := [];
    var i := 0;
    while i < WORD_COUNT
      invariant 0 <= i <= WORD_COUNT && i == |naps|
      invariant stream.lines == lines0 + body[..i] && !stream.closed
      invariant log.lines == log0 + LogImage(tid, body[..i])
      invariant naps == pauses[..i]
      invariant |lines0| + i <= stream.acceptedLines
    {
      WordLinesAt(words, picks, i);
      ok := Emit(tid, WordLine(words[picks[i]]), stream, log);
      if !ok {
        return;
      }
      SentOneMore(tid, lines0, log0, body, i);
      TakeOneMore(pauses, i);
      naps := naps + [pauses[i]];   // Thread.Sleep(rnd.Next(250, 2500))
      i := i + 1;
    }
    TakeAll(body);
    ok := true;
  }

  /** Sending the next line of `body` extends both the pipe and the log by one. */
  lemma SentOneMore(tid: nat, lines0: seq<string>, log0: seq<string>, body: seq<string>, i: nat)
    requires i < |body|
    ensures lines0 + body[..i] + [body[i]] == lines0 + body[..i + 1]
    ensures log0 + LogImage(tid, body[..i]) + [LogLine(tid, body[i])] == log0 + LogImage(tid, body[..i + 1])
  {
    TakeOneMore(body, i);
    LogImageAppend(tid, body[..i], body[i]);
    AppendAssociates(lines0, body[..i], [body[i]]);
    AppendAssociates(log0, LogImage(tid, body[..i]), [LogLine(tid, body[i])]);
  }

  /** The first `n + 1` protocol lines are the preamble and the first `n` word lines. */
  lemma ProtocolPrefix(tid: nat, words: seq<string>, picks: seq<nat>, n: nat)
    requires forall i | 0 <= i < |picks| :: picks[i] < |words|
    requires n <= |picks|
    ensures Protocol(tid, words, picks)[..n + 1] == [Preamble(tid)] + WordLines(words, picks)[..n]
  {
  }

  /** The log is written line for line, so the image of a concatenation is the concatenation of the images. */
  lemma {:induction false} LogImageConcat(tid: nat, a: seq<string>, b: seq<string>)
    ensures LogImage(tid, a + b) == LogImage(tid, a) + LogImage(tid, b)
    decreases |a|
  {
    if a == [] {
      assert a + b == b;
    } else {
      assert (a + b)[1..] == a[1..] + b;
      LogImageConcat(tid, a[1..], b);
    }
  }

  /**
   * What the `try` block leaves behind when the client accepts `accepted`
   * lines: the pipe holds the first `Written(accepted)` protocol lines, the
   * log gained their image, a pause followed each word line sent, and the
   * block completed exactly when the whole protocol fitted.
   */
  ghost predicate Outcome(tid: nat, words: seq<string>, picks: seq<nat>, pauses: seq<int>, accepted: nat,
                          log0: seq<string>, lines: seq<string>, logLines: seq<string>, naps: seq<int>, ok: bool)
    requires |picks| == WORD_COUNT && forall i | 0 <= i < |picks| :: picks[i] < |words|
    requires |pauses| == WORD_COUNT
  {
    && (ok <==> PROTOCOL_LINES <= accepted)
    && |lines| == Written(accepted)
    && lines == Protocol(tid, words, picks)[..|lines|]
    && logLines == log0 + LogImage(tid, lines)
    && naps == pauses[..PausesAfter(|lines|)]
  }

  /**
   * The body of the `try` block: preamble, words, end marker, then
   * `serverStream.Close()`. It stops at the first write that fails, with
   * `ok` false; the pipe then holds the lines written before it.
   */
  method SendProtocol(tid: nat, words: seq<string>, picks: seq<nat>, pauses: seq<int>, stream: ServerStream, log: ConsoleLog)
    returns (ok: bool, naps: seq<int>)
    requires |picks| == WORD_COUNT && forall i | 0 <= i < |picks| :: picks[i] < |words|
    requires |pauses| == WORD_COUNT
    requires stream.lines == [] && !stream.closed
    modifies stream, log
    ensures Outcome(tid, words, picks, pauses, stream.acceptedLines, old(log.lines), stream.lines, log.lines, naps, ok)
    ensures stream.closed == ok
  {
    ghost var start := log.lines;
    naps := [];
    ok := Emit(tid, Preamble(tid), stream, log);
    if !ok {
      PreambleRefused(tid, words, picks, pauses, stream.acceptedLines, start);
      return;
    }
    ok, naps := WriteWords(tid, words, picks, pauses, stream, log);
    if !ok {
      WordsRefused(tid, words, picks, pauses, stream.acceptedLines, start, |naps|);
      return;
    }
    ok := Emit(tid, END_OF_STREAM, stream, log);
    if !ok {
      WordsRefused(tid, words, picks, pauses, stream.acceptedLines, start, |naps|);
      return;
    }
    AllSent(tid, words, picks, pauses, stream.acceptedLines, start);
    stream.Close();
  }

  /** The preamble write fails: nothing reaches the pipe or the log. */
  lemma PreambleRefused(tid: nat, words: seq<string>, picks: seq<nat>, pauses: seq<int>, accepted: nat, start: seq<string>)
    requires |picks| == WORD_COUNT && forall i | 0 <= i < |picks| :: picks[i] < |words|
    requires |pauses| == WORD_COUNT
    requires accepted == 0
    ensures Outcome(tid, words, picks, pauses, accepted, start, [], start, [], false)
  {
    AppendEmpty(start);
    TakeNone(Protocol(tid, words, picks));
    TakeNone(pauses);
  }

  /**
   * A write fails after the preamble and `n` word lines went out (a word
   * write when `n < 10`, the end-marker write when `n == 10`).
   */
  lemma WordsRefused(tid: nat, words: seq<string>, picks: seq<nat>, pauses: seq<int>, accepted: nat, start: seq<string>, n: nat)
    requires |picks| == WORD_COUNT && forall i | 0 <= i < |picks| :: picks[i] < |words|
    requires |pauses| == WORD_COUNT
    requires n <= WORD_COUNT && accepted == n + 1
    ensures Outcome(tid, words, picks, pauses, accepted, start,
                    [] + [Preamble(tid)] + WordLines(words, picks)[..n],
                    start + [LogLine(tid, Preamble(tid))] + LogImage(tid, WordLines(words, picks)[..n]),
                    pauses[..n], false)
  {
    AppendEmpty([Preamble(tid)]);
    SentWords(tid, words, picks, start, n);
  }

  /** Every write succeeds: the pipe holds the whole protocol. */
  lemma AllSent(tid: nat, words: seq<string>, picks: seq<nat>, pauses: seq<int>, accepted: nat, start: seq<string>)
    requires |picks| == WORD_COUNT && forall i | 0 <= i < |picks| :: picks[i] < |words|
    requires |pauses| == WORD_COUNT
    requires PROTOCOL_LINES <= accepted
    ensures Outcome(tid, words, picks, pauses, accepted, start,
                    [] + [Preamble(tid)] + WordLines(words, picks)[..WORD_COUNT] + [END_OF_STREAM],
                    start + [LogLine(tid, Preamble(tid))] + LogImage(tid, WordLines(words, picks)[..WORD_COUNT])
                      + [LogLine(tid, END_OF_STREAM)],
                    pauses[..WORD_COUNT], true)
  {
    AppendEmpty([Preamble(tid)]);
    SentWords(tid, words, picks, start, WORD_COUNT);
    SentEnd(tid, words, picks, start);
    TakeAll(Protocol(tid, words, picks));
    TakeAll(pauses);
  }

  /** The pipe and the log once the preamble and `n` word lines have gone out. */
  lemma SentWords(tid: nat, words: seq<string>, picks: seq<nat>, start: seq<string>, n: nat)
    requires forall i | 0 <= i < |picks| :: picks[i] < |words|
    requires n <= |picks|
    ensures var sent := [Preamble(tid)] + WordLines(words, picks)[..n];
      && Protocol(tid, words, picks)[..n + 1] == sent
      && start + [LogLine(tid, Preamble(tid))] + LogImage(tid, WordLines(words, picks)[..n]) == start + LogImage(tid, sent)
  {
    var more := WordLines(words, picks)[..n];
    ProtocolPrefix(tid, words, picks, n);
    LogImageConcat(tid, [Preamble(tid)], more);
    AppendAssociates(start, [LogLine(tid, Preamble(tid))], LogImage(tid, more));
  }

  /** The pipe and the log once the end marker has gone out too. */
  lemma SentEnd(tid: nat, words: seq<string>, picks: seq<nat>, start: seq<string>)
    requires forall i | 0 <= i < |picks| :: picks[i] < |words|
    ensures var full := Protocol(tid, words, picks);
      && full[..|picks| + 1] + [END_OF_STREAM] == full
      && start + LogImage(tid, full[..|picks| + 1]) + [LogLine(tid, END_OF_STREAM)] == start + LogImage(tid, full)
  {
    var full := Protocol(tid, words, picks);
    ProtocolParts(tid, words, picks);
    assert full[..|picks| + 1] + [END_OF_STREAM] == full;
    LogImageAppend(tid, full[..|picks| + 1], END_OF_STREAM);
    AppendAssociates(start, LogImage(tid, full[..|picks| + 1]), [LogLine(tid, END_OF_STREAM)]);
  }

  /**
   * The worker. `picks` are the ten values of `rnd.Next(Words.Length)` and
   * `pauses` the ten values of `rnd.Next(250, 2500)`; the result is the
   * sequence of `Thread.Sleep` arguments in the order of the calls.
   *
   * If the client reads everything, the pipe receives the whole protocol,
   * the log its image, and `serverStream.Close()` is called. Otherwise the
   * pipe holds the lines written before the failing write, the log their
   * image and one DISCONNECTED line, and `Close()` is not called. Either way a pause
   * follows each word line that was sent.
   */
  method Worker(tid: nat, words: seq<string>, picks: seq<nat>, pauses: seq<int>, stream: ServerStream, log: ConsoleLog)
    returns (naps: seq<int>)
    requires |picks| == WORD_COUNT && forall i | 0 <= i < |picks| :: picks[i] < |words|
    requires |pauses| == WORD_COUNT && forall i | 0 <= i < |pauses| :: MIN_PAUSE <= pauses[i] < MAX_PAUSE
    requires stream.lines == [] && !stream.closed
    modifies stream, log
    ensures |stream.lines| == Written(stream.acceptedLines)
    ensures stream.lines == Protocol(tid, words, picks)[..|stream.lines|]
    ensures naps == pauses[..PausesAfter(|stream.lines|)]
    ensures forall i | 0 <= i < |naps| :: MIN_PAUSE <= naps[i] < MAX_PAUSE
    ensures stream.closed <==> PROTOCOL_LINES <= stream.acceptedLines
    ensures log.lines == old(log.lines) + LogImage(tid, stream.lines) +
      if stream.closed then [] else [LogLine(tid, DISCONNECTED)]
  {
    var ok;
    ok, naps := SendProtocol(tid, words, picks, pauses, stream, log);
    if !ok {
      // catch (IOException)
      log.WriteLine(LogLine(tid, DISCONNECTED));
    }
  }

  /** The protocol split into its three parts. */
  lemma ProtocolParts(tid: nat, words: seq<string>, picks: seq<nat>)
    requires forall i | 0 <= i < |picks| :: picks[i] < |words|
    ensures var full := Protocol(tid, words, picks);
      && |full| == |picks| + 2
      && full[0] == Preamble(tid)
      && full[1..|picks| + 1] == WordLines(words, picks)
      && full[|picks| + 1] == END_OF_STREAM
  {
  }
}
