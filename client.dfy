/**
 * The validating client: after connecting, it reads the preamble, then reads
 * lines until the end marker or the end of the stream, counting word lines,
 * and leaves with an exit code that says which check failed.
 *
 * The pipe is a `Channel`: the lines the server delivers, followed either by
 * the end of the stream (`ReadLine` returns null; the framework reports a
 * broken pipe this way too) or by a read that fails (`ReadLine` throws).
 */
module ClientProgram {
  import opened Wrappers
  import opened Sequences

  const PREAMBLE_PREFIX: string := "You are connected to "
  const WORD_PREFIX: string := "WORD: "
  const END_OF_STREAM: string := "END OF STREAM"
  const EXPECTED_WORDS: nat := 10

  const EXIT_SUCCESS: int := 0
  const EXIT_CONNECT_FAILED: int := 1
  const EXIT_NO_PREAMBLE: int := 2
  const EXIT_NO_END_OF_STREAM: int := 3
  const EXIT_WRONG_NUMBER_OF_WORDS: int := 4
  const EXIT_EXCEPTION: int := 5

  datatype Terminator = EndOfStream | ReadFails
  datatype Channel = Channel(lines: seq<string>, terminator: Terminator)
  datatype ReadResult = Line(text: string) | Null | Thrown

  /** What the `k`-th call of `reader.ReadLine()` gives. */
  function ReadLine(channel: Channel, k: nat): (r: ReadResult)
    ensures r.Line? <==> k < |channel.lines|
    ensures r.Line? ==> r.text == channel.lines[k]
    ensures r.Thrown? <==> |channel.lines| <= k && channel.terminator.ReadFails?
  {
    if k < |channel.lines| then Line(channel.lines[k])
    else if channel.terminator.EndOfStream? then Null
    else Thrown
  }

  /** Ordinal `String.StartsWith`. */
  predicate StartsWith(s: string, prefix: string) {
    |prefix| <= |s| && s[..|prefix|] == prefix
  }

  /** The position of the first end marker in `lines`, if there is one. */
  function FirstEnd(lines: seq<string>): (r: Option<nat>)
    ensures r.None? <==> END_OF_STREAM !in lines
    ensures r.Some? ==>
      && r.value < |lines| && lines[r.value] == END_OF_STREAM
      && forall k | 0 <= k < r.value :: lines[k] != END_OF_STREAM
  {
    if lines == [] then None
    else if lines[0] == END_OF_STREAM then Some(0)
    else match FirstEnd(lines[1..])
      case None => None
      case Some(i) => Some(i + 1)
  }

  /** An end marker with none before it is the first one. */
  lemma {:induction false} FirstEndAt(lines: seq<string>, j: nat)
    requires j < |lines| && lines[j] == END_OF_STREAM && END_OF_STREAM !in lines[..j]
    ensures FirstEnd(lines) == Some(j)
    decreases j
  {
    if 0 < j {
      assert lines[0] == lines[..j][0];
      assert lines[1..][..j - 1] == lines[..j][1..];
      FirstEndAt(lines[1..], j - 1);
    }
  }

  /** How many of `lines` start with the word prefix. */
  function CountWords(lines: seq<string>): (n: nat)
    ensures n <= |lines|
  {
    if lines == [] then 0
    else (if StartsWith(lines[0], WORD_PREFIX) then 1 else 0) + CountWords(lines[1..])
  }

  lemma {:induction false} CountWordsAppend(lines: seq<string>, line: string)
    ensures CountWords(lines + [line]) == CountWords(lines) + if StartsWith(line, WORD_PREFIX) then 1 else 0
  {
    if lines != [] {
      assert (lines + [line])[1..] == lines[1..] + [line];
      CountWordsAppend(lines[1..], line);
    }
  }

  /**
   * The exit code of a session, stated without the loop: a failed connect
   * gives 1; no preamble line at all makes `preamble.StartsWith` throw on
   * null (or the read itself throws), which the handler turns into 5; a
   * preamble without the prefix gives 2; then only the lines up to the first
   * end marker matter.
   */
  function ExitCode(connected: bool, channel: Channel): int {
    var lines := channel.lines;
    if !connected then EXIT_CONNECT_FAILED
    else if lines == [] then EXIT_EXCEPTION
    else if !StartsWith(lines[0], PREAMBLE_PREFIX) then EXIT_NO_PREAMBLE
    else match FirstEnd(lines[1..])
      case None =>
        if channel.terminator == ReadFails then EXIT_EXCEPTION else EXIT_NO_END_OF_STREAM
      case Some(j) =>
        if CountWords(lines[1..j + 2]) != EXPECTED_WORDS then EXIT_WRONG_NUMBER_OF_WORDS
        else EXIT_SUCCESS
  }

  /** How many lines a session takes from the pipe. */
  function LinesConsumed(connected: bool, channel: Channel): nat {
    var lines := channel.lines;
    if !connected || lines == [] then 0
    else if !StartsWith(lines[0], PREAMBLE_PREFIX) then 1
    else match FirstEnd(lines[1..])
      case None => |lines|
      case Some(j) => j + 2
  }

  /**
   * `Main` after the debugger path. `connected` is whether
   * `clientStream.Connect(10000)` returned; `consumed` is the number of lines
   * `ReadLine` delivered.
   */
  method Session(connected: bool, channel: Channel) returns (exitCode: int, consumed: nat)
    ensures exitCode == ExitCode(connected, channel)
    ensures consumed == LinesConsumed(connected, channel)
  {
    consumed := 0;
    if !connected {
      return EXIT_CONNECT_FAILED, 0;
    }
    label Try: {
      var preamble := ReadLine(channel, 0);
      if !preamble.Line? {
        // an IOException, or the NullReferenceException of `null.StartsWith`
        break Try;
      }
      consumed := 1;
      if !StartsWith(preamble.text, PREAMBLE_PREFIX) {
        return EXIT_NO_PREAMBLE, consumed;
      }
      ghost var rest := channel.lines[1..];
      var haveEndOfStream := false;
      var numberOfWords := 0;
      while !haveEndOfStream
        invariant 1 <= consumed <= |channel.lines|
        invariant !haveEndOfStream ==> END_OF_STREAM !in rest[..consumed - 1]
        invariant haveEndOfStream ==>
          2 <= consumed && rest[consumed - 2] == END_OF_STREAM && END_OF_STREAM !in rest[..consumed - 2]
        invariant numberOfWords == CountWords(rest[..consumed - 1])
        decreases |channel.lines| - consumed
      {
        var line := ReadLine(channel, consumed);
        if line.Thrown? {
          TakeAll(rest);
          break Try;
        }
        if line.Null? {
          break;
        }
        TakeOneMore(rest, consumed - 1);
        CountWordsAppend(rest[..consumed - 1], line.text);
        consumed := consumed + 1;
        haveEndOfStream := haveEndOfStream || line.text == END_OF_STREAM;
        if StartsWith(line.text, WORD_PREFIX) {
          numberOfWords := numberOfWords + 1;
        }
      }
      if !haveEndOfStream {
        TakeAll(rest);
        MissingEndMarkerExit(channel.lines);
        return EXIT_NO_END_OF_STREAM, consumed;
      }
      EndMarkerFound(channel, consumed - 2);
      if numberOfWords != EXPECTED_WORDS {
        return EXIT_WRONG_NUMBER_OF_WORDS, consumed;
      }
      return EXIT_SUCCESS, consumed;
    }
    // catch (Exception)
    exitCode := EXIT_EXCEPTION;
  }

  /** The first end marker after the preamble decides between 4 and 0. */
  lemma EndMarkerFound(channel: Channel, j: nat)
    requires 0 < |channel.lines| && StartsWith(channel.lines[0], PREAMBLE_PREFIX)
    requires j + 1 < |channel.lines|
    requires channel.lines[1..][j] == END_OF_STREAM && END_OF_STREAM !in channel.lines[1..][..j]
    ensures ExitCode(true, channel) ==
      if CountWords(channel.lines[1..][..j + 1]) != EXPECTED_WORDS then EXIT_WRONG_NUMBER_OF_WORDS else EXIT_SUCCESS
    ensures LinesConsumed(true, channel) == j + 2
  {
    FirstEndAt(channel.lines[1..], j);
    assert channel.lines[1..j + 2] == channel.lines[1..][..j + 1];
  }

  /** A failed connect gives 1 and reads nothing. */
  lemma ConnectFailureExit(channel: Channel)
    ensures ExitCode(false, channel) == EXIT_CONNECT_FAILED
    ensures LinesConsumed(false, channel) == 0
  {
  }

  /**
   * With no preamble line, `preamble` is null and `StartsWith` throws (or the
   * read itself throws): the handler gives 5, never 2.
   */
  lemma NullPreambleExit(terminator: Terminator)
    ensures ExitCode(true, Channel([], terminator)) == EXIT_EXCEPTION
  {
  }

  /** Lines after the first end marker, and how the stream ends, change nothing. */
  lemma IgnoresAfterEnd(connected: bool, lines: seq<string>, j: nat, extra: seq<string>, t1: Terminator, t2: Terminator)
    requires 1 <= j < |lines| && lines[j] == END_OF_STREAM && END_OF_STREAM !in lines[1..j]
    ensures ExitCode(connected, Channel(lines[..j + 1] + extra, t2)) == ExitCode(connected, Channel(lines, t1))
    ensures LinesConsumed(connected, Channel(lines[..j + 1] + extra, t2)) == LinesConsumed(connected, Channel(lines, t1))
    ensures connected && StartsWith(lines[0], PREAMBLE_PREFIX) ==> LinesConsumed(connected, Channel(lines, t1)) == j + 1
  {
    var cut := lines[..j + 1] + extra;
    assert cut[0] == lines[0];
    assert lines[1..][..j - 1] == lines[1..j];
    FirstEndAt(lines[1..], j - 1);
    assert cut[1..][..j - 1] == lines[1..j];
    FirstEndAt(cut[1..], j - 1);
    assert cut[1..j + 1] == lines[1..j + 1];
  }

  /** The stream ends before the end marker: 3 on end of stream, whatever the word count; 5 when the read fails. */
  lemma MissingEndMarkerExit(lines: seq<string>)
    requires 0 < |lines| && StartsWith(lines[0], PREAMBLE_PREFIX)
    requires END_OF_STREAM !in lines[1..]
    ensures ExitCode(true, Channel(lines, EndOfStream)) == EXIT_NO_END_OF_STREAM
    ensures ExitCode(true, Channel(lines, ReadFails)) == EXIT_EXCEPTION
    ensures LinesConsumed(true, Channel(lines, EndOfStream)) == |lines|
  {
  }

  /** The conditions under which a session succeeds. */
  predicate Validates(connected: bool, lines: seq<string>) {
    && connected
    && 0 < |lines|
    && StartsWith(lines[0], PREAMBLE_PREFIX)
    && exists j | 1 <= j < |lines| ::
         && lines[j] == END_OF_STREAM
         && END_OF_STREAM !in lines[1..j]
         && CountWords(lines[1..j + 1]) == EXPECTED_WORDS
  }

  /** An exit code of 0 means the session validated. */
  lemma SuccessValidates(connected: bool, channel: Channel)
    requires ExitCode(connected, channel) == EXIT_SUCCESS
    ensures Validates(connected, channel.lines)
  {
    var lines := channel.lines;
    var i := FirstEnd(lines[1..]).value;
    assert lines[i + 1] == lines[1..][i];
    assert lines[1..i + 1] == lines[1..][..i];
  }

  /** A session that validates exits with 0. */
  lemma ValidatesSucceeds(connected: bool, channel: Channel)
    requires Validates(connected, channel.lines)
    ensures ExitCode(connected, channel) == EXIT_SUCCESS
  {
    var lines := channel.lines;
    var j :| 1 <= j < |lines| && lines[j] == END_OF_STREAM && END_OF_STREAM !in lines[1..j]
      && CountWords(lines[1..j + 1]) == EXPECTED_WORDS;
    assert lines[1..][..j - 1] == lines[1..j];
    FirstEndAt(lines[1..], j - 1);
  }

  /**
   * Exit code 0 exactly when the preamble has its prefix, an end marker
   * follows, and exactly ten word lines come before (or at) the first one.
   */
  lemma SuccessIff(connected: bool, channel: Channel)
    ensures ExitCode(connected, channel) == EXIT_SUCCESS <==> Validates(connected, channel.lines)
  {
    if ExitCode(connected, channel) == EXIT_SUCCESS {
      SuccessValidates(connected, channel);
    }
    if Validates(connected, channel.lines) {
      ValidatesSucceeds(connected, channel);
    }
  }

  /** An end marker after a word count other than ten gives 4. */
  lemma WrongWordCountExit(lines: seq<string>, j: nat)
    requires 0 < |lines| && StartsWith(lines[0], PREAMBLE_PREFIX)
    requires 1 <= j < |lines| && lines[j] == END_OF_STREAM && END_OF_STREAM !in lines[1..j]
    requires CountWords(lines[1..j + 1]) != EXPECTED_WORDS
    ensures forall t: Terminator :: ExitCode(true, Channel(lines, t)) == EXIT_WRONG_NUMBER_OF_WORDS
  {
    assert lines[1..][..j - 1] == lines[1..j];
    FirstEndAt(lines[1..], j - 1);
  }
}
