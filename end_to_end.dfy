/**
 * The three programs together: a client that reads what a worker sends
 * passes validation, and a runner whose children all pass prints the
 * "succeeded" summary.
 */
module EndToEnd {
  import opened Wrappers
  import ServerProgram
  import ClientProgram
  import ClientRunner

  /** Every word line the server sends counts as a word for the client. */
  lemma {:induction false} WordLinesCount(words: seq<string>, picks: seq<nat>)
    requires forall i | 0 <= i < |picks| :: picks[i] < |words|
    ensures ClientProgram.CountWords(ServerProgram.WordLines(words, picks)) == |picks|
    decreases |picks|
  {
    if picks != [] {
      var lines := ServerProgram.WordLines(words, picks);
      var line := ServerProgram.WordLine(words[picks[0]]);
      assert line[..6] == ClientProgram.WORD_PREFIX;
      assert lines[1..] == ServerProgram.WordLines(words, picks[1..]);
      WordLinesCount(words, picks[1..]);
    }
  }

  /** The server's preamble carries the prefix the client checks for. */
  lemma PreambleAccepted(tid: nat)
    ensures ClientProgram.StartsWith(ServerProgram.Preamble(tid), ClientProgram.PREAMBLE_PREFIX)
  {
    assert ServerProgram.Preamble(tid)[..21] == ServerProgram.PREAMBLE_PREFIX[..21];
  }

  /** Both programs spell the end marker alike, and it is not a word line. */
  lemma EndMarkerAgreed()
    ensures ServerProgram.END_OF_STREAM == ClientProgram.END_OF_STREAM
    ensures !ClientProgram.StartsWith(ServerProgram.END_OF_STREAM, ClientProgram.WORD_PREFIX)
  {
    assert ServerProgram.END_OF_STREAM[..6][0] != ClientProgram.WORD_PREFIX[0];
  }

  /**
   * A client that receives a worker's whole output exits with 0, having
   * read all twelve lines, however the stream ends afterwards.
   */
  lemma FullProtocolSucceeds(tid: nat, words: seq<string>, picks: seq<nat>, terminator: ClientProgram.Terminator)
    requires |picks| == ServerProgram.WORD_COUNT && forall i | 0 <= i < |picks| :: picks[i] < |words|
    ensures var channel := ClientProgram.Channel(ServerProgram.Protocol(tid, words, picks), terminator);
      && ClientProgram.ExitCode(true, channel) == ClientProgram.EXIT_SUCCESS
      && ClientProgram.LinesConsumed(true, channel) == ServerProgram.PROTOCOL_LINES
  {
    var full := ServerProgram.Protocol(tid, words, picks);
    var body := ServerProgram.WordLines(words, picks);
    ServerProgram.ProtocolShape(tid, words, picks);
    ServerProgram.ProtocolLinesDistinct(tid, words, picks);
    PreambleAccepted(tid);
    assert full[1..] == body + [ServerProgram.END_OF_STREAM];
    assert full[1..][..10] == body;
    assert full[1..][..11] == full[1..];
    EndMarkerAgreed();
    ClientProgram.EndMarkerFound(ClientProgram.Channel(full, terminator), 10);
    WordLinesCount(words, picks);
    ClientProgram.CountWordsAppend(body, ServerProgram.END_OF_STREAM);
  }

  /**
   * A client that receives only a proper prefix of a worker's output and
   * then the end of the stream reports the missing end marker; if nothing
   * arrived at all, it reports the exception from the null preamble.
   */
  lemma TruncatedProtocolFails(tid: nat, words: seq<string>, picks: seq<nat>, n: nat)
    requires |picks| == ServerProgram.WORD_COUNT && forall i | 0 <= i < |picks| :: picks[i] < |words|
    requires n < ServerProgram.PROTOCOL_LINES
    ensures ClientProgram.ExitCode(true, ClientProgram.Channel(ServerProgram.Protocol(tid, words, picks)[..n], ClientProgram.EndOfStream))
      == if n == 0 then ClientProgram.EXIT_EXCEPTION else ClientProgram.EXIT_NO_END_OF_STREAM
    ensures ClientProgram.ExitCode(true, ClientProgram.Channel(ServerProgram.Protocol(tid, words, picks)[..n], ClientProgram.ReadFails))
      == ClientProgram.EXIT_EXCEPTION
  {
    var sent := ServerProgram.Protocol(tid, words, picks)[..n];
    ServerProgram.ProtocolShape(tid, words, picks);
    ServerProgram.ProtocolLinesDistinct(tid, words, picks);
    if 0 < n {
      PreambleAccepted(tid);
      forall j | 0 <= j < |sent[1..]|
        ensures sent[1..][j] != ClientProgram.END_OF_STREAM
      {
        assert sent[1..][j] == ServerProgram.Protocol(tid, words, picks)[j + 1];
      }
      ClientProgram.MissingEndMarkerExit(sent);
    }
  }

  /** A hundred children that all pass validation give the "succeeded" summary. */
  lemma AllSessionsSucceed(results: seq<string>)
    requires |results| == ClientRunner.NUM_CHILDREN
    requires forall i | 0 <= i < |results| :: results[i] == ClientRunner.CheckClient(ClientProgram.EXIT_SUCCESS)
    ensures ClientRunner.Common(results) == Some(ClientRunner.SUCCEEDED)
    ensures ClientRunner.AllAgree(results)
  {
    ClientRunner.CommonAgreement(results);
  }

  /** One child that fails while another passes suppresses the summary. */
  lemma OneFailureSuppressesSummary(exitCodes: seq<int>, i: nat, j: nat)
    requires i < |exitCodes| && j < |exitCodes|
    requires exitCodes[i] == ClientProgram.EXIT_SUCCESS && exitCodes[j] != ClientProgram.EXIT_SUCCESS
    ensures ClientRunner.Common(ClientRunner.Describe(exitCodes)) == Some("")
  {
    var results := ClientRunner.Describe(exitCodes);
    ClientRunner.DescribeAt(exitCodes, i);
    ClientRunner.DescribeAt(exitCodes, j);
    if 0 <= exitCodes[j] <= 5 {
      ClientRunner.CheckClientDistinct(exitCodes[i], exitCodes[j]);
    }
    ClientRunner.CommonAgreement(results);
  }
}
