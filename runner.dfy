/**
 * The client runner: it starts a hundred client processes, then waits for
 * each in order, prints one line per child with the meaning of its exit
 * code, and prints a summary when every child reported the same result.
 *
 * `Process.Start` and `WaitForExit` are not modelled; a launched child is
 * known by the exit code it ends with, given in launch order.
 */
module ClientRunner {
  import opened Wrappers
  import opened Decimal
  import opened Sequences

  const NUM_CHILDREN: nat := 100

  const SUCCEEDED: string := "succeeded"
  const FAILED_TO_CONNECT: string := "FAILED TO CONNECT"
  const NO_PREAMBLE: string := "NO PREAMBLE"
  const NO_END_OF_STREAM: string := "NO END OF STREAM"
  const WRONG_NUMBER_OF_RECORDS: string := "WRONG NUMBER OF RECORDS"
  const EXCEPTION_WHILE_READING: string := "EXCEPTION WHILE READING"
  const UNKNOWN: string := "UNKNOWN"

  /** A started client process, as the runner sees it once it has exited. */
  datatype Child = Child(exitCode: int)

  /** The switch in `CheckClient`. */
  function CheckClient(exitCode: int): (result: string)
    ensures result != ""
    ensures result == UNKNOWN <==> !(0 <= exitCode <= 5)
  {
    match exitCode
    case 0 => SUCCEEDED
    case 1 => FAILED_TO_CONNECT
    case 2 => NO_PREAMBLE
    case 3 => NO_END_OF_STREAM
    case 4 => WRONG_NUMBER_OF_RECORDS
    case 5 => EXCEPTION_WHILE_READING
    case _ => UNKNOWN
  }

  /** The six known exit codes have six different descriptions. */
  lemma CheckClientDistinct(a: int, b: int)
    requires 0 <= a <= 5 && 0 <= b <= 5
    ensures CheckClient(a) == CheckClient(b) <==> a == b
  {
    if a != b {
      assert |CheckClient(a)| != |CheckClient(b)| || CheckClient(a)[0] != CheckClient(b)[0];
    }
  }

  /** One step of the check loop: the first result is kept until another one differs. */
  function Merge(common: Option<string>, result: string): Option<string> {
    match common
    case None => Some(result)
    case Some(c) => if result != c then Some("") else common
  }

  /** `commonCheckResult` after the check loop has seen `results`, in order. */
  function Common(results: seq<string>): Option<string>
    decreases |results|
  {
    if results == [] then None
    else Merge(Common(results[..|results| - 1]), results[|results| - 1])
  }

  /** The descriptions of `exitCodes`, in order. */
  function Describe(exitCodes: seq<int>): (results: seq<string>)
    ensures |results| == |exitCodes|
    decreases |exitCodes|
  {
    if exitCodes == [] then []
    else Describe(exitCodes[..|exitCodes| - 1]) + [CheckClient(exitCodes[|exitCodes| - 1])]
  }

  /** The `i`-th result describes the `i`-th exit code. */
  lemma {:induction false} DescribeAt(exitCodes: seq<int>, i: nat)
    requires i < |exitCodes|
    ensures Describe(exitCodes)[i] == CheckClient(exitCodes[i])
    decreases |exitCodes|
  {
    if i < |exitCodes| - 1 {
      DescribeAt(exitCodes[..|exitCodes| - 1], i);
    }
  }

  lemma CommonAppend(results: seq<string>, result: string)
    ensures Common(results + [result]) == Merge(Common(results), result)
    ensures ReportLines(results + [result]) == ReportLines(results) + [ReportLine(|results| + 1, result)]
  {
    assert (results + [result])[..|results|] == results;
  }

  predicate AllAgree(results: seq<string>) {
    forall i | 0 <= i < |results| :: results[i] == results[0]
  }

  /** Once the common result is "", it stays "", whatever follows. */
  lemma {:induction false} CommonStaysEmpty(results: seq<string>, more: seq<string>)
    requires Common(results) == Some("")
    ensures Common(results + more) == Some("")
    decreases |more|
  {
    if more == [] {
      assert results + more == results;
    } else {
      var init := results + more[..|more| - 1];
      assert (results + more)[..|results + more| - 1] == init;
      CommonStaysEmpty(results, more[..|more| - 1]);
    }
  }

  /** The common result is the first result when all agree, and "" otherwise. */
  lemma {:induction false} CommonAgreement(results: seq<string>)
    requires 0 < |results|
    ensures Common(results) == Some(if AllAgree(results) then results[0] else "")
    decreases |results|
  {
    var n := |results|;
    if 1 < n {
      var init := results[..n - 1];
      CommonAgreement(init);
      if AllAgree(init) {
        if !AllAgree(results) {
          assert results[n - 1] != results[0];
        }
      } else {
        var i :| 0 <= i < n - 1 && init[i] != init[0];
        assert results[i] != results[0];
      }
    }
  }

  /** The line printed for the `number`-th child, `"{0,4}: {1}"`. */
  function ReportLine(number: nat, result: string): string {
    PadLeft(DecimalString(number), 4) + ": " + result
  }

  function SummaryLine(common: string): string {
    "All check results are \"" + common + "\""
  }

  /** The per-child lines, numbered from 1 in launch order. */
  function ReportLines(results: seq<string>): (lines: seq<string>)
    ensures |lines| == |results|
    decreases |results|
  {
    if results == [] then []
    else ReportLines(results[..|results| - 1]) + [ReportLine(|results|, results[|results| - 1])]
  }

  /** The `i`-th report line carries number `i + 1` and the `i`-th result. */
  lemma {:induction false} ReportLinesAt(results: seq<string>, i: nat)
    requires i < |results|
    ensures ReportLines(results)[i] == ReportLine(i + 1, results[i])
    decreases |results|
  {
    if i < |results| - 1 {
      ReportLinesAt(results[..|results| - 1], i);
    }
  }

  /** The launch loop: one child per exit code, in order. */
  method LaunchClients(exitCodes: seq<int>) returns (children: seq<Child>)
    ensures |children| == |exitCodes|
    ensures forall k | 0 <= k < |children| :: children[k] == Child(exitCodes[k])
  {
    children := [];
    for i := 0 to |exitCodes|
      invariant |children| == i
      invariant forall k | 0 <= k < i :: children[k] == Child(exitCodes[k])
    {
      children := children + [Child(exitCodes[i])];   // LaunchClient()
    }
  }

  /** Describing one more exit code appends its description. */
  lemma DescribeOneMore(exitCodes: seq<int>, i: nat)
    requires i < |exitCodes|
    ensures Describe(exitCodes[..i + 1]) == Describe(exitCodes[..i]) + [CheckClient(exitCodes[i])]
  {
    TakeOneMore(exitCodes, i);
    TakeOfAppend(exitCodes[..i], exitCodes[i]);
  }

  /**
   * The check loop: each child is checked once, in launch order, folded into
   * `commonCheckResult` and reported on its own numbered line.
   */
  method CheckClients(exitCodes: seq<int>, children: seq<Child>)
    returns (results: seq<string>, commonCheckResult: Option<string>, console: seq<string>)
    requires |children| == |exitCodes|
    requires forall k | 0 <= k < |children| :: children[k] == Child(exitCodes[k])
    ensures results == Describe(exitCodes)
    ensures commonCheckResult == Common(results)
    ensures console == ReportLines(results)
  {
    commonCheckResult := None;
    results := [];
    console := [];
    for i := 0 to |children|
      invariant results == Describe(exitCodes[..i])
      invariant commonCheckResult == Common(results)
      invariant console == ReportLines(results)
    {
      var checkResult := CheckClient(children[i].exitCode);
      ghost var before := commonCheckResult;
      if commonCheckResult == None {
        commonCheckResult := Some(checkResult);
      } else if checkResult != commonCheckResult.value {
        commonCheckResult := Some("");
      }
      assert commonCheckResult == Merge(before, checkResult);
      CommonAppend(results, checkResult);
      DescribeOneMore(exitCodes, i);
      results := results + [checkResult];
      console := console + [ReportLine(i + 1, checkResult)];
    }
    TakeAll(exitCodes);
  }

  /**
   * `Main`: the launch loop, then the check loop, then the summary.
   * `exitCodes[i]` is the exit code the `i`-th child ends with. The outputs
   * are the results in order, the final `commonCheckResult`, and the
   * console lines.
   */
  method RunClients(exitCodes: seq<int>) returns (results: seq<string>, common: string, console: seq<string>)
    requires |exitCodes| == NUM_CHILDREN
    ensures results == Describe(exitCodes)
    ensures Some(common) == Common(results)
    ensures common != "" <==> AllAgree(results)
    ensures console == ReportLines(results) + if AllAgree(results) then ["", SummaryLine(results[0])] else []
  {
    var children := LaunchClients(exitCodes);
    var commonCheckResult;
    results, commonCheckResult, console := CheckClients(exitCodes, children);
    CommonAgreement(results);
    common := commonCheckResult.value;
    if |common| > 0 {
      console := console + ["", SummaryLine(common)];
    }
  }
}
