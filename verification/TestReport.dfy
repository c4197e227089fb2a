/**
 The stream of test results: `sali_host_test_report` prints one frame for each result,
 `parse_test_report` reads the stream back.
 */
module TestReports {
  import opened Wrappers
  import opened Bytes

  const HEADER_LENGTH: nat := 24
  const MAGIC: seq<Byte> := [83, 76, 84, 49]

  datatype TestResult = Passed | Failed(message: Option<seq<Byte>>)

  datatype TestFailure = TestFailure(index: nat, message: Option<seq<Byte>>)

  datatype TestRun = TestRun(exitCode: int, failures: seq<TestFailure>)

  datatype ReportError =
    | TruncatedHeader | BadMagic | NonzeroReserved | BadTerminal | DataAfterTerminal | BadResult
    | TruncatedMessage | InvalidUtf8 | BadPayload | MissingTerminal | FailureCountMismatch | ExitMismatch

  /* ----- frames ----- */

  function Header(index: nat, status: Byte, hasMessage: Byte, length: nat): (r: seq<Byte>)
    ensures |r| == HEADER_LENGTH
  {
    MAGIC + U64(index) + [status, hasMessage, 0, 0] + U64(length)
  }

  function ResultFrame(index: nat, result: TestResult): seq<Byte> {
    match result
    case Passed => Header(index, 0, 0, 0)
    case Failed(None) => Header(index, 1, 0, 0)
    case Failed(Some(message)) => Header(index, 1, 1, |message|) + message
  }

  function Failures(results: seq<TestResult>, first: nat): seq<TestFailure> {
    if results == [] then []
    else FailureAt(first, results[0]) + Failures(results[1..], first + 1)
  }

  /** The frames of `results`, numbered from `first`, and the closing frame. */
  function EncodeFrom(results: seq<TestResult>, first: nat, failed: nat): seq<Byte> {
    if results == [] then Header(first, 2, 0, failed)
    else ResultFrame(first, results[0]) + EncodeFrom(results[1..], first + 1, failed)
  }

  /** What a whole test run prints. */
  function EncodeReport(results: seq<TestResult>): seq<Byte> {
    EncodeFrom(results, 0, |Failures(results, 0)|)
  }

  function ExitCode(results: seq<TestResult>): int { if Failures(results, 0) == [] then 0 else 1 }

  /** A message is valid text whose length fits its field. */
  predicate PrintableResult(r: TestResult, valid: seq<Byte> -> bool) {
    r.Failed? && r.message.Some? ==> valid(r.message.value) && |r.message.value| < U64_LIMIT
  }

  ghost predicate Printable(results: seq<TestResult>, valid: seq<Byte> -> bool) {
    forall i | 0 <= i < |results| :: PrintableResult(results[i], valid)
  }

  /* ----- the printer ----- */

  datatype WriteOutcome = Interrupted | WriteFailed | Wrote(count: nat)

  /** A pipe, and what the operating system will answer to successive writes. */
  class Pipe {
    var bytes: seq<Byte>
    var outcomes: seq<WriteOutcome>

    /** One `write` call: some bytes, an interruption, or a failure. */
    method Write(data: seq<Byte>) returns (r: WriteOutcome)
      requires outcomes != []
      modifies this
      ensures r == old(outcomes)[0] && outcomes == old(outcomes)[1..]
      ensures bytes == old(bytes) + (if r.Wrote? && r.count <= |data| then data[..r.count] else [])
    {
      r := outcomes[0];
      outcomes := outcomes[1..];
      if r.Wrote? && r.count <= |data| { bytes := bytes + data[..r.count]; }
    }
  }

  /** `salicin_write_all`: everything arrives, or what arrived is a proper prefix. */
  method WriteAll(pipe: Pipe, data: seq<Byte>) returns (ok: bool)
    modifies pipe
    ensures exists n :: 0 <= n <= |data| && pipe.bytes == old(pipe.bytes) + data[..n] && (ok <==> n == |data|)
  {
    var sent := 0;
    while sent < |data|
      invariant 0 <= sent <= |data| && pipe.bytes == old(pipe.bytes) + data[..sent]
      decreases |pipe.outcomes|
    {
      if pipe.outcomes == [] { return false; }
      var r := pipe.Write(data[sent..]);
      if r.Interrupted? { continue; }
      if r.WriteFailed? || r.count == 0 || r.count > |data| - sent { return false; }
      assert data[..sent] + data[sent..][..r.count] == data[..sent + r.count];
      sent := sent + r.count;
    }
    ok := true;
  }

  lemma FirstDigit(value: nat, count: nat)
    requires count > 0
    ensures LittleEndian(value, count)[0] == value % 256
    ensures LittleEndian(value, count)[1..] == LittleEndian(value / 256, count - 1)
  {
  }

  /** `salicin_store_u64_le`. */
  method StoreU64Le(output: array<Byte>, offset: nat, value: nat)
    requires offset + 8 <= output.Length
    modifies output
    ensures output[..] == old(output[..offset]) + U64(value) + old(output[offset + 8..])
  {
    ghost var before := output[..];
    ghost var digits := U64(value);
    var shifted: nat := value;
    for index := 0 to 8
      invariant LittleEndian(shifted, 8 - index) == digits[index..]
      invariant forall k | 0 <= k < output.Length ::
                  output[k] == if offset <= k < offset + index then digits[k - offset] else before[k]
    {
      FirstDigit(shifted, 8 - index);
      assert digits[index..][0] == digits[index] && digits[index..][1..] == digits[index + 1..];
      output[offset + index] := shifted % 256;
      shifted := shifted / 256;
    }
  }

  method BuildHeader(index: nat, status: Byte, hasMessage: Byte, length: nat) returns (header: array<Byte>)
    ensures fresh(header) && header[..] == Header(index, status, hasMessage, length)
  {
    header := new Byte[24] [83, 76, 84, 49, 0, 0, 0, 0, 0, 0, 0, 0, status, hasMessage, 0, 0, 0, 0, 0, 0, 0, 0, 0, 0];
    StoreU64Le(header, 4, index);
    StoreU64Le(header, 16, length);
  }

  predicate Rejected(status: Byte, hasMessage: Byte, data: Option<seq<Byte>>) {
    status > 2 || hasMessage > 1 || (status != 1 && hasMessage != 0) || (hasMessage != 0 && data.None?)
  }

  function Payload(status: Byte, hasMessage: Byte, data: Option<seq<Byte>>): seq<Byte> {
    if status == 1 && hasMessage != 0 && data.Some? then data.value else []
  }

  /** `sali_host_test_report`: on success with a consumer, exactly one frame was written. */
  method Report(pipe: Pipe, hasConsumer: bool, index: nat, status: Byte, hasMessage: Byte, data: Option<seq<Byte>>,
                length: nat)
    returns (code: int)
    requires data.Some? && hasMessage != 0 ==> length == |data.value|
    modifies pipe
    ensures code == 0 || code == -1
    ensures Rejected(status, hasMessage, data) ==> code == -1 && pipe.bytes == old(pipe.bytes)
    ensures !Rejected(status, hasMessage, data) && !hasConsumer ==> code == 0 && pipe.bytes == old(pipe.bytes)
    ensures !Rejected(status, hasMessage, data) && hasConsumer ==>
              var frame := Header(index, status, hasMessage, length) + Payload(status, hasMessage, data);
              exists n :: 0 <= n <= |frame| && pipe.bytes == old(pipe.bytes) + frame[..n]
                  && (code == 0 <==> n == |frame|)
  {
    if Rejected(status, hasMessage, data) { return -1; }
    if !hasConsumer { return 0; }
    var header := BuildHeader(index, status, hasMessage, length);
    ghost var top, payload := Header(index, status, hasMessage, length), Payload(status, hasMessage, data);
    ghost var frame := top + payload;
    var ok := WriteAll(pipe, header[..]);
    ghost var n: nat :| n <= |top| && pipe.bytes == old(pipe.bytes) + top[..n] && (ok <==> n == |top|);
    assert top[..n] == frame[..n];
    if !ok { return -1; }
    assert top[..n] == top;
    if status == 1 && hasMessage != 0 {
      ok := WriteAll(pipe, data.value);
      ghost var m: nat :| m <= |payload| && pipe.bytes == old(pipe.bytes) + top + payload[..m]
          && (ok <==> m == |payload|);
      assert old(pipe.bytes) + top + payload[..m] == old(pipe.bytes) + frame[..|top| + m];
      if !ok { return -1; }
    }
    code := 0;
  }

  /** The frame for one result, as `std::test::report` and `send` pass it on; a failed write traps. */
  method SendResult(pipe: Pipe, hasConsumer: bool, index: nat, result: TestResult) returns (ok: bool)
    modifies pipe
    ensures ok ==> pipe.bytes == old(pipe.bytes) + (if hasConsumer then ResultFrame(index, result) else [])
    ensures !ok ==> hasConsumer && old(pipe.bytes) <= pipe.bytes < old(pipe.bytes) + ResultFrame(index, result)
  {
    var code;
    hide Header;
    match result {
      case Passed => code := Report(pipe, hasConsumer, index, 0, 0, Some([]), 0);
      case Failed(None) => code := Report(pipe, hasConsumer, index, 1, 0, Some([]), 0);
      case Failed(Some(message)) => code := Report(pipe, hasConsumer, index, 1, 1, Some(message), |message|);
    }
    ok := code == 0;
  }

  /** What is cut short within a part is cut short within the whole. */
  lemma CutShort(now: seq<Byte>, before: seq<Byte>, part: seq<Byte>, later: seq<Byte>)
    requires now < before + part
    ensures now < before + (part + later)
  {
    assert before + (part + later) == (before + part) + later;
  }

  lemma OneReported(results: seq<TestResult>, i: nat, failed: nat)
    requires i < |results|
    ensures EncodeFrom(results[i..], i, failed)
        == ResultFrame(i, results[i]) + EncodeFrom(results[i + 1..], i + 1, failed)
    ensures Failures(results[i..], i) == FailureAt(i, results[i]) + Failures(results[i + 1..], i + 1)
  {
    hide Header;
    assert results[i..][1..] == results[i + 1..];
  }

  /**
   The generated test runner: each result in order, the closing frame, and the exit code. If
   no write fails, what is in the pipe is the encoding of the results; if one does, the run
   traps and a proper prefix of it is.
   */
  method RunTests(pipe: Pipe, hasConsumer: bool, results: seq<TestResult>) returns (exit: Option<int>)
    modifies pipe
    ensures exit.Some? ==> exit.value == ExitCode(results)
    ensures exit.Some? ==> pipe.bytes == old(pipe.bytes) + (if hasConsumer then EncodeReport(results) else [])
    ensures exit.None? ==> hasConsumer && old(pipe.bytes) <= pipe.bytes < old(pipe.bytes) + EncodeReport(results)
  {
    hide Header; hide ResultFrame;
    var failures := 0;
    ghost var failed := |Failures(results, 0)|;
    assert results[0..] == results && results[|results|..] == [];
    for i := 0 to |results|
      invariant old(pipe.bytes) <= pipe.bytes
      invariant hasConsumer
          ==> pipe.bytes + EncodeFrom(results[i..], i, failed) == old(pipe.bytes) + EncodeReport(results)
      invariant !hasConsumer ==> pipe.bytes == old(pipe.bytes)
      invariant failures + |Failures(results[i..], i)| == failed
    {
      ghost var before := pipe.bytes;
      ghost var frame, later := ResultFrame(i, results[i]), EncodeFrom(results[i + 1..], i + 1, failed);
      OneReported(results, i, failed);
      var ok := SendResult(pipe, hasConsumer, i, results[i]);
      if !ok {
        CutShort(pipe.bytes, before, frame, later);
        return None;
      }
      assert (before + frame) + later == before + (frame + later);
      if results[i].Failed? { failures := failures + 1; }
    }
    ghost var closing := Header(|results|, 2, 0, failures);
    assert closing + Payload(2, 0, Some([])) == closing;
    var code := Report(pipe, hasConsumer, |results|, 2, 0, Some([]), failures);
    if code != 0 { return None; }
    exit := Some(if failures == 0 then 0 else 1);
  }

  /* ----- the parser ----- */

  /** The failures read and the count the closing frame claims. */
  datatype Parsed = Listed(failures: seq<TestFailure>, failed: nat) | Unreadable(error: ReportError)

  function Prepend(failures: seq<TestFailure>, rest: Parsed): Parsed {
    match rest
    case Listed(more, failed) => Listed(failures + more, failed)
    case Unreadable(e) => Unreadable(e)
  }

  /** The message of one frame, and how many payload bytes it has. */
  function Message(status: Byte, hasMessage: Byte, length: nat, payload: seq<Byte>, valid: seq<Byte> -> bool)
    : Result<Option<seq<Byte>>, ReportError>
  {
    if (status == 0 || status == 1) && hasMessage == 0 && length == 0 then Success(None)
    else if status == 1 && hasMessage == 1 then
      if length > |payload| then Failure(TruncatedMessage)
      else if !valid(payload[..length]) then Failure(InvalidUtf8)
      else Success(Some(payload[..length]))
    else Failure(BadPayload)
  }

  /** One frame: an error, the closing frame, or a result and the bytes it took. */
  datatype FrameRead = Bad(error: ReportError) | Closing(failed: nat) | Read(result: TestResult, taken: nat)

  function ReadFrame(rest: seq<Byte>, next: nat, expected: nat, valid: seq<Byte> -> bool): (r: FrameRead)
    ensures r.Read? ==> HEADER_LENGTH <= r.taken <= |rest| && next < expected
  {
    if |rest| < HEADER_LENGTH then Bad(TruncatedHeader)
    else if rest[..4] != MAGIC then Bad(BadMagic)
    else if rest[14] != 0 || rest[15] != 0 then Bad(NonzeroReserved)
    else
      var index := FromLittleEndian(rest[4..12]);
      var status, hasMessage := rest[12], rest[13];
      var length := FromLittleEndian(rest[16..24]);
      var after := rest[HEADER_LENGTH..];
      if status == 2 then
        if hasMessage != 0 || index != expected || next != expected then Bad(BadTerminal)
        else if after != [] then Bad(DataAfterTerminal)
        else Closing(length)
      else if status > 1 || hasMessage > 1 || index != next || index >= expected then Bad(BadResult)
      else
        match Message(status, hasMessage, length, after, valid)
        case Failure(e) => Bad(e)
        case Success(message) =>
          Read(if status == 1 then Failed(message) else Passed, HEADER_LENGTH + if message.Some? then length else 0)
  }

  function FailureAt(index: nat, result: TestResult): seq<TestFailure> {
    if result.Failed? then [TestFailure(index, result.message)] else []
  }

  function ParseFrames(rest: seq<Byte>, next: nat, expected: nat, valid: seq<Byte> -> bool): Parsed
    decreases |rest|
  {
    if rest == [] then Unreadable(MissingTerminal)
    else match ReadFrame(rest, next, expected, valid)
      case Bad(e) => Unreadable(e)
      case Closing(failed) => Listed([], failed)
      case Read(result, taken) =>
        Prepend(FailureAt(next, result), ParseFrames(rest[taken..], next + 1, expected, valid))
  }

  function Conclude(p: Parsed, exitCode: int): Result<TestRun, ReportError> {
    match p
    case Unreadable(e) => Failure(e)
    case Listed(failures, failed) =>
      if failed != |failures| then Failure(FailureCountMismatch)
      else
        var expectedExit := if failures == [] then 0 else 1;
        if exitCode != expectedExit then Failure(ExitMismatch) else Success(TestRun(expectedExit, failures))
  }

  function Parse(report: seq<Byte>, expected: nat, exitCode: int, valid: seq<Byte> -> bool)
    : Result<TestRun, ReportError>
  {
    Conclude(ParseFrames(report, 0, expected, valid), exitCode)
  }

  /** One turn of the loop: checks the header at the cursor and takes the message. */
  method ParseFrame(report: seq<Byte>, cursor0: nat, next: nat, expected: nat, valid: seq<Byte> -> bool)
    returns (read: FrameRead, cursor: nat)
    requires cursor0 < |report|
    ensures read == ReadFrame(report[cursor0..], next, expected, valid)
    ensures read.Read? ==> cursor == cursor0 + read.taken
    ensures read.Closing? ==> cursor == |report|
  {
    cursor := cursor0;
    if |report| - cursor < HEADER_LENGTH { return Bad(TruncatedHeader), cursor; }
    var header := report[cursor..cursor + HEADER_LENGTH];
    ghost var rest := report[cursor..];
    HeaderOf(rest);
    assert header == rest[..HEADER_LENGTH];
    cursor := cursor + HEADER_LENGTH;
    assert report[cursor..] == rest[HEADER_LENGTH..];
    if header[..4] != MAGIC { return Bad(BadMagic), cursor; }
    if header[14] != 0 || header[15] != 0 { return Bad(NonzeroReserved), cursor; }
    var index := FromLittleEndian(header[4..12]);
    var status, hasMessage := header[12], header[13];
    var length := FromLittleEndian(header[16..24]);
    if status == 2 {
      if hasMessage != 0 || index != expected || next != expected { return Bad(BadTerminal), cursor; }
      if cursor != |report| { return Bad(DataAfterTerminal), cursor; }
      return Closing(length), cursor;
    }
    if status > 1 || hasMessage > 1 || index != next || index >= expected { return Bad(BadResult), cursor; }
    var message := Message(status, hasMessage, length, report[cursor..], valid);
    if message.Failure? { return Bad(message.error), cursor; }
    if message.value.Some? { cursor := cursor + length; }
    read := Read(if status == 1 then Failed(message.value) else Passed, cursor - cursor0);
  }

  /** `parse_test_report`. */
  method ParseTestReport(report: seq<Byte>, expected: nat, exitCode: int, valid: seq<Byte> -> bool)
    returns (r: Result<TestRun, ReportError>)
    ensures r == Parse(report, expected, exitCode, valid)
  {
    var cursor, nextIndex := 0, 0;
    var failures: seq<TestFailure> := [];
    var terminal: Option<nat> := None;
    ghost var whole := ParseFrames(report, 0, expected, valid);
    assert report[0..] == report;
    PrependNothing(whole);
    hide ReadFrame;
    while cursor < |report| && terminal.None?
      invariant 0 <= cursor <= |report|
      invariant terminal.None? ==> Prepend(failures, ParseFrames(report[cursor..], nextIndex, expected, valid)) == whole
      invariant terminal.Some? ==> whole == Listed(failures, terminal.value)
      decreases |report| - cursor, terminal.None?
    {
      ghost var rest := report[cursor..];
      var read, after := ParseFrame(report, cursor, nextIndex, expected, valid);
      cursor := after;
      match read {
        case Bad(error) => return Failure(error);
        case Closing(failed) =>
          assert failures + [] == failures;
          terminal := Some(failed);
        case Read(result, taken) =>
          assert report[cursor..] == rest[taken..];
          PrependTwice(failures, FailureAt(nextIndex, result),
                       ParseFrames(report[cursor..], nextIndex + 1, expected, valid));
          failures := failures + FailureAt(nextIndex, result);
          nextIndex := nextIndex + 1;
      }
    }
    if terminal.None? { return Failure(MissingTerminal); }
    if terminal.value != |failures| { return Failure(FailureCountMismatch); }
    var expectedExit := if failures == [] then 0 else 1;
    if exitCode != expectedExit { return Failure(ExitMismatch); }
    r := Success(TestRun(expectedExit, failures));
  }

  lemma PrependSuccess(a: seq<TestFailure>, b: seq<TestFailure>, failed: nat)
    ensures Prepend(a, Listed(b, failed)) == Listed(a + b, failed)
  {
  }

  lemma PrependNothing(p: Parsed)
    ensures Prepend([], p) == p
  {
    if p.Listed? { assert [] + p.failures == p.failures; }
  }

  lemma PrependTwice(a: seq<TestFailure>, b: seq<TestFailure>, p: Parsed)
    ensures Prepend(a, Prepend(b, p)) == Prepend(a + b, p)
  {
    if p.Listed? { assert a + (b + p.failures) == (a + b) + p.failures; }
  }

  /** The fields of a header are slices of what follows the cursor. */
  lemma HeaderOf(rest: seq<Byte>)
    requires |rest| >= HEADER_LENGTH
    ensures var h := rest[..HEADER_LENGTH];
            h[..4] == rest[..4] && h[4..12] == rest[4..12] && h[16..24] == rest[16..24]
  {
  }

  /* ----- printing, then parsing ----- */

  lemma HeaderFields(index: nat, status: Byte, hasMessage: Byte, length: nat, after: seq<Byte>)
    requires index < U64_LIMIT && length < U64_LIMIT
    ensures var rest := Header(index, status, hasMessage, length) + after;
            && rest[..4] == MAGIC && FromLittleEndian(rest[4..12]) == index && rest[12] == status
                && rest[13] == hasMessage
            && rest[14] == 0 && rest[15] == 0 && FromLittleEndian(rest[16..24]) == length
                && rest[HEADER_LENGTH..] == after
  {
    var rest := Header(index, status, hasMessage, length) + after;
    assert rest[4..12] == U64(index) && rest[16..24] == U64(length);
    U64RoundTrip(index);
    U64RoundTrip(length);
  }

  /** A printed result is read back. */
  lemma PrintedReads(index: nat, result: TestResult, rest: seq<Byte>, expected: nat, valid: seq<Byte> -> bool)
    requires index < expected <= U64_LIMIT
    requires PrintableResult(result, valid)
    ensures ReadFrame(ResultFrame(index, result) + rest, index, expected, valid)
        == Read(result, |ResultFrame(index, result)|)
  {
    hide U64; hide FromLittleEndian;
    match result
    case Passed => HeaderFields(index, 0, 0, 0, rest);
    case Failed(None) => HeaderFields(index, 1, 0, 0, rest);
    case Failed(Some(message)) =>
      HeaderFields(index, 1, 1, |message|, message + rest);
      assert Header(index, 1, 1, |message|) + message + rest == Header(index, 1, 1, |message|) + (message + rest);
      assert (message + rest)[..|message|] == message;
  }

  lemma ClosingReads(index: nat, failed: nat, valid: seq<Byte> -> bool)
    requires index < U64_LIMIT && failed < U64_LIMIT
    ensures ReadFrame(Header(index, 2, 0, failed), index, index, valid) == Closing(failed)
  {
    hide U64; hide FromLittleEndian;
    HeaderFields(index, 2, 0, failed, []);
    assert Header(index, 2, 0, failed) + [] == Header(index, 2, 0, failed);
  }

  lemma ParseNext(frame: seq<Byte>, rest: seq<Byte>, next: nat, expected: nat, valid: seq<Byte> -> bool,
                  result: TestResult)
    requires ReadFrame(frame + rest, next, expected, valid) == Read(result, |frame|)
    ensures ParseFrames(frame + rest, next, expected, valid) ==
            Prepend(FailureAt(next, result), ParseFrames(rest, next + 1, expected, valid))
  {
    hide U64; hide FromLittleEndian;
    hide ReadFrame;
    assert (frame + rest)[|frame|..] == rest;
  }

  lemma PrintedFirst(results: seq<TestResult>, first: nat, failed: nat, expected: nat, valid: seq<Byte> -> bool)
    requires results != [] && PrintableResult(results[0], valid) && first < expected < U64_LIMIT
    ensures ParseFrames(EncodeFrom(results, first, failed), first, expected, valid) ==
            Prepend(FailureAt(first, results[0]),
                    ParseFrames(EncodeFrom(results[1..], first + 1, failed), first + 1, expected, valid))
  {
    hide U64; hide FromLittleEndian;
    var frame, rest := ResultFrame(first, results[0]), EncodeFrom(results[1..], first + 1, failed);
    PrintedReads(first, results[0], rest, expected, valid);
    assert EncodeFrom(results, first, failed) == frame + rest;
    hide *;
    ParseNext(frame, rest, first, expected, valid, results[0]);
  }

  lemma PrintedEnd(index: nat, failed: nat, valid: seq<Byte> -> bool)
    requires index < U64_LIMIT && failed < U64_LIMIT
    ensures ParseFrames(Header(index, 2, 0, failed), index, index, valid) == Listed([], failed)
  {
    hide U64; hide FromLittleEndian;
    ClosingReads(index, failed, valid);
    hide ReadFrame; hide Header;
  }

  lemma {:induction false} PrintedParses(results: seq<TestResult>, first: nat, failed: nat, expected: nat,
                                         valid: seq<Byte> -> bool)
    requires Printable(results, valid) && first + |results| == expected < U64_LIMIT && failed < U64_LIMIT
    ensures ParseFrames(EncodeFrom(results, first, failed), first, expected, valid)
        == Listed(Failures(results, first), failed)
    decreases |results|
  {
    hide U64; hide FromLittleEndian;
    if results == [] {
      PrintedEnd(first, failed, valid);
    } else {
      var result, later := results[0], results[1..];
      EncodeNext(result, later, first, failed);
      assert results == [result] + later;
      hide ParseFrames; hide EncodeFrom; hide Failures; hide PrintableResult; hide FailureAt; hide Header; hide Prepend;
      PrintedParses(results[1..], first + 1, failed, expected, valid);
      PrintedFirst(results, first, failed, expected, valid);
      PrependSuccess(FailureAt(first, results[0]), Failures(results[1..], first + 1), failed);
    }
  }

  lemma {:induction false} FewFailures(results: seq<TestResult>, first: nat)
    ensures |Failures(results, first)| <= |results|
  {
    if results != [] { FewFailures(results[1..], first + 1); }
  }

  /** What a run prints is read back as its failures, if the exit code matches and only then. */
  lemma PrintThenParse(results: seq<TestResult>, exitCode: int, valid: seq<Byte> -> bool)
    requires Printable(results, valid) && |results| < U64_LIMIT
    ensures Parse(EncodeReport(results), |results|, exitCode, valid) ==
            if exitCode == ExitCode(results) then Success(TestRun(ExitCode(results), Failures(results, 0)))
            else Failure(ExitMismatch)
  {
    hide U64; hide FromLittleEndian;
    FewFailures(results, 0);
    PrintedParses(results, 0, |Failures(results, 0)|, |results|, valid);
  }

  /* ----- parsing, then printing ----- */

  /** The header, rebuilt from its fields. */
  lemma HeaderBack(rest: seq<Byte>)
    requires |rest| >= HEADER_LENGTH && rest[..4] == MAGIC && rest[14] == 0 && rest[15] == 0
    ensures rest == Header(FromLittleEndian(rest[4..12]), rest[12], rest[13],
                           FromLittleEndian(rest[16..24])) + rest[HEADER_LENGTH..]
    ensures FromLittleEndian(rest[4..12]) < U64_LIMIT && FromLittleEndian(rest[16..24]) < U64_LIMIT
  {
    hide U64; hide FromLittleEndian;
    U64Decodes(rest[4..12]);
    U64Decodes(rest[16..24]);
    assert rest == rest[..4] + rest[4..12] + [rest[12], rest[13], rest[14], rest[15]] + rest[16..24] + rest[24..];
  }

  /** A frame that reads as a result is the printed form of that result. */
  lemma ReadWasPrinted(rest: seq<Byte>, next: nat, expected: nat, valid: seq<Byte> -> bool, result: TestResult,
                       taken: nat)
    requires ReadFrame(rest, next, expected, valid) == Read(result, taken)
    ensures rest == ResultFrame(next, result) + rest[taken..]
    ensures PrintableResult(result, valid)
  {
    hide U64; hide FromLittleEndian;
    HeaderBack(rest);
    assert rest[HEADER_LENGTH..] == rest[HEADER_LENGTH..][..taken - HEADER_LENGTH] + rest[taken..];
  }

  lemma ClosingWasPrinted(rest: seq<Byte>, next: nat, expected: nat, valid: seq<Byte> -> bool, failed: nat)
    requires ReadFrame(rest, next, expected, valid) == Closing(failed)
    ensures next == expected && rest == Header(next, 2, 0, failed)
  {
    hide U64; hide FromLittleEndian;
    HeaderBack(rest);
  }

  lemma EncodeNext(result: TestResult, later: seq<TestResult>, first: nat, failed: nat)
    ensures EncodeFrom([result] + later, first, failed)
        == ResultFrame(first, result) + EncodeFrom(later, first + 1, failed)
    ensures Failures([result] + later, first) == FailureAt(first, result) + Failures(later, first + 1)
  {
    hide U64; hide FromLittleEndian;
    assert ([result] + later)[1..] == later;
  }

  /** A stream that parses is the printed form of some results, which it determines. */
  lemma {:induction false} ParsedWasPrinted(rest: seq<Byte>, next: nat, expected: nat, valid: seq<Byte> -> bool)
    returns (results: seq<TestResult>)
    requires ParseFrames(rest, next, expected, valid).Listed?
    ensures next + |results| == expected && Printable(results, valid)
    ensures rest == EncodeFrom(results, next, ParseFrames(rest, next, expected, valid).failed)
    ensures ParseFrames(rest, next, expected, valid).failures == Failures(results, next)
    decreases |rest|
  {
    hide U64; hide FromLittleEndian;
    match ReadFrame(rest, next, expected, valid)
    case Closing(failed) =>
      results := [];
      ClosingWasPrinted(rest, next, expected, valid, failed);
      return;
    case Read(result, taken) =>
      ReadWasPrinted(rest, next, expected, valid, result, taken);
      assert ParseFrames(rest, next, expected, valid) ==
             Prepend(FailureAt(next, result), ParseFrames(rest[taken..], next + 1, expected, valid));
      hide ParseFrames; hide EncodeFrom; hide Failures; hide PrintableResult; hide FailureAt; hide ReadFrame;
      hide ResultFrame;
      var later := ParsedWasPrinted(rest[taken..], next + 1, expected, valid);
      results := [result] + later;
      EncodeNext(result, later, next, ParseFrames(rest, next, expected, valid).failed);
  }

  /** The results a list of failures stands for: passes everywhere else. */
  function ResultsOf(failures: seq<TestFailure>, next: nat, expected: nat): seq<TestResult>
    requires next <= expected
    decreases expected - next
  {
    if next == expected then []
    else if failures != [] && failures[0].index == next then
      [Failed(failures[0].message)] + ResultsOf(failures[1..], next + 1, expected)
    else [Passed] + ResultsOf(failures, next + 1, expected)
  }

  lemma {:induction false} FailuresLater(results: seq<TestResult>, first: nat)
    ensures forall k | 0 <= k < |Failures(results, first)| :: Failures(results, first)[k].index >= first
  {
    if results != [] { FailuresLater(results[1..], first + 1); }
  }

  lemma {:induction false} ResultsBack(results: seq<TestResult>, first: nat)
    ensures ResultsOf(Failures(results, first), first, first + |results|) == results
  {
    hide U64; hide FromLittleEndian;
    if results != [] {
      ResultsBack(results[1..], first + 1);
      FailuresLater(results[1..], first + 1);
      var later := Failures(results[1..], first + 1);
      if results[0].Failed? {
        assert Failures(results, first)[1..] == later;
      } else {
        assert Failures(results, first) == later;
      }
      assert results == [results[0]] + results[1..];
    }
  }

  /**
   A stream is accepted exactly when it is the printed form of the failures it returned,
   with passes at all other registrations, and the exit code says whether there were any.
   */
  lemma ParseThenPrint(report: seq<Byte>, expected: nat, exitCode: int, valid: seq<Byte> -> bool, run: TestRun)
    requires Parse(report, expected, exitCode, valid) == Success(run)
    ensures var results := ResultsOf(run.failures, 0, expected);
            && report == EncodeReport(results) && |results| == expected && Printable(results, valid)
            && run.failures == Failures(results, 0) && exitCode == run.exitCode == ExitCode(results)
  {
    hide U64; hide FromLittleEndian; hide Header; hide EncodeFrom; hide ParseFrames; hide ResultsOf;
    var results := ParsedWasPrinted(report, 0, expected, valid);
    ResultsBack(results, 0);
  }

  /* ----- the layout of a frame ----- */

  /** Where each field of the header is: numbers least significant byte first, reserved bytes zero. */
  lemma HeaderLayout(index: nat, status: Byte, hasMessage: Byte, length: nat, i: nat)
    requires i < 8
    ensures var header := Header(index, status, hasMessage, length);
            && |header| == 24 && header[..4] == [83, 76, 84, 49]
            && header[4 + i] == (index / Power256(i)) % 256 && header[16 + i] == (length / Power256(i)) % 256
            && header[12] == status && header[13] == hasMessage && header[14] == 0 && header[15] == 0
  {
    ByteWeight(index, 8, i);
    ByteWeight(length, 8, i);
    var x, y := U64(index), U64(length);
    assert x[i] == (index / Power256(i)) % 256 && y[i] == (length / Power256(i)) % 256;
    hide U64; hide Power256;
    var header := MAGIC + x + [status, hasMessage, 0, 0] + y;
    assert header[..4] == MAGIC;
  }
}
