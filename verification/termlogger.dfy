/** `DetailedTerminalLogger` of the application entry point: it stands in
    for stdout/stderr, forwards every write to the original stream and logs
    each completed, non-blank line as `"<stream name>: <stripped line>"`.
    The original stream and the log are modelled as the sequences of what
    they received. */
module TermLogger {
  import opened PyStr

  /** What `write` logs for one completed line: nothing for a blank line,
      otherwise the stream name and the stripped line. */
  function Record(streamName: string, line: string): seq<string>
  {
    if Strip(line) != "" then [streamName + ": " + Strip(line)] else []
  }

  /** A line is dropped exactly when it is blank; a logged line carries
      text with no surrounding whitespace. */
  lemma RecordOfLine(streamName: string, line: string)
    ensures Record(streamName, line) == [] <==> IsBlank(line)
    ensures Record(streamName, line) != [] ==>
      var text := Strip(line);
      Record(streamName, line) == [streamName + ": " + text] &&
      !IsSpace(text[0]) && !IsSpace(text[|text| - 1])
  {
  }

  /** The log records produced for `lines`, in order: blank lines are dropped. */
  function LogRecords(streamName: string, lines: seq<string>): (r: seq<string>)
    ensures |r| <= |lines|
  {
    if |lines| == 0 then []
    else
      LogRecords(streamName, lines[..|lines| - 1]) + Record(streamName, lines[|lines| - 1])
  }

  lemma {:induction false} LogRecordsAppend(streamName: string, a: seq<string>, b: seq<string>)
    ensures LogRecords(streamName, a + b) == LogRecords(streamName, a) + LogRecords(streamName, b)
    decreases |b|
  {
    if |b| == 0 {
      assert a + b == a;
    } else {
      assert (a + b)[..|a + b| - 1] == a + b[..|b| - 1];
      LogRecordsAppend(streamName, a, b[..|b| - 1]);
    }
  }

  lemma LogRecordsPrefix(streamName: string, lines: seq<string>, i: nat)
    requires i < |lines|
    ensures LogRecords(streamName, lines[..i + 1]) == LogRecords(streamName, lines[..i]) + Record(streamName, lines[i])
  {
    assert lines[..i + 1][..i] == lines[..i];
  }

  /** The `for line in lines[:-1]` loop of `write`: the records for the
      completed lines, in order. */
  method CompletedLineRecords(streamName: string, lines: seq<string>) returns (records: seq<string>)
    ensures records == LogRecords(streamName, lines)
  {
    records := [];
    var i := 0;
    while i < |lines|
      invariant 0 <= i <= |lines|
      invariant records == LogRecords(streamName, lines[..i])
    {
      LogRecordsPrefix(streamName, lines, i);
      records := records + Record(streamName, lines[i]);
      i := i + 1;
    }
    assert lines[..i] == lines;
  }

  class TerminalLogger {
    const streamName: string
    /** everything handed to the original stream */
    var forwarded: seq<string>
    /** the log records written, in order */
    var log: seq<string>
    var buffer: string

    ghost predicate Valid()
      reads this
    {
      !Contains(buffer, "\n")
    }

    constructor (streamName: string)
      ensures Valid()
      ensures this.streamName == streamName && forwarded == [] && log == [] && buffer == ""
    {
      this.streamName := streamName;
      forwarded := [];
      log := [];
      buffer := "";
    }

    /** `write(text)`: forward, then log every line the text completes and
        keep the unfinished tail in the buffer. */
    method Write(text: string)
      requires Valid()
      modifies this
      ensures Valid()
      ensures forwarded == old(forwarded) + [text]
      ensures !Contains(old(buffer) + text, "\n") ==> buffer == old(buffer) + text && log == old(log)
      ensures Contains(old(buffer) + text, "\n") ==>
        var lines := Split(old(buffer) + text, "\n");
        buffer == lines[|lines| - 1] &&
        log == old(log) + LogRecords(streamName, lines[..|lines| - 1]) &&
        Join(lines[..|lines| - 1] + [buffer], "\n") == old(buffer) + text
    {
      forwarded := forwarded + [text];
      var whole := buffer + text;
      if !Contains(whole, "\n") {
        buffer := whole;
      } else {
        var lines := Split(whole, "\n");
        var last := |lines| - 1;
        assert !Contains(lines[last], "\n");
        assert lines[..last] + [lines[last]] == lines;
        var records := CompletedLineRecords(streamName, lines[..last]);
        log := log + records;
        buffer := lines[last];
      }
    }

    /** `flush()`: a buffer with visible text is logged and cleared; a
        whitespace-only buffer stays as it is. */
    method Flush()
      requires Valid()
      modifies this
      ensures Valid()
      ensures forwarded == old(forwarded)
      ensures !IsBlank(old(buffer)) ==> log == old(log) + [streamName + ": " + Strip(old(buffer))] && buffer == ""
      ensures IsBlank(old(buffer)) ==> log == old(log) && buffer == old(buffer)
    {
      if Strip(buffer) != "" {
        log := log + [streamName + ": " + Strip(buffer)];
        buffer := "";
      }
    }
  }
}
