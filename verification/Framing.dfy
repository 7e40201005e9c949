/**
 Line framing between the connector client and its host. Both sides write one compact ASCII JSON
 document and a newline, and read with a bounded `readline`. ASCII text stands for its bytes.
 */
module Framing {
  import opened Basics

  const NEWLINE: char := '\n'
  const MAX_REQUEST_BYTES: nat := 4 * 1024 * 1024
  const MAX_RESPONSE_BYTES: nat := 16 * 1024 * 1024

  // The length of the first line of a stream, its newline included.
  function FirstLine(stream: string): (n: nat)
    ensures n <= |stream|
    ensures forall i :: 0 <= i < n - 1 ==> stream[i] != NEWLINE
  {
    if stream == [] then 0 else if stream[0] == NEWLINE then 1 else 1 + FirstLine(stream[1..])
  }

  // `readline(limit)`: at most limit bytes, up to and including the first newline.
  function ReadLine(stream: string, limit: nat): (line: string)
    ensures line <= stream && |line| <= limit
  {
    var n := FirstLine(stream);
    stream[..if n <= limit then n else limit]
  }

  // The reader's test of a line it read with limit max + 2.
  predicate Accepts(line: string, max: nat) {
    |line| <= max + 1 && |line| > 0 && line[|line| - 1] == NEWLINE
  }

  predicate OneLine(document: string) {
    forall i :: 0 <= i < |document| ==> document[i] != NEWLINE
  }

  lemma {:induction false} FirstLineOf(document: string, rest: string)
    requires OneLine(document)
    ensures FirstLine(document + [NEWLINE] + rest) == |document| + 1
    decreases |document|
  {
    var stream := document + [NEWLINE] + rest;
    if document != [] {
      assert stream[0] == document[0];
      assert stream[1..] == document[1..] + [NEWLINE] + rest;
      FirstLineOf(document[1..], rest);
    }
  }

  /** A document passes the other side's reader, whole and with nothing else consumed, if and only
      if it is within the limit. */
  lemma FramedIffWithinLimit(document: string, rest: string, max: nat)
    requires OneLine(document)
    ensures var line := ReadLine(document + [NEWLINE] + rest, max + 2);
            && (Accepts(line, max) <==> |document| <= max)
            && (|document| <= max ==> line == document + [NEWLINE])
  {
    FirstLineOf(document, rest);
    var stream := document + [NEWLINE] + rest;
    var line := ReadLine(stream, max + 2);
    if |document| <= max {
      assert line == document + [NEWLINE];
    } else if |document| > max + 1 {
      assert line == stream[..max + 2];
      assert line[|line| - 1] == document[max + 1];
    }
  }

  function Stream(documents: seq<string>): string {
    if documents == [] then "" else documents[0] + [NEWLINE] + Stream(documents[1..])
  }

  // Read lines until the stream is empty or a line is refused.
  function ReadAll(stream: string, max: nat): (documents: seq<string>)
    decreases |stream|
  {
    var line := ReadLine(stream, max + 2);
    if !Accepts(line, max) then []
    else [line[..|line| - 1]] + ReadAll(stream[|line|..], max)
  }

  /** A stream of documents that each fit is read back as exactly those documents. */
  lemma {:induction false} StreamsAreLossless(documents: seq<string>, max: nat)
    requires forall i :: 0 <= i < |documents| ==> OneLine(documents[i]) && |documents[i]| <= max
    ensures ReadAll(Stream(documents), max) == documents
    decreases |documents|
  {
    if documents != [] {
      var d, rest := documents[0], Stream(documents[1..]);
      FramedIffWithinLimit(d, rest, max);
      var stream := d + [NEWLINE] + rest;
      var line := ReadLine(stream, max + 2);
      assert stream[|line|..] == rest;
      assert line[..|line| - 1] == d;
      StreamsAreLossless(documents[1..], max);
    }
  }

  // -- What the two sides emit ---------------------------------------------------------------------------

  // `request`: the encoded request is sent only within the limit.
  function ClientEmits(document: string): Option<string> {
    if |document| > MAX_REQUEST_BYTES then None else Some(document)
  }

  lemma {:induction false} DigitsAreOneLine(n: nat)
    ensures OneLine(Digits(n))
  {
    if n >= 10 { DigitsAreOneLine(n / 10); }
  }

  function IdText(id: int): (t: string)
    ensures |t| >= 1 && OneLine(t)
  {
    DigitsAreOneLine(if id < 0 then -id else id);
    if id < 0 then "-" + Digits(-id) else Digits(id)
  }

  // The compact rendering of `_error_response` for a reply that would exceed the limit.
  function LimitError(id: int): string {
    "{\"protocol_version\":\"sanka-connector" + "/v1\",\"id\":" + IdText(id)
    + ",\"ok\":false,\"error\":{\"code\":\"" + "SANKA_CONNECTOR_RESPONSE_LIMIT"
    + "\",\"message\":\"connector response " + "exceeds the limit\"}}"
  }

  // `_write`: an oversized reply is replaced by a small error for the same request.
  function HostEmits(document: string, id: int): string {
    if |document| > MAX_RESPONSE_BYTES then LimitError(id) else document
  }

  /** Every line either side emits passes the other side's limit. The id of a reply came in a
      request line that was itself within the request limit. */
  lemma EmittedLinesFit(request: string, reply: string, id: int, rest: string)
    requires OneLine(request) && OneLine(reply)
    requires |IdText(id)| <= MAX_REQUEST_BYTES
    ensures ClientEmits(request).Some? ==>
              Accepts(ReadLine(ClientEmits(request).value + [NEWLINE] + rest, MAX_REQUEST_BYTES + 2), MAX_REQUEST_BYTES)
    ensures var emitted := HostEmits(reply, id);
            && ReadLine(emitted + [NEWLINE] + rest, MAX_RESPONSE_BYTES + 2) == emitted + [NEWLINE]
            && Accepts(emitted + [NEWLINE], MAX_RESPONSE_BYTES)
  {
    if ClientEmits(request).Some? {
      FramedIffWithinLimit(request, rest, MAX_REQUEST_BYTES);
    }
    var emitted := HostEmits(reply, id);
    LimitErrorIsOneLine(id);
    FramedIffWithinLimit(emitted, rest, MAX_RESPONSE_BYTES);
  }

  lemma LimitErrorIsOneLine(id: int)
    ensures OneLine(LimitError(id)) && |LimitError(id)| <= |IdText(id)| + 200
  {
    assert OneLine("{\"protocol_version\":\"sanka-connector") && OneLine("/v1\",\"id\":");
    assert OneLine(",\"ok\":false,\"error\":{\"code\":\"") && OneLine("SANKA_CONNECTOR_RESPONSE_LIMIT");
    assert OneLine("\",\"message\":\"connector response ") && OneLine("exceeds the limit\"}}");
  }

  /** A document is sent exactly if the other side would read it: an oversized request is not sent at all,
      and in place of an oversized reply goes the small error for the same request. */
  lemma EmitsIffRead(request: string, reply: string, id: int, rest: string)
    requires OneLine(request) && OneLine(reply)
    ensures ClientEmits(request) == (if Accepts(ReadLine(request + [NEWLINE] + rest, MAX_REQUEST_BYTES + 2), MAX_REQUEST_BYTES) then Some(request) else None)
    ensures HostEmits(reply, id) == if Accepts(ReadLine(reply + [NEWLINE] + rest, MAX_RESPONSE_BYTES + 2), MAX_RESPONSE_BYTES) then reply else LimitError(id)
    ensures MAX_REQUEST_BYTES == 4194304 && MAX_RESPONSE_BYTES == 16777216
  {
    FramedIffWithinLimit(request, rest, MAX_REQUEST_BYTES);
    FramedIffWithinLimit(reply, rest, MAX_RESPONSE_BYTES);
  }

  lemma {:induction false} NoLineEnds(document: string)
    requires OneLine(document)
    ensures FirstLine(document) == |document|
    decreases |document|
  {
    if document != [] { NoLineEnds(document[1..]); }
  }

  /** A line that was cut off before its newline, as by a process that died while writing, is never accepted,
      whatever came before it. */
  lemma {:induction false} CutOffLinesAreRefused(documents: seq<string>, cut: string, max: nat)
    requires forall i :: 0 <= i < |documents| ==> OneLine(documents[i]) && |documents[i]| <= max
    requires OneLine(cut)
    ensures ReadAll(Stream(documents) + cut, max) == documents
    decreases |documents|
  {
    if documents == [] {
      assert Stream(documents) + cut == cut;
      NoLineEnds(cut);
    } else {
      var d, rest := documents[0], Stream(documents[1..]) + cut;
      FramedIffWithinLimit(d, rest, max);
      var stream := d + [NEWLINE] + rest;
      assert stream == Stream(documents) + cut;
      var line := ReadLine(stream, max + 2);
      assert stream[|line|..] == rest && line[..|line| - 1] == d;
      CutOffLinesAreRefused(documents[1..], cut, max);
    }
  }
}
