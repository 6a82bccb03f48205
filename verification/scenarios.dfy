/**
 * Conversations with one connection, each driving the chunk handler over
 * one or more chunks. The parser reads the command line as a fixed record
 * `ln`, whatever bytes `head` it is given, so that each conversation
 * isolates what the framer itself does. Payload bytes are arbitrary except
 * for the CR LF pairs a conversation places; a lone CR is a data byte.
 */
module Scenarios {
  import opened Protocol
  import opened Framing
  import opened Executor
  import opened Connection

  /** A parser that reads every command line as `ln`. */
  function ParserOf(ln: Line): Bytes -> ParseResult {
    _ => Parsed(ln)
  }

  /**
   * A chunk made of a line without CR LF, then CR LF, then `rest`: its
   * command line ends at that CR LF and what follows it is `rest`. The line
   * may hold a CR, even as its last byte.
   */
  lemma LineThen(text: Bytes, rest: Bytes)
    requires !HasCRLF(text)
    ensures var chunk := text + [CR, LF] + rest;
      && HasCRLF(chunk) && FirstCRLF(chunk) == |text|
      && CommandLine(chunk) == text + [CR, LF] && AfterCommandLine(chunk) == rest
  {
    var chunk := text + [CR, LF] + rest;
    assert IsCRLFAt(chunk, |text|);
    forall j: nat | j < |text| ensures !IsCRLFAt(chunk, j) {
      assert chunk[j] == text[j];
      if j + 1 < |text| {
        assert !IsCRLFAt(text, j);
      }
    }
    FirstCRLFAt(chunk, |text|);
    assert chunk[..|text| + 2] == text + [CR, LF];
  }

  /**
   * A storage command and its whole payload in one chunk: the command runs
   * with exactly the payload, and afterwards the connection is back in
   * command mode.
   */
  method WholePayloadExecuted(head: Bytes, payload: Bytes, ln: Line, cache: CacheOracle, dataMaxSize: nat)
    returns (c: Context, eff: Effects)
    requires !HasCRLF(head) && !HasCRLF(payload)
    requires IsStore(ln.command) && ln.bytes == |payload| <= dataMaxSize
    ensures eff == Execution(ln, Some(payload), cache)
    ensures eff.fault == None ==> c.IsReset()
  {
    c := new Context();
    var rest := payload + [CR, LF];
    LineThen(head, rest);
    LineThen(payload, []);
    assert payload + [CR, LF] + [] == rest;
    eff := c.HandleData(head + [CR, LF] + rest, ParserOf(ln), cache, dataMaxSize);
    assert rest[..ln.bytes] == payload;
  }

  /**
   * A payload sent with its command line and holding a CR LF anywhere but
   * right after the declared number of bytes makes the reader throw outside
   * any try block.
   */
  method EmbeddedTerminatorEscapes(head: Bytes, early: Bytes, tail: Bytes, ln: Line, cache: CacheOracle, dataMaxSize: nat)
    returns (eff: Effects)
    requires !HasCRLF(head) && !HasCRLF(early)
    requires IsStore(ln.command) && ln.bytes <= dataMaxSize && |early| != ln.bytes
    ensures eff == Effects([], [], Some(BadChunkEscaped))
  {
    var c := new Context();
    var rest := early + [CR, LF] + tail;
    LineThen(head, rest);
    LineThen(early, tail);
    eff := c.HandleData(head + [CR, LF] + rest, ParserOf(ln), cache, dataMaxSize);
  }

  /**
   * A storage command declaring zero bytes, whose terminator does not come
   * in the same chunk, never leaves payload mode: every later chunk,
   * whatever it holds, is dropped without an answer.
   */
  method ZeroLengthPayloadWedges(head: Bytes, ln: Line, cache: CacheOracle, dataMaxSize: nat, later: seq<Bytes>)
    returns (first: Effects, after: seq<Effects>)
    requires !HasCRLF(head)
    requires IsStore(ln.command) && ln.bytes == 0
    ensures first == NoEffects
    ensures |after| == |later| && forall j :: 0 <= j < |after| ==> after[j] == NoEffects
  {
    var c := new Context();
    LineThen(head, []);
    assert head + [CR, LF] + [] == head + [CR, LF];
    first := c.HandleData(head + [CR, LF], ParserOf(ln), cache, dataMaxSize);
    after := [];
    for j := 0 to |later|
      invariant c.Valid() && c.receivingData && c.bytesRead == 0 && c.line == ln
      invariant fresh(c) && c.data != null && fresh(c.data)
      invariant |after| == j && forall i :: 0 <= i < j ==> after[i] == NoEffects
    {
      var e := c.HandleData(later[j], ParserOf(ln), cache, dataMaxSize);
      after := after + [e];
    }
  }

  /**
   * A payload split over two chunks runs before it is complete: when the
   * second chunk still leaves bytes missing, the command runs anyway, with
   * a buffer of the declared size of which only the head was received.
   */
  method SplitPayloadExecutedEarly(head: Bytes, p1: Bytes, p2: Bytes, ln: Line, cache: CacheOracle, dataMaxSize: nat)
    returns (first: Effects, second: Effects, stored: Bytes)
    requires !HasCRLF(head) && !HasCRLF(p1) && !HasCRLF(p2)
    requires IsStore(ln.command) && ln.bytes <= dataMaxSize && |p1| + |p2| < ln.bytes
    ensures first == NoEffects
    ensures second == Execution(ln, Some(stored), cache)
    ensures |stored| == ln.bytes && stored[..|p1| + |p2|] == p1 + p2
  {
    var c := new Context();
    LineThen(head, p1);
    first := c.HandleData(head + [CR, LF] + p1, ParserOf(ln), cache, dataMaxSize);
    var buffer := c.data;
    second := c.HandleData(p2, ParserOf(ln), cache, dataMaxSize);
    stored := buffer[..];
    forall k | 0 <= k < |p1| + |p2| ensures stored[k] == (p1 + p2)[k] {
      if k < |p1| {
        assert stored[k] == p1[k];
      }
    }
  }

  /**
   * A payload one byte longer than declared, sent with its command line, is
   * accepted: the next chunk, whatever it holds, runs the command with the
   * declared bytes, and the extra byte is dropped. The extra byte may be the
   * CR of a terminator whose LF comes in the next chunk.
   */
  method OverlongPayloadTruncated(head: Bytes, payload: Bytes, extra: byte, next: Bytes,
                                  ln: Line, cache: CacheOracle, dataMaxSize: nat)
    returns (first: Effects, second: Effects)
    requires !HasCRLF(head) && !HasCRLF(payload + [extra])
    requires IsStore(ln.command) && 0 < ln.bytes == |payload| <= dataMaxSize
    ensures first == NoEffects
    ensures second == Execution(ln, Some(payload), cache)
  {
    var c := new Context();
    var rest := payload + [extra];
    LineThen(head, rest);
    first := c.HandleData(head + [CR, LF] + rest, ParserOf(ln), cache, dataMaxSize);
    var buffer := c.data;
    second := c.HandleData(next, ParserOf(ln), cache, dataMaxSize);
    assert buffer[..] == payload;
  }
}
