/**
 * The per-connection state machine of server/server.js: the `context`
 * object with its `reset()`, the chunk handler `handleData`, the payload
 * reader `readData` and the command executor `executeCommand`.
 *
 * Socket writes and the cache calls made become the `Effects` each method
 * returns; `socket.destroy()` is the `Close` action. An exception that
 * escapes `handleData` is reported in `Effects.fault`.
 */
module Connection {
  import opened Protocol
  import opened Framing
  import opened Executor

  /** The command line at the head of a chunk, CR LF included. */
  function CommandLine(chunk: Bytes): (s: Bytes)
    requires HasCRLF(chunk)
    ensures |s| >= 2 && s[|s| - 2] == CR && s[|s| - 1] == LF
    ensures forall j: nat :: j < |s| - 2 ==> !IsCRLFAt(s, j)
  {
    var s := chunk[..FirstCRLF(chunk) + 2];
    assert forall j: nat :: j < |s| - 2 ==> (IsCRLFAt(s, j) <==> IsCRLFAt(chunk, j));
    s
  }

  /** The bytes of a chunk after its first CR LF. */
  function AfterCommandLine(chunk: Bytes): (s: Bytes)
    requires HasCRLF(chunk)
    ensures CommandLine(chunk) + s == chunk
  {
    chunk[FirstCRLF(chunk) + 2..]
  }

  /**
   * The `forEach` of the get and gets branches: look every key up, in
   * order, and write a VALUE line for each one that has a record; then END.
   */
  method Retrieve(keys: seq<Key>, cache: CacheOracle, withCas: bool)
    returns (writes: seq<Action>, calls: seq<CacheCall>)
    ensures writes == RetrievalLines(keys, cache.lookup, withCas) + [Write(End)]
    ensures calls == Lookups(keys)
  {
    writes, calls := [], [];
    for j := 0 to |keys|
      invariant writes == RetrievalLines(keys[..j], cache.lookup, withCas)
      invariant calls == Lookups(keys[..j])
    {
      RetrievalStep(keys, j, cache.lookup, withCas);
      var record := cache.lookup(keys[j]);
      calls := calls + [Lookup(keys[j])];
      if record.Some? {
        writes := writes + [Write(ValueLine(keys[j], record.value, withCas))];
      }
    }
    assert keys[..|keys|] == keys;
    writes := writes + [Write(End)];
  }

  /** One more key handled by the retrieval loop adds its lookup and its VALUE write. */
  lemma RetrievalStep(keys: seq<Key>, j: nat, lookup: Key -> Option<Record>, withCas: bool)
    requires j < |keys|
    ensures RetrievalLines(keys[..j + 1], lookup, withCas)
         == RetrievalLines(keys[..j], lookup, withCas) + KeyLines(keys[j], lookup, withCas)
    ensures Lookups(keys[..j + 1]) == Lookups(keys[..j]) + [Lookup(keys[j])]
  {
    var prefix := keys[..j + 1];
    assert prefix[..|prefix| - 1] == keys[..j];
    assert prefix[|prefix| - 1] == keys[j];
    assert Lookups(prefix) == Lookups(keys[..j]) + [Lookup(keys[j])];
  }

  class Context {
    var receivingData: bool
    var line: Line
    var data: array?<byte>
    var bytesRead: nat
    var buffer: array?<byte>

    /**
     * Outside payload mode nothing has been read and there is no payload
     * buffer; in payload mode the buffer holds exactly `line.bytes` bytes
     * and the reader is at most one byte past it.
     */
    ghost predicate Valid()
      reads this
    {
      && (!receivingData ==> bytesRead == 0 && data == null)
      && (receivingData ==> data != null && data.Length == line.bytes && bytesRead <= line.bytes + 1)
    }

    /** Every field holds the value `reset()` gives it. */
    ghost predicate IsReset()
      reads this
    {
      !receivingData && line == DefaultLine && data == null && bytesRead == 0 && buffer == null
    }

    /** `context.data`, as handed to the cache. */
    function Payload(): Option<Bytes>
      reads this, data
    {
      if data == null then None else Some(data[..])
    }

    /** The context a new connection starts with: the same values `reset()` sets. */
    constructor ()
      ensures IsReset() && Valid()
    {
      receivingData := false;
      line := DefaultLine;
      data := null;
      bytesRead := 0;
      buffer := null;
    }

    /**
     * `reset()`: every field gets its default, whatever it held before, so
     * resetting twice leaves the same context as resetting once.
     */
    method Reset()
      modifies this
      ensures IsReset() && Valid()
    {
      receivingData := false;
      line := DefaultLine;
      data := null;
      bytesRead := 0;
      buffer := null;
    }

    /**
     * `readData`: copy the bytes of the chunk into the payload buffer at
     * `bytesRead`, one at a time, until a CR LF, the end of the chunk, or a
     * "Bad data chunk" error. A write at an index past the end of the buffer
     * is dropped, as for any Node Buffer. The callback of the source is left
     * to the caller, which runs it when the status is `Terminated`.
     */
    method ReadData(chunk: Bytes) returns (status: ReadStatus)
      requires Valid() && receivingData && bytesRead <= line.bytes
      modifies this`bytesRead, data
      ensures Valid() && receivingData
      ensures status == Scan(old(bytesRead), line.bytes, chunk).status
      ensures bytesRead == Scan(old(bytesRead), line.bytes, chunk).bytesRead
      ensures forall k :: 0 <= k < data.Length ==>
        data[k] == if old(bytesRead) <= k < bytesRead then chunk[k - old(bytesRead)] else old(data[k])
    {
      var i := 0;
      while i < |chunk|
        invariant 0 <= i <= |chunk|
        invariant forall j: nat :: j < i ==> !IsCRLFAt(chunk, j)
        invariant bytesRead == old(bytesRead) + i <= line.bytes + 1
        invariant forall k :: 0 <= k < data.Length ==>
          data[k] == if old(bytesRead) <= k < bytesRead then chunk[k - old(bytesRead)] else old(data[k])
      {
        if chunk[i] == CR && i + 1 < |chunk| && chunk[i + 1] == LF {
          FirstCRLFAt(chunk, i);
          if bytesRead == line.bytes {
            return Terminated;
          } else {
            return BadChunk;
          }
        }
        if bytesRead > line.bytes {
          return BadChunk;
        }
        if bytesRead < data.Length {
          data[bytesRead] := chunk[i];
        }
        bytesRead := bytesRead + 1;
        i := i + 1;
      }
      return Exhausted;
    }

    /**
     * `executeCommand`: the effects of the command in `line` with the
     * payload in `data`, followed by `reset()`. An exception (a retrieval key
     * that is not a list, or a cas answer with no flag set) leaves the
     * context as it was. This is the step-by-step counterpart of
     * `Execution`, which specifies it; the replies come from the same
     * `StoreReply` and `CasResponse`, and the retrieval from the loop
     * `Retrieve`.
     */
    method ExecuteCommand(cache: CacheOracle) returns (eff: Effects)
      modifies this
      ensures eff == Execution(old(line), old(Payload()), cache)
      ensures eff.fault == None ==> IsReset() && Valid()
      ensures eff.fault != None ==> unchanged(this)
    {
      var payload := Payload();
      match line.command {
        case Get =>
          if !line.key.Many? {
            return Effects([], [], Some(KeyNotIterable));
          }
          var writes, calls := Retrieve(line.key.names, cache, false);
          eff := Effects(writes, calls, None);
        case Gets =>
          if !line.key.Many? {
            return Effects([], [], Some(KeyNotIterable));
          }
          var writes, calls := Retrieve(line.key.names, cache, true);
          eff := Effects(writes, calls, None);
        case Add =>
          var call := AddCall(line.key, line.flags, line.expTime, payload);
          var stored := cache.storeReply(call);
          eff := Effects(StoreReply(line.noreply, stored), [call], None);
        case Set =>
          var call := SetCall(line.key, line.flags, line.expTime, payload);
          eff := Effects(if !line.noreply then [Write(Stored)] else [], [call], None);
        case Replace =>
          var call := ReplaceCall(line.key, line.flags, line.expTime, payload);
          var stored := cache.storeReply(call);
          eff := Effects(StoreReply(cache.noreply, stored), [call], None);
        case Append =>
          var call := AppendCall(line.key, payload);
          var stored := cache.storeReply(call);
          eff := Effects(StoreReply(cache.noreply, stored), [call], None);
        case Prepend =>
          var call := PrependCall(line.key, payload);
          var stored := cache.storeReply(call);
          eff := Effects(StoreReply(line.noreply, stored), [call], None);
        case Cas =>
          var call := CasCall(line.key, line.flags, line.expTime, line.data, line.casUnique);
          var answer := cache.casReply(call);
          var writes := [];
          if !cache.noreply {
            var finalResponse := CasResponse(answer);
            if finalResponse.None? {
              return Effects([], [call], Some(WriteUndefined));
            }
            writes := [Write(finalResponse.value)];
          }
          eff := Effects(writes, [call], None);
        case Quit =>
          eff := Effects([Close], [], None);
        case NoCommand =>
          eff := NoEffects;
        case Other(_) =>
          eff := NoEffects;
      }
      Reset();
    }

    /**
     * What a chunk does in payload mode, where `buf` is the payload buffer
     * the chunk arrived to. The reader runs only while fewer than
     * `line.bytes` bytes were read. If it throws, the connection writes
     * CLIENT_ERROR and resets. Otherwise the bytes it took are in `buf`, and
     * the test at the source's line 88, an assignment of `line.bytes` to
     * `bytesRead`, runs the command exactly when `line.bytes` is not zero,
     * however many payload bytes have arrived.
     */
    twostate predicate PayloadChunkHandled(buf: array<byte>, chunk: Bytes, cache: CacheOracle, eff: Effects)
      reads this, buf
    {
      var start, declared := old(bytesRead), old(line.bytes);
      if start < declared && Scan(start, declared, chunk).status == BadChunk then
        eff == Effects([Write(ClientError(BadDataChunk))], [], None) && IsReset()
      else
        var filled := if start < declared then Scan(start, declared, chunk).bytesRead else start;
        && filled - start <= |chunk|
        && (forall k :: 0 <= k < buf.Length ==>
              buf[k] == if start <= k < filled then chunk[k - start] else old(buf[k]))
        && (declared != 0 ==>
              && eff == Execution(old(line), Some(buf[..]), cache)
              && (eff.fault == None ==> IsReset())
              && (eff.fault != None ==>
                    && !receivingData && bytesRead == 0 && line == old(line)
                    && data == buf && buffer == old(buffer)))
        && (declared == 0 ==>
              && eff == NoEffects
              && receivingData && line == old(line) && bytesRead == 0
              && data == buf && buffer == old(buffer))
    }

    /**
     * What an accepted storage command `ln` does with the bytes `rest` that
     * follow its command line in the same chunk. It gets a fresh buffer of
     * exactly `ln.bytes` bytes and payload mode, and `rest` is read into the
     * buffer: on the terminator the command runs with the payload taken
     * verbatim; when the chunk runs out the connection waits for more
     * payload; an error of the reader escapes.
     */
    twostate predicate PayloadStarted(ln: Line, rest: Bytes, cache: CacheOracle, eff: Effects)
      reads this, data
    {
      var r := Scan(0, ln.bytes, rest);
      match r.status
      case Terminated =>
        && eff == Execution(ln, Some(rest[..ln.bytes]), cache)
        && (eff.fault == None ==> IsReset())
        && (eff.fault != None ==>
              && receivingData && line == ln && bytesRead == ln.bytes
              && data != null && fresh(data) && data[..] == rest[..ln.bytes]
              && buffer == old(buffer))
      case Exhausted =>
        && eff == NoEffects
        && receivingData && line == ln && bytesRead == |rest|
        && data != null && fresh(data) && data.Length == ln.bytes
        && (forall k :: 0 <= k < |rest| && k < ln.bytes ==> data[k] == rest[k])
        && buffer == old(buffer)
      case BadChunk =>
        && eff == Effects([], [], Some(BadChunkEscaped))
        && receivingData && line == ln && bytesRead == r.bytesRead
        && data != null && fresh(data) && data.Length == ln.bytes
    }

    /**
     * What a chunk does in command mode. Its first line goes to the parser;
     * a parse error, or a storage command declaring more than `dataMaxSize`
     * bytes, writes CLIENT_ERROR and resets without allocating a buffer or
     * reading a payload byte. An accepted storage command starts its payload
     * with the rest of the chunk. A retrieval or quit runs at once. Bytes
     * after the command line are dropped unless read as payload.
     */
    twostate predicate CommandChunkHandled(chunk: Bytes, parser: Bytes -> ParseResult, cache: CacheOracle,
                                           dataMaxSize: nat, eff: Effects)
      requires HasCRLF(chunk)
      reads this, data
    {
      match parser(CommandLine(chunk))
      case ParseError(msg) =>
        eff == Effects([Write(ClientError(ParseFailure(msg)))], [], None) && IsReset()
      case Parsed(ln) =>
        if IsStore(ln.command) && ln.bytes > dataMaxSize then
          eff == Effects([Write(ClientError(ObjectTooLarge(dataMaxSize)))], [], None) && IsReset()
        else if IsStore(ln.command) then
          PayloadStarted(ln, AfterCommandLine(chunk), cache, eff)
        else if IsRetrieve(ln.command) || IsQuit(ln.command) then
          && eff == Execution(ln, None, cache)
          && (eff.fault == None ==> IsReset())
          && (eff.fault != None ==>
                && line == ln && !receivingData && bytesRead == 0 && data == null
                && buffer == old(buffer))
        else
          && eff == NoEffects
          && line == ln && !receivingData && bytesRead == 0 && data == null
          && buffer == old(buffer)
    }

    /**
     * `handleData`: one chunk from the socket. A chunk in command mode must
     * hold a CR LF, since the source's scan for it does not stop otherwise.
     */
    method HandleData(chunk: Bytes, parser: Bytes -> ParseResult, cache: CacheOracle, dataMaxSize: nat)
      returns (eff: Effects)
      requires Valid()
      requires !receivingData ==> HasCRLF(chunk)
      modifies this, data
      ensures eff.fault == None ==> Valid()
      ensures old(receivingData) ==> old(data) != null && PayloadChunkHandled(old(data), chunk, cache, eff)
      ensures !old(receivingData) ==> CommandChunkHandled(chunk, parser, cache, dataMaxSize, eff)
    {
      if receivingData {
        eff := HandlePayloadChunk(chunk, cache);
      } else {
        eff := HandleCommandChunk(chunk, parser, cache, dataMaxSize);
      }
    }

    /** The payload-mode branch of `handleData`. */
    method HandlePayloadChunk(chunk: Bytes, cache: CacheOracle) returns (eff: Effects)
      requires Valid() && receivingData
      modifies this, data
      ensures eff.fault == None ==> Valid()
      ensures old(data) != null && PayloadChunkHandled(old(data), chunk, cache, eff)
    {
      if bytesRead < line.bytes {
        var status := ReadData(chunk);
        if status == BadChunk {
          eff := Effects([Write(ClientError(BadDataChunk))], [], None);
          Reset();
          return;
        }
      }
      // The condition of the source assigns `line.bytes` to `bytesRead`
      // and tests the assigned value.
      bytesRead := line.bytes;
      if line.bytes != 0 {
        receivingData := false;
        bytesRead := 0;
        eff := ExecuteCommand(cache);
      } else {
        eff := NoEffects;
      }
    }

    /** The command-mode branch of `handleData`. */
    method HandleCommandChunk(chunk: Bytes, parser: Bytes -> ParseResult, cache: CacheOracle, dataMaxSize: nat)
      returns (eff: Effects)
      requires Valid() && !receivingData
      requires HasCRLF(chunk)
      modifies this
      ensures eff.fault == None ==> Valid()
      ensures CommandChunkHandled(chunk, parser, cache, dataMaxSize, eff)
    {
      var i := FindLineEnd(chunk);
      FirstCRLFAt(chunk, i);
      assert chunk[..i + 2] == CommandLine(chunk) && chunk[i + 2..] == AfterCommandLine(chunk);
      var parsed := parser(chunk[..i + 2]);
      if parsed.ParseError? {
        eff := Effects([Write(ClientError(ParseFailure(parsed.message)))], [], None);
        Reset();
        return;
      }
      line := parsed.line;
      eff := NoEffects;
      if IsStore(line.command) {
        if line.bytes > dataMaxSize {
          eff := Effects([Write(ClientError(ObjectTooLarge(dataMaxSize)))], [], None);
          Reset();
          return;
        }
        // A storage command is in neither of the lists tested below, and
        // neither is the command of a reset line.
        eff := ReceivePayload(chunk[i + 2..], cache);
        return;
      }
      if IsRetrieve(line.command) {
        eff := ExecuteCommand(cache);
        if eff.fault != None {
          return;
        }
      }
      if IsQuit(line.command) {
        eff := ExecuteCommand(cache);
      }
    }

    /** The storage branch of `handleData` in command mode, after the size check. */
    method ReceivePayload(rest: Bytes, cache: CacheOracle) returns (eff: Effects)
      requires Valid() && !receivingData
      modifies this
      ensures eff.fault == None ==> Valid()
      ensures PayloadStarted(old(line), rest, cache, eff)
    {
      data := new byte[line.bytes];
      receivingData := true;
      var status := ReadData(rest);
      if status == BadChunk {
        // thrown outside any try block
        return Effects([], [], Some(BadChunkEscaped));
      }
      if status == Terminated {
        // the callback given to readData
        assert data[..] == rest[..line.bytes];
        eff := ExecuteCommand(cache);
      } else {
        eff := NoEffects;
      }
    }
  }
}
