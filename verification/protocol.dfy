/**
 * Values exchanged by one connection of the memcached-text-protocol server:
 * the bytes of a chunk, the command record produced by the command-line
 * parser, the answers of the cache, and what the connection writes back.
 *
 * The parser and the cache are not part of this model. They appear as
 * oracles: the parser is a total function from a command line to a record or
 * an error, and the cache is a bundle of functions from a call to its answer.
 */
module Protocol {

  newtype byte = x: int | 0 <= x < 256

  type Bytes = seq<byte>

  type Key = string

  const CR: byte := 13
  const LF: byte := 10

  datatype Option<T> = None | Some(value: T)

  /** `line.command`; `NoCommand` is the `null` of the default line. */
  datatype Command =
    | NoCommand
    | Get | Gets
    | Set | Add | Replace | Append | Prepend | Cas
    | Quit
    | Other(name: string)

  /** The STORE operation list: commands followed by a data block. */
  predicate IsStore(c: Command) {
    c.Set? || c.Add? || c.Replace? || c.Append? || c.Prepend? || c.Cas?
  }

  /** The RETRIEVE operation list. */
  predicate IsRetrieve(c: Command) {
    c.Get? || c.Gets?
  }

  /** The QUIT operation list. */
  predicate IsQuit(c: Command) {
    c.Quit?
  }

  /** A command in none of the three lists, which `handleData` does not act on. */
  predicate IsUnlisted(c: Command) {
    !IsStore(c) && !IsRetrieve(c) && !IsQuit(c)
  }

  /**
   * `line.key`: `null` in the default line, one key for a storage command,
   * a list of keys for a retrieval command.
   */
  datatype KeyArg = NullKey | Single(name: Key) | Many(names: seq<Key>)

  /**
   * The command record. `data` is the `line.data` property that the cas
   * branch reads; the default line has no such property (`None`).
   */
  datatype Line = Line(
    command: Command,
    key: KeyArg,
    flags: int,
    expTime: int,
    bytes: nat,
    casUnique: int,
    noreply: bool,
    data: Option<Bytes>)

  /** The line record that the context starts with and `reset()` restores. */
  const DefaultLine: Line := Line(NoCommand, NullKey, 0, 0, 0, 0, false, None)

  /** What the command-line parser returns or throws. */
  datatype ParseResult = Parsed(line: Line) | ParseError(message: string)

  /** A record returned by `cache.get`. */
  datatype Record = Record(flags: int, value: Bytes, casUnique: int)

  /** The answer of `cache.cas`: three flags, read in this order (`conflict` is the `exists` flag). */
  datatype CasAnswer = CasAnswer(stored: bool, notFound: bool, conflict: bool)

  /** A call made into the cache, with the arguments it was given. */
  datatype CacheCall =
    | Lookup(name: Key)
    | SetCall(key: KeyArg, flags: int, expTime: int, value: Option<Bytes>)
    | AddCall(key: KeyArg, flags: int, expTime: int, value: Option<Bytes>)
    | ReplaceCall(key: KeyArg, flags: int, expTime: int, value: Option<Bytes>)
    | AppendCall(key: KeyArg, value: Option<Bytes>)
    | PrependCall(key: KeyArg, value: Option<Bytes>)
    | CasCall(key: KeyArg, flags: int, expTime: int, value: Option<Bytes>, casUnique: int)

  /**
   * The cache as seen by one command: the answer of `get` per key, the
   * boolean answer of add/replace/append/prepend per call, the answer of
   * `cas` per call, and the `cache.noreply` property.
   */
  datatype CacheOracle = CacheOracle(
    lookup: Key -> Option<Record>,
    storeReply: CacheCall -> bool,
    casReply: CacheCall -> CasAnswer,
    noreply: bool)

  /** The message after `CLIENT_ERROR`. */
  datatype ErrorMessage =
    | ParseFailure(text: string)
    | BadDataChunk
    | ObjectTooLarge(maxSize: nat)

  /** One `socket.write`. `Value` carries the whole VALUE line and its data block. */
  datatype Response =
    | Stored | NotStored | Exists | NotFound | End
    | Value(key: Key, flags: int, data: Bytes, casUnique: Option<int>)
    | ClientError(message: ErrorMessage)

  datatype Action = Write(response: Response) | Close

  /** An exception that leaves `handleData` uncaught. */
  datatype Fault =
    | BadChunkEscaped   // readData throws during the command-line branch
    | KeyNotIterable    // forEach on a retrieval key that is not a list
    | WriteUndefined    // socket.write of the undefined cas response

  /** What handling a chunk or executing a command did to the outside world. */
  datatype Effects = Effects(writes: seq<Action>, calls: seq<CacheCall>, fault: Option<Fault>)

  const NoEffects: Effects := Effects([], [], None)
}
