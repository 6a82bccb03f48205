# nodecached connection state machine, in Dafny

This project models the per-connection protocol state machine of a
memcached-text-protocol server, `server/server.js`. It covers four parts:

- the connection `context` with its `reset()`;
- the chunk handler `handleData`, which cuts a command line out of a chunk
  at its first CR LF and switches into payload mode for storage commands;
- the payload reader `readData`, which copies payload bytes into a
  fixed-size buffer and watches for the terminator;
- the response selector `executeCommand`, which turns a completed command
  and the cache's answers into the lines written back.

The command-line parser and the cache engine are not part of this model. The
parser is a function from a command line to a `Line` record or a parse
error. The cache is a `CacheOracle`, a bundle of functions: the answer of
`get` per key, the boolean answer of `add`/`replace`/`append`/`prepend`, the
three-flag answer of `cas`, and the `cache.noreply` property that the source
reads. Socket writes and cache calls are returned as `Effects`.
`socket.destroy()` is the `Close` action. An exception that escapes
`handleData` is reported as `Effects.fault`, with the state as it stood when
the exception was raised.

Modules:

- `Protocol` (protocol.dfy): bytes, the command record, the oracles,
  responses and effects.
- `Framing` (framing.dfy): where a command line ends (`FirstCRLF`, the loop
  `FindLineEnd`). It also holds `Scan`, a closed form of what `readData`
  does with one chunk.
- `Executor` (executor.dfy): `Execution`, the effects of `executeCommand` as
  a function. Around it are the VALUE lines of a retrieval, the cas response
  choice and the noreply lemmas.
- `Connection` (connection.dfy): class `Context` with the source's fields.
  Its methods are `Reset`, `ReadData` (the byte loop over the buffer
  array), `ExecuteCommand` and `HandleData`, and each is proved against the
  functions above. Three two-state predicates state what `handleData` does:
  - `PayloadChunkHandled` for a chunk in payload mode;
  - `CommandChunkHandled` for a chunk in command mode;
  - `PayloadStarted` for the storage branch.
- `Scenarios` (scenarios.dfy): conversations over one or more chunks.
  They are stated for every command line the parser reads as a given
  storage command and for every payload without a CR LF of its own (a lone
  CR is a data byte), and they show the framer's behaviour at its edges.

The model follows the code where it departs from the protocol as
documented for the system:

- The test at line 88 is an assignment. A chunk in payload mode therefore
  runs the command whenever the declared length is not zero, however few
  payload bytes have arrived, and a zero-length payload whose terminator
  comes in a later chunk never leaves payload mode (`ZeroLengthPayloadWedges`).
- `replace`, `append` and `cas` read `cache.noreply`, not the command's own
  `noreply`.
- `cas` is given `line.data`, not the payload buffer (`CasIgnoresPayload`).
- Bytes after a command line, or after a payload terminator, in the same
  chunk are dropped instead of starting the next command.
- A payload in the same chunk as its command line that contains a CR LF in
  the wrong place makes `readData` throw outside any try block
  (`EmbeddedTerminatorEscapes`). In that case no CLIENT_ERROR is written and
  the context is not reset.
- One payload byte beyond the declared length is accepted and dropped, not
  reported (`OverlongPayloadTruncated`). The reader checks for overflow
  before it writes, and a write past the end of a Node Buffer has no effect.

## Model

| member | source | states |
|---|---|---|
| Framing.FirstCRLF | server/server.js:100-103 | the result is the position of the first CR LF, or the chunk length when there is none; it is below the length exactly when the chunk holds a CR LF |
| Framing.FindLineEnd | server/server.js:100-103 | the scan loop stops on a CR LF with none before it, for every chunk that holds a CR LF |
| Framing.Scan | server/server.js:146-180 | the reader stops cleanly exactly when the first CR LF sits right after the declared bytes; it runs out of chunk exactly when there is no CR LF and at most one byte too many; otherwise it throws; it never counts past declared + 1 |
| Connection.CommandLine | server/server.js:100-109 | the line handed to the parser ends in CR LF and holds no earlier CR LF |
| Connection.AfterCommandLine | server/server.js:129 | the command line followed by the bytes given to the reader is the whole chunk |
| Executor.RetrievalLines | server/server.js:196-222 | get and gets write at most one line per key; each is the VALUE line of a requested key that has a record (with its cas token for gets); every requested key with a record has its line; no line when no key has a record |
| Executor.RetrievalLinesAppend | server/server.js:198-204 | VALUE lines follow key order: the lines for a list of keys are those for its first part followed by those for the rest |
| Connection.Retrieve | server/server.js:198-206 | the forEach loop looks every key up in order and writes exactly the VALUE lines of the keys that have a record, then one END |
| Executor.CasResponse | server/server.js:276-289 | stored gives STORED, otherwise notFound gives NOT_FOUND, otherwise exists gives EXISTS; no flag set gives no response |
| Executor.CasThreeWay | server/server.js:269-293 | for an answer with exactly one flag set, the response names that flag |
| Executor.Execution | server/server.js:189-301 | retrieval writes the VALUE lines then END, or throws for a key that is not a list; every other command writes at most one line and no END; set, add and replace call their own cache operation with the command's key, flags, expiry time and the payload, and append and prepend theirs with the key and the payload; set, add and prepend obey the command's noreply, while replace, append and cas obey the cache's; cas passes line.data and throws on an answer with no flag; quit closes; any other command does nothing |
| Executor.SingleEnd | server/server.js:196-222 | a retrieval that completes writes exactly one END, as its last write, after VALUE lines only; no other command writes END |
| Executor.CommandNoreplyIgnored | server/server.js:242-273 | replace, append and cas have the same effects whatever the command's own noreply is |
| Executor.CommandNoreplyObeyed | server/server.js:224-267 | set, add and prepend write nothing with noreply and exactly one response without it |
| Executor.CasIgnoresPayload | server/server.js:271 | cas has the same effects whatever the payload buffer holds |
| Connection.Context.constructor | server/server.js:29-42 | a new connection starts with every field at its reset value |
| Connection.Context.Reset | server/server.js:44-60 | every field gets its default value whatever it held before, so a second reset leaves the same state |
| Connection.Context.ReadData | server/server.js:146-180 | the status and the final count are those of Scan; buffer cells from the old count up to the new one hold the chunk's bytes in order, and every other cell is unchanged |
| Connection.Context.ExecuteCommand | server/server.js:189-305 | the effects are Execution of the line and buffer before the call; without an exception the context is reset afterwards, and with one it is unchanged |
| Connection.Context.HandleData | server/server.js:70-144 | in payload mode the chunk is handled as PayloadChunkHandled states, in command mode as CommandChunkHandled states; the context stays valid unless an exception escapes |
| Connection.Context.HandlePayloadChunk | server/server.js:72-95 | the reader runs only while fewer than the declared bytes were read; its error writes CLIENT_ERROR and resets; otherwise the bytes taken are in the buffer and the command runs exactly when the declared length is not zero; if the command throws, payload mode is already off and the count is zero, while the line and the buffer are kept |
| Connection.Context.HandleCommandChunk | server/server.js:97-142 | a parse error or an oversized storage command writes one CLIENT_ERROR and resets without a buffer; a storage command starts its payload; retrieval and quit run at once, and a retrieval that throws leaves the parsed line in place; any other command is kept and nothing is written |
| Connection.Context.ReceivePayload | server/server.js:127-130 | a fresh buffer of exactly the declared size; on the terminator the command runs with the payload taken verbatim, and if it throws the connection stays in payload mode with the full count and the filled buffer; when the chunk runs out the connection waits with the bytes read so far; a reader error escapes |
| Scenarios.WholePayloadExecuted | server/server.js:119-130 | a storage command and its whole payload in one chunk run the command with exactly that payload, lone CR bytes included, and the context is reset afterwards |
| Scenarios.EmbeddedTerminatorEscapes | server/server.js:151-161 | a CR LF anywhere but right after the declared bytes, in the chunk of the command line, escapes as an uncaught error |
| Scenarios.ZeroLengthPayloadWedges | server/server.js:88-95 | after a zero-length storage command without its terminator, every later chunk is dropped without an answer |
| Scenarios.SplitPayloadExecutedEarly | server/server.js:72-95 | a payload still incomplete after its second chunk runs the command anyway, with a buffer of the declared size that holds the bytes received so far at its head |
| Scenarios.OverlongPayloadTruncated | server/server.js:167-175 | one byte more than declared is dropped, even when it is the CR of a terminator split across chunks, and the next chunk, whatever it holds, runs the command with the declared bytes |

## Left out

- Server start-up, listening and the wiring of socket events (server/server.js:11-22, :315-317) are network plumbing. The sequence of `data` events on one socket is modelled as successive calls of `HandleData`.
- Loading the configuration, parsing console arguments and the start-up `purgeExpired` call (server/server.js:17, :19) are external collaborators. `Config.dataMaxSize` is a parameter.
- `server/libs/cacheMemory` is not part of this model. Its answers come from `CacheOracle`, and the cache state is taken to be fixed while one command runs.
- `server/libs/commandParser` is not part of this model. It is a parameter from a command line to a record or an error message.
- `globals/globals` is not part of this model. The operation lists are taken to be the standard ones: STORE is set, add, replace, append, prepend and cas; RETRIEVE is get and gets; QUIT is quit.
- The response texts and the string conversion of a Buffer value in a VALUE line (server/server.js:202, :216) are abstract `Response` constructors over byte sequences.
- The logging handlers (server/server.js:307-313) and the client address log line.
- Line 92 sets a `bytes` property on the context that nothing reads, so it is left out.
- The contents of a buffer from `Buffer.allocUnsafe` are arbitrary in the source. The model does not fix them either, and its contracts speak only of the cells the reader writes.
- What happens after an exception escapes `handleData` belongs to the Node runtime. The model reports the exception and the state at that point.
- Concurrency between connections is left out: each `handleData` call runs to completion.
- Framing.FindLineEnd: requires a chunk that holds a CR LF, because the source's scan does not stop without one (it reads past the end of the chunk forever).
- Connection.Context.HandleData: requires a CR LF in a chunk that arrives in command mode, for the same reason.
- Connection.Context.HandleCommandChunk: requires a CR LF in the chunk, for the same reason.
