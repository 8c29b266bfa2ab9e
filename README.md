# mpc-js protocol engine, modelled in Dafny

This project models the core of mpc-js, a client for the Music Player Daemon (MPD).
Its protocol engine has three stages:

- **Frame decoder** (`decodeLines`, module `FrameDecoding`). It turns byte chunks into text lines and binary blobs.
  - A residual buffer and a pending `binaryLength` carry over from one chunk to the next.
  - A `binary: N` header switches it to taking exactly N raw bytes and one delimiter byte.
- **Response grouper** (`groupResponseLines`, module `ResponseGrouping`). It turns tokens into protocol units: the `OK MPD x.y.z` greeting, a success (`lines` plus an optional binary payload), or an `ACK` failure.
  - It is a state machine over the flags `initialized` and `receivingList` and an accumulating `currentResponse`.
- **Request scheduler** (class `MPDProtocol`, module `Protocol`).
  - It queues commands.
  - It writes everything queued as one `command_list_ok_begin … command_list_end` list, or a single command on its own line.
  - It idles with `idle` when there is nothing to do, and sends `noidle` when work arrives.
  - It settles the oldest running request with each unit.
  - It requeues the rest of a batch after an `ACK`.
  - It rejects everything outstanding when the connection ends.

Around the engine the project models:

- the record parser `parse` (module `Util`);
- the database command builders and response readers (`DatabaseCommands`);
- the directory-entry and song-count objects (`DatabaseObjects`);
- the reflection commands (`Reflection`);
- the argument formatting of the stored-playlist, queue, connection and playback-option commands (`StoredPlaylists`, `CurrentPlaylist`, `Connection`, `PlaybackOptions`, with shared pieces in `Arguments`).

Common JavaScript built-ins (`indexOf`, `substring`, `split`, `join`, `Number`, `parseInt`) are written out on Dafny values in `Text`.

How the state is modelled:

- The decoder, the grouper and the scheduler are classes with the source's fields. Each has a `Transform` method, or one method per outcome of `reader.read()`.
- Every method is proved against a function of the old state: `Decode`, `GroupStep`, and the `Batch`/`CommandString`/`Rejections` definitions.
- The properties are proved about those functions.
- The scheduler's `send`, `emit` and promise settlements are logs held in the class (`sent`, `events`, `settlements`). A promise is identified by the number `sendCommand` hands out.
- The loops of `parse`, `listGrouped`, `downloadPicture` and `decoders` are methods with loop invariants against reference functions.

The model follows the code, including:

- A greeting is recognised only when the line starts with `OK MPD <digits>.<digits>.<digits>`.
- An `ACK` clears `currentResponse` and leaves `receivingList` as it was (see Findings).
- After an `ACK`, the rest of the batch is appended to the end of `queuedRequests` (src/protocol.ts:90).
- `enqueueRequest` checks only that a connection exists.
- `idleCallback` drops the first 9 characters of every line.
- `decoders()` pushes a decoder only when the next `plugin` line arrives (see Findings).

## Model

| member | source | states |
|---|---|---|
| FrameDecoding.Step | src/transform.ts:16-38 | One turn of the read loop either breaks or strictly shrinks the buffer or clears the pending length, so the loop always ends |
| FrameDecoding.StepOnLine | src/transform.ts:17-30 | Without a pending blob, no line feed in the buffer means the loop breaks, emitting nothing and keeping the buffer. Otherwise exactly the bytes before the first line feed and that line feed are consumed. Those bytes (which hold no line feed) are emitted as one text line, unless they start with `binary: `, which sets the pending length from `parseInt` and emits nothing |
| FrameDecoding.StepOnLineFound | src/transform.ts:18-29 | The same facts when a line feed is present |
| FrameDecoding.StepOnBlob | src/transform.ts:31-38 | With a pending length n, the loop breaks exactly when at most n bytes are buffered. Otherwise it emits the first n bytes unscanned as one blob, drops the byte after them and clears the pending length |
| FrameDecoding.Decode | src/transform.ts:16-39 | Running the loop leaves a state in which it breaks at once |
| FrameDecoding.StepAppend | src/transform.ts:16-38 | A turn that can be taken on a buffer is taken the same way when more bytes follow |
| FrameDecoding.StepAppendLine | src/transform.ts:17-30 | The same, for a line turn |
| FrameDecoding.StepAppendBlob | src/transform.ts:31-38 | The same, for a blob turn |
| FrameDecoding.DecodeAppend | src/transform.ts:13-39 | Decoding `x + y` gives the tokens of `x`, then those of its residue followed by `y` |
| FrameDecoding.DecodeAppendStep | src/transform.ts:13-39 | DecodeAppend in the case where a first turn is taken on `x` |
| FrameDecoding.DecodeFirst | src/transform.ts:16-39 | Decoding is the first turn followed by decoding what it leaves |
| FrameDecoding.ChunkBoundaryIndependence | src/transform.ts:8-39 | From any resting state, feeding bytes in chunks cut anywhere (mid-line or mid-blob) yields the same tokens and the same residual buffer and pending length as feeding them in one piece |
| FrameDecoding.BlobHeader | src/transform.ts:26-27 | The daemon's `binary: N` header is one byte per character, has no line feed and starts with the header prefix |
| FrameDecoding.DecodeEncodedToken | src/transform.ts:16-39 | One encoded line or blob is taken off the front of any byte string whole |
| FrameDecoding.StepOnText | src/transform.ts:18-29 | A sendable line and its line feed give exactly that text line |
| FrameDecoding.StepOnEncodedBlob | src/transform.ts:32-37 | With a pending length equal to the blob's size, the blob and its delimiter are taken whole |
| FrameDecoding.DecodeEncode | src/transform.ts:16-39 | Round trip: decoding the daemon's encoding of any token sequence gives back that sequence and leaves nothing buffered. Line feeds inside blobs are never read as separators |
| FrameDecoding.NoHeaderEmittedAsText | src/transform.ts:26-30 | No text line the decoder emits starts with `binary: ` |
| FrameDecoding.StepEmitsNoHeader | src/transform.ts:26-30 | The same, for one turn |
| FrameDecoding.StepOnHeader | src/transform.ts:26-27 | A `binary: N` line sets the pending length to N and emits nothing |
| FrameDecoding.HeaderThenBlob | src/transform.ts:26-37 | After a `binary: N` header, once more than N bytes follow, the next token is a blob of exactly those N bytes |
| FrameDecoding.LineDecoder.constructor | src/transform.ts:8-9 | The decoder starts with an empty buffer and no pending blob |
| FrameDecoding.LineDecoder.Transform | src/transform.ts:12-40 | A call emits exactly the tokens of decoding the old buffer plus the chunk, and keeps the residue and pending length for the next call |
| ResponseGrouping.MatchGreeting | src/transform.ts:46 | A matched greeting starts with `OK MPD ` |
| ResponseGrouping.MatchGreetingOfParts | src/transform.ts:46-62 | Every line `OK MPD a.b.c` plus a tail not starting with a digit matches, where a, b and c are non-empty digit runs (leading zeros allowed); the version is their three values |
| ResponseGrouping.MatchedGreetingParts | src/transform.ts:46-62 | Conversely, every matched line is of that shape and its version is the value of its three digit runs |
| ResponseGrouping.GreetingVersion | src/transform.ts:59-62 | `OK MPD x.y.z`, followed by anything that does not continue the third number, yields version (x, y, z) |
| ResponseGrouping.UpToLineTerminator | src/transform.ts:47 | `(.*)` captures a prefix free of line terminators that stops at the first one |
| ResponseGrouping.FailureOf | src/transform.ts:88-93 | Code -1 exactly when the failure pattern does not match, and then the message is `Unknown error: <line>` |
| ResponseGrouping.FailureFields | src/transform.ts:88-90 | `ACK [code@index] {command} message` yields exactly that code and that message |
| ResponseGrouping.AckLineMatches | src/transform.ts:47 | The failure pattern matches such a line at its start, capturing the code and the message |
| ResponseGrouping.GroupStep | src/transform.ts:54-104 | A greeting is emitted only before initialization. Once initialized the grouper stays initialized and never errors the stream |
| ResponseGrouping.CorrectedGroupStep | src/transform.ts:85-96 | With the correction, an `ACK` line leaves the list closed |
| ResponseGrouping.NoGreetingAfterInitialization | src/transform.ts:56-103 | After initialization, no token sequence produces a greeting or a stream error |
| ResponseGrouping.GreetingComesFirst | src/transform.ts:56-67 | From a fresh connection only the first unit can be the greeting. A first token that is not a greeting line (including a blob) errors the stream with `Unexpected initial message: …` and produces nothing |
| ResponseGrouping.ContentStep | src/transform.ts:97-99 | Any other line is appended to the current response and produces nothing |
| ResponseGrouping.OkStep | src/transform.ts:71-77 | Outside a list, `OK` emits the accumulated response and resets it. Inside a list, it emits nothing and clears the list flag |
| ResponseGrouping.ListOkStep | src/transform.ts:79-83 | `list_OK` always emits the accumulated response, resets it and sets the list flag |
| ResponseGrouping.ContentAccumulates | src/transform.ts:97-99 | Content lines are appended in order and produce nothing |
| ResponseGrouping.SingleResponse | src/transform.ts:71-99 | Content lines then `OK` give one success holding exactly those lines |
| ResponseGrouping.CommandListResponses | src/transform.ts:71-99 | A command-list reply with N members yields exactly N successes, each with only its own lines. The final `OK` yields nothing and closes the list |
| ResponseGrouping.BinaryResponse | src/transform.ts:101-103 | A blob sets the binary payload: a blob then `OK` give one success with no lines and that payload |
| ResponseGrouping.BlobReplyDecode | src/transform.ts:16-38 | The bytes `binary: N`, N bytes, delimiter, `OK` decode to the blob and `OK` |
| ResponseGrouping.BlobReply | src/transform.ts:26-103 | A reply like `binary: 5\nHELLO\nOK\n`, whatever bytes it carries, yields one success with no lines and exactly those bytes as payload, leaving nothing buffered |
| ResponseGrouping.AckStep | src/transform.ts:85-96 | An `ACK` line emits its failure and resets the current response. As written it leaves `receivingList` unchanged; corrected, it clears it |
| ResponseGrouping.AckLeavesListOpen | src/transform.ts:85-96 | As written, after an `ACK` inside a list, the next single command's `OK` emits nothing, and its lines stay behind for the response after it |
| ResponseGrouping.CorrectedAckEndsList | src/transform.ts:85-96 | Corrected, an `ACK` followed by another command's reply gives the failure and then that reply's success, whatever the list state |
| ResponseGrouping.FailedListThenCommand | src/transform.ts:71-96 | A list whose second member fails, then one more command: as written that command's success is missing; corrected, it is delivered |
| ResponseGrouping.ResponseGrouper.constructor | src/transform.ts:49-51 | Not initialized, not in a list, empty response |
| ResponseGrouping.ResponseGrouper.Transform | src/transform.ts:54-104 | A call changes the state and emits, enqueues or errors exactly as one grouper step on the old state |
| Protocol.RejectionsSettle | src/protocol.ts:109-110 | Rejecting a list settles exactly its user requests, each once, in order, each with the given error; the idle request's reject does nothing |
| Protocol.Rejections | src/protocol.ts:109-110 | The `forEach` of rejections gives at most one settlement per request (which ones, and with what error, RejectionsSettle states) |
| Protocol.AccountEnqueue | src/protocol.ts:141 | Queuing a new promise keeps every promise settled once or outstanding once |
| Protocol.AccountThrown | src/protocol.ts:139 | A promise rejected at once, because there is no connection, is settled once |
| Protocol.AccountConnectResolved | src/protocol.ts:71 | Resolving `connect` settles no request |
| Protocol.AccountResolve | src/protocol.ts:85-87 | Settling the oldest running request keeps the accounting |
| Protocol.AccountReject | src/protocol.ts:85-92 | Rejecting the oldest running request and moving the rest behind the queue loses and duplicates no promise |
| Protocol.AccountDispatch | src/protocol.ts:148-156 | Moving the queue to running, or starting the idle request, keeps the accounting |
| Protocol.AccountDisconnect | src/protocol.ts:107-115 | Rejecting all running, then all queued requests, then clearing both lists, leaves every promise settled exactly once |
| Protocol.CommandFraming | src/protocol.ts:157-167 | One running request is written as `cmd\n`. Any other number is written as `command_list_ok_begin\n`, each `cmd\n` in order, then `command_list_end\n`, and splitting the text at line feeds gives those lines back |
| Protocol.Batch | src/protocol.ts:149-156 | What `dequeueRequests` runs is never empty: the queue itself exactly when anything is queued, else the one idle request |
| Protocol.CommandString | src/protocol.ts:157-166 | One running command is written as `cmd\n`; any other number begins with `command_list_ok_begin\n` |
| Protocol.ChangedEvents | src/protocol.ts:173-174 | One `changed` event carrying all the subsystems, then one `changed-<s>` event per subsystem, in order |
| Protocol.FrameCommands | src/protocol.ts:157-166 | The string-building loop produces the framed text |
| Protocol.Subsystems | src/protocol.ts:172 | One subsystem per response line, in order |
| Protocol.SubsystemsOfChangedLines | src/protocol.ts:172 | Dropping 9 characters from `changed: <s>` lines gives back the subsystems |
| Protocol.MPDProtocol.constructor | src/protocol.ts:19-22 | Not connected, not ready, not idle, both lists empty, all logs empty |
| Protocol.MPDProtocol.Connect | src/protocol.ts:39-51 | Connecting while connected throws and changes nothing; otherwise the protocol becomes connected and nothing else changes |
| Protocol.MPDProtocol.SendCommand | src/protocol.ts:130-146 | Without a connection the new promise is rejected with `Not connected`. Otherwise the command is appended to the queue. While idle, exactly one `noidle` is sent and `idle` is cleared; later enqueues before dispatch send nothing. This holds whether or not the daemon is ready |
| Protocol.MPDProtocol.DequeueRequests | src/protocol.ts:148-168 | Called only with nothing running. A non-empty queue moves to running in order, the queue empties and `idle` is cleared. An empty queue starts the single idle request and sets `idle`. The framed batch is sent once |
| Protocol.MPDProtocol.IdleCallback | src/protocol.ts:170-175 | Clears `idle` and emits `changed` with the subsystems, then one `changed-<s>` per subsystem in order |
| Protocol.MPDProtocol.RejectAll | src/protocol.ts:109-110 | Appends the rejections of the given requests, in order |
| Protocol.MPDProtocol.Disconnect | src/protocol.ts:107-124 | Rejects every running, then every queued request, each once, and clears the connection, ready, idle, both lists and the version. The invariant is kept |
| Protocol.MPDProtocol.Unexpected | src/protocol.ts:77-83 | A unit with nothing running emits `socket-error` with `Received unexpected message:` and its text, then disconnects with that error |
| Protocol.MPDProtocol.ReceiveGreeting | src/protocol.ts:68-75 | The greeting records the version, sets ready, resolves `connect`, emits `ready`, then dispatches |
| Protocol.MPDProtocol.ReceiveResponse | src/protocol.ts:77-96 | A success settles the oldest running request: the idle request runs `idleCallback`. A new batch is written only once nothing is left running. With nothing running, the protocol disconnects with the joined lines |
| Protocol.MPDProtocol.ReceiveError | src/protocol.ts:77-96 | A failure rejects only the oldest running request. The rest of the batch goes to the end of the queue, unsettled, and the queue is dispatched. With nothing running, the protocol disconnects with the message |
| Protocol.MPDProtocol.ReceiveDone | src/protocol.ts:62-66 | End of stream emits `socket-end` and disconnects with `Disconnected` |
| Protocol.MPDProtocol.ReadFailed | src/protocol.ts:98-101 | A failed read emits `socket-error` and disconnects with `Unknown error: <err>` |
| Util.StringStartsWith | src/util.ts:3-5 | `stringStartsWith` holds exactly when the prefix is a prefix |
| Util.IsInitialResponse | src/util.ts:23-25 | True exactly for the greeting, the only unit with a `version` field |
| Util.IsError | src/util.ts:27-29 | True exactly for a failure, the only unit with an `errorMessage` field |
| Util.KeyValue | src/util.ts:43-46 | A line counts exactly when its first `:` is past index 0. The key is the colon-free text before it, and the value starts two characters after it |
| Util.Pairs | src/util.ts:42-60 | Only counted lines yield pairs |
| Util.PairsAppend | src/util.ts:42-60 | The pairs of two pieces of the response are the pairs of the first, then those of the second: pairs keep the order of their lines |
| Util.PairsMembers | src/util.ts:42-46 | A pair comes out exactly when some line reads as it; there are none exactly when no line counts |
| Util.Group | src/util.ts:47-50 | There are no records exactly when there are no counted lines |
| Util.Insert | src/util.ts:51-57 | Adding a value adds its key and changes no other key |
| Util.GroupIsWellGrouped | src/util.ts:47-63 | The records cut the counted lines at marker keys: nothing lost or reordered, every record non-empty, and a marker on the first counted line starts no extra empty record |
| Util.RecordCount | src/util.ts:47-63 | No counted lines give no records; otherwise there is 1 record plus one per later marker-keyed counted line |
| Util.NoMarkersOneRecord | src/util.ts:47-63 | Without markers there is at most one record |
| Util.NoMarkersSingleGroup | src/util.ts:47-50 | Without markers, all counted lines form one record |
| Util.RepeatedKeys | src/util.ts:51-57 | A key of a record holds all its values in input order, joined by `;`; keys that never occur are absent |
| Util.Parse | src/util.ts:37-66 | The loop returns one converted value per record, in order |
| Util.ParseLine | src/util.ts:42-60 | The `forEach` callback: a counting line advances the loop state by its pair (finishing the open record at a later marker, then joining the open one); any other line leaves the state unchanged |
| Util.ProgressOf | src/util.ts:38-60 | The loop counter equals the number of counted lines seen |
| Util.ProgressIsRecords | src/util.ts:42-60 | The loop state holds the finished records, converted, and the open record |
| Util.ParseDone | src/util.ts:61-65 | Closing the open record after the loop gives every record, converted, in order |
| Util.ParseNewRecord | src/util.ts:47-50 | A marker key after the first counted line closes the open record and opens a new one |
| Util.ParseSameRecord | src/util.ts:51-58 | Any other counted line joins the open record |
| DatabaseCommands.EscapeIsPerCharacter | src/commands/database.ts:327 | The two global replacements escape each character on its own; the second pass never touches what the first wrote |
| DatabaseCommands.UnescapeEscapeEach | src/commands/database.ts:327 | Removing the backslash before each escaped character recovers the filter, and the escaped text has no bare quote |
| DatabaseCommands.Escape | src/commands/database.ts:327 | The two global replacements equal escaping each character on its own; the result unescapes to the expression and has no bare quote |
| DatabaseCommands.TagClauses | src/commands/database.ts:329-331 | The text the `forEach` over the pairs appends is empty exactly when there are no pairs |
| DatabaseCommands.AddTagFilters | src/commands/database.ts:329-331 | The pairs are appended in order as ` tag "needle"`, unescaped |
| DatabaseCommands.AddFilter | src/commands/database.ts:325-334 | The command is always a prefix. A string filter appends ` "…"` with the escaped text; pairs append their clauses |
| DatabaseCommands.ExpressionFilterRoundTrip | src/commands/database.ts:326-327 | The quoted argument is delimited by its own quotes, has no bare quote inside, and unescapes to the expression |
| DatabaseCommands.AddSort | src/commands/database.ts:336-341 | ` sort X` is appended exactly when a sort tag is given |
| DatabaseCommands.AddWindow | src/commands/database.ts:343-348 | ` window s:e`, or ` window s:` without an end; nothing without a start, even if an end is given |
| DatabaseCommands.WindowRoundTrip | src/commands/database.ts:345 | The window argument splits at its one colon into the start and the end, which is empty when not given |
| DatabaseCommands.ListAll | src/commands/database.ts:190 | Each line maps to its text from two characters past its first `:`, order and count kept |
| DatabaseCommands.List | src/commands/database.ts:218 | Each line maps to itself minus the tag name and two more characters |
| DatabaseCommands.ListAllRecoversValues | src/commands/database.ts:190 | On well-formed lines with colon-free keys, `listAll` returns the values |
| DatabaseCommands.ListRecoversValues | src/commands/database.ts:218 | On lines of the requested tag, `list` returns the values |
| DatabaseCommands.ListStateOf | src/commands/database.ts:238-259 | The current group always has one entry per grouping tag |
| DatabaseCommands.ListGrouped | src/commands/database.ts:237-262 | The loop and the final save return the reference grouping of the counted lines |
| DatabaseCommands.GroupedListsShape | src/commands/database.ts:238-260 | Every result has a non-empty tag list and one group value per grouping tag. All the tag lists together are the non-grouping values, in line order |
| DatabaseCommands.GroupIsLatest | src/commands/database.ts:238-254 | For each grouping tag, the current group holds the most recent value given for it (`""` before any). A repeated grouping tag is only filled at its first position |
| DatabaseCommands.GroupingLineFinishes | src/commands/database.ts:240-254 | A grouping line after tag values finishes exactly one list: those values under the group current before the line |
| DatabaseCommands.FinishedListsStay | src/commands/database.ts:240-259 | Later lines never change a finished list |
| DatabaseCommands.Fetched | src/commands/database.ts:356-359 | The loop, stopping at an answer with no bytes, ends holding the first chunk as its prefix, with at least `size` bytes or an empty answer for the next offset |
| DatabaseCommands.FetchedReachesSize | src/commands/database.ts:356-359 | When every answer brings bytes, the loop ends holding at least `size` bytes |
| DatabaseCommands.AsWrittenHeld | src/commands/database.ts:356-359 | The loop as written, turn by turn, never loses bytes |
| DatabaseCommands.EmptyChunkNeverEnds | src/commands/database.ts:356-359 | As written, an empty answer for the current offset leaves the same bytes, still fewer than `size`, after any number of turns |
| DatabaseCommands.AsWrittenAgrees | src/commands/database.ts:356-359 | When every answer brings bytes, the loop as written ends holding exactly the bytes of `Fetched` |
| DatabaseCommands.FetchTranscript | src/commands/database.ts:355-359 | The first further request asks for the byte count of the first chunk. Each next offset is the previous one plus the bytes it brought. Every request happens while fewer than `size` bytes are held, and only the last may bring nothing. The picture is all the chunks in order |
| DatabaseCommands.ChunkRequests | src/commands/database.ts:357 | One `cmd offset` request per offset, in order |
| DatabaseCommands.DownloadPicture | src/commands/database.ts:350-363 | Offset 0 is requested first. No picture exactly when the first reply has no record or no binary part, and then nothing more is requested. Otherwise the requests follow the transcript, the data is the fetched bytes and the type is the `type` value. The loop stops at an answer with no bytes (see Findings) |
| DatabaseObjects.NewEntryBase | src/objects/database.ts:17-24 | Throws `Path not found…` exactly when the path key is absent; otherwise the path is its value, and the entry type and `Last-Modified` are kept |
| DatabaseObjects.NewFile | src/objects/database.ts:54-57 | A file entry with the `file` path; `size` is read as a number only when present |
| DatabaseObjects.CopiedTags | src/objects/database.ts:262-296 | A verbatim property is set when its key is present, only then, and with distinct names holds that key's value |
| DatabaseObjects.SongTagNamesDistinct | src/objects/database.ts:262-296 | The song's verbatim properties have distinct names |
| DatabaseObjects.CopiedTagsExact | src/objects/database.ts:262-296 | With distinct names, a property is present exactly when its key is |
| DatabaseObjects.SongTagValues | src/objects/database.ts:262-296 | Every song property from `title` to `musicBrainzWorkId` is set exactly when its record key is present, and holds that key's value |
| DatabaseObjects.ShowMovement | src/objects/database.ts:286 | True exactly when `ShowMovement` is the text `1` |
| DatabaseObjects.DurationString | src/objects/database.ts:297 | `duration` when non-empty, else `Time` when non-empty, else none |
| DatabaseObjects.FormatField | src/objects/database.ts:301-303 | A field is present exactly when the split has that many fields, and is then that field read by `Number` |
| DatabaseObjects.FormatFields | src/objects/database.ts:300 | No fields for an absent or empty format; otherwise fields that join back to it |
| DatabaseObjects.NewSong | src/objects/database.ts:260-304 | Throws exactly without `file`. `showMovement`, the duration-key choice and `format` are as above, and without a truthy format there is no rate, depth or channel count. The tags are the copied properties, and the rate, depth and channels are fields 0, 1 and 2 of the split format |
| DatabaseObjects.FormatFieldsOfThree | src/objects/database.ts:299-303 | A format of three colon-free fields `r:b:c` gives sample rate `Number(r)`, bit depth `Number(b)` and channels `Number(c)` |
| DatabaseObjects.FormatRoundTrip | src/objects/database.ts:299-303 | A format of decimal numbers `r:b:c` gives sample rate r, bit depth b and channels c |
| DatabaseObjects.FormatWithoutColon | src/objects/database.ts:300-303 | A colon-free format gives a sample rate only |
| DatabaseObjects.NewPlaylist | src/objects/database.ts:311-313 | Throws exactly without `playlist`; otherwise a playlist with that path |
| DatabaseObjects.NewDirectory | src/objects/database.ts:320-322 | Throws exactly without `directory`; otherwise a directory with that path |
| DatabaseObjects.FromValueMap | src/objects/database.ts:26-41 | Succeeds exactly when `file`, `directory` or `playlist` has a non-empty value. The first of them decides the kind: a Song with metadata, else a File. Otherwise it throws `Couldn't determine type…` |
| DatabaseObjects.FromValueMapOfEntry | src/objects/database.ts:26-36 | An entry's own record reads back with its kind and path |
| DatabaseObjects.IsFile | src/objects/database.ts:43 | True exactly for files |
| DatabaseObjects.IsSong | src/objects/database.ts:44 | True exactly for songs |
| DatabaseObjects.IsPlaylist | src/objects/database.ts:45 | True exactly for playlists |
| DatabaseObjects.IsDirectory | src/objects/database.ts:46 | True exactly for directories |
| DatabaseObjects.NewSongCount | src/objects/database.ts:330-337 | Succeeds exactly when `songs` and `playtime` are both present; `songs` is checked first and each check has its own message |
| DatabaseObjects.NewGroupedSongCount | src/objects/database.ts:344-350 | Additionally throws unless the grouping tag is present; `group` is its value |
| Reflection.Config | src/commands/reflection.ts:15-18 | The one record `parse` builds without markers, absent when no line counts |
| Reflection.Commands | src/commands/reflection.ts:23-34 | Each line minus 9 characters, order and count kept |
| Reflection.UrlHandlers | src/commands/reflection.ts:39-42 | Each line minus 9 characters, order and count kept |
| Reflection.CommandsRoundTrip | src/commands/reflection.ts:25 | `command: ` and `handler: ` lines give back the names |
| Reflection.Decoders | src/commands/reflection.ts:47-66 | The loop returns the as-written decoder list |
| Reflection.Scan | src/commands/reflection.ts:50-64 | The loop's state after each line: the only throw is the property read of an `undefined` decoder, and at most one decoder is pushed per line |
| Reflection.AsWrittenDecoders | src/commands/reflection.ts:47-66 | `decoders` as written returns only the decoders pushed inside the loop: at most one per line, or the `undefined` throw |
| Reflection.ScanErrorStays | src/commands/reflection.ts:58-63 | Once the loop throws, no later line undoes it |
| Reflection.ScanNames | src/commands/reflection.ts:51-57 | Each `plugin` line starts a new decoder and pushes the previous one, so the decoders seen are one per `plugin` line, in order |
| Reflection.SectionFillsCurrent | src/commands/reflection.ts:58-63 | The `suffix` values (minus 8) and `mime_type` values (minus 11) after a `plugin` line go, in order, to its decoder |
| Reflection.DecodersFail | src/commands/reflection.ts:58-63 | The loop throws exactly when a `suffix` or `mime_type` line comes before any `plugin` line |
| Reflection.CorrectedNames | src/commands/reflection.ts:51-65 | Corrected, there is one decoder per `plugin` line, named by the line minus 8 characters |
| Reflection.AsWrittenLosesLastDecoder | src/commands/reflection.ts:51-65 | As written, the result is the corrected list without its last element, so k plugin lines give max(k-1, 0) decoders |
| Reflection.SinglePluginLost | src/commands/reflection.ts:51-65 | A response with one plugin gives no decoder as written, and that decoder when corrected |
| StoredPlaylists.ListPlaylistRoundTrip | src/commands/storedPlaylists.ts:27 | Dropping 6 characters from `file: ` lines gives back the uris, in order |
| StoredPlaylists.ListPlaylist | src/commands/storedPlaylists.ts:24-28 | Each line minus its six-character `file: ` key, count and order kept |
| StoredPlaylists.SearchPlaylist | src/commands/storedPlaylists.ts:42-44 | `searchplaylist "name"` followed by the suffix the filter builder appends |
| StoredPlaylists.Load | src/commands/storedPlaylists.ts:63-77 | Starts with `load "name"`, and is exactly that without a start and a position |
| StoredPlaylists.LoadArguments | src/commands/storedPlaylists.ts:63-76 | With a start, the range `start:`[end] follows; without one, an end is ignored. A position always comes after a range, which is `0:` when no start is given |
| StoredPlaylists.PlaylistAdd | src/commands/storedPlaylists.ts:92-96 | `playlistadd "name" "uri"`, followed by ` position` exactly when one is given |
| CurrentPlaylist.PositionArgument | src/commands/currentPlaylist.ts:14-17 | For `add` and `addid`: the uri quoted verbatim, then ` position` exactly when given, reading back as the number |
| CurrentPlaylist.PlaylistInfoArguments | src/commands/currentPlaylist.ts:123-130 | `playlistinfo` alone without a position, else one further argument reading back as the position |
| CurrentPlaylist.Add | src/commands/currentPlaylist.ts:13-19 | `add "uri"`, then ` n` exactly when a position is given, `n` being its decimal text (negative ones keep their sign) |
| CurrentPlaylist.AddId | src/commands/currentPlaylist.ts:26-31 | `addid "uri"`, then ` n` exactly when a position is given |
| CurrentPlaylist.PlaylistInfo | src/commands/currentPlaylist.ts:124-129 | `playlistinfo` alone exactly without a position, else `playlistinfo n` |
| CurrentPlaylist.DeleteRange | src/commands/currentPlaylist.ts:53-58 | `delete` followed by the range text `start:`[end], the end written only when given |
| CurrentPlaylist.PlaylistRangeInfo | src/commands/currentPlaylist.ts:136-141 | `playlistinfo` followed by the range text `start:`[end], the end written only when given |
| CurrentPlaylist.PlaylistChanges | src/commands/currentPlaylist.ts:150-158 | `plchanges version`, then the range text exactly when a start is given |
| CurrentPlaylist.PlaylistChangesPosId | src/commands/currentPlaylist.ts:168-176 | `plchangesposid version`, then the range text exactly when a start is given |
| CurrentPlaylist.Shuffle | src/commands/currentPlaylist.ts:218-226 | `shuffle` alone without a start, else `shuffle` and the range text |
| CurrentPlaylist.RangeId | src/commands/currentPlaylist.ts:203-212 | `rangeid id` and the range text, each side of its colon written only when given |
| CurrentPlaylist.ClearTagId | src/commands/currentPlaylist.ts:259-264 | `cleartagid id`, then ` "tag"` exactly for a non-empty tag |
| CurrentPlaylist.AddIdResult | src/commands/currentPlaylist.ts:32 | The number after 4 characters of the first line; no first line throws |
| CurrentPlaylist.AddIdReadsId | src/commands/currentPlaylist.ts:32 | `Id: n` gives n |
| CurrentPlaylist.ClosedRangeArguments | src/commands/currentPlaylist.ts:53-57 | `delete` (and `playlistinfo`, lines 136-140) always carry `start:` followed by the end only when given |
| CurrentPlaylist.PlaylistChangesArguments | src/commands/currentPlaylist.ts:150-157 | `plchanges` (and `plchangesposid`, lines 168-175): the version, then ` start:`[end] only with a start; an end alone is ignored |
| CurrentPlaylist.ShuffleArguments | src/commands/currentPlaylist.ts:218-225 | `shuffle` carries ` start:`[end] only with a start |
| CurrentPlaylist.RangeIdArguments | src/commands/currentPlaylist.ts:203-211 | `rangeid` always has one colon, the start before it and the end after it, each present exactly when given |
| CurrentPlaylist.ClearTagIdArguments | src/commands/currentPlaylist.ts:259-263 | ` "tag"` follows the id exactly for a non-empty tag |
| Connection.ListCommand | src/commands/connection.ts:72-75 | No command exactly for an empty list |
| Connection.DisableTagTypes | src/commands/connection.ts:72-76 | No command exactly for an empty list, else `tagtypes disable` and the names joined by spaces |
| Connection.EnableTagTypes | src/commands/connection.ts:82-86 | No command exactly for an empty list, else `tagtypes enable` and the names joined by spaces |
| Connection.EnableProtocolFeatures | src/commands/connection.ts:136-140 | No command exactly for an empty list, else `protocol enable` and the features joined by spaces |
| Connection.DisableProtocolFeatures | src/commands/connection.ts:145-149 | No command exactly for an empty list, else `protocol disable` and the features joined by spaces |
| Connection.SetEnabledTagTypes | src/commands/connection.ts:108-114 | `tagtypes reset`, then each name after one space |
| Connection.Names | src/commands/connection.ts:55-66 | Each line minus its nine-character key (also lines 120-131), count and order kept |
| Connection.ListCommandArguments | src/commands/connection.ts:72-75 | The names follow the verb and action as separate arguments, in order |
| Connection.SwitchArguments | src/commands/connection.ts:72-148 | `tagtypes disable/enable` and `protocol enable/disable` send nothing for an empty list; otherwise verb, action and the names |
| Connection.SetEnabledTagTypesArguments | src/commands/connection.ts:108-113 | `tagtypes reset` always, followed by the names only when there are any |
| Connection.NamesRoundTrip | src/commands/connection.ts:55-66 | `tagtype: ` and `feature: ` lines (also lines 120-131) give back the names in order |
| PlaybackOptions.FlagArguments | src/commands/playbackOptions.ts:31-60 | `random`, `repeat` and `consume` send 1 for true and 0 for false |
| PlaybackOptions.SetRandom | src/commands/playbackOptions.ts:31-34 | `random` and the decimal text of 1 for true, 0 for false |
| PlaybackOptions.SetRepeat | src/commands/playbackOptions.ts:41-44 | `repeat` and the decimal text of 1 for true, 0 for false |
| PlaybackOptions.SetConsume | src/commands/playbackOptions.ts:58-61 | `consume` and the decimal text of 1 for true, 0 for false |
| PlaybackOptions.SetSingle | src/commands/playbackOptions.ts:50-53 | `single oneshot` exactly for the one-shot mode, else `single` and 1 or 0 |
| PlaybackOptions.SetMixrampDelay | src/commands/playbackOptions.ts:87-90 | `mixrampdelay nan` exactly for 0 seconds, else the seconds' decimal text, a negative number with its sign |
| PlaybackOptions.SetReplayGainMode | src/commands/playbackOptions.ts:97-100 | `replay_gain_mode ` followed by the mode's name |
| PlaybackOptions.SingleArguments | src/commands/playbackOptions.ts:50-52 | `single` sends `oneshot` exactly for the one-shot mode, otherwise 1 or 0 |
| PlaybackOptions.MixrampDelayArguments | src/commands/playbackOptions.ts:87-89 | `nan` exactly for 0 seconds, otherwise the seconds |
| PlaybackOptions.GetVolume | src/commands/playbackOptions.ts:10-13 | None exactly when the first line is missing or empty; otherwise the number after 8 characters |
| PlaybackOptions.GetVolumeRoundTrip | src/commands/playbackOptions.ts:12 | `volume: n` gives n |
| PlaybackOptions.ReplayGainModeArguments | src/commands/playbackOptions.ts:97-99 | The mode's name is sent, and distinct modes have distinct names |
| PlaybackOptions.GetReplayGainMode | src/commands/playbackOptions.ts:102-105 | The first line minus 18 characters; no first line throws |
| PlaybackOptions.GetReplayGainModeRoundTrip | src/commands/playbackOptions.ts:104 | `replay_gain_mode: m` gives m |
| Arguments.AppendNumber | src/commands/currentPlaylist.ts:15-17 | ` n` is appended exactly when a number is given |
| Arguments.AppendRange | src/commands/currentPlaylist.ts:152-157 | ` start:`[end] is appended exactly when a start is given |
| Arguments.IntToStringReadsBack | src/commands/currentPlaylist.ts:15-17 | The text a template literal writes for any integer, negative ones included, reads back as that integer with the daemon's decimal reading |
| Arguments.RangeRoundTrip | src/commands/currentPlaylist.ts:204-211 | A `start:end` text has no space and splits into the start and the end, each empty when not given |
| Arguments.SplitSpaced | src/commands/connection.ts:74 | A word and space-free arguments split back into them, count and order kept |
| Text.IndexOf | src/transform.ts:18 | `indexOf`: -1 exactly when absent, otherwise the first occurrence |
| Text.Split | src/objects/database.ts:300 | `split`: at least one piece, no piece holds the separator, and joining the pieces gives the string back |
| Text.Latin1 | src/transform.ts:23 | One character per byte, with the byte's value |
| Text.ToNumber | src/objects/database.ts:335 | `Number` is finite exactly on digit strings |
| Text.ParseInt | src/transform.ts:27 | `parseInt` is NaN exactly when there is no leading digit |
| Text.NumberOfNatToString | src/transform.ts:62 | `Number` and `parseInt` read back the decimal text of a number |
| Text.IntToString | src/commands/currentPlaylist.ts:16 | `${n}` for an integer: non-empty, starting with `-` exactly for a negative number, the plain decimal text otherwise |

## Left out

- Transport and stream plumbing are not modelled: sockets, WebSockets, `ReadableStream`/`TransformStream` wiring, `releaseLock`/`cancel` in `disconnect`, and promises and `async`.
  - Each `reader.read()` outcome is one method of `MPDProtocol`.
  - `send`, `emit`, `resolve` and `reject` append to logs.
  - A greeting while already ready is excluded by `ReceiveGreeting`'s precondition, since `GreetingComesFirst` shows the grouper emits it only first.
- `TextDecoder`/`TextEncoder` UTF-8 is not modelled: a line's text is its bytes read one byte per character.
- JavaScript number parsing is not modelled on arbitrary strings, nor is floating point. `Number` is modelled on the empty string (0), digit strings and NaN; whitespace, signs, fractions, exponents and hex are left out. So are durations with fractions, fractional `rangeId` offsets and mixramp decibels.
- Numeric command arguments (positions, ranges, ids, versions, windows, the mixramp delay) are integers, written as a template literal writes them, a negative one with its minus sign. Fractions (a delay of 1.5 seconds), NaN, infinities, and numbers of 1e21 or more, which JavaScript writes in exponent form, are not modelled. The daemon's reading of an argument is modelled as decimal digits after an optional minus sign (`Arguments.IntegerValue`).
- `new Date` is not modelled: `Last-Modified` is kept as its text.
- JavaScript `Map` insertion order is not modelled: a record is a `map`. So the order of the keys is lost in `fromValueMap`'s error message, which is modelled only as its prefix. It is also lost in the maps `config()` (src/commands/reflection.ts:15-18, `Reflection.Config`) and `readComments()` (src/commands/database.ts:273-277) return to their callers, whose iteration order the model does not give.
- `downloadPicture`'s loop as written does not terminate once an answer brings no bytes (see Findings). A method cannot run forever here, so `DatabaseCommands.DownloadPicture` follows the corrected loop, which stops there. `AsWrittenHeld` models the loop as written, and `AsWrittenAgrees` shows both loops give the same bytes when every answer brings some. Each answer's blob is given by a function of the offset.
- `concatUint8Arrays` is not part of this model: it is modelled as sequence concatenation.
- `src/objects/decoder.ts` is not part of this model: a decoder is its name, suffixes and MIME types.
- `src/objects/playlists.ts` is not part of this model (`StoredPlaylist`, `PlaylistItem`, `SongIdAndPosition`). Neither are the commands whose only logic is building those objects: `listPlaylists`, `listPlaylistInfo`, `playlistFind`, `playlistSearch`, `playlistId`.
- The message of the TypeError an engine throws when a property of `undefined` is read is fixed to one constant.
- Commands whose text has a fixed form with no optional parts are not modelled one by one:
  - queue: `clear`, `delete`, `deleteId`, `move`, `moveRange`, `moveId`, `prio`, `prioId`, `swap`, `swapId`, `addTagId`;
  - stored playlists: `save`, `playlistClear`, `playlistDelete`, `playlistMove`, `rename`, `remove`, `playlistLength`;
  - connection: `close`, `kill`, `password`, `ping`, `setBinaryLimit`, `clearTagTypes`, `allTagTypes`, `enableAllProtocolFeatures`, `disableAllProtocolFeatures`;
  - playback options: `setVolume`, `changeVolume`, `setCrossfade`, `setMixrampdb`.
- The database commands built from the modelled pieces are not modelled one by one:
  - `count` and `searchCount` are `AddFilter` followed by `Parse`; `countGrouped` and `searchCountGrouped` append ` group <tag>` after the filter;
  - `find`, `findAdd`, `search`, `searchAdd` and `searchAddPlaylist` are `AddFilter`, `AddSort` and `AddWindow` in that order, then `Parse` for the two that return songs;
  - `listFiles`, `listInfo` and `listAllInfo` use no filter builder: they append ` "uri"` when a non-empty uri is given, then `Parse` with a marker list;
  - `readComments` sends `readcomments "uri"` and returns the one record `Parse` builds without markers;
  - `getFingerprint`, `update` and `rescan` drop 13 characters of the first line, the last two appending ` "uri"` like `listFiles`.
- `getOptionalNumber`, `getOptionalDate`, `getOptionalBoolean` and `parseOptionalNumber` have no members of their own; they are written inline where used (`NewFile`, `FormatField`).
- Connection.ListCommandArguments: stated for names without spaces. A name with a space reaches the daemon as several arguments, which this lemma does not describe.
- Connection.SwitchArguments: stated for names without spaces, for the same reason.
- Connection.SetEnabledTagTypesArguments: stated for names without spaces, for the same reason.
- CurrentPlaylist.ClearTagIdArguments: stated for tags without spaces, for the same reason.

## Findings

| source | as written | input that shows it | evidently intended | confidence | as-written member | corrected member |
|---|---|---|---|---|---|---|
| src/transform.ts:85-96 | An `ACK` resets `currentResponse` but not `receivingList` | A command list's reply `list_OK`, `ACK […] {…} …`, then a single command's reply `OK`: the `OK` only clears the flag, so that command's promise is never settled | A failure ends the command list (the daemon abandons the rest of it), so `receivingList` is cleared too | not executed | ResponseGrouping.AckLeavesListOpen | ResponseGrouping.CorrectedAckEndsList |
| src/commands/reflection.ts:51-65 | The decoder being built is pushed only when the next `plugin` line arrives, and not after the loop | `["plugin: mad", "suffix: mp3"]` gives `[]` | One decoder per `plugin` line, the last one included | not executed | Reflection.AsWrittenLosesLastDecoder | Reflection.CorrectedNames |
| src/commands/database.ts:355-359 | The loop requests the next chunk while fewer than `size` bytes are held and appends whatever comes back, with no check that the answer brought bytes | `size: 10` with a first blob of 4 bytes, then an answer `binary: 0` (or one with no blob, since `new Uint8Array(undefined)` is empty) for offset 4: the same request for offset 4 is sent forever | The loop stops when an answer brings no bytes | not executed | DatabaseCommands.EmptyChunkNeverEnds | DatabaseCommands.Fetched |
