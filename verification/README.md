# A verified model of pycubrid

pycubrid speaks the CUBRID broker protocol in Python. This project models the four parts of it whose
correctness its own code decides, and proves what those parts are for:

- **SQL text** (`Basics`, `SqlLexer`, `SqlBinding`, `BoundStatement`, `LiteralMeaning`, `SqlKeyword`, `TimeZone`):
  the placeholder scanner, literal rendering, and what a bound statement means to whoever reads it next. The main
  theorem says that the bound statement reads as the template's tokens with each placeholder replaced by its
  literal if and only if the reader finds placeholders exactly where the driver cuts and no literal touches a
  character it would merge with: a quote, a word or number, a minus sign. A reader of literals that is independent
  of the renderer gets every parameter back from its literal.
- **Wire codec** (`Wire`, `Values`, `Rows`, `Replies`, `Packets`, `Parsing`, `PacketObjects`, `Framing`): byte
  readers and writers, the two row paths, the collection decoder and the versioned replies. Reading functions
  give the result or the place where reading fails; a reference encoder with its own table of wire codes writes
  what a broker sends; inversion, exact consumption and the equality of the fast and the slow path are lemmas, and
  the reader and packet classes, with their loops, are proved to do what the reading functions say.
- **Cursor and connection** (`Fetching`, `ResultCursor`, `Lifecycle`): fetching through a buffer that a server
  fills, and connections whose every socket call may fail, with sessions that come and go. Logs of requests,
  attempts to connect and their steps say what every call must have sent and why it failed.
- **Tasks sharing one connection** (`AsyncConnection`, `AsyncRuns`, `AsyncRegions`, `AsyncHandles`,
  `AsyncDiscipline`, `AsyncScenarios`): the code of the asynchronous connection cut at its awaits, as steps that
  any number of tasks, the broker and the clock may interleave. What a task does under the lock is proved to be the
  sequential procedure, whatever happens in between.

These results say where the code does not do what one would expect, with the exact condition:

- a literal that touches a quote, a word or a number, or a negative number after a minus sign, merges with its
  neighbour, and a string after the letter X becomes a bytes literal (`BoundStatement.BindPreservesTokens`,
  `BoundStatement.TouchingLiteralsMerge`, `BoundStatement.TouchingNumbersMerge`,
  `BoundStatement.StringBecomesBytes`);
- a server in backslash mode can find placeholders where the driver does not cut
  (`BoundStatement.ReadersDisagree`, with the condition in `BoundStatement.BindPreservesTokens`);
- `fetchmany` and `fetchall` that fail drop rows already taken, unless nothing was buffered and the very first
  request failed (`Fetching.FailureAfterTaking`, `Fetching.RowsLostByFailure`);
- `close` on a connection that already broke leaves its cursors tracked (`Lifecycle.Connection.Close`,
  `Lifecycle.BrokenStaysTracked`);
- a connection whose broker hung up goes on counting as connected while every request fails
  (`AsyncRuns.LostStaysUnnoticed`);
- on a connection shared by tasks, `ping` clears the stored query handles before it has the lock, so that a
  handle of an older session can survive the reconnect (`AsyncHandles.HandlesStayCurrent`,
  `AsyncScenarios.HandleOutlivesSession`); `AsyncDiscipline.CarefulRunsKeepHandles` gives a rule for starting
  calls under which it cannot;
- the automatic reconnect of a shared connection waits for its own lock exactly if `connect` is overridden by a
  method that calls the original (`AsyncScenarios.SelfWaitIffOverridden`).

Bytes are numbers from 0 to 255, text inside replies stays a sequence of bytes, SQL text is a sequence of
characters. Python exceptions are results. What the network, the operating system and the broker decide is a
parameter, an event, or a nondeterministic choice. `dafny verify dfyconfig.toml` checks everything.

## Model

| member | source | states |
|---|---|---|
| `SqlLexer.SplitOnPlaceholders` | pycubrid/_cursor_common.py:46-118 | The index scanner returns the parts of the five-mode lexer, for every text, unterminated quotes and comments included. |
| `SqlLexer.SkipQuoted` | pycubrid/_cursor_common.py:66-91 | The inner loop for quotes ends just past the closing quote, or at the end of the text, doubled quotes skipped. |
| `SqlLexer.SkipLine` | pycubrid/_cursor_common.py:93-97 | The line comment loop ends at the newline, which neutral mode reads alike. |
| `SqlLexer.SkipBlock` | pycubrid/_cursor_common.py:99-106 | The block comment loop ends just past the closing delimiter or at the end. |
| `SqlLexer.JoinCut` | pycubrid/_cursor_common.py:46-57 | The parts joined with question marks give back the text, from every mode. |
| `SqlLexer.CutIsParts` | pycubrid/_cursor_common.py:46-118 | The scanner cuts at exactly the placeholder tokens of an independent token lexer of literals, words, names and comments. |
| `SqlLexer.LexFlatten` | pycubrid/_cursor_common.py:46-118 | A token sequence written out and read again comes back unchanged if and only if each token is whole and separated from the next. |
| `SqlLexer.FlattenLex` | pycubrid/_cursor_common.py:46-118 | The tokens of a text, written out, are the text. |
| `SqlLexer.FirstAppend` | pycubrid/_cursor_common.py:46-118 | A whole token stays the first token of a longer text exactly when what follows separates from it. |
| `SqlLexer.LexTidy` | pycubrid/_cursor_common.py:46-118 | What the lexer produces is always whole and separated. |
| `SqlBinding.EscapeIsExpand` | pycubrid/_cursor_common.py:124-138 | The successive whole-string replacements equal one expansion of each character, in both backslash modes; a null byte is refused. |
| `SqlBinding.ReadEscaped` | pycubrid/_cursor_common.py:124-138 | A literal reader stops exactly at the closing quote and, if it knows the escaping in use, recovers the value. |
| `SqlBinding.BindParameters` | pycubrid/_cursor_common.py:184-208 | The loop returns what splicing all renderings between the parts gives, or the first error in order. |
| `BoundStatement.StringDecodes` | pycubrid/_cursor_common.py:141-148 | A string parameter is one complete literal that decodes to exactly the bound string. |
| `BoundStatement.BytesDecode` | pycubrid/_cursor_common.py:149-150 | A bytes parameter is one literal with keyword X whose hexadecimal body is the bytes. |
| `BoundStatement.RenderSound` | pycubrid/_cursor_common.py:141-181 | Every rendering, read alone, is complete, is no quoted name and holds no placeholder. |
| `BoundStatement.InterleaveIsFlatten` | pycubrid/_cursor_common.py:196-208 | Splicing literals between the parts writes out the template's tokens with the placeholders substituted. |
| `BoundStatement.SubstituteTidy` | pycubrid/_cursor_common.py:184-208 | The substituted tokens can be read back exactly when the literals stand apart from their neighbours. |
| `BoundStatement.BindSucceeds` | pycubrid/_cursor_common.py:184-208 | Binding succeeds if and only if there is one renderable parameter for each placeholder. |
| `BoundStatement.NoPlaceholderLeft` | pycubrid/_cursor_common.py:184-208 | No placeholder is left after substitution. |
| `BoundStatement.SameCuts` | pycubrid/_cursor_common.py:196-208 | Two ways to cut one text that give the same bound text are the same cuts, as no literal starts with a question mark. |
| `BoundStatement.BindPreservesTokens` | pycubrid/_cursor_common.py:184-208 | For every template, reader and parameters: read again, the bound statement is the template's tokens with the k-th placeholder replaced by the k-th literal, if and only if the reader finds placeholders exactly where the driver cuts and the literals stand apart. |
| `BoundStatement.TouchingLiteralsMerge` | pycubrid/_cursor_common.py:184-208 | A concrete template whose bound form merges two literals into one. |
| `BoundStatement.TouchingNumbersMerge` | pycubrid/_cursor_common.py:184-208 | Two placeholders in a row bound to two numbers give one number. |
| `BoundStatement.StringBecomesBytes` | pycubrid/_cursor_common.py:141-150 | A string bound after the letter X gives the very text that a bytes parameter gives. |
| `BoundStatement.ReadersDisagree` | pycubrid/_cursor_common.py:65-76 | A concrete text that the driver's scanner and a server in backslash mode read differently. |
| `LiteralMeaning.RenderingDenotes` | pycubrid/_cursor_common.py:141-181 | Read by a reader of literals that knows nothing of the renderer, every rendering stands for its parameter: NULL, 1 and 0, signed decimals, strings, bytes, and DATE, TIME, DATETIME and DATETIMETZ with their fields in full width, milliseconds and zone. |
| `LiteralMeaning.BoundTextsDenote` | pycubrid/_cursor_common.py:184-208 | The k-th literal that binding splices in stands for the k-th parameter. |
| `SqlKeyword.StrippedPrefixHasNoPlaceholder` | pycubrid/_cursor_common.py:32-43 | The prefix stripped before the first keyword holds no placeholder, and splitting the text is splitting the rest with the prefix put back. |
| `SqlKeyword.StrippingIsComplete` | pycubrid/_cursor_common.py:32-43 | Stripping what was stripped removes nothing and finds the same keyword. |
| `SqlKeyword.SkippedPrefix` | pycubrid/_cursor_common.py:32-43 | What is skipped is white space and whole comments and nothing else, and where it ends no white space and no whole comment follows. |
| `SqlKeyword.FirstKeyword` | pycubrid/_cursor_common.py:36-43 | The keyword is what stands there up to the next white space, its letters in upper case; it is missing only at the end of the text. |
| `TimeZone.OffsetRoundTrip` | pycubrid/packet.py:45-78 | Reading back a rendered offset gives its whole minutes, for every offset within a day of either sign. |
| `TimeZone.RenderedOffset` | pycubrid/_cursor_common.py:158-164 | The rendering has the form sign, two digits, colon, two digits, with the hours and minutes of the magnitude. |
| `TimeZone.WholeMinutesError` | pycubrid/_cursor_common.py:158-164 | The identity on whole-minute offsets, otherwise less than a minute off toward zero. |
| `TimeZone.HoursRead` | pycubrid/packet.py:62-70 | A sign and hours are that many hours, refused from 24 on. |
| `TimeZone.MinutesRead` | pycubrid/packet.py:62-70 | A sign, hours and minutes are their sum, refused from a whole day on. |
| `TimeZone.SecondsRead` | pycubrid/packet.py:62-70 | A sign, hours, minutes and seconds are their sum, refused from a whole day on. |
| `TimeZone.OnlyFirstToken` | pycubrid/packet.py:56-60 | White space in front is dropped, and so is everything after the first space. |
| `TimeZone.RegionRead` | pycubrid/packet.py:45-78 | A region, alone or followed by an abbreviation, is looked up by its name. |
| `Basics.UnhexHex` | pycubrid/_cursor_common.py:149-150 | Hexadecimal text reads back as the bytes. |
| `Wire.PackUnpack` | pycubrid/packet.py:171-182 | Big-endian packing of signed 16, 32 and 64 bit numbers is undone by unpacking. |
| `Wire.UnpackPack` | pycubrid/packet.py:271-284 | Unpacking two, four or eight bytes is undone by packing, so no two byte strings are read as one number. |
| `Wire.GetTextAt` | pycubrid/packet.py:305-314 | A terminated text is read without its terminator and consumed with it. |
| `Values.GetScalarAt` | pycubrid/packet.py:286-436 | Each dispatched parsing method inverts its encoding and consumes exactly the declared size. |
| `Values.GetElementsAt` | pycubrid/packet.py:224-246 | Under every element type code, given as a number, a decoded collection gives back the scalars a server sends under that code, absent ones included, and ends with its last element. |
| `Values.GetCollectionAt` | pycubrid/packet.py:365-393 | All exits of the collection parser consume exactly the declared size; the two that rewind return the raw payload. |
| `Values.GetValueAt` | pycubrid/protocol.py:493-550 | Under every type code, given as a number, what a server sends is read back, unknown codes as raw bytes, a collection of code 16 as a set, and exactly its bytes are consumed. |
| `Rows.FastEqualsSlow` | pycubrid/protocol.py:577-610 | The pre-resolved path equals the slow path on every byte string, failures included, for no call and no NULL-typed column. |
| `Rows.EachColumnByItsOwnType` | pycubrid/protocol.py:577-610 | Whichever path is taken, each column is read by the rule of its own type. |
| `Rows.GetRowDataAt` | pycubrid/protocol.py:553-611 | Encoded rows, with nulls and cells that carry a type byte, are read back and end at their last byte; type codes in the encoding are numbers. |
| `Rows.DecodingIsLocal` | pycubrid/protocol.py:553-611 | Turning collection decoding on or off moves no column and changes no value but the collections themselves. |
| `Replies.GetColumnsAt` | pycubrid/protocol.py:437-486 | Encoded column metadata with one- or two-byte types is read back exactly. |
| `Replies.GetInfosAt` | pycubrid/protocol.py:614-632 | Encoded result infos are read back exactly. |
| `Replies.GetErrorAt` | pycubrid/packet.py:409-414 | An encoded error is read back as its code and message, to the last byte. |
| `Packets.ExecutionRoundTrip` | pycubrid/protocol.py:752-798 | For every protocol version, parsing an encoded prepare-and-execute reply gives the result and ends at the last byte. |
| `Packets.RowsOfSelectOnly` | pycubrid/protocol.py:788-798 | A reply with statement type 21 shows exactly the rows sent with it; one with any other type shows none, and bytes after it are left unread. |
| `Packets.ErrorRoundTrip` | pycubrid/protocol.py:752-760 | An error reply is raised with its code and message by all three packets. |
| `Packets.FetchRoundTrip` | pycubrid/protocol.py:959-984 | An encoded fetch reply gives back its rows and ends at the last byte, for queries and for the statement types 14, 24 and 126, whose cells carry their type. |
| `Packets.BatchRoundTrip` | pycubrid/protocol.py:1159-1184 | A batch reply is partitioned into successes and errors, each in order, with every byte consumed, for every version. |
| `Packets.BatchCounts` | pycubrid/protocol.py:1159-1184 | Successes and errors together are as many as the executed statements. |
| `Packets.BatchRowCount` | pycubrid/cursor.py:257-269 | The row count the cursor keeps is the sum of what the batch's statements touched, over the wire. |
| `Parsing.PacketReader.UnpackShorts` | pycubrid/packet.py:23-25 | Unpacking several shorts together reads them one after another and moves nothing. |
| `Parsing.PacketReader.ParseTimestampTz` | pycubrid/packet.py:336-351 | Seven shorts, then the zone in what the size leaves; a failure leaves the offset where it arose. |
| `Parsing.PacketReader.ParseObject` | pycubrid/packet.py:395-399 | Page, slot and volume in three reads, failing where the first one does. |
| `Parsing.PacketReader.ReadLobHandle` | pycubrid/packet.py:423-436 | The packed handle is taken first and read by a reader of its own, so a malformed one still moves past it. |
| `Parsing.PacketReader.ParseScalar` | pycubrid/packet.py:266-436 | Dispatching to the reading methods, each written out, gives the value, offset or failure of the reading function. |
| `Parsing.PacketReader.ParseNullTerminatedString` | pycubrid/packet.py:305-314 | The terminator test, the offset moved before it, and the failure past the end. |
| `Parsing.PacketReader.ParseElements` | pycubrid/packet.py:386-393 | The element loop reads the elements in order or fails where the first one does. |
| `Parsing.PacketReader.ParseCollection` | pycubrid/packet.py:365-393 | The collection method, with its rewinding, is the collection reading function. |
| `Parsing.ParseColumnMetadata` | pycubrid/protocol.py:437-486 | The loop reads the columns in order. |
| `Parsing.ParseResultInfos` | pycubrid/protocol.py:614-632 | The loop reads the result infos in order. |
| `Parsing.ParseCells` | pycubrid/protocol.py:585-610 | The inner loops of both paths read a row's cells in order. |
| `Parsing.ParseRowData` | pycubrid/protocol.py:553-611 | The path choice, the pre-resolved readers and the loops are the row reading function. |
| `PacketObjects.PacketWriter.Finalize` | pycubrid/packet.py:216-220 | Back-patching gives the length of the payload, the CAS info and the unchanged payload. |
| `PacketObjects.PacketWriter.AddCacheTime` | pycubrid/packet.py:165-169 | The growing buffer gets the cache time argument and nothing else. |
| `PacketObjects.PacketWriter.WriteNullTerminatedString` | pycubrid/packet.py:197-201 | The length counts the terminator; a text too long for the field raises. |
| `PacketObjects.SplitEncoded` | pycubrid/packet.py:86-123 | Encoded arguments are self-delimiting: splitting gives them back. |
| `PacketObjects.ExecuteRequestRead` | pycubrid/protocol.py:734-750 | A broker that splits the request reads function 41 and the ten arguments, byte for byte. |
| `PacketObjects.FetchRequestRead` | pycubrid/protocol.py:948-957 | A broker reads function 8, the handle, the first row wanted, the number of rows, and two zeros. |
| `PacketObjects.BatchRequestRead` | pycubrid/protocol.py:1148-1157 | A broker reads function 20, the auto-commit flag, a zero timeout from version 4 on, and the statements in order. |
| `PacketObjects.PrepareAndExecutePacket.Write` | pycubrid/protocol.py:734-750 | The request frame holds the function code and exactly the arguments in order. |
| `PacketObjects.PrepareAndExecutePacket.Parse` | pycubrid/protocol.py:752-798 | The parsing method sets the packet's fields to what the reading function says. |
| `PacketObjects.FetchPacket.Write` | pycubrid/protocol.py:948-957 | The request asks for rows from the one after those already taken. |
| `PacketObjects.FetchPacket.Parse` | pycubrid/protocol.py:959-984 | The parsing method is the fetch reading function. |
| `PacketObjects.BatchExecutePacket.Write` | pycubrid/protocol.py:1148-1157 | The request frame holds the statements in order, and the timeout argument from version 4 on. |
| `PacketObjects.BatchExecutePacket.Parse` | pycubrid/protocol.py:1159-1184 | The partitioning loop is the batch reading function. |
| `Framing.Socket.RecvInto` | pycubrid/connection.py:414-424 | A socket hands over any non-empty beginning of what arrived, in order. |
| `Framing.RecvExact` | pycubrid/connection.py:414-424 | The loop takes exactly the size asked for, however the bytes are cut, and ends. |
| `Framing.ReceiveResponse` | pycubrid/connection.py:396-401 | Length, CAS info and payload of one frame, with nothing of the next one consumed. |
| `Framing.TakeFrame` | pycubrid/packet.py:35-39 | A frame followed by anything is taken whole, and leaves the rest. |
| `Framing.FramesSelfDelimit` | pycubrid/packet.py:216-220 | A stream of frames is taken apart into exactly those frames. |
| `Framing.ReceiveFrames` | pycubrid/connection.py:392-424 | Receiving frame after frame under any cutting returns each frame in order. |
| `Fetching.FetchMoreFaithful` | pycubrid/cursor.py:374-411 | More rows only extend the beginning of the result held in the buffer, and nothing consumed changes. |
| `Fetching.RequestsAtEnd` | pycubrid/cursor.py:271-318 | A call that sends a request has first used up everything that was buffered. |
| `Fetching.FetchManyFaithful` | pycubrid/cursor.py:284-304 | fetchmany hands over the next rows, never more than asked for, and, with no empty answer and a live handle, fewer only at the end. |
| `Fetching.FetchAllFaithful` | pycubrid/cursor.py:306-318 | fetchall hands over exactly the next rows, and all of them if the handle stays live and no answer is empty. |
| `Fetching.CallFaithful` | pycubrid/cursor.py:271-318 | Any call that returns hands over exactly the next rows of the result. |
| `Fetching.FetchingIsFaithful` | pycubrid/cursor.py:271-318 | For any inline batch, fetch size, mix of calls and server batching, empty batches included, the rows handed over are a prefix of the result. |
| `Fetching.FetchAllCompletes` | pycubrid/cursor.py:306-318 | With a live handle and a server that answers, fetchall returns all the rest. |
| `Fetching.AnsweredRunsReturn` | pycubrid/cursor.py:271-318 | With a server that answers every request with rows as long as there are any, every call of every run returns. |
| `Fetching.FailureAfterTaking` | pycubrid/cursor.py:284-318 | A failing call leaves the position alone if and only if it is fetchone, or nothing was buffered before it and its first request failed. |
| `Fetching.RowsLostByFailure` | pycubrid/cursor.py:306-318 | A concrete case of a lost row. |
| `ResultCursor.Cursor.FetchMoreRows` | pycubrid/cursor.py:374-411 | The method does what the fetching function says to buffer, index and server. |
| `ResultCursor.Cursor.FetchOne` | pycubrid/cursor.py:271-282 | The method is the fetching function for one row. |
| `ResultCursor.Cursor.FetchMany` | pycubrid/cursor.py:284-304 | The loop is the fetching function for many rows. |
| `ResultCursor.Cursor.FetchAll` | pycubrid/cursor.py:306-318 | The loop is the fetching function for all rows. |
| `Lifecycle.Connection.TryConnect` | pycubrid/connection.py:84-144 | The steps of connecting come in their order up to the one that decides the outcome, TLS before the database is opened; at whatever step it stops, the open sockets are among the handshake socket and the held one. |
| `Lifecycle.Connection.UpgradeAndOpen` | pycubrid/connection.py:116-133 | After success the held socket speaks TLS exactly if that was asked for. |
| `Lifecycle.Connection.Connect` | pycubrid/connection.py:75-159 | Connecting conserves sockets: after a failure none is open, after success exactly the held one is, in a new session; a connected connection is left alone, any other is really dialled. |
| `Lifecycle.Connection.InvalidateQueryHandles` | pycubrid/_connection_common.py:118-125 | After the loop no tracked cursor stores a handle. |
| `Lifecycle.Connection.DropConnection` | pycubrid/_connection_common.py:146-150 | Disconnected, nothing open, no handle stored. |
| `Lifecycle.Connection.CheckReconnect` | pycubrid/connection.py:205-221 | If the server let go and a reconnect is allowed, the handles are cleared and one attempt to connect is made; in every other case nothing changes. |
| `Lifecycle.Connection.Transmit` | pycubrid/connection.py:390-412 | One exchange keeps every stored handle valid; what it returns, the connected flag and the status byte are those of what happened on the way, and only an operating system error disconnects. |
| `Lifecycle.Connection.SendAndReceive` | pycubrid/connection.py:379-412 | A connection that is down is left alone; otherwise the request is sent exactly once, after the reconnect if one is due and unless it fails, and the call ends with what became of it. An answer fits the request in the session that is current afterwards; a fetch is answered only in the session it started in. |
| `Lifecycle.Connection.EndTran` | pycubrid/connection.py:191-203 | The commit or rollback is sent and ends as its exchange does; after an answer no handle is stored, after a failure each is kept or cleared. |
| `Lifecycle.Connection.SetAutocommit` | pycubrid/connection.py:241-254 | The parameter and a commit are sent, the flag changes exactly if both are answered, the stored handles are left alone, and only a failed exchange or reconnect makes the call fail. |
| `Lifecycle.Connection.Ping` | pycubrid/connection.py:270-305 | Which exchanges and attempts to connect a ping makes, and its answer: the check is sent on a connected connection, a network failure is answered by one attempt to connect or by false, an answer counts as it is; without reconnect no session is ever opened. |
| `Lifecycle.Connection.NewCursor` | pycubrid/connection.py:223-233 | A new cursor is tracked, and only made on a connected connection. |
| `Lifecycle.Connection.Close` | pycubrid/connection.py:161-189 | With any cursor or close request failing, a connected connection ends disconnected, with no socket open, no cursor tracked and every cursor closed; unless something was lost, closing the database is the last request sent, after one for every stored handle. A disconnected connection is left as it was. |
| `Lifecycle.Connection.OneCursorChanged` | pycubrid/cursor.py:153-179 | A change to one cursor that leaves it in order keeps the whole invariant. |
| `Lifecycle.Cursor.Close` | pycubrid/cursor.py:105-119 | Whatever fails, the cursor ends closed, without a handle and untracked; a stored handle is closed at the server, and network failures of that are not reported. |
| `Lifecycle.Cursor.StoreResult` | pycubrid/cursor.py:159-173 | The buffer restarts with the inline rows of the handle just issued. |
| `Lifecycle.Cursor.Execute` | pycubrid/cursor.py:121-188 | Closes the old handle, sends the statement, and shows its reply: handle of the current session, first rows, row count, last insert id asked for after an insert; it fails only by a failed exchange or reconnect or by parameters that cannot be bound, and failing before the reply leaves buffer and position alone. |
| `Lifecycle.Cursor.ExecuteManyBatch` | pycubrid/cursor.py:240-269 | The batch is sent and ends as its exchange does; it leaves no handle, no rows and no result set, and the reply's row count; a failing one leaves buffer and row count alone. |
| `Lifecycle.Cursor.FetchMoreRows` | pycubrid/cursor.py:374-411 | One request for the rows after those taken, exactly if a handle is stored and rows are missing, ending as its exchange does; rows are only ever appended, and only by the session that issued the handle. |
| `Lifecycle.Cursor.FetchOne` | pycubrid/cursor.py:271-282 | A row handed over is the next one of the statement this cursor executed, across reconnects; none is handed over only if none can be asked for or none came. |
| `Lifecycle.Cursor.FetchMany` | pycubrid/cursor.py:284-304 | The loop hands over the next rows of this cursor's own statement, across reconnects, fewer than asked for only when none can be asked for or none came, and sends nothing if enough is buffered. |
| `Lifecycle.Cursor.FetchAll` | pycubrid/cursor.py:306-318 | The loop ends, and hands over all next rows of this cursor's own statement to the end of the buffer, across reconnects. |
| `Lifecycle.BrokenStaysTracked` | pycubrid/connection.py:161-189 | After the operating system failed a request, close does nothing and the open cursors stay tracked. |
| `Lifecycle.AnyRun` | pycubrid/connection.py:161-305 | Over every run of cursor, execute, batch, the three fetch calls, commit, rollback, autocommit, ping and close, with a failure possible at each socket call: connected exactly while a socket is held, no other socket open, the held one speaking TLS exactly if asked for, every stored handle of a connected connection issued by the current session for that cursor's result. |
| `AsyncConnection.StepKeeps` | pycubrid/aio/connection.py:371-446 | Every step of every task and of the broker keeps the invariant of lock, queue, streams, requests and log. |
| `AsyncConnection.BodyRead` | pycubrid/aio/connection.py:394-414 | A reply that was read to its end leaves the stream without request and without unread bytes. |
| `AsyncConnection.BrokerKeeps` | pycubrid/aio/connection.py:416-425 | Late answers and hang-ups never spoil what the waiting task will read. |
| `AsyncRuns.RunKeeps` | pycubrid/aio/connection.py:371-446 | The invariant holds in every state of every run. |
| `AsyncRuns.EveryReplyIsOwn` | pycubrid/aio/connection.py:371-414 | Over every interleaving, what a task parses is the broker's reply to its own request, no request is parsed twice, and at most one request is in flight. |
| `AsyncRuns.TimeoutAbandons` | pycubrid/aio/connection.py:380-392 | A read timeout abandons the request and closes the stream its reply would come on. |
| `AsyncRuns.LateReplyUnread` | pycubrid/aio/connection.py:380-392 | Once nobody waits for a request, no later parse of the run is of any part of its reply. |
| `AsyncRuns.NoSecondHandshake` | pycubrid/aio/connection.py:64-103 | Sessions opened and connections dropped balance, and a connected connection does not even start a handshake before it is dropped. |
| `AsyncRuns.StreamsConserved` | pycubrid/aio/connection.py:69-103 | Whenever nobody holds the lock, the open streams are exactly the held one, and it is held exactly if connected. |
| `AsyncRuns.CloseEndsClosed` | pycubrid/aio/connection.py:204-238 | Whichever step ends close, the connection is then disconnected and no stream is open. |
| `AsyncRuns.LostStaysUnnoticed` | pycubrid/aio/connection.py:375-425 | After the broker hung up, over every run that does not close the stream, no reply is parsed, no session opened, and the connection counts as connected. |
| `AsyncRuns.NeverStuck` | pycubrid/aio/connection.py:427-446 | Without any read timeout: the holder of the lock never waits for it and has a step of its own, or the broker can deliver the next part of the reply it awaits; a free lock goes to the first in the queue. |
| `AsyncRuns.SelfWaitForever` | pycubrid/aio/connection.py:441-446 | A task that waits for its own lock waits in every continuation of the run. |
| `AsyncRegions.RegionIsSequential` | pycubrid/aio/connection.py:64-446 | From the moment a task has the lock to the moment it gives it back, with any steps of others in between, its own steps are a word of the sequential procedure of its call, and lock, connection and the task's next position are what that procedure ends with. |
| `AsyncRegions.PingReconnects` | pycubrid/aio/connection.py:291-317 | In every run that goes on from a failed check of a reconnecting ping and in which its task is idle again, the task has left no stream and no handle, and after that has started a handshake or found the connection connected. |
| `AsyncRegions.StepKeepsHandles` | pycubrid/aio/connection.py:240-248 | The stored handles change where a reconnect starts and with the last step of a call: an answered execute, batch or commit stores, clears or forgets, closing a cursor clears whatever happened, and nothing else does. |
| `AsyncRegions.OthersStay` | pycubrid/aio/connection.py:371-446 | A task is moved by its own steps only; sessions, requests and the status byte change exactly where a database is opened, a request written, a reply read. |
| `AsyncRegions.OutsideSteps` | pycubrid/aio/connection.py:291-303 | What each call queues for the lock, last in line, and what becomes of the handles at once; the lock goes to the first in line; the broker sends the parts of the oldest reply in order. |
| `AsyncRegions.PossibleSteps` | pycubrid/aio/connection.py:371-446 | Which steps are possible: a task's own exactly where its code stands, a timeout at any point of a request, losing the broker only when it hung up and all is read. |
| `AsyncScenarios.SelfWaitIffOverridden` | pycubrid/aio/connection.py:431-446 | Some run makes the reconnect wait for its own lock if and only if connect is overridden. |
| `AsyncScenarios.ExchangeRun` | pycubrid/aio/connection.py:394-414 | A request whose reply arrives parses it and leaves the stream as it was. |
| `AsyncScenarios.HandleOutlivesSession` | pycubrid/aio/connection.py:291-317 | A concrete run of execute, timeout and ping after which a connected connection stores a handle of an older session. |
| `AsyncHandles.StepHandles` | pycubrid/aio/connection.py:431-446 | A step leaves a stale handle exactly if a queued connect opens a session while handles are stored; the automatic reconnect never does. |
| `AsyncHandles.HandlesStayCurrent` | pycubrid/aio/cursor.py:82-163 | Over every run, the stored handles always belong to the current session if and only if no session opens while handles are stored. |
| `AsyncDiscipline.PassesThrough` | pycubrid/aio/connection.py:291-317 | While a task is about to connect under the rule, whoever else gets the lock leaves it at once with the connection down and no handle stored. |
| `AsyncDiscipline.StepOrderly` | pycubrid/aio/connection.py:291-317 | Every step keeps that order as long as calls are started by the rule. |
| `AsyncDiscipline.CarefulRunsKeepHandles` | pycubrid/aio/connection.py:291-317 | If connect and reconnecting pings are started one at a time, a connection that is down is pinged only while nobody holds the lock, and connect is called only on one that is down without handles, then over every run all stored handles belong to the current session. |

## Left out

- BoundStatement.BindPreservesTokens: tokens are as `SqlLexer.Token` has them; the sign inside an exponent and operators of two characters are not joined to one token, and all characters beyond ASCII count as letters.
- BoundStatement.RenderSound: takes Decimal and float texts, and time zone keys without quotes or backslashes, as given; how Python prints a number or a strftime year before 1000 is not modelled.
- LiteralMeaning.RenderingDenotes: a Decimal or float stands for its own text; the offset of a zone is known to the minute and within a day; a zone named by an offset object without a key counts as an offset.
- Packets.FetchRoundTrip: is for results with columns, because without columns the parser leaves the rows unread.
- Values.GetScalarAt: leaves float and double as their raw bytes, numeric, JSON and text as bytes, dates as their fields; an empty BIT value is excluded because the parser reads size zero as null.
- Values.GetValueAt: a SET becomes the set of its elements, in which equal numbers, texts and bytes are one; that Python also counts 1 and 1.0, or decimals of different scale, as equal is not modelled.
- SqlKeyword.StrippingIsComplete: upper-cases ASCII letters only.
- TimeZone.OffsetRoundTrip: ASCII digits only; the lookup of named zones is an abstract answer.
- Lifecycle.AnyRun: reconnects through ping and before requests only, and follows cursors made by the connection; a direct call of connect after a failure does not clear handles. The broker is taken not to reuse a handle number within a session.
- Lifecycle.Cursor.FetchMoreRows: a fetch request built before a reconnect carries a handle of the older session; what is proved is that no row comes of it.
- The fetch size of a cursor in `Lifecycle` is the default of 100, where the source copies the connection's setting.
- Lifecycle.Connection.Connect: creating a socket, and handing it over to TLS, are single steps that happen or fail.
- AsyncConnection.StepKeeps: cancellation of a task from outside, and replies whose length field is negative, are not events of the model; a reply arrives in two parts, length and body.
- AsyncDiscipline.CarefulRunsKeepHandles: the rule is sufficient; when precisely a run that breaks it goes wrong is what `AsyncHandles.HandlesStayCurrent` says. Closing, executing and committing are the effects Clear, Release, Store and Forget of requests.
- The checks that parameters are a sequence, DML detection of executemany, callproc, and the DB-API no-ops: nothing follows from them that one body does not say.
- The fetch loops of the asynchronous cursor: the same buffer code as the synchronous one, with an await at each request.
- UTF-8 decoding, Decimal and datetime construction, JSON deserialisers, error hints and SQLSTATE classes, timing, logging.
- Prepare and execute as separate packets, schema, parameter, version, LOB and handshake packets: fixed layouts read by the same reader methods.
