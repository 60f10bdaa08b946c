# A verified model of sociobot's text formats and file workers

This project models three parts of sociobot and proves what they promise: the
streaming key/value format (`src/wdb.c` writes it, `src/rdb.c` reads it), the
streaming JSON reader and writer (`src/rjson.c`, `src/wjson.c`), and the pool of
worker processes that does file work off the main thread (`src/afs.c`).

## How it is built

For each part there is a specification on values, one step at a time, and a
class that does the same step in place, on fixed buffers, flags and level
stacks as the C code does; every method of a class is proved to do what the
specification's step does. The theorems are then about whole runs of the
specification. What the outside world decides (poll results, shared memory
written by another process, system calls, crashes) is a parameter of a step, so
the theorems hold for everything it may decide. A panic of the C code is a
result value, or is proved never to happen.

| file | content |
|---|---|
| `Decimal.dfy`, `Chars.dfy`, `CStrings.dfy`, `Options.dfy` | numerals and exact powers of ten, classes of characters, NUL-terminated strings, optional values |
| `DbWriter.dfy` | key/value writer: specification, class, rollback |
| `DbReader.dfy`, `DbReaderObject.dfy` | key/value reader: specification and tokens as C strings, class |
| `DbNumbers.dfy`, `DbStrings.dfy`, `DbRoundTrip.dfy` | meaning of numbers and strings, round trip over whole runs |
| `DbLanguage.dfy` | the exact language and data of the key/value reader |
| `JsonLevels.dfy`, `JsonReader.dfy`, `JsonReaderObject.dfy` | level stack, JSON reader: specification, class |
| `JsonReaderRuns.dfy`, `JsonLookahead.dfy` | run invariant and bracket stack, transparency of the lookahead |
| `JsonGrammar.dfy`, `JsonSoundness.dfy` | grammar of RFC 8259 as syntax trees, soundness of the reader |
| `JsonReading.dfy`, `JsonNumbers.dfy`, `JsonLanguage.dfy` | reading piece by piece, the value of numbers, the exact language and events of the reader |
| `JsonWriter.dfy`, `JsonWriterObject.dfy`, `JsonWriterRuns.dfy`, `JsonWriterFaults.dfy` | JSON writer: specification, class, pretty against compact, runs that overflow |
| `JsonTree.dfy`, `JsonRoundTrip.dfy` | documents written as trees, exact round trip |
| `AfsProc.dfy`, `AfsProcObject.dfy`, `AfsHandshake.dfy`, `AfsAccesses.dfy` | the parent's side of a worker, its list node as a class, handshake over all interleavings, first of whole calls and then of single accesses |
| `AfsPool.dfy`, `AfsPoolRuns.dfy`, `AfsPoolObject.dfy` | the pool: specification, conservation of requests and capacity over whole runs, the linked list and its arrays in place |
| `AfsUnlink.dfy` | which node an update unlinks |
| `AfsSettle.dfy` | exactly what an update tells, and when a command is settled |
| `AfsFleet.dfy` | the pool together with the processes of its workers |
| `AfsDurable.dfy` | the worker's whole-file write from the shared buffer to the disk |
| `AfsWholeFile.dfy` | the whole-file write across both processes, over all interleavings with other calls of the client |

## Where the code does less than one might expect

The model follows the code. Each point names the theorem with the exact
condition under which the promise holds and a lemma with an input that fails.

- A backslash in a key/value string is not escaped by the writer, so most
  strings with a backslash come back as others (`DbStrings.StringMeaning`,
  `DbStrings.BackslashLost`).
- The key/value reader refuses a signed zero and a zero exponent
  (`DbNumbers.NumberMeaning`, `DbNumbers.ZerosRefused`).
- The key/value reader takes zeros before a sign and any beginning of "true" or
  "false" for a value (`DbLanguage.NumberLanguage`, `DbLanguage.BoolLanguage`,
  `DbLanguage.OddScalars`).
- The JSON writer leaves out the comma after an array-valued member, and the
  JSON reader refuses a bare zero and an empty array (`JsonRoundTrip.RoundTrip`,
  `JsonRoundTrip.LostDocuments`).
- A closing call of the pretty JSON writer that runs out of room half-way may
  leave the level stack and the state out of step
  (`JsonWriterFaults.BreaksExactly`, `JsonWriterFaults.OrderBroken`). No panic
  comes of it (`JsonWriterFaults.OnlyDepthPanics`).
- The JSON reader gives an unsigned exponent the sign of a number without a
  fraction (`JsonNumbers.ReportedExactly`, `JsonNumbers.SignSlipsOnce`).
- Blanks after an opening brace or a key make the JSON reader report the event
  before them again (`JsonLanguage.OnceExactly`, `JsonLanguage.BlankRepeats`).
- A whole-file write asked of a worker that is still starting replaces the
  command held back for it (`AfsPoolRuns.EachOutcomeOnce`,
  `AfsPoolRuns.OpenForgotten`).
- A failed free worker is not always the node that is unlinked, although a
  comment in `afs_update` says so: the first free one is, and the failed one
  stays (`AfsUnlink.UnlinksExactly`, `AfsUnlink.LiveWorkerUnlinked`). No command
  is lost by it (`AfsPoolRuns.DeleteKeeps`).
- The stop note of a pool that never had a worker has no array to go to
  (`AfsPoolRuns.NotesFit`, `AfsPoolRuns.StopNoteLost`).
- `afs_write` stores its length before it finds the worker busy, and
  `afs_write_fsync_close` its length, flags and path before it looks at the
  worker's state, so a whole-file write in progress may put other data into
  another file and still be told to have succeeded
  (`AfsWholeFile.DoneMeansDurable`, `AfsWholeFile.MemoryDecides`,
  `AfsWholeFile.RefusedWrite`, `AfsWholeFile.RefusedWhole`;
  `AfsWholeFile.WriteEmptied`, `AfsWholeFile.WriteReplaced`).

## Model

| member | source | states |
|---|---|---|
| `DbWriter.CallAppendsOrRollsBack` | src/wdb.c:52-257 | In every run, failing calls included: the text never exceeds the buffer; a call succeeds exactly if it is legal at that point and its text fits; then the text grows by exactly the call's separator and encoding, and otherwise it is what it was before the call. |
| `DbWriter.LongFitsBuffer` | src/wdb.c:170-187 | Every `long` prints within the 50-character buffer of `wdb_int`, so its truncation check is never the reason for a failure. |
| `DbWriter.Writer.constructor` | src/wdb.c:35-45 | A new writer has no text and no key. |
| `DbWriter.Writer.AddCh` | src/wdb.c:248-257 | One character is appended, or the buffer is full; nothing below the old length changes. |
| `DbWriter.Writer.AddLiteral` | src/wdb.c:239-246 | A literal is appended whole if it fits; on overflow everything below the old length is intact, which is what rollback relies on. |
| `DbWriter.Writer.MaybeArr` | src/wdb.c:230-237 | The separator before a value that is not its key's first. |
| `DbWriter.Writer.AddKey` | src/wdb.c:52-82 | The key call, character by character with its three rollback paths, has the outcome that `Step` gives it on the old state. |
| `DbWriter.Writer.AddEscaped` | src/wdb.c:94-123 | The escaping loop appends the encoding of the longest writable prefix, or stops at the first character that does not fit. |
| `DbWriter.Writer.AddString` | src/wdb.c:84-168 | Both string calls, with rollback, have the outcome that `ValueStep` gives them: order of checks, separator, encoding, overflow before syntax error. |
| `DbWriter.Writer.AddPlain` | src/wdb.c:170-216 | Integers and booleans: appended with their separator or rolled back. |
| `DbWriter.Writer.Finish` | src/wdb.c:218-228 | The final newline and NUL are appended together or not at all, and never right after a key. |
| `DbReader.TokensAreCStrings` | src/rdb.c:219-356 | Over any characters at all, going on after errors too: what has been decoded always fits the buffer, and every key or string reported has no NUL inside and room for the NUL behind it. |
| `DbReaderObject.Reader.constructor` | src/rdb.c:87-99 | A new reader is idle, at position 0, with no token. |
| `DbReaderObject.Reader.Next` | src/rdb.c:101-129 | One call: the new state, the answer and the visible token are those of the specification, the token read back as the C string in the buffer; the position moves except on a syntax error. |
| `DbReaderObject.Reader.NextIdle` | src/rdb.c:155-217 | The dispatch of a character between tokens, with its flags. |
| `DbReaderObject.Reader.NextKey` | src/rdb.c:219-257 | One character of a key, written in place. |
| `DbReaderObject.Reader.NextStr` | src/rdb.c:259-297 | One character of a quoted string, written in place. |
| `DbReaderObject.Reader.NextLong` | src/rdb.c:299-356 | One character of an angle-bracketed string, with its first newline skipped. |
| `DbReaderObject.Reader.CloseLong` | src/rdb.c:310-326 | The closing bracket overwrites an unprotected last newline by the NUL. |
| `DbReaderObject.Reader.Terminate` | src/rdb.c:259-297 | With the NUL in place the buffer's C string is exactly the decoded characters. |
| `DbReaderObject.Reader.NextNumInt` | src/rdb.c:405-463 | One character of the integer part: digits, sign, point, exponent mark or separator. |
| `DbReaderObject.Reader.NextNumFrac` | src/rdb.c:465-502 | One character of the fraction. |
| `DbReaderObject.Reader.NextNumExp` | src/rdb.c:504-542 | One character of the exponent. |
| `DbReaderObject.Reader.NextBool` | src/rdb.c:373-403 | One character of a boolean, and the comparison at its separator. |
| `DbReaderObject.Reader.SetSt` | src/rdb.c:544-590 | Entering a scanning state resets its data and the flags that go with it. |
| `DbNumbers.NumberMeaning` | src/rdb.c:405-542 | For every literal with any number of digits in each part and zeros before its signs, followed by any separator: it is read as one number exactly if it is `Accepted` (digits where they are due, no signed zero, no zero exponent), and the value reported is the literal's exact value in real arithmetic; otherwise a syntax error and no token. |
| `DbNumbers.ZerosRefused` | src/rdb.c:504-542 | A negative zero and a zero exponent are syntax errors. |
| `DbNumbers.ScannedValue` | src/rdb.c:144-149 | What `rdb_cur_num` computes from the scanned mantissa, sign and exponent is the exact value of the literal. |
| `DbStrings.StringMeaning` | src/rdb.c:259-356 | For every writable string and both string forms: the written text is read back as exactly that string if it is `Decodable` (no backslash; in the long form none but before `<`) and fits with its NUL. Otherwise it is never delivered, whatever text follows. |
| `DbStrings.BackslashLost` | src/wdb.c:84-127 | A newline and a backslash before an `n` are written alike, and the newline is what is read back. |
| `DbRoundTrip.RoundTrip` | src/rdb.c:101-129 | For every sequence of writer calls, failing ones included, up to a first successful `wdb_fin`: the reader takes every character, ends at the NUL and delivers exactly the data of the successful calls in order, if and only if each successful call was `Readable`. |
| `DbRoundTrip.CallDiverges` | src/wdb.c:52-168 | An unreadable call is never made good by what follows it: its datum is not the next one delivered. |
| `DbLanguage.ExactLanguage` | src/rdb.c:101-542 | Over every text and from every place between tokens: the streaming reader comes to the NUL if and only if a reader that takes whole keys, strings and words at a time finds data in the text, and then it has delivered exactly these data, in order. |
| `DbLanguage.NumberLanguage` | src/rdb.c:405-542 | Any string without a separator that starts like a number is read as one exactly if it is the text of an accepted literal, and then with its exact value; otherwise it is a syntax error. |
| `DbLanguage.BoolLanguage` | src/rdb.c:373-403 | Any other string without a separator is read as a boolean exactly if it is a beginning of "true" or "false". |
| `DbLanguage.OddScalars` | src/rdb.c:417-421 | The text 0-5 is read as minus five, and the text t as true. |
| `JsonReaderObject.Reader.constructor` | src/rjson.c:94-104 | A new reader is idle, expects a value and holds no lookahead. |
| `JsonReaderObject.Reader.Next` | src/rjson.c:106-179 | One call, with the recursive call that catches up after a number, does what the specification's `Next` does to state, lookahead, position and answer. |
| `JsonReaderObject.Reader.NextIdle` | src/rjson.c:300-411 | The dispatch of a character between tokens. |
| `JsonReaderObject.Reader.AddLvl` | src/rjson.c:239-246 | Opening a level, or the panic when 24 are open. |
| `JsonReaderObject.Reader.PopLvl` | src/rjson.c:248-254 | The innermost level is removed and nothing else. |
| `JsonReaderObject.Reader.NextWantKey` | src/rjson.c:413-447 | A key or the end of the object where a key may stand. |
| `JsonReaderObject.Reader.NextWantColon` | src/rjson.c:449-474 | The colon after a key. |
| `JsonReaderObject.Reader.NextStr` | src/rjson.c:487-540 | One character of a string, unescaped and written in place. |
| `JsonReaderObject.Reader.EndStr` | src/rjson.c:514-523 | The closing quote terminates and reports the string if the NUL fits. |
| `JsonReaderObject.Reader.NextNum` | src/rjson.c:542-660 | One character of a number, or its end, at which the character is kept for later. |
| `JsonReaderObject.Reader.NextWord` | src/rjson.c:662-714 | One character of `true`, `false` or `null`. |
| `JsonReaderRuns.RunInvariant` | src/rjson.c:239-284 | Over any characters: every call keeps the invariant on levels, state, expected value and lookahead (a character kept for later means an idle reader that expects no value); while all answers are ok, the level stack is exactly the unmatched brackets consumed so far outside strings, computed by an independent scanner; a panic means more than 24 of them were open. |
| `JsonReaderRuns.AnyRunInvariant` | src/rjson.c:106-179 | The same invariant for a client that goes on after any answer, a syntax error or an overflow included, whatever the characters; a panic means 24 levels are open. |
| `JsonReaderRuns.CoreKeeps` | src/rjson.c:300-714 | One character through the automaton keeps the invariant, and the only panic left is a 25th level. |
| `JsonLookahead.Transparent` | src/rjson.c:106-179 | On every NUL-terminated input `rjson_next` ends as a reference reader does that reports a number and handles its terminator in one step: the same answer at most one call later, on success the same events in the same order, on error the same position. |
| `JsonLookahead.AgreeBehind` | src/rjson.c:154-176 | A reader that runs one character behind is the reference reader with the effect of that character already told. |
| `JsonSoundness.Sound` | src/rjson.c:300-714 | Every text on which the reader reports its end after some events is, up to that point, a grammatical object of sections 2 to 7 of RFC 8259, relaxed only by a comma after an object's last member and by repeated signs in numbers and exponents. |
| `JsonLanguage.ExactLanguage` | src/rjson.c:106-179 | On every NUL-terminated text the reader reports the end after some events if and only if the text starts, after blanks, with an object of that grammar in any layout that is at most 24 brackets deep, has no empty array, no zero without a fraction and only strings that can be decoded and fit the buffer. |
| `JsonLanguage.ReportsEvents` | src/rjson.c:300-474 | For such a text the events are exactly those of the object, in order, each blank after an opening brace or between a key and its colon repeating the event before it. |
| `JsonLanguage.OnceExactly` | src/rjson.c:419-421 | Each event is reported once if and only if there is no such blank. |
| `JsonLanguage.BlankRepeats` | src/rjson.c:413-447 | One blank in an empty object, and its start is reported twice. |
| `JsonNumbers.ReadNumber` | src/rjson.c:542-660 | Every number of the grammar, with any number of digits and signs in each part, is read with the value `Reported` or refused, and refused exactly if it is a zero without a fraction. |
| `JsonNumbers.ReportedExactly` | src/rjson.c:595-599 | The value reported is the exact value of the literal if and only if it is not a negative number without a fraction whose non-zero exponent has no sign. |
| `JsonNumbers.SignSlipsOnce` | src/rjson.c:589-600 | The literal -1e1 is reported as minus a tenth. |
| `JsonWriterObject.Writer.constructor` | src/wjson.c:52-69 | A new writer has no text, no level and no pending comma. |
| `JsonWriterObject.Writer.AddCh` | src/wjson.c:263-271 | One character, keeping the last one of the buffer free. |
| `JsonWriterObject.Writer.MaybeComma` | src/wjson.c:273-283 | The pending comma and line break. |
| `JsonWriterObject.Writer.MaybeIndent` | src/wjson.c:285-303 | The nested loops put four blanks per level unless a value follows its key. |
| `JsonWriterObject.Writer.AddString` | src/wjson.c:76-118 | The string call: separator, quotes, escaping loop, and the colon after a key. |
| `JsonWriterObject.Writer.AddLiteral` | src/wjson.c:305-328 | Numbers, booleans and null. |
| `JsonWriterObject.Writer.Open` | src/wjson.c:166-186 | The opening calls. |
| `JsonWriterObject.Writer.Close` | src/wjson.c:188-261 | The closing calls, with what is left behind when the buffer runs out half-way. |
| `JsonWriterRuns.StepFree` | src/wjson.c:76-328 | A call that does not overflow appends exactly its head, text and tail to the old text and leaves the flags that an unbounded writer would. |
| `JsonWriterFaults.OnlyDepthPanics` | src/wjson.c:330-354 | In every run, calls that overflow included and the client going on after them: a syntax error changes nothing, and the only call that panics is one that opens a level when 24 are open, so the panic about a key outside an object is dead code. |
| `JsonWriterFaults.BreaksExactly` | src/wjson.c:188-261 | A call leaves levels and state out of step if and only if it closes an object that is not itself in an object, or an array that is in one, and the room ends in the line break or the indentation before its bracket. |
| `JsonWriterFaults.OrderBroken` | src/wjson.c:188-235 | A run of five calls on a buffer of 29 that ends in that state. |
| `JsonWriterRuns.PrettyMeansCompact` | src/wjson.c:76-328 | For every sequence of calls, legal or not, that overflows neither writer: both modes give the same result for every call, and the pretty text without the blanks outside its string literals is exactly the compact text. |
| `JsonTree.WritesTree` | src/wjson.c:76-328 | Writing any document call by call: all calls succeed exactly if it is at most 24 brackets deep and its text leaves the buffer one character, and then the buffer holds exactly the document's text. |
| `JsonRoundTrip.RoundTrip` | src/rjson.c:106-179 | For every document that the compact writer accepted: the reader, fed the text and the NUL, ends with fin after exactly the document's events, each once and in order, if and only if the document is `Good` (printable strings and the five escapes shorter than the reader's buffer, no bare zero, no empty array, an array-valued member only last); otherwise it answers with a syntax error. |
| `JsonRoundTrip.LostDocuments` | src/wjson.c:251-253 | Three accepted documents that the reader refuses: a bare zero, an empty array, and a member after an array, where the writer leaves out the comma. |
| `JsonRoundTrip.LostTexts` | src/wjson.c:237-261 | The exact texts the writer leaves for those three. |
| `AfsHandshake.HandshakeSafe` | src/afs.c:1171-1201 | Over every run of calls of the parent and single accesses of the child, the child crashing at any point (by `AfsAccesses.CallsAreAtomic` every interleaving of single accesses is such a run): a parent waiting for a live child has exactly one signal among byte to the child, child at work and byte to the parent; an available worker has none and its child says idle, so a send fails only for the worker's state or the socket and the "bad child st" branch is never taken. |
| `AfsHandshake.CommandHeld` | src/afs.c:1246-1335 | The shared command does not change while it is in flight, whatever either side does, until its reply is taken or the worker is destroyed. |
| `AfsHandshake.RepliesAreTrue` | src/afs.c:1084-1158 | The replies taken are the reports of the commands the child carried out, in order, none twice and none left out but possibly the last; so the event of a reply names the command really carried out and its real outcome, and the failure branches for the start and exit commands are never taken. |
| `AfsAccesses.CallsAreAtomic` | src/afs.c:1084-1201 | With the child moving or crashing between any two accesses or system calls of the parent, and between a poll and the update that uses it: seen as if a call in progress had not begun, the worker is always one that a run of whole calls leads to, the calls in the order in which they end. |
| `AfsAccesses.AccessesSafe` | src/afs.c:1092-1185 | In every such interleaving the two sides are never about to access the same of the three shared fields; the parent's read never blocks; the state of the child that it checks is always idle; the result it reads is that of the command carried out last; a poll result is still true when it is used. |
| `AfsProcObject.Ps.constructor` | src/afs.c:746-797 | A new node has its descriptor, no successor, no command held back and a worker that waits for its child's first reply. |
| `AfsProcObject.Ps.AddEv` | src/afs.c:1233-1244 | An event is queued unless three are queued already. |
| `AfsProcObject.Ps.UpdateInitPend` | src/afs.c:1040-1071 | The start of a worker: stop, hang-up, reply or nothing yet; its events always fit the queue. |
| `AfsProcObject.Ps.UpdateBusy` | src/afs.c:1084-1158 | A hang-up fails the command in flight; a reply is followed by the exit command if a stop was asked for. |
| `AfsProcObject.Ps.Update` | src/afs.c:963-998 | One update in any state, from an empty event queue that never fills up. |
| `AfsPool.Find` | src/afs.c:820-830 | Lookup gives the first node with the descriptor and none if there is none. |
| `AfsPool.NextFd` | src/afs.c:832-843 | A new descriptor is larger than every one in use. |
| `AfsPoolRuns.TurnKeeps` | src/afs.c:217-312 | One worker's turn: what it owed is told under its descriptor and kind or still owed; a worker that must go owes nothing; at most one note; the event queue stays below its limit. When a turn settles a debt is `AfsSettle.TurnExactly`. |
| `AfsPoolRuns.SendOwes` | src/afs.c:1171-1185 | A command that a worker accepts is owed from then on, once, under the worker's descriptor and its kind; a refused one leaves what is owed as it was. |
| `AfsPoolRuns.OutcomeTold` | src/afs.c:1084-1158 | The event of a command in flight settles exactly that debt: it is told once under its descriptor and kind, whatever becomes of the worker. |
| `AfsPoolRuns.StopKeeps` | src/afs.c:1011-1028 | A stop request loses no command and adds none, in every state of the worker. |
| `AfsPoolRuns.AllocateKeeps` | src/afs.c:711-744 | A worker handed out has a descriptor of its own and nothing held back, and is starting unless it has been running; getting or failing to get it changes nothing that is owed and keeps the pool's invariant. |
| `AfsPoolRuns.AskNewKeeps` | src/afs.c:351-384 | An accepted open or mkdir is owed once under the descriptor returned, sent or deferred; a refused one adds nothing. |
| `AfsPoolRuns.AskOnKeeps` | src/afs.c:386-448 | The same for a command on a descriptor the client holds. |
| `AfsPoolRuns.WriteWholeKeeps` | src/afs.c:496-537 | The same for a whole-file write, except for the command it replaces on a worker that is still starting. |
| `AfsPoolRuns.DeleteKeeps` | src/afs.c:799-818 | Deleting the first node with the descriptor of a failed worker, which for -1 may be another free worker, never loses a command. |
| `AfsUnlink.UnlinksExactly` | src/afs.c:303-308 | In every run and at every turn of an update that must unlink: the worker's own node goes if and only if its descriptor is not -1 or no free node stands before it; otherwise the first free node goes and the failed one stays in the list; the order of all others is kept. |
| `AfsUnlink.TurnsAreUpdate` | src/afs.c:217-312 | Those turns, one after the other, are the update of the pool. |
| `AfsUnlink.LiveWorkerUnlinked` | src/afs.c:799-818 | A run that ends with two free live workers; the second hangs up, and the node left is that of the dead one. |
| `AfsPoolRuns.OutcomesMatch` | src/afs.c:207-329 | In every run, whatever workers and system do: accepted commands = outcomes told + commands in flight or deferred + commands overwritten, as multisets of descriptor and kind. When and as which kind they are told is `AfsSettle.UpdateSettles` and `AfsSettle.TurnExactly`. |
| `AfsPoolRuns.EachOutcomeOnce` | src/afs.c:516-530 | Each accepted command is told exactly once or still in flight or deferred, if and only if no fitting whole-file write was asked of a worker that, still starting, held a command back. |
| `AfsSettle.TurnExactly` | src/afs.c:963-1169 | A worker's turn in every state: it tells one note if a reply or the end of its child settles the command in flight, or if the command held back can no longer be sent, and none otherwise; the note says done if and only if the child replied so, and failed in every other case; and exactly when the worker must go, when its descriptor is free again and which state it is in then. |
| `AfsSettle.UpdateSettles` | src/afs.c:1084-1158 | In every run an update moves exactly the commands that settle from those owed to those told: no reply, no end of a child and no failed start is passed over. |
| `AfsSettle.NotesExactly` | src/afs.c:207-329 | In every run the notes of an update are, in order, exactly those of its workers' turns, whatever nodes are unlinked on the way, and then the end of a stop. |
| `AfsSettle.ClientTold` | src/afs.c:207-312 | In every run the notes under a descriptor in use are those of its one worker: none, or the outcome of the one command it owes. |
| `AfsFleet.FleetIsPool` | src/afs.c:207-312 | A pool whose nodes each have a parent and a child of the handshake, with children moving and crashing at any time: its part of every run is a run of the pool, every worker is in a state that the handshake reaches, and nothing is held back for a worker but what it can send. |
| `AfsFleet.ToldAsHappened` | src/afs.c:1084-1158 | In every such run an update tells exactly what the children did: the outcome in a child's last report, a failure where a child is gone or a worker could not be started or reached, each under its descriptor and in the order of the list. |
| `AfsFleet.TakesCommand` | src/afs.c:1171-1185 | In every such run a worker takes a command exactly if it is available and its byte gets through: its child is idle then. |
| `AfsPoolRuns.PoliteIsCareful` | src/afs.c:496-537 | A client that asks for whole-file writes only through descriptors with nothing unanswered meets that condition. |
| `AfsPoolRuns.OpenForgotten` | src/afs.c:523-527 | An open and then a whole-file write on the same starting worker are both accepted, and the open is forgotten. |
| `AfsPoolRuns.DescriptorsUnique` | src/afs.c:711-843 | In every run no descriptor has two workers, lookup finds the one owner, and deletion removes that worker alone and keeps the order of the rest. |
| `AfsPoolRuns.NotesFit` | src/afs.c:198-329 | In every run an update tells at most one note per worker and one for a completed stop, and they fit the event array if and only if it is not the stop note of a pool that never had a worker; the poll array has room for every worker. |
| `AfsPoolRuns.StopNoteLost` | src/afs.c:313-328 | A stop asked of a pool that never had a worker is told at once, while the event array has no room at all. |
| `AfsPoolRuns.NotesFitOnceUsed` | src/afs.c:746-797 | Once a pool has had a worker, every later update has room for its notes. |
| `AfsPoolObject.Workers.constructor` | src/afs.c:185-195 | A new pool has an empty list and arrays without room. |
| `AfsPoolObject.Workers.Get` | src/afs.c:820-830 | The walk along the `next` fields finds the first node with the descriptor, or the end of the list. |
| `AfsPoolObject.Workers.NewFd` | src/afs.c:832-843 | The walk over all nodes gives one more than the largest descriptor in use. |
| `AfsPoolObject.Workers.Del` | src/afs.c:799-818 | The first node with the descriptor is taken out of the chain through its parent or the head; every other node object is as and where it was, and the chain still ends and has no circle. |
| `AfsPoolObject.Workers.Append` | src/afs.c:746-797 | A new node object is linked behind the last one, after both arrays have been replaced by larger ones where needed; whichever allocation fails, the list is the old one. |
| `AfsPoolObject.Workers.MaybeAlloc` | src/afs.c:711-744 | The first free node object is used again or a new one linked, and what is undone when its process cannot be started. |
| `AfsPoolObject.Workers.StartNew` | src/afs.c:351-384 | Open and mkdir on the node objects: an accepted command is owed once under the descriptor returned, sent or deferred; a refused one adds nothing, even where its worker stays allocated. |
| `AfsPoolObject.Workers.ReserveOne` | src/afs.c:483-494 | A node object of one's own and its descriptor, with nothing owed for it. |
| `AfsPoolObject.Workers.SendOn` | src/afs.c:386-448 | The commands on a descriptor: accepted and owed once, or refused with nothing owed; only that node object changes. |
| `AfsPoolObject.Workers.WriteFile` | src/afs.c:496-537 | The whole-file write: accepted and owed once, in place of the command held back for a worker that is still starting, or refused. |
| `AfsPoolObject.Workers.StopPrep` | src/afs.c:539-559 | The walk asks every worker in place, goes on after a refusal, and succeeds exactly if each of them could be asked. |
| `AfsPoolObject.Workers.PollFds` | src/afs.c:592-612 | The poll array holds exactly the nodes with a socket, each once and in the order of the list, and never runs out. |
| `AfsPoolObject.Workers.HandleEvent` | src/afs.c:224-302 | What one event does to its node object, and what is written behind the notes already in the event array, within its bounds. |
| `AfsPoolObject.Workers.NextTurn` | src/afs.c:217-312 | A node takes its turn and a node, perhaps another one, is unlinked: the next node, saved before, is still in the list and is where the update goes on. |
| `AfsPoolObject.Workers.Update` | src/afs.c:207-329 | The loops over node objects and events, with nodes unlinked on the way, do what the specification's `Refresh` does and write every note within the event array; what was owed is told in that array or still owed; the call crashes if and only if a stop was asked of a pool without an event array. |
| `AfsDurable.SuccessMeansDurable` | src/afs.c:1496-1541 | Success is reported exactly if the file at the path was opened, received exactly the payload in order through any short or interrupted writes, was synced and then closed; and a file that was opened is always closed. |
| `AfsDurable.PutsInOrder` | src/afs.c:1381-1412 | The write loop puts the data in order: all of it on success and a beginning of it otherwise. |
| `AfsDurable.Shared.Prepare` | src/afs.c:515-521 | Payload and path lie side by side within the buffer; the length test fails to see an overlong length exactly when the sum wraps around in `size_t`. |
| `AfsDurable.Shared.WriteOut` | src/afs.c:1381-1412 | The write loop with its advancing offset; what has been counted as written is what the file got, and on success it is the whole length. |
| `AfsDurable.Shared.WriteFsyncClose` | src/afs.c:1496-1541 | The worker's half, on the C string behind the payload as its path. |
| `AfsWholeFile.DoneMeansDurable` | src/afs.c:1246-1335 | Over every interleaving of calls of the client, refused ones included, stores into the shared memory, and steps and crashes of the worker: when a whole-file write is told as done, the file at the path that the worker read got exactly the payload it read, was synced and closed; and what was asked for is durable, with the length asked for reported, if and only if the worker read the length, path, flags and every piece of the payload as asked. |
| `AfsWholeFile.RequestIsDurable` | src/afs.c:496-537 | After any run, a request that is accepted, sent at once or deferred until the worker has started: if what happens later stores nothing else over it and it is told as done, the file asked for is durable with the payload asked for, and the length reported is the one asked for. |
| `AfsWholeFile.MemoryDecides` | src/afs.c:1496-1541 | After any run that ends before the worker reads the request, and then any interleaving without another store: when the write is told as done, the file is the one that the memory asked for, and it is the one the client asked for if and only if the two are the same. |
| `AfsWholeFile.Completes` | src/afs.c:1496-1541 | A worker that was signalled and is let alone carries out what the shared memory says then, and tells it. |
| `AfsWholeFile.RefusedWrite` | src/afs.c:414-435 | After any run, an `afs_write` refused before the worker has read the request, and then any interleaving with short and interrupted writes, failures and crashes but no other store: when the write is told as done, what was asked for is durable if and only if the refused length is the length asked for. |
| `AfsWholeFile.RefusedWhole` | src/afs.c:496-537 | The same for a refused second whole-file write: what was asked for is durable if and only if both ask for the same path, flags and payload. |
| `AfsWholeFile.WriteEmptied` | src/afs.c:426-431 | A run from the start in which a refused `afs_write` of length 0 leaves the file empty, told as done. |
| `AfsWholeFile.WriteReplaced` | src/afs.c:516-531 | A run from the start in which a refused whole-file write sends the data to another path, told as done. |
| `AfsWholeFile.WriteFulfilled` | src/afs.c:496-537 | The same run without the refused call: the file asked for is durable. |

## Left out

- Floating point: numbers are exact reals; rounding, infinities and `%f` output (`wdb_num`, `wjson_double`) are not modelled.
- Integer widths other than `long`, `long long` and `size_t`: overflow of exponents, positions and descriptors in C `int` is not modelled.
- Characters above 127: text is a sequence of characters, and the sign of `char` plays no role.
- Feeding the pretty writer's text back to the JSON reader: the equivalence of pretty and compact text and the reader's events for any layout are proved, their composition is not stated.
- `wjson_init`: leaves the level count and the first-element flag unset in the code; the model starts both at zero.
- DbReaderObject.Reader.constructor: asks for a buffer of at least one character, as `set_st_` writes there without a test.
- AfsAccesses.CallsAreAtomic: memory is sequentially consistent, what a reply carries besides its result is read together with it, and a poll result is used for one update.
- AfsPoolObject.Workers.Del: an unlinked node is no longer reachable, but its memory is not freed and its process not reaped in the model.
- AfsPoolObject.Workers.PollFds: a poll entry is the node whose socket it stands for; numbers of sockets are not modelled.
- AfsFleet.FleetIsPool: an update is one step, and the process of an unlinked node is forgotten.
- AfsProcObject.Ps.AddEv: a node's own queue of three events is a sequence with that bound.
- AfsWholeFile.DoneMeansDurable: a call of the client on the worker is one step; besides, a character of the buffer, the length and the flags may be stored at any time by a step of their own.
- AfsDurable.Shared.Prepare: a length whose sum wraps around is reported as out of bounds and the memory left alone, because a write outside the buffer has no meaning here.
- AfsDurable.SuccessMeansDurable: a file is the log of what is done to it through its descriptor; the flags' meaning, file offsets and the disk below `fsync` are not modelled.
- `proc_child_open_`, `proc_child_close_`, `proc_child_fsync_`, `proc_child_readall_`, `proc_child_mkdir_`: only their success or failure enters the handshake.
- `afs_stop`, `fork`, `mmap`, `socketpair`, `kill` and `waitpid`: memory and process management; runs are those before `afs_stop`.
- `errno`, failure records, panic messages and `afs_event_str`: reporting only.
- `src/https.c`, `src/tgdb.c`, `src/tg.c`, `src/ev.c`, `src/main.c`, `lib/`: callbacks into a library, unfinished code, stubs and vendored libraries.
