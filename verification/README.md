# A verified model of the ManageSieve server, its script store and its client

This project models the ManageSieve (RFC 5804) server of the repository as a machine over byte streams, the in-memory script
store behind it, and the parts of the client that read its answers, and proves what they promise each other: bytes in lead to
session calls, session calls to bytes out, and those bytes to what a client reads.

| module | source | contents |
|---|---|---|
| Text | managesieve/managesieve.go, managesieveserver/errors.go | trimming, quoting, sanitizing, script names, decimals |
| Parser | managesieveserver/parser.go | tokenizer, unquoting, literal markers |
| Names | managesieve/managesieve.go | what the byte tests of names and texts come to for the code points the bytes encode |
| LineReader | managesieveserver/parser.go | the buffered reader over arriving segments, bounded line reading |
| Protocol | managesieveserver/conn.go, managesieveserver/errors.go | options, session calls, responses and their bytes, capabilities, the environment |
| ConnSpec, Effects, Serving | managesieveserver/conn.go | a connection as functions on its state, what a command can do, whole runs and the error budget |
| Looks, Conn | managesieveserver/conn.go | the connection as a class updated in place, proved equal to ConnSpec and Serving |
| Runs | managesieveserver/conn.go | whole runs turn by turn, and how they open |
| Sync, StrayTurns | managesieveserver/conn.go | client commitments against the server's read position, and turns in which they part |
| Framing | managesieveserver/conn.go, managesieveserver/parser.go | encoding of commands, the round trip, and where a client takes a command to end |
| TraceSafety | managesieveserver/conn.go | what a session can observe |
| Responses | managesieveserver/conn.go, managesieveserver/errors.go | reading the output back |
| Verdicts | managesieveclient/client.go, managesieveserver/errors.go | the verdict, the response code and the text a client reads in a line |
| Segmentation | managesieveserver/conn.go | independence of how bytes arrive |
| ScriptList, Accounts, Linearization, Store | managesievemem/store.go | script lists against ordered maps, interleaved sessions and their linear form, the store updated in place |
| Outcomes | managesieveserver/conn.go | what every command comes to, by the text of its verb and the values of its arguments, and what a client reads of it |
| Calls, Exchanges | managesieveserver/conn.go | from the bytes of a command, in any framing, to exactly that outcome; HAVESPACE, the challenge of AUTHENTICATE and STARTTLS in Exchanges |
| Refusals | managesieveserver/conn.go | refused, cut and malformed lines, and the end of the input |
| StoreSession | managesievemem/store.go | the store as a session: who gets in, and its answers against the ordered maps |
| EndToEnd, Histories, Logins, Listing | both | commands against the store from bytes to bytes, and what holds at any point of any run: history, login, names, LISTSCRIPTS |
| Client, Advertising | managesieveclient/client.go, managesieveserver/conn.go | capability listings, and what they teach name by name |
| Deadlines, Shutdown | managesieveserver/server.go, managesieveserver/conn.go | Close against running connections |
| ClientGuard | managesieveclient/client.go | cancellation of client operations |

How to read the model:

- One `char` stands for one byte of a Go string; nothing bounds it from above. White space and letter case are the ASCII ones
  (`strings.TrimSpace` and `strings.ToUpper` know more). Every framed argument ends in `"` or `}`, so the framing round trips
  do not depend on the difference. What a handler makes of a script name does: it trims the unquoted name (conn.go:822, 852,
  926), so a name with U+00A0 or U+0085 at an end reaches the session without it, where `Trim` keeps it. 64-bit sizes are checked against `MAX_INT64` where the source parses them; lengths are unbounded otherwise.
- The stream behind a connection is a finite string and the way it ends: end of file, timeout, or broken. Every run of the
  command loop is therefore finite.
- A session is an arbitrary function of the events so far; so are flush results, the context, and what a look at the reader's
  buffer finds (`Env`). Statements quantify over all of them unless a `requires` says otherwise.
- `Conn.Conn` performs the operations in place. Its methods are proved to do what the functions of ConnSpec do to the state.
  The one observation that depends on how bytes arrive is `Buffered()`: the class records what each look found (`peeked`), and
  is proved, without condition, to follow the specification for every environment that foresees those answers. Segmentation
  says which commands look.
- Verbs may be in any letter case, as in the source (`Framing.AnyLetterCase`).
- `Outcomes.Served` says exactly what a turn did: the events, the responses in order behind a given number of go-aheads, the
  errors counted, the flags, and whether the connection goes on. `Outcomes.RequestRead` and its kind say what a client reads
  in the bytes, through `Responses.ReadResponses` and the readers of Verdicts, which know nothing of how lines are written.
- The library refuses an empty password with an *Error of its own (conn.go:645-648); here that line is the phrase
  `NoEmptyPassword`, so that it can be told apart from what a session says (`Verdicts.EmptyPasswordIsWorded`).

Results that are not what one might expect of the code, each proved with its exact condition:

- Read position. The server resumes where the client does if and only if the turn does not stray (`Sync.Strays`). It strays when
  a content literal the client has committed is answered without being read (conn.go:424-427, conn.go:530-549), when a second
  committed literal follows a content literal on the line whose rest readScriptArgument drops, and when a content marker is not
  the last argument. The server also never asks for a literal of AUTHENTICATE: it takes {N} there for committed
  (conn.go:560-563). Sync is therefore proved for two kinds of client (`Sync.Rule`): one that sends such a body at once, and one
  that waits for `+` as everywhere else; for the latter a {N} in AUTHENTICATE that is read is one more way to stray. StrayTurns
  has a turn for each way.
- Two-phase SETACTIVE is one atomic step at its second critical section if and only if the script, should it still exist, then
  holds valid content. With a fixed hook and vetted seeds that is always so, and every interleaving is a linear run of atomic
  calls with the same answers; Linearization has the interleaving that goes wrong without vetting.
- A landed client poke keeps both deadlines expired if and only if neither a TLS handshake nor `Client.SetDeadline`, which set
  them without the mutex and without a look at the poison mark, revives them afterwards.

## Model

| member | source | states |
|---|---|---|
| Text.EscapeIsTwoPasses | managesieve/managesieve.go:41-45 | the two replacement passes of Quote amount to one escape per byte |
| Text.QuoteShape | managesieve/managesieve.go:41-45 | a quoted string is the escaped bytes between two quotes, with no white space at its ends |
| Text.QuoteLacks | managesieve/managesieve.go:41-45 | quoting never introduces a line feed or other byte but the escapes |
| Text.ValidNameUnchanged | managesieve/managesieve.go:52-79 | a name ValidateScriptName admits passes SanitizeText unchanged and has no control byte |
| Text.TrimCuts | managesieveserver/parser.go:29-46 | trimming removes all white space at both ends and nothing else |
| Text.Decimal | managesieveserver/conn.go:817-836 | the printed length of a literal is a digit string that denotes that length |
| Text.StripCRLF | managesieveserver/errors.go:78-83 | the result has neither CR nor LF, and a text without them is unchanged |
| Text.StripDropsOne | managesieveserver/errors.go:78-83 | a CR or LF is dropped and nothing else: the bytes around it stay, in order |
| Names.NamesAreTexts | managesieve/managesieve.go:66-79 | a byte string is accepted as a name if and only if it is the UTF-8 encoding of at least one code point and of no C0, DEL or C1 control |
| Names.SanitizedText | managesieve/managesieve.go:52-59 | sanitizing the encoding of any text turns each C0 control and DEL into a blank and leaves every other code point |
| Names.IllFormedIsReplaced | managesieve/managesieve.go:52-59 | a byte at which no encoded code point starts becomes U+FFFD |
| Parser.UnquoteString | managesieveserver/parser.go:106-130 | the escape-removing loop computes Unquote |
| Parser.UnquoteQuote | managesieveserver/parser.go:106-130 | unquoting inverts quoting for every byte string |
| Parser.QuoteSelfDelimiting | managesieveserver/parser.go:56-82 | in Quote(s) + t the quote scan stops at the last byte of Quote(s), for every t |
| Parser.ScanQuoted | managesieveserver/parser.go:56-82 | the scan with escapes finds the closing quote or reports that there is none |
| Parser.ParseTokens | managesieveserver/parser.go:48-101 | the tokenizing loop computes Tokens, an unclosed quote being the only failure |
| Parser.TokensAreTokens | managesieveserver/parser.go:48-101 | each token is a complete quoted string or a non-empty atom without blanks |
| Parser.TokensWeave | managesieveserver/parser.go:48-101 | a tokenized text is exactly its tokens interleaved with white-space-only gaps |
| Parser.TokensJoin | managesieveserver/parser.go:48-101 | tokens joined by single blanks are tokenized back to themselves |
| Parser.TokensNormalForm | managesieveserver/parser.go:48-101 | re-joining and re-tokenizing any tokenized text changes nothing |
| Parser.ParseInt64 | managesieveserver/parser.go:214-230 | accepts exactly the non-empty digit strings of value at most 2^63-1, returns the value, and never exceeds it on the way |
| Parser.MarkerRoundTrip | managesieveserver/parser.go:195-212 | literalLength inverts the printing of {N} and {N+} for every N up to 2^63-1 |
| Parser.QuotedIsNoMarker | managesieveserver/parser.go:195-212 | a quoted value is never taken for a literal marker, whatever it contains |
| Parser.MarkersAreExactly | managesieveserver/parser.go:195-230 | a token is a marker if and only if it is a text in braces, and announces n if and only if that text is digits of value n at most 2^63-1, with a plus or without |
| LineReader.Reader.ReadSlice | managesieveserver/parser.go:136-160 | bufio's ReadSlice over any segmentation and capacity: what it returns and what it leaves |
| LineReader.Reader.ReadExactly | managesieveserver/conn.go:1060-1070 | a full read returns exactly the next n bytes, or fails having consumed everything |
| LineReader.ReadBoundedLine | managesieveserver/parser.go:136-189 | for every buffer size and chunking, the result and the bytes left are those of the one-pass specification |
| LineReader.DrainLine | managesieveserver/parser.go:136-189 | dropping an over-long line consumes exactly through its line feed |
| LineReader.LineIsExactly | managesieveserver/parser.go:136-189 | a line is read if and only if the bytes start with one within the limit that ends in CRLF; when it is too long, cut off or wrongly ended is told by the bytes alone |
| Conn.Conn.constructor | managesieveserver/server.go:224-234 | a new connection is in the fresh state on the bytes of its network |
| Conn.Conn.ResolveLiteralArgs | managesieveserver/conn.go:1022-1096 | the loop over literal arguments, in place, does what ConnSpec.ResolveLiteralArgs says wherever the looks it took are foreseen |
| Conn.Conn.ReadScriptArgument | managesieveserver/conn.go:1102-1172 | content arguments are resolved, read or refused as ConnSpec.ReadScriptArgument says |
| Conn.Conn.AuthString | managesieveserver/conn.go:553-579 | a SASL response, quoted or literal, bounded before it is read |
| Conn.Conn.AuthChallenge | managesieveserver/conn.go:580-624 | the exchange after AUTHENTICATE without an initial response equals its specification, which Exchanges.ChallengeIsAnswered and Refusals.ChallengeFails tie to the client's bytes |
| Conn.Conn.PlainLogin | managesieveserver/conn.go:626-662 | decoding and splitting a PLAIN message and asking the session |
| Conn.Conn.HandleAuthenticate | managesieveserver/conn.go:526-662 | AUTHENTICATE in place equals its specification |
| Conn.Conn.Hijack | managesieveserver/conn.go:138-158 | hijacking is refused once authenticated or hijacked or when the flush fails |
| Conn.Conn.HandleStartTLS | managesieveserver/conn.go:734-797 | STARTTLS in place equals its specification for every environment that foresees its look, and switches streams only with no plaintext left in the buffer |
| Conn.Conn.HandlePutScript | managesieveserver/conn.go:838-889 | PUTSCRIPT in place equals its specification |
| Conn.Conn.HandleCheckScript | managesieveserver/conn.go:891-919 | CHECKSCRIPT in place equals its specification |
| Conn.Conn.Dispatch | managesieveserver/conn.go:395-450 | one command in place equals its specification, which Calls.CommandIsServed ties to the text of its verb |
| Conn.Conn.Iterate | managesieveserver/conn.go:174-304 | one turn of the loop in place equals its specification |
| Conn.Conn.Serve | managesieveserver/conn.go:161-305 | a whole run in place equals Serving.Serve for every environment that foresees its looks, and ends |
| Effects.ResolveEffect | managesieveserver/conn.go:1022-1096 | resolving literals consumes input and writes responses; at most one error is counted and no session call made |
| Effects.AuthenticateEffect | managesieveserver/conn.go:526-662 | AUTHENTICATE only responds, or makes one authentication call, unauthenticated and where credentials are allowed, recorded as the session answered it |
| Effects.StartTLSEffect | managesieveserver/conn.go:734-797 | STARTTLS makes no session call: it only responds, or upgrades an unauthenticated plaintext connection with an empty buffer |
| Effects.ScriptCommandEffect | managesieveserver/conn.go:424-450 | a script command only responds, or makes one script call, authenticated, and stores under checked names alone |
| Effects.DispatchEffect | managesieveserver/conn.go:395-450 | everything any command can do to a connection |
| Serving.IterateAdvances | managesieveserver/conn.go:174-304 | every turn that goes on consumes input or upgrades to TLS, so every run ends |
| Serving.TurnBudget | managesieveserver/conn.go:275-304 | a turn adds at most one error; reaching MaxErrors ends the run, with BYE unless closure or a hijack came first; Serving.HeadIsAccounted says what is counted |
| Serving.HeadBudget | managesieveserver/conn.go:1300-1303 | at every loop head fewer than MaxErrors errors, no close pending, not hijacked |
| Serving.LoopBudget | managesieveserver/conn.go:275-304 | over a whole run the error count never passes MaxErrors, and reaching it is the end of the run |
| Serving.HeadIsAccounted | managesieveserver/conn.go:1223-1233 | at every loop head of every run the error count is the number of protocol errors written, plus the logins refused and the empty passwords unless they are exempt; with a limit, fewer errors than that have been written |
| Serving.RunIsAccounted | managesieveserver/conn.go:275-304 | the same at the end of every run: at most MaxErrors protocol errors are ever written, and writing that many was the end |
| Runs.LoopEndsATurn | managesieveserver/conn.go:174-304 | the loop ends with the first turn that does not go on, and not before |
| Runs.ServeIsIntroduced | managesieveserver/conn.go:161-172 | every run begins with bytes from which a client within its limits learns the capabilities and the greeting, whatever comes behind them |
| Sync.ResolveSync | managesieveserver/conn.go:1022-1096 | client and server stay in step across inline literals, up to the last argument or a refusal |
| Sync.SlotSync | managesieveserver/conn.go:1102-1172 | at a content argument they stay in step exactly if the command does not stray there |
| Sync.DispatchSync | managesieveserver/conn.go:395-450 | after a command that leaves the connection open they are in step exactly if it does not stray |
| Sync.TurnInSync | managesieveserver/conn.go:174-304 | for clients of either rule, a turn that returns to the loop head has read exactly the client's command if and only if it does not stray |
| Sync.RunInSync | managesieveserver/conn.go:174-304 | for clients of either rule, over every run without a stray turn each loop head is where the client's next command starts |
| StrayTurns.RefusedScriptIsReadAsCommands | managesieveserver/conn.go:424-427 | before authentication, CHECKSCRIPT with any committed literal leaves the server at the script's bytes and the client behind them |
| StrayTurns.RefusedResponseIsReadAsCommands | managesieveserver/conn.go:530-549 | AUTHENTICATE where it is not possible leaves the server at the bytes of a committed initial response |
| StrayTurns.SecondLiteralIsReadAsCommands | managesieveserver/conn.go:1140-1172 | a second literal committed behind the content is dropped with its line and its body read as commands |
| StrayTurns.InnerMarkerTakesCommands | managesieveserver/conn.go:891-919 | a content marker that is not the last argument takes its bytes from the commands that follow |
| StrayTurns.UnsentResponseTakesCommands | managesieveserver/conn.go:553-579 | AUTHENTICATE with {N}, from a client that waits to be asked, takes its bytes from what follows |
| Framing.LineParses | managesieveserver/parser.go:29-46 | a line of a verb in any letter case and tokens is parsed into the upper-case verb and those tokens |
| Framing.VerbIsNamed | managesieveserver/conn.go:395-450 | for each of the fourteen verbs, a text is dispatched to it if and only if it is its name in some letter case |
| Framing.AnyLetterCase | managesieveserver/parser.go:29-46 | a verb has a name if and only if it has the same letters but for their case |
| Framing.ContentIsLimited | managesieveserver/conn.go:1004-1135 | content in a literal is admissible if and only if it is within MaxScriptSize, or MaxAuthLiteral for a response, however short lines have to be |
| Framing.CommandResolves | managesieveserver/conn.go:1022-1096 | a framed command is read and resolved up to the literal its handler reads itself |
| Framing.ArgumentRead | managesieveserver/conn.go:1102-1172 | a handler's own argument comes out as its value however it was framed |
| Framing.CommandRoundTrip | managesieveserver/conn.go:1022-1172 | for every mixture of framings the reader returns the verb and all values and stops at the next command |
| Framing.StreamRoundTrip | managesieveserver/conn.go:1022-1172 | a stream of encoded commands is read back as exactly that list, verbs in upper case, with no byte left over |
| Framing.EncodedEnds | managesieveserver/conn.go:1022-1096 | by the client's own commitments too, under either rule, an encoded command ends where its encoding does |
| TraceSafety.LoopTracked | managesieveserver/conn.go:174-304 | the loop keeps the flags in line with the session's history, and the history safe |
| TraceSafety.ServeIsSafe | managesieveserver/conn.go:161-305 | every run: scripts only after login and stored only under checked names, one login at most, credentials only where allowed, STARTTLS only before, nothing after Hijack but one Close |
| Responses.ItemIsClean | managesieveserver/conn.go:1188-1270 | whatever a session supplies, each response is one line that no reader splits or takes for a literal |
| Responses.ResponsesRoundTrip | managesieveserver/conn.go:1188-1270 | reading rendered responses as lines and literals gives back exactly those responses |
| Responses.ListLineRoundTrip | managesieveserver/conn.go:801-815 | a name the server accepts comes back from its LISTSCRIPTS line unchanged, with its active flag |
| Responses.ListReplyRoundTrip | managesieveserver/conn.go:801-815 | the bytes of a whole LISTSCRIPTS reply decode to exactly the list, in order, and OK |
| Responses.ServeIsUnambiguous | managesieveserver/conn.go:161-305 | the output of every run is read back as exactly the responses of that run |
| Verdicts.ItemTells | managesieveserver/conn.go:1188-1207 | whatever texts a session supplies, each refusal is a NO, each success an OK and each farewell a BYE to a client, and none is two of these |
| Verdicts.ItemIsData | managesieveclient/client.go:476-491 | list lines, capabilities, go-aheads and challenges are no status at all |
| Verdicts.CodedIsRead | managesieveserver/errors.go:64-83 | a refusal with a code is read back as that code in upper case and the sanitized message |
| Verdicts.SizeIsRead | managesieveserver/conn.go:1176-1184 | an over-long script is refused under QUOTA/MAXSIZE with its size and the limit |
| Verdicts.FaultIsRead | managesieveserver/conn.go:1223-1233 | a protocol error is read back as its message |
| Verdicts.WarningsAreRead | managesieveserver/conn.go:838-889 | warnings are read back, sanitized |
| Verdicts.TagIsRead | managesieveserver/conn.go:413-420 | NOOP echoes its tag, sanitized |
| Outcomes.AnswerIsRead | managesieveserver/conn.go:801-1000 | the answer to any call is read as one verdict, last, and what it carries: list, content, warnings, or the refusal with its code and text |
| Outcomes.ServedIsRead | managesieveserver/conn.go:275-304 | whatever a turn made of a command, a client that reads its bytes understands exactly that, and BYE if and only if the errors are exhausted |
| Segmentation.ResolveSame | managesieveserver/conn.go:1048 | literal resolution looks at the buffer exactly if it meets an over-limit literal it would have to ask for; otherwise what a look finds is irrelevant |
| Segmentation.IterateSame | managesieveserver/conn.go:757 | a turn looks at the buffer once or not at all, and exactly if it gets to start TLS or refuses, for its size, a literal it has not asked for |
| Segmentation.ServeSame | managesieveserver/conn.go:161-305 | a run in which no command looks takes no look, and is the same whatever one would have found |
| Segmentation.ServeBoth | managesieveserver/conn.go:161-305 | the same bytes in other segments and through other buffer sizes give the same state, output, session calls and looks, unless a look both took found different things; if no command looks, always |
| ScriptList.ActivateRefines | managesievemem/store.go:246-299 | switching the active flag on a list is switching the active name of the ordered map it stands for |
| ScriptList.PutRefines | managesievemem/store.go:203-230 | a stored, replaced or refused script on a list is the same on the map |
| ScriptList.DeleteRefines | managesievemem/store.go:303-323 | deletion from a list, refused while active, is the same on the map |
| ScriptList.RenameRefines | managesievemem/store.go:325-343 | renaming in a list is the same on the map, the active name moving along |
| ScriptList.SeedRefines | managesievemem/store.go:61-80 | AddScript on a list is the same on the map |
| ScriptList.AbstractRepresents | managesievemem/store.go:28-46 | every list with unique names and at most one active script stands for an ordered map |
| ScriptList.HaveSpaceAgrees | managesievemem/store.go:345-356 | HaveSpace answers OK exactly when PutScript would not be refused for quota |
| ScriptList.PutKeepsQuota | managesievemem/store.go:203-230 | PutScript never takes the count past MaxScripts |
| Accounts.RunWellFormed | managesievemem/store.go:181-356 | in every interleaving names stay unique and at most one script is active |
| Accounts.RunValidated | managesievemem/store.go:203-299 | in every interleaving of vetted steps every stored script, hence the active one, passes the hook |
| Accounts.EarlyAnswerIsAtomic | managesievemem/store.go:261-285 | a SETACTIVE that ends at its snapshot answers what an atomic call there would |
| Accounts.LateAnswerIsAtomic | managesievemem/store.go:286-299 | a SETACTIVE that reaches its switch is atomic there if and only if the content is then valid |
| Accounts.SetActiveIsAtomic | managesievemem/store.go:246-299 | hence SETACTIVE is atomic in every interleaving of vetted steps |
| Accounts.NextKeepsQuota | managesievemem/store.go:203-230 | no step but seeding takes an account past MaxScripts |
| Accounts.RunKeepsQuota | managesievemem/store.go:203-230 | in every interleaving without seeding an account within its quota stays within it |
| Accounts.RunRefines | managesievemem/store.go:164-356 | in every interleaving the lists stand for the ordered maps the same steps produce, and every caller gets the maps' answers |
| Linearization.RunLinearizes | managesievemem/store.go:246-299 | every interleaving of vetted steps has the accounts and the answers, in order, of a run in which every SETACTIVE is one step |
| Linearization.UnvettedIsActivated | managesievemem/store.go:261-299 | rejected content seeded between the two critical sections of a SETACTIVE ends up active |
| Linearization.UnvettedIsNotLinear | managesievemem/store.go:261-299 | no order of that seeding and an atomic SETACTIVE gives the same |
| Store.Account.Put | managesievemem/store.go:203-230 | the in-place loop over script records does what ScriptList.Put does |
| Store.Account.Delete | managesievemem/store.go:303-323 | in-place removal does what ScriptList.Delete does |
| Store.Account.Rename | managesievemem/store.go:325-343 | renaming in place does what ScriptList.Rename does |
| Store.Store.PutScript | managesievemem/store.go:196-230 | the store changes as Accounts.PutScript says, and no other account |
| Store.Store.Snapshot | managesievemem/store.go:261-275 | the first critical section of SETACTIVE reads what Accounts.Snapshot says |
| Store.Store.Switch | managesievemem/store.go:286-299 | the second critical section of SETACTIVE does what Accounts.Switch says |
| Store.Store.SetActive | managesievemem/store.go:246-299 | uninterrupted, both phases together do what one atomic step does |
| Store.Store.AddScript | managesievemem/store.go:61-80 | seeding changes the store as specified |
| Calls.CommandIsServed | managesieveserver/conn.go:174-304 | every command that ends with its own turn, by the text of its verb, in every state and any mixture of framings: exactly the events, responses, go-aheads, counted errors and closure it calls for, and the next command starts where the client starts it unless a committed literal was refused unheard |
| Calls.CommandIsRead | managesieveserver/conn.go:174-304 | a client reads the bytes of such a turn as exactly what the command came to |
| Calls.ScriptCommandIsServed | managesieveserver/conn.go:801-1000 | every script command with string arguments, by the text of its verb and in any framing, asks the session exactly the call its values stand for, or nothing and ends in the complaint they deserve; the client reads which |
| Calls.LoginIsTried | managesieveserver/conn.go:689-722 | LOGIN in any framing passes on the user name and the password, in that order, and the client reads the session's verdict |
| Calls.PlainMessageRoundTrip | managesieveserver/conn.go:633-639 | splitting a PLAIN message at NUL recovers its three fields in order |
| Calls.ThreeFieldsArePlain | managesieveserver/conn.go:633-639 | a message splits into three fields only if it is the PLAIN message of them |
| Calls.PlainIsWanted | managesieveserver/conn.go:626-652 | a response is tried with three fields if and only if it decodes to their PLAIN message and the password is not empty |
| Calls.PlainIsTried | managesieveserver/conn.go:526-662 | AUTHENTICATE PLAIN with an initial response in any framing passes on the three fields of its message, and the client reads the session's verdict |
| Exchanges.HaveSpaceIsServed | managesieveserver/conn.go:921-942 | from the bytes of HAVESPACE, its name in any framing and its size any bare word: a size an int64 holds reaches the session as written or is refused for its size, anything else is no size |
| Exchanges.DecimalIsWanted | managesieveserver/conn.go:921-942 | a size printed in decimal is the size the session is asked about |
| Exchanges.ChallengeIsAnswered | managesieveserver/conn.go:580-624 | the answer to a challenge, quoted, {N}, {N+} or bare, with white space around it or not, is tried as the same initial response would be; * makes no call, costs nothing and is answered as cancelled; the next command starts behind it |
| Exchanges.AnswerIsTried | managesieveserver/conn.go:626-662 | the session is asked about three fields if and only if the answer's value decodes to their PLAIN message, the password not empty |
| Exchanges.StartTLSIsAnswered | managesieveserver/conn.go:734-797 | STARTTLS with anything buffered behind it is refused and ends the connection; otherwise the connection goes on over the new stream, as it was but for TLS, with the capabilities announced again |
| Exchanges.UpgradeIsRead | managesieveserver/conn.go:762-796 | a client reads OK in the clear and nothing behind it, and over TLS the capabilities that hold there and the greeting |
| Refusals.InlineIsRefused | managesieveserver/conn.go:1035-1052 | an argument literal without a length or over the line limit costs one error; the connection goes on behind the line exactly where the body can still be held back |
| Refusals.ContentIsRefused | managesieveserver/conn.go:1102-1135 | a script over the limit by its announced length is refused unread under QUOTA/MAXSIZE at no cost, a malformed length at the cost of one error, with the same rule for going on |
| Refusals.ResponseIsRefused | managesieveserver/conn.go:550-568 | an initial response over MaxAuthLiteral or of no length costs one error and ends the connection |
| Refusals.InlineIsCut | managesieveserver/conn.go:1064-1084 | an argument literal that never arrives is told as such and ends the connection, and no command is run |
| Refusals.ContentIsCut | managesieveserver/conn.go:1136-1172 | a script that never arrives likewise |
| Refusals.ResponseIsCut | managesieveserver/conn.go:668-687 | a response that never arrives likewise |
| Refusals.ChallengeFails | managesieveserver/conn.go:586-620 | a challenge without an answer, or with one too long or cut short, ends the connection |
| Refusals.UnclosedIsRefused | managesieveserver/conn.go:231-246 | a line whose last quote never closes, whatever is quoted before it, costs one error, and the connection goes on behind it |
| Refusals.BlankIsSkipped | managesieveserver/conn.go:225-228 | a blank line changes nothing but the read position |
| Refusals.EndIsTold | managesieveserver/conn.go:174-223 | where the bytes left hold no line within the limit, the run ends with the one line that says why: too long, not ended by CRLF, timed out or shutting down; or with none where the client is gone |
| Refusals.DoneIsDone | managesieveserver/conn.go:174-182 | once its context is done a connection says BYE and takes nothing more of what was sent |
| StoreSession.LoginIsChecked | managesievemem/store.go:125-156 | a login is granted if and only if the account exists, the password has its digest and no other identity is asked for; the session is then that user's, otherwise nothing changes and only the failure is told |
| StoreSession.AnswerIsStep | managesievemem/store.go:164-356 | every script call changes the accounts as its step of the store does and is answered as that step is |
| StoreSession.AnswerIsMaps | managesievemem/store.go:164-356 | the answer to every script call, and what becomes of the accounts, are those of the ordered maps they stand for |
| StoreSession.CheckAsksHost | managesievemem/store.go:233-244 | CHECKSCRIPT passes on what the host's hook says and changes nothing |
| EndToEnd.CommandIsStored | managesieveserver/conn.go:801-1000 | every script command, from its bytes in any framing: the store becomes what the call makes of it, the client reads the store's answer, and the connection goes on unless the answer closes it |
| EndToEnd.CommandIsMaps | managesievemem/store.go:164-356 | what a client reads, and what becomes of every account, are those of the ordered maps, from bytes to bytes |
| EndToEnd.SpaceIsStored | managesieveserver/conn.go:921-942 | HAVESPACE likewise |
| EndToEnd.ValidationIsRead | managesievemem/store.go:372-380 | a client reads why the host rejected a script, without control bytes |
| EndToEnd.LoginIsGranted | managesieveserver/conn.go:689-722 | LOGIN against the store lets in exactly the owner of the account, and the client reads OK or that authentication failed and nothing about why |
| EndToEnd.PlainIsGranted | managesieveserver/conn.go:526-662 | AUTHENTICATE PLAIN with an initial response likewise |
| EndToEnd.PutStores | managesieveserver/conn.go:838-889 | a PUTSCRIPT of an admissible name and size, in any framing: the client reads OK if and only if the store keeps it, and the account then holds that content under that name |
| EndToEnd.GetReturns | managesieveserver/conn.go:817-836 | a GETSCRIPT in any framing is read as the stored content and OK, and as NO if and only if there is none |
| EndToEnd.WhatIsPutIsGot | managesieveserver/conn.go:817-889 | the bytes of a PUTSCRIPT and then a GETSCRIPT produce a reply that reads as exactly the uploaded content |
| Histories.HeadHistory | managesieveserver/conn.go:174-304 | at every loop head the history is safe, agrees with the flags, and records each call as the session answered it |
| Logins.ReplayKeepsOwners | managesievemem/store.go:164-356 | over every run no command adds an account, removes one or changes a password |
| Logins.LoggedInIsKnown | managesievemem/store.go:125-156 | the user of an authenticated connection has an account, and the history holds the call that logged in under that name with that account's password |
| Logins.HeadIsOwned | managesievemem/store.go:125-156 | so at any loop head of any run against the store |
| Listing.ReplayKeepsNames | managesieveserver/conn.go:838-968 | over every run only names ValidateScriptName admits are stored through the server |
| Listing.StoredListIsListed | managesieveserver/conn.go:801-815 | at any loop head of any run LISTSCRIPTS, in any letter case, is read by an authenticated client as exactly its account's names in order and the active one |
| Client.FindClosingQuote | managesieveclient/client.go:409-424 | the client's scan stops at the same quote as the server's, and finds none in the empty string |
| Client.Client.ReadPiece | managesieveclient/client.go:457-474 | bufio's ReadLine: pieces of a line that never split a CRLF |
| Client.Client.ReadLine | managesieveclient/client.go:457-474 | a complete line is returned without its end, or is too long, for every buffering and whatever follows it |
| Client.Client.ReadCapabilityBlock | managesieveclient/client.go:354-377 | reads what ReadBlock says within maxCaps lines, whatever follows the listing, and replaces the stored map only when it ends in OK |
| Client.CapabilityLineRoundTrip | managesieveclient/client.go:381-405 | a capability line gives back its name and value, whatever bytes they hold |
| Client.QuotedIsNoStatus | managesieveclient/client.go:485-491 | no capability line is mistaken for a status |
| Client.LastListingWins | managesieveclient/client.go:370-374 | of several listings of a name, in any letter case, the last counts |
| Client.UnlistedIsKept | managesieveclient/client.go:370-374 | a name that is not listed, and the empty name, teach nothing |
| Client.GreetingRoundTrip | managesieveserver/conn.go:480-522 | a client within its limits learns from a server's greeting exactly the advertised capabilities and the greeting line |
| Client.ListingRoundTrip | managesieveclient/client.go:354-377 | whatever status ends a server's listing, a client within its limits reads the capabilities and that status, and rejects the listing if it is no OK |
| Client.LongListingIsRefused | managesieveclient/client.go:356-360 | a listing of more lines than maxCaps is given up |
| Advertising.ListingTeaches | managesieveserver/conn.go:480-510 | name by name, unless the operator takes the name: implementation, version and extensions, SASL PLAIN exactly where credentials are accepted, STARTTLS exactly where it would be obeyed, MAXSCRIPTSIZE exactly where there is a limit, and nothing else |
| Advertising.ExtensionsRoundTrip | managesieveserver/conn.go:485 | splitting the SIEVE value at blanks gives the extensions in order |
| Advertising.ReplyTeaches | managesieveserver/conn.go:397-399 | the reply to CAPABILITY teaches what the greeting does |
| Deadlines.Guarded.SetReadDeadline | managesieveserver/conn.go:311-318 | the read deadline becomes the given one unless poisoned, and a poisoned one stays expired; the write deadline is untouched |
| Deadlines.Guarded.SetDeadline | managesieveserver/conn.go:322-329 | both deadlines become the given one unless poisoned; poisoned, reads stay expired and the write deadline is untouched |
| Deadlines.Guarded.ForceReadUnblock | managesieveserver/conn.go:338-343 | poisons and expires the read deadline, leaving writes alone |
| Deadlines.Registry.Close | managesieveserver/server.go:150-169 | cancels, and expires the reads of every owned connection and of no other |
| Shutdown.WalkReachesEveryone | managesieveserver/server.go:150-169 | after a walk each owned connection is poisoned with its reads expired, or has yet to look at the cancelled context |
| Shutdown.PoisonIsPermanent | managesieveserver/conn.go:311-343 | a poisoned connection's read deadline stays expired through every later arm, clear and hijack |
| Shutdown.OneLateCommand | managesieveserver/conn.go:174-182 | once its context is done a connection dispatches at most one more command |
| Shutdown.HijackIsFinal | managesieveserver/conn.go:138-158 | once unregistered by Hijack a connection's deadlines never change again, and are clear unless a walk came first |
| Shutdown.NobodyIsStuck | managesieveserver/server.go:150-169 | after a walk each connection can go on without its client, or a walk that can go on holds the mutex |
| Shutdown.OnlyTheWalkUnblocks | managesieveserver/server.go:158-163 | a blocked read without an expired deadline is moved by the walk alone |
| Shutdown.LeavesInFewSteps | managesieveserver/conn.go:161-305 | with its context done a connection takes at most 14 more steps, reads within a command aside |
| ClientGuard.StopIsFinal | managesieveclient/client.go:257-290 | in every interleaving, once stop has returned its guard neither poisons nor touches a deadline |
| ClientGuard.StopWaitsForPoke | managesieveclient/client.go:257-290 | a poke that has set the flag has landed by the time stop returns |
| ClientGuard.PoisonLasts | managesieveclient/client.go:295-320 | after a poke no arm changes a deadline: both are expired if and only if neither a TLS handshake nor SetDeadline has revived them since they last were |
| ClientGuard.HandshakeRevives | managesieveclient/client.go:332-338 | a handshake after a cancelled operation does give a poisoned connection live deadlines |
| ClientGuard.SetDeadlineRevives | managesieveclient/client.go:185-187 | so does SetDeadline, without any handshake, for every deadline that has not passed and for none at all |

## Left out

- Sockets, the TLS handshake, clocks and write-deadline wrapping: a handshake yields another stream or fails, a read ends in end of file, a timeout or a failure, a flush succeeds or fails, a deadline is unset, set or past. Shutdown and ClientGuard have deadlines, ConnSpec and Conn have not.
- Buffered writing: output is the list of responses written; a full write buffer that flushes early is not modelled, and neither is a partial write.
- Logging, lastErr, command durations, the OnCommand, OnTimeout and OnPanic hooks, panic recovery, the error delay, the accept loop and its back-off, and the rejection path of NewSession: observability and plumbing.
- UnknownCommandHandler and SetTLS: arbitrary host code; commands the library does not know are answered as unknown.
- CommandTimeout: a session call may fail for any reason, so a timeout inside one is an error reply.
- base64 and SHA-256: base64 decoding is an arbitrary partial function, and equal digests stand for equal passwords.
- The allocation of literal bodies: reading N bytes is one operation that succeeds or consumes what is there; the initial size of the content buffer is not modelled.
- Infinite streams: a stream is finite and then ends, which covers every finite prefix of a conversation.
- Unicode white space and letter case beyond ASCII.
- Client.Client.ReadLine: says nothing of a line whose line feed never comes; there bufio's answer depends on how full the buffer was.
- Client.Client.ReadCapabilityBlock: for the same reason, says what is read only for listings whose lines are complete.
- Conn.Conn.Hijack: the flags, the history and the flush; clearing the deadlines and leaving the server's set are in Shutdown, and the reader handed over is the connection's own.
- Text.TrimCuts: ASCII white space only.
- Calls.ScriptCommandIsServed: takes arguments that are strings, with which HAVESPACE is always refused; its bare size is in Exchanges.HaveSpaceIsServed.
- Calls.CommandIsServed: takes every flush to succeed and the context not to be done; Refusals.DoneIsDone has a context that is, and Conn.Conn.Iterate follows flushes that fail.
- Exchanges.ChallengeIsAnswered: an answer in quotes is one that quoting prints; needless escapes within quotes are in Parser.UnquoteString alone.
- Refusals.InlineIsRefused: the refused literal is on the command's first line; behind an inline literal ConnSpec.ResolveLiteralArgs does the same.
- Logins.LoggedInIsKnown: passwords are told apart by their digests alone.
- Listing.StoredListIsListed: the accounts start with names the library accepts; AddScript does not check names.
- ClientGuard.PoisonLasts: what a caller does to the socket that `Client.Conn` hands out is not modelled.
- EndToEnd.WhatIsPutIsGot: between the two commands no other session touches the account; Accounts has the interleavings.
- Store.Store.SetActive: the lock is not held between its phases in the source; this method runs them back to back, and Accounts and Linearization allow anything between them.
- Shutdown.NobodyIsStuck: a session method is taken to return once its context is cancelled, and sockets to fail a read whose deadline has passed.
- managesieve/extensions.go, option defaults, the client's Dial, AuthenticatePlain and Logout: they would only add easy members.
