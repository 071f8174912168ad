/**
  What a connection does, as functions on its whole state
  (managesieveserver/conn.go). Class Conn.Conn performs the same steps in
  place and is proved equal to these functions.
 */
module ConnSpec {
  import opened Text
  import opened Parser
  import opened LineReader
  import opened Protocol

  datatype Ticks = Ticks(flushes: nat, looks: nat, peeks: nat)

  datatype State = State(
    authenticated: bool,
    isTLS: bool,
    errorCount: nat,
    closePending: bool,
    hijacked: bool,
    input: Stream,
    output: seq<Item>,
    trace: seq<Event>,
    ticks: Ticks)

  // ---------------------------------------------------------------------
  // Writing

  function Write(st: State, item: Item): State {
    st.(output := st.output + [item])
  }

  function WriteAll(st: State, items: seq<Item>): State {
    st.(output := st.output + items)
  }

  function SayTo(st: State, phrase: Phrase): State {
    Write(st, Say(phrase))
  }

  function Flush(env: Env, st: State): (State, bool) {
    (st.(ticks := st.ticks.(flushes := st.ticks.flushes + 1)), env.flushOk(st.ticks.flushes))
  }

  function ClientError(st: State, fault: Fault): State {
    Write(st.(errorCount := st.errorCount + 1), Fail(fault))
  }

  function RequestClose(st: State): State {
    st.(closePending := true)
  }

  function ReportError(env: Env, st: State, e: SessionError): State {
    match e
    case Coded(code, message, close) =>
      var s := Write(st, DenyCoded(code, message));
      if close then RequestClose(s) else s
    case CloseConnection => RequestClose(SayTo(st, NoInternal))
    case Plain(text) => if env.options.strictSessionErrors then SayTo(st, NoInternal) else Write(st, Deny(text))
  }

  /** A refused login counts as an error, unless the operator exempts it. */
  function CountRefusal(env: Env, st: State): State {
    if env.options.authFailuresExempt then st else st.(errorCount := st.errorCount + 1)
  }

  function AuthFailure(env: Env, st: State, e: SessionError): State {
    ReportError(env, CountRefusal(env, st), e)
  }

  function QuotaMaxSize(env: Env, st: State, size: nat): State
    requires env.options.maxScriptSize > 0
  {
    Write(st, DenySize(size, env.options.maxScriptSize))
  }

  function AdvertisedAll(caps: seq<Capability>): seq<Item> {
    seq(|caps|, i requires 0 <= i < |caps| => Advertised(caps[i]))
  }

  function SendCapabilityBlock(env: Env, st: State): State {
    WriteAll(st, AdvertisedAll(Capabilities(env.options, st.isTLS)))
  }

  function SendGreeting(env: Env, st: State): State {
    Write(SendCapabilityBlock(env, st),
          Greeting(env.options.greetingStartTLSHint && StartTLSAvailable(env.options, st.isTLS), env.options.greeting))
  }

  // ---------------------------------------------------------------------
  // Reading

  function ReadLine(env: Env, st: State): (r: (State, LineResult))
    ensures |r.0.input.data| <= |st.input.data| && (r.1.Line? ==> |r.0.input.data| < |st.input.data|)
  {
    (st.(input := AfterLine(st.input)), FirstLine(st.input, env.options.maxLineLength))
  }

  /** A literal body of n bytes and the rest of its line. */
  function ReadLiteral(env: Env, st: State, n: nat): (r: (State, Option<(string, string)>))
    ensures |r.0.input.data| <= |st.input.data| && (r.1.Some? ==> |r.0.input.data| < |st.input.data|)
  {
    if n > |st.input.data| then (st.(input := st.input.(data := "")), None)
    else
      var (s, line) := ReadLine(env, st.(input := st.input.(data := st.input.data[n..])));
      (s, if line.Line? then Some((st.input.data[..n], line.text)) else None)
  }

  function PeekBuffered(env: Env, st: State): (State, bool) {
    (st.(ticks := st.ticks.(peeks := st.ticks.peeks + 1)), env.buffered(st.ticks.peeks))
  }

  /** After refusing a literal unread: a committed body leaves nothing to resume. */
  function RefuseLiteral(env: Env, st: State, nonSync: bool): State {
    if nonSync then RequestClose(st)
    else
      var (s, pending) := PeekBuffered(env, st);
      if pending then RequestClose(s) else s
  }

  /** The `+` that asks for the body of a synchronizing literal. */
  function GoAhead(env: Env, st: State, nonSync: bool): (State, bool) {
    if nonSync then (st, true) else Flush(env, SayTo(st, Plus))
  }

  /** Asks for a literal where it must, and reads it; a failure is answered and closes. */
  function FetchLiteral(env: Env, st: State, n: nat, nonSync: bool,
      failure: Phrase): (r: (State, Option<(string, string)>))
    ensures |r.0.input.data| <= |st.input.data| && (r.1.Some? ==> |r.0.input.data| < |st.input.data|)
  {
    var (s1, go) := GoAhead(env, st, nonSync);
    if !go then (RequestClose(s1), None)
    else
      var (s2, body) := ReadLiteral(env, s1, n);
      (if body == None then RequestClose(SayTo(s2, failure)) else s2, body)
  }

  predicate LiteralDeferred(verb: Verb, idx: nat) {
    match verb
    case PUTSCRIPT => idx == 1
    case AUTHENTICATE => idx == 1
    case CHECKSCRIPT => idx == 0
    case _ => false
  }

  function ResolveLiteralArgs(env: Env, st: State, verb: Verb, args: seq<string>): (r: (State, Option<seq<string>>))
    decreases |st.input.data|
  {
    if args == [] then (st, Some(args))
    else
      var idx := |args| - 1;
      var marker := LiteralLength(args[idx]);
      if marker.NotLiteral? || LiteralDeferred(verb, idx) then (st, Some(args))
      else if marker.BadLength? then
        var s := ClientError(st, BadLiteralLength);
        (if marker.nonSync then RequestClose(s) else s, None)
      else if marker.length > env.options.maxLineLength then
        (RefuseLiteral(env, ClientError(st, LiteralTooLarge), marker.nonSync), None)
      else
        var (s, body) := FetchLiteral(env, st, marker.length, marker.nonSync, NoLiteralArgument);
        if body == None then (s, None)
        else
          match Tokens(Trim(body.value.1))
          case None => (ClientError(s, BadSyntax), None)
          case Some(more) => ResolveLiteralArgs(env, s, verb, args[idx := Quote(body.value.0)] + more)
  }

  lemma ResolveNothing(env: Env, st: State, verb: Verb)
    ensures ResolveLiteralArgs(env, st, verb, []) == (st, Some([]))
  {
  }

  /** One round of ResolveLiteralArgs. */
  lemma ResolveRound(env: Env, st: State, verb: Verb, args: seq<string>, idx: nat, marker: Marker)
    requires args != [] && idx == |args| - 1 && marker == LiteralLength(args[idx])
    ensures var r := ResolveLiteralArgs(env, st, verb, args);
            if marker.NotLiteral? || LiteralDeferred(verb, idx) then r == (st, Some(args))
            else if marker.BadLength? then
              var s := ClientError(st, BadLiteralLength);
              r == (if marker.nonSync then RequestClose(s) else s, None)
            else if marker.length > env.options.maxLineLength then
              r == (RefuseLiteral(env, ClientError(st, LiteralTooLarge), marker.nonSync), None)
            else
              var (s, body) := FetchLiteral(env, st, marker.length, marker.nonSync, NoLiteralArgument);
              if body == None then r == (s, None)
              else
                var more := Tokens(Trim(body.value.1));
                if more == None then r == (ClientError(s, BadSyntax), None)
                else r == ResolveLiteralArgs(env, s, verb, args[idx := Quote(body.value.0)] + more.value)
  {
    hide LiteralLength, Tokens, Trim, Quote, FetchLiteral, RefuseLiteral, ClientError;
  }

  function ReadScriptArgument(env: Env, st: State, arg: string): (r: (State, Option<string>))
  {
    var marker := LiteralLength(arg);
    if marker.NotLiteral? then (st, Some(Unquote(arg)))
    else if marker.BadLength? then
      var s := ClientError(st, BadLiteralLength);
      (if marker.nonSync then RequestClose(s) else s, None)
    else if 0 < env.options.maxScriptSize < marker.length then
      (RefuseLiteral(env, QuotaMaxSize(env, st, marker.length), marker.nonSync), None)
    else
      var (s, body) := FetchLiteral(env, st, marker.length, marker.nonSync, NoLiteralContent);
      (s, if body == None then None else Some(body.value.0))
  }

  // ---------------------------------------------------------------------
  // Authentication

  function CallSession(env: Env, st: State, call: Call): (State, Reply) {
    var reply := env.session(st.trace, call);
    (st.(trace := st.trace + [Called(call, reply.error.None?)]), reply)
  }

  /** Conn.Hijack: refused once authenticated or hijacked, or when the flush fails. */
  function Hijack(env: Env, st: State): State {
    if st.authenticated || st.hijacked then st
    else
      var (s, ok) := Flush(env, st);
      if ok then s.(hijacked := true, trace := s.trace + [Hijacked]) else s
  }

  /** AuthenticatePlain and Login, during which the session may hijack the connection. */
  function CallAuth(env: Env, st: State, call: Call): State {
    var (s1, reply) := CallSession(env, st, call);
    var s2 := if reply.hijack then Hijack(env, s1) else s1;
    if reply.error.Some? then AuthFailure(env, s2, reply.error.value)
    else if s2.hijacked then s2
    else SayTo(s2.(authenticated := true), OkAuthenticated)
  }

  /** A SASL response, quoted or literal; its literals are committed in both forms. */
  function AuthString(env: Env, st: State, arg: string): (r: (State, Option<string>))
  {
    var marker := LiteralLength(arg);
    if marker.NotLiteral? then (st, Some(Unquote(arg)))
    else if marker.BadLength? || marker.length > env.options.maxAuthLiteral then
      (RequestClose(ClientError(st, BadLiteralSize)), None)
    else
      var (s, body) := FetchLiteral(env, st, marker.length, true, NoAuthFailed);
      (s, if body == None then None else Some(body.value.0))
  }

  /** The exchange after AUTHENTICATE without an initial response. */
  function AuthChallenge(env: Env, st: State): (r: (State, Option<string>))
  {
    var (s1, ok) := Flush(env, SayTo(st, Challenge));
    if !ok then (RequestClose(s1), None)
    else
      var (s2, line) := ReadLine(env, s1);
      if line.NoLine? then (RequestClose(SayTo(s2, NoAuthFailed)), None)
      else
        var data := Trim(line.text);
        if data == "*" then (SayTo(s2, NoAuthCancelled), None)
        else AuthString(env, s2, data)
  }

  function SplitOn(s: string, c: char): (parts: seq<string>)
    ensures parts != []
    decreases |s|
  {
    var i := IndexOf(s, c);
    if i == |s| then [s] else [s[..i]] + SplitOn(s[i + 1..], c)
  }

  /** The PLAIN message (section 2 of RFC 4616): authzid NUL authcid NUL password. */
  function PlainLogin(env: Env, st: State, data: string): State {
    match env.decodeBase64(data)
    case None => ClientError(st, BadAuthData)
    case Some(message) =>
      var parts := SplitOn(message, '\U{00}');
      if |parts| != 3 then ClientError(st, BadAuthFormat)
      else if parts[2] == "" then SayTo(CountRefusal(env, st), NoEmptyPassword)
      else CallAuth(env, st, AuthenticatePlain(parts[0], parts[1], parts[2]))
  }

  function HandleAuthenticate(env: Env, st: State, args: seq<string>): (r: State)
  {
    if st.authenticated then ClientError(st, AlreadyAuthenticated)
    else if args == [] then ClientError(st, AuthSyntax)
    else if !AuthAllowed(env.options, st.isTLS) then
      ClientError(st, AuthInsecure)
    else if ToUpper(Unquote(args[0])) != "PLAIN" then ClientError(st, BadMechanism)
    else
      var (s, data) := if |args| > 1 then AuthString(env, st, args[1]) else AuthChallenge(env, st);
      if data == None then s else PlainLogin(env, s, data.value)
  }

  function HandleLogin(env: Env, st: State, args: seq<string>): State {
    if st.authenticated then ClientError(st, AlreadyAuthenticated)
    else if !AuthAllowed(env.options, st.isTLS) then
      ClientError(st, AuthInsecure)
    else if |args| < 2 then ClientError(st, LoginSyntax)
    else CallAuth(env, st, Login(Unquote(args[0]), Unquote(args[1])))
  }

  /** The handshake, and the greeting again over the new stream. */
  function BeginTLS(env: Env, st: State): (State, bool) {
    var (s, ok) := Flush(env, SayTo(st, OkBeginTLS));
    if !ok || env.tls == None then (s, true)
    else (SendGreeting(env, s.(isTLS := true, input := env.tls.value, trace := s.trace + [TLSStarted])), false)
  }

  /** STARTTLS; the flag tells the loop to quit. */
  function HandleStartTLS(env: Env, st: State): (r: (State, bool))
  {
    if !env.options.tlsConfigured then (ClientError(st, TLSUnsupported), false)
    else if st.isTLS then (ClientError(st, TLSActive), false)
    else if st.authenticated then (ClientError(st, TLSAfterAuth), false)
    else
      var (s1, pipelined) := PeekBuffered(env, st);
      if pipelined then (SayTo(s1, NoPipelinedTLS), true) else BeginTLS(env, s1)
  }

  // ---------------------------------------------------------------------
  // Script commands

  function Name(arg: string): string {
    Trim(Unquote(arg))
  }

  /** Runs a session method whose only success response is one line. */
  function CallForLine(env: Env, st: State, call: Call, phrase: Phrase): State {
    var (s, reply) := CallSession(env, st, call);
    if reply.error.Some? then ReportError(env, s, reply.error.value) else SayTo(s, phrase)
  }

  function ListItems(scripts: seq<ScriptInfo>): seq<Item> {
    seq(|scripts|, i requires 0 <= i < |scripts| => Listed(scripts[i]))
  }

  function HandleListScripts(env: Env, st: State): State {
    var (s, reply) := CallSession(env, st, ListScripts);
    if reply.error.Some? then ReportError(env, s, reply.error.value)
    else SayTo(WriteAll(s, ListItems(reply.scripts)), OkBare)
  }

  function HandleGetScript(env: Env, st: State, args: seq<string>): State {
    if args == [] then ClientError(st, GetSyntax)
    else
      var (s, reply) := CallSession(env, st, GetScript(Name(args[0])));
      if reply.error.Some? then ReportError(env, s, reply.error.value)
      else SayTo(Write(s, Blob(reply.text)), OkBare)
  }

  function PutResponse(reply: Reply): Item {
    if reply.warnings != "" then Warnings(reply.warnings)
    else if reply.updated then Say(OkUpdated)
    else Say(OkStored)
  }

  function HandlePutScript(env: Env, st: State, args: seq<string>): (r: State)
  {
    if |args| < 2 then ClientError(st, PutSyntax)
    else
      var (s1, content) := ReadScriptArgument(env, st, args[1]);
      if content == None then s1
      else
        var name := Name(args[0]);
        var bad := ValidateScriptName(name);
        if bad.Some? then ClientError(s1, BadName(bad.value))
        else if 0 < env.options.maxScriptSize < |content.value| then QuotaMaxSize(env, s1, |content.value|)
        else
          var (s2, reply) := CallSession(env, s1, PutScript(name, content.value));
          if reply.error.Some? then ReportError(env, s2, reply.error.value)
          else Write(s2, PutResponse(reply))
  }

  function HandleCheckScript(env: Env, st: State, args: seq<string>): (r: State)
  {
    if args == [] then ClientError(st, CheckSyntax)
    else
      var (s1, content) := ReadScriptArgument(env, st, args[0]);
      if content == None then s1
      else if 0 < env.options.maxScriptSize < |content.value| then QuotaMaxSize(env, s1, |content.value|)
      else
        var (s2, reply) := CallSession(env, s1, CheckScript(content.value));
        if reply.error.Some? then ReportError(env, s2, reply.error.value)
        else Write(s2, if reply.warnings != "" then Warnings(reply.warnings) else Say(OkBare))
  }

  function HandleHaveSpace(env: Env, st: State, args: seq<string>): State {
    if |args| < 2 then ClientError(st, HaveSpaceSyntax)
    else
      match Number(args[1])
      case None => ClientError(st, BadScriptSize)
      case Some(size) =>
        if 0 < env.options.maxScriptSize < size then QuotaMaxSize(env, st, size)
        else CallForLine(env, st, HaveSpace(Name(args[0]), size), OkBare)
  }

  function HandleRenameScript(env: Env, st: State, args: seq<string>): State {
    if |args| < 2 then ClientError(st, RenameSyntax)
    else
      var oldName, newName := Name(args[0]), Name(args[1]);
      var bad := ValidateScriptName(newName);
      if oldName == "" then ClientError(st, EmptyOldName)
      else if bad.Some? then ClientError(st, BadName(bad.value))
      else CallForLine(env, st, RenameScript(oldName, newName), OkBare)
  }

  function HandleSetActive(env: Env, st: State, args: seq<string>): State {
    if args == [] then ClientError(st, SetActiveSyntax)
    else CallForLine(env, st, SetActive(Name(args[0])), OkBare)
  }

  function HandleDeleteScript(env: Env, st: State, args: seq<string>): State {
    if args == [] then ClientError(st, DeleteSyntax)
    else CallForLine(env, st, DeleteScript(Name(args[0])), OkDeleted)
  }

  // ---------------------------------------------------------------------
  // The command loop

  function Noop(st: State, args: seq<string>): State {
    if args == [] then SayTo(st, OkBare) else Write(st, Tag(Unquote(args[0])))
  }

  function ScriptCommand(env: Env, st: State, verb: Verb, args: seq<string>): (r: State)
  {
    if !st.authenticated then ClientError(st, NotAuthenticated)
    else if verb.LISTSCRIPTS? then HandleListScripts(env, st)
    else if verb.GETSCRIPT? then HandleGetScript(env, st, args)
    else if verb.PUTSCRIPT? then HandlePutScript(env, st, args)
    else if verb.CHECKSCRIPT? then HandleCheckScript(env, st, args)
    else if verb.HAVESPACE? then HandleHaveSpace(env, st, args)
    else if verb.RENAMESCRIPT? then HandleRenameScript(env, st, args)
    else if verb.SETACTIVE? then HandleSetActive(env, st, args)
    else HandleDeleteScript(env, st, args)
  }

  /** One command; the flag tells the loop to quit. */
  function Dispatch(env: Env, st: State, verb: Verb, args: seq<string>): (r: (State, bool))
  {
    if verb.CAPABILITY? then (SayTo(SendCapabilityBlock(env, st), OkBare), false)
    else if verb.STARTTLS? then HandleStartTLS(env, st)
    else if verb.AUTHENTICATE? then (HandleAuthenticate(env, st, args), false)
    else if verb.LOGIN? && env.hasLogin then (HandleLogin(env, st, args), false)
    else if verb.NOOP? then (Noop(st, args), false)
    else if verb.LOGOUT? then (SayTo(st, OkGoodbye), true)
    else if verb.IsScriptCommand() then (ScriptCommand(env, st, verb, args), false)
    else (ClientError(st, UnknownCommand), false)
  }


  /** A last line before the connection ends; whether it could be flushed no longer matters. */
  function Farewell(env: Env, st: State, phrase: Phrase): State {
    Flush(env, SayTo(st, phrase)).0
  }

  function ShutdownBye(env: Env, st: State): State {
    Farewell(env, st, if env.absoluteTimeout then ByeAbsolute else ByeShutdown)
  }

  function LookAtContext(env: Env, st: State): (State, bool) {
    (st.(ticks := st.ticks.(looks := st.ticks.looks + 1)), env.contextDone(st.ticks.looks))
  }

  /** The command line could not be read. */
  function EndOfInput(env: Env, st: State, e: LineError): State {
    var (s, done) := LookAtContext(env, st);
    if done then ShutdownBye(env, s)
    else
      match e
      case Ended(Timeout) => Farewell(env, s, if env.absoluteTimeout then ByeAbsolute else ByeIdle)
      case TooLong => Farewell(env, s, NoLineTooLong)
      case MissingCRLF => Farewell(env, s, NoMissingCRLF)
      case Ended(_) => s
  }

  predicate MaxErrorsExceeded(env: Env, st: State) {
    env.options.maxErrors > 0 && st.errorCount >= env.options.maxErrors
  }

  /** Central enforcement after a command; the flag says whether the loop goes on. */
  function Settle(env: Env, st: State, quit: bool): (State, bool) {
    if st.hijacked then (st, false)
    else
      var closing := quit || st.closePending;
      var exceeded := !closing && MaxErrorsExceeded(env, st);
      var (s, ok) := Flush(env, if exceeded then SayTo(st, ByeErrors) else st);
      (s, ok && !closing && !exceeded)
  }

  /** A non-blank command line that has been read; the flag tells the loop to quit. */
  function RunCommand(env: Env, st: State, line: string): (State, bool) {
    match ParseLine(line)
    case Syntax => (ClientError(st, BadSyntax), false)
    case Command(cmd, tokens) =>
      var verb := ReadVerb(cmd);
      var (s, args) := ResolveLiteralArgs(env, st, verb, tokens);
      if args == None then (s, false) else Dispatch(env, s, verb, args.value)
  }

  /** One turn of the loop; the flag says whether the loop goes on. */
  function Iterate(env: Env, st: State): (r: (State, bool))
  {
    var (s1, done) := LookAtContext(env, st);
    if done then (ShutdownBye(env, s1), false)
    else
      var (s2, line) := ReadLine(env, s1);
      match line
      case NoLine(e) => (EndOfInput(env, s2, e), false)
      case Line(text) =>
        if Trim(text) == "" then (s2, true)
        else
          var (s3, quit) := RunCommand(env, s2, Trim(text));
          Settle(env, s3, quit)
  }

  /** A connection as handleConn sets it up. */
  function Fresh(isTLS: bool, input: Stream): State {
    State(false, isTLS, 0, false, false, input, [], [], Ticks(0, 0, 0))
  }
}
