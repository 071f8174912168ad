/**
  The vocabulary of a server connection: options, what a Session is asked and
  answers, what is written to the client, and the environment a connection
  runs in.
 */
module Protocol {
  import opened Text
  import opened LineReader

  datatype ScriptInfo = ScriptInfo(name: string, active: bool)

  datatype Capability = Capability(name: string, value: string, hasValue: bool)

  /** managesieveserver.Options, as far as the command loop reads them. */
  datatype Options = Options(
    implementation: string,
    greeting: string,
    greetingStartTLSHint: bool,
    sieveExtensions: seq<string>,
    extraCapabilities: seq<Capability>,
    tlsConfigured: bool,
    maxScriptSize: int,
    maxLineLength: int,
    maxAuthLiteral: int,
    maxErrors: int,
    insecureAuth: bool,
    authFailuresExempt: bool,
    strictSessionErrors: bool)

  /** An error a Session returns: *Error, ErrCloseConnection, or any other. */
  datatype SessionError =
    | Coded(code: string, message: string, close: bool)
    | CloseConnection
    | Plain(text: string)

  /** A call of a Session method. */
  datatype Call =
    | AuthenticatePlain(authzId: string, authnId: string, password: string)
    | Login(username: string, password: string)
    | ListScripts
    | GetScript(name: string)
    | PutScript(name: string, content: string)
    | CheckScript(content: string)
    | HaveSpace(name: string, size: nat)
    | RenameScript(oldName: string, newName: string)
    | SetActive(name: string)
    | DeleteScript(name: string)
    | Close
  {
    predicate IsAuth() {
      AuthenticatePlain? || Login?
    }

    predicate IsScript() {
      !IsAuth() && !Close?
    }
  }

  /** What a Session method returns; each caller looks at the fields its method has. */
  datatype Reply = Reply(
    error: Option<SessionError>,
    hijack: bool,
    scripts: seq<ScriptInfo>,
    text: string,
    updated: bool,
    warnings: string)

  /** What happens on a connection, in order. */
  datatype Event =
    | Called(call: Call, ok: bool)
    | TLSStarted
    | Hijacked
    | SocketClosed

  /** The verb of a command. */
  datatype Verb =
    | CAPABILITY | STARTTLS | AUTHENTICATE | LOGIN | NOOP | LOGOUT
    | LISTSCRIPTS | GETSCRIPT | PUTSCRIPT | CHECKSCRIPT | HAVESPACE | RENAMESCRIPT | SETACTIVE | DELETESCRIPT
    | UNKNOWN
  {
    predicate IsScriptCommand() {
      LISTSCRIPTS? || GETSCRIPT? || PUTSCRIPT? || CHECKSCRIPT? || HAVESPACE? || RENAMESCRIPT? || SETACTIVE?
          || DELETESCRIPT?
    }
  }

  function ReadVerb(cmd: string): Verb {
    match cmd
    case "CAPABILITY" => CAPABILITY
    case "STARTTLS" => STARTTLS
    case "AUTHENTICATE" => AUTHENTICATE
    case "LOGIN" => LOGIN
    case "NOOP" => NOOP
    case "LOGOUT" => LOGOUT
    case "LISTSCRIPTS" => LISTSCRIPTS
    case "GETSCRIPT" => GETSCRIPT
    case "PUTSCRIPT" => PUTSCRIPT
    case "CHECKSCRIPT" => CHECKSCRIPT
    case "HAVESPACE" => HAVESPACE
    case "RENAMESCRIPT" => RENAMESCRIPT
    case "SETACTIVE" => SETACTIVE
    case "DELETESCRIPT" => DELETESCRIPT
    case _ => UNKNOWN
  }

  // ---------------------------------------------------------------------
  // What is written to a client

  /** A line the library writes as it stands. */
  datatype Phrase =
    | Plus | Challenge
    | OkBare | OkAuthenticated | OkGoodbye | OkBeginTLS | OkStored | OkUpdated | OkDeleted
    | NoLiteralArgument | NoLiteralContent | NoAuthFailed | NoEmptyPassword | NoAuthCancelled | NoPipelinedTLS
    | NoInternal
    | NoLineTooLong | NoMissingCRLF
    | ByeAbsolute | ByeIdle | ByeShutdown | ByeErrors
  {
    function Text(): string {
      match this
      case Plus => "+"
      case Challenge => "\"\""
      case OkBare => "OK"
      case OkAuthenticated => "OK \"Authenticated\""
      case OkGoodbye => "OK \"Goodbye\""
      case OkBeginTLS => "OK \"Begin TLS negotiation\""
      case OkStored => "OK \"Script stored\""
      case OkUpdated => "OK \"Script updated\""
      case OkDeleted => "OK \"Script deleted\""
      case NoLiteralArgument => "NO \"Failed to read " + "literal argument\""
      case NoLiteralContent => "NO \"Failed to read " + "literal string content\""
      case NoAuthFailed => "NO \"Authentication failed\""
      case NoEmptyPassword => "NO " + "\"Authentication failed\""
      case NoAuthCancelled => "NO \"Authentication cancelled\""
      case NoPipelinedTLS => "NO \"Pipelined data after " + "STARTTLS is not allowed\""
      case NoInternal => "NO " + ("\"" + "internal error" + "\"")
      case NoLineTooLong => "NO \"Command line too long\""
      case NoMissingCRLF => "NO \"Command line must " + "end with CRLF\""
      case ByeAbsolute => "BYE (TRYLATER) \"" + "Maximum session duration " + "exceeded, please reconnect\""
      case ByeIdle => "BYE (TRYLATER) \"" + "Connection timed out due to " + "inactivity, please reconnect\""
      case ByeShutdown => "BYE (TRYLATER) \"" + "Server shutting down, " + "please reconnect\""
      case ByeErrors => "BYE \"Too many errors, " + "closing connection\""
    }
  }

  /** A client protocol error the library detects. */
  datatype Fault =
    | BadSyntax | NotAuthenticated | UnknownCommand
    | BadLiteralLength | LiteralTooLarge
    | AlreadyAuthenticated | AuthSyntax | AuthInsecure | BadMechanism | BadLiteralSize | BadAuthData | BadAuthFormat
    | LoginSyntax
    | TLSUnsupported | TLSActive | TLSAfterAuth
    | GetSyntax | PutSyntax | CheckSyntax | HaveSpaceSyntax | RenameSyntax | SetActiveSyntax | DeleteSyntax
    | BadScriptSize | EmptyOldName | BadName(error: NameError)
  {
    function Message(): string {
      match this
      case BadSyntax => "Invalid command syntax: unclosed quote in command arguments"
      case NotAuthenticated => "Not authenticated"
      case UnknownCommand => "Unknown command"
      case BadLiteralLength => "Invalid literal string length"
      case LiteralTooLarge => "Literal argument too large"
      case AlreadyAuthenticated => "Already authenticated"
      case AuthSyntax => "Syntax: AUTHENTICATE mechanism"
      case AuthInsecure => "Authentication not permitted on insecure connection. Use STARTTLS first."
      case BadMechanism => "Unsupported authentication mechanism"
      case BadLiteralSize => "Invalid literal size"
      case BadAuthData => "Invalid authentication data"
      case BadAuthFormat => "Invalid authentication format"
      case LoginSyntax => "Syntax: LOGIN address password"
      case TLSUnsupported => "STARTTLS not supported"
      case TLSActive => "TLS already active"
      case TLSAfterAuth => "STARTTLS not permitted after authentication"
      case GetSyntax => "Syntax: GETSCRIPT scriptName"
      case PutSyntax => "Syntax: PUTSCRIPT scriptName scriptContent"
      case CheckSyntax => "Syntax: CHECKSCRIPT scriptContent"
      case HaveSpaceSyntax => "Syntax: HAVESPACE scriptName scriptSize"
      case RenameSyntax => "Syntax: RENAMESCRIPT oldName newName"
      case SetActiveSyntax => "Syntax: SETACTIVE scriptName"
      case DeleteSyntax => "Syntax: DELETESCRIPT scriptName"
      case BadScriptSize => "Invalid script size"
      case EmptyOldName => "Script name cannot be empty"
      case BadName(e) => e.Message()
    }
  }

  /** One response: everything but a literal is a single line. */
  datatype Item =
    | Say(phrase: Phrase)
    | Fail(fault: Fault)
    | Deny(text: string)
    | DenyCoded(code: string, message: string)
    | DenySize(size: nat, limit: nat)
    | Warnings(text: string)
    | Tag(text: string)
    | Listed(script: ScriptInfo)
    | Advertised(capability: Capability)
    | Greeting(hint: bool, text: string)
    | Blob(content: string)

  /** The text behind "NO " for an *Error (managesieveserver/errors.go). */
  function WireMessage(code: string, message: string): string {
    var msg := if message == "" then "internal error" else message;
    if code == "" then StripCRLF(msg)
    else "(" + ToUpper(code) + ") " + Quote(SanitizeText(msg))
  }

  function NoLineText(msg: string): string {
    if msg == "" then "NO" else "NO " + StripCRLF(msg)
  }

  function SizeMessage(size: nat, limit: nat): string {
    "Script size " + Decimal(size) + " exceeds maximum allowed size " + Decimal(limit)
  }

  function CapabilityLine(c: Capability): string {
    if c.hasValue then Quote(c.name) + " " + Quote(c.value) else Quote(c.name)
  }

  function ListLine(s: ScriptInfo): string {
    Quote(SanitizeText(s.name)) + if s.active then " ACTIVE" else ""
  }

  /** The line of a response, without its CRLF. */
  function LineOf(item: Item): string
    requires !item.Blob?
  {
    match item
    case Say(phrase) => phrase.Text()
    case Fail(fault) => NoLineText(Quote(SanitizeText(fault.Message())))
    case Deny(text) => NoLineText(text)
    case DenyCoded(code, message) => NoLineText(WireMessage(code, message))
    case DenySize(size, limit) => NoLineText(WireMessage("QUOTA/MAXSIZE", SizeMessage(size, limit)))
    case Warnings(text) => "OK (WARNINGS) " + Quote(SanitizeText(text))
    case Tag(text) => "OK (TAG " + Quote(SanitizeText(text)) + ") \"Done\""
    case Listed(script) => ListLine(script)
    case Advertised(capability) => CapabilityLine(capability)
    case Greeting(hint, text) => (if hint then "OK (STARTTLS) " else "OK ") + text
  }

  function RenderItem(item: Item): string {
    match item
    case Blob(content) => "{" + Decimal(|content|) + "}" + "\r\n" + (content + "\r\n")
    case _ => LineOf(item) + "\r\n"
  }

  /** The bytes on the wire. */
  function Render(items: seq<Item>): string {
    if items == [] then "" else RenderItem(items[0]) + Render(items[1..])
  }

  /**
    Everything a connection does not decide itself. `session` answers a call
    from the events so far, so it stands for any session behaviour. The k-th
    flush, look at the context, and look at the reader's buffer are answered by
    functions of k. `tls` is the stream behind a successful STARTTLS handshake.
   */
  datatype Env = Env(
    options: Options,
    session: (seq<Event>, Call) -> Reply,
    hasLogin: bool,
    decodeBase64: string -> Option<string>,
    flushOk: nat -> bool,
    contextDone: nat -> bool,
    buffered: nat -> bool,
    tls: Option<Stream>,
    absoluteTimeout: bool)

  // ---------------------------------------------------------------------
  // Capability advertisement

  function JoinWithSpaces(words: seq<string>): string {
    if words == [] then ""
    else if |words| == 1 then words[0]
    else words[0] + " " + JoinWithSpaces(words[1..])
  }

  function StartTLSAvailable(o: Options, isTLS: bool): bool {
    o.tlsConfigured && !isTLS
  }

  function AuthAllowed(o: Options, isTLS: bool): bool {
    o.insecureAuth || isTLS
  }

  function BaseCapabilities(o: Options): seq<Capability> {
    [Capability("IMPLEMENTATION", o.implementation, true),
     Capability("VERSION", "1.0", true),
     Capability("SIEVE", JoinWithSpaces(o.sieveExtensions), true)]
  }

  function SecurityCapabilities(o: Options, isTLS: bool): seq<Capability> {
    (if StartTLSAvailable(o, isTLS) then [Capability("STARTTLS", "", false)] else [])
    + [Capability("SASL", if AuthAllowed(o, isTLS) then "PLAIN" else "", true)]
  }

  function SizeCapability(o: Options): seq<Capability> {
    if o.maxScriptSize > 0 then [Capability("MAXSCRIPTSIZE", Decimal(o.maxScriptSize), true)] else []
  }

  /** The capabilities a connection advertises, built-in ones first. */
  function Capabilities(o: Options, isTLS: bool): seq<Capability> {
    BaseCapabilities(o) + SecurityCapabilities(o, isTLS) + SizeCapability(o) + o.extraCapabilities
  }
}
