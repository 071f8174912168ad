/**
  What a command is worth to a client, told without the server's code: from the
  text of its verb and the values of its arguments to what the session is asked,
  what becomes of the connection, and what the client reads.
 */
module Outcomes {
  import opened Text
  import opened Parser
  import opened Protocol
  import opened ConnSpec
  import opened Effects
  import opened Responses
  import opened Verdicts

  // ---------------------------------------------------------------------
  // What a command asks for

  /**
    What a command comes to: a script method is called, an authentication is
    tried, the command is refused before its arguments are looked at, it is
    found wanting, it is answered by the connection alone, or the client has to
    say more first.
   */
  datatype Request =
    | Ask(call: Call)
    | Try(call: Call)
    | Refuse(fault: Fault)
    | Complain(item: Item)
    | Tell(items: seq<Item>, quit: bool)
    | Converse

  function OnceLoggedIn(st: State, w: Request): Request {
    if st.authenticated then w else Refuse(NotAuthenticated)
  }

  /** A script under a checked name, or the complaint about the name. */
  function UnderName(name: string, w: Request): Request {
    var bad := ValidateScriptName(name);
    if bad.Some? then Complain(Fail(BadName(bad.value))) else w
  }

  predicate FitsScript(env: Env, content: string) {
    env.options.maxScriptSize <= 0 || |content| <= env.options.maxScriptSize
  }

  function WithContent(env: Env, content: string, call: Call): Request {
    if FitsScript(env, content) then Ask(call) else Complain(DenySize(|content|, env.options.maxScriptSize))
  }

  /** A script command with the values of its string arguments. */
  function WantedScript(env: Env, name: string, values: seq<string>): Request {
    match name
    case "LISTSCRIPTS" => Ask(ListScripts)
    case "GETSCRIPT" => if values == [] then Complain(Fail(GetSyntax)) else Ask(GetScript(Trim(values[0])))
    case "PUTSCRIPT" =>
      if |values| < 2 then Complain(Fail(PutSyntax))
      else UnderName(Trim(values[0]), WithContent(env, values[1], PutScript(Trim(values[0]), values[1])))
    case "CHECKSCRIPT" =>
      if values == [] then Complain(Fail(CheckSyntax)) else WithContent(env, values[0], CheckScript(values[0]))
    case "HAVESPACE" => Complain(Fail(if |values| < 2 then HaveSpaceSyntax else BadScriptSize))
    case "RENAMESCRIPT" =>
      if |values| < 2 then Complain(Fail(RenameSyntax))
      else if Trim(values[0]) == "" then Complain(Fail(EmptyOldName))
      else UnderName(Trim(values[1]), Ask(RenameScript(Trim(values[0]), Trim(values[1]))))
    case "SETACTIVE" => if values == [] then Complain(Fail(SetActiveSyntax)) else Ask(SetActive(Trim(values[0])))
    case "DELETESCRIPT" => if values == [] then Complain(Fail(DeleteSyntax)) else Ask(DeleteScript(Trim(values[0])))
    case _ => Refuse(UnknownCommand)
  }

  /** HAVESPACE with its size, a bare number. */
  function WantedSpace(env: Env, name: string, size: string): Request {
    match Number(size)
    case None => Complain(Fail(BadScriptSize))
    case Some(n) =>
      if 0 < env.options.maxScriptSize < n then Complain(DenySize(n, env.options.maxScriptSize))
      else Ask(HaveSpace(Trim(name), n))
  }

  /** The PLAIN response, still encoded (section 2 of RFC 4616). */
  function WantedPlain(env: Env, data: string): Request {
    match env.decodeBase64(data)
    case None => Complain(Fail(BadAuthData))
    case Some(message) =>
      var fields := SplitOn(message, '\U{00}');
      if |fields| != 3 then Complain(Fail(BadAuthFormat))
      else if fields[2] == "" then Complain(Say(NoEmptyPassword))
      else Try(AuthenticatePlain(fields[0], fields[1], fields[2]))
  }

  function WantedAuthenticate(env: Env, st: State, values: seq<string>): Request {
    if st.authenticated then Refuse(AlreadyAuthenticated)
    else if values == [] then Refuse(AuthSyntax)
    else if !AuthAllowed(env.options, st.isTLS) then Refuse(AuthInsecure)
    else if ToUpper(values[0]) != "PLAIN" then Refuse(BadMechanism)
    else if |values| == 1 then Converse
    else WantedPlain(env, values[1])
  }

  function WantedLogin(env: Env, st: State, values: seq<string>): Request {
    if !env.hasLogin then Refuse(UnknownCommand)
    else if st.authenticated then Refuse(AlreadyAuthenticated)
    else if !AuthAllowed(env.options, st.isTLS) then Refuse(AuthInsecure)
    else if |values| < 2 then Refuse(LoginSyntax)
    else Try(Login(values[0], values[1]))
  }

  function WantedTLS(env: Env, st: State): Request {
    if !env.options.tlsConfigured then Refuse(TLSUnsupported)
    else if st.isTLS then Refuse(TLSActive)
    else if st.authenticated then Refuse(TLSAfterAuth)
    else Converse
  }

  /** The listing a client gets for CAPABILITY. */
  function CapabilityReply(env: Env, isTLS: bool): seq<Item> {
    AdvertisedAll(Capabilities(env.options, isTLS)) + [Say(OkBare)]
  }

  /** What a command of any kind comes to, by the text of its verb. */
  function Wanted(env: Env, st: State, name: string, values: seq<string>): Request {
    match name
    case "CAPABILITY" => Tell(CapabilityReply(env, st.isTLS), false)
    case "NOOP" => Tell([if values == [] then Say(OkBare) else Tag(values[0])], false)
    case "LOGOUT" => Tell([Say(OkGoodbye)], true)
    case "STARTTLS" => WantedTLS(env, st)
    case "AUTHENTICATE" => WantedAuthenticate(env, st, values)
    case "LOGIN" => WantedLogin(env, st, values)
    case _ => if IsScriptName(name) then OnceLoggedIn(st, WantedScript(env, name, values)) else Refuse(UnknownCommand)
  }

  predicate IsScriptName(name: string) {
    || name == "LISTSCRIPTS" || name == "GETSCRIPT" || name == "PUTSCRIPT" || name == "CHECKSCRIPT"
    || name == "HAVESPACE" || name == "RENAMESCRIPT" || name == "SETACTIVE" || name == "DELETESCRIPT"
  }

  // ---------------------------------------------------------------------
  // What becomes of it

  /** The line a session error becomes. */
  function Refusal(env: Env, e: SessionError): Item {
    match e
    case Coded(code, message, _) => DenyCoded(code, message)
    case CloseConnection => Say(NoInternal)
    case Plain(text) => if env.options.strictSessionErrors then Say(NoInternal) else Deny(text)
  }

  /** A session asks for the connection to be closed by the error it returns. */
  predicate Closes(e: Option<SessionError>) {
    e.Some? && (e.value.CloseConnection? || (e.value.Coded? && e.value.close))
  }

  /** The responses a reply is passed on as. */
  function Answers(env: Env, call: Call, reply: Reply): seq<Item> {
    if reply.error.Some? then [Refusal(env, reply.error.value)]
    else
      match call
      case ListScripts => ListReply(reply.scripts)
      case GetScript(_) => [Blob(reply.text), Say(OkBare)]
      case PutScript(_, _) =>
        [if reply.warnings != "" then Warnings(reply.warnings) else if reply.updated then Say(OkUpdated)
            else Say(OkStored)]
      case CheckScript(_) => [if reply.warnings != "" then Warnings(reply.warnings) else Say(OkBare)]
      case DeleteScript(_) => [Say(OkDeleted)]
      case _ => if call.IsAuth() then if reply.hijack then [] else [Say(OkAuthenticated)] else [Say(OkBare)]
  }

  /** The difference a command makes; the go-aheads come before all else. */
  datatype Outcome = Outcome(
    events: seq<Event>,
    items: seq<Item>,
    charge: nat,
    close: bool,
    authenticated: bool,
    hijacked: bool,
    goAheads: nat)

  /** The same behind n go-aheads more. */
  function Going(o: Outcome, n: nat): Outcome {
    o.(goAheads := o.goAheads + n)
  }

  function OutcomeOf(env: Env, st: State, w: Request): Outcome {
    match w
    case Ask(call) =>
      var reply := env.session(st.trace, call);
      Outcome([Called(call, reply.error.None?)], Answers(env, call, reply), 0, Closes(reply.error), st.authenticated,
              false, 0)
    case Try(call) =>
      var reply := env.session(st.trace, call);
      var ok := reply.error.None?;
      Outcome(AuthEvents(call, ok, reply.hijack), Answers(env, call, reply), RefusalCharge(env.options, ok),
              Closes(reply.error), ok && !reply.hijack, reply.hijack, 0)
    case Refuse(fault) => Outcome([], [Fail(fault)], 1, false, st.authenticated, false, 0)
    case Complain(item) => Outcome([], [item], ChargeOf(env.options, item), false, st.authenticated, false, 0)
    case Tell(items, quit) => Outcome([], items, 0, quit, st.authenticated, false, 0)
    case Converse => Outcome([], [], 0, false, st.authenticated, false, 0)
  }

  function Pluses(n: nat): seq<Item> {
    seq(n, _ => Say(Plus))
  }

  /** The errors of a client are exhausted, and nothing else ends the connection. */
  predicate Exhausts(env: Env, st: State, o: Outcome) {
    !o.close && !o.hijacked && env.options.maxErrors > 0 && st.errorCount + o.charge >= env.options.maxErrors
  }

  function Written(env: Env, st: State, o: Outcome): seq<Item> {
    o.items + if Exhausts(env, st, o) then [Say(ByeErrors)] else []
  }

  /** A turn has made exactly this difference, and written exactly this; `more` says whether the connection goes on. */
  predicate Served(env: Env, st: State, s: State, more: bool, o: Outcome) {
    && s.trace == st.trace + o.events
    && s.output == st.output + (Pluses(o.goAheads) + Written(env, st, o))
    && s.errorCount == st.errorCount + o.charge
    && s.authenticated == o.authenticated && s.hijacked == o.hijacked && s.isTLS == st.isTLS
    && (more <==> !o.close && !o.hijacked && !Exhausts(env, st, o))
  }

  // ---------------------------------------------------------------------
  // What the client reads

  /** The refusal of a session error, as a client reads it. */
  predicate RefusalRead(o: Options, line: string, e: SessionError) {
    match e
    case Coded(code, message, _) =>
      && (CleanCode(code) ==> ReadCoded(line) == Some((ToUpper(code), SanitizeText(OrInternal(message)))))
      && (code == "" && OneLine(OrInternal(message)) ==> line == "NO " + OrInternal(message))
    case CloseConnection => ReadText(line) == Some("internal error")
    case Plain(text) =>
      if o.strictSessionErrors then ReadText(line) == Some("internal error")
      else text != "" && OneLine(text) ==> line == "NO " + text
  }

  predicate OneLine(text: string) {
    Lacks(text, '\r') && Lacks(text, '\n')
  }

  /** The answer to a call that went well, as a client reads it. */
  predicate SuccessRead(call: Call, reply: Reply, rs: seq<Response>)
    requires rs != [] && rs[|rs| - 1].Row?
  {
    var line := rs[|rs| - 1].text;
    match call
    case ListScripts => AllValid(reply.scripts) ==> ReadListing(rs) == Some(reply.scripts)
    case GetScript(_) => rs == [Content(reply.text), Row("OK")]
    case PutScript(_, _) => |rs| == 1 && (reply.warnings != "" ==> WarningsRead(line, reply.warnings))
    case CheckScript(_) => |rs| == 1 && (reply.warnings != "" ==> WarningsRead(line, reply.warnings))
    case _ => |rs| == 1
  }

  predicate WarningsRead(line: string, warnings: string) {
    ReadWarnings(line) == Some(SanitizeText(warnings))
  }

  /** What a client reads of the answer to a call: one verdict, last, that of the session. */
  predicate AnswerRead(o: Options, call: Call, reply: Reply, rs: seq<Response>) {
    && rs != [] && rs[|rs| - 1].Row?
    && match reply.error {
      case Some(e) => |rs| == 1 && Tells(rs[0].text, Refuses) && RefusalRead(o, rs[0].text, e)
      case None => Tells(rs[|rs| - 1].text, Accepts) && SuccessRead(call, reply, rs)
    }
  }

  /** What a client reads of the bytes written between two states. */
  function Heard(a: State, b: State): Option<seq<Response>>
    requires |a.output| <= |b.output|
  {
    ReadResponses(Render(b.output[|a.output|..]))
  }

  /** Go-aheads, and then rs, and then BYE where the connection says so. */
  predicate Hears(heard: Option<seq<Response>>, rs: seq<Response>, bye: bool) {
    var n := |rs| + if bye then 1 else 0;
    && heard.Some? && n <= |heard.value|
    && var first := |heard.value| - n;
       && (forall i | 0 <= i < first :: heard.value[i] == Row("+"))
       && heard.value[first..first + |rs|] == rs
       && (bye ==> heard.value[|heard.value| - 1].Row? && Tells(heard.value[|heard.value| - 1].text, Hangs))
  }

  /** What a client reads says what the command came to. */
  predicate Understood(env: Env, st: State, w: Request, rs: seq<Response>) {
    match w
    case Ask(call) => AnswerRead(env.options, call, env.session(st.trace, call), rs)
    case Try(call) =>
      var reply := env.session(st.trace, call);
      if reply.hijack && reply.error.None? then rs == [] else AnswerRead(env.options, call, reply, rs)
    case Refuse(fault) => FaultRead(rs, fault)
    case Complain(item) =>
      |rs| == 1 && rs[0].Row? && Tells(rs[0].text, Refuses) && (item.Fail? ==> FaultRead(rs, item.fault))
      && (item.DenySize? ==> ReadCoded(rs[0].text) == Some(("QUOTA/MAXSIZE", SizeMessage(item.size, item.limit))))
    case Tell(items, _) =>
      && rs == Meanings(items) && TellsLast(rs, Accepts)
      && (|items| == 1 && items[0].Tag? ==> ReadTag(rs[0].text) == Some(SanitizeText(items[0].text)))
    case Converse => rs == []
  }

  /** What a command comes to is what the client reads, and nothing else. */
  ghost predicate RequestRead(env: Env, st: State, s: State, w: Request) {
    |st.output| <= |s.output| &&
    exists rs: seq<Response> ::
      Understood(env, st, w, rs) && Hears(Heard(st, s), rs, Exhausts(env, st, OutcomeOf(env, st, w)))
  }

  predicate TellsLast(rs: seq<Response>, v: Verdict) {
    rs != [] && rs[|rs| - 1].Row? && Tells(rs[|rs| - 1].text, v)
  }

  predicate FaultRead(rs: seq<Response>, fault: Fault) {
    |rs| == 1 && rs[0].Row? && Tells(rs[0].text, Refuses) && ReadText(rs[0].text) == Some(SanitizeText(fault.Message()))
  }

  // ---------------------------------------------------------------------
  // Reading it back

  lemma {:induction false} MeaningsAt(items: seq<Item>)
    ensures |Meanings(items)| == |items| && forall i | 0 <= i < |items| :: Meanings(items)[i] == Meaning(items[i])
  {
    hide Meaning;
    if items != [] {
      MeaningsAt(items[1..]);
    }
  }

  lemma OneMeaning(item: Item)
    ensures Meanings([item]) == [Meaning(item)]
  {
    hide Meaning;
    MeaningsAt([item]);
  }

  lemma PlainRefusal(text: string)
    requires text != "" && OneLine(text)
    ensures NoLineText(text) == "NO " + text
  {
  }

  lemma InternalIsRead()
    ensures ReadText(NoInternal.Text()) == Some("internal error")
  {
    hide Quote, Unquote, SanitizeText;
    var msg := "internal error";
    UnquoteQuote(msg);
    assert Quote(msg) == "\"" + msg + "\"" by { InternalQuoted(msg); }
    var line := "NO " + Quote(msg);
    assert line[..4] == "NO \"" && line[3..] == Quote(msg);
  }

  lemma InternalQuoted(msg: string)
    requires msg == "internal error"
    ensures Quote(msg) == "\"" + msg + "\""
  {
    hide ReplaceAll;
    PlainIsUnescaped(msg, '\\', "\\\\");
    PlainIsUnescaped(msg, '"', "\\\"");
  }

  lemma {:induction false} PlainIsUnescaped(s: string, c: char, sub: string)
    requires Lacks(s, c)
    ensures ReplaceAll(s, c, sub) == s
  {
    if s != "" {
      PlainIsUnescaped(s[1..], c, sub);
    }
  }

  lemma RefusalIsRead(env: Env, e: SessionError)
    ensures var item := Refusal(env, e);
            !item.Blob? && Tells(LineOf(item), Refuses) && RefusalRead(env.options, LineOf(item), e)
  {
    hide ReadCoded, ReadText, SanitizeText, ToUpper, Quote, Tells, Phrase.Text, CleanCode, StripCRLF;
    ItemTells(Refusal(env, e));
    match e
    case Coded(code, message, _) =>
      if CleanCode(code) {
        CodedIsRead(code, message);
      }
      if code == "" && OneLine(OrInternal(message)) {
        assert WireMessage(code, message) == OrInternal(message);
        PlainRefusal(OrInternal(message));
      }
    case CloseConnection => InternalIsRead();
    case Plain(text) =>
      if env.options.strictSessionErrors {
        InternalIsRead();
      } else if text != "" && OneLine(text) {
        PlainRefusal(text);
      }
  }

  /** The answer to a call, whatever the session returned, is read as what it is. */
  lemma AnswerIsRead(env: Env, call: Call, reply: Reply)
    requires !call.Close? && (call.IsAuth() ==> reply.error.Some? || !reply.hijack)
    ensures AnswerRead(env.options, call, reply, Meanings(Answers(env, call, reply)))
  {
    hide Tells, RefusalRead, ReadListing, ReadWarnings, Meanings, LineOf, SanitizeText, AllValid;
    var items := Answers(env, call, reply);
    MeaningsAt(items);
    if reply.error.Some? {
      RefusalIsRead(env, reply.error.value);
    } else {
      assert Meaning(Say(OkBare)) == Row("OK") by { OkMeans(); }
      ItemTells(items[|items| - 1]);
      if call.ListScripts? && AllValid(reply.scripts) {
        Responses.ListingRead(reply.scripts);
      } else if reply.warnings != "" {
        WarningsAreRead(reply.warnings);
      }
    }
  }

  lemma OkMeans()
    ensures Meaning(Say(OkBare)) == Row("OK")
  {
  }

  lemma FaultIsUnderstood(fault: Fault)
    ensures FaultRead(Meanings([Fail(fault)]), fault)
  {
    hide Tells, ReadText, LineOf, SanitizeText, Meanings, Fault.Message;
    OneMeaning(Fail(fault));
    ItemTells(Fail(fault));
    FaultIsRead(fault);
  }

  /** The items a request can come with. */
  predicate Proper(env: Env, st: State, w: Request) {
    match w
    case Ask(call) => call.IsScript() && (call.GetScript? ==> |env.session(st.trace, call).text| <= MAX_INT64)
    case Try(call) => call.IsAuth()
    case Refuse(_) => true
    case Complain(item) =>
      item.Fail? || item.DenySize? || item == Say(NoEmptyPassword) || item == Say(NoAuthCancelled)
    case Tell(items, _) =>
      && items != [] && Verdicts.Meant(items[|items| - 1]) == Some(Accepts)
      && forall i | 0 <= i < |items| :: Clean(items[i]) && !items[i].Blob?
    case Converse => false
  }

  lemma RequestIsUnderstood(env: Env, st: State, w: Request)
    requires Proper(env, st, w)
    ensures Understood(env, st, w, Meanings(OutcomeOf(env, st, w).items))
  {
    hide AnswerRead, Answers, Meanings, Tells, ReadCoded, ReadTag, SanitizeText, FaultRead, LineOf, SizeMessage, Clean;
    match w
    case Ask(call) => AnswerIsRead(env, call, env.session(st.trace, call));
    case Try(call) => TryIsRead(env, st, call);
    case Refuse(fault) => FaultIsUnderstood(fault);
    case Complain(item) =>
      OneMeaning(item);
      ItemTells(item);
      if item.Fail? {
        FaultIsUnderstood(item.fault);
      } else if item.DenySize? {
        SizeIsRead(item.size, item.limit);
      }
    case Tell(items, _) =>
      MeaningsAt(items);
      ItemTells(items[|items| - 1]);
      if items[0].Tag? {
        TagIsRead(items[0].text);
      }
  }

  lemma TryIsRead(env: Env, st: State, call: Call)
    requires call.IsAuth()
    ensures Understood(env, st, Try(call), Meanings(OutcomeOf(env, st, Try(call)).items))
  {
    hide AnswerRead, LineOf;
    var reply := env.session(st.trace, call);
    if reply.error.Some? || !reply.hijack {
      AnswerIsRead(env, call, reply);
    }
  }

  lemma RefusalIsClean(env: Env, e: SessionError)
    ensures Clean(Refusal(env, e))
  {
    hide IsRow, WireMessage, NoLineText, Phrase.Text;
    PhraseIsRow(NoInternal);
    match e
    case Coded(code, message, _) => NoLineIsRow(WireMessage(code, message));
    case CloseConnection =>
    case Plain(text) => NoLineIsRow(text);
  }

  lemma AnswersAreClean(env: Env, call: Call, reply: Reply)
    requires call.GetScript? ==> |reply.text| <= MAX_INT64
    ensures forall i | 0 <= i < |Answers(env, call, reply)| :: Clean(Answers(env, call, reply)[i])
  {
    hide IsRow, ListLine, Phrase.Text, Refusal, Quote, SanitizeText;
    if reply.error.Some? {
      RefusalIsClean(env, reply.error.value);
    } else {
      PhraseIsRow(OkBare);
      PhraseIsRow(OkStored);
      PhraseIsRow(OkUpdated);
      PhraseIsRow(OkDeleted);
      PhraseIsRow(OkAuthenticated);
      WarningsIsRow(reply.warnings);
      forall i | 0 <= i < |reply.scripts| ensures IsRow(ListLine(reply.scripts[i])) {
        ListedIsRow(reply.scripts[i]);
      }
    }
  }

  lemma RequestIsClean(env: Env, st: State, w: Request)
    requires Proper(env, st, w)
    ensures forall i | 0 <= i < |OutcomeOf(env, st, w).items| :: Clean(OutcomeOf(env, st, w).items[i])
  {
    hide IsRow, Answers, Phrase.Text, Fault.Message, NoLineText, WireMessage, SizeMessage, Quote, SanitizeText,
         Verdicts.Meant;
    match w
    case Ask(call) => AnswersAreClean(env, call, env.session(st.trace, call));
    case Try(call) => AnswersAreClean(env, call, env.session(st.trace, call));
    case Refuse(fault) => NoLineIsRow(Quote(SanitizeText(fault.Message())));
    case Complain(item) =>
      PhraseIsRow(NoEmptyPassword);
      PhraseIsRow(NoAuthCancelled);
      if item.Fail? {
        NoLineIsRow(Quote(SanitizeText(item.fault.Message())));
      } else if item.DenySize? {
        NoLineIsRow(WireMessage("QUOTA/MAXSIZE", SizeMessage(item.size, item.limit)));
      }
    case Tell(items, _) =>
  }

  lemma PlusMeans()
    ensures Meaning(Say(Plus)) == Row("+") && Clean(Say(Plus))
  {
  }

  lemma PartsAreHeard(heard: seq<Response>, rs: seq<Response>, bye: bool)
    requires |rs| + (if bye then 1 else 0) <= |heard|
    requires var first := |heard| - |rs| - if bye then 1 else 0;
             && (forall i | 0 <= i < first :: heard[i] == Row("+"))
             && (forall i | 0 <= i < |rs| :: heard[first + i] == rs[i])
    requires bye ==> heard[|heard| - 1].Row? && Tells(heard[|heard| - 1].text, Hangs)
    ensures Hears(Some(heard), rs, bye)
  {
    hide Tells;
    var first := |heard| - |rs| - if bye then 1 else 0;
    assert heard[first..first + |rs|] == rs;
  }

  lemma AddedIsClean(items: seq<Item>, added: seq<Item>, first: nat, bye: bool)
    requires |added| == first + |items| + if bye then 1 else 0
    requires forall i | 0 <= i < |items| :: Clean(items[i])
    requires forall i | 0 <= i < first :: added[i] == Say(Plus)
    requires forall i | 0 <= i < |items| :: added[first + i] == items[i]
    requires bye ==> added[|added| - 1] == Say(ByeErrors)
    ensures forall i | 0 <= i < |added| :: Clean(added[i])
  {
    hide Clean;
    PlusMeans();
    ByeIsClean();
    forall i | 0 <= i < |added| ensures Clean(added[i]) {
      if first <= i < first + |items| {
        assert added[first + (i - first)] == items[i - first];
      }
    }
  }

  lemma MeaningsOfAdded(added: seq<Item>, n: nat, items: seq<Item>, bye: bool)
    requires |added| == n + |items| + if bye then 1 else 0
    requires forall i | 0 <= i < n :: added[i] == Say(Plus)
    requires forall i | 0 <= i < |items| :: added[n + i] == items[i]
    requires bye ==> added[|added| - 1] == Say(ByeErrors)
    ensures Hears(Some(Meanings(added)), Meanings(items), bye)
  {
    hide Meanings, Meaning, Tells, Hears;
    MeaningsAt(added);
    MeaningsAt(items);
    PlusMeans();
    ByeTells();
    PartsAreHeard(Meanings(added), Meanings(items), bye);
  }

  lemma AddedParts(a: seq<Item>, b: seq<Item>, n: nat, items: seq<Item>, bye: bool) returns (added: seq<Item>)
    requires b == a + (Pluses(n) + (items + if bye then [Say(ByeErrors)] else []))
    ensures |a| <= |b| && added == b[|a|..] && |added| == n + |items| + if bye then 1 else 0
    ensures forall i | 0 <= i < n :: added[i] == Say(Plus)
    ensures forall i | 0 <= i < |items| :: added[n + i] == items[i]
    ensures bye ==> added[|added| - 1] == Say(ByeErrors)
  {
    var last := items + if bye then [Say(ByeErrors)] else [];
    added := Pluses(n) + last;
    assert b[|a|..] == added;
    forall i | 0 <= i < |items| ensures added[n + i] == items[i] {
      assert last[i] == items[i];
    }
  }

  /** Such responses are heard as go-aheads, and then what the last ones mean. */
  lemma AddedIsHeard(a: seq<Item>, b: seq<Item>, n: nat, items: seq<Item>, bye: bool)
    requires b == a + (Pluses(n) + (items + if bye then [Say(ByeErrors)] else []))
    requires forall i | 0 <= i < |items| :: Clean(items[i])
    ensures |a| <= |b| && Hears(ReadResponses(Render(b[|a|..])), Meanings(items), bye)
  {
    hide Meanings, Meaning, Clean, Tells, ReadResponses, Render, Hears, Pluses;
    var added := AddedParts(a, b, n, items, bye);
    AddedIsClean(items, added, n, bye);
    ResponsesRoundTrip(added);
    MeaningsOfAdded(added, n, items, bye);
  }

  /** Whatever a turn made of a command, a client that reads its bytes understands exactly that. */
  lemma ServedIsRead(env: Env, st: State, s: State, more: bool, w: Request, n: nat)
    requires Proper(env, st, w) && Served(env, st, s, more, Going(OutcomeOf(env, st, w), n))
    ensures RequestRead(env, st, s, w)
  {
    hide Understood, Meanings, Clean, Hears, Proper, Exhausts, OutcomeOf, Pluses;
    var o := OutcomeOf(env, st, w);
    RequestIsClean(env, st, w);
    RequestIsUnderstood(env, st, w);
    assert Exhausts(env, st, Going(o, n)) == Exhausts(env, st, o) by { GoingEnds(env, st, o, n); }
    AddedIsHeard(st.output, s.output, o.goAheads + n, o.items, Exhausts(env, st, o));
  }

  lemma GoingEnds(env: Env, st: State, o: Outcome, n: nat)
    ensures Exhausts(env, st, Going(o, n)) == Exhausts(env, st, o)
  {
  }

  lemma ByeIsClean()
    ensures Clean(Say(ByeErrors))
  {
    hide IsRow, Phrase.Text;
    PhraseIsRow(ByeErrors);
  }

  lemma ByeTells()
    ensures Meaning(Say(ByeErrors)).Row? && Tells(Meaning(Say(ByeErrors)).text, Hangs)
  {
    hide Tells, Phrase.Text;
    ItemTells(Say(ByeErrors));
  }
}
