/**
  From the bytes of a command to what it comes to: whichever way the client
  framed its arguments, the turn makes exactly the difference Outcomes says, and
  the client reads it.
 */
module Calls {
  import opened Text
  import opened Parser
  import opened Protocol
  import opened ConnSpec
  import opened Serving
  import opened Framing
  import opened Outcomes
  import Responses
  import Sync

  // ---------------------------------------------------------------------
  // What a handler does

  /** A handler has made this difference; the loop has yet to settle the turn. */
  predicate Does(env: Env, st: State, s: State, quit: bool, o: Outcome) {
    && s == st.(input := s.input, output := s.output, ticks := s.ticks, closePending := s.closePending,
                trace := st.trace + o.events, errorCount := st.errorCount + o.charge,
                authenticated := o.authenticated, hijacked := o.hijacked)
    && s.output == st.output + (Pluses(o.goAheads) + o.items)
    && (s.closePending || quit <==> st.closePending || o.close)
  }

  lemma AddsHere(a: seq<Item>, items: seq<Item>)
    ensures a + (Pluses(0) + items) == a + items
  {
    assert Pluses(0) + items == items;
  }

  lemma AddsBehind(a: seq<Item>, b: seq<Item>, c: seq<Item>, n: nat, items: seq<Item>)
    requires OnlyPluses(a, b) && c == b + (Pluses(n) + items)
    ensures c == a + (Pluses(n + (|b| - |a|)) + items)
  {
    assert b == a + Pluses(|b| - |a|);
    assert Pluses(|b| - |a|) + (Pluses(n) + items) == Pluses(n + (|b| - |a|)) + items;
  }

  lemma OnlyReadsFields(a: State, b: State)
    requires OnlyReads(a, b)
    ensures b == a.(input := b.input, output := b.output, ticks := b.ticks) && OnlyPluses(a.output, b.output)
    ensures b.ticks.peeks == a.ticks.peeks && b.input.end == a.input.end
  {
  }

  lemma SameOutcome(env: Env, a: State, b: State, w: Request)
    requires b.trace == a.trace && b.authenticated == a.authenticated
    ensures OutcomeOf(env, a, w) == OutcomeOf(env, b, w)
  {
  }

  /** What was read first does not count, but for the go-aheads. */
  lemma ReadsThenMakes(env: Env, a: State, b: State, s: State, quit: bool, o: Outcome)
    requires OnlyReads(a, b) && Does(env, b, s, quit, o)
    ensures |a.output| <= |b.output| && Does(env, a, s, quit, Going(o, |b.output| - |a.output|))
  {
    hide OnlyPluses, Pluses;
    OnlyReadsFields(a, b);
    assert |a.output| <= |b.output| by { PlusesGrow(a.output, b.output); }
    AddsBehind(a.output, b.output, s.output, o.goAheads, o.items);
  }

  lemma PlusesGrow(a: seq<Item>, b: seq<Item>)
    requires OnlyPluses(a, b)
    ensures |a| <= |b|
  {
  }

  lemma ReadsThenDoes(env: Env, a: State, b: State, s: State, quit: bool, w: Request, n: nat)
    requires OnlyReads(a, b) && Does(env, b, s, quit, Going(OutcomeOf(env, b, w), n))
    ensures |a.output| <= |b.output|
    ensures Does(env, a, s, quit, Going(OutcomeOf(env, a, w), n + (|b.output| - |a.output|)))
  {
    hide OutcomeOf, Does, OnlyReads;
    assert b.trace == a.trace && b.authenticated == a.authenticated by { OnlyReadsFields(a, b); }
    SameOutcome(env, a, b, w);
    ReadsThenMakes(env, a, b, s, quit, Going(OutcomeOf(env, a, w), n));
  }

  lemma GoingNowhere(o: Outcome)
    ensures Going(o, 0) == o
  {
  }

  lemma ErrorWrites(env: Env, st: State, e: SessionError)
    ensures ReportError(env, st, e)
            == st.(output := st.output + [Refusal(env, e)], closePending := st.closePending || Closes(Some(e)))
  {
  }

  lemma FaultDoes(env: Env, st: State, fault: Fault)
    requires !st.hijacked
    ensures Does(env, st, ClientError(st, fault), false, OutcomeOf(env, st, Refuse(fault)))
    ensures OutcomeOf(env, st, Complain(Fail(fault))) == OutcomeOf(env, st, Refuse(fault))
    ensures ClientError(st, fault).input == st.input
    ensures ClientError(st, fault).output == st.output + OutcomeOf(env, st, Refuse(fault)).items
  {
    AddsHere(st.output, [Fail(fault)]);
  }

  lemma SizeDoes(env: Env, st: State, size: nat)
    requires !st.hijacked && env.options.maxScriptSize > 0
    ensures Does(env, st, QuotaMaxSize(env, st, size), false,
                 OutcomeOf(env, st, Complain(DenySize(size, env.options.maxScriptSize))))
    ensures QuotaMaxSize(env, st, size).input == st.input
  {
    AddsHere(st.output, [DenySize(size, env.options.maxScriptSize)]);
  }

  /** A script method is called, and its answer passed on. */
  lemma AskDoes(env: Env, st: State, call: Call, s: State)
    requires call.IsScript() && !st.hijacked
    requires var (s1, reply) := CallSession(env, st, call);
             s == if reply.error.Some? then ReportError(env, s1, reply.error.value)
                  else WriteAll(s1, Answers(env, call, reply))
    ensures Does(env, st, s, false, OutcomeOf(env, st, Ask(call))) && s.input == st.input
  {
    hide ReportError, Refusal;
    var (s1, reply) := CallSession(env, st, call);
    AddsHere(st.output, Answers(env, call, reply));
    if reply.error.Some? {
      ErrorWrites(env, s1, reply.error.value);
    }
  }

  lemma LineCall(env: Env, st: State, call: Call, phrase: Phrase)
    requires !st.hijacked
    requires if call.DeleteScript? then phrase == OkDeleted
             else (call.RenameScript? || call.SetActive? || call.HaveSpace?) && phrase == OkBare
    ensures var s := CallForLine(env, st, call, phrase);
            Does(env, st, s, false, OutcomeOf(env, st, Ask(call))) && s.input == st.input
  {
    hide ReportError, Does, OutcomeOf;
    AskDoes(env, st, call, CallForLine(env, st, call, phrase));
  }

  lemma ListCall(env: Env, st: State)
    requires !st.hijacked
    ensures var s := HandleListScripts(env, st);
            Does(env, st, s, false, OutcomeOf(env, st, Ask(ListScripts))) && s.input == st.input
  {
    hide ReportError, Does, OutcomeOf, ListItems;
    var (s, reply) := CallSession(env, st, ListScripts);
    assert s.output + ListItems(reply.scripts) + [Say(OkBare)] == s.output + (ListItems(reply.scripts) + [Say(OkBare)]);
    AskDoes(env, st, ListScripts, HandleListScripts(env, st));
  }

  lemma GetCall(env: Env, st: State, given: seq<string>, name: string)
    requires !st.hijacked && given != [] && Name(given[0]) == name
    ensures var s := HandleGetScript(env, st, given);
            Does(env, st, s, false, OutcomeOf(env, st, Ask(GetScript(name)))) && s.input == st.input
  {
    hide ReportError, Does, OutcomeOf, Name;
    var (s, reply) := CallSession(env, st, GetScript(name));
    assert s.output + [Blob(reply.text)] + [Say(OkBare)] == s.output + [Blob(reply.text), Say(OkBare)];
    AskDoes(env, st, GetScript(name), HandleGetScript(env, st, given));
  }

  /** PUTSCRIPT behind its content argument. */
  lemma PutCall(env: Env, st: State, given: seq<string>, values: seq<string>, t: string,
      n: nat)
    requires !st.hijacked && |given| == |values| >= 2 && Name(given[0]) == Trim(values[0])
    requires var (s, r) := ReadScriptArgument(env, st, given[1]);
             r == Some(values[1]) && OnlyReads(st, s) && s.input.data == t && |s.output| == |st.output| + n
    ensures var s := HandlePutScript(env, st, given);
            Does(env, st, s, false, Going(OutcomeOf(env, st, WantedScript(env, "PUTSCRIPT", values)), n))
            && s.input.data == t
  {
    hide ReportError, Does, OutcomeOf, Name, Trim, ReadScriptArgument, ValidateScriptName, OnlyReads, QuotaMaxSize,
         ClientError, CallSession;
    var (s1, r) := ReadScriptArgument(env, st, given[1]);
    OnlyReadsFields(st, s1);
    var s := HandlePutScript(env, st, given);
    var w := WantedScript(env, "PUTSCRIPT", values);
    if w.Ask? {
      AskDoes(env, s1, w.call, s);
    } else if w.item.Fail? {
      FaultDoes(env, s1, w.item.fault);
    } else {
      SizeDoes(env, s1, w.item.size);
    }
    GoingNowhere(OutcomeOf(env, s1, w));
    ReadsThenDoes(env, st, s1, s, false, w, 0);
  }

  lemma CheckCall(env: Env, st: State, given: seq<string>, values: seq<string>, t: string,
      n: nat)
    requires !st.hijacked && |given| == |values| >= 1
    requires var (s, r) := ReadScriptArgument(env, st, given[0]);
             r == Some(values[0]) && OnlyReads(st, s) && s.input.data == t && |s.output| == |st.output| + n
    ensures var s := HandleCheckScript(env, st, given);
            Does(env, st, s, false, Going(OutcomeOf(env, st, WantedScript(env, "CHECKSCRIPT", values)), n))
            && s.input.data == t
  {
    hide ReportError, Does, OutcomeOf, ReadScriptArgument, OnlyReads, QuotaMaxSize, CallSession;
    var (s1, r) := ReadScriptArgument(env, st, given[0]);
    OnlyReadsFields(st, s1);
    var s := HandleCheckScript(env, st, given);
    var w := WantedScript(env, "CHECKSCRIPT", values);
    if w.Ask? {
      AskDoes(env, s1, w.call, s);
    } else {
      SizeDoes(env, s1, w.item.size);
    }
    GoingNowhere(OutcomeOf(env, s1, w));
    ReadsThenDoes(env, st, s1, s, false, w, 0);
  }

  lemma RenameCall(env: Env, st: State, given: seq<string>, values: seq<string>)
    requires !st.hijacked && |given| == |values| && forall i | 0 <= i < |given| :: Name(given[i]) == Trim(values[i])
    ensures var s := HandleRenameScript(env, st, given);
            Does(env, st, s, false, OutcomeOf(env, st, WantedScript(env, "RENAMESCRIPT", values)))
            && s.input == st.input
  {
    hide CallForLine, Name, Trim, ValidateScriptName, Does, OutcomeOf, ClientError;
    var w := WantedScript(env, "RENAMESCRIPT", values);
    if w.Ask? {
      LineCall(env, st, w.call, OkBare);
    } else {
      FaultDoes(env, st, w.item.fault);
    }
  }

  lemma NamedCall(env: Env, st: State, verb: Verb, given: seq<string>, values: seq<string>)
    requires verb.SETACTIVE? || verb.DELETESCRIPT? || verb.GETSCRIPT?
    requires |given| == |values| && forall i | 0 <= i < |given| :: Name(given[i]) == Trim(values[i])
    requires st.authenticated && !st.hijacked
    ensures var s := ScriptCommand(env, st, verb, given);
            Does(env, st, s, false, OutcomeOf(env, st, WantedScript(env, VerbName(verb), values)))
            && s.input == st.input
  {
    hide CallForLine, Name, Trim, HandleRenameScript, HandlePutScript, HandleCheckScript, HandleListScripts,
         HandleHaveSpace, Does, OutcomeOf, ClientError, CallSession, ReportError;
    if values == [] {
      FaultDoes(env, st, GetSyntax);
      FaultDoes(env, st, SetActiveSyntax);
      FaultDoes(env, st, DeleteSyntax);
    } else {
      GetCall(env, st, given, Trim(values[0]));
      LineCall(env, st, SetActive(Trim(values[0])), OkBare);
      LineCall(env, st, DeleteScript(Trim(values[0])), OkDeleted);
    }
  }

  lemma QuotedIsNoNumber(v: string)
    ensures Number(Quote(v)) == None
  {
    hide Quote, Value;
    QuoteShape(v);
    assert !IsDigit(Quote(v)[0]);
  }

  /** HAVESPACE needs a bare number; a string is none. */
  lemma SpaceComplains(env: Env, st: State, given: seq<string>, values: seq<string>)
    requires !st.hijacked && |given| == |values| && forall i | 0 <= i < |given| :: given[i] == Quote(values[i])
    ensures var s := HandleHaveSpace(env, st, given);
            Does(env, st, s, false, OutcomeOf(env, st, WantedScript(env, "HAVESPACE", values))) && s.input == st.input
  {
    hide Quote, Does, OutcomeOf, Number, CallForLine, ClientError, QuotaMaxSize;
    FaultDoes(env, st, HaveSpaceSyntax);
    FaultDoes(env, st, BadScriptSize);
    if |values| >= 2 {
      QuotedIsNoNumber(values[1]);
    }
  }

  // ---------------------------------------------------------------------
  // Script commands

  /** The resolved name argument names what the client wrote, trimmed. */
  lemma NameOfQuoted(v: string)
    ensures Name(Quote(v)) == Trim(v)
  {
    hide Quote, Unquote, Trim;
    UnquoteQuote(v);
  }

  lemma NamesGiven(verb: Verb, args: seq<Arg>, given: seq<string>)
    requires Given(verb, args, given)
    ensures |given| == |args| == |Values(args)|
    ensures forall i | 0 <= i < |args| && !LiteralDeferred(verb, i) ::
              given[i] == Quote(Values(args)[i]) && Name(given[i]) == Trim(Values(args)[i])
  {
    hide Name, Trim, Quote, Token, Values;
    forall i | 0 <= i < |args| && !LiteralDeferred(verb, i) ensures Name(given[i]) == Trim(Values(args)[i]) {
      NameOfQuoted(args[i].value);
    }
  }

  /** The content argument of a command, read wherever the client put it. */
  lemma ContentGiven(env: Env, st: State, verb: Verb, args: seq<Arg>, given: seq<string>, slot: nat, t: string)
    requires forall k: nat :: env.flushOk(k)
    requires env.options.maxLineLength >= 2
    requires Given(verb, args, given) && ContentFits(env, verb, args) && LiteralDeferred(verb, slot) && slot < |args|
    requires st.input.data == Tail(verb, args) + t
    ensures var (s, r) := ReadArgument(env, st, verb, given[slot]);
            r == Some(Values(args)[slot]) && OnlyReads(st, s) && s.input.data == t
            && |s.output| == |st.output| + AskedBehind(verb, args)
  {
    hide Quote, Token, Values, ReadArgument, OnlyReads, Sync.Accepts;
    assert "" + t == t;
    TailOfSlot(verb, args, slot);
    ArgumentRead(env, st, verb, args[slot], t);
    assert AskedBehind(verb, args) == if args[slot].SyncLiteral? && !verb.AUTHENTICATE? then 1 else 0
        by { AskedOfSlot(verb, args, slot); }
    OnlyReadsSelf(st);
  }

  lemma AskedOfSlot(verb: Verb, args: seq<Arg>, slot: nat)
    requires LiteralDeferred(verb, slot) && slot < |args|
    requires !args[slot].Quoted? ==> slot == |args| - 1
    ensures AskedBehind(verb, args) == if args[slot].SyncLiteral? && !verb.AUTHENTICATE? then 1 else 0
  {
  }

  lemma TailOfSlot(verb: Verb, args: seq<Arg>, slot: nat)
    requires LiteralDeferred(verb, slot) && slot < |args|
    requires !args[slot].Quoted? ==> slot == |args| - 1
    ensures args[slot].Quoted? ==> Tail(verb, args) == ""
    ensures !args[slot].Quoted? ==> Tail(verb, args) == args[slot].value + "\r\n"
  {
  }

  lemma TooShort(env: Env, st: State, verb: Verb, given: seq<string>, values: seq<string>)
    requires |given| == |values| && ((verb.PUTSCRIPT? && |values| < 2) || (verb.CHECKSCRIPT? && values == []))
    requires st.authenticated && !st.hijacked
    ensures var s := ScriptCommand(env, st, verb, given);
            Does(env, st, s, false, OutcomeOf(env, st, WantedScript(env, VerbName(verb), values)))
            && s.input == st.input
  {
    hide Trim, Does, OutcomeOf, ClientError;
    FaultDoes(env, st, PutSyntax);
    FaultDoes(env, st, CheckSyntax);
  }

  lemma NoTail(verb: Verb, args: seq<Arg>)
    requires forall i: nat :: !LiteralDeferred(verb, i)
    ensures Tail(verb, args) == "" && AskedBehind(verb, args) == 0
  {
  }

  lemma AskedElsewhere(verb: Verb, args: seq<Arg>)
    ensures !(verb.PUTSCRIPT? && |args| >= 2) && !(verb.CHECKSCRIPT? && args != []) ==> AskedBehind(verb, args) == 0
  {
  }

  /** An authenticated script command whose arguments are strings. */
  lemma ScriptDoes(env: Env, st: State, verb: Verb, args: seq<Arg>, given: seq<string>, t: string)
    requires forall k: nat :: env.flushOk(k)
    requires verb.IsScriptCommand() && st.authenticated && !st.hijacked && env.options.maxLineLength >= 2
    requires Given(verb, args, given) && ContentFits(env, verb, args)
    requires st.input.data == Tail(verb, args) + t
    ensures var s := ScriptCommand(env, st, verb, given);
            Does(env, st, s, false,
                 Going(OutcomeOf(env, st, WantedScript(env, VerbName(verb), Values(args))), AskedBehind(verb, args)))
            && s.input.data == t
  {
    hide Quote, Token, Values, ReadScriptArgument, Name, Trim, OnlyReads, HandleListScripts, HandleGetScript,
         HandlePutScript, HandleCheckScript, HandleHaveSpace, HandleRenameScript, HandleSetActive, HandleDeleteScript,
         Does, OutcomeOf, ClientError, Given, ContentFits, UnderName, WithContent, Going, AskedBehind;
    var values := Values(args);
    GoingNowhere(OutcomeOf(env, st, WantedScript(env, VerbName(verb), values)));
    AskedElsewhere(verb, args);
    NamesGiven(verb, args, given);
    assert "" + t == t;
    match verb
    case LISTSCRIPTS => ListCall(env, st);
    case RENAMESCRIPT => RenameCall(env, st, given, values);
    case HAVESPACE => SpaceComplains(env, st, given, values);
    case PUTSCRIPT =>
      if |args| >= 2 {
        ContentGiven(env, st, verb, args, given, 1, t);
        PutCall(env, st, given, values, t, AskedBehind(verb, args));
      } else {
        TooShort(env, st, verb, given, values);
      }
    case CHECKSCRIPT =>
      if args != [] {
        ContentGiven(env, st, verb, args, given, 0, t);
        CheckCall(env, st, given, values, t, AskedBehind(verb, args));
      } else {
        TooShort(env, st, verb, given, values);
      }
    case _ => NamedCall(env, st, verb, given, values);
  }

  // ---------------------------------------------------------------------
  // Authentication

  /** The session is asked to authenticate, and may take the connection away while it is at it. */
  lemma TryDoes(env: Env, st: State, call: Call)
    requires forall k: nat :: env.flushOk(k)
    requires call.IsAuth() && !st.authenticated && !st.hijacked
    ensures Does(env, st, CallAuth(env, st, call), false, OutcomeOf(env, st, Try(call)))
    ensures CallAuth(env, st, call).input == st.input
    ensures CallAuth(env, st, call).output == st.output + OutcomeOf(env, st, Try(call)).items
  {
    hide ReportError, Refusal;
    var (s1, reply) := CallSession(env, st, call);
    var s2 := if reply.hijack then Hijack(env, s1) else s1;
    assert s1.trace + [Hijacked] == st.trace + [Called(call, reply.error.None?), Hijacked];
    AddsHere(st.output, Answers(env, call, reply));
    assert st.output + [] == st.output;
    if reply.error.Some? {
      ErrorWrites(env, CountRefusal(env, s2), reply.error.value);
    }
  }

  lemma EmptyDoes(env: Env, st: State)
    requires !st.hijacked
    ensures Does(env, st, SayTo(CountRefusal(env, st), NoEmptyPassword), false,
                 OutcomeOf(env, st, Complain(Say(NoEmptyPassword))))
    ensures SayTo(CountRefusal(env, st), NoEmptyPassword).output
            == st.output + OutcomeOf(env, st, Complain(Say(NoEmptyPassword))).items
  {
    AddsHere(st.output, [Say(NoEmptyPassword)]);
  }

  lemma PlainDoes(env: Env, st: State, data: string)
    requires forall k: nat :: env.flushOk(k)
    requires !st.authenticated && !st.hijacked
    ensures var s := PlainLogin(env, st, data);
            Does(env, st, s, false, OutcomeOf(env, st, WantedPlain(env, data))) && s.input == st.input
            && s.output == st.output + OutcomeOf(env, st, WantedPlain(env, data)).items
  {
    hide SplitOn, Does, OutcomeOf, CallAuth, ClientError;
    FaultDoes(env, st, BadAuthData);
    FaultDoes(env, st, BadAuthFormat);
    EmptyDoes(env, st);
    var w := WantedPlain(env, data);
    if w.Try? {
      TryDoes(env, st, w.call);
    }
  }

  /** AUTHENTICATE with an initial response, or refused. */
  lemma AuthenticateDoes(env: Env, st: State, args: seq<Arg>, given: seq<string>, t: string)
    requires forall k: nat :: env.flushOk(k)
    requires !st.hijacked && env.options.maxLineLength >= 2
    requires Given(AUTHENTICATE, args, given) && ContentFits(env, AUTHENTICATE, args)
    requires st.input.data == Tail(AUTHENTICATE, args) + t
    requires !WantedAuthenticate(env, st, Values(args)).Converse?
    ensures var w := WantedAuthenticate(env, st, Values(args));
            var s := HandleAuthenticate(env, st, given);
            Does(env, st, s, false, OutcomeOf(env, st, w))
            && s.input.data == (if w.Refuse? then Tail(AUTHENTICATE, args) else "") + t
  {
    hide Quote, Unquote, Values, Token, Given, ContentFits, Does, OutcomeOf, ClientError, AuthString, AuthChallenge,
         PlainLogin, WantedPlain, OnlyReads, ToUpper, Tail, AskedBehind, Going;
    var values := Values(args);
    NamesGiven(AUTHENTICATE, args, given);
    assert "" + t == t;
    FaultDoes(env, st, AlreadyAuthenticated);
    FaultDoes(env, st, AuthSyntax);
    FaultDoes(env, st, AuthInsecure);
    FaultDoes(env, st, BadMechanism);
    if values != [] {
      UnquoteQuote(values[0]);
    }
    if !WantedAuthenticate(env, st, values).Refuse? {
      ContentGiven(env, st, AUTHENTICATE, args, given, 1, t);
      var (s, data) := AuthString(env, st, given[1]);
      OnlyReadsFields(st, s);
      PlainDoes(env, s, values[1]);
      PlainIsNoRefusal(env, values[1]);
      assert s.output == st.output by { AskedElsewhere(AUTHENTICATE, args); }
      GoingNowhere(OutcomeOf(env, s, WantedPlain(env, values[1])));
      GoingNowhere(OutcomeOf(env, st, WantedPlain(env, values[1])));
      ReadsThenDoes(env, st, s, PlainLogin(env, s, values[1]), false, WantedPlain(env, values[1]), 0);
    } else {
      PlainNeverRefuses(env, st, values);
    }
  }

  lemma PlainIsNoRefusal(env: Env, data: string)
    ensures !WantedPlain(env, data).Refuse? && !WantedPlain(env, data).Converse?
  {
    hide SplitOn;
  }

  lemma PlainNeverRefuses(env: Env, st: State, values: seq<string>)
    requires WantedAuthenticate(env, st, values).Refuse?
    ensures st.authenticated || values == [] || !AuthAllowed(env.options, st.isTLS) || ToUpper(values[0]) != "PLAIN"
  {
    hide WantedPlain, ToUpper;
    if |values| > 1 {
      PlainIsNoRefusal(env, values[1]);
    }
  }

  lemma LoginDoes(env: Env, st: State, args: seq<Arg>, given: seq<string>)
    requires forall k: nat :: env.flushOk(k)
    requires !st.hijacked && Given(LOGIN, args, given) && env.hasLogin
    ensures var w := WantedLogin(env, st, Values(args));
            var s := HandleLogin(env, st, given);
            Does(env, st, s, false, OutcomeOf(env, st, w)) && s.input == st.input
  {
    hide Quote, Unquote, Values, Token, Given, Does, OutcomeOf, ClientError, CallAuth;
    var values := Values(args);
    NamesGiven(LOGIN, args, given);
    FaultDoes(env, st, AlreadyAuthenticated);
    FaultDoes(env, st, AuthInsecure);
    FaultDoes(env, st, LoginSyntax);
    if WantedLogin(env, st, values).Try? {
      UnquoteQuote(values[0]);
      UnquoteQuote(values[1]);
      TryDoes(env, st, Login(values[0], values[1]));
    }
  }

  // ---------------------------------------------------------------------
  // Everything else

  lemma TellDoes(env: Env, st: State, items: seq<Item>, quit: bool)
    requires !st.hijacked
    ensures Does(env, st, WriteAll(st, items), quit, OutcomeOf(env, st, Tell(items, quit)))
  {
    AddsHere(st.output, items);
  }

  lemma CapabilityDoes(env: Env, st: State)
    requires !st.hijacked
    ensures Does(env, st, SayTo(SendCapabilityBlock(env, st), OkBare), false,
                 OutcomeOf(env, st, Tell(CapabilityReply(env, st.isTLS), false)))
  {
    hide Does, OutcomeOf, Capabilities, AdvertisedAll;
    TellDoes(env, st, CapabilityReply(env, st.isTLS), false);
    assert st.output + AdvertisedAll(Capabilities(env.options, st.isTLS)) + [Say(OkBare)]
        == st.output + CapabilityReply(env, st.isTLS);
  }

  lemma NoopDoes(env: Env, st: State, given: seq<string>, values: seq<string>)
    requires !st.hijacked && |given| == |values| && forall i | 0 <= i < |given| :: given[i] == Quote(values[i])
    ensures Does(env, st, Noop(st, given), false,
                 OutcomeOf(env, st, Tell([if values == [] then Say(OkBare) else Tag(values[0])], false)))
  {
    hide Does, OutcomeOf, Quote, Unquote;
    var item := if values == [] then Say(OkBare) else Tag(values[0]);
    if values != [] {
      UnquoteQuote(values[0]);
    }
    TellDoes(env, st, [item], false);
  }

  lemma TLSRefuses(env: Env, st: State)
    requires !st.hijacked && !WantedTLS(env, st).Converse?
    ensures var (s, quit) := HandleStartTLS(env, st);
            Does(env, st, s, quit, OutcomeOf(env, st, WantedTLS(env, st))) && s.input == st.input
  {
    hide Does, OutcomeOf, ClientError, BeginTLS;
    FaultDoes(env, st, TLSUnsupported);
    FaultDoes(env, st, TLSActive);
    FaultDoes(env, st, TLSAfterAuth);
  }

  /** A verb that is none of the names is refused, and so is LOGIN where the session has no such method. */
  lemma UnknownIsRefused(env: Env, st: State, name: string, values: seq<string>)
    requires ReadVerb(name) == UNKNOWN
    ensures Wanted(env, st, name, values) == Refuse(UnknownCommand)
  {
    hide WantedTLS, WantedAuthenticate, WantedLogin, WantedScript, CapabilityReply;
  }

  lemma ScriptIsWanted(env: Env, st: State, verb: Verb, values: seq<string>)
    requires verb.IsScriptCommand()
    ensures Wanted(env, st, VerbName(verb), values)
            == OnceLoggedIn(st, WantedScript(env, VerbName(verb), values))
  {
    hide WantedTLS, WantedAuthenticate, WantedLogin, WantedScript, CapabilityReply;
  }

  lemma ScriptIsNoRefusal(env: Env, verb: Verb, values: seq<string>)
    requires verb.IsScriptCommand()
    ensures !WantedScript(env, VerbName(verb), values).Refuse? && !WantedScript(env, VerbName(verb), values).Converse?
  {
    hide Trim, ValidateScriptName;
  }

  lemma OtherIsWanted(env: Env, st: State, verb: Verb, values: seq<string>)
    requires !verb.IsScriptCommand() && verb != UNKNOWN
    ensures Wanted(env, st, VerbName(verb), values) ==
            match verb
            case CAPABILITY => Tell(CapabilityReply(env, st.isTLS), false)
            case NOOP => Tell([if values == [] then Say(OkBare) else Tag(values[0])], false)
            case LOGOUT => Tell([Say(OkGoodbye)], true)
            case STARTTLS => WantedTLS(env, st)
            case AUTHENTICATE => WantedAuthenticate(env, st, values)
            case _ => WantedLogin(env, st, values)
  {
    hide WantedTLS, WantedAuthenticate, WantedLogin, WantedScript, CapabilityReply;
  }

  /** What is left of the command when it was refused unheard. */
  function LeftOver(w: Request, verb: Verb, args: seq<Arg>): string {
    if w.Refuse? then Tail(verb, args) else ""
  }

  /** The go-ahead for the content of the command, if it was heard. */
  function GoneAhead(w: Request, verb: Verb, args: seq<Arg>): nat {
    if w.Refuse? then 0 else AskedBehind(verb, args)
  }

  /** A dispatched command that ends with its own turn. */
  lemma DispatchDoes(env: Env, st: State, name: string, args: seq<Arg>, given: seq<string>, t: string)
    requires forall k: nat :: env.flushOk(k)
    requires !st.hijacked && env.options.maxLineLength >= 2
    requires var verb := ReadVerb(name);
             && (verb != UNKNOWN ==> name == VerbName(verb))
             && Given(verb, args, given) && ContentFits(env, verb, args) && st.input.data == Tail(verb, args) + t
    requires !Wanted(env, st, name, Values(args)).Converse?
    ensures var w := Wanted(env, st, name, Values(args));
            var (s, quit) := Dispatch(env, st, ReadVerb(name), given);
            Does(env, st, s, quit, Going(OutcomeOf(env, st, w), GoneAhead(w, ReadVerb(name), args)))
            && s.input.data == LeftOver(w, ReadVerb(name), args) + t
  {
    hide Quote, Values, Token, Given, ContentFits, Does, OutcomeOf, ClientError, HandleStartTLS, HandleAuthenticate,
         HandleLogin, ScriptCommand, SendCapabilityBlock, Noop, ReadVerb, VerbName, Wanted, WantedScript, WantedTLS,
         WantedAuthenticate, WantedLogin, CapabilityReply, Tail, AskedBehind, Going;
    var verb, values := ReadVerb(name), Values(args);
    NamesGiven(verb, args, given);
    assert "" + t == t;
    GoingNowhere(OutcomeOf(env, st, Wanted(env, st, name, values)));
    if verb == UNKNOWN {
      UnknownIsRefused(env, st, name, values);
      FaultDoes(env, st, UnknownCommand);
    } else if verb.IsScriptCommand() {
      ScriptIsWanted(env, st, verb, values);
      ScriptIsNoRefusal(env, verb, values);
      FaultDoes(env, st, NotAuthenticated);
      if st.authenticated {
        ScriptDoes(env, st, verb, args, given, t);
      } else {
        Unheard(env, st, verb, given);
      }
    } else {
      OtherIsWanted(env, st, verb, values);
      OtherDoes(env, st, verb, args, given, t);
    }
  }

  lemma Unheard(env: Env, st: State, verb: Verb, given: seq<string>)
    requires !st.authenticated
    ensures ScriptCommand(env, st, verb, given) == ClientError(st, NotAuthenticated)
  {
    hide ClientError;
  }

  lemma OtherDoes(env: Env, st: State, verb: Verb, args: seq<Arg>, given: seq<string>, t: string)
    requires forall k: nat :: env.flushOk(k)
    requires !st.hijacked && env.options.maxLineLength >= 2 && !verb.IsScriptCommand() && verb != UNKNOWN
    requires Given(verb, args, given) && ContentFits(env, verb, args) && st.input.data == Tail(verb, args) + t
    requires !Wanted(env, st, VerbName(verb), Values(args)).Converse?
    ensures var w := Wanted(env, st, VerbName(verb), Values(args));
            var (s, quit) := Dispatch(env, st, verb, given);
            Does(env, st, s, quit, OutcomeOf(env, st, w)) && s.input.data == LeftOver(w, verb, args) + t
            && GoneAhead(w, verb, args) == 0
  {
    hide Quote, Values, Token, Given, ContentFits, Does, OutcomeOf, ClientError, HandleStartTLS, HandleAuthenticate,
         HandleLogin, ScriptCommand, SendCapabilityBlock, Noop, VerbName, Wanted, WantedTLS, WantedAuthenticate,
         WantedLogin, CapabilityReply, Tail, AskedBehind;
    var values := Values(args);
    NamesGiven(verb, args, given);
    OtherIsWanted(env, st, verb, values);
    AskedElsewhere(verb, args);
    if !verb.AUTHENTICATE? {
      NoTail(verb, args);
    }
    assert "" + t == t;
    match verb
    case CAPABILITY =>
      CapabilityDoes(env, st);
      BlockKeepsInput(env, st);
    case NOOP => NoopDoes(env, st, given, values);
      NoopKeepsInput(st, given);
    case LOGOUT => TellDoes(env, st, [Say(OkGoodbye)], true);
    case STARTTLS => TLSRefuses(env, st);
    case AUTHENTICATE => AuthenticateDoes(env, st, args, given, t);
    case LOGIN =>
      if env.hasLogin {
        LoginDoes(env, st, args, given);
      } else {
        NoLogin(env, st, values);
        FaultDoes(env, st, UnknownCommand);
      }
  }

  lemma NoLogin(env: Env, st: State, values: seq<string>)
    requires !env.hasLogin
    ensures WantedLogin(env, st, values) == Refuse(UnknownCommand)
  {
  }

  lemma BlockKeepsInput(env: Env, st: State)
    ensures SayTo(SendCapabilityBlock(env, st), OkBare).input == st.input
  {
    hide Capabilities;
  }

  lemma NoopKeepsInput(st: State, given: seq<string>)
    ensures Noop(st, given).input == st.input
  {
    hide Unquote;
  }

  // ---------------------------------------------------------------------
  // Whole turns

  lemma LookOnly(env: Env, st: State)
    ensures OnlyReads(st, LookAtContext(env, st).0) && LookAtContext(env, st).0.input == st.input
  {
  }

  /** A turn that receives the bytes of c dispatches it with its resolved arguments. */
  lemma TurnDispatches(env: Env, st: State, c: ClientCommand, t: string) returns (s: State)
    requires forall k: nat :: env.flushOk(k)
    requires forall k: nat :: !env.contextDone(k)
    requires Admissible(env, c) && st.input.data == Encode(c) + t
    ensures var verb := VerbOf(c);
            && OnlyReads(st, s) && s.input.data == Unread(verb, 0, c.args) + t
            && |s.output| == |st.output| + Asked(verb, 0, c.args, false)
            && var (s', quit) := Dispatch(env, s, verb, Resolved(verb, 0, c.args));
               Iterate(env, st) == Settle(env, s', quit)
  {
    hide Trim, ParseLine, ReadVerb, ToUpper, ResolveLiteralArgs, Dispatch, Settle, ReadLine, Resolved, Unread, Encode,
         Admissible, OnlyReads;
    var st0 := LookAtContext(env, st).0;
    assert OnlyReads(st, st0) by { LookOnly(env, st); }
    CommandResolves(env, st0, c, t);
    var s1 := ReadLine(env, st0).0;
    s := ResolveLiteralArgs(env, s1, VerbOf(c), FirstTokens(c.args)).0;
    OnlyReadsTwice(st, st0, s);
  }

  lemma SettleServes(env: Env, st: State, s: State, quit: bool, o: Outcome)
    requires forall k: nat :: env.flushOk(k)
    requires WithinBudget(env, st) && Does(env, st, s, quit, o)
    ensures var (r, more) := Settle(env, s, quit);
            Served(env, st, r, more, o) && r.input == s.input
            && (more ==> WithinBudget(env, r))
  {
    var bye := Exhausts(env, st, o);
    if bye {
      var n := |s.output| - |o.items|;
      var all := s.output + [Say(ByeErrors)];
      assert all[..n] == s.output[..n];
      assert all[n..] == s.output[n..] + [Say(ByeErrors)];
    } else {
      assert o.items + [] == o.items;
    }
  }

  lemma WantedSame(env: Env, a: State, b: State, name: string, values: seq<string>)
    requires b.authenticated == a.authenticated && b.isTLS == a.isTLS
    ensures Wanted(env, a, name, values) == Wanted(env, b, name, values)
  {
    hide WantedScript, WantedPlain, CapabilityReply, ToUpper, IsScriptName;
  }

  lemma VerbOfNamed(c: ClientCommand)
    ensures VerbOf(c) == ReadVerb(ToUpper(c.verb))
    ensures VerbOf(c) != UNKNOWN ==> ToUpper(c.verb) == VerbName(VerbOf(c))
  {
    hide ReadVerb, VerbName, ToUpper;
    if VerbOf(c) != UNKNOWN {
      VerbIsNamed(c.verb, VerbOf(c));
    }
  }

  /**
    Every command that ends with its own turn, whatever its verb, in every state
    of the connection and in every mixture of framings: the turn makes exactly the
    difference the text of the verb and the values call for, go-aheads and the
    answer are all that is written, and the next command starts where the client
    starts it, unless a committed literal was refused unheard.
   */
  lemma CommandIsServed(env: Env, st: State, c: ClientCommand, t: string)
    requires forall k: nat :: env.flushOk(k)
    requires forall k: nat :: !env.contextDone(k)
    requires WithinBudget(env, st) && Admissible(env, c) && st.input.data == Encode(c) + t
    requires !Wanted(env, st, ToUpper(c.verb), Values(c.args)).Converse?
    ensures var w := Wanted(env, st, ToUpper(c.verb), Values(c.args));
            var (s, more) := Iterate(env, st);
            && Served(env, st, s, more, CommandOutcome(env, st, c, w))
            && (more ==> WithinBudget(env, s))
            && s.input.data == LeftOver(w, VerbOf(c), c.args) + t
  {
    hide Iterate, Encode, Admissible, Dispatch, Settle, VerbOf, Resolved, Unread, Values, Wanted, OutcomeOf, Served,
         Does, OnlyReads, Given, ContentFits, WithinBudget, LeftOver, Tail, ReadVerb, VerbName, ToUpper, Asked,
         GoneAhead, Going;
    var name, values := ToUpper(c.verb), Values(c.args);
    var w := Wanted(env, st, name, values);
    VerbOfNamed(c);
    var s0 := TurnDispatches(env, st, c, t);
    OnlyReadsFields(st, s0);
    assert !s0.hijacked by { BudgetOpen(env, st); }
    ResolvedIsGiven(env, c);
    var given := Resolved(VerbOf(c), 0, c.args);
    WantedSame(env, st, s0, name, values);
    DispatchDoes(env, s0, name, c.args, given, t);
    var (s1, quit) := Dispatch(env, s0, VerbOf(c), given);
    ReadsThenDoes(env, st, s0, s1, quit, w, GoneAhead(w, VerbOf(c), c.args));
    AskedInAll(env, c, w);
    SettleServes(env, st, s1, quit, CommandOutcome(env, st, c, w));
  }

  /**
    What a command comes to, behind a go-ahead for every literal that the server
    has to ask for: every synchronizing one it reads, but for a SASL response.
   */
  function CommandOutcome(env: Env, st: State, c: ClientCommand, w: Request): Outcome {
    Going(OutcomeOf(env, st, w), Asked(VerbOf(c), 0, c.args, !w.Refuse?))
  }

  lemma AskedInAll(env: Env, c: ClientCommand, w: Request)
    requires ContentFits(env, VerbOf(c), c.args)
    ensures Asked(VerbOf(c), 0, c.args, !w.Refuse?)
            == GoneAhead(w, VerbOf(c), c.args) + Asked(VerbOf(c), 0, c.args, false)
  {
    hide VerbOf, Sync.Accepts;
    AskedSplits(VerbOf(c), 0, c.args);
  }

  lemma BudgetOpen(env: Env, st: State)
    requires WithinBudget(env, st)
    ensures !st.hijacked && !st.closePending
  {
  }

  // ---------------------------------------------------------------------
  // The same, as the client reads it

  /** A download longer than an int64 counts cannot be announced. */
  predicate Announced(env: Env, st: State, w: Request) {
    w.Ask? && w.call.GetScript? ==> |env.session(st.trace, w.call).text| <= MAX_INT64
  }

  lemma ScriptIsProper(env: Env, st: State, name: string, values: seq<string>)
    requires IsScriptName(name) && Announced(env, st, WantedScript(env, name, values))
    ensures Proper(env, st, WantedScript(env, name, values))
  {
    hide Trim, ValidateScriptName;
  }

  lemma PlainIsProper(env: Env, st: State, data: string)
    ensures Proper(env, st, WantedPlain(env, data))
  {
    hide SplitOn;
  }

  lemma TellIsProper(env: Env, st: State, values: seq<string>)
    ensures Proper(env, st, Tell([if values == [] then Say(OkBare) else Tag(values[0])], false))
    ensures Proper(env, st, Tell([Say(OkGoodbye)], true))
  {
    hide Responses.IsRow, Phrase.Text, LineOf;
    Responses.PhraseIsRow(OkBare);
    Responses.PhraseIsRow(OkGoodbye);
    if values != [] {
      assert Responses.IsRow(LineOf(Tag(values[0]))) by { TagLine(values[0]); }
    }
    assert LineOf(Say(OkBare)) == OkBare.Text() && LineOf(Say(OkGoodbye)) == OkGoodbye.Text() by { PhraseLines(); }
  }

  lemma TagLine(text: string)
    ensures Responses.IsRow(LineOf(Tag(text)))
  {
    hide Responses.IsRow, Quote, SanitizeText;
    Responses.TagIsRow(text);
  }

  lemma PhraseLines()
    ensures forall p: Phrase :: LineOf(Say(p)) == p.Text()
  {
    hide Phrase.Text;
  }

  lemma ListingIsProper(env: Env, st: State, isTLS: bool)
    requires Responses.CleanOptions(env.options)
    ensures Proper(env, st, Tell(CapabilityReply(env, isTLS), false))
  {
    hide Responses.IsRow, Phrase.Text, Capabilities, CapabilityLine, Responses.CleanCapability, Responses.CleanOptions;
    var listed := Capabilities(env.options, isTLS);
    Responses.PhraseIsRow(OkBare);
    Responses.CapabilitiesClean(env.options, isTLS);
    forall i | 0 <= i < |listed| ensures Responses.Clean(Advertised(listed[i])) {
      Responses.CapabilityIsRow(listed[i]);
    }
  }

  lemma WantedIsProper(env: Env, st: State, name: string, values: seq<string>)
    requires var w := Wanted(env, st, name, values);
             !w.Converse? && Announced(env, st, w) && (w.Tell? ==> Responses.CleanOptions(env.options))
    ensures Proper(env, st, Wanted(env, st, name, values))
  {
    hide WantedScript, WantedPlain, CapabilityReply, ToUpper, Proper, Responses.CleanOptions, IsScriptName;
    RefuseIsProper(env, st);
    if name == "CAPABILITY" {
      ListingIsProper(env, st, st.isTLS);
    } else if name == "NOOP" || name == "LOGOUT" {
      TellIsProper(env, st, values);
    } else if name == "AUTHENTICATE" {
      if |values| > 1 {
        PlainIsProper(env, st, values[1]);
      }
    } else if name == "LOGIN" {
      if |values| > 1 {
        LoginIsProper(env, st, values[0], values[1]);
      }
    } else if name != "STARTTLS" && IsScriptName(name) && st.authenticated {
      ScriptIsProper(env, st, name, values);
    }
  }

  lemma RefuseIsProper(env: Env, st: State)
    ensures forall fault :: Proper(env, st, Refuse(fault))
  {
  }

  lemma LoginIsProper(env: Env, st: State, username: string, password: string)
    ensures Proper(env, st, Try(Login(username, password)))
  {
  }

  /** Every such command is answered in bytes a client reads as exactly what the command came to. */
  lemma CommandIsRead(env: Env, st: State, c: ClientCommand, t: string)
    requires forall k: nat :: env.flushOk(k)
    requires forall k: nat :: !env.contextDone(k)
    requires WithinBudget(env, st) && Admissible(env, c) && st.input.data == Encode(c) + t
    requires var w := Wanted(env, st, ToUpper(c.verb), Values(c.args));
             !w.Converse? && Announced(env, st, w) && (w.Tell? ==> Responses.CleanOptions(env.options))
    ensures RequestRead(env, st, Iterate(env, st).0, Wanted(env, st, ToUpper(c.verb), Values(c.args)))
  {
    hide Iterate, Encode, Admissible, WithinBudget, Wanted, OutcomeOf, Served, Proper, RequestRead, ToUpper, Values,
         LeftOver, Responses.CleanOptions;
    var w := Wanted(env, st, ToUpper(c.verb), Values(c.args));
    CommandIsServed(env, st, c, t);
    WantedIsProper(env, st, ToUpper(c.verb), Values(c.args));
    var (s, more) := Iterate(env, st);
    ServedIsRead(env, st, s, more, w, Asked(VerbOf(c), 0, c.args, !w.Refuse?));
  }

  // ---------------------------------------------------------------------
  // Script commands and logins in particular

  lemma ScriptTextIsWanted(env: Env, st: State, name: string, values: seq<string>)
    requires IsScriptName(name) && st.authenticated
    ensures Wanted(env, st, name, values) == WantedScript(env, name, values)
    ensures !WantedScript(env, name, values).Refuse? && !WantedScript(env, name, values).Converse?
            && !WantedScript(env, name, values).Tell?
  {
    hide Trim, ValidateScriptName, WantedTLS, WantedAuthenticate, WantedLogin, CapabilityReply;
  }

  /**
    Every script command of an authenticated client, by the text of its verb, in
    any framing: the session is asked exactly the call the values stand for, once,
    or nothing when they stand for none; the client reads its answer; the
    connection goes on unless the session has it closed; and the next command
    starts where the client starts it.
   */
  lemma ScriptCommandIsServed(env: Env, st: State, c: ClientCommand, t: string)
    requires forall k: nat :: env.flushOk(k)
    requires forall k: nat :: !env.contextDone(k)
    requires WithinBudget(env, st) && st.authenticated && IsScriptName(ToUpper(c.verb))
    requires Admissible(env, c) && st.input.data == Encode(c) + t
    ensures var w := WantedScript(env, ToUpper(c.verb), Values(c.args));
            var (s, more) := Iterate(env, st);
            && Served(env, st, s, more, CommandOutcome(env, st, c, w)) && s.input.data == t
            && (more ==> WithinBudget(env, s))
            && (Announced(env, st, w) ==> RequestRead(env, st, s, w))
  {
    hide Iterate, Encode, Admissible, WithinBudget, Wanted, WantedScript, CommandOutcome, Served, RequestRead, ToUpper,
         Values, IsScriptName, Responses.CleanOptions, Announced;
    var name, values := ToUpper(c.verb), Values(c.args);
    ScriptTextIsWanted(env, st, name, values);
    CommandIsServed(env, st, c, t);
    assert "" + t == t;
    if Announced(env, st, WantedScript(env, name, values)) {
      CommandIsRead(env, st, c, t);
    }
  }

  predicate MayAuthenticate(env: Env, st: State) {
    !st.authenticated && AuthAllowed(env.options, st.isTLS)
  }

  /** LOGIN in any framing passes on its two values, user name first, and the client reads the session's verdict. */
  lemma LoginIsTried(env: Env, st: State, c: ClientCommand, t: string)
    requires forall k: nat :: env.flushOk(k)
    requires forall k: nat :: !env.contextDone(k)
    requires WithinBudget(env, st) && MayAuthenticate(env, st) && env.hasLogin
    requires Says(c, "LOGIN") && |c.args| >= 2 && Admissible(env, c) && st.input.data == Encode(c) + t
    ensures var w := Try(Login(c.args[0].value, c.args[1].value));
            var (s, more) := Iterate(env, st);
            Served(env, st, s, more, CommandOutcome(env, st, c, w)) && s.input.data == t && RequestRead(env, st, s, w)
  {
    hide Iterate, Encode, Admissible, WithinBudget, CommandOutcome, Served, RequestRead, ToUpper, Values,
         CapabilityReply, WantedScript, Responses.CleanOptions;
    ValuesAre(c.args);
    CommandIsServed(env, st, c, t);
    CommandIsRead(env, st, c, t);
    assert "" + t == t;
  }

  lemma {:induction false} ValuesAre(args: seq<Arg>)
    ensures |Values(args)| == |args| && forall i | 0 <= i < |args| :: Values(args)[i] == args[i].value
  {
    if args != [] {
      ValuesAre(args[1..]);
    }
  }

  lemma {:induction false} SplitFirst(front: string, c: char, rest: string)
    requires Lacks(front, c)
    ensures SplitOn(front + [c] + rest, c) == [front] + SplitOn(rest, c)
  {
    var s := front + [c] + rest;
    IndexOfAt(s, c, |front|);
    assert s[..|front|] == front && s[|front| + 1..] == rest;
  }

  lemma SplitLast(s: string, c: char)
    requires Lacks(s, c)
    ensures SplitOn(s, c) == [s]
  {
    IndexOfAt(s, c, |s|);
  }

  /** The PLAIN message (section 2 of RFC 4616). */
  function PlainMessage(authzId: string, authnId: string, password: string): string {
    authzId + ['\U{00}'] + (authnId + ['\U{00}'] + password)
  }

  /** The three fields of a PLAIN message are recovered, in order. */
  lemma PlainMessageRoundTrip(authzId: string, authnId: string, password: string)
    requires Lacks(authzId, '\U{00}') && Lacks(authnId, '\U{00}') && Lacks(password, '\U{00}')
    ensures SplitOn(PlainMessage(authzId, authnId, password), '\U{00}') == [authzId, authnId, password]
  {
    hide SplitOn;
    SplitFirst(authzId, '\U{00}', authnId + ['\U{00}'] + password);
    SplitFirst(authnId, '\U{00}', password);
    SplitLast(password, '\U{00}');
  }

  lemma {:induction false} SplitJoins(s: string, c: char)
    ensures forall i | 0 <= i < |SplitOn(s, c)| :: Lacks(SplitOn(s, c)[i], c)
    ensures |SplitOn(s, c)| == 1 ==> s == SplitOn(s, c)[0]
    ensures |SplitOn(s, c)| > 1 ==> exists rest :: SplitOn(s, c) == [SplitOn(s, c)[0]] + SplitOn(rest, c)
                                                   && s == SplitOn(s, c)[0] + [c] + rest
    decreases |s|
  {
    var i := IndexOf(s, c);
    if i < |s| {
      var rest := s[i + 1..];
      SplitJoins(rest, c);
      assert s == s[..i] + [c] + rest;
      assert SplitOn(s, c) == [s[..i]] + SplitOn(rest, c);
    }
  }

  /** A message has three fields exactly if it is the PLAIN message of them: no other is ever tried. */
  lemma ThreeFieldsArePlain(message: string)
    requires |SplitOn(message, '\U{00}')| == 3
    ensures var f := SplitOn(message, '\U{00}');
            message == PlainMessage(f[0], f[1], f[2])
            && Lacks(f[0], '\U{00}') && Lacks(f[1], '\U{00}') && Lacks(f[2], '\U{00}')
  {
    hide SplitOn;
    SplitJoins(message, '\U{00}');
    var f := SplitOn(message, '\U{00}');
    var rest :| f == [f[0]] + SplitOn(rest, '\U{00}') && message == f[0] + ['\U{00}'] + rest;
    var g := SplitOn(rest, '\U{00}');
    assert g == f[1..];
    SplitJoins(rest, '\U{00}');
    var last :| g == [g[0]] + SplitOn(last, '\U{00}') && rest == g[0] + ['\U{00}'] + last;
    assert SplitOn(last, '\U{00}') == g[1..];
    SplitJoins(last, '\U{00}');
  }

  /** A response is tried exactly if it decodes to the PLAIN message of those fields, the password not empty. */
  lemma PlainIsWanted(env: Env, data: string, authzId: string, authnId: string, password: string)
    requires Lacks(authzId, '\U{00}') && Lacks(authnId, '\U{00}') && Lacks(password, '\U{00}')
    ensures WantedPlain(env, data) == Try(AuthenticatePlain(authzId, authnId, password))
            <==> env.decodeBase64(data) == Some(PlainMessage(authzId, authnId, password)) && password != ""
  {
    hide SplitOn, PlainMessage;
    PlainMessageRoundTrip(authzId, authnId, password);
    if env.decodeBase64(data).Some? && |SplitOn(env.decodeBase64(data).value, '\U{00}')| == 3 {
      ThreeFieldsArePlain(env.decodeBase64(data).value);
    }
  }

  /**
    AUTHENTICATE PLAIN with an initial response, in any framing: the three fields
    of the message reach the session in order, and the client reads its verdict.
   */
  lemma PlainIsTried(env: Env, st: State, c: ClientCommand, authzId: string, authnId: string, password: string,
      t: string)
    requires forall k: nat :: env.flushOk(k)
    requires forall k: nat :: !env.contextDone(k)
    requires WithinBudget(env, st) && MayAuthenticate(env, st)
    requires Says(c, "AUTHENTICATE") && |c.args| >= 2 && Admissible(env, c) && st.input.data == Encode(c) + t
    requires ToUpper(c.args[0].value) == "PLAIN"
    requires Lacks(authzId, '\U{00}') && Lacks(authnId, '\U{00}') && Lacks(password, '\U{00}') && password != ""
    requires env.decodeBase64(c.args[1].value) == Some(PlainMessage(authzId, authnId, password))
    ensures var w := Try(AuthenticatePlain(authzId, authnId, password));
            var (s, more) := Iterate(env, st);
            Served(env, st, s, more, CommandOutcome(env, st, c, w)) && s.input.data == t && RequestRead(env, st, s, w)
  {
    hide Iterate, Encode, Admissible, WithinBudget, CommandOutcome, Served, RequestRead, ToUpper, Values,
         CapabilityReply, WantedScript, WantedPlain, PlainMessage, Lacks, Responses.CleanOptions;
    ValuesAre(c.args);
    PlainIsWanted(env, c.args[1].value, authzId, authnId, password);
    CommandIsServed(env, st, c, t);
    CommandIsRead(env, st, c, t);
    assert "" + t == t;
  }
}
