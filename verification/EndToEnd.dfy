/**
  A server connection in front of the in-memory store, from the client's bytes
  to the client's reading of the reply: every command is answered as the
  account's ordered map answers it, and what is uploaded is what is downloaded.
 */
module EndToEnd {
  import opened Text
  import opened Parser
  import opened Protocol
  import opened ConnSpec
  import opened Serving
  import opened Framing
  import opened Outcomes
  import opened StoreSession
  import Accounts
  import Calls
  import Exchanges
  import Responses
  import ScriptList
  import Verdicts

  /** The connection's session is the store, and nothing disturbs the connection. */
  ghost predicate BackedBy(env: Env, h: Accounts.Host, digest: string -> string, start: Backend) {
    && (forall t, call :: env.session(t, call) == Answer(h, digest, Replay(h, digest, start, t), call).1)
    && (forall k: nat :: env.flushOk(k)) && (forall k: nat :: !env.contextDone(k))
  }

  // ---------------------------------------------------------------------
  // One command against the store

  /** A client reads the reply, behind go-aheads at most, and nothing else. */
  ghost predicate ReadsReply(env: Env, st: State, s: State, call: Call, reply: Reply) {
    |st.output| <= |s.output| &&
    exists rs: seq<Responses.Response> ::
      AnswerRead(env.options, call, reply, rs) && Hears(Heard(st, s), rs, false)
  }

  /** The store has answered this call, the client reads its answer, and the connection goes on unless told not to. */
  ghost predicate StoreAnswers(env: Env, h: Accounts.Host, digest: string -> string, start: Backend, st: State,
                               s: State, more: bool, call: Call)
  {
    var (b, reply) := Answer(h, digest, Replay(h, digest, start, st.trace), call);
    && s.trace == st.trace + [Called(call, reply.error.None?)]
    && Replay(h, digest, start, s.trace) == b
    && s.authenticated && !s.hijacked && s.errorCount == st.errorCount
    && (more <==> !Closes(reply.error)) && (more ==> WithinBudget(env, s))
    && ((call.GetScript? ==> |reply.text| <= MAX_INT64) ==> ReadsReply(env, st, s, call, reply))
  }

  lemma AskIsStored(env: Env, h: Accounts.Host, digest: string -> string, start: Backend, st: State, s: State,
                    more: bool, call: Call, n: nat)
    requires BackedBy(env, h, digest, start) && WithinBudget(env, st) && st.authenticated && call.IsScript()
    requires Served(env, st, s, more, Going(OutcomeOf(env, st, Ask(call)), n)) && (more ==> WithinBudget(env, s))
    requires (call.GetScript? ==> |env.session(st.trace, call).text| <= MAX_INT64)
             ==> RequestRead(env, st, s, Ask(call))
    ensures StoreAnswers(env, h, digest, start, st, s, more, call)
  {
    hide Answer, Replay, Answers, AnswerRead, Hears, Heard;
    var reply := env.session(st.trace, call);
    assert reply == Answer(h, digest, Replay(h, digest, start, st.trace), call).1;
    ReplayCall(h, digest, start, st.trace, call, reply.error.None?);
    assert !Exhausts(env, st, OutcomeOf(env, st, Ask(call)));
  }

  /** Every script command whose values stand for a call, whatever its framing. */
  lemma CommandIsStored(env: Env, h: Accounts.Host, digest: string -> string, start: Backend, st: State,
                        c: ClientCommand, call: Call, t: string)
    requires BackedBy(env, h, digest, start) && WithinBudget(env, st) && st.authenticated
    requires IsScriptName(ToUpper(c.verb)) && WantedScript(env, ToUpper(c.verb), Values(c.args)) == Ask(call)
    requires Admissible(env, c) && st.input.data == Encode(c) + t
    ensures var (s, more) := Iterate(env, st);
            StoreAnswers(env, h, digest, start, st, s, more, call) && s.input.data == t
  {
    hide Iterate, Encode, Admissible, WithinBudget, WantedScript, OutcomeOf, Served, RequestRead, ToUpper, Values,
         IsScriptName, StoreAnswers, Answer, Replay;
    Calls.ScriptCommandIsServed(env, st, c, t);
    CallsAreScript(env, ToUpper(c.verb), Values(c.args), call);
    var (s, more) := Iterate(env, st);
    AskIsStored(env, h, digest, start, st, s, more, call, Asked(VerbOf(c), 0, c.args, true));
  }

  lemma CallsAreScript(env: Env, name: string, values: seq<string>, call: Call)
    requires WantedScript(env, name, values) == Ask(call)
    ensures call.IsScript()
  {
    hide Trim, ValidateScriptName;
  }

  /**
    For every script command but CHECKSCRIPT, in any framing: the reply a client
    reads, and what becomes of every account, are those of the ordered maps.
   */
  lemma CommandIsMaps(env: Env, h: Accounts.Host, digest: string -> string, start: Backend, st: State,
                      c: ClientCommand, call: Call, catalogs: Accounts.Catalogs, t: string)
    returns (catalogs': Accounts.Catalogs, reply: Reply)
    requires BackedBy(env, h, digest, start) && WithinBudget(env, st) && st.authenticated
    requires IsScriptName(ToUpper(c.verb)) && WantedScript(env, ToUpper(c.verb), Values(c.args)) == Ask(call)
    requires !call.CheckScript? && Admissible(env, c) && st.input.data == Encode(c) + t
    requires Stands(Replay(h, digest, start, st.trace), catalogs)
    ensures call.IsScript()
    ensures AnsweredByMap(h, Replay(h, digest, start, st.trace).user, call, catalogs, catalogs', reply)
    ensures var (s, more) := Iterate(env, st);
            && Stands(Replay(h, digest, start, s.trace), catalogs') && s.input.data == t
            && (more <==> !Closes(reply.error))
            && ((call.GetScript? ==> |reply.text| <= MAX_INT64) ==> ReadsReply(env, st, s, call, reply))
  {
    hide Iterate, Encode, Admissible, WithinBudget, WantedScript, ToUpper, Values, IsScriptName, Answer, Replay, Stands,
         AnsweredByMap, ReadsReply, BackedBy;
    var b := Replay(h, digest, start, st.trace);
    CallsAreScript(env, ToUpper(c.verb), Values(c.args), call);
    CommandIsStored(env, h, digest, start, st, c, call, t);
    catalogs' := AnswerIsMaps(h, digest, b, call, catalogs);
    reply := Answer(h, digest, b, call).1;
  }

  /** HAVESPACE likewise, for every size an int64 holds and the server would take. */
  lemma SpaceIsStored(env: Env, h: Accounts.Host, digest: string -> string, start: Backend, st: State,
                      verb: string, name: Arg, size: nat, t: string)
    requires BackedBy(env, h, digest, start) && WithinBudget(env, st) && st.authenticated
    requires IsVerb(verb) && ToUpper(verb) == "HAVESPACE" && Exchanges.QueryFits(env, verb, name, Decimal(size))
    requires size <= MAX_INT64 && !(0 < env.options.maxScriptSize < size)
    requires st.input.data == Exchanges.SpaceQuery(verb, name, Decimal(size)) + t
    ensures var (s, more) := Iterate(env, st);
            StoreAnswers(env, h, digest, start, st, s, more, HaveSpace(Trim(name.value), size)) && s.input.data == t
  {
    hide Iterate, IsVerb, WithinBudget, WantedSpace, OutcomeOf, Served, RequestRead, ToUpper, Trim, StoreAnswers,
         Answer, Replay, Exchanges.QueryFits, Exchanges.SpaceQuery, Exchanges.BareWord, Decimal;
    Exchanges.DecimalIsWanted(env, name.value, size);
    Exchanges.HaveSpaceIsServed(env, st, verb, name, Decimal(size), t);
    var (s, more) := Iterate(env, st);
    AskIsStored(env, h, digest, start, st, s, more, HaveSpace(Trim(name.value), size), Exchanges.Asks(name));
  }

  /** A client reads why the host rejected a script, without control bytes. */
  lemma ValidationIsRead(text: string)
    ensures var e := Accounts.WrapValidationError(Accounts.Other(text));
            e.Coded? && Verdicts.ReadText(LineOf(DenyCoded(e.code, e.message)))
                        == Some("Script validation failed: " + SanitizeText(text))
  {
    hide Quote, Unquote, SanitizeText;
    var m := "Script validation failed: " + SanitizeText(text);
    assert Lacks(SanitizeText(text), '\r') && Lacks(SanitizeText(text), '\n');
    QuotedIsOneLine(m);
    QuoteShape(m);
    UnquoteQuote(m);
    var line := "NO " + Quote(m);
    assert line[..4] == "NO \"" && line[3..] == Quote(m);
  }

  // ---------------------------------------------------------------------
  // PUTSCRIPT and GETSCRIPT

  predicate IsPut(c: ClientCommand, name: string, content: string) {
    Says(c, "PUTSCRIPT") && |c.args| >= 2 && Trim(c.args[0].value) == name && c.args[1].value == content
  }

  predicate IsGet(c: ClientCommand, name: string) {
    Says(c, "GETSCRIPT") && c.args != [] && Trim(c.args[0].value) == name
  }

  lemma PutIsAsked(env: Env, c: ClientCommand, name: string, content: string)
    requires IsPut(c, name, content) && ValidateScriptName(name) == None && FitsScript(env, content)
    ensures IsScriptName(ToUpper(c.verb))
    ensures WantedScript(env, ToUpper(c.verb), Values(c.args)) == Ask(PutScript(name, content))
  {
    hide Trim, ValidateScriptName, ToUpper, Values;
    Calls.ValuesAre(c.args);
  }

  lemma GetIsAsked(env: Env, c: ClientCommand, name: string)
    requires IsGet(c, name)
    ensures IsScriptName(ToUpper(c.verb))
    ensures WantedScript(env, ToUpper(c.verb), Values(c.args)) == Ask(GetScript(name))
  {
    hide Trim, ToUpper, Values;
    Calls.ValuesAre(c.args);
  }

  /** The last line a client reads, and what it tells. */
  predicate Concludes(st: State, s: State, v: Verdicts.Verdict) {
    && |st.output| <= |s.output|
    && var heard := Heard(st, s);
       heard.Some? && TellsLast(heard.value, v)
  }

  lemma ReplyConcludes(env: Env, st: State, s: State, call: Call, reply: Reply)
    requires ReadsReply(env, st, s, call, reply)
    ensures Concludes(st, s, if reply.error.None? then Verdicts.Accepts else Verdicts.Refuses)
  {
    hide Heard, Verdicts.Tells, RefusalRead, SuccessRead;
    var rs :| AnswerRead(env.options, call, reply, rs) && Hears(Heard(st, s), rs, false);
    var heard := Heard(st, s).value;
    var first := |heard| - |rs|;
    assert heard[first..first + |rs|][|rs| - 1] == heard[|heard| - 1];
  }

  /**
    A PUTSCRIPT of an admissible name and size, in any framing: the store is asked
    to keep it, the client reads OK exactly if it did, and if it did, the account
    holds that content under that name.
   */
  lemma PutStores(env: Env, h: Accounts.Host, digest: string -> string, start: Backend, st: State, c: ClientCommand,
                  name: string, content: string, t: string)
    requires BackedBy(env, h, digest, start) && WithinBudget(env, st) && st.authenticated
    requires IsPut(c, name, content) && Admissible(env, c) && st.input.data == Encode(c) + t
    requires ValidateScriptName(name) == None && FitsScript(env, content)
    ensures var b := Replay(h, digest, start, st.trace);
            var (accounts, r) := Accounts.PutScript(h, b.accounts, b.user, name, content);
            var (s, more) := Iterate(env, st);
            && s.input.data == t && s.authenticated && !s.hijacked
            && s.trace == st.trace + [Called(PutScript(name, content), !r.Refused?)]
            && Replay(h, digest, start, s.trace) == Backend(accounts, b.user)
            && Concludes(st, s, if r.Refused? then Verdicts.Refuses else Verdicts.Accepts)
            && (!r.Refused? ==>
                  more && WithinBudget(env, s) && Accounts.Snapshot(accounts, b.user, name) == (Some(content), None))
  {
    hide Iterate, Encode, Admissible, WithinBudget, WantedScript, ToUpper, Values, IsScriptName, Replay, IsPut,
         Accounts.PutScript, Accounts.Snapshot, ReadsReply, Concludes, FitsScript, ValidateScriptName, BackedBy, Answer,
         StoreAnswers;
    var b := Replay(h, digest, start, st.trace);
    PutIsAsked(env, c, name, content);
    CommandIsStored(env, h, digest, start, st, c, PutScript(name, content), t);
    PutIsKept(env, h, digest, start, st, Iterate(env, st).0, Iterate(env, st).1, name, content);
    if !Accounts.PutScript(h, b.accounts, b.user, name, content).1.Refused? {
      PutThenSnapshot(h, b.accounts, b.user, name, content);
    }
  }

  lemma PutAnswer(h: Accounts.Host, digest: string -> string, b: Backend, name: string, content: string)
    ensures var (accounts, r) := Accounts.PutScript(h, b.accounts, b.user, name, content);
            var (b', reply) := Answer(h, digest, b, PutScript(name, content));
            b' == Backend(accounts, b.user) && (reply.error.Some? <==> r.Refused?)
  {
    hide Accounts.PutScript;
  }

  lemma PutIsKept(env: Env, h: Accounts.Host, digest: string -> string, start: Backend, st: State, s: State, more: bool,
                  name: string, content: string)
    requires StoreAnswers(env, h, digest, start, st, s, more, PutScript(name, content))
    ensures var b := Replay(h, digest, start, st.trace);
            var (accounts, r) := Accounts.PutScript(h, b.accounts, b.user, name, content);
            && s.authenticated && !s.hijacked
            && s.trace == st.trace + [Called(PutScript(name, content), !r.Refused?)]
            && Replay(h, digest, start, s.trace) == Backend(accounts, b.user)
            && Concludes(st, s, if r.Refused? then Verdicts.Refuses else Verdicts.Accepts)
            && (!r.Refused? ==> more && WithinBudget(env, s))
  {
    hide WithinBudget, Replay, Accounts.PutScript, ReadsReply, Concludes, Answer;
    var b := Replay(h, digest, start, st.trace);
    PutAnswer(h, digest, b, name, content);
    ReplyConcludes(env, st, s, PutScript(name, content), Answer(h, digest, b, PutScript(name, content)).1);
  }

  /** A GETSCRIPT in any framing is answered with the stored content, and with NO exactly if there is none. */
  lemma GetReturns(env: Env, h: Accounts.Host, digest: string -> string, start: Backend, st: State, c: ClientCommand,
                   name: string, t: string)
    requires BackedBy(env, h, digest, start) && WithinBudget(env, st) && st.authenticated
    requires IsGet(c, name) && Admissible(env, c) && st.input.data == Encode(c) + t
    ensures var b := Replay(h, digest, start, st.trace);
            var content := Accounts.Snapshot(b.accounts, b.user, name).0;
            var (s, more) := Iterate(env, st);
            && s.input.data == t && Replay(h, digest, start, s.trace) == b
            && match content {
              case Some(text) => more && (|text| <= MAX_INT64 ==> Downloads(st, s, text))
              case None => Concludes(st, s, Verdicts.Refuses)
            }
  {
    hide Iterate, Encode, Admissible, WithinBudget, WantedScript, ToUpper, Values, IsScriptName, Replay, IsGet,
         Accounts.Snapshot, ReadsReply, Concludes, BackedBy, Downloads;
    var b := Replay(h, digest, start, st.trace);
    GetIsAsked(env, c, name);
    CommandIsStored(env, h, digest, start, st, c, GetScript(name), t);
    var reply := Answer(h, digest, b, GetScript(name)).1;
    assert SnapshotFinds(b, name) by { SnapshotAnswers(b, name); }
    var s := Iterate(env, st).0;
    if reply.error.Some? {
      ReplyConcludes(env, st, s, GetScript(name), reply);
    } else if |reply.text| <= MAX_INT64 {
      ReplyDownloads(env, st, s, name, reply);
    }
  }

  /** What a client reads last is this content, and OK. */
  predicate Downloads(st: State, s: State, content: string) {
    && |st.output| <= |s.output|
    && var heard := Heard(st, s);
       heard.Some? && |heard.value| >= 2
           && heard.value[|heard.value| - 2..] == [Responses.Content(content), Responses.Row("OK")]
  }

  lemma ReplyDownloads(env: Env, st: State, s: State, name: string, reply: Reply)
    requires ReadsReply(env, st, s, GetScript(name), reply) && reply.error.None?
    ensures Downloads(st, s, reply.text)
  {
    hide Heard, Verdicts.Tells, Hears, RefusalRead;
    var rs :| AnswerRead(env.options, GetScript(name), reply, rs) && Hears(Heard(st, s), rs, false);
    assert rs == [Responses.Content(reply.text), Responses.Row("OK")];
    EndsHeard(Heard(st, s), rs);
  }

  lemma EndsHeard(heard: Option<seq<Responses.Response>>, rs: seq<Responses.Response>)
    requires Hears(heard, rs, false)
    ensures heard.Some? && |rs| <= |heard.value| && heard.value[|heard.value| - |rs|..] == rs
  {
    var first := |heard.value| - |rs|;
    assert heard.value[first..] == heard.value[first..first + |rs|];
  }

  lemma PutThenSnapshot(h: Accounts.Host, accounts: Accounts.AccountMap, user: string, name: string, content: string)
    requires !Accounts.PutScript(h, accounts, user, name, content).1.Refused?
    ensures Accounts.Snapshot(Accounts.PutScript(h, accounts, user, name, content).0, user, name)
            == (Some(content), None)
  {
    var rs := accounts[user].scripts;
    var rs' := ScriptList.Put(rs, name, content, h.maxScripts).0;
    var i := ScriptList.Find(rs, name);
    assert rs'[i].name == name && rs'[i].content == content;
    FindsFirst(rs', name, i);
  }

  lemma {:induction false} FindsFirst(rs: ScriptList.Records, name: string, i: nat)
    requires i < |rs| && rs[i].name == name && forall j | 0 <= j < i :: rs[j].name != name
    ensures ScriptList.Find(rs, name) == i
  {
  }

  /**
    End to end: for every name and content, however both are framed, a PUTSCRIPT
    the store accepts followed by a GETSCRIPT of that name is read as OK and then
    as exactly the uploaded content, and the client's next command is read from
    where it starts.
   */
  lemma WhatIsPutIsGot(env: Env, h: Accounts.Host, digest: string -> string, start: Backend, st: State,
                       put: ClientCommand, get: ClientCommand, name: string, content: string, t: string)
    requires BackedBy(env, h, digest, start) && WithinBudget(env, st) && st.authenticated
    requires IsPut(put, name, content) && IsGet(get, name) && Admissible(env, put) && Admissible(env, get)
    requires ValidateScriptName(name) == None && FitsScript(env, content)
    requires st.input.data == Encode(put) + (Encode(get) + t)
    requires var b := Replay(h, digest, start, st.trace);
             !Accounts.PutScript(h, b.accounts, b.user, name, content).1.Refused?
    ensures var (s1, more1) := Iterate(env, st);
            && more1 && !s1.hijacked && Concludes(st, s1, Verdicts.Accepts)
            && var (s2, more2) := Iterate(env, s1);
               more2 && s2.input.data == t && (|content| <= MAX_INT64 ==> Downloads(s1, s2, content))
  {
    hide Iterate, Encode, Admissible, Replay, Accounts.PutScript, Accounts.Snapshot, ValidateScriptName, Concludes,
         Downloads, BackedBy, WithinBudget;
    PutStores(env, h, digest, start, st, put, name, content, Encode(get) + t);
    GetReturns(env, h, digest, start, Iterate(env, st).0, get, name, t);
  }

  // ---------------------------------------------------------------------
  // Logins

  /** A login was tried on the store: the client gets in, and reads OK, exactly if the store grants it. */
  ghost predicate Checked(digest: string -> string, b: Backend, b': Backend, st: State, s: State, call: Call)
    requires call.IsAuth()
  {
    var granted := Grants(b.accounts, digest, call);
    && s.trace == st.trace + [Called(call, granted)]
    && s.authenticated == granted && !s.hijacked
    && b' == (if granted then Backend(b.accounts, Claimed(call).0) else b)
    && |st.output| <= |s.output|
    && exists rs: seq<Responses.Response>, bye ::
         Hears(Heard(st, s), rs, bye) && LoginRead(rs, granted) && (bye ==> !granted)
  }

  /** One line: OK, or that authentication failed and nothing about why. */
  predicate LoginRead(rs: seq<Responses.Response>, granted: bool) {
    && |rs| == 1 && rs[0].Row?
    && if granted then Verdicts.Tells(rs[0].text, Verdicts.Accepts)
       else rs[0].text == "NO " + Quote("Authentication failed")
  }

  lemma QuotedIsOneLine(text: string)
    requires Lacks(text, '\r') && Lacks(text, '\n')
    ensures OneLine(Quote(text)) && Quote(text) != ""
  {
    hide Quote;
    QuoteShape(text);
    QuoteLacks(text, '\n');
    QuoteLacks(text, '\r');
  }

  lemma RefusalIsOneLine()
    ensures OneLine(Quote("Authentication failed")) && Quote("Authentication failed") != ""
  {
    hide Quote, OneLine;
    QuotedIsOneLine("Authentication failed");
  }

  lemma TryIsChecked(env: Env, h: Accounts.Host, digest: string -> string, start: Backend, st: State, s: State,
                     more: bool, call: Call, n: nat)
    requires BackedBy(env, h, digest, start) && WithinBudget(env, st) && call.IsAuth()
    requires Served(env, st, s, more, Going(OutcomeOf(env, st, Try(call)), n)) && RequestRead(env, st, s, Try(call))
    ensures Checked(digest, Replay(h, digest, start, st.trace), Replay(h, digest, start, s.trace), st, s, call)
  {
    hide Answer, Replay, Grants, Hears, Heard, Quote, Verdicts.Tells, OneLine, Verdicts.ReadCoded;
    var b := Replay(h, digest, start, st.trace);
    var reply := env.session(st.trace, call);
    assert reply == Answer(h, digest, b, call).1;
    LoginIsChecked(h, digest, b, call);
    var ok := reply.error.None?;
    assert s.trace == st.trace + [Called(call, ok)];
    ReplayCall(h, digest, start, st.trace, call, ok);
    RefusalIsOneLine();
    var o := OutcomeOf(env, st, Try(call));
    var rs :| Understood(env, st, Try(call), rs) && Hears(Heard(st, s), rs, Exhausts(env, st, o));
    assert ok ==> !Exhausts(env, st, o);
    assert LoginRead(rs, ok);
  }

  /** LOGIN in any framing lets in exactly the owner of the account, and the client reads whether it did. */
  lemma LoginIsGranted(env: Env, h: Accounts.Host, digest: string -> string, start: Backend, st: State,
                       c: ClientCommand, t: string)
    requires BackedBy(env, h, digest, start) && WithinBudget(env, st) && Calls.MayAuthenticate(env, st) && env.hasLogin
    requires Says(c, "LOGIN") && |c.args| >= 2 && Admissible(env, c) && st.input.data == Encode(c) + t
    ensures var s := Iterate(env, st).0;
            && Checked(digest, Replay(h, digest, start, st.trace), Replay(h, digest, start, s.trace), st, s,
                       Login(c.args[0].value, c.args[1].value))
            && s.input.data == t
  {
    hide Iterate, Encode, Admissible, WithinBudget, Served, RequestRead, Checked, Replay, ToUpper, Answer, OutcomeOf;
    Calls.LoginIsTried(env, st, c, t);
    var (s, more) := Iterate(env, st);
    TryIsChecked(env, h, digest, start, st, s, more, Login(c.args[0].value, c.args[1].value),
                 Asked(VerbOf(c), 0, c.args, true));
  }

  /** AUTHENTICATE PLAIN with an initial response likewise. */
  lemma PlainIsGranted(env: Env, h: Accounts.Host, digest: string -> string, start: Backend, st: State,
                       c: ClientCommand, authzId: string, authnId: string, password: string, t: string)
    requires BackedBy(env, h, digest, start) && WithinBudget(env, st) && Calls.MayAuthenticate(env, st)
    requires Says(c, "AUTHENTICATE") && |c.args| >= 2 && Admissible(env, c) && st.input.data == Encode(c) + t
    requires ToUpper(c.args[0].value) == "PLAIN"
    requires Lacks(authzId, '\U{00}') && Lacks(authnId, '\U{00}') && Lacks(password, '\U{00}') && password != ""
    requires env.decodeBase64(c.args[1].value) == Some(Calls.PlainMessage(authzId, authnId, password))
    ensures var s := Iterate(env, st).0;
            && Checked(digest, Replay(h, digest, start, st.trace), Replay(h, digest, start, s.trace), st, s,
                       AuthenticatePlain(authzId, authnId, password))
            && s.input.data == t
  {
    hide Iterate, Encode, Admissible, WithinBudget, Served, RequestRead, Checked, Replay, ToUpper, Answer, OutcomeOf,
         Calls.PlainMessage, Lacks;
    Calls.PlainIsTried(env, st, c, authzId, authnId, password, t);
    var (s, more) := Iterate(env, st);
    TryIsChecked(env, h, digest, start, st, s, more, AuthenticatePlain(authzId, authnId, password),
                 Asked(VerbOf(c), 0, c.args, true));
  }
}
