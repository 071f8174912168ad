/**
  Environments that differ only in what looks at the reader's buffer find, and
  the operations that take no such look: they are the same in both.
 */
module Looks {
  import opened Text
  import opened Parser
  import opened LineReader
  import opened Protocol
  import opened ConnSpec

  /** The same environment, except for what looks at the buffer find. */
  ghost predicate Twins(e: Env, f: Env) {
    f == e.(buffered := f.buffered)
  }

  lemma SameOptions(e: Env, f: Env)
    requires Twins(e, f)
    ensures e.options == f.options
  {
  }

  lemma FetchSame(e: Env, f: Env, st: State, n: nat, nonSync: bool, failure: Phrase)
    requires Twins(e, f)
    ensures FetchLiteral(e, st, n, nonSync, failure) == FetchLiteral(f, st, n, nonSync, failure)
    ensures FetchLiteral(e, st, n, nonSync, failure).0.ticks.peeks == st.ticks.peeks
  {
    hide FirstLine;
  }

  lemma ReportSame(e: Env, f: Env, st: State, error: SessionError)
    requires Twins(e, f)
    ensures ReportError(e, st, error) == ReportError(f, st, error) && ReportError(e, st, error).ticks == st.ticks
    ensures AuthFailure(e, st, error) == AuthFailure(f, st, error) && AuthFailure(e, st, error).ticks == st.ticks
  {
  }

  lemma CallForLineSame(e: Env, f: Env, st: State, call: Call, phrase: Phrase)
    requires Twins(e, f)
    ensures CallForLine(e, st, call, phrase) == CallForLine(f, st, call, phrase)
    ensures CallForLine(e, st, call, phrase).ticks == st.ticks
  {
    hide ReportError;
    var (s, reply) := CallSession(e, st, call);
    if reply.error.Some? {
      ReportSame(e, f, s, reply.error.value);
    }
  }

  lemma ListAndGetSame(e: Env, f: Env, st: State, args: seq<string>)
    requires Twins(e, f)
    ensures HandleListScripts(e, st) == HandleListScripts(f, st) && HandleListScripts(e, st).ticks == st.ticks
    ensures HandleGetScript(e, st, args) == HandleGetScript(f, st, args)
            && HandleGetScript(e, st, args).ticks == st.ticks
  {
    hide ReportError, Name, ListItems;
    var (s, reply) := CallSession(e, st, ListScripts);
    if reply.error.Some? {
      ReportSame(e, f, s, reply.error.value);
    }
    if args != [] {
      var (s2, reply2) := CallSession(e, st, GetScript(Name(args[0])));
      if reply2.error.Some? {
        ReportSame(e, f, s2, reply2.error.value);
      }
    }
  }

  lemma OneLineSame(e: Env, f: Env, st: State, args: seq<string>)
    requires Twins(e, f)
    ensures HandleHaveSpace(e, st, args) == HandleHaveSpace(f, st, args)
            && HandleHaveSpace(e, st, args).ticks == st.ticks
    ensures HandleRenameScript(e, st, args) == HandleRenameScript(f, st, args)
            && HandleRenameScript(e, st, args).ticks == st.ticks
    ensures HandleSetActive(e, st, args) == HandleSetActive(f, st, args)
            && HandleSetActive(e, st, args).ticks == st.ticks
    ensures HandleDeleteScript(e, st, args) == HandleDeleteScript(f, st, args)
            && HandleDeleteScript(e, st, args).ticks == st.ticks
  {
    hide CallForLine, Name, ValidateScriptName, Number;
    if args != [] {
      CallForLineSame(e, f, st, SetActive(Name(args[0])), OkBare);
      CallForLineSame(e, f, st, DeleteScript(Name(args[0])), OkDeleted);
      if |args| >= 2 {
        CallForLineSame(e, f, st, RenameScript(Name(args[0]), Name(args[1])), OkBare);
        if Number(args[1]).Some? {
          CallForLineSame(e, f, st, HaveSpace(Name(args[0]), Number(args[1]).value), OkBare);
        }
      }
    }
  }

  lemma CallAuthSame(e: Env, f: Env, st: State, call: Call)
    requires Twins(e, f)
    ensures CallAuth(e, st, call) == CallAuth(f, st, call) && CallAuth(e, st, call).ticks.peeks == st.ticks.peeks
  {
    hide AuthFailure;
    var (s1, reply) := CallSession(e, st, call);
    var s2 := if reply.hijack then Hijack(e, s1) else s1;
    if reply.error.Some? {
      ReportSame(e, f, s2, reply.error.value);
    }
  }

  lemma PlainLoginSame(e: Env, f: Env, st: State, data: string)
    requires Twins(e, f)
    ensures PlainLogin(e, st, data) == PlainLogin(f, st, data) && PlainLogin(e, st, data).ticks.peeks == st.ticks.peeks
  {
    hide AuthFailure, CallAuth, SplitOn;
    ReportSame(e, f, st, Coded("", "\"Authentication failed\"", false));
    match e.decodeBase64(data)
    case None =>
    case Some(message) =>
      var parts := SplitOn(message, '\U{00}');
      if |parts| == 3 {
        CallAuthSame(e, f, st, AuthenticatePlain(parts[0], parts[1], parts[2]));
      }
  }

  lemma AuthStringSame(e: Env, f: Env, st: State, arg: string)
    requires Twins(e, f)
    ensures AuthString(e, st, arg) == AuthString(f, st, arg) && AuthString(e, st, arg).0.ticks.peeks == st.ticks.peeks
  {
    hide LiteralLength, FetchLiteral, Unquote;
    var marker := LiteralLength(arg);
    if marker.Literal? {
      FetchSame(e, f, st, marker.length, true, NoAuthFailed);
    }
  }

  lemma ChallengeSame(e: Env, f: Env, st: State)
    requires Twins(e, f)
    ensures AuthChallenge(e, st) == AuthChallenge(f, st) && AuthChallenge(e, st).0.ticks.peeks == st.ticks.peeks
  {
    hide AuthString, FirstLine, AfterLine, Trim;
    var (s1, ok) := Flush(e, SayTo(st, Challenge));
    var (s2, line) := ReadLine(e, s1);
    if line.Line? {
      AuthStringSame(e, f, s2, Trim(line.text));
    }
  }

  lemma AuthenticateSame(e: Env, f: Env, st: State, args: seq<string>)
    requires Twins(e, f)
    ensures HandleAuthenticate(e, st, args) == HandleAuthenticate(f, st, args)
    ensures HandleAuthenticate(e, st, args).ticks.peeks == st.ticks.peeks
  {
    hide AuthString, AuthChallenge, PlainLogin, ToUpper, Unquote;
    ChallengeSame(e, f, st);
    if |args| > 1 {
      AuthStringSame(e, f, st, args[1]);
    }
    if args != [] {
      var (s, data) := if |args| > 1 then AuthString(e, st, args[1]) else AuthChallenge(e, st);
      if data.Some? {
        PlainLoginSame(e, f, s, data.value);
      }
    }
  }

  lemma LoginSame(e: Env, f: Env, st: State, args: seq<string>)
    requires Twins(e, f)
    ensures HandleLogin(e, st, args) == HandleLogin(f, st, args)
            && HandleLogin(e, st, args).ticks.peeks == st.ticks.peeks
  {
    hide CallAuth, Unquote;
    if |args| >= 2 {
      CallAuthSame(e, f, st, Login(Unquote(args[0]), Unquote(args[1])));
    }
  }

  lemma GreetingSame(e: Env, f: Env, st: State)
    requires Twins(e, f)
    ensures SendCapabilityBlock(e, st) == SendCapabilityBlock(f, st) && SendCapabilityBlock(e, st).ticks == st.ticks
    ensures SendGreeting(e, st) == SendGreeting(f, st) && SendGreeting(e, st).ticks == st.ticks
  {
    hide Capabilities;
  }

  lemma SettleSame(e: Env, f: Env, st: State, quit: bool)
    requires Twins(e, f)
    ensures Settle(e, st, quit) == Settle(f, st, quit) && Settle(e, st, quit).0.ticks.peeks == st.ticks.peeks
  {
  }

  lemma EndSame(e: Env, f: Env, st: State, error: LineError)
    requires Twins(e, f)
    ensures EndOfInput(e, st, error) == EndOfInput(f, st, error)
            && EndOfInput(e, st, error).ticks.peeks == st.ticks.peeks
    ensures ShutdownBye(e, st) == ShutdownBye(f, st) && ShutdownBye(e, st).ticks.peeks == st.ticks.peeks
  {
    hide Farewell;
    var (s, _) := LookAtContext(e, st);
    forall phrase
      ensures Farewell(e, st, phrase) == Farewell(f, st, phrase)
              && Farewell(e, st, phrase).ticks.peeks == st.ticks.peeks
      ensures Farewell(e, s, phrase) == Farewell(f, s, phrase) && Farewell(e, s, phrase).ticks.peeks == st.ticks.peeks
    {
      FarewellSame(e, f, st, phrase);
      FarewellSame(e, f, s, phrase);
    }
  }

  lemma FarewellSame(e: Env, f: Env, st: State, phrase: Phrase)
    requires Twins(e, f)
    ensures Farewell(e, st, phrase) == Farewell(f, st, phrase) && Farewell(e, st, phrase).ticks.peeks == st.ticks.peeks
  {
    hide SayTo;
    SayingKeepsTicks(st, phrase);
  }

  lemma SayingKeepsTicks(st: State, phrase: Phrase)
    ensures SayTo(st, phrase).ticks == st.ticks
  {
  }

  lemma BeginTLSSame(e: Env, f: Env, st: State)
    requires Twins(e, f)
    ensures BeginTLS(e, st) == BeginTLS(f, st) && BeginTLS(e, st).0.ticks.peeks == st.ticks.peeks
  {
    hide SendGreeting;
    if e.tls.Some? {
      var s := Flush(e, SayTo(st, OkBeginTLS)).0;
      GreetingSame(e, f, s.(isTLS := true, input := e.tls.value, trace := s.trace + [TLSStarted]));
    }
  }

  /** A round of literal resolution in f, told in terms of its twin e wherever nothing is looked at. */
  ghost predicate RoundInTwin(e: Env, f: Env, st: State, verb: Verb, args: seq<string>, idx: nat, marker: Marker)
    requires idx < |args| && !marker.NotLiteral?
  {
    var r := ResolveLiteralArgs(f, st, verb, args);
    if marker.BadLength? then
      var s := ClientError(st, BadLiteralLength);
      r == (if marker.nonSync then RequestClose(s) else s, None)
    else if marker.length > e.options.maxLineLength then
      r == (RefuseLiteral(f, ClientError(st, LiteralTooLarge), marker.nonSync), None)
    else
      var (s, body) := FetchLiteral(e, st, marker.length, marker.nonSync, NoLiteralArgument);
      if body == None then r == (s, None)
      else
        var more := Tokens(Trim(body.value.1));
        if more == None then r == (ClientError(s, BadSyntax), None)
        else r == ResolveLiteralArgs(f, s, verb, args[idx := Quote(body.value.0)] + more.value)
  }

  lemma TwinRound(e: Env, f: Env, st: State, verb: Verb, args: seq<string>, idx: nat, marker: Marker)
    requires Twins(e, f)
    requires args != [] && idx == |args| - 1 && marker == LiteralLength(args[idx])
    requires !marker.NotLiteral? && !LiteralDeferred(verb, idx)
    ensures RoundInTwin(e, f, st, verb, args, idx, marker)
  {
    hide LiteralLength, Tokens, Trim, Quote, FetchLiteral, RefuseLiteral, ClientError, ResolveLiteralArgs, Twins;
    SameOptions(e, f);
    ResolveRound(f, st, verb, args, idx, marker);
    if marker.Literal? {
      FetchSame(e, f, st, marker.length, marker.nonSync, NoLiteralArgument);
    }
  }
}
