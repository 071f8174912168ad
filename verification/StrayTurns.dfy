/**
  The condition of the sync theorem bites: for each way to stray a turn that
  takes it, returns to the loop head, and leaves the server where the client is
  not.
 */
module StrayTurns {
  import opened Text
  import opened Parser
  import opened Protocol
  import opened ConnSpec
  import opened Framing
  import opened Sync

  /** Nothing ends the run but what the client sends, and one more error does not exhaust its budget. */
  ghost predicate Undisturbed(env: Env, st: State) {
    && (forall k: nat :: env.flushOk(k)) && !env.contextDone(st.ticks.looks)
    && !st.closePending && !st.hijacked
    && (env.options.maxErrors > 0 ==> st.errorCount + 1 < env.options.maxErrors)
  }

  /** The state in which a handler finds the connection, the command line read. */
  function Opened(env: Env, st: State, behind: string): State {
    LookAtContext(env, st).0.(input := st.input.(data := behind))
  }

  /** A command line that is resolved as it stands. */
  predicate Ready(verb: Verb, ts: seq<string>) {
    && ts != [] && IsTokenList(ts) && (forall i | 0 <= i < |ts| :: Lacks(ts[i], '\n'))
    && (LiteralDeferred(verb, |ts| - 1) || LiteralLength(ts[|ts| - 1]).NotLiteral?)
  }

  lemma TurnOnTokens(rule: Rule, env: Env, st: State, name: string, verb: Verb, ts: seq<string>, behind: string)
    requires !env.contextDone(st.ticks.looks)
    requires IsVerb(name) && ReadVerb(ToUpper(name)) == verb && Ready(verb, ts)
    requires |name + Join(ts)| + 2 <= env.options.maxLineLength
    requires st.input.data == name + Join(ts) + ("\r\n" + behind)
    ensures var s := Opened(env, st, behind);
            && (var (r, quit) := Dispatch(env, s, verb, ts); Iterate(env, st) == Settle(env, r, quit))
            && (TurnStrays(rule, env, st) <==> Strays(rule, env, s, verb, ts))
    ensures forall pluses, challenged ::
              CommandEnd(rule, st.input.data, pluses, challenged)
              == AfterArgs(rule, verb, ArgsEnd(rule, verb, 0, ts, behind, pluses), challenged)
  {
    hide IsToken, Trim, ParseLine, ReadLine, ReadVerb, Join, ToUpper, NextLine, Dispatch, Settle, Strays,
         ResolveLiteralArgs, ArgsEnd, AfterArgs, LiteralLength, IsVerb;
    TokensLine(env, LookAtContext(env, st).0, name, ts, behind);
    ResolveRound(env, Opened(env, st, behind), verb, ts, |ts| - 1, LiteralLength(ts[|ts| - 1]));
  }

  lemma QuietTurn(env: Env, st: State, s: State)
    requires Undisturbed(env, st)
    requires s.errorCount <= st.errorCount + 1 && !s.closePending && !s.hijacked
    ensures Settle(env, s, false).1 && Settle(env, s, false).0 == s.(ticks := Settle(env, s, false).0.ticks)
  {
  }

  lemma Names()
    ensures IsVerb("CHECKSCRIPT") && ReadVerb(ToUpper("CHECKSCRIPT")) == CHECKSCRIPT
    ensures IsVerb("AUTHENTICATE") && ReadVerb(ToUpper("AUTHENTICATE")) == AUTHENTICATE
  {
    ToUpperId("CHECKSCRIPT");
    ToUpperId("AUTHENTICATE");
  }

  lemma MarkerReady(verb: Verb, front: seq<string>, n: nat, nonSync: bool)
    requires n <= MAX_INT64 && LiteralDeferred(verb, |front|)
    requires forall i | 0 <= i < |front| :: IsToken(front[i]) && Lacks(front[i], '\n')
    ensures Ready(verb, front + [PrintMarker(n, nonSync)])
    ensures LiteralLength((front + [PrintMarker(n, nonSync)])[|front|]) == Literal(n, nonSync)
  {
    hide IsToken, PrintMarker, LiteralLength;
    MarkerIsToken(n, nonSync);
    MarkerRoundTrip(n, nonSync);
  }

  /** A client that has committed a body goes on behind the line after it. */
  lemma CommittedEnds(rule: Rule, verb: Verb, ts: seq<string>, body: string, more: seq<string>, rest: string)
    requires ts != [] && LiteralLength(ts[|ts| - 1]) == Literal(|body|, true)
    requires IsTokenList(more) && forall i | 0 <= i < |more| :: Lacks(more[i], '\n')
    ensures ArgsEnd(rule, verb, 0, ts, body + (Join(more) + ("\r\n" + rest)), 0)
            == ArgsEnd(rule, verb, |ts|, more, rest, 0)
  {
    hide LiteralLength, Tokens, Trim, NextLine, Join, IsToken, Lacks;
    var data, tail := body + (Join(more) + ("\r\n" + rest)), Join(more) + ("\r\n" + rest);
    assert data[|body|..] == tail;
    JoinLacks(more);
    ClientLine(Join(more), rest);
    LineTokens(more);
  }

  // ---------------------------------------------------------------------
  // Refused without being read

  /**
    Before authentication, whatever the script: CHECKSCRIPT is answered NO, and
    the next command line is read from the script's own bytes, while the client
    goes on at `next`.
   */
  lemma RefusedScriptIsReadAsCommands(rule: Rule, env: Env, st: State, script: string, next: string)
    requires Undisturbed(env, st) && !st.authenticated && |script| <= MAX_INT64
    requires |"CHECKSCRIPT" + Join([PrintMarker(|script|, true)])| + 2 <= env.options.maxLineLength
    requires st.input.data
             == "CHECKSCRIPT" + Join([PrintMarker(|script|, true)]) + ("\r\n" + (script + ("\r\n" + next)))
    ensures var (s, more) := Iterate(env, st);
            && more && s.input.data == script + ("\r\n" + next) && s.output == st.output + [Fail(NotAuthenticated)]
            && TurnStrays(rule, env, st) && CommandEnd(rule, st.input.data, 0, false) == Some(next)
  {
    hide Iterate, Join, PrintMarker, LiteralLength, IsVerb, ReadVerb, ToUpper, TurnStrays, CommandEnd, ArgsEnd, Ready,
         Settle;
    var ts, behind := [PrintMarker(|script|, true)], script + ("\r\n" + next);
    assert [] + ts == ts;
    Names();
    MarkerReady(CHECKSCRIPT, [], |script|, true);
    TurnOnTokens(rule, env, st, "CHECKSCRIPT", CHECKSCRIPT, ts, behind);
    var s := Opened(env, st, behind);
    assert Dispatch(env, s, CHECKSCRIPT, ts) == (ClientError(s, NotAuthenticated), false);
    QuietTurn(env, st, ClientError(s, NotAuthenticated));
    EmptyLineEnds(rule, CHECKSCRIPT, ts, script, next);
  }

  lemma EmptyLineEnds(rule: Rule, verb: Verb, ts: seq<string>, body: string, next: string)
    requires ts != [] && LiteralLength(ts[|ts| - 1]) == Literal(|body|, true)
    ensures ArgsEnd(rule, verb, 0, ts, body + ("\r\n" + next), 0) == Some(next)
  {
    hide LiteralLength, ArgsEnd;
    CommittedEnds(rule, verb, ts, body, [], next);
    assert Join([]) + ("\r\n" + next) == "\r\n" + next;
    ArgsEndNothing(rule, verb, |ts|, next, 0);
  }

  /** The same for AUTHENTICATE where it is not possible: the initial response is read as commands. */
  lemma RefusedResponseIsReadAsCommands(rule: Rule, env: Env, st: State, mechanism: string, response: string,
      next: string)
    requires Undisturbed(env, st) && (st.authenticated || !AuthAllowed(env.options, st.isTLS))
             && |response| <= MAX_INT64
    requires Lacks(mechanism, '\n')
    requires |"AUTHENTICATE" + Join([Quote(mechanism), PrintMarker(|response|, true)])| + 2 <= env.options.maxLineLength
    requires st.input.data == "AUTHENTICATE" + Join([Quote(mechanism), PrintMarker(|response|, true)])
                              + ("\r\n" + (response + ("\r\n" + next)))
    ensures var (s, more) := Iterate(env, st);
            && more && s.input.data == response + ("\r\n" + next)
            && TurnStrays(rule, env, st) && CommandEnd(rule, st.input.data, 0, false) == Some(next)
  {
    hide Iterate, Join, PrintMarker, LiteralLength, IsVerb, ReadVerb, ToUpper, TurnStrays, CommandEnd, ArgsEnd, Ready,
         Settle, Quote, IsToken;
    var ts, behind := [Quote(mechanism), PrintMarker(|response|, true)], response + ("\r\n" + next);
    assert [Quote(mechanism)] + [PrintMarker(|response|, true)] == ts;
    Names();
    QuotedIsToken(mechanism);
    QuoteLacks(mechanism, '\n');
    MarkerReady(AUTHENTICATE, [Quote(mechanism)], |response|, true);
    TurnOnTokens(rule, env, st, "AUTHENTICATE", AUTHENTICATE, ts, behind);
    var s := Opened(env, st, behind);
    var fault := if st.authenticated then AlreadyAuthenticated else AuthInsecure;
    assert Dispatch(env, s, AUTHENTICATE, ts) == (ClientError(s, fault), false);
    QuietTurn(env, st, ClientError(s, fault));
    EmptyLineEnds(rule, AUTHENTICATE, ts, response, next);
  }

  // ---------------------------------------------------------------------
  // Read, but not where the client is

  /** CHECKSCRIPT of a script the session finds nothing wrong with. */
  lemma CheckAnswers(env: Env, st: State, args: seq<string>, script: string, s: State)
    requires st.authenticated && args != [] && ReadScriptArgument(env, st, args[0]) == (s, Some(script))
    requires !(0 < env.options.maxScriptSize < |script|)
    requires env.session(s.trace, CheckScript(script)).error == None
    ensures var (r, quit) := Dispatch(env, st, CHECKSCRIPT, args);
            !quit && r.input == s.input && r.errorCount == s.errorCount && r.closePending == s.closePending
                && r.hijacked == s.hijacked
  {
    hide ReadScriptArgument;
  }

  lemma ScriptIsFetched(env: Env, st: State, arg: string, script: string, text: string, rest: string)
    requires forall k: nat :: env.flushOk(k)
    requires LiteralLength(arg) == Literal(|script|, true) && Accepts(env, CHECKSCRIPT, |script|)
    requires st.input.data == script + (text + ("\r\n" + rest)) && Lacks(text, '\n')
             && |text| + 2 <= env.options.maxLineLength
    ensures var (s, r) := ReadScriptArgument(env, st, arg);
            r == Some(script) && s == st.(input := st.input.(data := rest), ticks := s.ticks)
  {
    hide LiteralLength, FetchLiteral, Lacks;
    ReadsLiteral(env, st, script, text, rest, true, NoLiteralContent);
  }

  /** A second literal committed behind the content: its body is read as commands. */
  lemma SecondLiteralIsReadAsCommands(rule: Rule, env: Env, st: State, script: string, extra: string, next: string)
    requires Undisturbed(env, st) && st.authenticated && |script| <= MAX_INT64 && |extra| <= MAX_INT64
    requires Accepts(env, CHECKSCRIPT, |script|) && env.session(st.trace, CheckScript(script)).error == None
    requires |"CHECKSCRIPT" + Join([PrintMarker(|script|, true)])| + 2 <= env.options.maxLineLength
    requires |Join([PrintMarker(|extra|, true)])| + 2 <= env.options.maxLineLength
    requires st.input.data == "CHECKSCRIPT" + Join([PrintMarker(|script|, true)])
                              + ("\r\n" + (script + (Join([PrintMarker(|extra|, true)])
                                  + ("\r\n" + (extra + ("\r\n" + next))))))
    ensures var (s, more) := Iterate(env, st);
            && more && s.input.data == extra + ("\r\n" + next)
            && TurnStrays(rule, env, st) && CommandEnd(rule, st.input.data, 0, false) == Some(next)
  {
    hide Iterate, Join, PrintMarker, LiteralLength, IsVerb, ReadVerb, ToUpper, TurnStrays, CommandEnd, ArgsEnd, Ready,
         Settle, Strays, Dispatch, ReadScriptArgument, IsToken, Lacks, Accepts;
    var marker, second := PrintMarker(|script|, true), PrintMarker(|extra|, true);
    var rest := extra + ("\r\n" + next);
    var behind := script + (Join([second]) + ("\r\n" + rest));
    assert [] + [marker] == [marker];
    Names();
    MarkerReady(CHECKSCRIPT, [], |script|, true);
    MarkerIsToken(|extra|, true);
    MarkerRoundTrip(|extra|, true);
    JoinLacks([second]);
    TurnOnTokens(rule, env, st, "CHECKSCRIPT", CHECKSCRIPT, [marker], behind);
    var s := Opened(env, st, behind);
    ScriptIsFetched(env, s, marker, script, Join([second]), rest);
    var s1 := ReadScriptArgument(env, s, marker).0;
    assert !(0 < env.options.maxScriptSize < |script|) by { AcceptsContent(env, script); }
    CheckAnswers(env, s, [marker], script, s1);
    QuietTurn(env, st, Dispatch(env, s, CHECKSCRIPT, [marker]).0);
    assert IsTokenList([second]);
    CommittedEnds(rule, CHECKSCRIPT, [marker], script, [second], rest);
    SecondEnds(rule, second, extra, next);
    assert Strays(rule, env, s, CHECKSCRIPT, [marker])
        by { TrailingStrays(rule, env, s, marker, second, script, rest); }
  }

  lemma AcceptsContent(env: Env, script: string)
    requires Accepts(env, CHECKSCRIPT, |script|)
    ensures !(0 < env.options.maxScriptSize < |script|)
  {
  }

  lemma SecondEnds(rule: Rule, second: string, extra: string, next: string)
    requires LiteralLength(second) == Literal(|extra|, true)
    ensures ArgsEnd(rule, CHECKSCRIPT, 1, [second], extra + ("\r\n" + next), 0) == Some(next)
  {
    hide LiteralLength, Tokens, Trim, NextLine;
    var data := extra + ("\r\n" + next);
    assert data[|extra|..] == "\r\n" + next;
    assert NextLine("\r\n" + next) == Some(("\r\n", next)) by {
      ClientLine("", next);
      assert "" + ("\r\n" + next) == "\r\n" + next && "" + "\r\n" == "\r\n";
    }
    assert Tokens(Trim("\r\n")) == Some([]) by {
      LineTokens([]);
      assert Join([]) + "\r\n" == "\r\n";
    }
  }

  lemma TrailingStrays(rule: Rule, env: Env, st: State, marker: string, second: string, script: string, rest: string)
    requires st.authenticated && Accepts(env, CHECKSCRIPT, |script|)
    requires LiteralLength(marker) == Literal(|script|, true)
    requires IsTokenList([second]) && Lacks(second, '\n')
    requires LiteralLength(second).Literal? && LiteralLength(second).nonSync
    requires st.input.data == script + (Join([second]) + ("\r\n" + rest))
    ensures Strays(rule, env, st, CHECKSCRIPT, [marker])
  {
    hide LiteralLength, Tokens, Trim, NextLine, Join, IsToken, Lacks, Accepts;
    assert st.input.data[|script|..] == Join([second]) + ("\r\n" + rest);
    JoinLacks([second]);
    ClientLine(Join([second]), rest);
    LineTokens([second]);
  }

  /**
    A content marker that is not the last argument: the client has not sent a
    body for it, so the server takes the bytes of what comes next.
   */
  lemma InnerMarkerTakesCommands(rule: Rule, env: Env, st: State, script: string, last: string, text: string,
      next: string)
    requires Undisturbed(env, st) && st.authenticated && |script| <= MAX_INT64 && Lacks(last, '\n')
    requires Accepts(env, CHECKSCRIPT, |script|) && env.session(st.trace, CheckScript(script)).error == None
    requires Lacks(text, '\n') && |text| + 2 <= env.options.maxLineLength
    requires |"CHECKSCRIPT" + Join([PrintMarker(|script|, true), Quote(last)])| + 2 <= env.options.maxLineLength
    requires st.input.data == "CHECKSCRIPT" + Join([PrintMarker(|script|, true), Quote(last)])
                              + ("\r\n" + (script + (text + ("\r\n" + next))))
    ensures var (s, more) := Iterate(env, st);
            && more && s.input.data == next
            && TurnStrays(rule, env, st)
               && CommandEnd(rule, st.input.data, 0, false) == Some(script + (text + ("\r\n" + next)))
  {
    hide Iterate, Join, PrintMarker, LiteralLength, IsVerb, ReadVerb, ToUpper, TurnStrays, CommandEnd, ArgsEnd, Settle,
         Dispatch, ReadScriptArgument, IsToken, Accepts, Quote;
    var marker := PrintMarker(|script|, true);
    var ts, behind := [marker, Quote(last)], script + (text + ("\r\n" + next));
    Names();
    MarkerIsToken(|script|, true);
    MarkerRoundTrip(|script|, true);
    QuotedIsToken(last);
    QuoteLacks(last, '\n');
    QuotedIsNoMarker(last);
    TurnOnTokens(rule, env, st, "CHECKSCRIPT", CHECKSCRIPT, ts, behind);
    var s := Opened(env, st, behind);
    ScriptIsFetched(env, s, marker, script, text, next);
    assert !(0 < env.options.maxScriptSize < |script|) by { AcceptsContent(env, script); }
    CheckAnswers(env, s, ts, script, ReadScriptArgument(env, s, marker).0);
    QuietTurn(env, st, Dispatch(env, s, CHECKSCRIPT, ts).0);
    ArgsEndNoLiteral(rule, CHECKSCRIPT, 0, ts, behind, 0);
  }

  /**
    AUTHENTICATE with {N}, from a client that waits to be asked: the server asks
    for nothing and takes the bytes of what comes next.
   */
  lemma UnsentResponseTakesCommands(env: Env, st: State, response: string, text: string, next: string)
    requires Undisturbed(env, st) && !st.authenticated && AuthAllowed(env.options, st.isTLS)
    requires |response| <= MAX_INT64 && |response| <= env.options.maxAuthLiteral && env.decodeBase64(response) == None
    requires Lacks(text, '\n') && |text| + 2 <= env.options.maxLineLength
    requires |"AUTHENTICATE" + Join([Quote("PLAIN"), PrintMarker(|response|, false)])| + 2 <= env.options.maxLineLength
    requires st.input.data == "AUTHENTICATE" + Join([Quote("PLAIN"), PrintMarker(|response|, false)])
                              + ("\r\n" + (response + (text + ("\r\n" + next))))
    ensures var (s, more) := Iterate(env, st);
            && more && s.input.data == next
            && TurnStrays(OnceAsked, env, st)
            && CommandEnd(OnceAsked, st.input.data, 0, false) == Some(response + (text + ("\r\n" + next)))
  {
    hide Iterate, Join, PrintMarker, LiteralLength, IsVerb, ReadVerb, ToUpper, TurnStrays, CommandEnd, ArgsEnd, Ready,
         Settle, Quote, IsToken, Unquote, FetchLiteral;
    var marker := PrintMarker(|response|, false);
    var ts, behind := [Quote("PLAIN"), marker], response + (text + ("\r\n" + next));
    assert [Quote("PLAIN")] + [marker] == ts;
    Names();
    QuotedIsToken("PLAIN");
    QuoteLacks("PLAIN", '\n');
    MarkerReady(AUTHENTICATE, [Quote("PLAIN")], |response|, false);
    TurnOnTokens(OnceAsked, env, st, "AUTHENTICATE", AUTHENTICATE, ts, behind);
    var s := Opened(env, st, behind);
    UnquoteQuote("PLAIN");
    assert ToUpper("PLAIN") == "PLAIN" by { ToUpperId("PLAIN"); }
    ReadsLiteral(env, s, response, text, next, true, NoAuthFailed);
    var s1 := AuthString(env, s, marker).0;
    assert Dispatch(env, s, AUTHENTICATE, ts) == (ClientError(s1, BadAuthData), false)
        by { BadDataRefused(env, s, ts, s1, response); }
    QuietTurn(env, st, ClientError(s1, BadAuthData));
    assert ArgsEnd(OnceAsked, AUTHENTICATE, 0, ts, behind, 0) == Some(behind) by { UnaskedEnds(ts, behind); }
  }

  lemma BadDataRefused(env: Env, st: State, args: seq<string>, s: State, data: string)
    requires !st.authenticated && AuthAllowed(env.options, st.isTLS) && |args| == 2
             && ToUpper(Unquote(args[0])) == "PLAIN"
    requires AuthString(env, st, args[1]) == (s, Some(data)) && env.decodeBase64(data) == None
    ensures Dispatch(env, st, AUTHENTICATE, args) == (ClientError(s, BadAuthData), false)
  {
    hide AuthString, Unquote, ToUpper;
  }

  lemma UnaskedEnds(ts: seq<string>, data: string)
    requires |ts| == 2 && LiteralLength(ts[1]).Literal? && !LiteralLength(ts[1]).nonSync
    ensures ArgsEnd(OnceAsked, AUTHENTICATE, 0, ts, data, 0) == Some(data)
  {
    hide LiteralLength;
  }
}
