/**
  Whole runs of a connection: the command loop of serve, the error budget, and
  what a session can be asked, over every run.
 */
module Serving {
  import opened Text
  import opened Parser
  import opened LineReader
  import opened Protocol
  import opened ConnSpec
  import opened Effects

  // ---------------------------------------------------------------------
  // One turn

  lemma RunCommandEffect(env: Env, st: State, line: string)
    requires !st.hijacked
    ensures CommandEffect(env, st, RunCommand(env, st, line).0)
  {
    hide ParseLine, ReadVerb, ResolveLiteralArgs, Dispatch, Responds, Reads, SessionEffect, StartsTLS, ClientError;
    match ParseLine(line)
    case Syntax =>
      ResponseEffect(env, st, BadSyntax, OkBare);
      RespondsIsEffect(env, st, ClientError(st, BadSyntax));
    case Command(cmd, tokens) =>
      var verb := ReadVerb(cmd);
      ResolveEffect(env, st, verb, tokens);
      var (s, args) := ResolveLiteralArgs(env, st, verb, tokens);
      if args.None? {
        RespondsIsEffect(env, st, s);
      } else {
        ReadsKeeps(env, st, s);
        DispatchEffect(env, s, verb, args.value);
        var r := Dispatch(env, s, verb, args.value).0;
        if StartsTLS(env, s, r) {
          ReadsThenTLS(env, st, s, r);
        } else {
          ReadsThenCommand(env, st, s, r);
        }
      }
  }

  /** Quitting is never the answer to a counted error. */
  lemma QuitCountsNothing(env: Env, st: State, line: string)
    ensures RunCommand(env, st, line).1 ==> RunCommand(env, st, line).0.errorCount == st.errorCount
  {
    hide ParseLine, ReadVerb, ResolveLiteralArgs, Responds, HandleAuthenticate, HandleLogin, ScriptCommand,
         SendCapabilityBlock, SendGreeting, Unquote, Reads;
    match ParseLine(line)
    case Syntax =>
    case Command(cmd, tokens) =>
      var verb := ReadVerb(cmd);
      ResolveEffect(env, st, verb, tokens);
      var (s, args) := ResolveLiteralArgs(env, st, verb, tokens);
      if args.Some? {
        ReadsKeeps(env, st, s);
        var s2 := Flush(env, SayTo(PeekBuffered(env, s).0, OkBeginTLS)).0;
        if env.tls.Some? {
          var s3 := s2.(isTLS := true, input := env.tls.value, trace := s2.trace + [TLSStarted]);
          GreetingEffect(env, s3);
          ReadsKeeps(env, s3, SendGreeting(env, s3));
        }
      }
  }

  /** A turn either reads a blank line, runs one command, or ends the loop with no command run. */
  ghost predicate Turn(env: Env, a: State, s: State, more: bool) {
    || (more && Reads(env, a, s))
    || (!more && Responds(env, a, s) && s.errorCount == a.errorCount)
    || (exists b, c, quit :: Reads(env, a, b) && CommandEffect(env, b, c) && (quit ==> c.errorCount == b.errorCount)
                             && Settle(env, c, quit) == (s, more))
  }

  lemma FarewellEffect(env: Env, st: State, phrase: Phrase)
    requires phrase != NoEmptyPassword
    ensures var s := Farewell(env, LookAtContext(env, st).0, phrase);
            Responds(env, st, s) && s.errorCount == st.errorCount
    ensures Responds(env, st, LookAtContext(env, st).0)
  {
    hide Charge;
    ChargeOne(env.options, st.output, Say(phrase));
  }

  lemma EndEffect(env: Env, st: State, e: LineError)
    ensures Responds(env, st, EndOfInput(env, st, e)) && EndOfInput(env, st, e).errorCount == st.errorCount
    ensures Responds(env, st, ShutdownBye(env, LookAtContext(env, st).0))
    ensures ShutdownBye(env, LookAtContext(env, st).0).errorCount == st.errorCount
  {
    hide Responds, Farewell;
    FarewellEffect(env, st, ByeAbsolute);
    FarewellEffect(env, st, ByeShutdown);
    FarewellEffect(env, st, ByeIdle);
    FarewellEffect(env, st, NoLineTooLong);
    FarewellEffect(env, st, NoMissingCRLF);
  }

  lemma IterateTurn(env: Env, st: State)
    requires !st.hijacked
    ensures Turn(env, st, Iterate(env, st).0, Iterate(env, st).1)
  {
    hide Trim, RunCommand, EndOfInput, ShutdownBye, ReadLine, Settle, Responds, Reads, CommandEffect;
    var (s1, done) := LookAtContext(env, st);
    EndEffect(env, st, TooLong);
    if !done {
      var (s2, line) := ReadLine(env, s1);
      assert Reads(env, st, s2) by { LookAndRead(env, st); }
      match line
      case NoLine(e) =>
        EndEffect(env, s2, e);
        ReadsThenResponds(env, st, s2, EndOfInput(env, s2, e));
        ReadsKeeps(env, st, s2);
      case Line(text) =>
        if Trim(text) != "" {
          ReadsKeeps(env, st, s2);
          RunCommandEffect(env, s2, Trim(text));
          QuitCountsNothing(env, s2, Trim(text));
          var (s3, quit) := RunCommand(env, s2, Trim(text));
          assert Settle(env, s3, quit) == Iterate(env, st);
        }
    }
  }

  lemma LookAndRead(env: Env, st: State)
    ensures Reads(env, st, ReadLine(env, LookAtContext(env, st).0).0)
  {
    hide FirstLine;
  }

  // ---------------------------------------------------------------------
  // Every turn consumes input, so the loop ends

  predicate Advances(a: State, b: State) {
    (b.isTLS == a.isTLS && |b.input.data| <= |a.input.data|) || (!a.isTLS && b.isTLS)
  }

  lemma IterateAdvances(env: Env, st: State)
    requires !st.hijacked
    ensures var (s, more) := Iterate(env, st);
            more ==> Advances(st, s) && (s.isTLS == st.isTLS ==> |s.input.data| < |st.input.data|) && !s.hijacked
  {
    hide Trim, RunCommand, EndOfInput, ShutdownBye, Grows, ReadLine;
    var (s1, done) := LookAtContext(env, st);
    var (s2, line) := ReadLine(env, s1);
    if !done && line.Line? && Trim(line.text) != "" {
      assert Reads(env, st, s2) by { LookAndRead(env, st); }
      RunCommandEffect(env, s2, Trim(line.text));
    } else {
      assert Reads(env, st, s2) by { LookAndRead(env, st); }
    }
  }

  function Loop(env: Env, st: State): State
    requires !st.hijacked
    decreases if st.isTLS then 0 else 1, |st.input.data|
  {
    IterateAdvances(env, st);
    var (s, more) := Iterate(env, st);
    if more then Loop(env, s) else s
  }

  /** The end of serve: the session is closed, and the socket unless it was hijacked. */
  function CloseConn(st: State): State {
    st.(trace := st.trace + [Called(Close, true)] + if st.hijacked then [] else [SocketClosed])
  }

  function Serve(env: Env, st: State): State
    requires !st.hijacked
  {
    GreetingEffect(env, st);
    ReadsKeeps(env, st, SendGreeting(env, st));
    var (s, ok) := Flush(env, SendGreeting(env, st));
    CloseConn(if ok then Loop(env, s) else s)
  }

  /** The state at the first loop head. */
  function Greeted(e: Env, st: State): (r: State)
    requires !st.hijacked
    ensures !r.hijacked
  {
    GreetingEffect(e, st);
    ReadsKeeps(e, st, SendGreeting(e, st));
    Flush(e, SendGreeting(e, st)).0
  }

  /** The state at the k-th return to the loop head, if the run gets there. */
  function Head(env: Env, st: State, k: nat): (r: Option<State>)
    requires !st.hijacked
    ensures r.Some? ==> !r.value.hijacked
  {
    if k == 0 then Some(st)
    else
      match Head(env, st, k - 1)
      case None => None
      case Some(s) =>
        IterateAdvances(env, s);
        if Iterate(env, s).1 then Some(Iterate(env, s).0) else None
  }

  // ---------------------------------------------------------------------
  // Error budget

  predicate WithinBudget(env: Env, st: State) {
    && !st.closePending && !st.hijacked
    && (env.options.maxErrors > 0 ==> st.errorCount < env.options.maxErrors)
  }

  predicate LastSaid(st: State, phrase: Phrase) {
    st.output != [] && st.output[|st.output| - 1] == Say(phrase)
  }

  lemma EffectCounts(env: Env, a: State, b: State)
    requires CommandEffect(env, a, b)
    ensures a.errorCount <= b.errorCount <= a.errorCount + 1
  {
    hide Grows;
  }

  lemma SettleBudget(env: Env, c: State, quit: bool)
    ensures var (s, more) := Settle(env, c, quit);
            && s.errorCount == c.errorCount
            && s.closePending == c.closePending && s.hijacked == c.hijacked
            && (more ==> WithinBudget(env, s))
            && (!quit && MaxErrorsExceeded(env, c)
               ==> !more && (s.closePending || s.hijacked || LastSaid(s, ByeErrors)))
  {
  }

  /**
    One turn adds at most one error and, unless it reaches the limit, comes back
    to the loop head with budget left. Reaching the limit ends the run, with BYE
    unless closing was already under way.
   */
  lemma TurnBudget(env: Env, st: State)
    requires WithinBudget(env, st)
    ensures var (s, more) := Iterate(env, st);
            && st.errorCount <= s.errorCount <= st.errorCount + 1
            && (more ==> WithinBudget(env, s))
            && (env.options.maxErrors > 0 && s.errorCount == env.options.maxErrors ==>
                  !more && (s.closePending || s.hijacked || LastSaid(s, ByeErrors)))
  {
    hide Iterate, Reads, CommandEffect, Responds, Settle;
    var (s, more) := Iterate(env, st);
    IterateTurn(env, st);
    if more && Reads(env, st, s) {
      ReadsKeeps(env, st, s);
    } else if !more && Responds(env, st, s) && s.errorCount == st.errorCount {
    } else {
      var b, c, quit :| Reads(env, st, b) && CommandEffect(env, b, c) && (quit ==> c.errorCount == b.errorCount)
                        && Settle(env, c, quit) == (s, more);
      ReadsKeeps(env, st, b);
      EffectCounts(env, b, c);
      SettleBudget(env, c, quit);
    }
  }

  lemma {:induction false} HeadBudget(env: Env, st: State, k: nat)
    requires WithinBudget(env, st) && Head(env, st, k).Some?
    ensures WithinBudget(env, Head(env, st, k).value)
  {
    hide Iterate;
    if k > 0 {
      HeadBudget(env, st, k - 1);
      TurnBudget(env, Head(env, st, k - 1).value);
    }
  }

  /** Over a whole run the error count never passes MaxErrors, and reaching it is the end of the run. */
  lemma {:induction false} LoopBudget(env: Env, st: State)
    requires WithinBudget(env, st)
    ensures var s := Loop(env, st);
            env.options.maxErrors > 0 ==>
              && s.errorCount <= env.options.maxErrors
              && (s.errorCount == env.options.maxErrors ==> s.closePending || s.hijacked || LastSaid(s, ByeErrors))
    decreases if st.isTLS then 0 else 1, |st.input.data|
  {
    hide Iterate;
    IterateAdvances(env, st);
    TurnBudget(env, st);
    var (s, more) := Iterate(env, st);
    if more {
      LoopBudget(env, s);
    }
  }

  // ---------------------------------------------------------------------
  // What is counted

  /** The protocol errors a client was told of. */
  function Faults(items: seq<Item>): nat {
    if items == [] then 0 else Faults(items[..|items| - 1]) + if items[|items| - 1].Fail? then 1 else 0
  }

  /** The authentication attempts the session refused. */
  function RefusedLogins(t: seq<Event>): nat {
    if t == [] then 0
    else
      var e := t[|t| - 1];
      RefusedLogins(t[..|t| - 1]) + if e.Called? && e.call.IsAuth() && !e.ok then 1 else 0
  }

  /**
    The error count is what client and session can tell it is: one for every
    protocol error written, and unless they are exempt one for every login the
    session refused and for every empty password.
   */
  predicate Accounted(o: Options, st: State) {
    st.errorCount == Faults(st.output) +
      if o.authFailuresExempt then 0 else RefusedLogins(st.trace) + Count(st.output, Say(NoEmptyPassword))
  }

  /** The same, against the charges of single responses. */
  predicate Charged(o: Options, st: State) {
    Uncharged(o, st) == if o.authFailuresExempt then 0 else RefusedLogins(st.trace)
  }

  lemma {:induction false} ChargeSplits(o: Options, items: seq<Item>)
    ensures Charge(o, items) ==
            Faults(items) + if o.authFailuresExempt then 0 else Count(items, Say(NoEmptyPassword))
  {
    if items != [] {
      ChargeSplits(o, items[..|items| - 1]);
    }
  }

  lemma ChargedIsAccounted(o: Options, st: State)
    ensures Charged(o, st) <==> Accounted(o, st)
  {
    hide Charge, Faults, Count, RefusedLogins;
    ChargeSplits(o, st.output);
  }

  lemma RefusedAppend(t: seq<Event>, e: Event)
    ensures RefusedLogins(t + [e]) == RefusedLogins(t) + if e.Called? && e.call.IsAuth() && !e.ok then 1 else 0
  {
    assert (t + [e])[..|t|] == t;
  }

  lemma CommandCharged(env: Env, a: State, b: State)
    requires Charged(env.options, a) && CommandEffect(env, a, b)
    ensures Charged(env.options, b)
  {
    hide Charge, RefusedLogins, Grows, NameChecked, Replied;
    if Responds(env, a, b) {
    } else if call, ok :| AsksScript(env, a, b, call, ok) {
      RefusedAppend(a.trace, Called(call, ok));
    } else if call, ok :| AsksAuth(env, a, b, call, ok) {
      RefusedAppend(a.trace, Called(call, ok));
      RefusedAppend(a.trace + [Called(call, ok)], Hijacked);
      assert a.trace + [Called(call, ok)] + [Hijacked] == a.trace + [Called(call, ok), Hijacked];
    } else {
      RefusedAppend(a.trace, TLSStarted);
    }
  }

  lemma SettleCharged(env: Env, c: State, quit: bool)
    ensures Charged(env.options, c) ==> Charged(env.options, Settle(env, c, quit).0)
  {
    hide Charge, RefusedLogins;
    ChargeOne(env.options, c.output, Say(ByeErrors));
  }

  lemma TurnCharged(env: Env, st: State)
    requires Charged(env.options, st) && !st.hijacked
    ensures Charged(env.options, Iterate(env, st).0)
  {
    hide Iterate, Settle, CommandEffect, Charge, RefusedLogins, Grows;
    IterateTurn(env, st);
    var (s, more) := Iterate(env, st);
    if (more && Reads(env, st, s)) || (!more && Responds(env, st, s) && s.errorCount == st.errorCount) {
    } else {
      var b, c, quit :| Reads(env, st, b) && CommandEffect(env, b, c) && (quit ==> c.errorCount == b.errorCount)
                        && Settle(env, c, quit) == (s, more);
      CommandCharged(env, b, c);
      SettleCharged(env, c, quit);
    }
  }

  lemma {:induction false} LoopCharged(env: Env, st: State)
    requires Charged(env.options, st) && !st.hijacked
    ensures Charged(env.options, Loop(env, st))
    decreases if st.isTLS then 0 else 1, |st.input.data|
  {
    hide Iterate, Charged;
    IterateAdvances(env, st);
    TurnCharged(env, st);
    if Iterate(env, st).1 {
      LoopCharged(env, Iterate(env, st).0);
    }
  }

  lemma GreetedCharged(env: Env, isTLS: bool, input: Stream)
    ensures Charged(env.options, Greeted(env, Fresh(isTLS, input)))
  {
    hide SendGreeting, Grows;
    GreetingEffect(env, Fresh(isTLS, input));
  }

  lemma {:induction false} HeadCharged(env: Env, st: State, k: nat)
    requires Charged(env.options, st) && !st.hijacked && Head(env, st, k).Some?
    ensures Charged(env.options, Head(env, st, k).value)
  {
    hide Iterate, Charged;
    if k > 0 {
      HeadCharged(env, st, k - 1);
      TurnCharged(env, Head(env, st, k - 1).value);
    }
  }

  /**
    At every loop head the count is accounted for, and the errors a client was
    told of leave it room for another.
   */
  lemma HeadIsAccounted(env: Env, isTLS: bool, input: Stream, k: nat)
    requires Head(env, Greeted(env, Fresh(isTLS, input)), k).Some?
    ensures var s := Head(env, Greeted(env, Fresh(isTLS, input)), k).value;
            Accounted(env.options, s) && (env.options.maxErrors > 0 ==> Faults(s.output) < env.options.maxErrors)
  {
    hide Head, Charged, Faults, Count, RefusedLogins, Greeted;
    var g := Greeted(env, Fresh(isTLS, input));
    GreetedCharged(env, isTLS, input);
    GreetedWithinBudget(env, isTLS, input);
    HeadCharged(env, g, k);
    HeadBudget(env, g, k);
    ChargedIsAccounted(env.options, Head(env, g, k).value);
  }

  lemma GreetedWithinBudget(env: Env, isTLS: bool, input: Stream)
    ensures var g := Greeted(env, Fresh(isTLS, input));
            g.errorCount == 0 && WithinBudget(env, g) && g.trace == []
  {
    hide SendGreeting;
    GreetingEffect(env, Fresh(isTLS, input));
    ReadsKeeps(env, Fresh(isTLS, input), SendGreeting(env, Fresh(isTLS, input)));
  }

  /**
    Over a whole run, whatever the session does: the count is accounted for, a
    client is told of MaxErrors protocol errors at most, and being told of that
    many was the end, with BYE unless the connection was closing or given away.
   */
  lemma RunIsAccounted(env: Env, isTLS: bool, input: Stream)
    ensures var s := Serve(env, Fresh(isTLS, input));
            Accounted(env.options, s)
            && (env.options.maxErrors > 0 ==>
                  && Faults(s.output) <= env.options.maxErrors
                  && (Faults(s.output) == env.options.maxErrors ==>
                        s.closePending || s.hijacked || LastSaid(s, ByeErrors)))
  {
    hide Loop, SendGreeting, Charged, Faults, Count, RefusedLogins;
    var st := Fresh(isTLS, input);
    GreetingEffect(env, st);
    ReadsKeeps(env, st, SendGreeting(env, st));
    var (g, ok) := Flush(env, SendGreeting(env, st));
    GreetedCharged(env, isTLS, input);
    GreetedWithinBudget(env, isTLS, input);
    var e := if ok then Loop(env, g) else g;
    if ok {
      LoopCharged(env, g);
      LoopBudget(env, g);
    }
    ClosingCounts(env.options, e);
    ChargedIsAccounted(env.options, CloseConn(e));
  }

  lemma ClosingCounts(o: Options, st: State)
    requires Charged(o, st)
    ensures Charged(o, CloseConn(st))
  {
    hide Charge, RefusedLogins;
    RefusedAppend(st.trace, Called(Close, true));
    RefusedAppend(st.trace + [Called(Close, true)], SocketClosed);
    assert st.trace + [Called(Close, true)] + [] == st.trace + [Called(Close, true)];
  }
}
