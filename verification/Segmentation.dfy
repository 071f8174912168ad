/**
  A connection looks at its reader's buffer only before a TLS handshake and
  after refusing an over-limit literal it has not asked for. Apart from those
  looks, what it does depends on the bytes alone, not on how they arrive.
 */
module Segmentation {
  import opened Text
  import opened Parser
  import opened LineReader
  import opened Protocol
  import opened ConnSpec
  import opened Serving
  import opened Looks
  import Conn

  /** From st, e leads to a and its twin to b: the same, unless the way to a had a look at the buffer. */
  predicate Same(st: State, a: State, b: State) {
    st.ticks.peeks <= a.ticks.peeks && (a.ticks.peeks == st.ticks.peeks ==> a == b)
  }

  predicate SameWith<T(==)>(st: State, a: (State, T), b: (State, T)) {
    st.ticks.peeks <= a.0.ticks.peeks && (a.0.ticks.peeks == st.ticks.peeks ==> a == b)
  }

  /** From st to r the buffer was looked at once, or not at all. */
  predicate LooksOnce(st: State, r: State, looks: bool) {
    r.ticks.peeks == st.ticks.peeks + if looks then 1 else 0
  }

  // ---------------------------------------------------------------------
  // Which commands look

  /** A literal the client holds back until it is asked for, and that is too long to ask for. */
  predicate TooLongToAsk(marker: Marker, limit: int) {
    marker.Literal? && !marker.nonSync && marker.length > limit
  }

  /** Reading on from the last of args, the server meets such a literal. */
  predicate ResolveLooks(env: Env, st: State, verb: Verb, args: seq<string>)
    decreases |st.input.data|
  {
    if args == [] then false
    else
      var idx := |args| - 1;
      var marker := LiteralLength(args[idx]);
      if !marker.Literal? || LiteralDeferred(verb, idx) then false
      else if marker.length > env.options.maxLineLength then TooLongToAsk(marker, env.options.maxLineLength)
      else
        var (s, body) := FetchLiteral(env, st, marker.length, marker.nonSync, NoLiteralArgument);
        body.Some? && Tokens(Trim(body.value.1)).Some?
        && ResolveLooks(env, s, verb, args[idx := Quote(body.value.0)] + Tokens(Trim(body.value.1)).value)
  }

  predicate ArgumentLooks(env: Env, arg: string) {
    env.options.maxScriptSize > 0 && TooLongToAsk(LiteralLength(arg), env.options.maxScriptSize)
  }

  /** STARTTLS where it is possible, and a script literal above MaxScriptSize that would have to be asked for. */
  predicate CommandLooks(env: Env, st: State, verb: Verb, args: seq<string>) {
    match verb
    case STARTTLS => env.options.tlsConfigured && !st.isTLS && !st.authenticated
    case PUTSCRIPT => st.authenticated && |args| >= 2 && ArgumentLooks(env, args[1])
    case CHECKSCRIPT => st.authenticated && |args| >= 1 && ArgumentLooks(env, args[0])
    case _ => false
  }

  predicate LineLooks(env: Env, st: State, line: string) {
    match ParseLine(line)
    case Syntax => false
    case Command(cmd, tokens) =>
      || ResolveLooks(env, st, ReadVerb(cmd), tokens)
      || (var (s, args) := ResolveLiteralArgs(env, st, ReadVerb(cmd), tokens);
          args.Some? && CommandLooks(env, s, ReadVerb(cmd), args.value))
  }

  predicate TurnLooks(env: Env, st: State) {
    var (s1, done) := LookAtContext(env, st);
    var (s2, line) := ReadLine(env, s1);
    !done && line.Line? && Trim(line.text) != "" && LineLooks(env, s2, Trim(line.text))
  }

  /** No command of the run from st looks. */
  predicate NeverLooks(env: Env, st: State)
    requires !st.hijacked
    decreases if st.isTLS then 0 else 1, |st.input.data|
  {
    IterateAdvances(env, st);
    var (s, more) := Iterate(env, st);
    !TurnLooks(env, st) && (more ==> NeverLooks(env, s))
  }

  // ---------------------------------------------------------------------
  // Literals

  lemma RefuseSame(e: Env, f: Env, st: State, nonSync: bool)
    requires Twins(e, f)
    ensures Same(st, RefuseLiteral(e, st, nonSync), RefuseLiteral(f, st, nonSync))
    ensures LooksOnce(st, RefuseLiteral(e, st, nonSync), !nonSync)
  {
  }

  lemma ErrorKeepsTicks(st: State, fault: Fault)
    ensures ClientError(st, fault).ticks == st.ticks && RequestClose(ClientError(st, fault)).ticks == st.ticks
  {
  }

  lemma OverLimitSame(e: Env, f: Env, st: State, nonSync: bool)
    requires Twins(e, f)
    ensures var s := ClientError(st, LiteralTooLarge);
            Same(st, RefuseLiteral(e, s, nonSync), RefuseLiteral(f, s, nonSync))
            && LooksOnce(st, RefuseLiteral(e, s, nonSync), !nonSync)
  {
    hide RefuseLiteral;
    RefuseSame(e, f, ClientError(st, LiteralTooLarge), nonSync);
  }

  lemma {:induction false} ResolveSame(e: Env, f: Env, st: State, verb: Verb, args: seq<string>)
    requires Twins(e, f)
    ensures SameWith(st, ResolveLiteralArgs(e, st, verb, args), ResolveLiteralArgs(f, st, verb, args))
    ensures LooksOnce(st, ResolveLiteralArgs(e, st, verb, args).0, ResolveLooks(e, st, verb, args))
    ensures ResolveLooks(e, st, verb, args) ==> ResolveLiteralArgs(e, st, verb, args).1 == None
    decreases |st.input.data|
  {
    hide LiteralLength, Tokens, Trim, Quote, FetchLiteral, RefuseLiteral, ResolveLiteralArgs, ClientError, RequestClose,
         Twins, LiteralDeferred;
    assert e.options == f.options by { SameOptions(e, f); }
    ErrorKeepsTicks(st, BadLiteralLength);
    if args == [] {
      ResolveNothing(e, st, verb);
      ResolveNothing(f, st, verb);
    } else {
      var idx := |args| - 1;
      var marker := LiteralLength(args[idx]);
      ResolveRound(e, st, verb, args, idx, marker);
      ResolveRound(f, st, verb, args, idx, marker);
      if marker.NotLiteral? || LiteralDeferred(verb, idx) || marker.BadLength? {
      } else if marker.length > e.options.maxLineLength {
        OverLimitSame(e, f, st, marker.nonSync);
      } else {
        FetchSame(e, f, st, marker.length, marker.nonSync, NoLiteralArgument);
        var (s, body) := FetchLiteral(e, st, marker.length, marker.nonSync, NoLiteralArgument);
        ErrorKeepsTicks(s, BadSyntax);
        if body.Some? && Tokens(Trim(body.value.1)).Some? {
          ResolveSame(e, f, s, verb, args[idx := Quote(body.value.0)] + Tokens(Trim(body.value.1)).value);
        }
      }
    }
  }

  lemma ScriptArgumentSame(e: Env, f: Env, st: State, arg: string)
    requires Twins(e, f)
    ensures SameWith(st, ReadScriptArgument(e, st, arg), ReadScriptArgument(f, st, arg))
    ensures LooksOnce(st, ReadScriptArgument(e, st, arg).0, ArgumentLooks(e, arg))
    ensures ArgumentLooks(e, arg) ==> ReadScriptArgument(e, st, arg).1 == None
  {
    hide LiteralLength, FetchLiteral, RefuseLiteral, Unquote;
    var marker := LiteralLength(arg);
    if marker.Literal? {
      FetchSame(e, f, st, marker.length, marker.nonSync, NoLiteralContent);
      if 0 < e.options.maxScriptSize < marker.length {
        RefuseSame(e, f, QuotaMaxSize(e, st, marker.length), marker.nonSync);
      }
    }
  }

  // ---------------------------------------------------------------------
  // Commands

  lemma PutSame(e: Env, f: Env, st: State, args: seq<string>)
    requires Twins(e, f)
    ensures Same(st, HandlePutScript(e, st, args), HandlePutScript(f, st, args))
    ensures LooksOnce(st, HandlePutScript(e, st, args), |args| >= 2 && ArgumentLooks(e, args[1]))
  {
    hide ReadScriptArgument, ReportError, ValidateScriptName, Name, PutResponse, ArgumentLooks;
    if |args| >= 2 {
      ScriptArgumentSame(e, f, st, args[1]);
      var (s, content) := ReadScriptArgument(e, st, args[1]);
      if content.Some? {
        var (s2, reply) := CallSession(e, s, PutScript(Name(args[0]), content.value));
        if reply.error.Some? {
          ReportSame(e, f, s2, reply.error.value);
        }
      }
    }
  }

  lemma CheckSame(e: Env, f: Env, st: State, args: seq<string>)
    requires Twins(e, f)
    ensures Same(st, HandleCheckScript(e, st, args), HandleCheckScript(f, st, args))
    ensures LooksOnce(st, HandleCheckScript(e, st, args), |args| >= 1 && ArgumentLooks(e, args[0]))
  {
    hide ReadScriptArgument, ReportError, ArgumentLooks;
    if args != [] {
      ScriptArgumentSame(e, f, st, args[0]);
      var (s, content) := ReadScriptArgument(e, st, args[0]);
      if content.Some? {
        var (s2, reply) := CallSession(e, s, CheckScript(content.value));
        if reply.error.Some? {
          ReportSame(e, f, s2, reply.error.value);
        }
      }
    }
  }

  lemma ScriptCommandSame(e: Env, f: Env, st: State, verb: Verb, args: seq<string>)
    requires Twins(e, f)
    ensures Same(st, ScriptCommand(e, st, verb, args), ScriptCommand(f, st, verb, args))
    ensures verb.IsScriptCommand() ==> LooksOnce(st, ScriptCommand(e, st, verb, args), CommandLooks(e, st, verb, args))
  {
    hide HandleListScripts, HandleGetScript, HandlePutScript, HandleCheckScript, HandleHaveSpace, HandleRenameScript,
         HandleSetActive, HandleDeleteScript, ArgumentLooks;
    PutSame(e, f, st, args);
    CheckSame(e, f, st, args);
    ListAndGetSame(e, f, st, args);
    OneLineSame(e, f, st, args);
  }

  // ---------------------------------------------------------------------
  // Authentication and STARTTLS

  lemma StartTLSSame(e: Env, f: Env, st: State)
    requires Twins(e, f)
    ensures SameWith(st, HandleStartTLS(e, st), HandleStartTLS(f, st))
    ensures LooksOnce(st, HandleStartTLS(e, st).0, CommandLooks(e, st, STARTTLS, []))
  {
    hide BeginTLS;
    BeginTLSSame(e, f, PeekBuffered(e, st).0);
  }

  lemma DispatchSame(e: Env, f: Env, st: State, verb: Verb, args: seq<string>)
    requires Twins(e, f)
    ensures SameWith(st, Dispatch(e, st, verb, args), Dispatch(f, st, verb, args))
    ensures LooksOnce(st, Dispatch(e, st, verb, args).0, CommandLooks(e, st, verb, args))
  {
    hide HandleStartTLS, HandleAuthenticate, HandleLogin, ScriptCommand, SendCapabilityBlock, Unquote, ArgumentLooks;
    GreetingSame(e, f, st);
    StartTLSSame(e, f, st);
    AuthenticateSame(e, f, st, args);
    LoginSame(e, f, st, args);
    ScriptCommandSame(e, f, st, verb, args);
  }

  // ---------------------------------------------------------------------
  // Whole runs

  lemma RunCommandSame(e: Env, f: Env, st: State, line: string)
    requires Twins(e, f)
    ensures SameWith(st, RunCommand(e, st, line), RunCommand(f, st, line))
    ensures LooksOnce(st, RunCommand(e, st, line).0, LineLooks(e, st, line))
  {
    hide ParseLine, ReadVerb, ResolveLiteralArgs, Dispatch, ClientError, ResolveLooks, CommandLooks;
    match ParseLine(line)
    case Syntax =>
      assert ClientError(st, BadSyntax).ticks == st.ticks by { ErrorKeepsTicks(st, BadSyntax); }
    case Command(cmd, tokens) =>
      ResolveSame(e, f, st, ReadVerb(cmd), tokens);
      var (s, args) := ResolveLiteralArgs(e, st, ReadVerb(cmd), tokens);
      if args.Some? {
        DispatchSame(e, f, s, ReadVerb(cmd), args.value);
      }
  }

  /**
    A turn looks at the buffer once or not at all, and exactly if it starts TLS
    or refuses, for its size, a literal it has not asked for.
   */
  lemma IterateSame(e: Env, f: Env, st: State)
    requires Twins(e, f)
    ensures SameWith(st, Iterate(e, st), Iterate(f, st))
    ensures LooksOnce(st, Iterate(e, st).0, TurnLooks(e, st))
  {
    hide Trim, RunCommand, LineLooks, EndOfInput, ShutdownBye, FirstLine, AfterLine, Settle;
    var (s1, done) := LookAtContext(e, st);
    var (s2, line) := ReadLine(e, s1);
    if done {
      EndSame(e, f, s1, TooLong);
    } else if line.NoLine? {
      EndSame(e, f, s2, line.error);
    } else if Trim(line.text) != "" {
      RunCommandSame(e, f, s2, Trim(line.text));
      var (s3, quit) := RunCommand(e, s2, Trim(line.text));
      SettleSame(e, f, s3, quit);
    }
  }

  lemma {:induction false} LoopSame(e: Env, f: Env, st: State)
    requires Twins(e, f) && !st.hijacked
    ensures Same(st, Loop(e, st), Loop(f, st))
    ensures NeverLooks(e, st) <==> Loop(e, st).ticks.peeks == st.ticks.peeks
    decreases if st.isTLS then 0 else 1, |st.input.data|
  {
    hide Iterate, TurnLooks;
    IterateAdvances(e, st);
    IterateAdvances(f, st);
    IterateSame(e, f, st);
    var (s, more) := Iterate(e, st);
    if more {
      LoopSame(e, f, s);
    }
  }

  /**
    A run that never looks at the buffer is the same whatever a look would have
    found, and it is one in which no command looks.
   */
  lemma ServeSame(e: Env, f: Env, st: State)
    requires Twins(e, f) && !st.hijacked
    ensures Same(st, Serve(e, st), Serve(f, st))
    ensures NeverLooks(e, Greeted(e, st)) ==> Serve(e, st).ticks.peeks == st.ticks.peeks
  {
    hide SendGreeting, Loop, NeverLooks;
    GreetingSame(e, f, st);
    var s := Greeted(e, st);
    if Flush(e, SendGreeting(e, st)).1 {
      LoopSame(e, f, s);
    }
  }

  /** e, except that looks at the buffer find what `found` records. */
  function Finding(e: Env, found: seq<bool>): Env {
    e.(buffered := (i: nat) => i < |found| && found[i])
  }

  ghost predicate Foresaw(e: Env, g: Env, found: seq<bool>) {
    Twins(e, g) && forall i: nat | i < |found| :: g.buffered(i) == found[i]
  }

  /** r is where the bytes lead from st when the looks find `found`. */
  ghost predicate RunOf(e: Env, st: State, found: seq<bool>, r: State)
    requires !st.hijacked
  {
    r.ticks.peeks == |found| && forall g | Foresaw(e, g, found) :: r == Serve(g, st)
  }

  lemma TwoRuns(e: Env, st: State, p: seq<bool>, q: seq<bool>, r: State, t: State)
    requires !st.hijacked && st.ticks.peeks == 0 && RunOf(e, st, p, r) && RunOf(e, st, q, t)
    ensures p <= q || q <= p ==> r == t && p == q
    ensures NeverLooks(e, Greeted(e, st)) ==> r == t && p == q == []
  {
    hide Serve, NeverLooks, Greeted;
    if p <= q || q <= p {
      var g := Finding(e, if p <= q then q else p);
      assert Foresaw(e, g, p) && Foresaw(e, g, q);
    }
    var g := Finding(e, p);
    assert Foresaw(e, g, p);
    ServeSame(e, g, st);
  }

  /**
    Two connections that receive the same bytes in different segments, through
    buffers of different sizes, end in the same state, having written and asked
    the same, unless a look at the buffer that both took found different things.
   */
  method ServeBoth(e: Env, f: Env, first: Conn.Network, second: Conn.Network, size: nat, size': nat, isTLS: bool,
                   tls: Option<Conn.Network>, tls': Option<Conn.Network>)
    returns (a: Conn.Conn, b: Conn.Conn)
    requires Twins(e, f)
    requires first.Valid() && second.Valid() && first.Bytes() == second.Bytes() && size > 0 && size' > 0
    requires match tls { case None => e.tls == None case Some(n) => n.Valid() && e.tls == Some(n.Bytes()) }
    requires match tls' { case None => f.tls == None case Some(n) => n.Valid() && f.tls == Some(n.Bytes()) }
    ensures a.env == e && b.env == f
    ensures a.peeked <= b.peeked || b.peeked <= a.peeked ==> a.St() == b.St() && a.peeked == b.peeked
    ensures NeverLooks(e, Greeted(e, Fresh(isTLS, first.Bytes()))) ==> a.St() == b.St() && a.peeked == b.peeked == []
  {
    hide Serving.Serve, NeverLooks, Greeted;
    ghost var st := Fresh(isTLS, first.Bytes());
    a := new Conn.Conn(e, first, isTLS, tls, size);
    a.Serve();
    assert RunOf(e, st, a.peeked, a.St()) by {
      assert forall g | Foresaw(e, g, a.peeked) :: a.Foresees(g);
    }
    b := new Conn.Conn(f, second, isTLS, tls', size');
    b.Serve();
    assert RunOf(e, st, b.peeked, b.St()) by {
      assert forall g | Foresaw(e, g, b.peeked) :: b.Foresees(g);
    }
    TwoRuns(e, st, a.peeked, b.peeked, a.St(), b.St());
  }
}
