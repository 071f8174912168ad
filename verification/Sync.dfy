/**
  Whose bytes are commands: where a client's command ends, given what it has
  committed itself to send, and where the server resumes reading.

  A client that writes {N+} at the end of a line has committed N bytes and the
  rest of the command. {N} commits them only once the server has answered `+`.
  The server never answers `+` to a literal of AUTHENTICATE: it takes {N} there
  for committed (conn.go:560-563). Everything below is stated for clients of
  either mind.
 */
module Sync {
  import opened Text
  import opened Parser
  import opened LineReader
  import opened Protocol
  import opened ConnSpec
  import opened Effects
  import opened Serving

  // ---------------------------------------------------------------------
  // The client's side

  /** When a client sends the body of {N} in AUTHENTICATE: once it is asked, as everywhere else, or at once. */
  datatype Rule = OnceAsked | SaslAtOnce

  /** The n-th argument of a command is sent without being asked for in either form. */
  predicate SentAtOnce(rule: Rule, verb: Verb, n: nat) {
    rule.SaslAtOnce? && verb.AUTHENTICATE? && n == 2
  }

  /** The first line of data with its line feed, and what follows. */
  function NextLine(data: string): (r: Option<(string, string)>)
    ensures r.Some? ==> |r.value.1| < |data|
  {
    var n := LineLength(data);
    if n > 0 && data[n - 1] == '\n' then Some((data[..n], data[n..])) else None
  }

  /**
    Where the arguments of a command end: `tokens` are the last of n + |tokens|
    so far, data follows their line, and the client has received `pluses`
    go-aheads it has not used. None when the bytes cannot be delimited.
   */
  function ArgsEnd(rule: Rule, verb: Verb, n: nat, tokens: seq<string>, data: string, pluses: int): (r: Option<string>)
    ensures r.Some? ==> |r.value| <= |data|
    decreases |data|
  {
    if tokens == [] then Some(data)
    else
      var committed := SentAtOnce(rule, verb, n + |tokens|);
      match LiteralLength(tokens[|tokens| - 1])
      case NotLiteral => Some(data)
      case BadLength(nonSync) => if nonSync || committed then None else Some(data)
      case Literal(length, nonSync) =>
        if !nonSync && !committed && pluses <= 0 then Some(data)
        else if length > |data| then None
        else
          match NextLine(data[length..])
          case None => None
          case Some((text, rest)) =>
            var more := Tokens(Trim(text));
            ArgsEnd(rule, verb, n + |tokens|, if more.Some? then more.value else [], rest,
                    if nonSync || committed then pluses else pluses - 1)
  }

  /** Where the response to an AUTHENTICATE challenge ends: one string on a line. */
  function ResponseEnd(rule: Rule, data: string): Option<string> {
    match NextLine(data)
    case None => None
    case Some((text, rest)) =>
      match LiteralLength(Trim(text))
      case NotLiteral => Some(rest)
      case BadLength(nonSync) => if nonSync || rule.SaslAtOnce? then None else Some(rest)
      case Literal(length, nonSync) =>
        if !nonSync && rule.OnceAsked? then Some(rest)
        else if length > |rest| then None
        else
          match NextLine(rest[length..])
          case None => None
          case Some((_, after)) => Some(after)
  }

  function CommandEnd(rule: Rule, data: string, pluses: int, challenged: bool): Option<string> {
    match NextLine(data)
    case None => None
    case Some((text, rest)) =>
      match ParseLine(Trim(text))
      case Syntax => Some(rest)
      case Command(cmd, tokens) =>
        AfterArgs(rule, ReadVerb(cmd), ArgsEnd(rule, ReadVerb(cmd), 0, tokens, rest, pluses), challenged)
  }

  function AfterArgs(rule: Rule, verb: Verb, end: Option<string>, challenged: bool): Option<string> {
    if end.Some? && verb.AUTHENTICATE? && challenged then ResponseEnd(rule, end.value) else end
  }

  // ---------------------------------------------------------------------
  // What the server wrote

  /** How often the server wrote `phrase` between two states. */
  function Said(a: State, b: State, phrase: Phrase): int {
    Count(b.output, Say(phrase)) - Count(a.output, Say(phrase))
  }

  lemma WriteCounts(st: State, item: Item, phrase: Phrase)
    ensures Said(st, Write(st, item), phrase) == if item == Say(phrase) then 1 else 0
  {
    assert (st.output + [item])[..|st.output|] == st.output;
  }

  // ---------------------------------------------------------------------
  // Where the two part company

  /** The arguments the server has to read, and gets to read, before it answers. */
  predicate Reaches(env: Env, st: State, verb: Verb, args: seq<string>)
    requires args != []
  {
    if verb.AUTHENTICATE? then
      !st.authenticated && AuthAllowed(env.options, st.isTLS) && ToUpper(Unquote(args[0])) == "PLAIN"
    else st.authenticated
  }

  predicate Accepts(env: Env, verb: Verb, length: nat) {
    if verb.AUTHENTICATE? then length <= env.options.maxAuthLiteral
    else !(0 < env.options.maxScriptSize < length)
  }

  predicate Commits(rule: Rule, verb: Verb, marker: Marker) {
    !marker.NotLiteral? && (marker.nonSync || (rule.SaslAtOnce? && verb.AUTHENTICATE?))
  }

  /** The line behind a content literal ends in a non-synchronizing marker of its own. */
  predicate TrailingMarker(data: string, length: nat) {
    && length <= |data|
    && NextLine(data[length..]).Some?
    && var more := Tokens(Trim(NextLine(data[length..]).value.0));
       more.Some? && more.value != []
       && var m := LiteralLength(more.value[|more.value| - 1]);
          !m.NotLiteral? && m.nonSync
  }

  /** The server reads a body the client waits to be asked for. */
  predicate ReadsUnsent(rule: Rule, verb: Verb, marker: Marker) {
    rule.OnceAsked? && verb.AUTHENTICATE? && marker.Literal? && !marker.nonSync
  }

  /** The response to a challenge is such a body. */
  predicate ResponseStrays(rule: Rule, env: Env, st: State) {
    && NextLine(st.input.data).Some?
    && var m := LiteralLength(Trim(NextLine(st.input.data).value.0));
       ReadsUnsent(rule, AUTHENTICATE, m) && m.length <= env.options.maxAuthLiteral
  }

  /**
    The commands after which the server resumes elsewhere than the client: a
    committed content literal that is answered without being read; a content
    literal followed by a further committed one, which is dropped with the rest
    of its line; a content marker that is not the last argument, whose body the
    client never meant to send; and, for clients that wait to be asked, the {N}
    of an AUTHENTICATE that is read unasked.
   */
  predicate Strays(rule: Rule, env: Env, st: State, verb: Verb, args: seq<string>) {
    match verb
    case PUTSCRIPT => 1 < |args| && StraysAt(rule, env, st, verb, args, 1)
    case AUTHENTICATE =>
      if |args| == 1 then Reaches(env, st, verb, args) && ResponseStrays(rule, env, st)
      else 1 < |args| && StraysAt(rule, env, st, verb, args, 1)
    case CHECKSCRIPT => 0 < |args| && StraysAt(rule, env, st, verb, args, 0)
    case _ => false
  }

  predicate StraysAt(rule: Rule, env: Env, st: State, verb: Verb, args: seq<string>, slot: nat)
    requires slot < |args|
  {
    var marker := LiteralLength(args[slot]);
    if slot + 1 < |args| then Reaches(env, st, verb, args) && marker.Literal? && Accepts(env, verb, marker.length)
    else if !Reaches(env, st, verb, args) then Commits(rule, verb, marker)
    else
      && marker.Literal? && Accepts(env, verb, marker.length)
      && (ReadsUnsent(rule, verb, marker) || TrailingMarker(st.input.data, marker.length))
  }

  // ---------------------------------------------------------------------
  // Reading literals

  lemma LineIsNextLine(env: Env, st: State)
    requires ReadLine(env, st).1.Line?
    ensures NextLine(st.input.data) == Some((ReadLine(env, st).1.text, ReadLine(env, st).0.input.data))
  {
  }

  /** A literal that was fetched, and how many go-aheads that took. */
  lemma FetchSync(env: Env, st: State, n: nat, nonSync: bool, failure: Phrase)
    requires failure != Plus && failure != Challenge
    ensures var (s, body) := FetchLiteral(env, st, n, nonSync, failure);
            if body.None? then s.closePending && Said(st, s, Challenge) == 0
            else
              && n <= |st.input.data|
              && NextLine(st.input.data[n..]) == Some((body.value.1, s.input.data))
              && Said(st, s, Plus) == (if nonSync then 0 else 1) && Said(st, s, Challenge) == 0
  {
    hide FirstLine, AfterLine, NextLine, Count, ReadLiteral, GoAhead;
    var (s1, go) := GoAhead(env, st, nonSync);
    GoAheadSync(env, st, nonSync);
    ReadSync(env, s1, n);
    var s2 := ReadLiteral(env, s1, n).0;
    WriteCounts(s2, Say(failure), Challenge);
  }

  lemma GoAheadSync(env: Env, st: State, nonSync: bool)
    ensures var s := GoAhead(env, st, nonSync).0;
            s.input == st.input && Said(st, s, Plus) == (if nonSync then 0 else 1) && Said(st, s, Challenge) == 0
  {
    hide Count;
    WriteCounts(st, Say(Plus), Plus);
    WriteCounts(st, Say(Plus), Challenge);
  }

  lemma ReadSync(env: Env, st: State, n: nat)
    ensures var (s, body) := ReadLiteral(env, st, n);
            && s.output == st.output && s.closePending == st.closePending
            && (body.Some? ==>
                  && n <= |st.input.data|
                  && NextLine(st.input.data[n..]) == Some((body.value.1, s.input.data)))
  {
    hide FirstLine, AfterLine, NextLine;
    if n <= |st.input.data| {
      var t := st.(input := st.input.(data := st.input.data[n..]));
      if ReadLine(env, t).1.Line? {
        LineIsNextLine(env, t);
      }
    }
  }

  /** What the client still has to send for the last of args. */
  function Pending(rule: Rule, verb: Verb, args: seq<string>, data: string, pluses: int): Option<string> {
    if args == [] then Some(data) else ArgsEnd(rule, verb, |args| - 1, [args[|args| - 1]], data, pluses)
  }

  lemma RefusedUnread(env: Env, st: State, fault: Fault, nonSync: bool)
    ensures var s := RefuseLiteral(env, ClientError(st, fault), nonSync);
            && s.input == st.input && (nonSync ==> s.closePending)
            && Said(st, s, Plus) == 0 && Said(st, s, Challenge) == 0
  {
    hide Count, ClientError;
    FaultCounts(st, fault);
    ErrorKeepsInput(st, fault);
  }

  lemma FaultCounts(st: State, fault: Fault)
    ensures Said(st, ClientError(st, fault), Plus) == 0 && Said(st, ClientError(st, fault), Challenge) == 0
  {
    WriteCounts(st.(errorCount := st.errorCount + 1), Fail(fault), Plus);
    WriteCounts(st.(errorCount := st.errorCount + 1), Fail(fault), Challenge);
  }

  lemma ArgsEndOfLast(rule: Rule, verb: Verb, n: nat, tokens: seq<string>, data: string, pluses: int)
    requires tokens != []
    ensures ArgsEnd(rule, verb, n, tokens, data, pluses)
            == ArgsEnd(rule, verb, n + |tokens| - 1, [tokens[|tokens| - 1]], data, pluses)
  {
    hide LiteralLength, Tokens, Trim, NextLine;
  }

  /** The client sends a literal it has committed or been asked for. */
  lemma PendingLiteral(rule: Rule, verb: Verb, args: seq<string>, data: string, pluses: int, text: string, rest: string)
    requires args != [] && LiteralLength(args[|args| - 1]).Literal?
    requires var m := LiteralLength(args[|args| - 1]);
             && (m.nonSync || pluses > 0 || SentAtOnce(rule, verb, |args|))
             && m.length <= |data| && NextLine(data[m.length..]) == Some((text, rest))
    ensures var m := LiteralLength(args[|args| - 1]);
            var more := Tokens(Trim(text));
            Pending(rule, verb, args, data, pluses) ==
            ArgsEnd(rule, verb, |args|, if more.Some? then more.value else [], rest,
                    if m.nonSync || SentAtOnce(rule, verb, |args|) then pluses else pluses - 1)
  {
    hide LiteralLength, Tokens, Trim, NextLine;
  }

  lemma ArgsEndNoLiteral(rule: Rule, verb: Verb, n: nat, tokens: seq<string>, data: string, pluses: int)
    requires tokens != [] && LiteralLength(tokens[|tokens| - 1]).NotLiteral?
    ensures ArgsEnd(rule, verb, n, tokens, data, pluses) == Some(data)
  {
    hide LiteralLength;
  }

  lemma ArgsEndNothing(rule: Rule, verb: Verb, n: nat, data: string, pluses: int)
    ensures ArgsEnd(rule, verb, n, [], data, pluses) == Some(data)
  {
  }

  /** Server and client agree from `before`, whose arguments were args, to `after`. */
  ghost predicate InStep(rule: Rule, verb: Verb, args: seq<string>, before: State, r: Option<seq<string>>,
      after: State, spare: nat) {
    var said := Said(before, after, Plus);
    if r.None? then
      after.closePending || (said >= 0 && Pending(rule, verb, args, before.input.data, said) == Some(after.input.data))
    else
      && said >= 0
      && Pending(rule, verb, args, before.input.data, said + spare)
         == Pending(rule, verb, r.value, after.input.data, spare)
  }

  /** An inline literal keeps them in step. */
  lemma InStepAcross(rule: Rule, verb: Verb, args: seq<string>, st: State, s: State, after: State,
      body: (string, string),
                     more: seq<string>, r: Option<seq<string>>, spare: nat)
    requires args != [] && LiteralLength(args[|args| - 1]).Literal? && !(verb.AUTHENTICATE? && |args| == 2)
    requires var m := LiteralLength(args[|args| - 1]);
             && m.length <= |st.input.data| && NextLine(st.input.data[m.length..]) == Some((body.1, s.input.data))
             && Said(st, s, Plus) == if m.nonSync then 0 else 1
    requires Tokens(Trim(body.1)) == Some(more)
    requires InStep(rule, verb, args[|args| - 1 := Quote(body.0)] + more, s, r, after, spare)
    ensures InStep(rule, verb, args, st, r, after, spare)
  {
    hide LiteralLength, Tokens, Trim, Quote, NextLine, Pending, Count;
    var used, later := Said(st, s, Plus), Said(s, after, Plus);
    InlinePending(rule, verb, args, body.0, more, s.input.data, later);
    InlinePending(rule, verb, args, body.0, more, s.input.data, later + spare);
    if later >= 0 {
      PendingLiteral(rule, verb, args, st.input.data, used + later, body.1, s.input.data);
      PendingLiteral(rule, verb, args, st.input.data, used + later + spare, body.1, s.input.data);
    }
  }

  lemma NothingInStep(rule: Rule, verb: Verb, args: seq<string>, st: State, spare: nat)
    ensures InStep(rule, verb, args, st, Some(args), st, spare)
  {
    hide LiteralLength, ArgsEnd;
  }

  lemma ClosedInStep(rule: Rule, verb: Verb, args: seq<string>, st: State, s: State, spare: nat)
    requires s.closePending
    ensures InStep(rule, verb, args, st, None, s, spare)
  {
  }

  /**
    A refusal that reads nothing: the client has sent nothing more, unless it has
    committed more and the server closes.
   */
  lemma RefusalInStep(rule: Rule, verb: Verb, args: seq<string>, st: State, s: State, spare: nat)
    requires args != [] && !(verb.AUTHENTICATE? && |args| == 2)
    requires var m := LiteralLength(args[|args| - 1]); !m.NotLiteral? && (m.nonSync ==> s.closePending)
    requires s.input == st.input && Said(st, s, Plus) == 0
    ensures InStep(rule, verb, args, st, None, s, spare)
  {
    hide LiteralLength, NextLine, Tokens, Trim, Count;
  }

  lemma NeverCommitted(verb: Verb, idx: nat)
    requires !LiteralDeferred(verb, idx)
    ensures !(verb.AUTHENTICATE? && idx + 1 == 2)
  {
  }

  /** Server and client resolve inline literals alike, up to the last argument or a refusal. */
  lemma {:induction false} ResolveSync(rule: Rule, env: Env, st: State, verb: Verb, args: seq<string>, spare: nat)
    ensures var (s, r) := ResolveLiteralArgs(env, st, verb, args);
            InStep(rule, verb, args, st, r, s, spare)
    decreases |st.input.data|
  {
    hide LiteralLength, Tokens, Trim, Quote, FetchLiteral, RefuseLiteral, ClientError, NextLine, ResolveLiteralArgs,
         InStep, LiteralDeferred, RequestClose;
    if args == [] {
      ResolveNothing(env, st, verb);
      NothingInStep(rule, verb, args, st, spare);
    } else {
      var idx := |args| - 1;
      var marker := LiteralLength(args[idx]);
      ResolveRound(env, st, verb, args, idx, marker);
      if marker.NotLiteral? || LiteralDeferred(verb, idx) {
        NothingInStep(rule, verb, args, st, spare);
      } else if marker.BadLength? {
        NeverCommitted(verb, idx);
        FaultCounts(st, BadLiteralLength);
        ErrorKeepsInput(st, BadLiteralLength);
        var refused := ClientError(st, BadLiteralLength);
        assert RequestClose(refused) == refused.(closePending := true) by { ClosingSets(refused); }
        RefusalInStep(rule, verb, args, st, if marker.nonSync then RequestClose(refused) else refused, spare);
      } else {
        NeverCommitted(verb, idx);
        if marker.length > env.options.maxLineLength {
          RefusedUnread(env, st, LiteralTooLarge, marker.nonSync);
          RefusalInStep(rule, verb, args, st, RefuseLiteral(env, ClientError(st, LiteralTooLarge), marker.nonSync),
              spare);
        } else {
          FetchSync(env, st, marker.length, marker.nonSync, NoLiteralArgument);
          var (s, body) := FetchLiteral(env, st, marker.length, marker.nonSync, NoLiteralArgument);
          if body.None? {
            ClosedInStep(rule, verb, args, st, s, spare);
          } else {
            match Tokens(Trim(body.value.1))
            case None => SyntaxInStep(rule, verb, args, st, s, body.value, spare);
            case Some(more) =>
              var args' := args[idx := Quote(body.value.0)] + more;
              ResolveSync(rule, env, s, verb, args', spare);
              var (after, r) := ResolveLiteralArgs(env, s, verb, args');
              InStepAcross(rule, verb, args, st, s, after, body.value, more, r, spare);
          }
        }
      }
    }
  }

  lemma ClosingSets(st: State)
    ensures RequestClose(st) == st.(closePending := true)
  {
  }

  lemma SyntaxInStep(rule: Rule, verb: Verb, args: seq<string>, st: State, s: State, body: (string, string), spare: nat)
    requires args != [] && LiteralLength(args[|args| - 1]).Literal? && !(verb.AUTHENTICATE? && |args| == 2)
    requires var m := LiteralLength(args[|args| - 1]);
             && m.length <= |st.input.data| && NextLine(st.input.data[m.length..]) == Some((body.1, s.input.data))
             && Said(st, s, Plus) == if m.nonSync then 0 else 1
    requires Tokens(Trim(body.1)) == None
    ensures InStep(rule, verb, args, st, None, ClientError(s, BadSyntax), spare)
  {
    hide LiteralLength, Tokens, Trim, NextLine, Pending, ClientError, Count;
    FaultCounts(s, BadSyntax);
    ErrorKeepsInput(s, BadSyntax);
    PendingLiteral(rule, verb, args, st.input.data, Said(st, s, Plus), body.1, s.input.data);
    ArgsEndNothing(rule, verb, |args|, s.input.data, 0);
  }

  lemma ErrorKeepsInput(st: State, fault: Fault)
    ensures ClientError(st, fault).input == st.input
  {
  }

  /** Behind an inline literal the server's argument list and the client's line agree. */
  lemma InlinePending(rule: Rule, verb: Verb, args: seq<string>, body: string, more: seq<string>, data: string,
      pluses: int)
    requires args != []
    ensures Pending(rule, verb, args[|args| - 1 := Quote(body)] + more, data, pluses)
            == ArgsEnd(rule, verb, |args|, more, data, pluses)
  {
    hide Quote, LiteralLength, ArgsEnd, Pending;
    var front := args[|args| - 1 := Quote(body)];
    assert |front| == |args| && front[|args| - 1] == Quote(body);
    if more == [] {
      assert front + more == front;
      QuotedIsNoMarker(body);
      LastIsNoLiteral(rule, verb, front, data, pluses);
      ArgsEndNothing(rule, verb, |args|, data, pluses);
    } else {
      PendingBehind(rule, verb, front, more, data, pluses);
    }
  }

  lemma PendingBehind(rule: Rule, verb: Verb, front: seq<string>, more: seq<string>, data: string, pluses: int)
    requires more != []
    ensures Pending(rule, verb, front + more, data, pluses) == ArgsEnd(rule, verb, |front|, more, data, pluses)
  {
    hide ArgsEnd;
    ArgsEndOfLast(rule, verb, |front|, more, data, pluses);
  }

  /** Resolving literals issues no challenge, and stops only where the source says. */
  lemma {:induction false} ResolveStops(env: Env, st: State, verb: Verb, args: seq<string>)
    ensures var (s, r) := ResolveLiteralArgs(env, st, verb, args);
            && Said(st, s, Challenge) == 0
            && (r.Some? && r.value != [] ==>
                  LiteralLength(r.value[|r.value| - 1]).NotLiteral? || LiteralDeferred(verb, |r.value| - 1))
    decreases |st.input.data|
  {
    hide LiteralLength, Tokens, Trim, Quote, FetchLiteral, RefuseLiteral, ClientError, NextLine, ResolveLiteralArgs,
         Count;
    if args == [] {
      ResolveNothing(env, st, verb);
    } else {
      var idx := |args| - 1;
      var marker := LiteralLength(args[idx]);
      ResolveRound(env, st, verb, args, idx, marker);
      FaultCounts(st, BadLiteralLength);
      if marker.Literal? && !LiteralDeferred(verb, idx) {
        RefusedUnread(env, st, LiteralTooLarge, marker.nonSync);
        FetchSync(env, st, marker.length, marker.nonSync, NoLiteralArgument);
        var (s, body) := FetchLiteral(env, st, marker.length, marker.nonSync, NoLiteralArgument);
        if marker.length <= env.options.maxLineLength && body.Some? {
          FaultCounts(s, BadSyntax);
          var more := Tokens(Trim(body.value.1));
          if more.Some? {
            ResolveStops(env, s, verb, args[idx := Quote(body.value.0)] + more.value);
          }
        }
      }
    }
  }

  // ---------------------------------------------------------------------
  // Commands

  /** Only responses are written, none of them an invitation to send. */
  predicate Keeps(a: State, b: State) {
    && b.input == a.input && (a.closePending ==> b.closePending)
    && Said(a, b, Plus) == 0 && Said(a, b, Challenge) == 0
  }

  lemma KeepsTwice(a: State, b: State, c: State)
    requires Keeps(a, b) && Keeps(b, c)
    ensures Keeps(a, c)
  {
    hide Count;
  }

  lemma WriteKeeps(st: State, item: Item)
    requires item != Say(Plus) && item != Say(Challenge)
    ensures Keeps(st, Write(st, item)) && Keeps(st, RequestClose(Write(st, item)))
  {
    WriteCounts(st, item, Plus);
    WriteCounts(st, item, Challenge);
  }

  lemma FaultKeeps(st: State, fault: Fault)
    ensures Keeps(st, ClientError(st, fault)) && Keeps(st, RequestClose(ClientError(st, fault)))
  {
    FaultCounts(st, fault);
  }

  lemma ReportKeepsInput(env: Env, st: State, e: SessionError)
    ensures Keeps(st, ReportError(env, st, e)) && Keeps(st, AuthFailure(env, st, e))
  {
    hide Keeps;
    var item :=
      match e
      case Coded(code, message, _) => DenyCoded(code, message)
      case CloseConnection => Say(NoInternal)
      case Plain(text) => if env.options.strictSessionErrors then Say(NoInternal) else Deny(text);
    var counted := st.(errorCount := st.errorCount + 1);
    WriteKeeps(st, item);
    WriteKeeps(counted, item);
    assert Keeps(st, Write(counted, item)) && Keeps(st, RequestClose(Write(counted, item))) by {
      CountedKeeps(st, Write(counted, item));
      CountedKeeps(st, RequestClose(Write(counted, item)));
    }
  }

  lemma CountedKeeps(st: State, r: State)
    requires Keeps(st.(errorCount := st.errorCount + 1), r)
    ensures Keeps(st, r)
  {
    hide Count;
  }

  lemma CallAuthKeeps(env: Env, st: State, call: Call)
    ensures Keeps(st, CallAuth(env, st, call))
  {
    hide ReportError, AuthFailure, Count;
    var (s1, reply) := CallSession(env, st, call);
    var s2 := if reply.hijack then Hijack(env, s1) else s1;
    if reply.error.Some? {
      ReportKeepsInput(env, s2, reply.error.value);
    } else if !s2.hijacked {
      WriteKeeps(s2.(authenticated := true), Say(OkAuthenticated));
    }
  }

  lemma PlainLoginKeeps(env: Env, st: State, data: string)
    ensures Keeps(st, PlainLogin(env, st, data))
  {
    hide SplitOn, ClientError, CallAuth, Keeps;
    FaultKeeps(st, BadAuthData);
    FaultKeeps(st, BadAuthFormat);
    var counted := CountRefusal(env, st);
    WriteKeeps(counted, Say(NoEmptyPassword));
    if counted != st {
      CountedKeeps(st, SayTo(counted, NoEmptyPassword));
    }
    match env.decodeBase64(data)
    case None =>
    case Some(message) =>
      var parts := SplitOn(message, '\U{00}');
      if |parts| == 3 {
        CallAuthKeeps(env, st, AuthenticatePlain(parts[0], parts[1], parts[2]));
      }
  }

  lemma AskKeeps(env: Env, st: State, call: Call, items: seq<Item>)
    ensures var (s, reply) := CallSession(env, st, call);
            && s.input == st.input && s.closePending == st.closePending && s.output == st.output
            && (reply.error.Some? ==> Keeps(st, ReportError(env, s, reply.error.value)))
  {
    hide ReportError, Count;
    var (s, reply) := CallSession(env, st, call);
    if reply.error.Some? {
      ReportKeepsInput(env, s, reply.error.value);
    }
  }

  /** The effect of the content argument on a script command, and nothing else. */
  lemma PutKeeps(env: Env, st: State, args: seq<string>)
    requires |args| >= 2
    ensures Keeps(ReadScriptArgument(env, st, args[1]).0, HandlePutScript(env, st, args))
  {
    hide ReadScriptArgument, Name, ValidateScriptName, ClientError, ReportError, Keeps;
    var (s1, content) := ReadScriptArgument(env, st, args[1]);
    KeepsSelf(s1);
    if content.Some? {
      var name := Name(args[0]);
      var bad := ValidateScriptName(name);
      if bad.Some? {
        FaultKeeps(s1, BadName(bad.value));
      } else if 0 < env.options.maxScriptSize < |content.value| {
        WriteKeeps(s1, DenySize(|content.value|, env.options.maxScriptSize));
      } else {
        var call := PutScript(name, content.value);
        AskKeeps(env, s1, call, []);
        var (s2, reply) := CallSession(env, s1, call);
        assert Keeps(s1, s2) by { SessionKeeps(env, s1, call); }
        WriteKeeps(s2, PutResponse(reply));
        KeepsTwice(s1, s2, Write(s2, PutResponse(reply)));
      }
    }
  }

  lemma KeepsSelf(st: State)
    ensures Keeps(st, st)
  {
  }

  lemma SessionKeeps(env: Env, st: State, call: Call)
    ensures Keeps(st, CallSession(env, st, call).0)
  {
  }

  lemma CheckKeeps(env: Env, st: State, args: seq<string>)
    requires args != []
    ensures Keeps(ReadScriptArgument(env, st, args[0]).0, HandleCheckScript(env, st, args))
  {
    hide ReadScriptArgument, ClientError, ReportError, Keeps;
    var (s1, content) := ReadScriptArgument(env, st, args[0]);
    KeepsSelf(s1);
    if content.Some? {
      if 0 < env.options.maxScriptSize < |content.value| {
        WriteKeeps(s1, DenySize(|content.value|, env.options.maxScriptSize));
      } else {
        var call := CheckScript(content.value);
        AskKeeps(env, s1, call, []);
        var (s2, reply) := CallSession(env, s1, call);
        assert Keeps(s1, s2) by { SessionKeeps(env, s1, call); }
        var item := if reply.warnings != "" then Warnings(reply.warnings) else Say(OkBare);
        WriteKeeps(s2, item);
        KeepsTwice(s1, s2, Write(s2, item));
      }
    }
  }

  /** What reading a deferred argument did to the input. */
  predicate SlotRead(env: Env, verb: Verb, a: State, arg: string, b: State) {
    var marker := LiteralLength(arg);
    if marker.Literal? && Accepts(env, verb, marker.length) then
      b.closePending
      || (&& marker.length <= |a.input.data| && NextLine(a.input.data[marker.length..]).Some?
          && NextLine(a.input.data[marker.length..]).value.1 == b.input.data
          && Said(a, b, Plus) == (if marker.nonSync || verb.AUTHENTICATE? then 0 else 1))
    else b.closePending || (b.input == a.input && Said(a, b, Plus) == 0 && !Commits(SaslAtOnce, verb, marker))
  }

  lemma ScriptSlot(env: Env, verb: Verb, st: State, arg: string)
    requires verb.PUTSCRIPT? || verb.CHECKSCRIPT?
    ensures SlotRead(env, verb, st, arg, ReadScriptArgument(env, st, arg).0)
  {
    hide LiteralLength, Unquote, FetchLiteral, NextLine, ClientError;
    var marker := LiteralLength(arg);
    if marker.BadLength? {
      FaultKeeps(st, BadLiteralLength);
    } else if marker.Literal? {
      if 0 < env.options.maxScriptSize < marker.length {
        WriteCounts(st, DenySize(marker.length, env.options.maxScriptSize), Plus);
      } else {
        FetchSync(env, st, marker.length, marker.nonSync, NoLiteralContent);
      }
    }
  }

  lemma AuthSlot(env: Env, st: State, arg: string)
    ensures var (s, r) := AuthString(env, st, arg);
            SlotRead(env, AUTHENTICATE, st, arg, s) && Said(st, s, Challenge) == 0
  {
    hide LiteralLength, Unquote, FetchLiteral, NextLine, ClientError;
    FaultKeeps(st, BadLiteralSize);
    var marker := LiteralLength(arg);
    if marker.Literal? && marker.length <= env.options.maxAuthLiteral {
      FetchSync(env, st, marker.length, true, NoAuthFailed);
    }
  }

  // ---------------------------------------------------------------------
  // Server and client compared

  /** After the content literal, the client goes on exactly if its line ends in a committed marker. */
  lemma BehindContent(rule: Rule, verb: Verb, slot: nat, arg: string, data: string, rest: string, pluses: int)
    requires LiteralDeferred(verb, slot) && LiteralLength(arg).Literal? && !ReadsUnsent(rule, verb, LiteralLength(arg))
    requires var m := LiteralLength(arg);
             && m.length <= |data| && NextLine(data[m.length..]).Some? && NextLine(data[m.length..]).value.1 == rest
             && pluses == if m.nonSync || verb.AUTHENTICATE? then 0 else 1
    ensures ArgsEnd(rule, verb, slot, [arg], data, pluses) == Some(rest)
            <==> !TrailingMarker(data, LiteralLength(arg).length)
  {
    hide LiteralLength, Tokens, Trim, NextLine;
    var m := LiteralLength(arg);
    var text := NextLine(data[m.length..]).value.0;
    var more := Tokens(Trim(text));
    var tokens := if more.Some? then more.value else [];
    assert ArgsEnd(rule, verb, slot, [arg], data, pluses) == ArgsEnd(rule, verb, slot + 1, tokens, rest, 0);
    if tokens != [] {
      LastTokens(rule, verb, slot, tokens, rest);
    }
  }

  /** Without a go-ahead, further arguments end at once unless a non-synchronizing marker commits more. */
  lemma LastTokens(rule: Rule, verb: Verb, slot: nat, tokens: seq<string>, rest: string)
    requires LiteralDeferred(verb, slot) && tokens != []
    ensures var m := LiteralLength(tokens[|tokens| - 1]);
            ArgsEnd(rule, verb, slot + 1, tokens, rest, 0) == Some(rest) <==> m.NotLiteral? || !m.nonSync
  {
    hide LiteralLength, Tokens, Trim, NextLine, ArgsEnd;
    var m := LiteralLength(tokens[|tokens| - 1]);
    assert LiteralDeferred(verb, slot) ==> !(verb.AUTHENTICATE? && slot + 1 + |tokens| == 2);
    if m.Literal? && m.nonSync && m.length <= |rest| && NextLine(rest[m.length..]).Some? {
      var (text, after) := NextLine(rest[m.length..]).value;
      var more := Tokens(Trim(text));
      CommittedLiteral(rule, verb, slot + 1, tokens, rest, 0, text, after);
    } else {
      NoCommittedLiteral(rule, verb, slot + 1, tokens, rest);
    }
  }

  lemma CommittedLiteral(rule: Rule, verb: Verb, n: nat, tokens: seq<string>, data: string, pluses: int, text: string,
      rest: string)
    requires tokens != []
    requires var m := LiteralLength(tokens[|tokens| - 1]);
             m.Literal? && m.nonSync && m.length <= |data| && NextLine(data[m.length..]) == Some((text, rest))
    ensures var r := ArgsEnd(rule, verb, n, tokens, data, pluses); r.Some? ==> |r.value| < |data|
  {
    hide LiteralLength, Tokens, Trim, NextLine;
  }

  lemma NoCommittedLiteral(rule: Rule, verb: Verb, n: nat, tokens: seq<string>, data: string)
    requires tokens != [] && !(verb.AUTHENTICATE? && n + |tokens| == 2)
    ensures var m := LiteralLength(tokens[|tokens| - 1]);
            && (m.NotLiteral? || !m.nonSync ==> ArgsEnd(rule, verb, n, tokens, data, 0) == Some(data))
            && (!m.NotLiteral? && m.nonSync ==>
                  m.BadLength? || m.length > |data| || NextLine(data[m.length..]).None? ==>
                    ArgsEnd(rule, verb, n, tokens, data, 0) == None)
  {
    hide LiteralLength, Tokens, Trim, NextLine;
  }

  lemma KeepsEnd(a: State, b: State, c: State)
    requires Keeps(b, c)
    ensures Said(a, c, Plus) == Said(a, b, Plus) && Said(a, c, Challenge) == Said(a, b, Challenge) && c.input == b.input
    ensures b.closePending ==> c.closePending
  {
    hide Count;
  }

  /** A command with a content argument: the server resumes where the client goes on, unless it strays. */
  lemma SlotSync(rule: Rule, env: Env, verb: Verb, slot: nat, args: seq<string>, a: State, mid: State, b: State)
    requires LiteralDeferred(verb, slot) && slot < |args|
    requires slot + 1 < |args| ==> LiteralLength(args[|args| - 1]).NotLiteral?
    requires Keeps(mid, b) && !b.closePending
    requires if Reaches(env, a, verb, args) then SlotRead(env, verb, a, args[slot], mid) else mid == a
    ensures Pending(rule, verb, args, a.input.data, Said(a, b, Plus)) == Some(b.input.data)
            <==> !StraysAt(rule, env, a, verb, args, slot)
  {
    hide LiteralLength, NextLine, Tokens, Trim, Count, Reaches, Keeps, TrailingMarker;
    KeepsEnd(a, mid, b);
    var marker := LiteralLength(args[slot]);
    if slot + 1 < |args| {
      LastIsNoLiteral(rule, verb, args, a.input.data, Said(a, b, Plus));
      if Reaches(env, a, verb, args) && marker.Literal? && Accepts(env, verb, marker.length) {
        assert |b.input.data| < |a.input.data| by { LineShortens(a.input.data, marker.length); }
      }
    } else if Reaches(env, a, verb, args) && marker.Literal? && Accepts(env, verb, marker.length) {
      if ReadsUnsent(rule, verb, marker) {
        SlotUncommitted(rule, verb, slot, args[slot], a.input.data);
        assert |b.input.data| < |a.input.data| by { LineShortens(a.input.data, marker.length); }
      } else {
        BehindContent(rule, verb, slot, args[slot], a.input.data, b.input.data, Said(a, b, Plus));
      }
    } else {
      UnreadSlot(rule, verb, slot, args[slot], a.input.data);
    }
  }

  lemma LastIsNoLiteral(rule: Rule, verb: Verb, args: seq<string>, data: string, pluses: int)
    requires args != [] ==> LiteralLength(args[|args| - 1]).NotLiteral?
    ensures Pending(rule, verb, args, data, pluses) == Some(data)
  {
    hide LiteralLength;
  }

  lemma LineShortens(data: string, length: nat)
    requires length <= |data| && NextLine(data[length..]).Some?
    ensures |NextLine(data[length..]).value.1| < |data|
  {
    hide LineLength;
  }

  /** A content argument that is left unread is where the client is, unless it was committed. */
  lemma UnreadSlot(rule: Rule, verb: Verb, slot: nat, arg: string, data: string)
    requires LiteralDeferred(verb, slot)
    ensures ArgsEnd(rule, verb, slot, [arg], data, 0) == Some(data) <==> !Commits(rule, verb, LiteralLength(arg))
  {
    hide LiteralLength, Tokens, Trim, NextLine, LineLength, ArgsEnd;
    var m := LiteralLength(arg);
    if m.Literal? && Commits(rule, verb, m) {
      if m.length <= |data| && NextLine(data[m.length..]).Some? {
        SlotCommitted(rule, verb, slot, arg, data);
      }
    }
    SlotUncommitted(rule, verb, slot, arg, data);
  }

  lemma SlotCommitted(rule: Rule, verb: Verb, slot: nat, arg: string, data: string)
    requires LiteralDeferred(verb, slot) && LiteralLength(arg).Literal? && Commits(rule, verb, LiteralLength(arg))
    requires LiteralLength(arg).length <= |data| && NextLine(data[LiteralLength(arg).length..]).Some?
    ensures var r := ArgsEnd(rule, verb, slot, [arg], data, 0); r.Some? ==> |r.value| < |data|
  {
    hide LiteralLength, Tokens, Trim, LineLength;
  }

  lemma SlotUncommitted(rule: Rule, verb: Verb, slot: nat, arg: string, data: string)
    requires LiteralDeferred(verb, slot)
    ensures var m := LiteralLength(arg);
            && (!Commits(rule, verb, m) ==> ArgsEnd(rule, verb, slot, [arg], data, 0) == Some(data))
            && (Commits(rule, verb, m) && (m.BadLength? || m.length > |data| || NextLine(data[m.length..]).None?) ==>
                  ArgsEnd(rule, verb, slot, [arg], data, 0) == None)
  {
    hide LiteralLength, Tokens, Trim, NextLine;
  }

  // ---------------------------------------------------------------------
  // Every command

  /** The challenge of AUTHENTICATE: exactly the response is consumed. */
  lemma ChallengeSync(rule: Rule, env: Env, st: State)
    ensures var (s, r) := AuthChallenge(env, st);
            s.closePending
            || (&& Said(st, s, Challenge) == 1
                && (ResponseEnd(rule, st.input.data) == Some(s.input.data) <==> !ResponseStrays(rule, env, st)))
  {
    hide Trim, FirstLine, AfterLine, NextLine, AuthString, Count, LiteralLength, ReadLine;
    WriteCounts(st, Say(Challenge), Challenge);
    var (s1, ok) := Flush(env, SayTo(st, Challenge));
    var (s2, line) := ReadLine(env, s1);
    assert s2.output == s1.output by { ReadLineQuiet(env, s1); }
    WriteKeeps(s2, Say(NoAuthFailed));
    WriteKeeps(s2, Say(NoAuthCancelled));
    if line.Line? {
      LineIsNextLine(env, s1);
      var text := Trim(line.text);
      if text == "*" {
        assert LiteralLength("*").NotLiteral? by { StarIsNoLiteral(); }
      } else {
        AuthSlot(env, s2, text);
        ResponseIsSlot(env, s2, text);
      }
    }
  }

  lemma ReadLineQuiet(env: Env, st: State)
    ensures ReadLine(env, st).0.output == st.output && ReadLine(env, st).0.closePending == st.closePending
  {
  }

  lemma StarIsNoLiteral()
    ensures LiteralLength("*").NotLiteral?
  {
  }

  lemma ResponseIsSlot(env: Env, st: State, text: string)
    ensures var (s, r) := AuthString(env, st, text);
            s.closePending ||
            match LiteralLength(text) {
              case NotLiteral => s.input == st.input
              case BadLength(_) => false
              case Literal(length, _) =>
                length <= |st.input.data| && NextLine(st.input.data[length..]).Some?
                && NextLine(st.input.data[length..]).value.1 == s.input.data
            }
  {
    hide LiteralLength, NextLine, AuthString;
    AuthSlot(env, st, text);
    AuthStringLiteral(env, st, text);
  }

  lemma AuthStringLiteral(env: Env, st: State, text: string)
    ensures var m := LiteralLength(text);
            m.BadLength? || (m.Literal? && m.length > env.options.maxAuthLiteral) ==>
              AuthString(env, st, text).0.closePending
  {
    hide LiteralLength, FetchLiteral;
  }

  lemma AuthenticateSync(rule: Rule, env: Env, st: State, args: seq<string>)
    requires args != [] ==> LiteralLength(args[|args| - 1]).NotLiteral? || |args| == 2
    ensures var s := HandleAuthenticate(env, st, args);
            var end := AfterArgs(rule, AUTHENTICATE,
              Pending(rule, AUTHENTICATE, args, st.input.data, Said(st, s, Plus)),
                                 Said(st, s, Challenge) > 0);
            s.closePending || (end == Some(s.input.data) <==> !Strays(rule, env, st, AUTHENTICATE, args))
  {
    hide LiteralLength, NextLine, Unquote, ToUpper, AuthString, AuthChallenge, PlainLogin, ClientError, Keeps, Count,
         Pending, StraysAt, ResponseEnd, SlotRead;
    var s := HandleAuthenticate(env, st, args);
    FaultKeeps(st, AlreadyAuthenticated);
    FaultKeeps(st, AuthSyntax);
    FaultKeeps(st, AuthInsecure);
    FaultKeeps(st, BadMechanism);
    if args == [] {
      KeepsEnd(st, st, s);
      LastIsNoLiteral(rule, AUTHENTICATE, args, st.input.data, Said(st, s, Plus));
    } else if !Reaches(env, st, AUTHENTICATE, args) {
      KeepsEnd(st, st, s);
      if |args| > 1 && !s.closePending {
        SlotSync(rule, env, AUTHENTICATE, 1, args, st, st, s);
      } else if |args| == 1 {
        LastIsNoLiteral(rule, AUTHENTICATE, args, st.input.data, Said(st, s, Plus));
      }
    } else {
      var (mid, data) := if |args| > 1 then AuthString(env, st, args[1]) else AuthChallenge(env, st);
      assert Keeps(mid, s) by {
        KeepsSelf(mid);
        if data.Some? {
          PlainLoginKeeps(env, mid, data.value);
        }
      }
      KeepsEnd(st, mid, s);
      if |args| > 1 {
        AuthSlot(env, st, args[1]);
        if !s.closePending {
          SlotSync(rule, env, AUTHENTICATE, 1, args, st, mid, s);
        }
      } else {
        ChallengeSync(rule, env, st);
        LastIsNoLiteral(rule, AUTHENTICATE, args, st.input.data, Said(st, s, Plus));
      }
    }
  }

  lemma ContentSync(rule: Rule, env: Env, st: State, verb: Verb, args: seq<string>)
    requires verb.PUTSCRIPT? || verb.CHECKSCRIPT?
    requires args != [] ==> LiteralLength(args[|args| - 1]).NotLiteral? || LiteralDeferred(verb, |args| - 1)
    ensures var s := ScriptCommand(env, st, verb, args);
            s.closePending ||
            (Pending(rule, verb, args, st.input.data, Said(st, s, Plus)) == Some(s.input.data)
             <==> !Strays(rule, env, st, verb, args))
  {
    hide LiteralLength, NextLine, ReadScriptArgument, ClientError, Keeps, Count, Pending, StraysAt, SlotRead,
         HandlePutScript, HandleCheckScript;
    var s := ScriptCommand(env, st, verb, args);
    var slot := if verb.PUTSCRIPT? then 1 else 0;
    FaultKeeps(st, NotAuthenticated);
    FaultKeeps(st, PutSyntax);
    FaultKeeps(st, CheckSyntax);
    if |args| <= slot {
      assert Keeps(st, s) by { TooFewArgs(env, st, verb, args); }
      KeepsEnd(st, st, s);
      LastIsNoLiteral(rule, verb, args, st.input.data, Said(st, s, Plus));
    } else if !st.authenticated {
      if !s.closePending {
        SlotSync(rule, env, verb, slot, args, st, st, s);
      }
    } else {
      var mid := ReadScriptArgument(env, st, args[slot]).0;
      ScriptSlot(env, verb, st, args[slot]);
      if verb.PUTSCRIPT? {
        PutKeeps(env, st, args);
      } else {
        CheckKeeps(env, st, args);
      }
      if !s.closePending {
        SlotSync(rule, env, verb, slot, args, st, mid, s);
      }
    }
  }

  lemma TooFewArgs(env: Env, st: State, verb: Verb, args: seq<string>)
    requires (verb.PUTSCRIPT? && |args| < 2) || (verb.CHECKSCRIPT? && args == [])
    ensures Keeps(st, ScriptCommand(env, st, verb, args))
  {
    hide ReadScriptArgument, ClientError, Keeps;
    FaultKeeps(st, NotAuthenticated);
    FaultKeeps(st, PutSyntax);
    FaultKeeps(st, CheckSyntax);
  }

  predicate TakesContent(verb: Verb) {
    verb.PUTSCRIPT? || verb.CHECKSCRIPT? || verb.AUTHENTICATE?
  }

  /** Every other command leaves the input alone, but for the switch to TLS. */
  lemma OthersKeepInput(env: Env, st: State, verb: Verb, args: seq<string>)
    requires !TakesContent(verb)
    ensures var s := Dispatch(env, st, verb, args).0; s.isTLS == st.isTLS ==> s.input == st.input
  {
    hide Unquote, Name, Number, ValidateScriptName, ClientError, ReportError, CallAuth, HandleAuthenticate,
         HandlePutScript, HandleCheckScript, Keeps, SendGreeting, CallForLine;
    forall fault: Fault ensures ClientError(st, fault).input == st.input {
      ErrorKeepsInput(st, fault);
    }
    forall call ensures CallAuth(env, st, call).input == st.input {
      CallAuthKeeps(env, st, call);
      KeepsInput(st, CallAuth(env, st, call));
    }
    forall call, phrase ensures CallForLine(env, st, call, phrase).input == st.input {
      LineKeepsInput(env, st, call, phrase);
    }
    match verb
    case STARTTLS => UpgradeSwitches(env, st);
    case LISTSCRIPTS =>
      AskKeepsInput(env, st, ListScripts);
    case GETSCRIPT =>
      if args != [] {
        AskKeepsInput(env, st, GetScript(Name(args[0])));
      }
    case _ =>
  }

  lemma KeepsInput(a: State, b: State)
    requires Keeps(a, b)
    ensures b.input == a.input
  {
  }

  lemma AskKeepsInput(env: Env, st: State, call: Call)
    ensures var (s, reply) := CallSession(env, st, call);
            s.input == st.input && (reply.error.Some? ==> ReportError(env, s, reply.error.value).input == st.input)
  {
    hide ReportError, Keeps;
    var (s, reply) := CallSession(env, st, call);
    if reply.error.Some? {
      ReportKeepsInput(env, s, reply.error.value);
      KeepsInput(s, ReportError(env, s, reply.error.value));
    }
  }

  lemma LineKeepsInput(env: Env, st: State, call: Call, phrase: Phrase)
    ensures CallForLine(env, st, call, phrase).input == st.input
  {
    hide ReportError;
    AskKeepsInput(env, st, call);
  }

  lemma UpgradeSwitches(env: Env, st: State)
    ensures var s := HandleStartTLS(env, st).0; s.isTLS == st.isTLS ==> s.input == st.input
  {
    hide SendGreeting, ClientError;
    forall fault: Fault ensures ClientError(st, fault).input == st.input {
      ErrorKeepsInput(st, fault);
    }
    var s2 := Flush(env, SayTo(PeekBuffered(env, st).0, OkBeginTLS)).0;
    if env.tls.Some? {
      var s3 := s2.(isTLS := true, input := env.tls.value, trace := s2.trace + [TLSStarted]);
      GreetingEffect(env, s3);
      ReadsKeeps(env, s3, SendGreeting(env, s3));
    }
  }

  lemma DispatchSync(rule: Rule, env: Env, st: State, verb: Verb, args: seq<string>)
    requires args != [] ==> LiteralLength(args[|args| - 1]).NotLiteral? || LiteralDeferred(verb, |args| - 1)
    ensures var s := Dispatch(env, st, verb, args).0;
            var end := AfterArgs(rule, verb, Pending(rule, verb, args, st.input.data, Said(st, s, Plus)),
              Said(st, s, Challenge) > 0);
            s.closePending || s.isTLS != st.isTLS || (end == Some(s.input.data) <==> !Strays(rule, env, st, verb, args))
  {
    hide LiteralLength, Pending, HandleAuthenticate, ScriptCommand, Dispatch, StraysAt, Count, ResponseEnd;
    assert verb.AUTHENTICATE? ==> Dispatch(env, st, verb, args).0 == HandleAuthenticate(env, st, args) by {
      DispatchContent(env, st, verb, args);
    }
    assert verb.PUTSCRIPT? || verb.CHECKSCRIPT?
        ==> Dispatch(env, st, verb, args).0 == ScriptCommand(env, st, verb, args) by {
      DispatchContent(env, st, verb, args);
    }
    if verb.AUTHENTICATE? {
      AuthenticateSync(rule, env, st, args);
    } else if TakesContent(verb) {
      ContentSync(rule, env, st, verb, args);
    } else {
      OthersKeepInput(env, st, verb, args);
      LastIsNoLiteral(rule, verb, args, st.input.data, Said(st, Dispatch(env, st, verb, args).0, Plus));
    }
  }

  lemma DispatchContent(env: Env, st: State, verb: Verb, args: seq<string>)
    ensures verb.AUTHENTICATE? ==> Dispatch(env, st, verb, args).0 == HandleAuthenticate(env, st, args)
    ensures verb.PUTSCRIPT? || verb.CHECKSCRIPT?
            ==> Dispatch(env, st, verb, args).0 == ScriptCommand(env, st, verb, args)
  {
    hide HandleAuthenticate, ScriptCommand;
  }

  // ---------------------------------------------------------------------
  // Every turn of the loop

  /** The turn from st runs a command after which server and client part company. */
  predicate TurnStrays(rule: Rule, env: Env, st: State) {
    var (s, line) := ReadLine(env, LookAtContext(env, st).0);
    line.Line? && Trim(line.text) != "" &&
    match ParseLine(Trim(line.text)) {
      case Syntax => false
      case Command(cmd, tokens) =>
        var (s1, args) := ResolveLiteralArgs(env, s, ReadVerb(cmd), tokens);
        args.Some? && Strays(rule, env, s1, ReadVerb(cmd), args.value)
    }
  }

  lemma {:induction false} CountPrefix(a: seq<Item>, b: seq<Item>, x: Item)
    requires a <= b
    ensures Count(a, x) <= Count(b, x)
    decreases |b|
  {
    if a != b {
      assert a <= b[..|b| - 1];
      CountPrefix(a, b[..|b| - 1], x);
    } else {
      assert a == b;
    }
  }

  lemma EffectGrows(env: Env, a: State, b: State)
    requires CommandEffect(env, a, b)
    ensures a.output <= b.output
  {
    hide Reads, Responds, Grows, Moved;
    if StartsTLS(env, a, b) {
      GrowsIsPrefix(env, a.output, b.output);
    } else if Responds(env, a, b) {
      RespondsIsPrefix(env, a, b);
    } else if call, ok :| AsksScript(env, a, b, call, ok) {
      RespondsIsPrefix(env, Moved(a, true, a.hijacked, a.trace + [Called(call, ok)]), b);
    } else {
      var call, ok :| AsksAuth(env, a, b, call, ok);
      var refused := a.(errorCount := a.errorCount + RefusalCharge(env.options, ok));
      RespondsIsPrefix(env, Moved(refused, b.authenticated, b.hijacked, a.trace + AuthEvents(call, ok, b.hijacked)),
          b);
      MovedWrites(refused);
    }
    MovedWrites(a);
  }

  lemma MovedWrites(a: State)
    ensures forall authenticated, hijacked, trace :: Moved(a, authenticated, hijacked, trace).output == a.output
  {
  }

  lemma GrowsIsPrefix(env: Env, a: seq<Item>, b: seq<Item>)
    requires Grows(env.options, a, b)
    ensures a <= b
  {
  }

  lemma RespondsIsPrefix(env: Env, a: State, b: State)
    requires Responds(env, a, b)
    ensures a.output <= b.output
  {
    hide FromOptions;
  }

  lemma RunSync(rule: Rule, env: Env, st: State, line: string)
    requires !st.hijacked && !st.closePending
    ensures var s := RunCommand(env, st, line).0;
            s.closePending || s.isTLS != st.isTLS ||
            match ParseLine(line) {
              case Syntax => s.input == st.input
              case Command(cmd, tokens) =>
                var verb := ReadVerb(cmd);
                var (s1, args) := ResolveLiteralArgs(env, st, verb, tokens);
                var end := AfterArgs(rule, verb, ArgsEnd(rule, verb, 0, tokens, st.input.data, Said(st, s, Plus)),
                  Said(st, s, Challenge) > 0);
                end == Some(s.input.data) <==> !(args.Some? && Strays(rule, env, s1, verb, args.value))
            }
  {
    hide ParseLine, ReadVerb, ResolveLiteralArgs, Dispatch, LiteralLength, Pending, ArgsEnd, Strays, Count, ClientError,
         CommandEffect, ResponseEnd, Reads, Responds;
    match ParseLine(line)
    case Syntax => ErrorKeepsInput(st, BadSyntax);
    case Command(cmd, tokens) =>
      var verb := ReadVerb(cmd);
      var (s1, args) := ResolveLiteralArgs(env, st, verb, tokens);
      ResolveStops(env, st, verb, tokens);
      ResolveEffect(env, st, verb, tokens);
      if args.None? {
        ResolveSync(rule, env, st, verb, tokens, 0);
        TokensPending(rule, verb, tokens, st.input.data, Said(st, s1, Plus));
      } else {
        ReadsKeeps(env, st, s1);
        DispatchEffect(env, s1, verb, args.value);
        var s := Dispatch(env, s1, verb, args.value).0;
        EffectGrows(env, s1, s);
        CountPrefix(s1.output, s.output, Say(Plus));
        var later := Said(s1, s, Plus);
        ResolveSync(rule, env, st, verb, tokens, later);
        TokensPending(rule, verb, tokens, st.input.data, Said(st, s, Plus));
        DispatchSync(rule, env, s1, verb, args.value);
      }
  }

  lemma TokensPending(rule: Rule, verb: Verb, tokens: seq<string>, data: string, pluses: int)
    ensures Pending(rule, verb, tokens, data, pluses) == ArgsEnd(rule, verb, 0, tokens, data, pluses)
  {
    hide LiteralLength;
    if tokens != [] {
      ArgsEndOfLast(rule, verb, 0, tokens, data, pluses);
    }
  }

  /**
    The sync theorem. Whenever a turn returns to the loop head, the server has
    read exactly what the client's command comprised, if and only if the turn
    does not stray. (Behind STARTTLS the new stream is read from its start.)
   */
  lemma TurnInSync(rule: Rule, env: Env, st: State)
    requires WithinBudget(env, st) && Iterate(env, st).1
    ensures var s := Iterate(env, st).0;
            if s.isTLS == st.isTLS then
              CommandEnd(rule, st.input.data, Said(st, s, Plus), Said(st, s, Challenge) > 0) == Some(s.input.data)
              <==> !TurnStrays(rule, env, st)
            else env.tls == Some(s.input) && !TurnStrays(rule, env, st)
  {
    hide Trim, ParseLine, ReadVerb, RunCommand, ResolveLiteralArgs, ReadLine, Strays, ArgsEnd, ResponseEnd, Count,
         NextLine, Settle;
    var s0 := LookAtContext(env, st).0;
    var (s1, line) := ReadLine(env, s0);
    assert Reads(env, st, s1) by { LookAndRead(env, st); }
    ReadLineQuiet(env, s0);
    LineIsNextLine(env, s0);
    var text := Trim(line.text);
    if text == "" {
      assert ParseLine("") == Command("", []) && ReadVerb("") == UNKNOWN by { BlankIsNoCommand(); }
      ArgsEndNothing(rule, UNKNOWN, 0, s1.input.data, Said(st, s1, Plus));
    } else {
      var (s2, quit) := RunCommand(env, s1, text);
      SettleOpen(env, s2, quit);
      RunSync(rule, env, s1, text);
      if s2.isTLS != s1.isTLS {
        UpgradedRun(rule, env, s1, text);
      }
    }
  }

  lemma SessionKeepsTLS(env: Env, a: State, b: State)
    requires SessionEffect(env, a, b)
    ensures b.isTLS == a.isTLS
  {
    hide Grows;
  }

  /** Only STARTTLS switches streams. */
  lemma UpgradedRun(rule: Rule, env: Env, st: State, line: string)
    requires !st.hijacked && RunCommand(env, st, line).0.isTLS != st.isTLS
    ensures env.tls == Some(RunCommand(env, st, line).0.input)
    ensures match ParseLine(line) {
              case Syntax => true
              case Command(cmd, tokens) =>
                var (s1, args) := ResolveLiteralArgs(env, st, ReadVerb(cmd), tokens);
                args.Some? ==> !Strays(rule, env, s1, ReadVerb(cmd), args.value)
            }
  {
    hide ParseLine, ReadVerb, ResolveLiteralArgs, Dispatch, ClientError, ScriptEffect, AuthEffect, Reads, Responds,
         Grows, StraysAt, ScriptCommand, HandleAuthenticate;
    RunCommandEffect(env, st, line);
    var r := RunCommand(env, st, line).0;
    if SessionEffect(env, st, r) {
      SessionKeepsTLS(env, st, r);
    }
    match ParseLine(line)
    case Syntax =>
    case Command(cmd, tokens) =>
      var verb := ReadVerb(cmd);
      var (s1, args) := ResolveLiteralArgs(env, st, verb, tokens);
      ResolveEffect(env, st, verb, tokens);
      if args.Some? {
        ReadsKeeps(env, st, s1);
        DispatchContent(env, s1, verb, args.value);
        if verb.AUTHENTICATE? {
          AuthenticateEffect(env, s1, args.value);
          SessionKeepsTLS(env, s1, r);
        } else if TakesContent(verb) {
          ScriptCommandEffect(env, s1, verb, args.value);
          SessionKeepsTLS(env, s1, r);
        }
      }
  }

  lemma BlankIsNoCommand()
    ensures ParseLine("") == Command("", []) && ReadVerb("") == UNKNOWN
  {
  }

  lemma SettleOpen(env: Env, c: State, quit: bool)
    ensures var (s, more) := Settle(env, c, quit);
            more ==> !c.closePending && s.input == c.input && s.isTLS == c.isTLS && s.output == c.output
  {
  }

  /** Where the client's k-th next command starts, from its own commitments and the server's go-aheads. */
  function ClientPosition(rule: Rule, env: Env, st: State, k: nat): Option<string>
    requires !st.hijacked
  {
    if k == 0 then Some(st.input.data)
    else
      var before, after := Head(env, st, k - 1), Head(env, st, k);
      var position := ClientPosition(rule, env, st, k - 1);
      if before == None || after == None || position == None then None
      else if after.value.isTLS != before.value.isTLS then
        if env.tls == None then None else Some(env.tls.value.data)
      else CommandEnd(rule, position.value, Said(before.value, after.value, Plus),
        Said(before.value, after.value, Challenge) > 0)
  }

  /**
    Over every run, as long as no turn strays, every return to the loop head
    finds the server exactly where the client starts its next command: no byte
    of a literal is ever taken for one.
   */
  lemma {:induction false} RunInSync(rule: Rule, env: Env, st: State, k: nat)
    requires WithinBudget(env, st) && Head(env, st, k).Some?
    requires forall j | 0 <= j < k :: Head(env, st, j).Some? ==> !TurnStrays(rule, env, Head(env, st, j).value)
    ensures ClientPosition(rule, env, st, k) == Some(Head(env, st, k).value.input.data)
  {
    hide Iterate, CommandEnd, TurnStrays, Count;
    if k > 0 {
      RunInSync(rule, env, st, k - 1);
      HeadBudget(env, st, k - 1);
      TurnInSync(rule, env, Head(env, st, k - 1).value);
    }
  }
}
