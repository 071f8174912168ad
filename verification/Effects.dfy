/**
  What each part of a command may do to the connection state. Every safety
  property of a run rests on these summaries.
 */
module Effects {
  import opened Text
  import opened Parser
  import opened LineReader
  import opened Protocol
  import opened ConnSpec

  /** The only responses whose text the operator configures. */
  predicate FromOptions(o: Options, item: Item) {
    && (item.Greeting? ==> item.text == o.greeting)
    && (item.Advertised? ==> item.capability in Capabilities(o, true) || item.capability in Capabilities(o, false))
  }

  /** Responses are only ever appended. */
  predicate Grows(o: Options, a: seq<Item>, b: seq<Item>) {
    a <= b && forall i | |a| <= i < |b| :: FromOptions(o, b[i])
  }

  function Count(items: seq<Item>, x: Item): nat {
    if items == [] then 0
    else Count(items[..|items| - 1], x) + if items[|items| - 1] == x then 1 else 0
  }

  /** The errors a response stands for: one for a protocol error, and one for an empty password unless exempt. */
  function ChargeOf(o: Options, item: Item): nat {
    if item.Fail? || (item == Say(NoEmptyPassword) && !o.authFailuresExempt) then 1 else 0
  }

  function Charge(o: Options, items: seq<Item>): nat {
    if items == [] then 0 else Charge(o, items[..|items| - 1]) + ChargeOf(o, items[|items| - 1])
  }

  /** The errors counted that no response stands for. */
  function Uncharged(o: Options, st: State): int {
    st.errorCount - Charge(o, st.output)
  }

  /** Input is consumed and responses are written; nothing else happens. */
  predicate Reads(env: Env, a: State, b: State) {
    && b == a.(input := b.input, output := b.output, ticks := b.ticks)
    && |b.input.data| <= |a.input.data| && b.input.end == a.input.end
    && b.ticks.peeks == a.ticks.peeks
    && Grows(env.options, a.output, b.output) && Uncharged(env.options, b) == Uncharged(env.options, a)
  }

  /**
    As Reads, and the command is answered: at most one error is counted, exactly
    if the answer stands for one, and a close may be requested.
   */
  predicate Responds(env: Env, a: State, b: State) {
    && b == a.(input := b.input, output := b.output, ticks := b.ticks, errorCount := b.errorCount,
               closePending := b.closePending)
    && |b.input.data| <= |a.input.data| && b.input.end == a.input.end
    && Grows(env.options, a.output, b.output) && Uncharged(env.options, b) == Uncharged(env.options, a)
    && a.errorCount <= b.errorCount <= a.errorCount + 1
    && (a.closePending ==> b.closePending)
  }

  lemma ChargeOne(o: Options, items: seq<Item>, item: Item)
    ensures Charge(o, items + [item]) == Charge(o, items) + ChargeOf(o, item)
  {
    assert (items + [item])[..|items|] == items;
  }

  lemma {:induction false} ChargeNone(o: Options, items: seq<Item>, more: seq<Item>)
    requires forall i | 0 <= i < |more| :: ChargeOf(o, more[i]) == 0
    ensures Charge(o, items + more) == Charge(o, items)
    decreases |more|
  {
    if more == [] {
      assert items + more == items;
    } else {
      var front, last := more[..|more| - 1], more[|more| - 1];
      assert items + more == items + front + [last];
      ChargeNone(o, items, front);
      ChargeOne(o, items + front, last);
    }
  }

  lemma ReadsTwice(env: Env, a: State, b: State, c: State)
    requires Reads(env, a, b) && Reads(env, b, c)
    ensures Reads(env, a, c)
  {
    forall i | |a.output| <= i < |c.output| ensures FromOptions(env.options, c.output[i]) {
      if i < |b.output| {
        assert c.output[i] == b.output[i];
      }
    }
  }

  lemma ReadsThenResponds(env: Env, a: State, b: State, c: State)
    requires Reads(env, a, b) && Responds(env, b, c)
    ensures Responds(env, a, c)
  {
    hide FromOptions;
    forall i | |a.output| <= i < |c.output| ensures FromOptions(env.options, c.output[i]) {
      if i < |b.output| {
        assert c.output[i] == b.output[i];
      }
    }
  }

  // ---------------------------------------------------------------------
  // Literals

  lemma LiteralEffect(env: Env, st: State, nonSync: bool, n: nat)
    ensures Reads(env, st, GoAhead(env, st, nonSync).0)
    ensures Reads(env, st, ReadLiteral(env, st, n).0)
  {
    hide FirstLine, Capabilities, Charge;
    ChargeOne(env.options, st.output, Say(Plus));
  }

  /** Writing one response, as both predicates see it. */
  lemma WriteOne(env: Env, st: State, item: Item)
    requires FromOptions(env.options, item)
    ensures ChargeOf(env.options, item) == 0 ==> Reads(env, st, Write(st, item))
    ensures ChargeOf(env.options, item) <= 1
    ensures var s := Write(st, item).(errorCount := st.errorCount + ChargeOf(env.options, item));
            Responds(env, st, s) && Responds(env, st, RequestClose(s))
  {
    hide FromOptions, Charge;
    ChargeOne(env.options, st.output, item);
  }

  lemma RefusalResponds(env: Env, st: State, s: State, nonSync: bool)
    requires Responds(env, st, s)
    ensures Responds(env, st, RefuseLiteral(env, s, nonSync))
  {
    hide Grows, Charge;
  }

  lemma RefuseLiteralEffect(env: Env, st: State, nonSync: bool)
    ensures Responds(env, st, RefuseLiteral(env, ClientError(st, LiteralTooLarge), nonSync))
    ensures env.options.maxScriptSize > 0 ==>
              forall n: nat :: Responds(env, st, RefuseLiteral(env, QuotaMaxSize(env, st, n), nonSync))
  {
    hide Capabilities, Responds, RefuseLiteral, QuotaMaxSize;
    ResponseEffect(env, st, LiteralTooLarge, OkBare);
    RefusalResponds(env, st, ClientError(st, LiteralTooLarge), nonSync);
    if env.options.maxScriptSize > 0 {
      forall n: nat ensures Responds(env, st, RefuseLiteral(env, QuotaMaxSize(env, st, n), nonSync)) {
        SizeEffect(env, st, n);
        RefusalResponds(env, st, QuotaMaxSize(env, st, n), nonSync);
      }
    }
  }

  lemma ResponseEffect(env: Env, st: State, fault: Fault, phrase: Phrase)
    ensures Responds(env, st, ClientError(st, fault)) && Responds(env, st, RequestClose(ClientError(st, fault)))
    ensures phrase != NoEmptyPassword ==>
              Responds(env, st, SayTo(st, phrase)) && Responds(env, st, RequestClose(SayTo(st, phrase)))
    ensures Responds(env, st, SayTo(CountRefusal(env, st), NoEmptyPassword))
    ensures Responds(env, st, RequestClose(st)) && Responds(env, st, st)
  {
    hide Capabilities, Charge;
    ChargeOne(env.options, st.output, Fail(fault));
    ChargeOne(env.options, st.output, Say(phrase));
    ChargeOne(env.options, st.output, Say(NoEmptyPassword));
  }

  lemma FetchEffect(env: Env, st: State, n: nat, nonSync: bool, failure: Phrase)
    requires failure != NoEmptyPassword
    ensures var (s, body) := FetchLiteral(env, st, n, nonSync, failure);
            if body.Some? then Reads(env, st, s) else Responds(env, st, s)
  {
    hide ReadLiteral, GoAhead, SayTo, Reads, Responds, RequestClose;
    var (s1, go) := GoAhead(env, st, nonSync);
    LiteralEffect(env, st, nonSync, 0);
    LiteralEffect(env, s1, nonSync, n);
    ResponseEffect(env, s1, BadSyntax, failure);
    ReadsThenResponds(env, st, s1, RequestClose(s1));
    var s2 := ReadLiteral(env, s1, n).0;
    ReadsTwice(env, st, s1, s2);
    ResponseEffect(env, s2, BadSyntax, failure);
    ReadsThenResponds(env, st, s2, RequestClose(SayTo(s2, failure)));
  }

  lemma {:induction false} ResolveEffect(env: Env, st: State, verb: Verb, args: seq<string>)
    ensures var (s, r) := ResolveLiteralArgs(env, st, verb, args);
            if r.Some? then Reads(env, st, s) else Responds(env, st, s)
    decreases |st.input.data|
  {
    hide LiteralLength, Tokens, Trim, Quote, FetchLiteral, RefuseLiteral, ClientError, Reads, Responds, RequestClose;
    ReadsNothing(env, st);
    if args != [] {
      var idx := |args| - 1;
      var marker := LiteralLength(args[idx]);
      if marker.BadLength? {
        ResponseEffect(env, st, BadLiteralLength, OkBare);
      } else if marker.Literal? && marker.length > env.options.maxLineLength {
        RefuseLiteralEffect(env, st, marker.nonSync);
      } else if marker.Literal? {
        FetchEffect(env, st, marker.length, marker.nonSync, NoLiteralArgument);
        var (s, body) := FetchLiteral(env, st, marker.length, marker.nonSync, NoLiteralArgument);
        if body.Some? {
          match Tokens(Trim(body.value.1))
          case None =>
            ResponseEffect(env, s, BadSyntax, OkBare);
            ReadsThenResponds(env, st, s, ClientError(s, BadSyntax));
          case Some(more) =>
            var args' := args[idx := Quote(body.value.0)] + more;
            ResolveEffect(env, s, verb, args');
            var (s', r) := ResolveLiteralArgs(env, s, verb, args');
            if r.Some? {
              ReadsTwice(env, st, s, s');
            } else {
              ReadsThenResponds(env, st, s, s');
            }
        }
      }
    }
  }

  lemma ReadsNothing(env: Env, st: State)
    ensures Reads(env, st, st) && Responds(env, st, st)
  {
  }

  // ---------------------------------------------------------------------
  // Commands

  /** The same state in a different phase of the session. */
  function Moved(st: State, authenticated: bool, hijacked: bool, trace: seq<Event>): State {
    st.(authenticated := authenticated, hijacked := hijacked, trace := trace)
  }

  /** A script is only ever stored under a name the library has checked. */
  predicate NameChecked(call: Call) {
    match call
    case PutScript(name, _) => ValidateScriptName(name) == None
    case RenameScript(_, newName) => ValidateScriptName(newName) == None
    case _ => true
  }

  /** The history records what the session itself answered. */
  predicate Replied(env: Env, trace: seq<Event>, call: Call, ok: bool) {
    ok == env.session(trace, call).error.None?
  }

  /** An authenticated session was asked once, and its answer passed on. */
  predicate AsksScript(env: Env, a: State, b: State, call: Call, ok: bool) {
    && a.authenticated && call.IsScript() && NameChecked(call) && Replied(env, a.trace, call, ok)
    && Responds(env, Moved(a, true, a.hijacked, a.trace + [Called(call, ok)]), b)
    && b.errorCount == a.errorCount
  }

  function AuthEvents(call: Call, ok: bool, hijacked: bool): seq<Event> {
    if hijacked then [Called(call, ok), Hijacked] else [Called(call, ok)]
  }

  /** One authentication attempt, over TLS or where cleartext is allowed. */
  predicate AsksAuth(env: Env, a: State, b: State, call: Call, ok: bool) {
    && !a.authenticated && !a.hijacked && call.IsAuth() && Replied(env, a.trace, call, ok)
    && AuthAllowed(env.options, a.isTLS)
    && b.authenticated == (ok && !b.hijacked)
    && (var refused := a.(errorCount := a.errorCount + RefusalCharge(env.options, ok));
        Responds(env, Moved(refused, b.authenticated, b.hijacked, a.trace + AuthEvents(call, ok, b.hijacked)), b)
        && b.errorCount == refused.errorCount)
  }

  /** What the outcome of an authentication attempt counts as. */
  function RefusalCharge(o: Options, ok: bool): nat {
    if ok || o.authFailuresExempt then 0 else 1
  }

  /** A TLS upgrade, before authentication and with no plaintext pending. */
  predicate StartsTLS(env: Env, a: State, b: State) {
    && !a.authenticated && !a.isTLS && env.options.tlsConfigured && env.tls.Some?
    && !env.buffered(a.ticks.peeks)
    && b == a.(isTLS := true, input := env.tls.value, trace := a.trace + [TLSStarted],
               output := b.output, ticks := b.ticks)
    && Grows(env.options, a.output, b.output) && Uncharged(env.options, b) == Uncharged(env.options, a)
  }

  /** What a script command can do. */
  ghost predicate ScriptEffect(env: Env, a: State, b: State) {
    Responds(env, a, b) || exists call, ok :: AsksScript(env, a, b, call, ok)
  }

  /** What AUTHENTICATE and LOGIN can do. */
  ghost predicate AuthEffect(env: Env, a: State, b: State) {
    Responds(env, a, b) || exists call, ok :: AsksAuth(env, a, b, call, ok)
  }

  /** What a command other than STARTTLS can do. */
  ghost predicate SessionEffect(env: Env, a: State, b: State) {
    ScriptEffect(env, a, b) || AuthEffect(env, a, b)
  }

  /** Everything a command can do. */
  ghost predicate CommandEffect(env: Env, a: State, b: State) {
    SessionEffect(env, a, b) || StartsTLS(env, a, b)
  }

  lemma ReadsThenTLS(env: Env, a: State, b: State, c: State)
    requires Reads(env, a, b) && StartsTLS(env, b, c)
    ensures StartsTLS(env, a, c)
  {
    hide FromOptions;
    forall i | |a.output| <= i < |c.output| ensures FromOptions(env.options, c.output[i]) {
      if i < |b.output| {
        assert c.output[i] == b.output[i];
      }
    }
  }

  lemma ReadsElsewhere(env: Env, a: State, b: State, authenticated: bool, hijacked: bool, trace: seq<Event>, more: nat)
    requires Reads(env, a, b)
    ensures Reads(env, Moved(a.(errorCount := a.errorCount + more), authenticated, hijacked, trace),
                  Moved(b.(errorCount := b.errorCount + more), authenticated, hijacked, trace))
  {
    hide Grows, Charge;
  }

  lemma ReadsThenScript(env: Env, a: State, b: State, c: State)
    requires Reads(env, a, b) && ScriptEffect(env, b, c)
    ensures ScriptEffect(env, a, c)
  {
    hide Responds, Grows, NameChecked;
    if Responds(env, b, c) {
      ReadsThenResponds(env, a, b, c);
    } else {
      var call, ok :| AsksScript(env, b, c, call, ok);
      var t := b.trace + [Called(call, ok)];
      ReadsElsewhere(env, a, b, true, a.hijacked, t, 0);
      ReadsThenResponds(env, Moved(a, true, a.hijacked, t), Moved(b, true, a.hijacked, t), c);
      assert AsksScript(env, a, c, call, ok);
    }
  }

  lemma ReadsThenAuth(env: Env, a: State, b: State, c: State)
    requires Reads(env, a, b) && AuthEffect(env, b, c)
    ensures AuthEffect(env, a, c)
  {
    hide Responds, AuthAllowed, Grows;
    if Responds(env, b, c) {
      ReadsThenResponds(env, a, b, c);
    } else {
      var call, ok :| AsksAuth(env, b, c, call, ok);
      var t := b.trace + AuthEvents(call, ok, c.hijacked);
      var more := RefusalCharge(env.options, ok);
      ReadsElsewhere(env, a, b, c.authenticated, c.hijacked, t, more);
      var a', b' := a.(errorCount := a.errorCount + more), b.(errorCount := b.errorCount + more);
      ReadsThenResponds(env, Moved(a', c.authenticated, c.hijacked, t), Moved(b', c.authenticated, c.hijacked, t), c);
      assert AsksAuth(env, a, c, call, ok);
    }
  }

  lemma ReadsThenCommand(env: Env, a: State, b: State, c: State)
    requires Reads(env, a, b) && SessionEffect(env, b, c)
    ensures SessionEffect(env, a, c)
  {
    hide ScriptEffect, AuthEffect, Reads;
    if ScriptEffect(env, b, c) {
      ReadsThenScript(env, a, b, c);
    } else {
      ReadsThenAuth(env, a, b, c);
    }
  }

  lemma DenialEffect(env: Env, st: State, item: Item)
    requires item.Deny? || item.DenyCoded? || item.Say?
    ensures item != Say(NoEmptyPassword) ==>
              Responds(env, st, Write(st, item)) && Responds(env, st, RequestClose(Write(st, item)))
  {
    hide Capabilities, Responds;
    WriteOne(env, st, item);
  }

  lemma ReportEffect(env: Env, st: State, e: SessionError)
    ensures Responds(env, st, ReportError(env, st, e)) && ReportError(env, st, e).errorCount == st.errorCount
    ensures Responds(env, CountRefusal(env, st), AuthFailure(env, st, e))
            && AuthFailure(env, st, e).errorCount == CountRefusal(env, st).errorCount
  {
    hide Responds;
    var item :=
      match e
      case Coded(code, message, _) => DenyCoded(code, message)
      case CloseConnection => Say(NoInternal)
      case Plain(text) => if env.options.strictSessionErrors then Say(NoInternal) else Deny(text);
    DenialEffect(env, st, item);
    DenialEffect(env, CountRefusal(env, st), item);
  }

  /** Responses that are no complaints. */
  predicate Harmless(o: Options, items: seq<Item>) {
    forall i | 0 <= i < |items| :: FromOptions(o, items[i]) && ChargeOf(o, items[i]) == 0
  }

  lemma OkIsHarmless(o: Options)
    ensures FromOptions(o, Say(OkBare)) && ChargeOf(o, Say(OkBare)) == 0
  {
  }

  lemma WriteEffect(env: Env, st: State, items: seq<Item>)
    requires Harmless(env.options, items)
    ensures Reads(env, st, WriteAll(st, items)) && Reads(env, st, SayTo(WriteAll(st, items), OkBare))
  {
    hide FromOptions, ChargeOf;
    ChargeNone(env.options, st.output, items);
    var s := WriteAll(st, items);
    OkIsHarmless(env.options);
    WriteOne(env, s, Say(OkBare));
    ReadsTwice(env, st, s, SayTo(s, OkBare));
  }

  lemma AuthStringEffect(env: Env, st: State, arg: string)
    ensures var (s, r) := AuthString(env, st, arg);
            if r.Some? then Reads(env, st, s) else Responds(env, st, s)
  {
    hide LiteralLength, Unquote, FetchLiteral, ClientError, Reads, Responds, RequestClose;
    ReadsNothing(env, st);
    ResponseEffect(env, st, BadLiteralSize, OkBare);
    var marker := LiteralLength(arg);
    if marker.Literal? {
      FetchEffect(env, st, marker.length, true, NoAuthFailed);
    }
  }

  lemma ScriptArgumentEffect(env: Env, st: State, arg: string)
    ensures var (s, r) := ReadScriptArgument(env, st, arg);
            if r.Some? then Reads(env, st, s) else Responds(env, st, s)
  {
    hide LiteralLength, Unquote, FetchLiteral, RefuseLiteral, ClientError, Reads, Responds, RequestClose, QuotaMaxSize;
    ReadsNothing(env, st);
    ResponseEffect(env, st, BadLiteralLength, OkBare);
    var marker := LiteralLength(arg);
    if marker.Literal? {
      RefuseLiteralEffect(env, st, marker.nonSync);
      FetchEffect(env, st, marker.length, marker.nonSync, NoLiteralContent);
    }
  }

  lemma AuthChallengeEffect(env: Env, st: State)
    ensures var (s, r) := AuthChallenge(env, st);
            if r.Some? then Reads(env, st, s) else Responds(env, st, s)
  {
    hide Trim, ReadLine, AuthString, Responds, RequestClose, Reads;
    var (s1, ok) := Flush(env, SayTo(st, Challenge));
    assert Reads(env, st, s1) by { ChallengeEffect(env, st); }
    ResponseEffect(env, s1, BadSyntax, NoAuthFailed);
    ReadsThenResponds(env, st, s1, RequestClose(s1));
    var (s2, line) := ReadLine(env, s1);
    assert Reads(env, s1, s2) by { ReadLineEffect(env, s1); }
    ReadsTwice(env, st, s1, s2);
    ResponseEffect(env, s2, BadSyntax, NoAuthFailed);
    ResponseEffect(env, s2, BadSyntax, NoAuthCancelled);
    ReadsThenResponds(env, st, s2, RequestClose(SayTo(s2, NoAuthFailed)));
    ReadsThenResponds(env, st, s2, SayTo(s2, NoAuthCancelled));
    if line.Line? {
      var data := Trim(line.text);
      AuthStringEffect(env, s2, data);
      var (s3, r) := AuthString(env, s2, data);
      if r.Some? {
        ReadsTwice(env, st, s2, s3);
      } else {
        ReadsThenResponds(env, st, s2, s3);
      }
    }
  }

  lemma ChallengeEffect(env: Env, st: State)
    ensures Reads(env, st, Flush(env, SayTo(st, Challenge)).0)
  {
  }

  lemma ReadLineEffect(env: Env, st: State)
    ensures Reads(env, st, ReadLine(env, st).0)
  {
    hide FirstLine;
  }

  lemma CallAuthEffect(env: Env, st: State, call: Call)
    requires !st.authenticated && !st.hijacked && call.IsAuth() && AuthAllowed(env.options, st.isTLS)
    ensures AuthEffect(env, st, CallAuth(env, st, call))
  {
    hide ReportError, Capabilities, AuthAllowed, AuthFailure, Responds, Grows;
    var reply := env.session(st.trace, call);
    var ok := reply.error.None?;
    var s2 := if reply.hijack then Hijack(env, CallSession(env, st, call).0) else CallSession(env, st, call).0;
    var s3 := CallAuth(env, st, call);
    var start := Moved(st.(errorCount := st.errorCount + RefusalCharge(env.options, ok)), s3.authenticated, s3.hijacked,
                       st.trace + AuthEvents(call, ok, s3.hijacked));
    assert st.trace + [Called(call, ok)] + [Hijacked] == st.trace + [Called(call, ok), Hijacked];
    if reply.error.Some? {
      ReportEffect(env, s2, reply.error.value);
      assert s3.authenticated == st.authenticated && s3.hijacked == s2.hijacked && s3.isTLS == st.isTLS by {
        ReportKeeps(env, s2, reply.error.value);
      }
      assert CountRefusal(env, s2) == start.(ticks := s2.ticks);
      TicksOnly(env, start, CountRefusal(env, s2), s3);
    } else if s2.hijacked {
      ResponseEffect(env, start, BadSyntax, OkAuthenticated);
      assert s2 == start.(ticks := s2.ticks);
      ResponseEffect(env, s2, BadSyntax, OkAuthenticated);
      TicksOnly(env, start, s2, s3);
    } else {
      var s := s2.(authenticated := true);
      assert s == start.(ticks := s2.ticks);
      ResponseEffect(env, s, BadSyntax, OkAuthenticated);
      TicksOnly(env, start, s, s3);
    }
    assert AsksAuth(env, st, s3, call, ok);
  }

  lemma ReportKeeps(env: Env, st: State, e: SessionError)
    ensures var s := AuthFailure(env, st, e);
            s.authenticated == st.authenticated && s.hijacked == st.hijacked && s.isTLS == st.isTLS
                && s.trace == st.trace
  {
  }

  lemma TicksOnly(env: Env, a: State, b: State, c: State)
    requires b == a.(ticks := b.ticks) && Responds(env, b, c)
    ensures Responds(env, a, c)
  {
  }

  lemma PlainLoginEffect(env: Env, st: State, data: string)
    requires !st.authenticated && !st.hijacked && AuthAllowed(env.options, st.isTLS)
    ensures AuthEffect(env, st, PlainLogin(env, st, data))
  {
    hide SplitOn, ClientError, CountRefusal, CallAuth, Responds, AuthEffect, AuthAllowed, Grows;
    ResponseEffect(env, st, BadAuthData, OkBare);
    ResponseEffect(env, st, BadAuthFormat, OkBare);
    match env.decodeBase64(data)
    case None => RespondsIsEffect(env, st, PlainLogin(env, st, data));
    case Some(message) =>
      var parts := SplitOn(message, '\U{00}');
      if |parts| == 3 && parts[2] != "" {
        CallAuthEffect(env, st, AuthenticatePlain(parts[0], parts[1], parts[2]));
      } else {
        RespondsIsEffect(env, st, PlainLogin(env, st, data));
      }
  }

  lemma RespondsIsEffect(env: Env, a: State, b: State)
    requires Responds(env, a, b)
    ensures ScriptEffect(env, a, b) && AuthEffect(env, a, b) && SessionEffect(env, a, b)
  {
  }

  lemma AuthenticateEffect(env: Env, st: State, args: seq<string>)
    requires !st.hijacked
    ensures AuthEffect(env, st, HandleAuthenticate(env, st, args))
  {
    hide Unquote, ToUpper, AuthString, AuthChallenge, PlainLogin, ClientError, Reads, Responds, AuthEffect;
    ResponseEffect(env, st, AlreadyAuthenticated, OkBare);
    ResponseEffect(env, st, AuthSyntax, OkBare);
    ResponseEffect(env, st, AuthInsecure, OkBare);
    ResponseEffect(env, st, BadMechanism, OkBare);
    var r := HandleAuthenticate(env, st, args);
    if st.authenticated || args == [] || !AuthAllowed(env.options, st.isTLS) || ToUpper(Unquote(args[0])) != "PLAIN" {
      RespondsIsEffect(env, st, r);
    } else {
      if |args| > 1 {
        AuthStringEffect(env, st, args[1]);
      } else {
        AuthChallengeEffect(env, st);
      }
      var (s, data) := if |args| > 1 then AuthString(env, st, args[1]) else AuthChallenge(env, st);
      if data.None? {
        RespondsIsEffect(env, st, r);
      } else {
        ReadsKeeps(env, st, s);
        PlainLoginEffect(env, s, data.value);
        ReadsThenAuth(env, st, s, r);
      }
    }
  }

  lemma ReadsKeeps(env: Env, a: State, b: State)
    requires Reads(env, a, b)
    ensures b == a.(input := b.input, output := b.output, ticks := b.ticks)
  {
  }

  lemma LoginEffect(env: Env, st: State, args: seq<string>)
    requires !st.hijacked
    ensures AuthEffect(env, st, HandleLogin(env, st, args))
  {
    hide Unquote, ClientError, Responds, AuthEffect, CallAuth;
    ResponseEffect(env, st, AlreadyAuthenticated, OkBare);
    ResponseEffect(env, st, AuthInsecure, OkBare);
    ResponseEffect(env, st, LoginSyntax, OkBare);
    if st.authenticated || !AuthAllowed(env.options, st.isTLS) || |args| < 2 {
      RespondsIsEffect(env, st, HandleLogin(env, st, args));
    } else {
      CallAuthEffect(env, st, Login(Unquote(args[0]), Unquote(args[1])));
    }
  }

  lemma GreetingEffect(env: Env, st: State)
    ensures Reads(env, st, SendGreeting(env, st)) && Reads(env, st, SendCapabilityBlock(env, st))
  {
    hide Capabilities;
    var items := AdvertisedAll(Capabilities(env.options, st.isTLS));
    forall i | 0 <= i < |items| ensures FromOptions(env.options, items[i]) {
    }
    WriteEffect(env, st, items);
  }

  lemma StartTLSEffect(env: Env, st: State)
    ensures Responds(env, st, HandleStartTLS(env, st).0) || StartsTLS(env, st, HandleStartTLS(env, st).0)
  {
    hide ClientError, Responds, SendGreeting, SessionEffect, Reads, Grows;
    ResponseEffect(env, st, TLSUnsupported, OkBare);
    ResponseEffect(env, st, TLSActive, OkBare);
    ResponseEffect(env, st, TLSAfterAuth, OkBare);
    var r := HandleStartTLS(env, st).0;
    if !env.options.tlsConfigured || st.isTLS || st.authenticated {
      RespondsIsEffect(env, st, r);
    } else {
      var (s1, pipelined) := PeekBuffered(env, st);
      ResponseEffect(env, s1, BadSyntax, NoPipelinedTLS);
      ResponseEffect(env, s1, BadSyntax, OkBeginTLS);
      TicksOnly(env, st, s1, SayTo(s1, NoPipelinedTLS));
      var (s2, ok) := Flush(env, SayTo(s1, OkBeginTLS));
      assert Responds(env, st, s2) by { SaidAndFlushed(env, st, OkBeginTLS); }
      if pipelined || !ok || env.tls == None {
        RespondsIsEffect(env, st, r);
      } else {
        var s3 := s2.(isTLS := true, input := env.tls.value, trace := s2.trace + [TLSStarted]);
        GreetingEffect(env, s3);
        assert StartsTLS(env, st, r) by { TLSGreeting(env, st, s2, s3, r); }
        TLSIsEffect(env, st, r);
      }
    }
  }

  lemma TLSIsEffect(env: Env, a: State, b: State)
    requires StartsTLS(env, a, b)
    ensures CommandEffect(env, a, b)
  {
  }

  lemma SaidAndFlushed(env: Env, st: State, phrase: Phrase)
    requires phrase != NoEmptyPassword
    ensures Responds(env, st, Flush(env, SayTo(PeekBuffered(env, st).0, phrase)).0)
  {
    hide Charge;
    ChargeOne(env.options, st.output, Say(phrase));
  }

  lemma TLSGreeting(env: Env, st: State, s2: State, s3: State, r: State)
    requires s2 == Flush(env, SayTo(PeekBuffered(env, st).0, OkBeginTLS)).0
    requires !st.authenticated && !st.isTLS && env.options.tlsConfigured && env.tls.Some?
             && !env.buffered(st.ticks.peeks)
    requires s3 == s2.(isTLS := true, input := env.tls.value, trace := s2.trace + [TLSStarted])
    requires r == SendGreeting(env, s3) && Reads(env, s3, r)
    ensures StartsTLS(env, st, r)
  {
    hide SendGreeting, Capabilities, FromOptions;
    SaidAndFlushed(env, st, OkBeginTLS);
    ReadsKeeps(env, s3, r);
    assert r.input == s3.input by { GreetingKeepsInput(env, s3); }
    forall i | |st.output| <= i < |r.output| ensures FromOptions(env.options, r.output[i]) {
      if i < |s2.output| {
        assert r.output[i] == s2.output[i];
      }
    }
  }

  lemma GreetingKeepsInput(env: Env, st: State)
    ensures SendGreeting(env, st).input == st.input
  {
  }

  // ---------------------------------------------------------------------
  // Script commands

  /** One session call whose answer is rendered as `items` or reported. */
  lemma AskEffect(env: Env, st: State, call: Call, items: seq<Item>, r: State)
    requires st.authenticated && call.IsScript() && NameChecked(call)
    requires Harmless(env.options, items)
    requires var (s, reply) := CallSession(env, st, call);
             r == if reply.error.Some? then ReportError(env, s, reply.error.value) else WriteAll(s, items)
    ensures ScriptEffect(env, st, r)
  {
    hide ReportError, Capabilities, WriteAll, Responds, FromOptions;
    var (s, reply) := CallSession(env, st, call);
    assert s == Moved(st, true, st.hijacked, st.trace + [Called(call, reply.error.None?)]);
    if reply.error.Some? {
      ReportEffect(env, s, reply.error.value);
    } else {
      assert Responds(env, s, r) && r.errorCount == st.errorCount by { WriteResponds(env, s, items); }
    }
    assert AsksScript(env, st, r, call, reply.error.None?);
  }

  lemma WriteResponds(env: Env, st: State, items: seq<Item>)
    requires Harmless(env.options, items)
    ensures Responds(env, st, WriteAll(st, items)) && WriteAll(st, items).errorCount == st.errorCount
  {
    hide FromOptions, ChargeOf, Charge;
    ChargeNone(env.options, st.output, items);
  }

  lemma OneLineEffect(env: Env, st: State, call: Call, phrase: Phrase)
    requires phrase != NoEmptyPassword
    requires st.authenticated && call.IsScript() && NameChecked(call)
    ensures ScriptEffect(env, st, CallForLine(env, st, call, phrase))
  {
    hide ReportError, Capabilities, ScriptEffect;
    AskEffect(env, st, call, [Say(phrase)], CallForLine(env, st, call, phrase));
  }

  lemma ListEffect(env: Env, st: State)
    requires st.authenticated
    ensures ScriptEffect(env, st, HandleListScripts(env, st))
  {
    hide ReportError, Capabilities, ScriptEffect;
    var (s, reply) := CallSession(env, st, ListScripts);
    var items := ListItems(reply.scripts) + [Say(OkBare)];
    assert s.output + ListItems(reply.scripts) + [Say(OkBare)] == s.output + items;
    AskEffect(env, st, ListScripts, items, HandleListScripts(env, st));
  }

  lemma GetEffect(env: Env, st: State, args: seq<string>)
    requires st.authenticated
    ensures ScriptEffect(env, st, HandleGetScript(env, st, args))
  {
    hide ReportError, Capabilities, ScriptEffect, Name, Responds;
    if args == [] {
      ResponseEffect(env, st, GetSyntax, OkBare);
      RespondsIsEffect(env, st, HandleGetScript(env, st, args));
    } else {
      var (s, reply) := CallSession(env, st, GetScript(Name(args[0])));
      assert s.output + [Blob(reply.text)] + [Say(OkBare)] == s.output + [Blob(reply.text), Say(OkBare)];
      AskEffect(env, st, GetScript(Name(args[0])), [Blob(reply.text), Say(OkBare)], HandleGetScript(env, st, args));
    }
  }

  lemma SizeEffect(env: Env, st: State, size: nat)
    requires env.options.maxScriptSize > 0
    ensures Responds(env, st, QuotaMaxSize(env, st, size))
  {
    hide Capabilities;
  }

  lemma PutEffect(env: Env, st: State, args: seq<string>)
    requires st.authenticated
    ensures ScriptEffect(env, st, HandlePutScript(env, st, args))
  {
    hide ReportError, Capabilities, ScriptEffect, Name, Responds, ReadScriptArgument, ValidateScriptName, Reads,
         ClientError, QuotaMaxSize;
    var r := HandlePutScript(env, st, args);
    if |args| < 2 {
      ResponseEffect(env, st, PutSyntax, OkBare);
      RespondsIsEffect(env, st, r);
    } else {
      ScriptArgumentEffect(env, st, args[1]);
      var (s1, content) := ReadScriptArgument(env, st, args[1]);
      if content.None? {
        RespondsIsEffect(env, st, r);
      } else {
        ReadsKeeps(env, st, s1);
        var name := Name(args[0]);
        var bad := ValidateScriptName(name);
        if bad.Some? {
          ResponseEffect(env, s1, BadName(bad.value), OkBare);
          RespondsIsEffect(env, s1, r);
        } else if 0 < env.options.maxScriptSize < |content.value| {
          SizeEffect(env, s1, |content.value|);
          RespondsIsEffect(env, s1, r);
        } else {
          var call := PutScript(name, content.value);
          var item := PutResponse(env.session(s1.trace, call));
          AskEffect(env, s1, call, [item], r);
        }
        ReadsThenScript(env, st, s1, r);
      }
    }
  }

  lemma CheckEffect(env: Env, st: State, args: seq<string>)
    requires st.authenticated
    ensures ScriptEffect(env, st, HandleCheckScript(env, st, args))
  {
    hide ReportError, Capabilities, ScriptEffect, Responds, ReadScriptArgument, Reads, ClientError, QuotaMaxSize;
    var r := HandleCheckScript(env, st, args);
    if args == [] {
      ResponseEffect(env, st, CheckSyntax, OkBare);
      RespondsIsEffect(env, st, r);
    } else {
      ScriptArgumentEffect(env, st, args[0]);
      var (s1, content) := ReadScriptArgument(env, st, args[0]);
      if content.None? {
        RespondsIsEffect(env, st, r);
      } else {
        ReadsKeeps(env, st, s1);
        if 0 < env.options.maxScriptSize < |content.value| {
          SizeEffect(env, s1, |content.value|);
          RespondsIsEffect(env, s1, r);
        } else {
          var call := CheckScript(content.value);
          var reply := env.session(s1.trace, call);
          AskEffect(env, s1, call, [if reply.warnings != "" then Warnings(reply.warnings) else Say(OkBare)], r);
        }
        ReadsThenScript(env, st, s1, r);
      }
    }
  }

  lemma HaveSpaceEffect(env: Env, st: State, args: seq<string>)
    requires st.authenticated
    ensures ScriptEffect(env, st, HandleHaveSpace(env, st, args))
  {
    hide Number, CallForLine, Capabilities, ScriptEffect, Name, Responds, ClientError, QuotaMaxSize;
    var r := HandleHaveSpace(env, st, args);
    ResponseEffect(env, st, HaveSpaceSyntax, OkBare);
    ResponseEffect(env, st, BadScriptSize, OkBare);
    if |args| < 2 || Number(args[1]).None? {
      RespondsIsEffect(env, st, r);
    } else {
      var size := Number(args[1]).value;
      if 0 < env.options.maxScriptSize < size {
        SizeEffect(env, st, size);
        RespondsIsEffect(env, st, r);
      } else {
        OneLineEffect(env, st, HaveSpace(Name(args[0]), size), OkBare);
      }
    }
  }

  lemma RenameEffect(env: Env, st: State, args: seq<string>)
    requires st.authenticated
    ensures ScriptEffect(env, st, HandleRenameScript(env, st, args))
  {
    hide CallForLine, Capabilities, ScriptEffect, Name, Responds, ClientError, ValidateScriptName;
    var r := HandleRenameScript(env, st, args);
    ResponseEffect(env, st, RenameSyntax, OkBare);
    ResponseEffect(env, st, EmptyOldName, OkBare);
    if |args| < 2 {
      RespondsIsEffect(env, st, r);
    } else {
      var oldName, newName := Name(args[0]), Name(args[1]);
      var bad := ValidateScriptName(newName);
      if bad.Some? {
        ResponseEffect(env, st, BadName(bad.value), OkBare);
      }
      if oldName == "" || bad.Some? {
        RespondsIsEffect(env, st, r);
      } else {
        OneLineEffect(env, st, RenameScript(oldName, newName), OkBare);
      }
    }
  }

  lemma NameCommandEffect(env: Env, st: State, args: seq<string>)
    requires st.authenticated
    ensures ScriptEffect(env, st, HandleSetActive(env, st, args))
    ensures ScriptEffect(env, st, HandleDeleteScript(env, st, args))
  {
    hide CallForLine, Capabilities, ScriptEffect, Name, Responds, ClientError;
    if args == [] {
      ResponseEffect(env, st, SetActiveSyntax, OkBare);
      ResponseEffect(env, st, DeleteSyntax, OkBare);
      RespondsIsEffect(env, st, HandleSetActive(env, st, args));
      RespondsIsEffect(env, st, HandleDeleteScript(env, st, args));
    } else {
      OneLineEffect(env, st, SetActive(Name(args[0])), OkBare);
      OneLineEffect(env, st, DeleteScript(Name(args[0])), OkDeleted);
    }
  }

  lemma ScriptCommandEffect(env: Env, st: State, verb: Verb, args: seq<string>)
    requires verb.IsScriptCommand()
    ensures ScriptEffect(env, st, ScriptCommand(env, st, verb, args))
  {
    hide HandleListScripts, HandleGetScript, HandlePutScript, HandleCheckScript, HandleHaveSpace, HandleRenameScript,
         HandleSetActive, HandleDeleteScript, ScriptEffect, Responds, ClientError;
    if !st.authenticated {
      ResponseEffect(env, st, NotAuthenticated, OkBare);
      RespondsIsEffect(env, st, ScriptCommand(env, st, verb, args));
    } else {
      match verb
      case LISTSCRIPTS => ListEffect(env, st);
      case GETSCRIPT => GetEffect(env, st, args);
      case PUTSCRIPT => PutEffect(env, st, args);
      case CHECKSCRIPT => CheckEffect(env, st, args);
      case HAVESPACE => HaveSpaceEffect(env, st, args);
      case RENAMESCRIPT => RenameEffect(env, st, args);
      case SETACTIVE => NameCommandEffect(env, st, args);
      case DELETESCRIPT => NameCommandEffect(env, st, args);
      case _ =>
    }
  }

  /** Whatever the command, its effect is one of four kinds. */
  lemma DispatchEffect(env: Env, st: State, verb: Verb, args: seq<string>)
    requires !st.hijacked
    ensures CommandEffect(env, st, Dispatch(env, st, verb, args).0)
  {
    hide HandleStartTLS, HandleAuthenticate, HandleLogin, ScriptCommand, ScriptEffect, AuthEffect, Responds,
         ClientError, Unquote, SendCapabilityBlock, SayTo, Reads, StartsTLS;
    var r := Dispatch(env, st, verb, args).0;
    match verb
    case STARTTLS =>
      StartTLSEffect(env, st);
      if Responds(env, st, r) {
        RespondsIsEffect(env, st, r);
      }
    case AUTHENTICATE => AuthenticateEffect(env, st, args);
    case LOGIN =>
      if env.hasLogin {
        LoginEffect(env, st, args);
      } else {
        ResponseEffect(env, st, UnknownCommand, OkBare);
        RespondsIsEffect(env, st, r);
      }
    case CAPABILITY =>
      GreetingEffect(env, st);
      var s := SendCapabilityBlock(env, st);
      ResponseEffect(env, s, BadSyntax, OkBare);
      ReadsThenResponds(env, st, s, r);
      RespondsIsEffect(env, st, r);
    case NOOP =>
      ResponseEffect(env, st, BadSyntax, OkBare);
      if args != [] {
        WriteOneResponds(env, st, Tag(Unquote(args[0])));
      }
      RespondsIsEffect(env, st, r);
    case LOGOUT =>
      ResponseEffect(env, st, BadSyntax, OkGoodbye);
      RespondsIsEffect(env, st, r);
    case UNKNOWN =>
      ResponseEffect(env, st, UnknownCommand, OkBare);
      RespondsIsEffect(env, st, r);
    case _ => ScriptCommandEffect(env, st, verb, args);
  }

  lemma WriteOneResponds(env: Env, st: State, item: Item)
    requires Harmless(env.options, [item])
    ensures Responds(env, st, Write(st, item))
  {
    hide FromOptions, ChargeOf, Responds, Reads;
    assert FromOptions(env.options, [item][0]) && ChargeOf(env.options, [item][0]) == 0;
    WriteOne(env, st, item);
  }
}
