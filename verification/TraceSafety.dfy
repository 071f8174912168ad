/**
  What a Session can observe, over every run: the order of its calls, the TLS
  upgrade and the hand-over of the connection.
 */
module TraceSafety {
  import opened LineReader
  import opened Protocol
  import opened ConnSpec
  import opened Effects
  import opened Serving

  predicate IsAuthCall(e: Event) {
    e.Called? && e.call.IsAuth()
  }

  predicate IsScriptCall(e: Event) {
    e.Called? && e.call.IsScript()
  }

  /** The call at i authenticated the connection: it succeeded and did not take the connection away. */
  predicate LoggedIn(t: seq<Event>, i: int) {
    0 <= i < |t| && IsAuthCall(t[i]) && t[i].ok && !(i + 1 < |t| && t[i + 1] == Hijacked)
  }

  ghost predicate Authenticated(t: seq<Event>) {
    exists i :: LoggedIn(t, i)
  }

  /** Script methods are called only after a successful authentication. */
  ghost predicate ScriptsAfterLogin(t: seq<Event>) {
    forall i | 0 <= i < |t| && IsScriptCall(t[i]) :: Authenticated(t[..i])
  }

  /** Nothing authenticates, and no TLS upgrade happens, once authenticated: one login at most. */
  ghost predicate LoginIsFinal(t: seq<Event>) {
    forall i, j | LoggedIn(t, i) && i < j < |t| :: !IsAuthCall(t[j]) && t[j] != TLSStarted
  }

  /** Credentials are only passed on over TLS, unless the operator allows cleartext. */
  ghost predicate AuthOverTLS(o: Options, implicitTLS: bool, t: seq<Event>) {
    forall i | 0 <= i < |t| && IsAuthCall(t[i]) :: o.insecureAuth || implicitTLS || TLSStarted in t[..i]
  }

  /** A hijacked connection is left alone: nothing but Close follows. */
  ghost predicate HijackIsFinal(t: seq<Event>) {
    forall i, j | 0 <= i < j < |t| && t[i] == Hijacked :: t[j] == Called(Close, true)
  }

  /** Scripts are only ever stored under names the library has checked. */
  predicate NamesChecked(t: seq<Event>) {
    forall i | 0 <= i < |t| && IsScriptCall(t[i]) :: NameChecked(t[i].call)
  }

  ghost predicate SafeTrace(o: Options, implicitTLS: bool, t: seq<Event>) {
    ScriptsAfterLogin(t) && LoginIsFinal(t) && AuthOverTLS(o, implicitTLS, t) && HijackIsFinal(t) && NamesChecked(t)
  }

  ghost predicate Running(t: seq<Event>) {
    forall i | 0 <= i < |t| :: t[i] != SocketClosed && !(t[i].Called? && t[i].call.Close?)
  }

  /** The state flags say what the trace says, and the trace so far is safe. */
  ghost predicate Tracked(o: Options, implicitTLS: bool, st: State) {
    && SafeTrace(o, implicitTLS, st.trace) && Running(st.trace)
    && (st.authenticated <==> Authenticated(st.trace))
    && (st.isTLS <==> implicitTLS || TLSStarted in st.trace)
    && (st.hijacked <==> Hijacked in st.trace)
    && !(st.hijacked && st.authenticated)
  }

  // ---------------------------------------------------------------------
  // Appending events

  lemma LoginSurvives(t: seq<Event>, more: seq<Event>)
    requires Authenticated(t)
    requires more != [] ==> more[0] != Hijacked
    ensures Authenticated(t + more)
  {
    var i :| LoggedIn(t, i);
    assert LoggedIn(t + more, i);
  }

  lemma LoginIsOld(t: seq<Event>, more: seq<Event>)
    requires forall i | 0 <= i < |more| :: !IsAuthCall(more[i])
    ensures forall i | LoggedIn(t + more, i) :: LoggedIn(t, i)
  {
  }

  lemma LoginWithin(t: seq<Event>, more: seq<Event>)
    requires more != [] ==> more[0] != Hijacked
    ensures forall i | LoggedIn(t + more, i) && i < |t| :: LoggedIn(t, i)
  {
  }

  lemma ScriptsExtended(t: seq<Event>, e: Event)
    requires ScriptsAfterLogin(t) && Authenticated(t)
    ensures ScriptsAfterLogin(t + [e])
  {
    hide Authenticated;
    var u := t + [e];
    PrefixesKept(t, [e]);
    forall i | 0 <= i < |u| && IsScriptCall(u[i]) ensures Authenticated(u[..i]) {
      assert i < |t| ==> u[i] == t[i];
    }
  }

  lemma LoginExtended(t: seq<Event>, e: Event)
    requires LoginIsFinal(t) && !IsAuthCall(e) && e != TLSStarted
    ensures LoginIsFinal(t + [e])
  {
    LoginIsOld(t, [e]);
  }

  lemma AuthExtended(o: Options, implicitTLS: bool, t: seq<Event>, e: Event)
    requires AuthOverTLS(o, implicitTLS, t) && !IsAuthCall(e)
    ensures AuthOverTLS(o, implicitTLS, t + [e])
  {
    PrefixesKept(t, [e]);
  }

  lemma AppendScript(o: Options, implicitTLS: bool, t: seq<Event>, e: Event)
    requires SafeTrace(o, implicitTLS, t) && Running(t) && Hijacked !in t
    requires IsScriptCall(e) && NameChecked(e.call) && Authenticated(t)
    ensures var u := t + [e]; SafeTrace(o, implicitTLS, u) && Running(u) && Authenticated(u) && Hijacked !in u
    ensures TLSStarted in t + [e] <==> TLSStarted in t
  {
    hide Authenticated, ScriptsAfterLogin, LoginIsFinal, AuthOverTLS, NameChecked;
    LoginSurvives(t, [e]);
    ScriptsExtended(t, e);
    LoginExtended(t, e);
    AuthExtended(o, implicitTLS, t, e);
  }

  lemma PrefixesKept(t: seq<Event>, more: seq<Event>)
    ensures forall i | 0 <= i <= |t| :: (t + more)[..i] == t[..i]
  {
  }

  lemma AppendTLS(o: Options, implicitTLS: bool, t: seq<Event>)
    requires SafeTrace(o, implicitTLS, t) && Running(t) && Hijacked !in t && !Authenticated(t)
    ensures var u := t + [TLSStarted];
            SafeTrace(o, implicitTLS, u) && Running(u) && !Authenticated(u) && Hijacked !in u && TLSStarted in u
  {
    hide NameChecked;
    LoginIsOld(t, [TLSStarted]);
    PrefixesKept(t, [TLSStarted]);
    assert (t + [TLSStarted])[|t|] == TLSStarted;
  }

  lemma AppendAuth(o: Options, implicitTLS: bool, t: seq<Event>, call: Call, ok: bool, hijack: bool)
    requires SafeTrace(o, implicitTLS, t) && Running(t) && Hijacked !in t && !Authenticated(t) && call.IsAuth()
    requires o.insecureAuth || implicitTLS || TLSStarted in t
    ensures var u := t + AuthEvents(call, ok, hijack);
            && SafeTrace(o, implicitTLS, u) && Running(u)
            && (Authenticated(u) <==> ok && !hijack) && (Hijacked in u <==> hijack)
            && (TLSStarted in u <==> TLSStarted in t)
  {
    hide NameChecked;
    var more := AuthEvents(call, ok, hijack);
    var u := t + more;
    PrefixesKept(t, more);
    assert u[|t|] == Called(call, ok);
    assert hijack ==> u[|t| + 1] == Hijacked;
    LoginWithin(t, more);
    if ok && !hijack {
      assert LoggedIn(u, |t|);
    }
  }

  // ---------------------------------------------------------------------
  // Every command, every turn, every run

  lemma CommandTracked(env: Env, implicitTLS: bool, a: State, b: State)
    requires Tracked(env.options, implicitTLS, a) && !a.hijacked && CommandEffect(env, a, b)
    ensures Tracked(env.options, implicitTLS, b)
  {
    hide SafeTrace, Running, Authenticated, Grows, NameChecked;
    if Responds(env, a, b) {
    } else if call, ok :| AsksScript(env, a, b, call, ok) {
      AppendScript(env.options, implicitTLS, a.trace, Called(call, ok));
    } else if call, ok :| AsksAuth(env, a, b, call, ok) {
      AppendAuth(env.options, implicitTLS, a.trace, call, ok, b.hijacked);
    } else {
      AppendTLS(env.options, implicitTLS, a.trace);
    }
  }

  lemma SettleKeeps(env: Env, c: State, quit: bool)
    ensures var s := Settle(env, c, quit).0;
            s == c.(output := s.output, ticks := s.ticks) && (Settle(env, c, quit).1 ==> !s.hijacked)
  {
  }

  lemma IterateTracked(env: Env, implicitTLS: bool, st: State)
    requires Tracked(env.options, implicitTLS, st) && !st.hijacked
    ensures Tracked(env.options, implicitTLS, Iterate(env, st).0)
  {
    hide Iterate, Settle, CommandEffect, SafeTrace, Running, Authenticated, Grows;
    IterateTurn(env, st);
    var (s, more) := Iterate(env, st);
    if (more && Reads(env, st, s)) || (!more && Responds(env, st, s) && s.errorCount == st.errorCount) {
    } else {
      var b, c, quit :| Reads(env, st, b) && CommandEffect(env, b, c) && (quit ==> c.errorCount == b.errorCount)
                        && Settle(env, c, quit) == (s, more);
      CommandTracked(env, implicitTLS, b, c);
      SettleKeeps(env, c, quit);
    }
  }

  lemma {:induction false} LoopTracked(env: Env, implicitTLS: bool, st: State)
    requires Tracked(env.options, implicitTLS, st) && !st.hijacked
    ensures Tracked(env.options, implicitTLS, Loop(env, st))
    decreases if st.isTLS then 0 else 1, |st.input.data|
  {
    hide Iterate, Tracked;
    IterateAdvances(env, st);
    IterateTracked(env, implicitTLS, st);
    var (s, more) := Iterate(env, st);
    if more {
      LoopTracked(env, implicitTLS, s);
    }
  }

  /**
    Over every run, for every session and every input: script methods are called
    only after the one successful authentication and store only under checked
    names, credentials pass only where the transport allows it, STARTTLS never follows authentication, and the session
    is closed exactly once, last but for the socket, which stays open exactly
    when the connection was hijacked.
   */
  lemma ServeIsSafe(env: Env, isTLS: bool, input: Stream) returns (body: seq<Event>)
    ensures var t := Serve(env, Fresh(isTLS, input)).trace;
            && SafeTrace(env.options, isTLS, t)
            && Running(body)
            && t == body + [Called(Close, true)] + (if Hijacked in body then [] else [SocketClosed])
  {
    hide SendGreeting, Iterate, Reads, SafeTrace, Authenticated;
    var st := Fresh(isTLS, input);
    assert Tracked(env.options, isTLS, st) by { FreshTracked(env.options, isTLS, st); }
    GreetingEffect(env, st);
    var g := SendGreeting(env, st);
    ReadsKeeps(env, st, g);
    var (s, ok) := Flush(env, g);
    var e := if ok then Loop(env, s) else s;
    if ok {
      LoopTracked(env, isTLS, s);
    }
    body := e.trace;
    var tail := [Called(Close, true)] + if e.hijacked then [] else [SocketClosed];
    assert CloseConn(e).trace == body + tail;
    AppendClose(env.options, isTLS, body, tail);
  }

  lemma FreshTracked(o: Options, isTLS: bool, st: State)
    requires st.trace == [] && !st.authenticated && st.isTLS == isTLS && !st.hijacked
    ensures Tracked(o, isTLS, st)
  {
  }

  lemma AppendClose(o: Options, implicitTLS: bool, t: seq<Event>, tail: seq<Event>)
    requires SafeTrace(o, implicitTLS, t) && Running(t)
    requires tail == [Called(Close, true)] + if Hijacked in t then [] else [SocketClosed]
    ensures SafeTrace(o, implicitTLS, t + tail)
  {
    var u := t + tail;
    LoginIsOld(t, tail);
    PrefixesKept(t, tail);
    forall i, j | 0 <= i < j < |u| && u[i] == Hijacked ensures u[j] == Called(Close, true) {
      assert i < |t| && t[i] in t;
      assert j >= |t| ==> u[j] == tail[j - |t|];
    }
  }
}
