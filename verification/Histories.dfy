/**
  What the history of a run is worth: at every loop head it is safe, and it
  records the session's own answers.
 */
module Histories {
  import opened Text
  import opened LineReader
  import opened Protocol
  import opened ConnSpec
  import opened Effects
  import opened Serving
  import opened TraceSafety

  /** Every call in the history was answered as the session answers it. */
  ghost predicate Faithful(env: Env, t: seq<Event>) {
    forall i | 0 <= i < |t| && t[i].Called? :: Replied(env, t[..i], t[i].call, t[i].ok)
  }

  lemma FaithfulAppend(env: Env, t: seq<Event>, more: seq<Event>)
    requires Faithful(env, t)
    requires forall i | 0 <= i < |more| && more[i].Called? :: i == 0 && Replied(env, t, more[0].call, more[0].ok)
    ensures Faithful(env, t + more)
  {
    hide Replied;
    PrefixesKept(t, more);
    assert (t + more)[..|t|] == t;
  }

  lemma CommandFaithful(env: Env, a: State, b: State)
    requires Faithful(env, a.trace) && CommandEffect(env, a, b)
    ensures Faithful(env, b.trace)
  {
    hide Faithful, Replied, Grows, NameChecked;
    if Responds(env, a, b) {
    } else if call, ok :| AsksScript(env, a, b, call, ok) {
      FaithfulAppend(env, a.trace, [Called(call, ok)]);
    } else if call, ok :| AsksAuth(env, a, b, call, ok) {
      FaithfulAppend(env, a.trace, AuthEvents(call, ok, b.hijacked));
    } else {
      FaithfulAppend(env, a.trace, [TLSStarted]);
    }
  }

  lemma IterateFaithful(env: Env, st: State)
    requires Faithful(env, st.trace) && !st.hijacked
    ensures Faithful(env, Iterate(env, st).0.trace)
  {
    hide Iterate, Settle, CommandEffect, Faithful, Grows;
    IterateTurn(env, st);
    var (s, more) := Iterate(env, st);
    if (more && Reads(env, st, s)) || (!more && Responds(env, st, s) && s.errorCount == st.errorCount) {
    } else {
      var b, c, quit :| Reads(env, st, b) && CommandEffect(env, b, c) && (quit ==> c.errorCount == b.errorCount)
                        && Settle(env, c, quit) == (s, more);
      CommandFaithful(env, b, c);
      SettleKeeps(env, c, quit);
    }
  }

  /** At every loop head the history is safe, tells the state, and records the session's own answers. */
  lemma {:induction false} HeadHistory(env: Env, implicitTLS: bool, st: State, k: nat)
    requires Tracked(env.options, implicitTLS, st) && Faithful(env, st.trace) && !st.hijacked
    requires Head(env, st, k).Some?
    ensures var s := Head(env, st, k).value;
            Tracked(env.options, implicitTLS, s) && Faithful(env, s.trace)
  {
    hide Iterate, Tracked, Faithful;
    if k > 0 {
      HeadHistory(env, implicitTLS, st, k - 1);
      var s := Head(env, st, k - 1).value;
      IterateTracked(env, implicitTLS, s);
      IterateFaithful(env, s);
    }
  }

  /** The state at the k-th loop head of the run on input. */
  function AtHead(env: Env, isTLS: bool, input: Stream, k: nat): Option<State> {
    Head(env, Greeted(env, Fresh(isTLS, input)), k)
  }

  lemma TrackedFacts(env: Env, implicitTLS: bool, st: State)
    requires Tracked(env.options, implicitTLS, st)
    ensures NamesChecked(st.trace) && LoginIsFinal(st.trace) && (st.authenticated ==> Authenticated(st.trace))
  {
  }

  lemma StartHistory(env: Env, isTLS: bool, input: Stream)
    ensures var g := Greeted(env, Fresh(isTLS, input));
            Tracked(env.options, isTLS, g) && Faithful(env, g.trace) && WithinBudget(env, g)
  {
    hide SendGreeting, Tracked;
    var st := Fresh(isTLS, input);
    GreetingEffect(env, st);
    ReadsKeeps(env, st, SendGreeting(env, st));
    FreshTracked(env.options, isTLS, Greeted(env, st));
  }

  /** What holds at every loop head of every run. */
  lemma HeadFacts(env: Env, isTLS: bool, input: Stream, k: nat, st: State)
    requires AtHead(env, isTLS, input, k) == Some(st)
    ensures Tracked(env.options, isTLS, st) && Faithful(env, st.trace) && WithinBudget(env, st)
    ensures NamesChecked(st.trace) && LoginIsFinal(st.trace) && (st.authenticated ==> Authenticated(st.trace))
  {
    hide Head, Greeted, Faithful, WithinBudget, Tracked;
    var g := Greeted(env, Fresh(isTLS, input));
    StartHistory(env, isTLS, input);
    HeadHistory(env, isTLS, g, k);
    HeadBudget(env, g, k);
    TrackedFacts(env, isTLS, st);
  }
}
