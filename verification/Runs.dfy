/**
  Whole runs told turn by turn: a run opens with the greeting, takes one turn
  after another for as long as they go on, and closes
  (managesieveserver/conn.go).
 */
module Runs {
  import opened Text
  import opened LineReader
  import opened Protocol
  import opened ConnSpec
  import opened Effects
  import opened Serving
  import Client
  import Responses

  lemma {:induction false} HeadShifts(env: Env, st: State, k: nat)
    requires !st.hijacked && Iterate(env, st).1 && !Iterate(env, st).0.hijacked
    ensures Head(env, Iterate(env, st).0, k) == Head(env, st, k + 1)
  {
    hide Iterate;
    if k == 0 {
      assert Head(env, st, 0) == Some(st);
    } else {
      HeadShifts(env, st, k - 1);
    }
  }

  /** The loop ends with the first turn that does not go on, and not before. */
  lemma {:induction false} LoopEndsATurn(env: Env, st: State) returns (k: nat)
    requires !st.hijacked
    ensures Head(env, st, k).Some? && Head(env, st, k + 1) == None
    ensures Iterate(env, Head(env, st, k).value) == (Loop(env, st), false)
    decreases if st.isTLS then 0 else 1, |st.input.data|
  {
    hide Iterate;
    IterateAdvances(env, st);
    var (s, more) := Iterate(env, st);
    if more {
      k := LoopEndsATurn(env, s);
      HeadShifts(env, st, k);
      HeadShifts(env, st, k + 1);
      k := k + 1;
    } else {
      k := 0;
      assert Head(env, st, 0) == Some(st);
    }
  }

  lemma TurnGrows(env: Env, st: State)
    requires !st.hijacked
    ensures st.output <= Iterate(env, st).0.output && st.trace <= Iterate(env, st).0.trace
  {
    hide Iterate, CommandEffect, Settle, Grows;
    IterateTurn(env, st);
    var (s, more) := Iterate(env, st);
    if (more && Reads(env, st, s)) || (!more && Responds(env, st, s) && s.errorCount == st.errorCount) {
      GrowsIsPrefix(env.options, st.output, s.output);
    } else {
      var b, c, quit :| Reads(env, st, b) && CommandEffect(env, b, c) && (quit ==> c.errorCount == b.errorCount)
                        && Settle(env, c, quit) == (s, more);
      GrowsIsPrefix(env.options, st.output, b.output);
      EffectGrows(env, b, c);
      GrowsIsPrefix(env.options, b.output, c.output);
      SettleGrows(env, c, quit);
    }
  }

  lemma GrowsIsPrefix(o: Options, a: seq<Item>, b: seq<Item>)
    requires Grows(o, a, b)
    ensures a <= b
  {
  }

  lemma EffectGrows(env: Env, a: State, b: State)
    requires CommandEffect(env, a, b)
    ensures Grows(env.options, a.output, b.output) && a.trace <= b.trace
  {
    hide Grows;
  }

  lemma SettleGrows(env: Env, c: State, quit: bool)
    ensures c.output <= Settle(env, c, quit).0.output && c.trace == Settle(env, c, quit).0.trace
  {
  }

  lemma {:induction false} LoopGrows(env: Env, st: State)
    requires !st.hijacked
    ensures st.output <= Loop(env, st).output
    decreases if st.isTLS then 0 else 1, |st.input.data|
  {
    hide Iterate;
    IterateAdvances(env, st);
    TurnGrows(env, st);
    if Iterate(env, st).1 {
      LoopGrows(env, Iterate(env, st).0);
    }
  }

  /** The greeting of a connection: its capabilities, and the line behind them. */
  function Opening(o: Options, isTLS: bool): seq<Item> {
    Client.ListingItems(o, isTLS, Greeting(o.greetingStartTLSHint && StartTLSAvailable(o, isTLS), o.greeting))
  }

  /** Whatever else happens on it, a connection opens with its greeting. */
  lemma ServeIsGreeted(env: Env, isTLS: bool, input: Stream) returns (rest: seq<Item>)
    ensures Serve(env, Fresh(isTLS, input)).output == Opening(env.options, isTLS) + rest
  {
    hide Loop, Capabilities, AdvertisedAll;
    var st := Fresh(isTLS, input);
    GreetingEffect(env, st);
    ReadsKeeps(env, st, SendGreeting(env, st));
    var (g, ok) := Flush(env, SendGreeting(env, st));
    assert g.output == Opening(env.options, isTLS) by { OpeningSent(env, isTLS, input); }
    if ok {
      LoopGrows(env, g);
    }
    var all := Serve(env, st).output;
    rest := all[|g.output|..];
  }

  lemma OpeningSent(env: Env, isTLS: bool, input: Stream)
    ensures SendGreeting(env, Fresh(isTLS, input)).output == Opening(env.options, isTLS)
  {
    hide Capabilities, AdvertisedAll;
    var listed := AdvertisedAll(Capabilities(env.options, isTLS));
    assert [] + listed == listed;
  }

  lemma {:induction false} RenderSplits(a: seq<Item>, b: seq<Item>)
    ensures Render(a + b) == Render(a) + Render(b)
  {
    hide RenderItem;
    if a == [] {
      assert a + b == b;
    } else {
      RenderSplits(a[1..], b);
      assert (a + b)[1..] == a[1..] + b;
      ConcatAssoc(RenderItem(a[0]), Render(a[1..]), Render(b));
    }
  }

  /**
    Every run begins with bytes from which a client within its limits learns what
    the server can do, whatever comes behind them.
   */
  lemma ServeIsIntroduced(env: Env, isTLS: bool, input: Stream, end: End, maxLine: int, maxCaps: nat)
    returns (rest: string)
    requires Responses.CleanOptions(env.options)
    requires var items := Opening(env.options, isTLS);
             |items| <= maxCaps && forall item | item in items :: |LineOf(item)| <= maxLine
    ensures var last := Opening(env.options, isTLS)[|Opening(env.options, isTLS)| - 1];
            Client.ReadBlock(Stream(Render(Serve(env, Fresh(isTLS, input)).output), end), maxLine, maxCaps, map[])
            == (Client.Listing(Client.LearnAll(map[], Capabilities(env.options, isTLS)), LineOf(last)),
                Stream(rest, end))
  {
    hide Serve, Capabilities, Render, Client.ReadBlock, Client.LearnAll, LineOf, Responses.CleanOptions,
         Client.IsStatus;
    var items := ServeIsGreeted(env, isTLS, input);
    rest := Render(items);
    RenderSplits(Opening(env.options, isTLS), items);
    var hint := env.options.greetingStartTLSHint && StartTLSAvailable(env.options, isTLS);
    var last := Greeting(hint, env.options.greeting);
    Client.GreetingIsStatus(hint, env.options.greeting);
    Client.GreetingLineClean(env.options, hint);
    Client.ListingRoundTrip(env.options, isTLS, last, rest, end, maxLine, maxCaps);
  }
}
