/**
  Lines that are not carried out: literals refused before they are read, literals
  that never arrive, quotes that never close, blank lines, and the end of the
  input; and what is written for each.
 */
module Refusals {
  import opened Text
  import opened Parser
  import opened LineReader
  import opened Protocol
  import opened ConnSpec
  import opened Serving
  import opened Framing
  import opened Outcomes
  import opened Calls
  import Exchanges
  import Responses

  // ---------------------------------------------------------------------
  // Any command line

  /** A line of a verb and any tokens, which the server takes. */
  predicate LineFits(env: Env, verb: string, ts: seq<string>) {
    && IsVerb(verb) && IsTokenList(ts) && (forall i | 0 <= i < |ts| :: Lacks(ts[i], '\n'))
    && |verb + Join(ts)| + 2 <= env.options.maxLineLength
  }

  function LineBytes(verb: string, ts: seq<string>, behind: string): string {
    verb + Join(ts) + ("\r\n" + behind)
  }

  /** The line has been read, and its literals are resolved. */
  lemma LineResolves(env: Env, st: State, verb: string, ts: seq<string>, behind: string) returns (s: State)
    requires !env.contextDone(st.ticks.looks)
    requires LineFits(env, verb, ts) && st.input.data == LineBytes(verb, ts, behind)
    ensures OnlyReads(st, s) && s.input.data == behind && s.output == st.output
    ensures var v := ReadVerb(ToUpper(verb));
            var (s', args) := ResolveLiteralArgs(env, s, v, ts);
            Iterate(env, st) ==
            if args == None then Settle(env, s', false)
            else Settle(env, Dispatch(env, s', v, args.value).0, Dispatch(env, s', v, args.value).1)
  {
    hide Trim, ParseLine, ReadVerb, ToUpper, ResolveLiteralArgs, Dispatch, Settle, ReadLine, IsToken, Join, Lacks,
         IsVerb;
    var st0 := LookAtContext(env, st).0;
    TokensLine(env, st0, verb, ts, behind);
    s := ReadLine(env, st0).0;
  }

  /** Behind n go-aheads, a turn makes this difference without a call or an upgrade, and the client reads it. */
  ghost predicate Turned(env: Env, st: State, s: State, more: bool, n: nat, items: seq<Item>, charge: nat, close: bool)
  {
    var o := Outcome([], items, charge, close, st.authenticated, false, n);
    && Served(env, st, s, more, o)
    && |st.output| <= |s.output|
    && Hears(Heard(st, s), Responses.Meanings(items), Exhausts(env, st, o))
  }

  lemma SettleTurns(env: Env, st: State, b: State, s: State, items: seq<Item>, charge: nat, close: bool)
    requires forall k: nat :: env.flushOk(k)
    requires WithinBudget(env, st) && OnlyReads(st, b)
    requires Does(env, b, s, false, Outcome([], items, charge, close, st.authenticated, false, 0))
    requires forall i | 0 <= i < |items| :: Responses.Clean(items[i])
    ensures var (r, more) := Settle(env, s, false);
            |st.output| <= |b.output| && Turned(env, st, r, more, |b.output| - |st.output|, items, charge, close)
            && r.input == s.input && (more ==> WithinBudget(env, r))
  {
    hide OnlyReads, Does, Settle, Served, Responses.Clean, Responses.Meanings, Hears, Heard, Exhausts, WithinBudget;
    var o := Outcome([], items, charge, close, st.authenticated, false, 0);
    ReadsThenMakes(env, st, b, s, false, o);
    var all := Going(o, |b.output| - |st.output|);
    SettleServes(env, st, s, false, all);
    var (r, more) := Settle(env, s, false);
    ServedIsHeard(env, st, r, more, all);
  }

  lemma ServedIsHeard(env: Env, st: State, s: State, more: bool, o: Outcome)
    requires Served(env, st, s, more, o) && forall i | 0 <= i < |o.items| :: Responses.Clean(o.items[i])
    ensures |st.output| <= |s.output|
    ensures Hears(Heard(st, s), Responses.Meanings(o.items), Exhausts(env, st, o))
  {
    hide Responses.Clean, Responses.Meanings, Hears, Exhausts, Pluses;
    AddedIsHeard(st.output, s.output, o.goAheads, o.items, Exhausts(env, st, o));
  }

  lemma FaultIsClean(fault: Fault)
    ensures Responses.Clean(Fail(fault))
  {
    hide Responses.IsRow, Fault.Message, Quote, SanitizeText, NoLineText;
    Responses.NoLineIsRow(Quote(SanitizeText(fault.Message())));
  }

  lemma PhraseIsClean(phrase: Phrase)
    ensures Responses.Clean(Say(phrase))
  {
    hide Responses.IsRow, Phrase.Text;
    Responses.PhraseIsRow(phrase);
  }

  lemma SizeIsClean(size: nat, limit: nat)
    ensures Responses.Clean(DenySize(size, limit))
  {
    hide Responses.IsRow, WireMessage, NoLineText, SizeMessage;
    Responses.NoLineIsRow(WireMessage("QUOTA/MAXSIZE", SizeMessage(size, limit)));
  }

  // ---------------------------------------------------------------------
  // Literals refused before they are read

  /** A body that is on its way already has nowhere to go: the connection ends. */
  predicate OnItsWay(env: Env, st: State, nonSync: bool) {
    nonSync || env.buffered(st.ticks.peeks)
  }

  /** The outcome of refusing, with this line, a literal whose body is then dealt with. */
  lemma RefuseDoes(env: Env, st: State, s: State, item: Item, charge: nat, nonSync: bool)
    requires !st.hijacked && !st.closePending
    requires s == st.(errorCount := st.errorCount + charge, output := st.output + [item])
    ensures var r := RefuseLiteral(env, s, nonSync);
            Does(env, st, r, false, Outcome([], [item], charge, OnItsWay(env, st, nonSync), st.authenticated, false, 0))
            && r.input == st.input
    ensures var r := if nonSync then RequestClose(s) else s;
            Does(env, st, r, false, Outcome([], [item], charge, nonSync, st.authenticated, false, 0))
            && r.input == st.input
    ensures Does(env, st, RequestClose(s), false, Outcome([], [item], charge, true, st.authenticated, false, 0))
            && RequestClose(s).input == st.input
  {
    AddsHere(st.output, [item]);
  }

  predicate LastIs(ts: seq<string>, marker: Marker) {
    ts != [] && LiteralLength(ts[|ts| - 1]) == marker
  }

  /**
    A literal for an ordinary argument that has no length, or is over the line
    limit, is refused with one counted error. The connection goes on, behind the
    line, only where its body can still be held back.
   */
  lemma InlineIsRefused(env: Env, st: State, verb: string, ts: seq<string>, marker: Marker, t: string)
    requires forall k: nat :: env.flushOk(k)
    requires WithinBudget(env, st) && !env.contextDone(st.ticks.looks)
    requires LineFits(env, verb, ts) && st.input.data == LineBytes(verb, ts, t)
    requires LastIs(ts, marker) && !IsContent(ToUpper(verb), |ts| - 1)
    requires marker.BadLength? || (marker.Literal? && marker.length > env.options.maxLineLength)
    ensures var (s, more) := Iterate(env, st);
            && Turned(env, st, s, more, 0, [Fail(if marker.BadLength? then BadLiteralLength else LiteralTooLarge)], 1,
                      if marker.BadLength? then marker.nonSync else OnItsWay(env, st, marker.nonSync))
            && s.input.data == t
  {
    hide Iterate, ReadVerb, ToUpper, ResolveLiteralArgs, Dispatch, Settle, OnlyReads, Does, Turned, LiteralLength,
         LineFits, LineBytes, RefuseLiteral, WithinBudget, Tokens, IsContent, LiteralDeferred, Responses.Clean;
    var b := LineResolves(env, st, verb, ts, t);
    OnlyReadsFields(st, b);
    BudgetOpen(env, st);
    DeferredIsContent(ToUpper(verb), |ts| - 1);
    ResolveRound(env, b, ReadVerb(ToUpper(verb)), ts, |ts| - 1, marker);
    var fault := if marker.BadLength? then BadLiteralLength else LiteralTooLarge;
    RefuseDoes(env, b, ClientError(b, fault), Fail(fault), 1, marker.nonSync);
    FaultIsClean(fault);
    var s := ResolveLiteralArgs(env, b, ReadVerb(ToUpper(verb)), ts).0;
    SettleTurns(env, st, b, s, [Fail(fault)], 1,
                if marker.BadLength? then marker.nonSync else OnItsWay(env, b, marker.nonSync));
  }

  /** A content literal comes to its command as it stands. */
  lemma ContentIsDispatched(env: Env, st: State, verb: string, ts: seq<string>, t: string) returns (b: State)
    requires !env.contextDone(st.ticks.looks)
    requires LineFits(env, verb, ts) && st.input.data == LineBytes(verb, ts, t)
    requires ts != [] && IsContent(ToUpper(verb), |ts| - 1)
    ensures OnlyReads(st, b) && b.input.data == t && b.output == st.output && b.ticks.peeks == st.ticks.peeks
    ensures Iterate(env, st) == Settle(env, Dispatch(env, b, ReadVerb(ToUpper(verb)), ts).0,
                                       Dispatch(env, b, ReadVerb(ToUpper(verb)), ts).1)
  {
    hide Iterate, ReadVerb, ToUpper, ResolveLiteralArgs, Dispatch, Settle, OnlyReads, LiteralLength, LineFits,
         LineBytes, Tokens, IsContent, LiteralDeferred;
    b := LineResolves(env, st, verb, ts, t);
    OnlyReadsFields(st, b);
    DeferredIsContent(ToUpper(verb), |ts| - 1);
    ResolveRound(env, b, ReadVerb(ToUpper(verb)), ts, |ts| - 1, LiteralLength(ts[|ts| - 1]));
  }

  lemma ScriptArgumentRefused(env: Env, st: State, verb: Verb, ts: seq<string>, s: State)
    requires st.authenticated
    requires (verb.PUTSCRIPT? && |ts| == 2) || (verb.CHECKSCRIPT? && |ts| == 1)
    requires ReadScriptArgument(env, st, ts[|ts| - 1]) == (s, None)
    ensures Dispatch(env, st, verb, ts) == (s, false)
  {
    hide ReadScriptArgument;
  }

  /** A script over the server's limit, by the length announced, is refused before it is sent. */
  lemma ContentIsRefused(env: Env, st: State, verb: string, ts: seq<string>, marker: Marker, t: string)
    requires forall k: nat :: env.flushOk(k)
    requires WithinBudget(env, st) && st.authenticated && !env.contextDone(st.ticks.looks)
    requires LineFits(env, verb, ts) && st.input.data == LineBytes(verb, ts, t)
    requires LastIs(ts, marker)
             && ((ToUpper(verb) == "PUTSCRIPT" && |ts| == 2) || (ToUpper(verb) == "CHECKSCRIPT" && |ts| == 1))
    requires marker.BadLength? || (marker.Literal? && 0 < env.options.maxScriptSize < marker.length)
    ensures var (s, more) := Iterate(env, st);
            s.input.data == t &&
            if marker.BadLength? then Turned(env, st, s, more, 0, [Fail(BadLiteralLength)], 1, marker.nonSync)
            else Turned(env, st, s, more, 0, [DenySize(marker.length, env.options.maxScriptSize)], 0,
                        OnItsWay(env, st, marker.nonSync))
  {
    hide Iterate, ToUpper, Dispatch, Settle, OnlyReads, Does, Turned, LiteralLength, LineFits, LineBytes, RefuseLiteral,
         WithinBudget, Responses.Clean, FetchLiteral;
    var b := ContentIsDispatched(env, st, verb, ts, t);
    OnlyReadsFields(st, b);
    BudgetOpen(env, st);
    var s := ReadScriptArgument(env, b, ts[|ts| - 1]).0;
    ScriptArgumentRefused(env, b, ReadVerb(ToUpper(verb)), ts, s);
    if marker.BadLength? {
      RefuseDoes(env, b, ClientError(b, BadLiteralLength), Fail(BadLiteralLength), 1, marker.nonSync);
      FaultIsClean(BadLiteralLength);
      SettleTurns(env, st, b, s, [Fail(BadLiteralLength)], 1, marker.nonSync);
    } else {
      var item := DenySize(marker.length, env.options.maxScriptSize);
      RefuseDoes(env, b, QuotaMaxSize(env, b, marker.length), item, 0, marker.nonSync);
      SizeIsClean(marker.length, env.options.maxScriptSize);
      SettleTurns(env, st, b, s, [item], 0, OnItsWay(env, b, marker.nonSync));
    }
  }

  lemma ResponseRefused(env: Env, st: State, ts: seq<string>, s: State)
    requires MayAuthenticate(env, st) && |ts| == 2 && ToUpper(Unquote(ts[0])) == "PLAIN"
    requires AuthString(env, st, ts[1]) == (s, None)
    ensures Dispatch(env, st, AUTHENTICATE, ts) == (s, false)
  {
    hide AuthString, ToUpper, Unquote;
  }

  /** A response over the limit ends the connection, for its body is never asked for. */
  lemma ResponseIsRefused(env: Env, st: State, verb: string, ts: seq<string>, marker: Marker, t: string)
    requires forall k: nat :: env.flushOk(k)
    requires WithinBudget(env, st) && MayAuthenticate(env, st) && !env.contextDone(st.ticks.looks)
    requires LineFits(env, verb, ts) && st.input.data == LineBytes(verb, ts, t)
    requires LastIs(ts, marker) && ToUpper(verb) == "AUTHENTICATE" && |ts| == 2 && ToUpper(Unquote(ts[0])) == "PLAIN"
    requires marker.BadLength? || (marker.Literal? && marker.length > env.options.maxAuthLiteral)
    ensures var (s, more) := Iterate(env, st);
            Turned(env, st, s, more, 0, [Fail(BadLiteralSize)], 1, true) && s.input.data == t
  {
    hide Iterate, ToUpper, Unquote, Dispatch, Settle, OnlyReads, Does, Turned, LiteralLength, LineFits, LineBytes,
         WithinBudget, Responses.Clean, FetchLiteral;
    var b := ContentIsDispatched(env, st, verb, ts, t);
    OnlyReadsFields(st, b);
    BudgetOpen(env, st);
    var s := AuthString(env, b, ts[1]).0;
    ResponseRefused(env, b, ts, s);
    RefuseDoes(env, b, ClientError(b, BadLiteralSize), Fail(BadLiteralSize), 1, true);
    FaultIsClean(BadLiteralSize);
    SettleTurns(env, st, b, s, [Fail(BadLiteralSize)], 1, true);
  }

  // ---------------------------------------------------------------------
  // Literals that never arrive

  /** The bytes end before the literal does, or before the line behind it. */
  predicate CutShort(env: Env, behind: Stream, n: nat) {
    n > |behind.data|
    || FirstLine(behind.(data := behind.data[n..]), env.options.maxLineLength).NoLine?
  }

  /** What a client is told of it, behind the go-ahead where it waits for one. */
  function CutItems(nonSync: bool, failure: Phrase): seq<Item> {
    (if nonSync then [] else [Say(Plus)]) + [Say(failure)]
  }

  lemma ReadCut(env: Env, st: State, n: nat)
    requires CutShort(env, st.input, n)
    ensures var (s, body) := ReadLiteral(env, st, n);
            body == None && s == st.(input := s.input)
  {
    hide FirstLine, AfterLine;
  }

  lemma FetchCutWrites(env: Env, st: State, n: nat, nonSync: bool, failure: Phrase)
    requires forall k: nat :: env.flushOk(k)
    requires CutShort(env, st.input, n)
    ensures var (s, body) := FetchLiteral(env, st, n, nonSync, failure);
            body == None && s == st.(input := s.input, ticks := s.ticks, closePending := true,
                                     output := st.output + CutItems(nonSync, failure))
  {
    hide CutShort, ReadLiteral;
    ReadCut(env, GoAhead(env, st, nonSync).0, n);
    assert st.output + [Say(Plus)] + [Say(failure)] == st.output + ([Say(Plus)] + [Say(failure)]);
    assert [] + [Say(failure)] == [Say(failure)];
  }

  lemma FetchCut(env: Env, st: State, n: nat, nonSync: bool, failure: Phrase)
    requires forall k: nat :: env.flushOk(k)
    requires !st.hijacked && !st.closePending && CutShort(env, st.input, n)
    ensures var (s, body) := FetchLiteral(env, st, n, nonSync, failure);
            body == None
            && Does(env, st, s, false, Outcome([], CutItems(nonSync, failure), 0, true, st.authenticated, false, 0))
  {
    hide CutShort, CutItems, FetchLiteral;
    FetchCutWrites(env, st, n, nonSync, failure);
    AddsHere(st.output, CutItems(nonSync, failure));
  }

  lemma CutIsClean(nonSync: bool, failure: Phrase)
    ensures forall i | 0 <= i < |CutItems(nonSync, failure)| :: Responses.Clean(CutItems(nonSync, failure)[i])
  {
    hide Responses.Clean, Phrase.Text;
    PhraseIsClean(Plus);
    PhraseIsClean(failure);
  }

  /** An argument that never arrives ends the connection, and no command is run. */
  lemma InlineIsCut(env: Env, st: State, verb: string, ts: seq<string>, n: nat, nonSync: bool, behind: string)
    requires forall k: nat :: env.flushOk(k)
    requires WithinBudget(env, st) && !env.contextDone(st.ticks.looks)
    requires LineFits(env, verb, ts) && st.input.data == LineBytes(verb, ts, behind)
    requires LastIs(ts, Literal(n, nonSync)) && !IsContent(ToUpper(verb), |ts| - 1) && n <= env.options.maxLineLength
    requires CutShort(env, st.input.(data := behind), n)
    ensures var (s, more) := Iterate(env, st);
            Turned(env, st, s, more, 0, CutItems(nonSync, NoLiteralArgument), 0, true)
  {
    hide Iterate, ReadVerb, ToUpper, ResolveLiteralArgs, Dispatch, Settle, OnlyReads, Does, Turned, LiteralLength,
         LineFits, LineBytes, FetchLiteral, WithinBudget, Tokens, IsContent, LiteralDeferred, Responses.Clean, CutShort,
         CutItems;
    var b := LineResolves(env, st, verb, ts, behind);
    OnlyReadsFields(st, b);
    BudgetOpen(env, st);
    DeferredIsContent(ToUpper(verb), |ts| - 1);
    ResolveRound(env, b, ReadVerb(ToUpper(verb)), ts, |ts| - 1, Literal(n, nonSync));
    FetchCut(env, b, n, nonSync, NoLiteralArgument);
    CutIsClean(nonSync, NoLiteralArgument);
    var s := FetchLiteral(env, b, n, nonSync, NoLiteralArgument).0;
    SettleTurns(env, st, b, s, CutItems(nonSync, NoLiteralArgument), 0, true);
  }

  /** A script that never arrives likewise. */
  lemma ContentIsCut(env: Env, st: State, verb: string, ts: seq<string>, n: nat, nonSync: bool, behind: string)
    requires forall k: nat :: env.flushOk(k)
    requires WithinBudget(env, st) && st.authenticated && !env.contextDone(st.ticks.looks)
    requires LineFits(env, verb, ts) && st.input.data == LineBytes(verb, ts, behind)
    requires LastIs(ts, Literal(n, nonSync)) && !(0 < env.options.maxScriptSize < n)
    requires (ToUpper(verb) == "PUTSCRIPT" && |ts| == 2) || (ToUpper(verb) == "CHECKSCRIPT" && |ts| == 1)
    requires CutShort(env, st.input.(data := behind), n)
    ensures var (s, more) := Iterate(env, st);
            Turned(env, st, s, more, 0, CutItems(nonSync, NoLiteralContent), 0, true)
  {
    hide Iterate, ToUpper, Dispatch, Settle, OnlyReads, Does, Turned, LiteralLength, LineFits, LineBytes, WithinBudget,
         Responses.Clean, FetchLiteral, CutShort, CutItems;
    var b := ContentIsDispatched(env, st, verb, ts, behind);
    OnlyReadsFields(st, b);
    BudgetOpen(env, st);
    var s := ReadScriptArgument(env, b, ts[|ts| - 1]).0;
    FetchCut(env, b, n, nonSync, NoLiteralContent);
    CutIsClean(nonSync, NoLiteralContent);
    ScriptArgumentRefused(env, b, ReadVerb(ToUpper(verb)), ts, s);
    SettleTurns(env, st, b, s, CutItems(nonSync, NoLiteralContent), 0, true);
  }

  /** And a SASL response. */
  lemma ResponseIsCut(env: Env, st: State, verb: string, ts: seq<string>, n: nat, nonSync: bool, behind: string)
    requires forall k: nat :: env.flushOk(k)
    requires WithinBudget(env, st) && MayAuthenticate(env, st) && !env.contextDone(st.ticks.looks)
    requires LineFits(env, verb, ts) && st.input.data == LineBytes(verb, ts, behind)
    requires LastIs(ts, Literal(n, nonSync)) && n <= env.options.maxAuthLiteral
    requires ToUpper(verb) == "AUTHENTICATE" && |ts| == 2 && ToUpper(Unquote(ts[0])) == "PLAIN"
    requires CutShort(env, st.input.(data := behind), n)
    ensures var (s, more) := Iterate(env, st);
            Turned(env, st, s, more, 0, [Say(NoAuthFailed)], 0, true)
  {
    hide Iterate, ToUpper, Unquote, Dispatch, Settle, OnlyReads, Does, Turned, LiteralLength, LineFits, LineBytes,
         WithinBudget, Responses.Clean, FetchLiteral, CutShort;
    var b := ContentIsDispatched(env, st, verb, ts, behind);
    OnlyReadsFields(st, b);
    BudgetOpen(env, st);
    var s := AuthString(env, b, ts[1]).0;
    FetchCut(env, b, n, true, NoAuthFailed);
    assert [] + [Say(NoAuthFailed)] == [Say(NoAuthFailed)];
    CutIsClean(true, NoAuthFailed);
    ResponseRefused(env, b, ts, s);
    SettleTurns(env, st, b, s, [Say(NoAuthFailed)], 0, true);
  }

  /** What follows a challenge is no string the server takes: none at all, one too long, or one cut short. */
  predicate NoReaction(env: Env, behind: Stream, tooLong: bool) {
    match FirstLine(behind, env.options.maxLineLength)
    case NoLine(_) => !tooLong
    case Line(text) =>
      match LiteralLength(Trim(text))
      case NotLiteral => false
      case BadLength(_) => tooLong
      case Literal(n, _) =>
        if n > env.options.maxAuthLiteral then tooLong else !tooLong && CutShort(env, AfterLine(behind), n)
  }

  lemma NoReactionDoes(env: Env, st: State, tooLong: bool)
    requires forall k: nat :: env.flushOk(k)
    requires !st.hijacked && !st.closePending && NoReaction(env, st.input, tooLong)
    ensures var (s, data) := AuthChallenge(env, st);
            var items := [Say(Challenge), if tooLong then Fail(BadLiteralSize) else Say(NoAuthFailed)];
            data == None
            && Does(env, st, s, false, Outcome([], items, if tooLong then 1 else 0, true, st.authenticated, false, 0))
  {
    hide FirstLine, AfterLine, LiteralLength, Trim;
    var s := AuthChallenge(env, st).0;
    var items := [Say(Challenge), if tooLong then Fail(BadLiteralSize) else Say(NoAuthFailed)];
    assert Trim("*") == "*" && LiteralLength("*").NotLiteral? by { StarIsNoMarker(); }
    assert st.output + [Say(Challenge)] + items[1..] == st.output + items;
    assert s.output == st.output + items;
    AddsHere(st.output, items);
  }

  lemma StarIsNoMarker()
    ensures Trim("*") == "*" && LiteralLength("*").NotLiteral?
  {
    TrimId("*");
  }

  lemma ChallengeDispatches(env: Env, st: State, given: seq<string>, s: State)
    requires MayAuthenticate(env, st) && |given| == 1 && ToUpper(Unquote(given[0])) == "PLAIN"
    requires AuthChallenge(env, st) == (s, None)
    ensures Dispatch(env, st, AUTHENTICATE, given) == (s, false)
  {
    hide AuthChallenge, ToUpper, Unquote;
  }

  /** A challenge that is not answered, or not in a string the server takes, ends the connection. */
  lemma ChallengeFails(env: Env, st: State, c: ClientCommand, behind: string, tooLong: bool)
    requires forall k: nat :: env.flushOk(k)
    requires forall k: nat :: !env.contextDone(k)
    requires WithinBudget(env, st) && MayAuthenticate(env, st)
    requires Says(c, "AUTHENTICATE") && |c.args| == 1 && ToUpper(c.args[0].value) == "PLAIN" && Admissible(env, c)
    requires st.input.data == Encode(c) + behind && NoReaction(env, st.input.(data := behind), tooLong)
    ensures var (s, more) := Iterate(env, st);
            Turned(env, st, s, more, Exchanges.Asks(c.args[0]),
                   [Say(Challenge), if tooLong then Fail(BadLiteralSize) else Say(NoAuthFailed)],
                   if tooLong then 1 else 0, true)
  {
    hide Iterate, Encode, Admissible, Dispatch, Settle, VerbOf, Resolved, Unread, Values, Turned, Does, OnlyReads,
         Given, ContentFits, WithinBudget, Tail, ToUpper, NoReaction, Quote, Unquote, AuthChallenge, Responses.Clean;
    var b := TurnDispatches(env, st, c, behind);
    OnlyReadsFields(st, b);
    BudgetOpen(env, st);
    ResolvedIsGiven(env, c);
    Exchanges.OneQuoted(c);
    UnquoteQuote(c.args[0].value);
    assert "" + behind == behind;
    assert |b.output| == |st.output| + Exchanges.Asks(c.args[0]) by { Exchanges.AsksOne(c); }
    NoReactionDoes(env, b, tooLong);
    var s := AuthChallenge(env, b).0;
    ChallengeDispatches(env, b, Resolved(AUTHENTICATE, 0, c.args), s);
    var last := if tooLong then Fail(BadLiteralSize) else Say(NoAuthFailed);
    PhraseIsClean(Challenge);
    PhraseIsClean(NoAuthFailed);
    FaultIsClean(BadLiteralSize);
    SettleTurns(env, st, b, s, [Say(Challenge), last], if tooLong then 1 else 0, true);
  }

  // ---------------------------------------------------------------------
  // Quotes that never close

  /** A quoted string that has been opened, and in which every further quote is escaped. */
  predicate OpenQuote(text: string) {
    text != "" && text[0] == '"' && ClosingQuote(text, 1, false) == -1
  }

  lemma OpenQuoteTrims(text: string)
    requires OpenQuote(text)
    ensures OpenQuote(TrimRight(text)) && Trimmed(TrimRight(text))
    ensures exists blanks: string :: AllSpace(blanks) && text == TrimRight(text) + blanks
  {
    TrimRightCuts(text);
    var n := |TrimRight(text)|;
    ClosingQuoteCut(text, n, 1, false);
    assert text == text[..n] + text[n..];
  }

  lemma {:induction false} OpenQuoteFails(ts: seq<string>, text: string)
    requires (forall i | 0 <= i < |ts| :: IsToken(ts[i])) && OpenQuote(text) && Trimmed(text)
    ensures Tokens(Join(ts) + (" " + text)) == None
    decreases |ts|
  {
    hide ClosingQuote;
    if ts == [] {
      assert Join(ts) + (" " + text) == " " + text;
      TrimOneSpace(text);
    } else {
      var rest := Join(ts[1..]) + (" " + text);
      var s := ts[0] + rest;
      assert Join(ts) + (" " + text) == " " + s;
      assert Trimmed(s) by {
        assert s[|s| - 1] == text[|text| - 1];
      }
      TrimOneSpace(s);
      OpenQuoteFails(ts[1..], text);
      TokenInFront(ts[0], rest);
      assert s[|ts[0]|..] == rest && s[..|ts[0]|] == ts[0];
    }
  }

  lemma TokenInFront(t: string, rest: string)
    requires IsToken(t) && rest != "" && rest[0] == ' '
    ensures TokenEnd(t + rest) == |t|
  {
    var s := t + rest;
    assert s[..|t|] == t;
    if t[0] == '"' {
      ClosingQuoteCut(s, |t|, 1, false);
    } else {
      IndexOfAt(s, ' ', |t|);
    }
  }

  lemma TokensBehindBlank(args: string)
    requires args != "" && args[0] == ' '
    ensures Tokens(Trim(args[1..])) == Tokens(args)
  {
    hide Tokens, Trim;
    assert args == " " + args[1..];
    LeadingSpace(args[1..]);
    TokensTrim(args);
    TokensTrim(args[1..]);
  }

  lemma VerbThenTokens(verb: string, args: string)
    requires IsVerb(verb) && args != "" && args[0] == ' ' && !IsSpace(args[|args| - 1]) && Tokens(args) == None
    ensures var line := verb + args;
            Trimmed(line) && line != "" && ParseLine(line) == Syntax
  {
    hide Tokens, Trim;
    var line := verb + args;
    assert line[|line| - 1] == args[|args| - 1];
    TrimId(line);
    IndexOfAt(line, ' ', |verb|);
    assert line[|verb| + 1..] == args[1..];
    TokensBehindBlank(args);
  }

  lemma OpenTextParses(verb: string, ts: seq<string>, text: string)
    requires IsVerb(verb) && (forall i | 0 <= i < |ts| :: IsToken(ts[i])) && OpenQuote(text) && Trimmed(text)
    ensures var line := verb + (Join(ts) + (" " + text));
            Trimmed(line) && line != "" && ParseLine(line) == Syntax
  {
    hide IsToken, Tokens, ClosingQuote, ParseLine, Join, IsVerb;
    var args := Join(ts) + (" " + text);
    assert args[0] == ' ' && args[|args| - 1] == text[|text| - 1] by { JoinStarts(ts); }
    OpenQuoteFails(ts, text);
    VerbThenTokens(verb, args);
  }

  /** A line whose last quote never closes is no command. */
  lemma OpenLineParses(verb: string, ts: seq<string>, open: string)
    requires IsVerb(verb) && (forall i | 0 <= i < |ts| :: IsToken(ts[i])) && OpenQuote(open)
    ensures var line := Trim(verb + (Join(ts) + (" " + open)) + "\r\n");
            line != "" && ParseLine(line) == Syntax
  {
    hide IsToken, IsVerb, ParseLine, OpenQuote, Trim, Join;
    OpenQuoteTrims(open);
    var text := TrimRight(open);
    var blanks :| AllSpace(blanks) && open == text + blanks;
    var line, tail := verb + (Join(ts) + (" " + text)), blanks + "\r\n";
    OpenTextParses(verb, ts, text);
    OpenLineSplits(verb, Join(ts), text, blanks);
    BlankTail(line, tail);
  }

  lemma OpenLineSplits(verb: string, args: string, text: string, blanks: string)
    ensures verb + (args + (" " + (text + blanks))) + "\r\n" == verb + (args + (" " + text)) + (blanks + "\r\n")
  {
  }

  lemma JoinStarts(ts: seq<string>)
    ensures Join(ts) == "" || Join(ts)[0] == ' '
  {
  }

  lemma BlankTail(s: string, tail: string)
    requires Trimmed(s) && s != "" && AllSpace(tail)
    ensures Trim(s + tail) == s
  {
    assert TrimLeft(s + tail) == s + tail;
    TrimRightEnd(s, tail);
    TrimId(s);
  }

  /** Such a line costs an error, and the connection goes on behind it. */
  lemma UnclosedIsRefused(env: Env, st: State, verb: string, ts: seq<string>, open: string, t: string)
    requires forall k: nat :: env.flushOk(k)
    requires WithinBudget(env, st) && !env.contextDone(st.ticks.looks)
    requires IsVerb(verb) && (forall i | 0 <= i < |ts| :: IsToken(ts[i])) && OpenQuote(open)
    requires var text := verb + (Join(ts) + (" " + open));
             Lacks(text, '\n') && |text| + 2 <= env.options.maxLineLength && st.input.data == text + ("\r\n" + t)
    ensures var (s, more) := Iterate(env, st);
            Turned(env, st, s, more, 0, [Fail(BadSyntax)], 1, false) && s.input.data == t
  {
    hide IsVerb, IsToken, Join, OpenQuote, Trim, ParseLine, ReadLine, Settle, Does, Turned, OnlyReads, WithinBudget,
         Responses.Clean, Lacks;
    var text := verb + (Join(ts) + (" " + open));
    var st0 := LookAtContext(env, st).0;
    ReadsLine(env, st0, text, t);
    OpenLineParses(verb, ts, open);
    var b := ReadLine(env, st0).0;
    assert OnlyReads(st, b) && b.input.data == t by { LineReadOnly(env, st, b); }
    OnlyReadsFields(st, b);
    BudgetOpen(env, st);
    RefuseDoes(env, b, ClientError(b, BadSyntax), Fail(BadSyntax), 1, false);
    FaultIsClean(BadSyntax);
    SettleTurns(env, st, b, ClientError(b, BadSyntax), [Fail(BadSyntax)], 1, false);
  }

  lemma LineReadOnly(env: Env, st: State, b: State)
    requires b == LookAtContext(env, st).0.(input := b.input) && b.input.end == st.input.end
    ensures OnlyReads(st, b)
  {
  }

  // ---------------------------------------------------------------------
  // Blank lines, and the end of the input

  lemma {:induction false} BlankLeft(s: string)
    requires AllSpace(s)
    ensures TrimLeft(s) == ""
  {
    if s != "" {
      BlankLeft(s[1..]);
    }
  }

  lemma BlankTrims(s: string)
    requires AllSpace(s)
    ensures Trim(s) == ""
  {
    BlankLeft(s);
  }

  /** A blank line is read, and that is all. */
  lemma BlankIsSkipped(env: Env, st: State, blanks: string, t: string)
    requires !env.contextDone(st.ticks.looks)
    requires AllSpace(blanks) && Lacks(blanks, '\n') && |blanks| + 2 <= env.options.maxLineLength
    requires st.input.data == blanks + ("\r\n" + t)
    ensures var (s, more) := Iterate(env, st);
            more && s == st.(input := st.input.(data := t), ticks := st.ticks.(looks := st.ticks.looks + 1))
  {
    hide Trim, ReadLine, RunCommand, Settle;
    ReadsLine(env, LookAtContext(env, st).0, blanks, t);
    BlankTrims(blanks + "\r\n");
  }

  /** By the bytes that are left, the last line before the connection ends for want of a command, if there is one. */
  function LastWords(env: Env, st: State): seq<Item>
    requires env.options.maxLineLength >= 0
  {
    var data := st.input.data;
    if env.contextDone(st.ticks.looks + 1) then [Say(if env.absoluteTimeout then ByeAbsolute else ByeShutdown)]
    else if env.options.maxLineLength < |data| && NoLineWithin(data, env.options.maxLineLength) then [Say(NoLineTooLong)]
    else if !Lacks(data, '\n') || (data != "" && st.input.end == Eof) then [Say(NoMissingCRLF)]
    else if st.input.end == Timeout then [Say(if env.absoluteTimeout then ByeAbsolute else ByeIdle)]
    else []
  }

  /** No line that the server takes is at the head of the bytes. */
  ghost predicate NoLineComes(env: Env, st: State) {
    forall text: string :: StartsWithLine(st.input.data, text) ==> |text| > env.options.maxLineLength
  }

  lemma NothingIsRead(env: Env, st: State) returns (e: LineError)
    requires env.options.maxLineLength >= 0 && NoLineComes(env, st)
    ensures FirstLine(st.input, env.options.maxLineLength) == NoLine(e)
  {
    hide FirstLine, StartsWithLine, NoLineWithin;
    var line := FirstLine(st.input, env.options.maxLineLength);
    LineIsExactly(st.input, env.options.maxLineLength, if line.Line? then line.text else "");
    e := if line.NoLine? then line.error else TooLong;
  }

  /** Where no line comes, the connection ends with the one line that says why, or none where nobody is left to read. */
  lemma EndIsTold(env: Env, st: State)
    requires !env.contextDone(st.ticks.looks)
    requires env.options.maxLineLength >= 0 && NoLineComes(env, st)
    ensures var (s, more) := Iterate(env, st);
            !more && s.output == st.output + LastWords(env, st) && s.trace == st.trace
            && s.errorCount == st.errorCount
  {
    hide FirstLine, RunCommand, Settle, Trim, AfterLine, StartsWithLine, NoLineWithin, Lacks, NoLineComes;
    var e := NothingIsRead(env, st);
    LineIsExactly(st.input, env.options.maxLineLength, "");
    WhyNoLine(st.input, env.options.maxLineLength, e);
    assert st.output + [] == st.output;
  }

  lemma WhyNoLine(s: Stream, maxBytes: nat, e: LineError)
    requires FirstLine(s, maxBytes) == NoLine(e)
    ensures e == MissingCRLF <==>
            !(maxBytes < |s.data| && NoLineWithin(s.data, maxBytes))
            && (!Lacks(s.data, '\n') || (s.data != "" && s.end == Eof))
    ensures e.Ended? ==> e == Ended(s.end)
  {
    hide NoLineWithin, StartsWithLine;
    LineIsExactly(s, maxBytes, "");
  }

  /** Once the context is done nothing more is read, whatever is there to read. */
  lemma DoneIsDone(env: Env, st: State)
    requires env.contextDone(st.ticks.looks)
    ensures var (s, more) := Iterate(env, st);
            !more && s.input == st.input && s.trace == st.trace
            && s.output == st.output + [Say(if env.absoluteTimeout then ByeAbsolute else ByeShutdown)]
  {
    hide RunCommand, Settle, Trim, EndOfInput;
  }

  /** A connection goes on behind a command only if its responses could be sent. */
  lemma SettledIsSent(env: Env, s: State, quit: bool)
    ensures Settle(env, s, quit).1 ==> env.flushOk(s.ticks.flushes) && !quit
  {
  }
}
