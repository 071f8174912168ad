/**
  Commands that are more than their strings: HAVESPACE with its bare number, the
  challenge of AUTHENTICATE, and STARTTLS. Again from the bytes of a client to
  what it reads.
 */
module Exchanges {
  import opened Text
  import opened Parser
  import opened LineReader
  import opened Protocol
  import opened ConnSpec
  import opened Serving
  import opened Framing
  import opened Outcomes
  import opened Calls
  import Client
  import Responses

  // ---------------------------------------------------------------------
  // HAVESPACE, whose size is a number and not a string

  /** The bytes of the command, its name in any framing and its size as it stands. */
  function SpaceQuery(verb: string, name: Arg, size: string): string {
    if name.Quoted? then verb + Join([Token(name), size]) + "\r\n"
    else verb + Join([Token(name)]) + ("\r\n" + (name.value + (Join([size]) + "\r\n")))
  }

  predicate QueryFits(env: Env, verb: string, name: Arg, size: string) {
    var limit := env.options.maxLineLength;
    if name.Quoted? then Lacks(name.value, '\n') && |verb + Join([Token(name), size])| + 2 <= limit
    else |name.value| <= MAX_INT64 && |name.value| <= limit
         && |verb + Join([Token(name)])| + 2 <= limit && |Join([size])| + 2 <= limit
  }

  /** One token that is no string of either kind. */
  predicate BareWord(text: string) {
    text != "" && text[0] != '"' && LiteralLength(text).NotLiteral? && forall i | 0 <= i < |text| :: !IsSpace(text[i])
  }

  lemma BareIsToken(text: string)
    requires BareWord(text)
    ensures IsToken(text) && Trimmed(text) && Lacks(text, '\n') && LiteralLength(text).NotLiteral?
  {
    hide LiteralLength;
  }

  lemma SizeIsBare(size: nat)
    ensures BareWord(Decimal(size))
  {
    hide Decimal, Value;
    var d := Decimal(size);
    assert forall i | 0 <= i < |d| :: !IsSpace(d[i]) && d[i] != '"' && d[i] != '{';
  }

  lemma SpaceDoes(env: Env, st: State, name: string, size: string)
    requires st.authenticated && !st.hijacked
    ensures var (s, quit) := Dispatch(env, st, HAVESPACE, [Quote(name), size]);
            Does(env, st, s, quit, OutcomeOf(env, st, WantedSpace(env, name, size))) && s.input == st.input
  {
    hide Quote, Number, Trim, CallForLine, Name, Does, OutcomeOf, ClientError, QuotaMaxSize;
    NameOfQuoted(name);
    FaultDoes(env, st, BadScriptSize);
    match Number(size)
    case None =>
    case Some(n) =>
      if 0 < env.options.maxScriptSize < n {
        SizeDoes(env, st, n);
      } else {
        LineCall(env, st, HaveSpace(Trim(name), n), OkBare);
      }
  }

  /** The go-ahead for a name that waits to be asked for. */
  function Asks(name: Arg): nat {
    if name.SyncLiteral? then 1 else 0
  }

  /** What follows the command line is resolved to the name and the size. */
  ghost predicate SpaceOpened(env: Env, st: State, name: string, size: string, t: string, s: State) {
    var (s1, line) := ReadLine(env, st);
    && line.Line? && Trim(line.text) != ""
    && (var parsed := ParseLine(Trim(line.text));
        && parsed.Command? && ReadVerb(parsed.verb) == HAVESPACE
        && ResolveLiteralArgs(env, s1, HAVESPACE, parsed.args) == (s, Some([Quote(name), size])))
    && OnlyReads(st, s) && s.input.data == t
  }

  lemma QuotedSpaceOpens(env: Env, st: State, verb: string, name: Arg, size: string, t: string) returns (s: State)
    requires IsVerb(verb) && ToUpper(verb) == "HAVESPACE" && BareWord(size)
    requires QueryFits(env, verb, name, size) && name.Quoted?
    requires st.input.data == SpaceQuery(verb, name, size) + t
    ensures SpaceOpened(env, st, name.value, size, t, s) && |s.output| == |st.output| + Asks(name)
  {
    hide Quote, Join, Tokens, Trim, ParseLine, ReadLine, ToUpper, IsToken, IsVerb, LiteralLength, PrintMarker, Lacks,
         ResolveLiteralArgs, BareWord;
    BareIsToken(size);
    TokenIsToken(name);
    var ts := [Token(name), size];
    ConcatAssoc(verb + Join(ts), "\r\n", t);
    TokensLine(env, st, verb, ts, t);
    s := ReadLine(env, st).0;
    ResolveSettled(env, s, HAVESPACE, ts);
  }

  /** Behind a literal name, the rest of its line is the size. */
  lemma SizeFollows(env: Env, st: State, name: Arg, size: string, t: string) returns (s: State)
    requires forall k: nat :: env.flushOk(k)
    requires BareWord(size) && !name.Quoted? && |Join([size])| + 2 <= env.options.maxLineLength
    requires |name.value| <= MAX_INT64 && |name.value| <= env.options.maxLineLength
    requires st.input.data == name.value + (Join([size]) + ("\r\n" + t))
    ensures ResolveLiteralArgs(env, st, HAVESPACE, [Token(name)]) == (s, Some([Quote(name.value), size]))
    ensures OnlyReads(st, s) && s.input.data == t && |s.output| == |st.output| + Asks(name)
  {
    hide Quote, Join, Tokens, Trim, ReadLine, IsToken, LiteralLength, PrintMarker, Lacks, ResolveLiteralArgs,
         FetchLiteral, ClientError, RefuseLiteral, OnlyReads;
    var v, nonSync := name.value, name.NonSyncLiteral?;
    assert IsToken(size) && Lacks(size, '\n') && LiteralLength(size).NotLiteral? by { BareIsToken(size); }
    MarkerRoundTrip(|v|, nonSync);
    JoinLacks([size]);
    ReadsLiteral(env, st, v, Join([size]), t, nonSync, NoLiteralArgument);
    s := FetchLiteral(env, st, |v|, nonSync, NoLiteralArgument).0;
    LineTokens([size]);
    assert [Token(name)][0 := Quote(v)] + [size] == [Quote(v), size];
    ResolveRound(env, st, HAVESPACE, [Token(name)], 0, Literal(|v|, nonSync));
    ResolveSettled(env, s, HAVESPACE, [Quote(v), size]);
  }

  lemma LiteralSpaceOpens(env: Env, st: State, verb: string, name: Arg, size: string, t: string) returns (s: State)
    requires forall k: nat :: env.flushOk(k)
    requires IsVerb(verb) && ToUpper(verb) == "HAVESPACE" && BareWord(size)
    requires QueryFits(env, verb, name, size) && !name.Quoted?
    requires st.input.data == SpaceQuery(verb, name, size) + t
    ensures SpaceOpened(env, st, name.value, size, t, s) && |s.output| == |st.output| + Asks(name)
  {
    hide Quote, Join, Tokens, Trim, ParseLine, ReadLine, ToUpper, IsToken, IsVerb, LiteralLength, PrintMarker, Lacks,
         ResolveLiteralArgs, BareWord;
    TokenIsToken(name);
    var tail := Join([size]) + ("\r\n" + t);
    LiteralQuery(verb + Join([Token(name)]), name.value, Join([size]), t);
    TokensLine(env, st, verb, [Token(name)], name.value + tail);
    s := SizeFollows(env, ReadLine(env, st).0, name, size, t);
  }

  lemma LiteralQuery(front: string, v: string, last: string, t: string)
    ensures front + ("\r\n" + (v + (last + "\r\n"))) + t == front + ("\r\n" + (v + (last + ("\r\n" + t))))
  {
    ConcatAssoc(last, "\r\n", t);
    ConcatAssoc(v, last + "\r\n", t);
    ConcatAssoc("\r\n", v + (last + "\r\n"), t);
    ConcatAssoc(front, "\r\n" + (v + (last + "\r\n")), t);
  }

  lemma SpaceIsProper(env: Env, st: State, name: string, size: string)
    ensures Proper(env, st, WantedSpace(env, name, size))
  {
    hide Number, Trim;
  }

  /**
    HAVESPACE with its name in any framing and any bare word for a size: a number
    an int64 holds reaches the session as it was written or is refused for its
    size, anything else is no size; and the client reads which.
   */
  lemma HaveSpaceIsServed(env: Env, st: State, verb: string, name: Arg, size: string, t: string)
    requires forall k: nat :: env.flushOk(k)
    requires forall k: nat :: !env.contextDone(k)
    requires WithinBudget(env, st) && st.authenticated
    requires IsVerb(verb) && ToUpper(verb) == "HAVESPACE" && BareWord(size) && QueryFits(env, verb, name, size)
    requires st.input.data == SpaceQuery(verb, name, size) + t
    ensures var w := WantedSpace(env, name.value, size);
            var (s, more) := Iterate(env, st);
            && Served(env, st, s, more, Going(OutcomeOf(env, st, w), Asks(name)))
            && s.input.data == t && RequestRead(env, st, s, w) && (more ==> WithinBudget(env, s))
  {
    hide Quote, Trim, ParseLine, ReadLine, ReadVerb, ToUpper, IsVerb, SpaceQuery, ResolveLiteralArgs, OnlyReads, Does,
         Served, Settle, Dispatch, WithinBudget, WantedSpace, OutcomeOf, RequestRead, Proper, BareWord, QueryFits;
    var w := WantedSpace(env, name.value, size);
    var st0 := LookAtContext(env, st).0;
    assert OnlyReads(st, st0) && st0.input == st.input by { LookOnly(env, st); }
    var s;
    if name.Quoted? {
      s := QuotedSpaceOpens(env, st0, verb, name, size, t);
    } else {
      s := LiteralSpaceOpens(env, st0, verb, name, size, t);
    }
    OnlyReadsTwice(st, st0, s);
    OnlyReadsFields(st, s);
    BudgetOpen(env, st);
    SpaceDoes(env, s, name.value, size);
    var (r, quit) := Dispatch(env, s, HAVESPACE, [Quote(name.value), size]);
    GoingNowhere(OutcomeOf(env, s, w));
    ReadsThenDoes(env, st, s, r, quit, w, 0);
    SettleServes(env, st, r, quit, Going(OutcomeOf(env, st, w), Asks(name)));
    SpaceIsProper(env, st, name.value, size);
    ServedIsRead(env, st, Iterate(env, st).0, Iterate(env, st).1, w, Asks(name));
  }

  /** A size a client prints in decimal is the size the session is asked about. */
  lemma DecimalIsWanted(env: Env, name: string, size: nat)
    requires size <= MAX_INT64
    ensures BareWord(Decimal(size))
    ensures WantedSpace(env, name, Decimal(size))
            == if 0 < env.options.maxScriptSize < size then Complain(DenySize(size, env.options.maxScriptSize))
               else Ask(HaveSpace(Trim(name), size))
  {
    hide Decimal, Value, Trim, BareWord;
    SizeIsBare(size);
    assert Number(Decimal(size)) == Some(size);
  }

  // ---------------------------------------------------------------------
  // The challenge of AUTHENTICATE

  /** What a client sends when it is challenged: a string, a text as it stands, or that it gives up. */
  datatype Reaction = Framed(arg: Arg) | Bare(text: string) | Cancel

  /** White space around the answer, on its line. */
  datatype Padding = Padding(before: string, after: string)

  /** The answer on its line. */
  function ReactionText(r: Reaction): string {
    match r
    case Framed(arg) => Token(arg)
    case Bare(text) => text
    case Cancel => "*"
  }

  function ReactionLine(p: Padding, r: Reaction): string {
    p.before + ReactionText(r) + p.after
  }

  function ReactionBody(r: Reaction): string {
    if r.Framed? && !r.arg.Quoted? then r.arg.value + "\r\n" else ""
  }

  function ReactionBytes(p: Padding, r: Reaction): string {
    ReactionLine(p, r) + ("\r\n" + ReactionBody(r))
  }

  predicate IsPadding(p: Padding) {
    AllSpace(p.before) && AllSpace(p.after) && Lacks(p.before, '\n') && Lacks(p.after, '\n')
  }

  /** A text that stands for itself. */
  predicate PlainText(text: string) {
    Trimmed(text) && Lacks(text, '\n') && LiteralLength(text).NotLiteral? && !HasQuotes(text) && text != "*"
  }

  predicate ReactionFits(env: Env, p: Padding, r: Reaction) {
    && IsPadding(p) && |ReactionLine(p, r)| + 2 <= env.options.maxLineLength
    && match r {
      case Framed(arg) =>
        if arg.Quoted? then Lacks(arg.value, '\n')
        else |arg.value| <= MAX_INT64 && |arg.value| <= env.options.maxAuthLiteral
      case Bare(text) => PlainText(text)
      case Cancel => true
    }
  }

  function WantedReaction(env: Env, r: Reaction): Request {
    match r
    case Framed(arg) => WantedPlain(env, arg.value)
    case Bare(text) => WantedPlain(env, text)
    case Cancel => Complain(Say(NoAuthCancelled))
  }

  lemma {:induction false} BlanksInFront(before: string, s: string)
    requires AllSpace(before)
    ensures TrimLeft(before + s) == TrimLeft(s)
  {
    if before == "" {
      assert before + s == s;
    } else {
      assert (before + s)[1..] == before[1..] + s;
      BlanksInFront(before[1..], s);
    }
  }

  lemma PaddingIsTrimmed(before: string, text: string, after: string)
    requires AllSpace(before) && AllSpace(after) && Trimmed(text)
    ensures Trim(before + text + after) == text
  {
    BlanksInFront(before, text + after);
    assert before + text + after == before + (text + after);
    if text == "" {
      assert text + after == after + "";
      BlanksInFront(after, "");
    } else {
      assert TrimLeft(text + after) == text + after;
      TrimRightEnd(text, after);
      TrimId(text);
    }
  }

  lemma ReactionIsText(env: Env, p: Padding, r: Reaction)
    requires ReactionFits(env, p, r)
    ensures Trimmed(ReactionText(r)) && Lacks(ReactionText(r), '\n') && (ReactionText(r) == "*" <==> r.Cancel?)
  {
    hide Quote, PrintMarker, LiteralLength, IsToken;
    if r.Framed? {
      TokenIsToken(r.arg);
      TokenIsNoStar(r.arg);
    }
  }

  lemma ReactionIsLine(env: Env, p: Padding, r: Reaction)
    requires ReactionFits(env, p, r)
    ensures var line := ReactionLine(p, r);
            && Trim(line + "\r\n") == ReactionText(r)
            && Lacks(line, '\n') && |line| + 2 <= env.options.maxLineLength
            && (ReactionText(r) == "*" <==> r.Cancel?)
  {
    hide ReactionText, Trim;
    ReactionIsText(env, p, r);
    var text := ReactionText(r);
    PaddingIsTrimmed(p.before, text, p.after + "\r\n");
    assert p.before + text + (p.after + "\r\n") == ReactionLine(p, r) + "\r\n";
  }

  lemma TokenIsNoStar(arg: Arg)
    ensures Token(arg) != "*"
  {
    hide Quote, Decimal;
    QuoteShape(arg.value);
  }

  lemma BareIsItself(text: string)
    requires PlainText(text)
    ensures LiteralLength(text).NotLiteral? && Unquote(text) == text
  {
  }

  /** The exchange behind the command line: the challenge goes out, and the value comes in. */
  lemma ReactionIsRead(env: Env, st: State, p: Padding, r: Reaction, t: string)
    requires forall k: nat :: env.flushOk(k)
    requires ReactionFits(env, p, r) && st.input.data == ReactionBytes(p, r) + t
    ensures var (s, data) := AuthChallenge(env, st);
            && s == st.(input := s.input, output := s.output, ticks := s.ticks) && s.input.data == t
            && match r {
              case Framed(arg) => data == Some(arg.value) && s.output == st.output + [Say(Challenge)]
              case Bare(text) => data == Some(text) && s.output == st.output + [Say(Challenge)]
              case Cancel => data == None && s.output == st.output + [Say(Challenge), Say(NoAuthCancelled)]
            }
  {
    hide LiteralLength, Quote, Unquote, PrintMarker, Trim, ReadLine, FetchLiteral, ClientError, PlainText, AuthString,
         ReactionLine, Token;
    var text, line, body := ReactionText(r), ReactionLine(p, r), ReactionBody(r);
    ReactionIsLine(env, p, r);
    assert ReactionBytes(p, r) == line + ("\r\n" + body);
    ConcatAssoc(line, "\r\n" + body, t);
    ConcatAssoc("\r\n", body, t);
    var s1 := Flush(env, SayTo(st, Challenge)).0;
    ReadsLine(env, s1, line, body + t);
    var s2 := ReadLine(env, s1).0;
    assert "" + t == t;
    match r
    case Framed(arg) =>
      ReactionArgument(env, s2, p, arg, t);
    case Bare(_) =>
      assert AuthString(env, s2, text) == (s2, Some(text)) by { BareArgument(env, s2, text); }
    case Cancel =>
      assert st.output + [Say(Challenge)] + [Say(NoAuthCancelled)]
          == st.output + [Say(Challenge), Say(NoAuthCancelled)];
  }

  lemma BareArgument(env: Env, st: State, text: string)
    requires PlainText(text)
    ensures AuthString(env, st, text) == (st, Some(text))
  {
    hide LiteralLength, Unquote, FetchLiteral;
    BareIsItself(text);
  }

  lemma PaddedLength(p: Padding, r: Reaction)
    ensures |ReactionLine(p, r)| >= |ReactionText(r)|
  {
  }

  lemma ReactionArgument(env: Env, st: State, p: Padding, arg: Arg, t: string)
    requires forall k: nat :: env.flushOk(k)
    requires ReactionFits(env, p, Framed(arg)) && st.input.data == ReactionBody(Framed(arg)) + t
    ensures var (s, data) := AuthString(env, st, ReactionText(Framed(arg)));
            && s == st.(input := s.input, ticks := s.ticks) && s.input.data == t && data == Some(arg.value)
  {
    hide Quote, PrintMarker, AuthString, OnlyReads;
    PaddedLength(p, Framed(arg));
    ArgumentRead(env, st, AUTHENTICATE, arg, t);
    var (s, data) := AuthString(env, st, ReactionText(Framed(arg)));
    OnlyReadsFields(st, s);
  }

  /** The challenge goes before whatever comes of the answer. */
  function Challenged(o: Outcome): Outcome {
    o.(items := [Say(Challenge)] + o.items)
  }

  lemma BehindChallenge(env: Env, a: State, b: State, s: State, o: Outcome)
    requires b == a.(input := b.input, output := a.output + [Say(Challenge)], ticks := b.ticks)
    requires Does(env, b, s, false, o) && s.output == b.output + o.items && o.goAheads == 0
    ensures Does(env, a, s, false, Challenged(o))
  {
    assert s.output == a.output + Challenged(o).items;
    AddsHere(a.output, Challenged(o).items);
  }

  lemma AsksNothing(env: Env, st: State, w: Request)
    ensures OutcomeOf(env, st, w).goAheads == 0
  {
  }

  lemma CancelDoes(env: Env, st: State)
    requires !st.hijacked
    ensures Does(env, st, SayTo(st, NoAuthCancelled), false, OutcomeOf(env, st, Complain(Say(NoAuthCancelled))))
  {
    AddsHere(st.output, [Say(NoAuthCancelled)]);
  }

  lemma ReactionDoes(env: Env, st: State, given: seq<string>, p: Padding, r: Reaction,
      t: string)
    requires forall k: nat :: env.flushOk(k)
    requires MayAuthenticate(env, st) && !st.hijacked
    requires |given| == 1 && ToUpper(Unquote(given[0])) == "PLAIN"
    requires ReactionFits(env, p, r) && st.input.data == ReactionBytes(p, r) + t
    ensures var (s, quit) := Dispatch(env, st, AUTHENTICATE, given);
            Does(env, st, s, quit, Challenged(OutcomeOf(env, st, WantedReaction(env, r)))) && s.input.data == t && !quit
  {
    hide Unquote, ToUpper, AuthChallenge, PlainLogin, Does, OutcomeOf, WantedPlain, ReactionFits, ReactionBytes;
    var w := WantedReaction(env, r);
    AsksNothing(env, st, w);
    ReactionIsRead(env, st, p, r, t);
    var (s, data) := AuthChallenge(env, st);
    if data.Some? {
      SameOutcome(env, s, st, w);
      PlainDoes(env, s, data.value);
      BehindChallenge(env, st, s, PlainLogin(env, s, data.value), OutcomeOf(env, st, w));
    } else {
      var b := s.(output := st.output + [Say(Challenge)]);
      assert s == SayTo(b, NoAuthCancelled);
      SameOutcome(env, b, st, w);
      CancelDoes(env, b);
      assert OutcomeOf(env, st, w).items == [Say(NoAuthCancelled)] by { CancelWrites(env, st); }
      BehindChallenge(env, st, b, s, OutcomeOf(env, st, w));
    }
  }

  lemma CancelWrites(env: Env, st: State)
    ensures OutcomeOf(env, st, Complain(Say(NoAuthCancelled)))
            == Outcome([], [Say(NoAuthCancelled)], 0, false, st.authenticated, false, 0)
  {
  }

  /** Behind go-aheads a client reads the challenge, and then what came of its answer. */
  ghost predicate ReactionRead(env: Env, st: State, s: State, w: Request) {
    |st.output| <= |s.output| &&
    exists rs: seq<Responses.Response> ::
      Understood(env, st, w, rs)
      && Hears(Heard(st, s), [Responses.Row("\"\"")] + rs, Exhausts(env, st, OutcomeOf(env, st, w)))
  }

  lemma ChallengeIsRead(env: Env, st: State, s: State, more: bool, w: Request, n: nat)
    requires Proper(env, st, w) && Served(env, st, s, more, Going(Challenged(OutcomeOf(env, st, w)), n))
    ensures ReactionRead(env, st, s, w)
  {
    hide Understood, Responses.Meanings, Responses.Clean, Hears, Proper, OutcomeOf, Pluses;
    var o := OutcomeOf(env, st, w);
    var items := [Say(Challenge)] + o.items;
    RequestIsClean(env, st, w);
    RequestIsUnderstood(env, st, w);
    ChallengeMeans();
    assert Responses.Meanings(items) == [Responses.Row("\"\"")] + Responses.Meanings(o.items)
        by { FirstMeaning(Say(Challenge), o.items); }
    AddedIsHeard(st.output, s.output, o.goAheads + n, items, Exhausts(env, st, o));
  }

  lemma FirstMeaning(item: Item, items: seq<Item>)
    ensures Responses.Meanings([item] + items) == [Responses.Meaning(item)] + Responses.Meanings(items)
  {
    hide Responses.Meaning;
    assert ([item] + items)[1..] == items;
  }

  lemma ChallengeMeans()
    ensures Responses.Clean(Say(Challenge)) && Responses.Meaning(Say(Challenge)) == Responses.Row("\"\"")
  {
  }

  lemma ReactionIsProper(env: Env, st: State, r: Reaction)
    ensures Proper(env, st, WantedReaction(env, r))
  {
    hide WantedPlain;
    match r
    case Framed(arg) => PlainIsProper(env, st, arg.value);
    case Bare(text) => PlainIsProper(env, st, text);
    case Cancel =>
  }

  lemma AsksOne(c: ClientCommand)
    requires |c.args| == 1
    ensures Says(c, "AUTHENTICATE") ==> Asked(VerbOf(c), 0, c.args, false) == Asks(c.args[0])
  {
    hide ToUpper;
    assert c.args[1..] == [];
  }

  lemma OneQuoted(c: ClientCommand)
    requires Says(c, "AUTHENTICATE") && |c.args| == 1 && Given(VerbOf(c), c.args, Resolved(VerbOf(c), 0, c.args))
    ensures VerbOf(c) == AUTHENTICATE && Tail(AUTHENTICATE, c.args) == ""
    ensures Resolved(AUTHENTICATE, 0, c.args) == [Quote(c.args[0].value)]
  {
    hide Quote, Token, ToUpper, Values, Resolved;
    VerbIsNamed(c.verb, AUTHENTICATE);
    assert !LiteralDeferred(AUTHENTICATE, 0);
  }

  /**
    AUTHENTICATE PLAIN without an initial response: the client is challenged, and
    the value it answers with, quoted, literal or bare, is tried just as an
    initial response would be. Giving up makes no call and costs nothing. Either
    way the next command starts behind the answer.
   */
  lemma ChallengeIsAnswered(env: Env, st: State, c: ClientCommand, p: Padding, r: Reaction, t: string)
    requires forall k: nat :: env.flushOk(k)
    requires forall k: nat :: !env.contextDone(k)
    requires WithinBudget(env, st) && MayAuthenticate(env, st)
    requires Says(c, "AUTHENTICATE") && |c.args| == 1 && ToUpper(c.args[0].value) == "PLAIN" && Admissible(env, c)
    requires ReactionFits(env, p, r) && st.input.data == Encode(c) + (ReactionBytes(p, r) + t)
    ensures var w := WantedReaction(env, r);
            var (s, more) := Iterate(env, st);
            && Served(env, st, s, more, Going(Challenged(OutcomeOf(env, st, w)), Asks(c.args[0]))) && s.input.data == t
            && ReactionRead(env, st, s, w) && (more ==> WithinBudget(env, s))
  {
    hide Iterate, Encode, Admissible, Dispatch, Settle, VerbOf, Resolved, Unread, Values, OutcomeOf, Served, Does,
         OnlyReads, Given, ContentFits, WithinBudget, Tail, ToUpper, ReactionFits, ReactionBytes, WantedReaction,
         ReactionRead, Proper, Challenged, Quote, Unquote;
    var w := WantedReaction(env, r);
    var s0 := TurnDispatches(env, st, c, ReactionBytes(p, r) + t);
    OnlyReadsFields(st, s0);
    BudgetOpen(env, st);
    ResolvedIsGiven(env, c);
    OneQuoted(c);
    UnquoteQuote(c.args[0].value);
    assert "" + (ReactionBytes(p, r) + t) == ReactionBytes(p, r) + t;
    var given := Resolved(AUTHENTICATE, 0, c.args);
    ReactionDoes(env, s0, given, p, r, t);
    SameOutcome(env, s0, st, w);
    var (s1, quit) := Dispatch(env, s0, AUTHENTICATE, given);
    assert |s0.output| == |st.output| + Asks(c.args[0]) by { AsksOne(c); }
    ReadsThenMakes(env, st, s0, s1, quit, Challenged(OutcomeOf(env, st, w)));
    SettleServes(env, st, s1, quit, Going(Challenged(OutcomeOf(env, st, w)), Asks(c.args[0])));
    ReactionIsProper(env, st, r);
    ChallengeIsRead(env, st, Iterate(env, st).0, Iterate(env, st).1, w, Asks(c.args[0]));
  }

  /** An answer that decodes to the PLAIN message of three fields has the session asked about exactly these. */
  lemma AnswerIsTried(env: Env, r: Reaction, authzId: string, authnId: string, password: string)
    requires Lacks(authzId, '\U{00}') && Lacks(authnId, '\U{00}') && Lacks(password, '\U{00}')
    ensures WantedReaction(env, r) == Try(AuthenticatePlain(authzId, authnId, password))
            <==> password != "" && !r.Cancel?
                 && env.decodeBase64(if r.Framed? then r.arg.value else ReactionText(r))
                    == Some(PlainMessage(authzId, authnId, password))
  {
    hide PlainMessage, WantedPlain, Lacks, Token;
    match r
    case Framed(arg) => PlainIsWanted(env, arg.value, authzId, authnId, password);
    case Bare(text) => PlainIsWanted(env, text, authzId, authnId, password);
    case Cancel =>
  }

  // ---------------------------------------------------------------------
  // STARTTLS

  predicate MayUpgrade(env: Env, st: State) {
    env.options.tlsConfigured && !st.isTLS && !st.authenticated
  }

  /** The capabilities again, as they are behind TLS; nothing hints at STARTTLS there. */
  function SecureGreeting(o: Options): seq<Item> {
    Client.ListingItems(o, true, Greeting(false, o.greeting))
  }

  /**
    Behind n go-aheads, the connection has moved to the stream behind the
    handshake, with nothing else about it changed.
   */
  predicate Upgraded(env: Env, st: State, s: State, more: bool, n: nat) {
    && env.tls == Some(s.input) && s.isTLS && more
    && s.trace == st.trace + [TLSStarted]
    && s.output == st.output + (Pluses(n) + ([Say(OkBeginTLS)] + SecureGreeting(env.options)))
    && s.errorCount == st.errorCount && !s.authenticated && !s.hijacked && !s.closePending
  }

  /** STARTTLS refused, or with no handshake behind it: the connection ends. */
  function Parting(phrase: Phrase): Outcome {
    Outcome([], [Say(phrase)], 0, true, false, false, 0)
  }

  lemma PartingDoes(env: Env, st: State, s: State, phrase: Phrase)
    requires !st.authenticated && !st.hijacked
    requires s == st.(output := st.output + [Say(phrase)], ticks := s.ticks)
    ensures Does(env, st, s, true, Parting(phrase))
  {
    AddsHere(st.output, [Say(phrase)]);
  }

  /** The handshake is begun only with an empty buffer behind the command. */
  lemma TLSDoes(env: Env, st: State)
    requires forall k: nat :: env.flushOk(k)
    requires MayUpgrade(env, st) && !st.hijacked
    ensures var (s, quit) := HandleStartTLS(env, st);
            if env.buffered(st.ticks.peeks) then Does(env, st, s, quit, Parting(NoPipelinedTLS))
            else if env.tls == None then Does(env, st, s, quit, Parting(OkBeginTLS))
            else
              && !quit && env.tls == Some(s.input)
              && s == st.(input := s.input, isTLS := true, trace := st.trace + [TLSStarted], ticks := s.ticks,
                          output := st.output + ([Say(OkBeginTLS)] + SecureGreeting(env.options)))
  {
    hide Does, Capabilities, AdvertisedAll, ClientError;
    var (s, quit) := HandleStartTLS(env, st);
    if env.buffered(st.ticks.peeks) {
      PartingDoes(env, st, s, NoPipelinedTLS);
    } else if env.tls == None {
      PartingDoes(env, st, s, OkBeginTLS);
    } else {
      var listed := AdvertisedAll(Capabilities(env.options, true));
      var last := Greeting(false, env.options.greeting);
      assert st.output + [Say(OkBeginTLS)] + listed + [last] == st.output + ([Say(OkBeginTLS)] + (listed + [last]));
    }
  }

  lemma UpgradeSettles(env: Env, st: State, s0: State, s1: State)
    requires forall k: nat :: env.flushOk(k)
    requires WithinBudget(env, st) && OnlyReads(st, s0) && !st.authenticated && env.tls == Some(s1.input)
    requires |st.output| <= |s0.output|
    requires s1 == s0.(input := s1.input, isTLS := true, trace := s0.trace + [TLSStarted], ticks := s1.ticks,
                       output := s0.output + ([Say(OkBeginTLS)] + SecureGreeting(env.options)))
    ensures var (s, more) := Settle(env, s1, false);
            Upgraded(env, st, s, more, |s0.output| - |st.output|) && WithinBudget(env, s)
  {
    hide OnlyPluses, Pluses, SecureGreeting;
    OnlyReadsFields(st, s0);
    AddsHere(s0.output, [Say(OkBeginTLS)] + SecureGreeting(env.options));
    AddsBehind(st.output, s0.output, s1.output, 0, [Say(OkBeginTLS)] + SecureGreeting(env.options));
  }

  /**
    STARTTLS where it is allowed: with anything buffered behind it, it is refused
    and the connection ends, for what was sent in the clear must not run behind
    TLS; otherwise the connection goes on over the new stream alone, as it was but
    for TLS, with the capabilities announced again.
   */
  lemma StartTLSIsAnswered(env: Env, st: State, c: ClientCommand, t: string)
    requires forall k: nat :: env.flushOk(k)
    requires forall k: nat :: !env.contextDone(k)
    requires WithinBudget(env, st) && MayUpgrade(env, st)
    requires Says(c, "STARTTLS") && Admissible(env, c) && st.input.data == Encode(c) + t
    ensures var (s, more) := Iterate(env, st);
            var n := Asked(VerbOf(c), 0, c.args, true);
            if env.buffered(st.ticks.peeks) then Served(env, st, s, more, Going(Parting(NoPipelinedTLS), n))
            else if env.tls == None then Served(env, st, s, more, Going(Parting(OkBeginTLS), n))
            else Upgraded(env, st, s, more, n) && WithinBudget(env, s)
  {
    hide Iterate, Encode, Admissible, HandleStartTLS, Settle, VerbOf, Resolved, Unread, Served, Does, OnlyReads,
         WithinBudget, Parting, Upgraded, SecureGreeting, ToUpper;
    var s0 := TurnDispatches(env, st, c, t);
    OnlyReadsFields(st, s0);
    BudgetOpen(env, st);
    assert VerbOf(c) == STARTTLS by { StartTLSNamed(c); }
    var n := Asked(VerbOf(c), 0, c.args, true);
    assert |s0.output| == |st.output| + n by { AskedSplits(STARTTLS, 0, c.args); }
    TLSDoes(env, s0);
    var (s1, quit) := HandleStartTLS(env, s0);
    if env.buffered(st.ticks.peeks) {
      ReadsThenMakes(env, st, s0, s1, quit, Parting(NoPipelinedTLS));
      SettleServes(env, st, s1, quit, Going(Parting(NoPipelinedTLS), n));
    } else if env.tls == None {
      ReadsThenMakes(env, st, s0, s1, quit, Parting(OkBeginTLS));
      SettleServes(env, st, s1, quit, Going(Parting(OkBeginTLS), n));
    } else {
      UpgradeSettles(env, st, s0, s1);
    }
  }

  lemma StartTLSNamed(c: ClientCommand)
    requires Says(c, "STARTTLS")
    ensures VerbOf(c) == STARTTLS
  {
    hide ToUpper;
  }

  /**
    What a client reads of it: in the clear, OK and nothing behind it; over TLS,
    the capabilities that hold there, and the greeting.
   */
  lemma UpgradeIsRead(env: Env, st: State, s: State, more: bool, k: nat, tail: string, end: End, maxLine: int,
      maxCaps: nat)
    requires Upgraded(env, st, s, more, k) && Responses.CleanOptions(env.options)
    requires var items := SecureGreeting(env.options);
             |items| <= maxCaps && forall item | item in items :: |LineOf(item)| <= maxLine
    ensures var n := |s.output| - |SecureGreeting(env.options)|;
            && |st.output| <= n
            && Hears(Responses.ReadResponses(Render(s.output[|st.output|..n])), [Responses.Meaning(Say(OkBeginTLS))],
                     false)
            && Client.ReadBlock(Stream(Render(s.output[n..]) + tail, end), maxLine, maxCaps, map[])
               == (Client.Listing(Client.LearnAll(map[], Capabilities(env.options, true)),
                                  "OK " + env.options.greeting),
                   Stream(tail, end))
  {
    hide Hears, Responses.ReadResponses, Render, Responses.Meaning, Responses.CleanOptions, Client.ReadBlock, LineOf,
         Client.LearnAll, Capabilities, Client.IsStatus, Phrase.Text, Pluses;
    var listing, last := SecureGreeting(env.options), Greeting(false, env.options.greeting);
    var n := |s.output| - |listing|;
    assert s.output[n..] == listing && s.output[..n] == st.output + (Pluses(k) + [Say(OkBeginTLS)])
        by { FrontAdds(st.output, s.output, Pluses(k), [Say(OkBeginTLS)], listing); }
    assert s.output[..n][|st.output|..] == s.output[|st.output|..n];
    assert Responses.Clean(Say(OkBeginTLS)) by { BeginIsClean(); }
    assert [Say(OkBeginTLS)] + [] == [Say(OkBeginTLS)];
    AddedIsHeard(st.output, s.output[..n], k, [Say(OkBeginTLS)], false);
    OneMeaning(Say(OkBeginTLS));
    Client.GreetingIsStatus(false, env.options.greeting);
    Client.GreetingLineClean(env.options, false);
    Client.ListingRoundTrip(env.options, true, last, tail, end, maxLine, maxCaps);
    assert LineOf(last) == "OK " + env.options.greeting by { PlainGreeting(env.options.greeting); }
  }

  lemma PlainGreeting(text: string)
    ensures LineOf(Greeting(false, text)) == "OK " + text
  {
  }

  lemma BeginIsClean()
    ensures Responses.Clean(Say(OkBeginTLS))
  {
    hide Responses.IsRow, Phrase.Text;
    Responses.PhraseIsRow(OkBeginTLS);
  }

  lemma FrontAdds(a: seq<Item>, b: seq<Item>, pluses: seq<Item>, first: seq<Item>, last: seq<Item>)
    requires b == a + (pluses + (first + last))
    ensures var n := |b| - |last|; b[n..] == last && b[..n] == a + (pluses + first)
  {
  }
}
