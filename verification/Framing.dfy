/**
  How a client frames commands, and that the server's command reader recovers
  them: the verb and every argument, in order, with no byte left over, whichever
  way each argument is framed (sections 1.2 and 4 of RFC 5804).
 */
module Framing {
  import opened Text
  import opened Parser
  import opened LineReader
  import opened Protocol
  import opened ConnSpec
  import Sync

  /** A string argument: on the line, or as a literal of either form. */
  datatype Arg = Quoted(value: string) | NonSyncLiteral(value: string) | SyncLiteral(value: string)

  datatype ClientCommand = ClientCommand(verb: string, args: seq<Arg>)

  function Token(a: Arg): string {
    match a
    case Quoted(v) => Quote(v)
    case NonSyncLiteral(v) => PrintMarker(|v|, true)
    case SyncLiteral(v) => PrintMarker(|v|, false)
  }

  /** The arguments of a command up to and including its CRLF. */
  function EncodeArgs(args: seq<Arg>): string {
    if args == [] then "\r\n"
    else " " + (Token(args[0]) + ((if args[0].Quoted? then "" else "\r\n" + args[0].value) + EncodeArgs(args[1..])))
  }

  /** The server does not mind the letter case of a verb. */
  function VerbOf(c: ClientCommand): Verb {
    ReadVerb(ToUpper(c.verb))
  }

  /** What a client writes for a verb (section 2 of RFC 5804, and LOGIN). */
  function VerbName(v: Verb): string
    requires v != UNKNOWN
  {
    match v
    case AUTHENTICATE => "AUTHENTICATE"
    case LOGIN => "LOGIN"
    case LOGOUT => "LOGOUT"
    case STARTTLS => "STARTTLS"
    case CAPABILITY => "CAPABILITY"
    case NOOP => "NOOP"
    case HAVESPACE => "HAVESPACE"
    case PUTSCRIPT => "PUTSCRIPT"
    case CHECKSCRIPT => "CHECKSCRIPT"
    case LISTSCRIPTS => "LISTSCRIPTS"
    case SETACTIVE => "SETACTIVE"
    case GETSCRIPT => "GETSCRIPT"
    case DELETESCRIPT => "DELETESCRIPT"
    case RENAMESCRIPT => "RENAMESCRIPT"
  }

  /** A verb is understood exactly if it is written as its name, in any letter case. */
  lemma VerbIsNamed(text: string, v: Verb)
    requires v != UNKNOWN
    ensures ReadVerb(ToUpper(text)) == v <==> ToUpper(text) == VerbName(v)
  {
    hide ToUpper;
  }

  /** The same letters, but for their case. */
  predicate SameLetters(text: string, name: string) {
    |text| == |name| && forall i | 0 <= i < |name| :: text[i] == name[i] || InLowerCase(text[i], name[i])
  }

  predicate InLowerCase(a: char, b: char) {
    'A' <= b <= 'Z' && a as int == b as int + ('a' as int - 'A' as int)
  }

  /** Letter case is all that upper-casing a verb hides. */
  lemma AnyLetterCase(text: string, name: string)
    requires IsUpper(name)
    ensures ToUpper(text) == name <==> SameLetters(text, name)
  {
    if ToUpper(text) == name {
      assert forall i | 0 <= i < |name| :: name[i] == UpperChar(text[i]);
    }
  }

  predicate Says(c: ClientCommand, name: string) {
    ToUpper(c.verb) == name
  }

  function Encode(c: ClientCommand): string {
    c.verb + EncodeArgs(c.args)
  }

  function Values(args: seq<Arg>): seq<string> {
    if args == [] then [] else [args[0].value] + Values(args[1..])
  }

  // ---------------------------------------------------------------------
  // The lines of a command

  /** The tokens on the first line. */
  function FirstTokens(args: seq<Arg>): seq<string> {
    if args == [] then []
    else if args[0].Quoted? then [Token(args[0])] + FirstTokens(args[1..])
    else [Token(args[0])]
  }

  /** The bytes behind the first line: a literal body and the rest of the command, if any. */
  function Behind(args: seq<Arg>): string {
    if args == [] then ""
    else if args[0].Quoted? then Behind(args[1..])
    else args[0].value + EncodeArgs(args[1..])
  }

  lemma {:induction false} EncodeSplits(args: seq<Arg>)
    ensures EncodeArgs(args) == Join(FirstTokens(args)) + ("\r\n" + Behind(args))
  {
    hide Quote, PrintMarker;
    if args == [] {
      assert "" + ("\r\n" + "") == "\r\n";
    } else if args[0].Quoted? {
      EncodeSplits(args[1..]);
      var t, rest := Token(args[0]), FirstTokens(args[1..]);
      assert ([t] + rest)[1..] == rest;
      var tail := "\r\n" + Behind(args[1..]);
      assert "" + EncodeArgs(args[1..]) == EncodeArgs(args[1..]);
      ConcatAssoc(t, Join(rest), tail);
      ConcatAssoc(" ", t + Join(rest), tail);
    } else {
      var t, v := Token(args[0]), args[0].value;
      var tail := EncodeArgs(args[1..]);
      assert [t][1..] == [] && t + "" == t;
      ConcatAssoc("\r\n", v, tail);
      ConcatAssoc(" ", t, "\r\n" + (v + tail));
    }
  }

  lemma {:induction false} FirstTokensAreTokens(args: seq<Arg>)
    requires forall i | 0 <= i < |args| && args[i].Quoted? :: Lacks(args[i].value, '\n')
    ensures IsTokenList(FirstTokens(args))
    ensures forall i | 0 <= i < |FirstTokens(args)| :: Lacks(FirstTokens(args)[i], '\n')
  {
    hide Quote, PrintMarker;
    if args != [] {
      TokenIsToken(args[0]);
      if args[0].Quoted? {
        FirstTokensAreTokens(args[1..]);
      }
    }
  }

  lemma TokenIsToken(a: Arg)
    requires a.Quoted? ==> Lacks(a.value, '\n')
    ensures IsToken(Token(a)) && Trimmed(Token(a)) && Lacks(Token(a), '\n')
  {
    hide Quote, PrintMarker, IsToken;
    match a
    case Quoted(v) =>
      QuotedIsToken(v);
      QuoteLacks(v, '\n');
    case NonSyncLiteral(v) => MarkerIsToken(|v|, true);
    case SyncLiteral(v) => MarkerIsToken(|v|, false);
  }

  lemma {:induction false} JoinLacks(ts: seq<string>)
    requires forall i | 0 <= i < |ts| :: Lacks(ts[i], '\n')
    ensures Lacks(Join(ts), '\n')
  {
    if ts != [] {
      JoinLacks(ts[1..]);
    }
  }

  /** The tokenizer works on trimmed text. */
  lemma TokensTrim(s: string)
    ensures Tokens(Trim(s)) == Tokens(s)
  {
    hide TokenEnd;
    TrimId(Trim(s));
  }

  /** A line of joined tokens is read back as those tokens. */
  lemma LineTokens(ts: seq<string>)
    requires IsTokenList(ts)
    ensures Tokens(Trim(Join(ts) + "\r\n")) == Some(ts)
  {
    hide IsToken, TokenEnd;
    TokensJoin(ts);
    if ts == [] {
      assert Join(ts) + "\r\n" == "" + "\r\n";
      TrimCRLF("");
      assert Trim(Join(ts)) == "";
    } else {
      var s := ts[0] + Join(ts[1..]);
      JoinTrim(ts);
      assert Join(ts) == " " + s;
      TrimCRLF(s);
      ConcatAssoc(" ", s, "\r\n");
      LeadingSpace(s + "\r\n");
    }
    TokensTrim(Join(ts));
    TokensTrim(Join(ts) + "\r\n");
  }

  lemma LeadingSpace(s: string)
    ensures Trim(" " + s) == Trim(s)
  {
    assert (" " + s)[1..] == s;
  }

  predicate IsVerb(verb: string) {
    verb != "" && forall i | 0 <= i < |verb| :: !IsSpace(verb[i])
  }

  /** A command line is parsed into its verb and tokens. */
  lemma LineParses(verb: string, ts: seq<string>)
    requires IsVerb(verb) && IsTokenList(ts)
    ensures var line := verb + Join(ts);
            && Trim(line + "\r\n") == line && line != ""
            && ParseLine(line) == Command(ToUpper(verb), ts)
  {
    hide IsToken, Tokens;
    var line := verb + Join(ts);
    assert Trimmed(line) by {
      if ts != [] {
        JoinEnd(ts);
      } else {
        assert line == verb;
      }
    }
    TrimCRLF(line);
    TrimId(line);
    VerbEnds(verb, ts);
    assert line[..|verb|] == verb;
    if ts != [] {
      TokensJoin(ts);
      JoinTrim(ts);
      JoinEnd(ts);
      var s := ts[0] + Join(ts[1..]);
      assert line[|verb| + 1..] == s;
      TokensTrim(Join(ts));
      TrimId(s);
    }
  }

  lemma VerbEnds(verb: string, ts: seq<string>)
    requires IsVerb(verb) && IsTokenList(ts)
    ensures IndexOf(verb + Join(ts), ' ') == |verb|
    ensures ts == [] <==> |verb| == |verb + Join(ts)|
  {
    hide IsToken;
    if ts != [] {
      JoinEnd(ts);
    }
    IndexOfAt(verb + Join(ts), ' ', |verb|);
  }

  // ---------------------------------------------------------------------
  // Commands a server accepts

  /** The arguments from position n on fit the server's limits. */
  predicate Fits(env: Env, verb: Verb, n: nat, args: seq<Arg>)
    decreases |args|
  {
    args == [] ||
    match args[0] {
      case Quoted(v) => Lacks(v, '\n') && Fits(env, verb, n + 1, args[1..])
      case _ =>
        var v := args[0].value;
        && |v| <= MAX_INT64
        && if LiteralDeferred(verb, n) then |args| == 1 && Sync.Accepts(env, verb, |v|)
           else |v| <= env.options.maxLineLength
                && |Join(FirstTokens(args[1..]))| + 2 <= env.options.maxLineLength
                && Fits(env, verb, n + 1, args[1..])
    }
  }

  predicate Admissible(env: Env, c: ClientCommand) {
    && IsVerb(c.verb)
    && (forall i | 0 <= i < |c.args| && c.args[i].Quoted? :: Lacks(c.args[i].value, '\n'))
    && |c.verb| + |Join(FirstTokens(c.args))| + 2 <= env.options.maxLineLength
    && Fits(env, VerbOf(c), 0, c.args)
  }

  /** A command whose last argument is its content, sent as a literal behind quoted arguments. */
  predicate EndsInContent(c: ClientCommand) {
    && c.args != [] && !c.args[|c.args| - 1].Quoted? && (forall i | 0 <= i < |c.args| - 1 :: c.args[i].Quoted?)
    && ((Says(c, "PUTSCRIPT") && |c.args| == 2) || (Says(c, "CHECKSCRIPT") && |c.args| == 1)
        || (Says(c, "AUTHENTICATE") && |c.args| == 2))
  }

  /**
    Content may be as long as the server's limit for it, whatever the limit for
    lines: MaxScriptSize for scripts, if there is one, and MaxAuthLiteral for
    responses.
   */
  lemma ContentIsLimited(env: Env, c: ClientCommand)
    requires EndsInContent(c)
    ensures var v := c.args[|c.args| - 1].value;
            Admissible(env, c) <==>
              && IsVerb(c.verb) && |c.verb| + |Join(FirstTokens(c.args))| + 2 <= env.options.maxLineLength
              && (|c.args| == 2 ==> Lacks(c.args[0].value, '\n'))
              && |v| <= MAX_INT64
              && (if Says(c, "AUTHENTICATE") then |v| <= env.options.maxAuthLiteral
                  else env.options.maxScriptSize <= 0 || |v| <= env.options.maxScriptSize)
  {
    hide IsVerb, Join, FirstTokens, ToUpper, Lacks;
    var last := c.args[|c.args| - 1];
    if |c.args| == 2 {
      var rest := c.args[1..];
      assert rest == [last];
      assert Fits(env, VerbOf(c), 1, rest) <==> |last.value| <= MAX_INT64 && Sync.Accepts(env, VerbOf(c), |last.value|);
    }
  }

  /** What the handler is given for args: quoted values, and the marker of a deferred literal. */
  function Resolved(verb: Verb, n: nat, args: seq<Arg>): seq<string>
    decreases |args|
  {
    if args == [] then []
    else if !args[0].Quoted? && LiteralDeferred(verb, n) then [Token(args[0])]
    else [Quote(args[0].value)] + Resolved(verb, n + 1, args[1..])
  }

  /** What is left for the handler to read. */
  function Unread(verb: Verb, n: nat, args: seq<Arg>): string
    decreases |args|
  {
    if args == [] then ""
    else if !args[0].Quoted? && LiteralDeferred(verb, n) then args[0].value + "\r\n"
    else Unread(verb, n + 1, args[1..])
  }

  /** Nothing was written but go-aheads. */
  predicate OnlyPluses(a: seq<Item>, b: seq<Item>) {
    a <= b && forall i | |a| <= i < |b| :: b[i] == Say(Plus)
  }

  /** Only bytes were read, go-aheads written and flushed. */
  predicate OnlyReads(a: State, b: State) {
    && b == a.(input := b.input, output := b.output, ticks := b.ticks) && b.input.end == a.input.end
    && b.ticks.peeks == a.ticks.peeks && OnlyPluses(a.output, b.output)
  }

  // ---------------------------------------------------------------------
  // Go-aheads

  /** A script's content, or the response of AUTHENTICATE: a literal there is left to the command. */
  predicate IsContent(name: string, i: nat) {
    || (name == "PUTSCRIPT" && i == 1)
    || (name == "CHECKSCRIPT" && i == 0)
    || (name == "AUTHENTICATE" && i == 1)
  }

  lemma DeferredIsContent(name: string, i: nat)
    ensures LiteralDeferred(ReadVerb(name), i) <==> IsContent(name, i)
  {
  }

  /** Whether a client has to wait for this argument to be asked for, where the command comes to read it. */
  predicate Waits(verb: Verb, n: nat, arg: Arg, heard: bool) {
    arg.SyncLiteral? && (LiteralDeferred(verb, n) ==> heard && !verb.AUTHENTICATE?)
  }

  /** How many literals of a command the server asks for; content only where the command is heard. */
  function Asked(verb: Verb, n: nat, args: seq<Arg>, heard: bool): nat
    decreases |args|
  {
    if args == [] then 0 else (if Waits(verb, n, args[0], heard) then 1 else 0) + Asked(verb, n + 1, args[1..], heard)
  }

  /** The content argument's share of it. */
  function AskedBehind(verb: Verb, args: seq<Arg>): nat {
    if args != [] && args[|args| - 1].SyncLiteral? && LiteralDeferred(verb, |args| - 1) && !verb.AUTHENTICATE? then 1
    else 0
  }

  lemma {:induction false} AskedSplits(verb: Verb, n: nat, args: seq<Arg>)
    requires forall i | 0 <= i < |args| && !args[i].Quoted? && LiteralDeferred(verb, n + i) :: i == |args| - 1
    ensures Asked(verb, n, args, true) == Asked(verb, n, args, false) +
              if args != [] && args[|args| - 1].SyncLiteral? && LiteralDeferred(verb, n + |args| - 1)
                 && !verb.AUTHENTICATE? then 1 else 0
    decreases |args|
  {
    if args != [] {
      forall i | 0 <= i < |args[1..]| && !args[1..][i].Quoted? && LiteralDeferred(verb, n + 1 + i)
        ensures i == |args[1..]| - 1
      {
        assert args[1..][i] == args[i + 1];
      }
      AskedSplits(verb, n + 1, args[1..]);
    }
  }

  // ---------------------------------------------------------------------
  // Reading

  lemma ReadsLine(env: Env, st: State, text: string, rest: string)
    requires st.input.data == text + ("\r\n" + rest) && Lacks(text, '\n') && |text| + 2 <= env.options.maxLineLength
    ensures ReadLine(env, st) == (st.(input := st.input.(data := rest)), Line(text + "\r\n"))
  {
    var front := text + "\r\n";
    ConcatAssoc(text, "\r\n", rest);
    assert front[..|front| - 1] == text + "\r";
    LineFound(front, rest);
    assert st.input.data[|front| - 2] == '\r' && st.input.data[|front| - 1] == '\n';
  }

  lemma ReadsLiteral(env: Env, st: State, body: string, text: string, rest: string, nonSync: bool, failure: Phrase)
    requires forall k: nat :: env.flushOk(k)
    requires st.input.data == body + (text + ("\r\n" + rest)) && Lacks(text, '\n')
             && |text| + 2 <= env.options.maxLineLength
    ensures var (s, r) := FetchLiteral(env, st, |body|, nonSync, failure);
            && r == Some((body, text + "\r\n")) && OnlyReads(st, s) && s.input.data == rest
            && s.output == st.output + if nonSync then [] else [Say(Plus)]
  {
    hide FirstLine, AfterLine, ReadLine;
    var s1 := GoAhead(env, st, nonSync).0;
    var tail := text + ("\r\n" + rest);
    assert st.input.data[..|body|] == body && st.input.data[|body|..] == tail;
    ReadsLine(env, s1.(input := s1.input.(data := tail)), text, rest);
  }

  predicate Settled(done: seq<string>) {
    done == [] || LiteralLength(done[|done| - 1]).NotLiteral?
  }

  lemma QuotedSettles(done: seq<string>, v: string)
    ensures Settled(done + [Quote(v)])
  {
    hide Quote, LiteralLength;
    QuotedIsNoMarker(v);
  }

  /**
    Resolution picks up where it stands: `done` is resolved, the tokens of the
    current line are the first of args, and the stream is behind that line.
   */
  lemma {:induction false} ResolvesAll(env: Env, st: State, verb: Verb, done: seq<string>, args: seq<Arg>, t: string)
    requires forall k: nat :: env.flushOk(k)
    requires env.options.maxLineLength >= 2
    requires Settled(done) && Fits(env, verb, |done|, args) && st.input.data == Behind(args) + t
    ensures var (s, r) := ResolveLiteralArgs(env, st, verb, done + FirstTokens(args));
            && r == Some(done + Resolved(verb, |done|, args))
            && OnlyReads(st, s) && s.input.data == Unread(verb, |done|, args) + t
            && |s.output| == |st.output| + Asked(verb, |done|, args, false)
    decreases |args|, 1
  {
    hide LiteralLength, Tokens, Trim, Quote, PrintMarker, ResolveLiteralArgs, Join, Settled;
    if args == [] {
      assert done + FirstTokens(args) == done && done + Resolved(verb, |done|, args) == done;
      ResolveSettled(env, st, verb, done);
    } else if args[0].Quoted? {
      var q := Quote(args[0].value);
      QuotedSettles(done, args[0].value);
      ResolvesAll(env, st, verb, done + [q], args[1..], t);
      assert done + ([q] + FirstTokens(args[1..])) == (done + [q]) + FirstTokens(args[1..]);
      assert done + ([q] + Resolved(verb, |done| + 1, args[1..]))
          == (done + [q]) + Resolved(verb, |done| + 1, args[1..]);
    } else {
      ResolvesLiteral(env, st, verb, done, args, t);
    }
  }

  lemma {:induction false} ResolvesLiteral(env: Env, st: State, verb: Verb, done: seq<string>, args: seq<Arg>,
      t: string)
    requires forall k: nat :: env.flushOk(k)
    requires env.options.maxLineLength >= 2 && args != [] && !args[0].Quoted?
    requires Fits(env, verb, |done|, args) && st.input.data == Behind(args) + t
    ensures var (s, r) := ResolveLiteralArgs(env, st, verb, done + [Token(args[0])]);
            && r == Some(done + Resolved(verb, |done|, args))
            && OnlyReads(st, s) && s.input.data == Unread(verb, |done|, args) + t
            && |s.output| == |st.output| + Asked(verb, |done|, args, false)
    decreases |args|, 0
  {
    hide LiteralLength, Tokens, Trim, Quote, PrintMarker, FetchLiteral, ResolveLiteralArgs, RefuseLiteral, ClientError,
         Join, FirstTokens, Settled, Behind, Resolved, Unread, Fits, OnlyReads;
    LiteralStep(env, verb, |done|, args);
    var v, nonSync, tokens := args[0].value, args[0].NonSyncLiteral?, done + [Token(args[0])];
    var marker := LiteralLength(Token(args[0]));
    assert marker == Literal(|v|, nonSync) by { MarkerRoundTrip(|v|, nonSync); }
    ResolveRound(env, st, verb, tokens, |done|, marker);
    if LiteralDeferred(verb, |done|) {
      OnlyReadsSelf(st);
      LastIsUnread(args);
    } else {
      LiteralResolves(env, st, verb, done, args, t);
      var (s, body) := FetchLiteral(env, st, |v|, nonSync, NoLiteralArgument);
      var q := Quote(v);
      assert tokens[|done| := q] == done + [q];
      QuotedSettles(done, v);
      ResolvesAll(env, s, verb, done + [q], args[1..], t);
      OnlyReadsTwice(st, s, ResolveLiteralArgs(env, s, verb, (done + [q]) + FirstTokens(args[1..])).0);
      assert done + ([q] + Resolved(verb, |done| + 1, args[1..]))
          == (done + [q]) + Resolved(verb, |done| + 1, args[1..]);
    }
  }

  lemma OnlyReadsTwice(a: State, b: State, c: State)
    requires OnlyReads(a, b) && OnlyReads(b, c)
    ensures OnlyReads(a, c)
  {
  }

  lemma OnlyReadsSelf(st: State)
    ensures OnlyReads(st, st)
  {
  }

  lemma LiteralStep(env: Env, verb: Verb, n: nat, args: seq<Arg>)
    requires args != [] && !args[0].Quoted? && Fits(env, verb, n, args)
    ensures |args[0].value| <= MAX_INT64
    ensures if LiteralDeferred(verb, n) then
              |args| == 1 && Resolved(verb, n, args) == [Token(args[0])]
                  && Unread(verb, n, args) == args[0].value + "\r\n"
            else
              && Resolved(verb, n, args) == [Quote(args[0].value)] + Resolved(verb, n + 1, args[1..])
              && Unread(verb, n, args) == Unread(verb, n + 1, args[1..])
              && |args[0].value| <= env.options.maxLineLength && Fits(env, verb, n + 1, args[1..])
  {
    hide Quote, Token, Join;
  }

  lemma LastIsUnread(args: seq<Arg>)
    requires |args| == 1 && !args[0].Quoted?
    ensures Behind(args) == args[0].value + "\r\n"
  {
    assert args[1..] == [];
  }

  lemma ResolveSettled(env: Env, st: State, verb: Verb, done: seq<string>)
    requires Settled(done)
    ensures ResolveLiteralArgs(env, st, verb, done) == (st, Some(done))
  {
    hide LiteralLength;
  }

  /** An inline literal is read, and the rest of its line tokenized. */
  lemma LiteralResolves(env: Env, st: State, verb: Verb, done: seq<string>, args: seq<Arg>, t: string)
    requires forall k: nat :: env.flushOk(k)
    requires args != [] && !args[0].Quoted? && !LiteralDeferred(verb, |done|) && Fits(env, verb, |done|, args)
    requires st.input.data == Behind(args) + t
    ensures var (s, body) := FetchLiteral(env, st, |args[0].value|, args[0].NonSyncLiteral?, NoLiteralArgument);
            && body.Some? && body.value.0 == args[0].value && Tokens(Trim(body.value.1)) == Some(FirstTokens(args[1..]))
            && OnlyReads(st, s) && s.input.data == Behind(args[1..]) + t
            && |s.output| == |st.output| + if args[0].SyncLiteral? then 1 else 0
  {
    hide LiteralLength, Tokens, Trim, Quote, PrintMarker, FetchLiteral, IsToken;
    var v, rest := args[0].value, args[1..];
    FitsQuoted(env, verb, |done| + 1, rest);
    FirstTokensAreTokens(rest);
    var text := Join(FirstTokens(rest));
    JoinLacks(FirstTokens(rest));
    EncodeSplits(rest);
    ConcatAssoc(v, EncodeArgs(rest), t);
    ConcatAssoc(text, "\r\n" + Behind(rest), t);
    ConcatAssoc("\r\n", Behind(rest), t);
    ReadsLiteral(env, st, v, text, Behind(rest) + t, args[0].NonSyncLiteral?, NoLiteralArgument);
    LineTokens(FirstTokens(rest));
  }

  lemma {:induction false} FitsQuoted(env: Env, verb: Verb, n: nat, args: seq<Arg>)
    requires Fits(env, verb, n, args)
    ensures forall i | 0 <= i < |args| && args[i].Quoted? :: Lacks(args[i].value, '\n')
    decreases |args|
  {
    hide Lacks, Join;
    if args != [] {
      if args[0].Quoted? || !LiteralDeferred(verb, n) {
        FitsQuoted(env, verb, n + 1, args[1..]);
        assert forall i | 1 <= i < |args| :: args[i] == args[1..][i - 1];
      }
    }
  }

  /** A command line, read and resolved up to what its handler has to read. */
  lemma CommandResolves(env: Env, st: State, c: ClientCommand, t: string)
    requires forall k: nat :: env.flushOk(k)
    requires Admissible(env, c) && st.input.data == Encode(c) + t
    ensures var (s, line) := ReadLine(env, st);
            && line.Line? && Trim(line.text) != ""
               && ParseLine(Trim(line.text)) == Command(ToUpper(c.verb), FirstTokens(c.args))
            && OnlyReads(st, s) && s.output == st.output
            && var verb := VerbOf(c);
               var (s', r) := ResolveLiteralArgs(env, s, verb, FirstTokens(c.args));
               && r == Some(Resolved(verb, 0, c.args))
               && OnlyReads(st, s') && s'.input.data == Unread(verb, 0, c.args) + t
               && |s'.output| == |st.output| + Asked(verb, 0, c.args, false)
  {
    hide Tokens, Trim, ParseLine, Quote, PrintMarker, IsToken, ReadVerb, ResolveLiteralArgs, ReadLine, Join;
    var ts := FirstTokens(c.args);
    FirstTokensAreTokens(c.args);
    JoinLacks(ts);
    EncodeSplits(c.args);
    var text, tail := c.verb + Join(ts), Behind(c.args) + t;
    ConcatAssoc(c.verb, Join(ts), "\r\n" + Behind(c.args));
    ConcatAssoc(text, "\r\n" + Behind(c.args), t);
    ConcatAssoc("\r\n", Behind(c.args), t);
    assert Lacks(text, '\n');
    ReadsLine(env, st, text, tail);
    LineParses(c.verb, ts);
    var s := ReadLine(env, st).0;
    assert [] + ts == ts && [] + Resolved(VerbOf(c), 0, c.args) == Resolved(VerbOf(c), 0, c.args);
    ResolvesAll(env, s, VerbOf(c), [], c.args, t);
  }

  /** Any command line of a verb and tokens, as the server and as the client sees it. */
  lemma TokensLine(env: Env, st: State, verb: string, ts: seq<string>, behind: string)
    requires IsVerb(verb) && IsTokenList(ts) && forall i | 0 <= i < |ts| :: Lacks(ts[i], '\n')
    requires |verb + Join(ts)| + 2 <= env.options.maxLineLength
    requires st.input.data == verb + Join(ts) + ("\r\n" + behind)
    ensures var text := verb + Join(ts);
            && ReadLine(env, st) == (st.(input := st.input.(data := behind)), Line(text + "\r\n"))
            && Trim(text + "\r\n") == text && text != "" && ParseLine(text) == Command(ToUpper(verb), ts)
            && Sync.NextLine(st.input.data) == Some((text + "\r\n", behind))
  {
    hide IsToken, Tokens, Trim, ParseLine, Join, ReadLine, ToUpper, Sync.NextLine;
    var text := verb + Join(ts);
    JoinLacks(ts);
    assert Lacks(text, '\n');
    ReadsLine(env, st, text, behind);
    LineParses(verb, ts);
    assert Sync.NextLine(st.input.data) == Some((text + "\r\n", behind)) by { ClientLine(text, behind); }
  }

  lemma ClientLine(text: string, behind: string)
    requires Lacks(text, '\n')
    ensures Sync.NextLine(text + ("\r\n" + behind)) == Some((text + "\r\n", behind))
  {
    var front := text + "\r\n";
    ConcatAssoc(text, "\r\n", behind);
    assert front[..|front| - 1] == text + "\r";
    LineFound(front, behind);
  }

  // ---------------------------------------------------------------------
  // The client's own view

  /** How many go-aheads a client waits for while it sends args, which are at positions n and on. */
  function GoAheads(rule: Sync.Rule, verb: Verb, n: nat, args: seq<Arg>): nat
    decreases |args|
  {
    if args == [] then 0
    else
      (if args[0].SyncLiteral? && !Sync.SentAtOnce(rule, verb, n + 1) then 1 else 0)
      + GoAheads(rule, verb, n + 1, args[1..])
  }

  predicate Sendable(args: seq<Arg>) {
    forall i | 0 <= i < |args| :: if args[i].Quoted? then Lacks(args[i].value, '\n') else |args[i].value| <= MAX_INT64
  }

  /** Behind its first line a command ends where its last argument does. */
  lemma {:induction false} EncodedArgsEnd(rule: Sync.Rule, verb: Verb, n: nat, args: seq<Arg>, t: string)
    requires Sendable(args)
    ensures Sync.ArgsEnd(rule, verb, n, FirstTokens(args), Behind(args) + t, GoAheads(rule, verb, n, args)) == Some(t)
    decreases |args|
  {
    hide LiteralLength, Tokens, Trim, Quote, PrintMarker, Join, IsToken, Sync.ArgsEnd, Sync.NextLine, Lacks;
    var pluses := GoAheads(rule, verb, n, args);
    if args == [] {
      assert "" + t == t;
      Sync.ArgsEndNothing(rule, verb, n, t, pluses);
    } else {
      EncodedArgsEnd(rule, verb, n + 1, args[1..], t);
      if args[0].Quoted? {
        QuotedFirst(rule, verb, n, args, Behind(args) + t, pluses);
      } else {
        LiteralFirst(rule, verb, n, args, t);
      }
    }
  }

  lemma QuotedFirst(rule: Sync.Rule, verb: Verb, n: nat, args: seq<Arg>, data: string, pluses: int)
    requires args != [] && args[0].Quoted?
    ensures Sync.ArgsEnd(rule, verb, n, FirstTokens(args), data, pluses)
            == Sync.ArgsEnd(rule, verb, n + 1, FirstTokens(args[1..]), data, pluses)
  {
    hide LiteralLength, Quote, PrintMarker, Sync.ArgsEnd;
    var ts, more := FirstTokens(args), FirstTokens(args[1..]);
    if more == [] {
      QuotedIsNoMarker(args[0].value);
      Sync.ArgsEndNoLiteral(rule, verb, n, ts, data, pluses);
      Sync.ArgsEndNothing(rule, verb, n + 1, data, pluses);
    } else {
      Sync.ArgsEndOfLast(rule, verb, n, ts, data, pluses);
      Sync.ArgsEndOfLast(rule, verb, n + 1, more, data, pluses);
    }
  }

  lemma LiteralFirst(rule: Sync.Rule, verb: Verb, n: nat, args: seq<Arg>, t: string)
    requires args != [] && !args[0].Quoted? && Sendable(args)
    ensures Sync.ArgsEnd(rule, verb, n, FirstTokens(args), Behind(args) + t, GoAheads(rule, verb, n, args))
            == Sync.ArgsEnd(rule, verb, n + 1, FirstTokens(args[1..]), Behind(args[1..]) + t,
                GoAheads(rule, verb, n + 1, args[1..]))
  {
    hide LiteralLength, Tokens, Trim, Quote, PrintMarker, Join, IsToken, Sync.NextLine, Lacks;
    var v, rest := args[0].value, args[1..];
    var ts, text := FirstTokens(rest), Join(FirstTokens(rest));
    MarkerRoundTrip(|v|, args[0].NonSyncLiteral?);
    EncodeSplits(rest);
    ConcatAssoc(v, EncodeArgs(rest), t);
    ConcatAssoc(text, "\r\n" + Behind(rest), t);
    ConcatAssoc("\r\n", Behind(rest), t);
    var data := Behind(args) + t;
    assert data[|v|..] == text + ("\r\n" + (Behind(rest) + t));
    FirstTokensAreTokens(rest);
    JoinLacks(ts);
    ClientLine(text, Behind(rest) + t);
    LineTokens(ts);
  }

  /** By the client's own commitments, an encoded command ends where its encoding does, whoever sends what when. */
  lemma EncodedEnds(rule: Sync.Rule, c: ClientCommand, t: string)
    requires IsVerb(c.verb) && Sendable(c.args)
    ensures Sync.CommandEnd(rule, Encode(c) + t, GoAheads(rule, VerbOf(c), 0, c.args), false) == Some(t)
  {
    hide Tokens, Trim, ParseLine, Quote, PrintMarker, IsToken, ReadVerb, Join, Sync.ArgsEnd, Sync.NextLine, ToUpper,
         Lacks, IsVerb;
    var ts := FirstTokens(c.args);
    FirstTokensAreTokens(c.args);
    JoinLacks(ts);
    EncodeSplits(c.args);
    var text := c.verb + Join(ts);
    ConcatAssoc(c.verb, Join(ts), "\r\n" + Behind(c.args));
    ConcatAssoc(text, "\r\n" + Behind(c.args), t);
    ConcatAssoc("\r\n", Behind(c.args), t);
    assert Lacks(text, '\n') by { VerbLacks(c.verb, Join(ts)); }
    ClientLine(text, Behind(c.args) + t);
    LineParses(c.verb, ts);
    EncodedArgsEnd(rule, VerbOf(c), 0, c.args, t);
  }

  lemma VerbLacks(verb: string, s: string)
    requires IsVerb(verb) && Lacks(s, '\n')
    ensures Lacks(verb + s, '\n')
  {
  }

  // ---------------------------------------------------------------------
  // The command reader

  /** What a handler makes of an argument: quoted text, or a literal it reads itself. */
  function ReadArgument(env: Env, st: State, verb: Verb, arg: string): (State, Option<string>) {
    if verb.AUTHENTICATE? then AuthString(env, st, arg) else ReadScriptArgument(env, st, arg)
  }

  /** The last of the resolved arguments is a content argument, read here; the others are quoted. */
  function FinishArgs(env: Env, st: State, verb: Verb, args: seq<string>): (State, Option<seq<string>>) {
    if args == [] then (st, Some([]))
    else
      var front, last := args[..|args| - 1], args[|args| - 1];
      var quoted := seq(|front|, i requires 0 <= i < |front| => Unquote(front[i]));
      if LiteralDeferred(verb, |args| - 1) then
        var (s, text) := ReadArgument(env, st, verb, last);
        (s, if text == None then None else Some(quoted + [text.value]))
      else (st, Some(quoted + [Unquote(last)]))
  }

  /** Reads one whole command: its verb and the values of all its arguments. */
  function ReadCommand(env: Env, st: State): (State, Option<(string, seq<string>)>) {
    var (s, line) := ReadLine(env, st);
    if line.NoLine? then (s, None)
    else
      match ParseLine(Trim(line.text))
      case Syntax => (s, None)
      case Command(cmd, tokens) =>
        var (s1, args) := ResolveLiteralArgs(env, s, ReadVerb(cmd), tokens);
        if args == None then (s1, None)
        else
          var (s2, values) := FinishArgs(env, s1, ReadVerb(cmd), args.value);
          (s2, if values == None then None else Some((cmd, values.value)))
  }

  function ReadCommands(env: Env, st: State, n: nat): (State, Option<seq<(string, seq<string>)>>)
    decreases n
  {
    if n == 0 then (st, Some([]))
    else
      var (s, first) := ReadCommand(env, st);
      if first == None then (s, None)
      else
        var (s', rest) := ReadCommands(env, s, n - 1);
        (s', if rest == None then None else Some([first.value] + rest.value))
  }

  function EncodeAll(cs: seq<ClientCommand>): string {
    if cs == [] then "" else Encode(cs[0]) + EncodeAll(cs[1..])
  }

  function Meant(cs: seq<ClientCommand>): seq<(string, seq<string>)> {
    if cs == [] then [] else [(ToUpper(cs[0].verb), Values(cs[0].args))] + Meant(cs[1..])
  }

  lemma {:induction false} ResolvedShape(verb: Verb, n: nat, args: seq<Arg>)
    requires forall i | 0 <= i < |args| && !args[i].Quoted? && LiteralDeferred(verb, n + i) :: i == |args| - 1
    ensures |Resolved(verb, n, args)| == |args| == |Values(args)|
    ensures forall i | 0 <= i < |args| :: Values(args)[i] == args[i].value
    ensures forall i | 0 <= i < |args| ::
              Resolved(verb, n, args)[i] ==
              if !args[i].Quoted? && LiteralDeferred(verb, n + i) then Token(args[i]) else Quote(args[i].value)
    decreases |args|
  {
    hide Quote, PrintMarker, Token;
    if args != [] {
      if !args[0].Quoted? && LiteralDeferred(verb, n) {
        assert |args| == 1;
      } else {
        forall i | 0 <= i < |args[1..]| && !args[1..][i].Quoted? && LiteralDeferred(verb, n + 1 + i)
          ensures i == |args[1..]| - 1
        {
          assert args[1..][i] == args[i + 1];
        }
        ResolvedShape(verb, n + 1, args[1..]);
      }
    }
  }

  lemma {:induction false} DeferredIsLast(env: Env, verb: Verb, n: nat, args: seq<Arg>)
    requires Fits(env, verb, n, args)
    ensures forall i | 0 <= i < |args| && !args[i].Quoted? && LiteralDeferred(verb, n + i) ::
              i == |args| - 1 && |args[i].value| <= MAX_INT64 && Sync.Accepts(env, verb, |args[i].value|)
    ensures forall i | 0 <= i < |args| - 1 && !args[i].Quoted? :: !LiteralDeferred(verb, n + i)
    decreases |args|
  {
    hide Lacks, Join;
    if args != [] && (args[0].Quoted? || !LiteralDeferred(verb, n)) {
      DeferredIsLast(env, verb, n + 1, args[1..]);
      assert forall i | 1 <= i < |args| :: args[i] == args[1..][i - 1];
    }
  }

  lemma {:induction false} UnreadIs(verb: Verb, n: nat, args: seq<Arg>)
    requires forall i | 0 <= i < |args| && !args[i].Quoted? && LiteralDeferred(verb, n + i) :: i == |args| - 1
    ensures Unread(verb, n, args) ==
            if args != [] && !args[|args| - 1].Quoted? && LiteralDeferred(verb, n + |args| - 1)
            then args[|args| - 1].value + "\r\n" else ""
    decreases |args|
  {
    if args != [] && !(!args[0].Quoted? && LiteralDeferred(verb, n)) {
      forall i | 0 <= i < |args[1..]| && !args[1..][i].Quoted? && LiteralDeferred(verb, n + 1 + i)
        ensures i == |args[1..]| - 1
      {
        assert args[1..][i] == args[i + 1];
      }
      UnreadIs(verb, n + 1, args[1..]);
    }
  }

  /** A handler's own argument: the value, however it was framed. */
  lemma ArgumentRead(env: Env, st: State, verb: Verb, arg: Arg, t: string)
    requires forall k: nat :: env.flushOk(k)
    requires env.options.maxLineLength >= 2
    requires !arg.Quoted? ==> |arg.value| <= MAX_INT64 && Sync.Accepts(env, verb, |arg.value|)
    requires st.input.data == (if arg.Quoted? then "" else arg.value + "\r\n") + t
    ensures var (s, r) := ReadArgument(env, st, verb, if arg.Quoted? then Quote(arg.value) else Token(arg));
            r == Some(arg.value) && OnlyReads(st, s) && s.input.data == t
            && (arg.Quoted? ==> s == st) && (verb.AUTHENTICATE? ==> s.output == st.output)
            && |s.output| == |st.output| + if arg.SyncLiteral? && !verb.AUTHENTICATE? then 1 else 0
  {
    hide LiteralLength, Unquote, Quote, PrintMarker, FetchLiteral, RefuseLiteral, ClientError;
    var v := arg.value;
    if arg.Quoted? {
      QuotedIsNoMarker(v);
      UnquoteQuote(v);
      assert "" + t == t;
    } else {
      MarkerRoundTrip(|v|, arg.NonSyncLiteral?);
      ConcatAssoc(v, "\r\n", t);
      assert "" + ("\r\n" + t) == "\r\n" + t;
      var nonSync := verb.AUTHENTICATE? || arg.NonSyncLiteral?;
      ReadsLiteral(env, st, v, "", t, nonSync, if verb.AUTHENTICATE? then NoAuthFailed else NoLiteralContent);
    }
  }

  /** What a handler is given for a command: quoted values, but for a content literal that is yet to be read. */
  predicate Given(verb: Verb, args: seq<Arg>, given: seq<string>) {
    && |given| == |args| == |Values(args)|
    && (forall i | 0 <= i < |args| :: Values(args)[i] == args[i].value)
    && (forall i | 0 <= i < |args| ::
          given[i] == if !args[i].Quoted? && LiteralDeferred(verb, i) then Token(args[i]) else Quote(args[i].value))
  }

  /** A content literal comes last, and the server takes it. */
  predicate ContentFits(env: Env, verb: Verb, args: seq<Arg>) {
    forall i | 0 <= i < |args| && !args[i].Quoted? && LiteralDeferred(verb, i) ::
      i == |args| - 1 && |args[i].value| <= MAX_INT64 && Sync.Accepts(env, verb, |args[i].value|)
  }

  /** What a handler has yet to read of a command. */
  function Tail(verb: Verb, args: seq<Arg>): string {
    if args != [] && !args[|args| - 1].Quoted? && LiteralDeferred(verb, |args| - 1) then
      args[|args| - 1].value + "\r\n"
    else ""
  }

  lemma ResolvedIsGiven(env: Env, c: ClientCommand)
    requires Admissible(env, c)
    ensures var verb := VerbOf(c);
            && Given(verb, c.args, Resolved(verb, 0, c.args))
            && Unread(verb, 0, c.args) == Tail(verb, c.args)
            && ContentFits(env, verb, c.args)
            && env.options.maxLineLength >= 2
  {
    hide Quote, Token, Fits, Resolved, Unread, VerbOf, Values, Sync.Accepts;
    AdmissibleFits(env, c);
    var verb := VerbOf(c);
    DeferredIsLast(env, verb, 0, c.args);
    ResolvedShape(verb, 0, c.args);
    UnreadIs(verb, 0, c.args);
  }

  /**
    One command: whatever mixture of quoted strings and literals carries its
    arguments, the reader returns the verb and the values and stops at the first
    byte of the next command.
   */
  lemma CommandRoundTrip(env: Env, st: State, c: ClientCommand, t: string)
    requires forall k: nat :: env.flushOk(k)
    requires Admissible(env, c) && st.input.data == Encode(c) + t
    ensures var (s, r) := ReadCommand(env, st);
            r == Some((ToUpper(c.verb), Values(c.args))) && OnlyReads(st, s) && s.input.data == t
  {
    hide ReadCommand, Encode, Resolved, Unread, Values, Admissible, FinishArgs, OnlyReads, VerbOf, Given, ContentFits,
         Tail, ToUpper;
    ResolvedIsGiven(env, c);
    var s1 := CommandOpens(env, st, c, t);
    var given := Resolved(VerbOf(c), 0, c.args);
    FinishesArgs(env, s1, VerbOf(c), c.args, given, t);
    OnlyReadsTwice(st, s1, FinishArgs(env, s1, VerbOf(c), given).0);
  }

  /** The reader has resolved a command, and is about to read what is left of it. */
  lemma CommandOpens(env: Env, st: State, c: ClientCommand, t: string) returns (s: State)
    requires forall k: nat :: env.flushOk(k)
    requires Admissible(env, c) && st.input.data == Encode(c) + t
    ensures OnlyReads(st, s) && s.input.data == Unread(VerbOf(c), 0, c.args) + t
    ensures var (s2, values) := FinishArgs(env, s, VerbOf(c), Resolved(VerbOf(c), 0, c.args));
            ReadCommand(env, st) == (s2, if values == None then None else Some((ToUpper(c.verb), values.value)))
  {
    hide Trim, ParseLine, ReadVerb, ResolveLiteralArgs, ReadLine, FirstTokens, Encode, Resolved, Unread, Admissible,
         FinishArgs, OnlyReads, ToUpper;
    CommandResolves(env, st, c, t);
    s := ResolveLiteralArgs(env, ReadLine(env, st).0, VerbOf(c), FirstTokens(c.args)).0;
  }

  lemma AdmissibleFits(env: Env, c: ClientCommand)
    requires Admissible(env, c)
    ensures Fits(env, VerbOf(c), 0, c.args) && env.options.maxLineLength >= 2
  {
    hide Fits, VerbOf;
  }

  lemma FinishesArgs(env: Env, st: State, verb: Verb, args: seq<Arg>, given: seq<string>, t: string)
    requires forall k: nat :: env.flushOk(k)
    requires env.options.maxLineLength >= 2 && Given(verb, args, given) && ContentFits(env, verb, args)
    requires st.input.data == Tail(verb, args) + t
    ensures var (s, r) := FinishArgs(env, st, verb, given);
            r == Some(Values(args)) && OnlyReads(st, s) && s.input.data == t
  {
    hide Quote, Token, Unquote, ReadArgument, Values;
    assert "" + t == t;
    if args != [] {
      var n := |args| - 1;
      forall i | 0 <= i < |args| ensures Unquote(Quote(args[i].value)) == args[i].value {
        UnquoteQuote(args[i].value);
      }
      if LiteralDeferred(verb, n) {
        ArgumentRead(env, st, verb, args[n], t);
      }
      assert Values(args) == Values(args)[..n] + [args[n].value];
      var front := given[..n];
      assert seq(|front|, i requires 0 <= i < |front| => Unquote(front[i])) == Values(args)[..n];
    } else {
      assert Values(args) == [];
    }
  }

  /**
    The whole stream: for every list of commands and every choice of framing,
    the reader recovers exactly that list, and no byte is left over.
   */
  lemma {:induction false} StreamRoundTrip(env: Env, st: State, cs: seq<ClientCommand>)
    requires forall k: nat :: env.flushOk(k)
    requires forall i | 0 <= i < |cs| :: Admissible(env, cs[i])
    requires st.input.data == EncodeAll(cs)
    ensures var (s, r) := ReadCommands(env, st, |cs|);
            r == Some(Meant(cs)) && s.input.data == ""
    decreases |cs|
  {
    hide ReadCommand, Encode, Admissible, Values;
    if cs != [] {
      CommandRoundTrip(env, st, cs[0], EncodeAll(cs[1..]));
      StreamRoundTrip(env, ReadCommand(env, st).0, cs[1..]);
    }
  }
}