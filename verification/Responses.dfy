/**
  What a client makes of the bytes a server writes: lines and literals, exactly
  the ones that were written, whatever sessions put into their texts.
 */
module Responses {
  import opened Text
  import opened Parser
  import opened LineReader
  import opened Protocol
  import opened ConnSpec
  import opened Effects
  import opened Serving

  // ---------------------------------------------------------------------
  // A client's reading of the stream

  datatype Response = Row(text: string) | Content(bytes: string)

  /** Splits a stream into lines and literals; None when it breaks off or is malformed. */
  function ReadResponses(bytes: string): Option<seq<Response>>
    decreases |bytes|
  {
    if bytes == "" then Some([])
    else
      var n := LineLength(bytes);
      if n < 2 || bytes[n - 2..n] != "\r\n" then None
      else
        var line, rest := bytes[..n - 2], bytes[n..];
        match LiteralLength(line)
        case Literal(length, false) =>
          if length + 2 > |rest| || rest[length..length + 2] != "\r\n" then None
          else Cons(Content(rest[..length]), ReadResponses(rest[length + 2..]))
        case _ => Cons(Row(line), ReadResponses(rest))
  }

  function Cons(r: Response, more: Option<seq<Response>>): Option<seq<Response>> {
    if more == None then None else Some([r] + more.value)
  }

  function Meaning(item: Item): Response {
    if item.Blob? then Content(item.content) else Row(LineOf(item))
  }

  function Meanings(items: seq<Item>): seq<Response> {
    if items == [] then [] else [Meaning(items[0])] + Meanings(items[1..])
  }

  // ---------------------------------------------------------------------
  // Every response is one unambiguous line

  predicate CleanCapability(c: Capability) {
    Lacks(c.name, '\n') && Lacks(c.value, '\n')
  }

  /** The texts the operator configures contain no line feed. */
  predicate CleanOptions(o: Options) {
    && Lacks(o.greeting, '\n') && Lacks(o.implementation, '\n')
    && (forall i | 0 <= i < |o.sieveExtensions| :: Lacks(o.sieveExtensions[i], '\n'))
    && (forall i | 0 <= i < |o.extraCapabilities| :: CleanCapability(o.extraCapabilities[i]))
  }

  /** A line no reader splits, and none takes for a literal. */
  predicate IsRow(text: string) {
    Lacks(text, '\n') && text != "" && text[0] != '{'
  }

  predicate Clean(item: Item) {
    if item.Blob? then |item.content| <= MAX_INT64 else IsRow(LineOf(item))
  }

  lemma NoControlLacks(s: string)
    requires NoControl(s)
    ensures Lacks(s, '\n')
  {
  }

  lemma SafeQuote(s: string)
    ensures Lacks(Quote(SanitizeText(s)), '\n') && Quote(SanitizeText(s)) != "" && Quote(SanitizeText(s))[0] == '"'
  {
    hide Quote, SanitizeText;
    NoControlLacks(SanitizeText(s));
    QuoteLacks(SanitizeText(s), '\n');
    QuoteShape(SanitizeText(s));
  }

  lemma NoLineIsRow(msg: string)
    ensures IsRow(NoLineText(msg))
  {
  }

  lemma ShortPhrases()
    ensures forall p: Phrase | p.Plus? || p.Challenge? || p.OkBare? || p.OkAuthenticated? || p.OkGoodbye?
            || p.OkBeginTLS?
                               || p.OkStored? || p.OkUpdated? || p.OkDeleted? :: IsRow(p.Text())
  {
  }

  lemma LongPhrases1()
    ensures IsRow(NoLiteralArgument.Text()) && IsRow(NoLiteralContent.Text())
  {
  }

  lemma LongPhrases2()
    ensures IsRow(NoAuthFailed.Text()) && IsRow(NoEmptyPassword.Text()) && IsRow(NoAuthCancelled.Text())
    ensures IsRow(NoInternal.Text())
  {
  }

  lemma LongPhrases3()
    ensures IsRow(NoPipelinedTLS.Text()) && IsRow(NoLineTooLong.Text())
  {
  }

  lemma LongPhrases4()
    ensures IsRow(NoMissingCRLF.Text()) && IsRow(ByeErrors.Text())
  {
  }

  lemma LongPhrases5()
    ensures IsRow(ByeAbsolute.Text())
  {
  }

  lemma LongPhrases6()
    ensures IsRow(ByeIdle.Text())
  {
  }

  lemma LongPhrases7()
    ensures IsRow(ByeShutdown.Text())
  {
  }

  lemma PhraseIsRow(p: Phrase)
    ensures IsRow(p.Text())
  {
    hide IsRow, Phrase.Text;
    ShortPhrases();
    LongPhrases1();
    LongPhrases2();
    LongPhrases3();
    LongPhrases4();
    LongPhrases5();
    LongPhrases6();
    LongPhrases7();
  }

  lemma {:induction false} JoinedLacks(words: seq<string>)
    requires forall i | 0 <= i < |words| :: Lacks(words[i], '\n')
    ensures Lacks(JoinWithSpaces(words), '\n')
  {
    if |words| > 1 {
      JoinedLacks(words[1..]);
    }
  }

  lemma CapabilitiesClean(o: Options, isTLS: bool)
    requires CleanOptions(o)
    ensures forall c | c in Capabilities(o, isTLS) :: CleanCapability(c)
  {
    hide BaseCapabilities, SecurityCapabilities, SizeCapability, CleanCapability;
    BaseClean(o);
    SecurityClean(o, isTLS);
  }

  lemma BaseClean(o: Options)
    requires CleanOptions(o)
    ensures forall c | c in BaseCapabilities(o) :: CleanCapability(c)
  {
    hide JoinWithSpaces;
    JoinedLacks(o.sieveExtensions);
  }

  lemma SecurityClean(o: Options, isTLS: bool)
    ensures forall c | c in SecurityCapabilities(o, isTLS) :: CleanCapability(c)
    ensures forall c | c in SizeCapability(o) :: CleanCapability(c)
  {
    hide Decimal;
  }

  lemma CapabilityIsRow(c: Capability)
    requires CleanCapability(c)
    ensures IsRow(CapabilityLine(c))
  {
    hide Quote;
    QuoteLacks(c.name, '\n');
    QuoteLacks(c.value, '\n');
    QuoteShape(c.name);
  }

  /** Whatever texts a session supplies, each response the library writes is one line of its own. */
  lemma ItemIsClean(o: Options, item: Item)
    requires CleanOptions(o) && FromOptions(o, item)
    requires item.Blob? ==> |item.content| <= MAX_INT64
    ensures Clean(item)
  {
    hide Quote, SanitizeText, StripCRLF, WireMessage, SizeMessage, IsRow, Capabilities, CapabilityLine, NoLineText,
         Phrase.Text, Fault.Message;
    match item
    case Say(phrase) => PhraseIsRow(phrase);
    case Fail(fault) => NoLineIsRow(Quote(SanitizeText(fault.Message())));
    case Deny(text) => NoLineIsRow(text);
    case DenyCoded(code, message) => NoLineIsRow(WireMessage(code, message));
    case DenySize(size, limit) => NoLineIsRow(WireMessage("QUOTA/MAXSIZE", SizeMessage(size, limit)));
    case Warnings(text) => WarningsIsRow(text);
    case Tag(text) => TagIsRow(text);
    case Listed(script) => ListedIsRow(script);
    case Advertised(c) =>
      CapabilitiesClean(o, true);
      CapabilitiesClean(o, false);
      CapabilityIsRow(c);
    case Greeting(hint, text) => GreetingIsRow(hint, text);
    case Blob(_) =>
  }

  lemma WarningsIsRow(text: string)
    ensures IsRow("OK (WARNINGS) " + Quote(SanitizeText(text)))
  {
    hide Quote, SanitizeText;
    SafeQuote(text);
  }

  lemma TagIsRow(text: string)
    ensures IsRow("OK (TAG " + Quote(SanitizeText(text)) + ") \"Done\"")
  {
    hide Quote, SanitizeText;
    SafeQuote(text);
  }

  lemma ListedIsRow(script: ScriptInfo)
    ensures IsRow(ListLine(script))
  {
    hide Quote, SanitizeText;
    SafeQuote(script.name);
  }

  lemma GreetingIsRow(hint: bool, text: string)
    requires Lacks(text, '\n')
    ensures IsRow((if hint then "OK (STARTTLS) " else "OK ") + text)
  {
  }

  // ---------------------------------------------------------------------
  // Reading back what was written

  lemma DecimalMarker(n: nat)
    requires n <= MAX_INT64
    ensures LiteralLength("{" + Decimal(n) + "}") == Literal(n, false)
    ensures Lacks("{" + Decimal(n) + "}", '\n')
  {
    hide Decimal, LiteralLength;
    assert Decimal(n) + "" == Decimal(n);
    assert "{" + Decimal(n) + "}" == PrintMarker(n, false);
    MarkerRoundTrip(n, false);
    MarkerIsToken(n, false);
  }

  lemma RowRead(text: string, rest: string)
    requires IsRow(text)
    ensures ReadResponses(text + "\r\n" + rest) == Cons(Row(text), ReadResponses(rest))
  {
    hide LiteralLength;
    var front := text + "\r\n";
    assert front[..|front| - 1] == text + "\r";
    LineFound(front, rest);
    var s := front + rest;
    assert s[..|front| - 2] == text && s[|front| - 2..|front|] == "\r\n" && s[|front|..] == rest;
    assert LiteralLength(text).NotLiteral? by { NoBraceNoMarker(text); }
  }

  lemma NoBraceNoMarker(text: string)
    requires text == "" || text[0] != '{'
    ensures LiteralLength(text).NotLiteral?
  {
  }

  lemma BlobRead(content: string, rest: string)
    requires |content| <= MAX_INT64
    ensures ReadResponses(RenderItem(Blob(content)) + rest) == Cons(Content(content), ReadResponses(rest))
  {
    hide LiteralLength, Decimal, ReadResponses, RenderItem;
    var marker := "{" + Decimal(|content|) + "}";
    DecimalMarker(|content|);
    var tail := content + ("\r\n" + rest);
    assert RenderItem(Blob(content)) + rest == marker + "\r\n" + tail by { BlobLine(content, rest); }
    MarkerRead(marker, |content|, tail);
    assert tail[..|content|] == content && tail[|content|..|content| + 2] == "\r\n" && tail[|content| + 2..] == rest;
  }

  lemma BlobLine(content: string, rest: string)
    ensures RenderItem(Blob(content)) + rest == "{" + Decimal(|content|) + "}" + "\r\n" + (content + ("\r\n" + rest))
  {
    hide Decimal;
    var marker := "{" + Decimal(|content|) + "}";
    ConcatAssoc(marker + "\r\n", content + "\r\n", rest);
    ConcatAssoc(content, "\r\n", rest);
  }

  lemma MarkerRead(marker: string, length: nat, tail: string)
    requires LiteralLength(marker) == Literal(length, false) && Lacks(marker, '\n')
    requires length + 2 <= |tail| && tail[length..length + 2] == "\r\n"
    ensures ReadResponses(marker + "\r\n" + tail) == Cons(Content(tail[..length]), ReadResponses(tail[length + 2..]))
  {
    hide LiteralLength;
    var front := marker + "\r\n";
    assert front[..|front| - 1] == marker + "\r";
    LineFound(front, tail);
    var s := front + tail;
    assert s[..|front| - 2] == marker && s[|front| - 2..|front|] == "\r\n";
  }

  /**
    The response stream is unambiguous: reading it as lines and literals gives
    back exactly the responses that were written, in order.
   */
  lemma {:induction false} ResponsesRoundTrip(items: seq<Item>)
    requires forall i | 0 <= i < |items| :: Clean(items[i])
    ensures ReadResponses(Render(items)) == Some(Meanings(items))
  {
    hide ReadResponses, LineOf, IsRow;
    if items == [] {
      assert ReadResponses("") == Some([]) by { NothingRead(); }
    } else {
      var rest := Render(items[1..]);
      ResponsesRoundTrip(items[1..]);
      if items[0].Blob? {
        BlobRead(items[0].content, rest);
      } else {
        RowRead(LineOf(items[0]), rest);
      }
    }
  }

  lemma NothingRead()
    ensures ReadResponses("") == Some([])
  {
  }

  // ---------------------------------------------------------------------
  // LISTSCRIPTS

  /** A client's reading of a LISTSCRIPTS line. */
  function ReadListLine(line: string): Option<ScriptInfo> {
    if line == "" || line[0] != '"' then None
    else
      var end := ClosingQuote(line, 1, false);
      if end == -1 then None
      else
        var name, rest := Unquote(line[..end + 1]), line[end + 1..];
        if rest == "" then Some(ScriptInfo(name, false))
        else if rest == " ACTIVE" then Some(ScriptInfo(name, true))
        else None
  }

  /** Names a server accepts come back from LISTSCRIPTS unchanged, with their active flag. */
  lemma ListLineRoundTrip(script: ScriptInfo)
    requires ValidateScriptName(script.name) == None
    ensures ReadListLine(ListLine(script)) == Some(script)
  {
    hide Quote, SanitizeText, ValidateScriptName, Unquote;
    ValidNameUnchanged(script.name);
    var q := Quote(script.name);
    var tail := if script.active then " ACTIVE" else "";
    QuoteShape(script.name);
    QuoteSelfDelimiting(script.name, tail);
    UnquoteQuote(script.name);
    assert (q + tail)[..|q|] == q && (q + tail)[|q|..] == tail;
  }

  /** A client's reading of a whole LISTSCRIPTS reply: list lines up to a bare OK. */
  function ReadListing(rs: seq<Response>): Option<seq<ScriptInfo>> {
    if rs == [] || !rs[0].Row? then None
    else if rs == [Row("OK")] then Some([])
    else
      var first, more := ReadListLine(rs[0].text), ReadListing(rs[1..]);
      if first == None || more == None then None else Some([first.value] + more.value)
  }

  predicate AllValid(scripts: seq<ScriptInfo>) {
    forall i | 0 <= i < |scripts| :: ValidateScriptName(scripts[i].name) == None
  }

  function ListReply(scripts: seq<ScriptInfo>): seq<Item> {
    ListItems(scripts) + [Say(OkBare)]
  }

  lemma {:induction false} ListingRead(scripts: seq<ScriptInfo>)
    requires AllValid(scripts)
    ensures ReadListing(Meanings(ListReply(scripts))) == Some(scripts)
  {
    hide ReadListLine, ListLine, ValidateScriptName;
    var items := ListReply(scripts);
    if scripts == [] {
      assert items == [Say(OkBare)] && items[1..] == [];
      assert Meanings(items) == [Row("OK")] + Meanings([]);
      assert Meanings([]) == [];
    } else {
      assert items[0] == Listed(scripts[0]) && items[1..] == ListReply(scripts[1..]);
      ListingRead(scripts[1..]);
      ListLineRoundTrip(scripts[0]);
      assert Meanings(items)[0] == Row(ListLine(scripts[0]));
      assert Meanings(items)[1..] == Meanings(items[1..]);
      assert |Meanings(items)| > 1 by { MeaningsLength(items); }
      assert [scripts[0]] + scripts[1..] == scripts;
    }
  }

  lemma {:induction false} MeaningsLength(items: seq<Item>)
    ensures |Meanings(items)| == |items|
  {
    if items != [] {
      MeaningsLength(items[1..]);
    }
  }

  /** The bytes of a LISTSCRIPTS reply decode to exactly the list it was given, in order, and OK. */
  lemma ListReplyRoundTrip(scripts: seq<ScriptInfo>)
    requires AllValid(scripts)
    ensures var rs := ReadResponses(Render(ListReply(scripts)));
            rs.Some? && ReadListing(rs.value) == Some(scripts)
  {
    hide ReadResponses, Render, Meanings, ReadListing, IsRow, ListLine;
    var items := ListReply(scripts);
    forall i | 0 <= i < |items| ensures Clean(items[i]) {
      if i < |scripts| {
        ListedIsRow(scripts[i]);
      } else {
        PhraseIsRow(OkBare);
      }
    }
    ResponsesRoundTrip(items);
    ListingRead(scripts);
  }

  // ---------------------------------------------------------------------
  // Whole runs

  predicate AllFromOptions(o: Options, items: seq<Item>) {
    forall i | 0 <= i < |items| :: FromOptions(o, items[i])
  }

  lemma GrowsFromOptions(o: Options, a: seq<Item>, b: seq<Item>)
    requires AllFromOptions(o, a) && Grows(o, a, b)
    ensures AllFromOptions(o, b)
  {
    hide FromOptions;
  }

  lemma EffectWrites(env: Env, a: State, b: State)
    requires CommandEffect(env, a, b)
    ensures Grows(env.options, a.output, b.output)
  {
    hide Grows;
  }

  lemma SettleWrites(env: Env, c: State, quit: bool)
    ensures Grows(env.options, c.output, Settle(env, c, quit).0.output)
  {
  }

  lemma TurnWrites(env: Env, st: State)
    requires !st.hijacked && AllFromOptions(env.options, st.output)
    ensures AllFromOptions(env.options, Iterate(env, st).0.output)
  {
    hide Iterate, CommandEffect, Settle, Grows, AllFromOptions;
    IterateTurn(env, st);
    var (s, more) := Iterate(env, st);
    if (more && Reads(env, st, s)) || (!more && Responds(env, st, s) && s.errorCount == st.errorCount) {
      GrowsFromOptions(env.options, st.output, s.output);
    } else {
      var b, c, quit :| Reads(env, st, b) && CommandEffect(env, b, c) && (quit ==> c.errorCount == b.errorCount)
                        && Settle(env, c, quit) == (s, more);
      GrowsFromOptions(env.options, st.output, b.output);
      EffectWrites(env, b, c);
      GrowsFromOptions(env.options, b.output, c.output);
      SettleWrites(env, c, quit);
      GrowsFromOptions(env.options, c.output, s.output);
    }
  }

  lemma {:induction false} LoopWrites(env: Env, st: State)
    requires !st.hijacked && AllFromOptions(env.options, st.output)
    ensures AllFromOptions(env.options, Loop(env, st).output)
    decreases if st.isTLS then 0 else 1, |st.input.data|
  {
    hide Iterate, AllFromOptions;
    IterateAdvances(env, st);
    TurnWrites(env, st);
    if Iterate(env, st).1 {
      LoopWrites(env, Iterate(env, st).0);
    }
  }

  /**
    For every session and every input, a client that reads the bytes of a whole
    run as lines and literals recovers exactly the responses of that run.
   */
  lemma ServeIsUnambiguous(env: Env, isTLS: bool, input: Stream)
    requires CleanOptions(env.options)
    requires forall item | item in Serve(env, Fresh(isTLS, input)).output && item.Blob? :: |item.content| <= MAX_INT64
    ensures var items := Serve(env, Fresh(isTLS, input)).output;
            ReadResponses(Render(items)) == Some(Meanings(items))
  {
    hide SendGreeting, Iterate, Reads, CleanOptions, FromOptions, Clean, Render, ReadResponses, Meanings, Capabilities;
    var st := Fresh(isTLS, input);
    GreetingEffect(env, st);
    var g := SendGreeting(env, st);
    assert Grows(env.options, st.output, g.output) && !g.hijacked by { ReadsWrites(env, st, g); }
    GrowsFromOptions(env.options, st.output, g.output);
    var (s, ok) := Flush(env, g);
    if ok {
      LoopWrites(env, s);
    }
    var items := Serve(env, st).output;
    forall i | 0 <= i < |items| ensures Clean(items[i]) {
      ItemIsClean(env.options, items[i]);
    }
    ResponsesRoundTrip(items);
  }

  lemma ReadsWrites(env: Env, a: State, b: State)
    requires Reads(env, a, b)
    ensures Grows(env.options, a.output, b.output) && b.hijacked == a.hijacked
  {
  }
}
