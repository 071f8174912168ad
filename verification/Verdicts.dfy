/**
  What a client makes of a response line: its verdict by isStatus
  (managesieveclient/client.go), and the response code and texts behind it
  (section 1.3 of RFC 5804).
 */
module Verdicts {
  import opened Text
  import opened Parser
  import opened Protocol
  import opened Client

  datatype Verdict = Accepts | Refuses | Hangs {
    function Code(): string {
      match this
      case Accepts => "OK"
      case Refuses => "NO"
      case Hangs => "BYE"
    }
  }

  /** A line is a status of this verdict and of no other. */
  predicate Tells(line: string, v: Verdict) {
    IsStatus(line, v.Code()) && forall w: Verdict | w != v :: !IsStatus(line, w.Code())
  }

  /** A line that is no status at all. */
  predicate IsData(line: string) {
    forall w: Verdict :: !IsStatus(line, w.Code())
  }

  predicate SaysOk(p: Phrase) {
    p.OkBare? || p.OkAuthenticated? || p.OkGoodbye? || p.OkBeginTLS? || p.OkStored? || p.OkUpdated? || p.OkDeleted?
  }

  predicate SaysBye(p: Phrase) {
    p.ByeAbsolute? || p.ByeIdle? || p.ByeShutdown? || p.ByeErrors?
  }

  /** The verdict a response is meant to carry; None for data. */
  function Meant(item: Item): Option<Verdict> {
    match item
    case Say(p) =>
      if p.Plus? || p.Challenge? then None
      else if SaysOk(p) then Some(Accepts)
      else if SaysBye(p) then Some(Hangs)
      else Some(Refuses)
    case Fail(_) => Some(Refuses)
    case Deny(_) => Some(Refuses)
    case DenyCoded(_, _) => Some(Refuses)
    case DenySize(_, _) => Some(Refuses)
    case Warnings(_) => Some(Accepts)
    case Tag(_) => Some(Accepts)
    case Greeting(_, _) => Some(Accepts)
    case Listed(_) => None
    case Advertised(_) => None
    case Blob(_) => None
  }

  // ---------------------------------------------------------------------
  // Verdicts

  lemma FirstByteDecides(line: string, v: Verdict)
    requires IsStatus(line, v.Code())
    ensures Tells(line, v)
  {
    hide IsStatus;
    assert line != "" && line[0] == v.Code()[0] by { StatusStarts(line, v.Code()); }
    forall w: Verdict | w != v ensures !IsStatus(line, w.Code()) {
      LetterIsNoQuote(line, w.Code());
    }
  }

  lemma StatusStarts(line: string, code: string)
    requires code != "" && IsStatus(line, code)
    ensures line != "" && line[0] == code[0]
  {
    assert (code + " ")[0] == code[0] && (code + "(")[0] == code[0] && (code + " (")[0] == code[0];
  }

  lemma OtherByteIsData(line: string)
    requires line != "" && line[0] != 'O' && line[0] != 'N' && line[0] != 'B'
    ensures IsData(line)
  {
    hide IsStatus;
    forall w: Verdict ensures !IsStatus(line, w.Code()) {
      LetterIsNoQuote(line, w.Code());
    }
  }

  lemma Prefixed(code: string, rest: string)
    ensures IsStatus(code + " " + rest, code) && IsStatus(code, code)
  {
    assert (code + " " + rest)[..|code| + 1] == code + " ";
  }

  lemma NoLineRefuses(msg: string)
    ensures Tells(NoLineText(msg), Refuses)
  {
    hide IsStatus, StripCRLF;
    Prefixed("NO", StripCRLF(msg));
    assert "NO" + " " == "NO ";
    FirstByteDecides(NoLineText(msg), Refuses);
  }

  lemma OkPhrases(p: Phrase)
    requires SaysOk(p)
    ensures IsStatus(p.Text(), "OK")
  {
  }

  lemma NoPhrases(p: Phrase)
    requires p.NoLiteralArgument? || p.NoLiteralContent? || p.NoAuthFailed? || p.NoEmptyPassword? || p.NoAuthCancelled?
    ensures StartsWith(p.Text(), "NO ")
  {
  }

  lemma MoreNoPhrases(p: Phrase)
    requires p.NoPipelinedTLS? || p.NoInternal? || p.NoLineTooLong? || p.NoMissingCRLF?
    ensures StartsWith(p.Text(), "NO ")
  {
  }

  lemma ByePhrases(p: Phrase)
    requires p.ByeErrors? || p.ByeShutdown?
    ensures StartsWith(p.Text(), "BYE ")
  {
  }

  lemma MoreByePhrases(p: Phrase)
    requires p.ByeIdle? || p.ByeAbsolute?
    ensures StartsWith(p.Text(), "BYE ")
  {
  }

  lemma PhraseTells(p: Phrase)
    requires !p.Plus? && !p.Challenge?
    ensures Tells(p.Text(), Meant(Say(p)).value)
  {
    hide Phrase.Text, StartsWith;
    assert "NO" + " " == "NO " && "BYE" + " " == "BYE ";
    if SaysOk(p) {
      OkPhrases(p);
    } else if p.ByeErrors? || p.ByeShutdown? {
      ByePhrases(p);
    } else if SaysBye(p) {
      MoreByePhrases(p);
    } else if p.NoPipelinedTLS? || p.NoInternal? || p.NoLineTooLong? || p.NoMissingCRLF? {
      MoreNoPhrases(p);
    } else {
      NoPhrases(p);
    }
    FirstByteDecides(p.Text(), Meant(Say(p)).value);
  }

  lemma OkLine(rest: string)
    ensures Tells("OK " + rest, Accepts)
  {
    hide IsStatus;
    Prefixed("OK", rest);
    assert "OK" + " " == "OK ";
    FirstByteDecides("OK " + rest, Accepts);
  }

  lemma TagTells(text: string)
    ensures Tells(LineOf(Tag(text)), Accepts)
  {
    hide Quote, SanitizeText, Tells;
    var rest := "(TAG " + Quote(SanitizeText(text)) + ") \"Done\"";
    OkLine(rest);
    assert LineOf(Tag(text)) == "OK " + rest;
  }

  lemma WarningsTells(text: string)
    ensures Tells(LineOf(Warnings(text)), Accepts)
  {
    hide Quote, SanitizeText, Tells;
    var rest := "(WARNINGS) " + Quote(SanitizeText(text));
    OkLine(rest);
    assert LineOf(Warnings(text)) == "OK " + rest;
  }

  lemma GreetingTells(hint: bool, text: string)
    ensures Tells(LineOf(Greeting(hint, text)), Accepts)
  {
    hide Tells;
    OkLine(text);
    OkLine("(STARTTLS) " + text);
    assert "OK (STARTTLS) " + text == "OK " + ("(STARTTLS) " + text);
  }

  /** Whatever texts a session supplies, each response carries its verdict and no other. */
  lemma ItemTells(item: Item)
    requires Meant(item).Some?
    ensures Tells(LineOf(item), Meant(item).value)
  {
    hide Quote, SanitizeText, WireMessage, SizeMessage, NoLineText, Phrase.Text, Fault.Message, Tells;
    match item
    case Say(p) => PhraseTells(p);
    case Fail(fault) => NoLineRefuses(Quote(SanitizeText(fault.Message())));
    case Deny(text) => NoLineRefuses(text);
    case DenyCoded(code, message) => NoLineRefuses(WireMessage(code, message));
    case DenySize(size, limit) => NoLineRefuses(WireMessage("QUOTA/MAXSIZE", SizeMessage(size, limit)));
    case Warnings(text) => WarningsTells(text);
    case Tag(text) => TagTells(text);
    case Greeting(hint, text) => GreetingTells(hint, text);
  }

  /** Data is never taken for a verdict: list lines, capabilities, go-aheads and challenges. */
  lemma ItemIsData(item: Item)
    requires Meant(item).None? && !item.Blob?
    ensures IsData(LineOf(item))
  {
    hide Quote, SanitizeText, IsData;
    if item.Listed? {
      QuoteShape(SanitizeText(item.script.name));
    } else if item.Advertised? {
      QuoteShape(item.capability.name);
    }
    OtherByteIsData(LineOf(item));
  }

  // ---------------------------------------------------------------------
  // Codes and texts

  /** NO (CODE) "text" */
  function ReadCoded(line: string): Option<(string, string)> {
    if !StartsWith(line, "NO (") then None
    else
      var rest := line[4..];
      var i := IndexOf(rest, ')');
      if i + 2 > |rest| || rest[i + 1] != ' ' then None else Some((rest[..i], Unquote(rest[i + 2..])))
  }

  /** NO "text" */
  function ReadText(line: string): Option<string> {
    if StartsWith(line, "NO \"") then Some(Unquote(line[3..])) else None
  }

  /** OK (WARNINGS) "text" */
  function ReadWarnings(line: string): Option<string> {
    if StartsWith(line, "OK (WARNINGS) ") then Some(Unquote(line[14..])) else None
  }

  /** OK (TAG "text") "Done" */
  function ReadTag(line: string): Option<string> {
    if !StartsWith(line, "OK (TAG \"") then None
    else
      var end := ClosingQuote(line[8..], 1, false);
      if end == -1 then None else Some(Unquote(line[8..][..end + 1]))
  }

  /** A response code a reader can delimit. */
  predicate CleanCode(code: string) {
    code != "" && Lacks(code, ')') && Lacks(code, '\r') && Lacks(code, '\n')
  }

  function OrInternal(message: string): string {
    if message == "" then "internal error" else message
  }

  lemma SafeLacks(s: string)
    ensures Lacks(Quote(SanitizeText(s)), '\r') && Lacks(Quote(SanitizeText(s)), '\n')
  {
    hide Quote, SanitizeText;
    assert Lacks(SanitizeText(s), '\r') && Lacks(SanitizeText(s), '\n');
    QuoteLacks(SanitizeText(s), '\r');
    QuoteLacks(SanitizeText(s), '\n');
  }

  lemma UpperCode(code: string)
    requires CleanCode(code)
    ensures Lacks(ToUpper(code), ')') && Lacks(ToUpper(code), '\r') && Lacks(ToUpper(code), '\n')
  {
  }

  lemma CodedLine(code: string, text: string)
    requires Lacks(code, ')')
    ensures ReadCoded("NO (" + code + ") " + Quote(text)) == Some((code, text))
  {
    hide Quote, Unquote;
    UnquoteQuote(text);
    var line := "NO (" + code + ") " + Quote(text);
    var rest := code + ") " + Quote(text);
    assert line == "NO (" + rest && line[..4] == "NO (" && line[4..] == rest;
    IndexOfAt(rest, ')', |code|);
    assert rest[..|code|] == code && rest[|code| + 2..] == Quote(text);
  }

  /**
    A refusal with a response code is read back as that code, in upper case, and
    its message without control bytes.
   */
  lemma CodedIsRead(code: string, message: string)
    requires CleanCode(code)
    ensures ReadCoded(LineOf(DenyCoded(code, message))) == Some((ToUpper(code), SanitizeText(OrInternal(message))))
  {
    hide Quote, SanitizeText, ReadCoded, ToUpper;
    var q := Quote(SanitizeText(OrInternal(message)));
    SafeLacks(OrInternal(message));
    UpperCode(code);
    var msg := "(" + ToUpper(code) + ") " + q;
    assert WireMessage(code, message) == msg;
    assert Lacks(msg, '\r') && Lacks(msg, '\n');
    assert "NO " + msg == "NO (" + ToUpper(code) + ") " + q;
    CodedLine(ToUpper(code), SanitizeText(OrInternal(message)));
  }

  lemma {:induction false} PrintableIsSafe(s: string)
    requires forall i | 0 <= i < |s| :: ' ' <= s[i] < '\U{7F}'
    ensures SanitizeText(s) == s
    decreases |s|
  {
    if s != "" {
      assert RuneLen(s) == 1;
      PrintableIsSafe(s[1..]);
    }
  }

  lemma SizeIsPrintable(size: nat, limit: nat)
    ensures SanitizeText(SizeMessage(size, limit)) == SizeMessage(size, limit) != ""
  {
    hide Decimal, Value, SanitizeText;
    var a, b := Decimal(size), Decimal(limit);
    assert forall i | 0 <= i < |a| :: IsDigit(a[i]);
    assert forall i | 0 <= i < |b| :: IsDigit(b[i]);
    PrintableIsSafe(SizeMessage(size, limit));
  }

  /** An over-long script is refused with its size and the limit in the text, under QUOTA/MAXSIZE. */
  lemma SizeIsRead(size: nat, limit: nat)
    ensures ReadCoded(LineOf(DenySize(size, limit))) == Some(("QUOTA/MAXSIZE", SizeMessage(size, limit)))
  {
    hide SizeMessage, ReadCoded, WireMessage, NoLineText;
    SizeIsPrintable(size, limit);
    ToUpperId("QUOTA/MAXSIZE");
    CodedIsRead("QUOTA/MAXSIZE", SizeMessage(size, limit));
  }

  lemma QuotedText(text: string)
    ensures ReadText(NoLineText(Quote(SanitizeText(text)))) == Some(SanitizeText(text))
  {
    hide Quote, SanitizeText, Unquote;
    var q := Quote(SanitizeText(text));
    SafeLacks(text);
    QuoteShape(SanitizeText(text));
    UnquoteQuote(SanitizeText(text));
    var line := "NO " + q;
    assert line[..4] == "NO \"" && line[3..] == q;
  }

  /** A protocol error is read back as its message. */
  lemma FaultIsRead(fault: Fault)
    ensures ReadText(LineOf(Fail(fault))) == Some(SanitizeText(fault.Message()))
  {
    hide Quote, SanitizeText, Fault.Message, ReadText;
    QuotedText(fault.Message());
  }

  lemma WarningsAreRead(text: string)
    ensures ReadWarnings(LineOf(Warnings(text))) == Some(SanitizeText(text))
  {
    hide Quote, SanitizeText, Unquote;
    var q := Quote(SanitizeText(text));
    UnquoteQuote(SanitizeText(text));
    var line := LineOf(Warnings(text));
    assert line[..14] == "OK (WARNINGS) " && line[14..] == q;
  }

  lemma TagIsRead(text: string)
    ensures ReadTag(LineOf(Tag(text))) == Some(SanitizeText(text))
  {
    hide Quote, SanitizeText, Unquote, ClosingQuote;
    var q := Quote(SanitizeText(text));
    QuoteShape(SanitizeText(text));
    QuoteSelfDelimiting(SanitizeText(text), ") \"Done\"");
    UnquoteQuote(SanitizeText(text));
    var line := LineOf(Tag(text));
    assert line[..9] == "OK (TAG \"" && line[8..] == q + ") \"Done\"";
    assert (q + ") \"Done\"")[..|q|] == q;
  }

  /** The library words its own refusal of an empty password as a session's *Error would be. */
  lemma EmptyPasswordIsWorded()
    ensures LineOf(Say(NoEmptyPassword)) == LineOf(DenyCoded("", "\"Authentication failed\""))
  {
    hide StripCRLF;
    var msg := "\"Authentication failed\"";
    assert Lacks(msg, '\r') && Lacks(msg, '\n');
  }
}
