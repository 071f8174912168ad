/**
  The client's reading of a capability listing (managesieveclient/client.go),
  and that it recovers what a server advertises.
 */
module Client {
  import opened Text
  import opened Parser
  import opened LineReader
  import opened Protocol
  import opened ConnSpec
  import Responses

  // ---------------------------------------------------------------------
  // Lines

  datatype ClientLine = Text(text: string) | TooLongText | NoText(end: End)

  function DropEnd(raw: string): string {
    if raw == "" || raw[|raw| - 1] != '\n' then raw
    else if |raw| >= 2 && raw[|raw| - 2] == '\r' then raw[..|raw| - 2]
    else raw[..|raw| - 1]
  }

  /** The next line of a stream, where it is complete. */
  function NextText(s: Stream, maxLine: int): ClientLine {
    var n := LineLength(s.data);
    if n == 0 then NoText(s.end)
    else if |DropEnd(s.data[..n])| > maxLine then TooLongText
    else Text(DropEnd(s.data[..n]))
  }

  /** There is no line to read, or all of it is there. */
  predicate LineComplete(data: string) {
    data == "" || !Lacks(data, '\n')
  }

  // ---------------------------------------------------------------------
  // Capability lines

  predicate StartsWith(s: string, prefix: string) {
    |prefix| <= |s| && s[..|prefix|] == prefix
  }

  predicate IsStatus(line: string, code: string) {
    || line == code
    || StartsWith(line, code + " ")
    || StartsWith(line, code + "(")
    || StartsWith(line, code + " (")
  }

  function ParseCapabilityLine(text: string): (string, string) {
    var line := Trim(text);
    if line == "" then ("", "")
    else if line[0] != '"' then
      var sp := IndexOf(line, ' ');
      if sp == |line| then (line, "") else (line[..sp], Unquote(Trim(line[sp + 1..])))
    else
      var end := ClosingQuote(line, 1, false);
      if end == -1 then ("", "")
      else
        var rest := Trim(line[end + 1..]);
        (Unquote(line[..end + 1]), if rest == "" then "" else Unquote(rest))
  }

  method FindClosingQuote(s: string) returns (r: int)
    ensures r == if s == "" then -1 else ClosingQuote(s, 1, false)
  {
    if s == "" {
      return -1;
    }
    var escaped := false;
    for i := 1 to |s|
      invariant ClosingQuote(s, i, escaped) == ClosingQuote(s, 1, false)
    {
      if escaped {
        escaped := false;
      } else if s[i] == '\\' {
        escaped := true;
      } else if s[i] == '"' {
        return i;
      }
    }
    return -1;
  }

  type CapMap = map<string, string>

  function Learn(caps: CapMap, name: string, value: string): CapMap {
    if name == "" then caps else caps[ToUpper(name) := value]
  }

  datatype Block =
    | Listing(caps: CapMap, greeting: string)
    | Rejected(response: string)
    | Unfinished(line: ClientLine)
    | TooMany

  /** A capability listing of at most `left` lines, the closing status included, and what follows it. */
  function ReadBlock(s: Stream, maxLine: int, left: nat, caps: CapMap): (Block, Stream)
    decreases left
  {
    if left == 0 then (TooMany, s)
    else
      var line := NextText(s, maxLine);
      if !line.Text? then (Unfinished(line), s)
      else if IsStatus(line.text, "OK") then (Listing(caps, line.text), AfterLine(s))
      else if IsStatus(line.text, "NO") || IsStatus(line.text, "BYE") then (Rejected(line.text), AfterLine(s))
      else
        var (name, value) := ParseCapabilityLine(line.text);
        ReadBlock(AfterLine(s), maxLine, left - 1, Learn(caps, name, value))
  }

  /** Every line of the listing, up to the one that ends it, is complete. */
  predicate BlockComplete(s: Stream, maxLine: int, left: nat)
    decreases left
  {
    left == 0 ||
    (&& LineComplete(s.data)
     && var line := NextText(s, maxLine);
        line.Text? && !EndsBlock(line.text) ==> BlockComplete(AfterLine(s), maxLine, left - 1))
  }

  predicate EndsBlock(line: string) {
    IsStatus(line, "OK") || IsStatus(line, "NO") || IsStatus(line, "BYE")
  }

  // ---------------------------------------------------------------------
  // The client

  /** `line` is the start of the first line of data, without a line end. */
  ghost predicate Reading(data: string, line: string, rest: string) {
    Scanned(data, line, rest) && (rest != "" && rest[0] == '\n' ==> line == "" || line[|line| - 1] != '\r')
  }

  class Client {
    const maxLine: int
    const maxCaps: nat
    var reader: Reader
    var caps: CapMap
    var greeting: string

    ghost predicate Valid()
      reads this, reader
    {
      reader.Valid() && reader.capacity >= 2
    }

    constructor (reader: Reader, maxLine: int, maxCaps: nat)
      requires reader.Valid() && reader.capacity >= 2
      ensures Valid() && this.reader == reader && this.maxLine == maxLine && this.maxCaps == maxCaps
    {
      this.reader, this.maxLine, this.maxCaps := reader, maxLine, maxCaps;
      caps, greeting := map[], "";
    }

    /** bufio.Reader.ReadLine: a piece of a line without its end; a carriage return at a full buffer waits. */
    method ReadPiece() returns (piece: string, isPrefix: bool, ok: bool)
      requires Valid()
      modifies reader
      ensures Valid()
      ensures !ok ==> old(reader.Data()) == "" && reader.Data() == ""
      ensures ok && isPrefix ==> piece != "" && Reading(old(reader.Data()), piece, reader.Data())
      ensures ok && !isPrefix ==>
                exists raw :: Complete(old(reader.Data()), raw, reader.Data()) && raw != "" && piece == DropEnd(raw)
    {
      var chunk, status := reader.ReadSlice();
      PieceRead(old(reader.Data()), chunk, status, reader.Data());
      if status == BufferFull {
        if chunk[|chunk| - 1] == '\r' {
          ghost var rest := reader.Data();
          reader.buffer := "\r" + reader.buffer;
          piece := chunk[..|chunk| - 1];
          assert chunk == piece + "\r";
          ConcatAssoc(piece, "\r", rest);
          assert reader.Data() == "\r" + rest;
          return piece, true, true;
        }
        return chunk, true, true;
      }
      if |chunk| == 0 {
        return "", false, false;
      }
      assert Complete(old(reader.Data()), chunk, reader.Data());
      return DropEnd(chunk), false, true;
    }

    /** readLine: the pieces of a line, at most maxLine bytes. */
    method ReadLine() returns (r: ClientLine)
      requires Valid()
      modifies reader
      ensures Valid()
      ensures LineComplete(old(reader.Data())) ==> r == NextText(old(reader.View()), maxLine)
      ensures LineComplete(old(reader.Data())) && r.Text? ==> reader.View() == AfterLine(old(reader.View()))
    {
      ghost var all := reader.View();
      var line := "";
      assert Reading(all.data, line, reader.Data()) by {
        assert "" + reader.Data() == reader.Data();
      }
      while true
        invariant Valid() && Reading(all.data, line, reader.Data())
        invariant line != "" ==> |line| <= maxLine
        decreases |reader.Data()|
      {
        ghost var rest := reader.Data();
        var piece, isPrefix, ok := ReadPiece();
        if !ok {
          if LineComplete(all.data) {
            NothingLeft(all, line, maxLine);
          }
          return NoText(reader.end);
        }
        if isPrefix {
          PrefixRead(all, line, rest, piece, reader.Data(), maxLine);
          line := line + piece;
          if |line| > maxLine {
            return TooLongText;
          }
        } else {
          ghost var raw :| Complete(rest, raw, reader.Data()) && raw != "" && piece == DropEnd(raw);
          LineRead(all, line, rest, raw, reader.Data());
          line := line + piece;
          return if |line| > maxLine then TooLongText else Text(line);
        }
      }
    }

    /** readCapabilityBlock: replaces caps and greeting when the listing ends in OK. */
    method ReadCapabilityBlock() returns (block: Block, lines: nat)
      requires Valid()
      modifies this`caps, this`greeting, reader
      ensures Valid() && lines <= maxCaps
      ensures BlockComplete(old(reader.View()), maxLine, maxCaps) ==>
                var (b, rest) := ReadBlock(old(reader.View()), maxLine, maxCaps, map[]);
                block == b && (block.Listing? ==> reader.View() == rest)
      ensures if block.Listing? then caps == block.caps && greeting == block.greeting
              else caps == old(caps) && greeting == old(greeting)
    {
      hide ParseCapabilityLine, IsStatus, Learn, NextText, LineLength, ReadBlock, LineComplete, BlockComplete,
           AfterLine;
      var learned: CapMap := map[];
      lines := 0;
      while true
        invariant Valid() && lines <= maxCaps
        invariant BlockComplete(old(reader.View()), maxLine, maxCaps) ==>
                    && BlockComplete(reader.View(), maxLine, maxCaps - lines)
                    && ReadBlock(old(reader.View()), maxLine, maxCaps, map[])
                       == ReadBlock(reader.View(), maxLine, maxCaps - lines, learned)
        invariant caps == old(caps) && greeting == old(greeting)
        decreases maxCaps - lines
      {
        if lines >= maxCaps {
          ReadNoBlock(reader.View(), maxLine, learned);
          return TooMany, lines;
        }
        ghost var before := reader.View();
        BlockCompleteRound(before, maxLine, maxCaps - lines);
        ReadBlockRound(before, maxLine, maxCaps - lines, learned);
        var line := ReadLine();
        lines := lines + 1;
        if !line.Text? {
          return Unfinished(line), lines;
        }
        if IsStatus(line.text, "OK") {
          caps := learned;
          greeting := line.text;
          return Listing(caps, greeting), lines;
        }
        if IsStatus(line.text, "NO") || IsStatus(line.text, "BYE") {
          return Rejected(line.text), lines;
        }
        var (name, value) := ParseCapabilityLine(line.text);
        learned := Learn(learned, name, value);
      }
    }
  }

  lemma ReadNoBlock(s: Stream, maxLine: int, caps: CapMap)
    ensures ReadBlock(s, maxLine, 0, caps) == (TooMany, s)
  {
  }

  /** One round of reading a listing. */
  lemma ReadBlockRound(s: Stream, maxLine: int, left: nat, caps: CapMap)
    requires left > 0
    ensures var line := NextText(s, maxLine);
            ReadBlock(s, maxLine, left, caps) ==
            if !line.Text? then (Unfinished(line), s)
            else if IsStatus(line.text, "OK") then (Listing(caps, line.text), AfterLine(s))
            else if IsStatus(line.text, "NO") || IsStatus(line.text, "BYE") then (Rejected(line.text), AfterLine(s))
            else
              var (name, value) := ParseCapabilityLine(line.text);
              ReadBlock(AfterLine(s), maxLine, left - 1, Learn(caps, name, value))
  {
    hide ParseCapabilityLine, IsStatus, Learn, NextText;
  }

  lemma BlockCompleteRound(s: Stream, maxLine: int, left: nat)
    requires left > 0
    ensures BlockComplete(s, maxLine, left) <==>
            && LineComplete(s.data)
            && var line := NextText(s, maxLine);
               (line.Text? && !IsStatus(line.text, "OK") && !IsStatus(line.text, "NO") && !IsStatus(line.text, "BYE")
                ==> BlockComplete(AfterLine(s), maxLine, left - 1))
  {
    hide IsStatus, NextText, LineComplete;
  }

  lemma PieceRead(data: string, chunk: string, status: SliceStatus, rest: string)
    requires data == chunk + rest && ChunkFits(chunk, status, rest)
    ensures status != BufferFull ==> Complete(data, chunk, rest)
    ensures chunk == "" && status == AtEnd ==> data == "" && rest == ""
  {
    assert "" + (chunk + rest) == chunk + rest && "" + chunk == chunk;
    LineTurn(data, "", chunk, status, rest);
  }

  lemma NothingLeft(all: Stream, line: string, maxLine: int)
    requires LineComplete(all.data) && Reading(all.data, line, "")
    ensures line == "" && NextText(all, maxLine) == NoText(all.end)
  {
    assert all.data == line + "" == line;
  }

  lemma PrefixRead(all: Stream, line: string, rest: string, piece: string, rest': string, maxLine: int)
    requires Reading(all.data, line, rest) && Reading(rest, piece, rest') && piece != ""
    ensures Reading(all.data, line + piece, rest')
    ensures |line + piece| > maxLine && LineComplete(all.data) ==> NextText(all, maxLine) == TooLongText
  {
    ConcatAssoc(line, piece, rest');
    var front := line + piece;
    LineLonger(front, rest');
    if LineComplete(all.data) && |front| > maxLine {
      var n := LineLength(all.data);
      var raw := all.data[..n];
      assert n >= |front| && raw[..|front|] == front;
      assert n > |front|;
      DropEndKeeps(raw, front);
    }
  }

  /** A line end follows the front, and is not split by it. */
  lemma DropEndKeeps(raw: string, front: string)
    requires |front| < |raw| && raw[..|front|] == front && Lacks(front, '\n')
    requires raw[|front|] == '\n' ==> front == "" || front[|front| - 1] != '\r'
    ensures |DropEnd(raw)| >= |front|
  {
    assert front != "" ==> raw[|front| - 1] == front[|front| - 1];
  }

  lemma DropEndOfConcat(line: string, raw: string)
    requires raw != "" && (raw[0] == '\n' ==> line == "" || line[|line| - 1] != '\r')
    ensures DropEnd(line + raw) == line + DropEnd(raw)
  {
    var s, n := line + raw, |line| + |raw|;
    assert s[n - 1] == raw[|raw| - 1];
    assert s[..n - 1] == line + raw[..|raw| - 1];
    if |raw| >= 2 {
      assert s[n - 2] == raw[|raw| - 2];
      assert s[..n - 2] == line + raw[..|raw| - 2];
    } else if line != "" {
      assert s[n - 2] == line[|line| - 1];
      assert line + "" == line;
    }
  }

  lemma LineRead(all: Stream, line: string, rest: string, raw: string, rest': string)
    requires Reading(all.data, line, rest) && Complete(rest, raw, rest') && raw != ""
    ensures AfterLine(all) == Stream(rest', all.end)
    ensures LineLength(all.data) > 0 && DropEnd(all.data[..LineLength(all.data)]) == line + DropEnd(raw)
  {
    hide DropEnd;
    LineLonger(line, rest);
    SplitAt(rest, |raw|);
    ConcatAssoc(line, raw, rest');
    var front := line + raw;
    assert (front + rest')[..|front|] == front;
    assert rest[0] == raw[0];
    DropEndOfConcat(line, raw);
  }

  // ---------------------------------------------------------------------
  // A server's listing, read by a client

  /** What a listing teaches: upper-cased names, the last value of each, nothing for an empty name. */
  function LearnAll(caps: CapMap, listed: seq<Capability>): CapMap
    decreases |listed|
  {
    if listed == [] then caps
    else
      var c := listed[0];
      LearnAll(Learn(caps, c.name, if c.hasValue then c.value else ""), listed[1..])
  }

  predicate Teaches(c: Capability, key: string) {
    c.name != "" && ToUpper(c.name) == key
  }

  lemma {:induction false} UnlistedIsKept(caps: CapMap, listed: seq<Capability>, key: string)
    requires forall i | 0 <= i < |listed| :: !Teaches(listed[i], key)
    ensures var learned := LearnAll(caps, listed);
            (key in learned <==> key in caps) && (key in caps ==> learned[key] == caps[key])
    decreases |listed|
  {
    if listed != [] {
      var c := listed[0];
      assert !Teaches(c, key);
      UnlistedIsKept(Learn(caps, c.name, if c.hasValue then c.value else ""), listed[1..], key);
    }
  }

  /** Of several listings of a name, in any letter case, the last one counts. */
  lemma {:induction false} LastListingWins(caps: CapMap, listed: seq<Capability>, i: nat, key: string)
    requires i < |listed| && Teaches(listed[i], key)
    requires forall j | i < j < |listed| :: !Teaches(listed[j], key)
    ensures var learned := LearnAll(caps, listed);
            key in learned && learned[key] == if listed[i].hasValue then listed[i].value else ""
    decreases i
  {
    var c := listed[0];
    var caps' := Learn(caps, c.name, if c.hasValue then c.value else "");
    if i == 0 {
      UnlistedIsKept(caps', listed[1..], key);
    } else {
      LastListingWins(caps', listed[1..], i - 1, key);
    }
  }

  /** A capability line gives back its name and value, whatever bytes they hold. */
  lemma CapabilityLineRoundTrip(c: Capability)
    ensures ParseCapabilityLine(CapabilityLine(c)) == (c.name, if c.hasValue then c.value else "")
  {
    hide Quote, Trim, Unquote, ClosingQuote;
    var q := Quote(c.name);
    var tail := if c.hasValue then " " + Quote(c.value) else "";
    QuoteShape(c.name);
    QuoteShape(c.value);
    QuoteSelfDelimiting(c.name, tail);
    UnquoteQuote(c.name);
    UnquoteQuote(c.value);
    var line := CapabilityLine(c);
    assert line == q + tail;
    assert line[..|q|] == q && line[|q|..] == tail;
    assert Trimmed(line);
    TrimId(line);
    TrimOneSpace(Quote(c.value));
    TrimId("");
  }

  /** No capability line is mistaken for a status. */
  lemma QuotedIsNoStatus(c: Capability)
    ensures var line := CapabilityLine(c);
            !IsStatus(line, "OK") && !IsStatus(line, "NO") && !IsStatus(line, "BYE")
  {
    hide Quote, IsStatus;
    QuoteShape(c.name);
    assert CapabilityLine(c)[0] == '"';
    LetterIsNoQuote(CapabilityLine(c), "OK");
    LetterIsNoQuote(CapabilityLine(c), "NO");
    LetterIsNoQuote(CapabilityLine(c), "BYE");
  }

  lemma LetterIsNoQuote(line: string, code: string)
    requires line != "" && code != "" && line[0] != code[0]
    ensures !IsStatus(line, code)
  {
    hide StartsWith;
    assert (code + " ")[0] == code[0] && (code + "(")[0] == code[0] && (code + " (")[0] == code[0];
    StartsAlike(line, code + " ");
    StartsAlike(line, code + "(");
    StartsAlike(line, code + " (");
  }

  lemma StartsAlike(s: string, prefix: string)
    requires s != "" && prefix != "" && s[0] != prefix[0]
    ensures !StartsWith(s, prefix)
  {
  }

  lemma GreetingIsStatus(hint: bool, text: string)
    ensures IsStatus(LineOf(Greeting(hint, text)), "OK")
  {
    var front := "OK ";
    assert LineOf(Greeting(hint, text))[..3] == front;
  }

  lemma WrittenLineRead(text: string, rest: string, end: End, maxLine: int)
    requires Lacks(text, '\n') && |text| <= maxLine
    ensures var s := Stream(text + "\r\n" + rest, end);
            NextText(s, maxLine) == Text(text) && AfterLine(s) == Stream(rest, end) && LineComplete(s.data)
  {
    var front := text + "\r\n";
    assert front[..|front| - 1] == text + "\r";
    LineFound(front, rest);
    assert front[..|front| - 2] == text;
    assert (front + rest)[|front| - 1] == '\n';
  }

  predicate ShortLine(text: string, maxLine: int) {
    Lacks(text, '\n') && |text| <= maxLine
  }

  /** What a client makes of a whole listing with this status line behind it. */
  function Heard(listed: seq<Capability>, status: string, caps: CapMap): Block {
    if IsStatus(status, "OK") then Listing(LearnAll(caps, listed), status) else Rejected(status)
  }

  /** The round trip for any listing and any status that ends it, from any map learned so far. */
  lemma {:induction false} ListingRead(
    listed: seq<Capability>, last: Item, tail: string, end: End, maxLine: int, left: nat, caps: CapMap)
    requires |listed| < left
    requires forall i | 0 <= i < |listed| :: ShortLine(CapabilityLine(listed[i]), maxLine)
    requires !last.Blob? && EndsBlock(LineOf(last)) && ShortLine(LineOf(last), maxLine)
    ensures ReadBlock(Stream(Render(AdvertisedAll(listed) + [last]) + tail, end), maxLine, left, caps)
            == (Heard(listed, LineOf(last), caps), Stream(tail, end))
    ensures BlockComplete(Stream(Render(AdvertisedAll(listed) + [last]) + tail, end), maxLine, left)
  {
    hide LineComplete, BlockComplete, NextText, AfterLine, IsStatus, ParseCapabilityLine, CapabilityLine, Learn,
         ReadBlock, LineOf, Lacks;
    var items := AdvertisedAll(listed) + [last];
    var rest := Render(items[1..]);
    var text := LineOf(items[0]);
    var s := Stream(Render(items) + tail, end);
    assert s.data == text + "\r\n" + (rest + tail);
    assert items[0] == if listed == [] then last else Advertised(listed[0]);
    if listed == [] {
      assert rest == "" && rest + tail == tail;
    } else {
      assert text == CapabilityLine(listed[0]) by { AdvertisedText(listed[0]); }
    }
    WrittenLineRead(text, rest + tail, end, maxLine);
    ReadBlockRound(s, maxLine, left, caps);
    BlockCompleteRound(s, maxLine, left);
    if listed != [] {
      var c := listed[0];
      QuotedIsNoStatus(c);
      CapabilityLineRoundTrip(c);
      assert items[1..] == AdvertisedAll(listed[1..]) + [last];
      ListingRead(listed[1..], last, tail, end, maxLine, left - 1,
                  Learn(caps, c.name, if c.hasValue then c.value else ""));
    }
  }

  /** A listing of more lines than a client allows is given up, whatever comes behind them. */
  lemma {:induction false} LongListingIsRefused(
    listed: seq<Capability>, tail: string, end: End, maxLine: int, left: nat, caps: CapMap)
    requires left <= |listed| && forall i | 0 <= i < left :: ShortLine(CapabilityLine(listed[i]), maxLine)
    ensures ReadBlock(Stream(Render(AdvertisedAll(listed)) + tail, end), maxLine, left, caps).0 == TooMany
    decreases left
  {
    hide LineComplete, NextText, AfterLine, IsStatus, ParseCapabilityLine, CapabilityLine, Learn, ReadBlock, LineOf,
         Lacks;
    if left == 0 {
      ReadNoBlock(Stream(Render(AdvertisedAll(listed)) + tail, end), maxLine, caps);
    } else {
      var c, items := listed[0], AdvertisedAll(listed);
      var text, rest := CapabilityLine(c), Render(items[1..]);
      assert LineOf(items[0]) == text by { AdvertisedText(c); }
      var s := Stream(Render(items) + tail, end);
      assert s.data == text + "\r\n" + (rest + tail);
      WrittenLineRead(text, rest + tail, end, maxLine);
      ReadBlockRound(s, maxLine, left, caps);
      QuotedIsNoStatus(c);
      CapabilityLineRoundTrip(c);
      assert items[1..] == AdvertisedAll(listed[1..]);
      LongListingIsRefused(listed[1..], tail, end, maxLine, left - 1,
                           Learn(caps, c.name, if c.hasValue then c.value else ""));
    }
  }

  lemma AdvertisedText(c: Capability)
    ensures LineOf(Advertised(c)) == CapabilityLine(c)
  {
  }

  /** A server's listing of its capabilities, with any status behind it. */
  function ListingItems(o: Options, isTLS: bool, last: Item): seq<Item> {
    AdvertisedAll(Capabilities(o, isTLS)) + [last]
  }

  /** Whatever status ends a server's listing, a client within its limits reads the capabilities and that status. */
  lemma ListingRoundTrip(o: Options, isTLS: bool, last: Item, tail: string, end: End, maxLine: int, maxCaps: nat)
    requires Responses.CleanOptions(o)
    requires !last.Blob? && EndsBlock(LineOf(last)) && Lacks(LineOf(last), '\n')
    requires var items := ListingItems(o, isTLS, last);
             |items| <= maxCaps && forall item | item in items :: |LineOf(item)| <= maxLine
    ensures var s := Stream(Render(ListingItems(o, isTLS, last)) + tail, end);
            && ReadBlock(s, maxLine, maxCaps, map[])
               == (Heard(Capabilities(o, isTLS), LineOf(last), map[]), Stream(tail, end))
            && BlockComplete(s, maxLine, maxCaps)
  {
    hide BlockComplete, Capabilities, LineOf, CapabilityLine, ReadBlock, Heard, Render, Responses.CleanOptions,
         EndsBlock;
    var listed := Capabilities(o, isTLS);
    var items := ListingItems(o, isTLS, last);
    Responses.CapabilitiesClean(o, isTLS);
    forall i | 0 <= i < |listed| ensures ShortLine(CapabilityLine(listed[i]), maxLine) {
      assert items[i] == Advertised(listed[i]) && items[i] in items;
      Responses.CapabilityIsRow(listed[i]);
      AdvertisedText(listed[i]);
    }
    assert items[|listed|] == last && last in items;
    ListingRead(listed, last, tail, end, maxLine, maxCaps, map[]);
  }

  /** What a client within its limits learns from a server's greeting: every capability, and the greeting line. */
  lemma GreetingRoundTrip(env: Env, isTLS: bool, input: Stream, tail: string, end: End, maxLine: int, maxCaps: nat)
    requires Responses.CleanOptions(env.options)
    requires var items := SendGreeting(env, Fresh(isTLS, input)).output;
             |items| <= maxCaps && forall item | item in items :: |LineOf(item)| <= maxLine
    ensures var items := SendGreeting(env, Fresh(isTLS, input)).output;
            var hint := env.options.greetingStartTLSHint && StartTLSAvailable(env.options, isTLS);
            ReadBlock(Stream(Render(items) + tail, end), maxLine, maxCaps, map[])
            == (Listing(LearnAll(map[], Capabilities(env.options, isTLS)),
                LineOf(Greeting(hint, env.options.greeting))),
                Stream(tail, end))
            && BlockComplete(Stream(Render(items) + tail, end), maxLine, maxCaps)
  {
    hide BlockComplete, Capabilities, LineOf, CapabilityLine, ReadBlock, LearnAll, Render, Responses.CleanOptions,
         IsStatus;
    var hint := env.options.greetingStartTLSHint && StartTLSAvailable(env.options, isTLS);
    var last := Greeting(hint, env.options.greeting);
    assert SendGreeting(env, Fresh(isTLS, input)).output == ListingItems(env.options, isTLS, last);
    GreetingIsStatus(hint, env.options.greeting);
    GreetingLineClean(env.options, hint);
    ListingRoundTrip(env.options, isTLS, last, tail, end, maxLine, maxCaps);
  }

  lemma GreetingLineClean(o: Options, hint: bool)
    requires Responses.CleanOptions(o)
    ensures Lacks(LineOf(Greeting(hint, o.greeting)), '\n')
  {
    Responses.GreetingIsRow(hint, o.greeting);
  }
}
