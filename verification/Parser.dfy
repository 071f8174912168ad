/**
  Tokenizing of command lines (managesieveserver/parser.go): white-space
  separated atoms and quoted strings, unquoting, and literal markers.
 */
module Parser {
  import opened Text

  // ---------------------------------------------------------------------
  // Quoted strings

  /**
    The index of the unescaped quote that closes a string whose content starts
    at i, or -1. `escaped` says whether the byte before i was an escape.
   */
  function ClosingQuote(s: string, i: nat, escaped: bool): (r: int)
    requires i <= |s|
    ensures r == -1 || (i <= r < |s| && s[r] == '"')
    decreases |s| - i
  {
    if i == |s| then -1
    else if escaped then ClosingQuote(s, i + 1, false)
    else if s[i] == '\\' then ClosingQuote(s, i + 1, true)
    else if s[i] == '"' then i
    else ClosingQuote(s, i + 1, false)
  }

  /** Removes one level of backslash escapes. */
  function Unescape(s: string, escaped: bool): string {
    if s == "" then ""
    else if !escaped && s[0] == '\\' then Unescape(s[1..], true)
    else [s[0]] + Unescape(s[1..], false)
  }

  predicate HasQuotes(s: string) {
    |s| >= 2 && s[0] == '"' && s[|s| - 1] == '"'
  }

  function Unquote(s: string): string {
    if HasQuotes(s) then Unescape(s[1..|s| - 1], false) else s
  }

  lemma UnescapeStep(s: string, i: nat, escaped: bool)
    requires i < |s|
    ensures Unescape(s[i..], escaped) ==
            if !escaped && s[i] == '\\' then Unescape(s[i + 1..], true) else [s[i]] + Unescape(s[i + 1..], false)
  {
    assert s[i..][1..] == s[i + 1..];
  }

  method UnquoteString(str: string) returns (r: string)
    ensures r == Unquote(str)
  {
    if |str| < 2 || str[0] != '"' || str[|str| - 1] != '"' {
      return str;
    }
    var inner := str[1..|str| - 1];
    r := "";
    var escaped := false;
    for i := 0 to |inner|
      invariant r + Unescape(inner[i..], escaped) == Unescape(inner, false)
    {
      UnescapeStep(inner, i, escaped);
      ConcatAssoc(r, [inner[i]], Unescape(inner[i + 1..], false));
      if escaped {
        r := r + [inner[i]];
        escaped := false;
      } else if inner[i] == '\\' {
        escaped := true;
      } else {
        r := r + [inner[i]];
      }
    }
    assert inner[|inner|..] == "";
  }

  lemma {:induction false} UnescapeEscape(s: string)
    ensures Unescape(Escape(s), false) == s
  {
    if s != "" {
      UnescapeEscape(s[1..]);
      var e := EscapeChar(s[0]) + Escape(s[1..]);
      if |EscapeChar(s[0])| == 2 {
        assert e[1..][1..] == Escape(s[1..]);
        assert e[1..][0] == s[0];
      } else {
        assert e[1..] == Escape(s[1..]);
      }
    }
  }

  /** Unquoting inverts quoting, for every byte string. */
  lemma UnquoteQuote(s: string)
    ensures Unquote(Quote(s)) == s
  {
    QuoteShape(s);
    assert Quote(s)[1..|Quote(s)| - 1] == Escape(s);
    UnescapeEscape(s);
  }

  lemma {:induction false} ScanEscaped(text: string, i: nat, s: string)
    requires i + |Escape(s)| < |text|
    requires text[i..i + |Escape(s)|] == Escape(s) && text[i + |Escape(s)|] == '"'
    ensures ClosingQuote(text, i, false) == i + |Escape(s)|
    decreases |s|
  {
    if s != "" {
      var e, k := Escape(s), |EscapeChar(s[0])|;
      assert e[0] == EscapeChar(s[0])[0] && text[i] == e[0];
      if k == 2 {
        assert text[i + 1] == e[1];
      }
      assert text[i + k..i + |e|] == e[k..] == Escape(s[1..]);
      ScanEscaped(text, i + k, s[1..]);
    }
  }

  /** Quoting is self-delimiting: whatever follows, the scan stops at the last byte of Quote(s). */
  lemma QuoteSelfDelimiting(s: string, t: string)
    ensures ClosingQuote(Quote(s) + t, 1, false) == |Quote(s)| - 1
  {
    QuoteShape(s);
    ScanEscaped(Quote(s) + t, 1, s);
  }

  // ---------------------------------------------------------------------
  // Tokens

  /** The argument tokens of rem; None for an unclosed quote. */
  function Tokens(rem: string): Option<seq<string>>
    decreases |rem|
  {
    var s := Trim(rem);
    if s == "" then Some([])
    else
      var end := TokenEnd(s);
      if end == -1 then None
      else
        match Tokens(s[end..])
        case None => None
        case Some(more) => Some([s[..end]] + more)
  }

  /** Where the first token of s ends: behind the closing quote, or at the first space. */
  function TokenEnd(s: string): (end: int)
    requires s != "" && !IsSpace(s[0])
    ensures end == -1 || 1 <= end <= |s|
  {
    if s[0] == '"' then
      var close := ClosingQuote(s, 1, false);
      if close == -1 then -1 else close + 1
    else IndexOf(s, ' ')
  }

  function Prepend(done: seq<string>, more: Option<seq<string>>): Option<seq<string>> {
    match more
    case None => None
    case Some(ts) => Some(done + ts)
  }

  /** One round of the tokenizer: rem is used up, unbalanced, or one token shorter. */
  lemma TokensRound(args: seq<string>, rem: string)
    ensures var s := Trim(rem);
            if s == "" then Prepend(args, Tokens(rem)) == Some(args)
            else if TokenEnd(s) == -1 then Prepend(args, Tokens(rem)) == None
            else Prepend(args, Tokens(rem)) == Prepend(args + [s[..TokenEnd(s)]], Tokens(s[TokenEnd(s)..]))
  {
    var s := Trim(rem);
    if s == "" {
      assert args + [] == args;
    } else if TokenEnd(s) != -1 {
      match Tokens(s[TokenEnd(s)..])
      case None =>
      case Some(more) => assert args + ([s[..TokenEnd(s)]] + more) == args + [s[..TokenEnd(s)]] + more;
    }
  }

  /** The inner loop of parseTokens. */
  method ScanQuoted(rem: string) returns (i: nat, found: bool)
    requires rem != ""
    ensures found ==> i < |rem|
    ensures ClosingQuote(rem, 1, false) == if found then i else -1
  {
    i := 1;
    found := false;
    var escaped := false;
    while i < |rem|
      invariant 1 <= i <= |rem| && !found
      invariant ClosingQuote(rem, i, escaped) == ClosingQuote(rem, 1, false)
    {
      if escaped {
        escaped := false;
      } else if rem[i] == '\\' {
        escaped := true;
      } else if rem[i] == '"' {
        found := true;
        break;
      }
      i := i + 1;
    }
  }

  method ParseTokens(arguments: string) returns (r: Option<seq<string>>)
    ensures r == Tokens(arguments)
  {
    var rem := arguments;
    var args: seq<string> := [];
    assert Tokens(arguments).Some? ==> [] + Tokens(arguments).value == Tokens(arguments).value;
    while |rem| > 0
      invariant Tokens(arguments) == Prepend(args, Tokens(rem))
      decreases |rem|
    {
      TokensRound(args, rem);
      rem := Trim(rem);
      if rem == "" {
        return Some(args);
      }
      var arg;
      if rem[0] == '"' {
        var i, found := ScanQuoted(rem);
        if !found {
          return None;
        }
        var end := i + 1;
        arg := rem[..end];
        rem := rem[end..];
      } else {
        var end := IndexOf(rem, ' ');
        arg := rem[..end];
        rem := rem[end..];
      }
      args := args + [arg];
    }
    TokensRound(args, rem);
    return Some(args);
  }

  datatype Parsed = Syntax | Command(verb: string, args: seq<string>)

  /** The verb, upper-cased, and the arguments, still quoted. */
  function ParseLine(text: string): Parsed {
    var line := Trim(text);
    if line == "" then Command("", [])
    else
      var sp := IndexOf(line, ' ');
      var verb := ToUpper(line[..sp]);
      if sp == |line| then Command(verb, [])
      else
        match Tokens(Trim(line[sp + 1..]))
        case None => Syntax
        case Some(args) => Command(verb, args)
  }

  // ---------------------------------------------------------------------
  // What the tokens of a line are

  /** One whole quoted string, or a non-empty atom without spaces. */
  predicate IsToken(t: string) {
    t != "" && !IsSpace(t[0]) &&
    if t[0] == '"' then ClosingQuote(t, 1, false) == |t| - 1 else Lacks(t, ' ')
  }

  /** Tokens as a line can hold them: the last one has no white space to lose. */
  predicate IsTokenList(ts: seq<string>) {
    (forall i | 0 <= i < |ts| :: IsToken(ts[i])) && (ts != [] ==> Trimmed(ts[|ts| - 1]))
  }

  /** gaps[0] + ts[0] + gaps[1] + ... + gaps[|ts|]. */
  function Weave(gaps: seq<string>, ts: seq<string>): string
    requires |gaps| == |ts| + 1
  {
    if ts == [] then gaps[0] else gaps[0] + ts[0] + Weave(gaps[1..], ts[1..])
  }

  /** The scan reads no byte behind the quote it stops at. */
  lemma {:induction false} ClosingQuoteCut(s: string, n: nat, i: nat, escaped: bool)
    requires i <= n <= |s|
    ensures ClosingQuote(s[..n], i, escaped) != -1 ==> ClosingQuote(s, i, escaped) == ClosingQuote(s[..n], i, escaped)
    ensures 0 <= ClosingQuote(s, i, escaped) < n ==> ClosingQuote(s[..n], i, escaped) == ClosingQuote(s, i, escaped)
    decreases n - i
  {
    if i < n {
      if escaped {
        ClosingQuoteCut(s, n, i + 1, false);
      } else if s[i] == '\\' {
        ClosingQuoteCut(s, n, i + 1, true);
      } else if s[i] != '"' {
        ClosingQuoteCut(s, n, i + 1, false);
      }
    }
  }

  lemma FirstTokenIsToken(s: string)
    requires Trimmed(s) && s != "" && TokenEnd(s) != -1
    ensures IsToken(s[..TokenEnd(s)])
    ensures AllSpace(s[TokenEnd(s)..]) ==> Trimmed(s[..TokenEnd(s)])
  {
    var end := TokenEnd(s);
    ClosingQuoteCut(s, end, 1, false);
    if end < |s| {
      assert !IsSpace(s[end..][|s| - 1 - end]);
    }
  }

  lemma WeaveCons(gap: string, t: string, gaps: seq<string>, ts: seq<string>)
    requires |gaps| == |ts| + 1
    ensures Weave([gap] + gaps, [t] + ts) == gap + t + Weave(gaps, ts)
  {
    assert ([gap] + gaps)[1..] == gaps && ([t] + ts)[1..] == ts;
  }

  /** Appends white space to the last gap. */
  lemma {:induction false} WidenLast(gaps: seq<string>, ts: seq<string>, extra: string) returns (r: seq<string>)
    requires |gaps| == |ts| + 1 && AllSpace(extra)
    requires forall i | 0 <= i < |gaps| :: AllSpace(gaps[i])
    ensures |r| == |gaps| && forall i | 0 <= i < |r| :: AllSpace(r[i])
    ensures Weave(r, ts) == Weave(gaps, ts) + extra
    decreases |ts|
  {
    if ts == [] {
      r := [gaps[0] + extra];
    } else {
      var w := WidenLast(gaps[1..], ts[1..], extra);
      WeaveCons(gaps[0], ts[0], w, ts[1..]);
      assert ts == [ts[0]] + ts[1..];
      r := [gaps[0]] + w;
    }
  }

  /** The tokens of any text are complete quoted strings and space-free atoms. */
  lemma {:induction false} TokensAreTokens(rem: string)
    requires Tokens(rem).Some?
    ensures IsTokenList(Tokens(rem).value)
    ensures Tokens(rem).value == [] ==> AllSpace(rem)
    decreases |rem|
  {
    var left, right := TrimCuts(rem);
    var s := Trim(rem);
    if s != "" {
      var end := TokenEnd(s);
      TokensAreTokens(s[end..]);
      FirstTokenIsToken(s);
    }
  }

  /**
    A tokenized text is its tokens separated by white space and nothing else:
    no byte is dropped, merged or invented.
   */
  lemma {:induction false} TokensWeave(rem: string) returns (gaps: seq<string>)
    requires Tokens(rem).Some?
    ensures |gaps| == |Tokens(rem).value| + 1
    ensures forall i | 0 <= i < |gaps| :: AllSpace(gaps[i])
    ensures Weave(gaps, Tokens(rem).value) == rem
    decreases |rem|
  {
    var left, right := TrimCuts(rem);
    var s := Trim(rem);
    if s == "" {
      gaps := [rem];
    } else {
      var end := TokenEnd(s);
      var inner := TokensWeave(s[end..]);
      gaps := WeaveAround(left, s[..end], inner, Tokens(s[end..]).value, right);
      SplitAt(s, end);
      ConcatAssoc(left, s[..end], s[end..]);
    }
  }

  lemma WeaveAround(left: string, t: string, inner: seq<string>, ts: seq<string>, right: string)
    returns (gaps: seq<string>)
    requires |inner| == |ts| + 1 && AllSpace(left) && AllSpace(right)
    requires forall i | 0 <= i < |inner| :: AllSpace(inner[i])
    ensures |gaps| == |ts| + 2 && forall i | 0 <= i < |gaps| :: AllSpace(gaps[i])
    ensures Weave(gaps, [t] + ts) == left + t + Weave(inner, ts) + right
  {
    var w := WidenLast(inner, ts, right);
    WeaveCons(left, t, w, ts);
    gaps := [left] + w;
  }

  /** " t0 t1 ... tn": tokens written one after another. */
  function Join(ts: seq<string>): string {
    if ts == [] then "" else " " + (ts[0] + Join(ts[1..]))
  }

  lemma {:induction false} JoinEnd(ts: seq<string>)
    requires IsTokenList(ts) && ts != []
    ensures Join(ts) != "" && Join(ts)[0] == ' '
    ensures !IsSpace(Join(ts)[|Join(ts)| - 1])
  {
    if |ts| > 1 {
      assert ts[1..][|ts| - 2] == ts[|ts| - 1];
      JoinEnd(ts[1..]);
    } else {
      assert ts[1..] == [];
    }
  }

  lemma JoinTrim(ts: seq<string>)
    requires IsTokenList(ts) && ts != []
    ensures Trim(Join(ts)) == ts[0] + Join(ts[1..])
  {
    var s := ts[0] + Join(ts[1..]);
    JoinEnd(ts);
    assert s[|s| - 1] == Join(ts)[|Join(ts)| - 1];
    TrimOneSpace(s);
  }

  /** Writing a list of tokens and tokenizing it again gives the same list. */
  lemma {:induction false} TokensJoin(ts: seq<string>)
    requires IsTokenList(ts)
    ensures Tokens(Join(ts)) == Some(ts)
    decreases |ts|
  {
    if ts == [] {
      assert Trim("") == "";
    } else {
      var s := ts[0] + Join(ts[1..]);
      JoinTrim(ts);
      var n := |ts[0]|;
      assert s[..n] == ts[0] && s[n..] == Join(ts[1..]);
      if ts[0][0] == '"' {
        ClosingQuoteCut(s, n, 1, false);
      } else {
        if ts[1..] != [] {
          assert s[n] == ' ';
        }
        IndexOfAt(s, ' ', n);
      }
      if ts[1..] != [] {
        assert ts[1..][|ts| - 2] == ts[|ts| - 1];
      }
      TokensJoin(ts[1..]);
      assert ts == [ts[0]] + ts[1..];
    }
  }

  /** Re-joining the tokens of any text with single spaces is a normal form of it. */
  lemma TokensNormalForm(rem: string)
    requires Tokens(rem).Some?
    ensures Tokens(Join(Tokens(rem).value)) == Tokens(rem)
  {
    TokensAreTokens(rem);
    TokensJoin(Tokens(rem).value);
  }

  lemma QuotedIsToken(s: string)
    ensures IsToken(Quote(s)) && Trimmed(Quote(s))
  {
    QuoteShape(s);
    QuoteSelfDelimiting(s, "");
    assert Quote(s) + "" == Quote(s);
  }

  // ---------------------------------------------------------------------
  // Numbers and literal markers

  const MAX_INT64: nat := 0x7FFF_FFFF_FFFF_FFFF

  /** The value of a decimal number an int64 can hold. */
  function Number(s: string): Option<nat> {
    if s != "" && AllDigits(s) && Value(s) <= MAX_INT64 then Some(Value(s)) else None
  }

  lemma {:induction false} ValueGrows(s: string, i: nat)
    requires AllDigits(s) && i <= |s|
    ensures Value(s[..i]) <= Value(s)
    decreases |s|
  {
    if i == |s| {
      assert s[..i] == s;
    } else {
      ValueGrows(s[..|s| - 1], i);
      assert s[..|s| - 1][..i] == s[..i];
    }
  }

  /**
    The digit loop of parseInt64. Every intermediate value fits an int64 and
    the answer is exactly that of Number, in both directions.
   */
  method ParseInt64(s: string) returns (r: Option<nat>)
    ensures r == Number(s)
  {
    if |s| == 0 {
      return None;
    }
    var n: nat := 0;
    for i := 0 to |s|
      invariant AllDigits(s[..i]) && n == Value(s[..i]) && n <= MAX_INT64
    {
      if !IsDigit(s[i]) {
        return None;
      }
      assert s[..i + 1][..i] == s[..i];
      if n > (MAX_INT64 - DigitValue(s[i])) / 10 {
        if AllDigits(s) {
          ValueGrows(s, i + 1);
        }
        return None;
      }
      n := n * 10 + DigitValue(s[i]);
    }
    assert s[..|s|] == s;
    return Some(n);
  }

  datatype Marker =
    | NotLiteral
    | BadLength(nonSync: bool)
    | Literal(length: nat, nonSync: bool)

  /** literalLength: what `arg` announces when it is a {N} or {N+} marker. */
  function LiteralLength(arg: string): Marker {
    if arg == "" || arg[0] != '{' || arg[|arg| - 1] != '}' then NotLiteral
    else
      var inner := arg[1..|arg| - 1];
      var nonSync := inner != "" && inner[|inner| - 1] == '+';
      var plain := if nonSync then inner[..|inner| - 1] else inner;
      match Number(plain)
      case None => BadLength(nonSync)
      case Some(n) => Literal(n, nonSync)
  }

  /** A text in braces. */
  predicate InBraces(arg: string, inner: string) {
    arg == "{" + inner + "}"
  }

  /** The length part of a marker. */
  function Marked(inner: string, nonSync: bool): string {
    inner + if nonSync then "+" else ""
  }

  lemma BracesAreOnce(arg: string, inner: string)
    requires InBraces(arg, inner)
    ensures |arg| >= 2 && arg[1..|arg| - 1] == inner && arg[0] == '{' && arg[|arg| - 1] == '}'
  {
  }

  /**
    By its shape alone: a marker is a text in braces, and its length is the number
    written there, without sign or blanks, before the optional plus.
   */
  lemma MarkersAreExactly(arg: string)
    ensures LiteralLength(arg).NotLiteral? <==> forall inner: string :: !InBraces(arg, inner)
    ensures forall n: nat, nonSync :: LiteralLength(arg) == Literal(n, nonSync)
              <==> exists d: string :: InBraces(arg, Marked(d, nonSync)) && Number(d) == Some(n)
    ensures forall inner: string, nonSync :: InBraces(arg, Marked(inner, nonSync)) && LiteralLength(arg).BadLength?
              && (nonSync || inner == "" || inner[|inner| - 1] != '+')
              ==> LiteralLength(arg).nonSync == nonSync && Number(inner) == None
  {
    hide Number;
    if arg != "" && arg[0] == '{' && arg[|arg| - 1] == '}' {
      var inner := arg[1..|arg| - 1];
      assert InBraces(arg, inner);
      var nonSync := inner != "" && inner[|inner| - 1] == '+';
      var plain := if nonSync then inner[..|inner| - 1] else inner;
      assert Marked(plain, nonSync) == inner;
    }
    forall n: nat, nonSync, d: string | InBraces(arg, Marked(d, nonSync)) && Number(d) == Some(n)
      ensures LiteralLength(arg) == Literal(n, nonSync)
    {
      MarkerOfNumber(arg, d, n, nonSync);
    }
    forall inner: string | InBraces(arg, inner) ensures !LiteralLength(arg).NotLiteral? {
      BracesAreOnce(arg, inner);
    }
    forall inner: string, nonSync | InBraces(arg, Marked(inner, nonSync)) && LiteralLength(arg).BadLength?
        && (nonSync || inner == "" || inner[|inner| - 1] != '+')
      ensures LiteralLength(arg).nonSync == nonSync && Number(inner) == None
    {
      BracesAreOnce(arg, Marked(inner, nonSync));
      assert nonSync ==> Marked(inner, true)[..|inner|] == inner;
    }
  }

  lemma MarkerOfNumber(arg: string, d: string, n: nat, nonSync: bool)
    requires InBraces(arg, Marked(d, nonSync)) && Number(d) == Some(n)
    ensures LiteralLength(arg) == Literal(n, nonSync)
  {
    BracesAreOnce(arg, Marked(d, nonSync));
    assert d[|d| - 1] != '+';
    if nonSync {
      assert Marked(d, true)[..|d|] == d;
    } else {
      assert Marked(d, false) == d;
    }
  }

  /** The marker a client writes for a literal of n bytes. */
  function PrintMarker(n: nat, nonSync: bool): string {
    "{" + (Decimal(n) + (if nonSync then "+" else "")) + "}"
  }

  lemma Braced(s: string)
    ensures var m := "{" + s + "}"; m[0] == '{' && m[|m| - 1] == '}' && m[1..|m| - 1] == s
  {
  }

  /** Reading a marker inverts printing it, for every length an int64 holds. */
  lemma MarkerRoundTrip(n: nat, nonSync: bool)
    requires n <= MAX_INT64
    ensures LiteralLength(PrintMarker(n, nonSync)) == Literal(n, nonSync)
  {
    var d := Decimal(n);
    if nonSync {
      Braced(d + "+");
      assert (d + "+")[..|d|] == d;
    } else {
      Braced(d);
      assert d + "" == d;
    }
  }

  lemma MarkerIsToken(n: nat, nonSync: bool)
    ensures IsToken(PrintMarker(n, nonSync)) && Trimmed(PrintMarker(n, nonSync))
    ensures Lacks(PrintMarker(n, nonSync), '\n')
  {
  }

  /** A quoted token is never taken for a marker, whatever it quotes. */
  lemma QuotedIsNoMarker(s: string)
    ensures LiteralLength(Quote(s)) == NotLiteral
  {
    QuoteShape(s);
  }
}
