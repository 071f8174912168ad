/**
  Byte strings and the wire text helpers shared by server and client
  (managesieve/managesieve.go, managesieveserver/errors.go).

  A Go string is a sequence of bytes; here one `char` stands for one byte.
  Nothing below bounds the chars from above, so every statement holds for all
  byte strings. White space and letter case are the ASCII ones.
 */
module Text {
  datatype Option<+T> = None | Some(value: T)

  lemma ConcatAssoc(a: string, b: string, c: string)
    ensures (a + b) + c == a + (b + c)
  {
  }

  lemma SplitAt(s: string, n: nat)
    requires n <= |s|
    ensures s == s[..n] + s[n..]
  {
  }

  // ---------------------------------------------------------------------
  // White space, searching, letter case

  predicate IsSpace(c: char) {
    c == ' ' || c == '\t' || c == '\n' || c == '\r' || c == '\U{0B}' || c == '\U{0C}'
  }

  predicate AllSpace(s: string) {
    forall i | 0 <= i < |s| :: IsSpace(s[i])
  }

  predicate Trimmed(s: string) {
    s == "" || (!IsSpace(s[0]) && !IsSpace(s[|s| - 1]))
  }

  function TrimLeft(s: string): (r: string)
    ensures |r| <= |s|
  {
    if s != "" && IsSpace(s[0]) then TrimLeft(s[1..]) else s
  }

  function TrimRight(s: string): (r: string)
    ensures |r| <= |s|
  {
    if s != "" && IsSpace(s[|s| - 1]) then TrimRight(s[..|s| - 1]) else s
  }

  /** strings.TrimSpace over the ASCII white space. */
  function Trim(s: string): (r: string)
    ensures |r| <= |s| && Trimmed(r)
  {
    TrimTrims(s);
    TrimRight(TrimLeft(s))
  }

  lemma {:induction false} TrimLeftCuts(s: string)
    ensures TrimLeft(s) == s[|s| - |TrimLeft(s)|..] && AllSpace(s[..|s| - |TrimLeft(s)|])
    ensures TrimLeft(s) == "" || !IsSpace(TrimLeft(s)[0])
  {
    if s != "" && IsSpace(s[0]) {
      TrimLeftCuts(s[1..]);
    }
  }

  lemma {:induction false} TrimRightCuts(s: string)
    ensures TrimRight(s) == s[..|TrimRight(s)|] && AllSpace(s[|TrimRight(s)|..])
    ensures TrimRight(s) == "" || !IsSpace(TrimRight(s)[|TrimRight(s)| - 1])
  {
    if s != "" && IsSpace(s[|s| - 1]) {
      TrimRightCuts(s[..|s| - 1]);
    }
  }

  /** Trimming removes white space at both ends, all of it, and nothing else. */
  lemma TrimCuts(s: string) returns (left: string, right: string)
    ensures s == left + TrimRight(TrimLeft(s)) + right
    ensures AllSpace(left) && AllSpace(right) && Trimmed(TrimRight(TrimLeft(s)))
  {
    TrimLeftCuts(s);
    var l := TrimLeft(s);
    TrimRightCuts(l);
    var r := TrimRight(l);
    left, right := s[..|s| - |l|], l[|r|..];
    assert r != "" ==> r[0] == l[0];
  }

  lemma TrimTrims(s: string)
    ensures Trimmed(TrimRight(TrimLeft(s)))
  {
    var left, right := TrimCuts(s);
  }

  lemma TrimId(s: string)
    requires Trimmed(s)
    ensures Trim(s) == s
  {
  }

  lemma TrimOneSpace(s: string)
    requires Trimmed(s)
    ensures Trim(" " + s) == s
  {
    assert (" " + s)[1..] == s;
    assert TrimLeft(" " + s) == TrimLeft(s);
  }

  lemma {:induction false} TrimRightEnd(s: string, e: string)
    requires AllSpace(e)
    ensures TrimRight(s + e) == TrimRight(s)
    decreases |e|
  {
    if e == "" {
      assert s + e == s;
    } else {
      assert (s + e)[..|s + e| - 1] == s + e[..|e| - 1];
      TrimRightEnd(s, e[..|e| - 1]);
    }
  }

  /** The line terminator never survives trimming. */
  lemma TrimCRLF(s: string)
    requires Trimmed(s)
    ensures Trim(s + "\r\n") == s
  {
    if s == "" {
      assert s + "\r\n" == "\r\n";
      assert TrimLeft("\r\n") == "" by {
        assert "\r\n"[1..] == "\n";
        assert "\n"[1..] == "";
      }
    } else {
      assert TrimLeft(s + "\r\n") == s + "\r\n";
      assert AllSpace("\r\n");
      TrimRightEnd(s, "\r\n");
    }
  }

  /** strings.Index for a single byte: the first position of c, or |s|. */
  function IndexOf(s: string, c: char): (i: nat)
    ensures i <= |s|
    ensures forall j | 0 <= j < i :: s[j] != c
    ensures i < |s| ==> s[i] == c
  {
    if s == "" then 0 else if s[0] == c then 0 else 1 + IndexOf(s[1..], c)
  }

  lemma IndexOfAt(s: string, c: char, i: nat)
    requires i <= |s| && (forall j | 0 <= j < i :: s[j] != c)
    requires i < |s| ==> s[i] == c
    ensures IndexOf(s, c) == i
  {
  }

  function UpperChar(c: char): char {
    if 'a' <= c <= 'z' then (c as int - 32) as char else c
  }

  function ToUpper(s: string): (r: string)
    ensures |r| == |s|
    ensures forall i | 0 <= i < |s| :: r[i] == UpperChar(s[i])
  {
    seq(|s|, i requires 0 <= i < |s| => UpperChar(s[i]))
  }

  predicate IsUpper(s: string) {
    forall i | 0 <= i < |s| :: !('a' <= s[i] <= 'z')
  }

  lemma ToUpperId(s: string)
    requires IsUpper(s)
    ensures ToUpper(s) == s
  {
  }

  predicate Lacks(s: string, c: char) {
    forall i | 0 <= i < |s| :: s[i] != c
  }

  // ---------------------------------------------------------------------
  // Quoting (RFC 5804 section 4)

  /** strings.ReplaceAll for a one-byte pattern. */
  function ReplaceAll(s: string, c: char, sub: string): string {
    if s == "" then ""
    else (if s[0] == c then sub else [s[0]]) + ReplaceAll(s[1..], c, sub)
  }

  function Quote(s: string): string {
    "\"" + ReplaceAll(ReplaceAll(s, '\\', "\\\\"), '"', "\\\"") + "\""
  }

  function EscapeChar(c: char): string {
    if c == '\\' then "\\\\" else if c == '"' then "\\\"" else [c]
  }

  /** The per-byte escape that the two passes of Quote amount to. */
  function Escape(s: string): string {
    if s == "" then "" else EscapeChar(s[0]) + Escape(s[1..])
  }

  lemma {:induction false} ReplaceAllConcat(a: string, b: string, c: char, sub: string)
    ensures ReplaceAll(a + b, c, sub) == ReplaceAll(a, c, sub) + ReplaceAll(b, c, sub)
  {
    if a == "" {
      assert a + b == b;
    } else {
      assert (a + b)[1..] == a[1..] + b;
      ReplaceAllConcat(a[1..], b, c, sub);
    }
  }

  lemma {:induction false} EscapeIsTwoPasses(s: string)
    ensures ReplaceAll(ReplaceAll(s, '\\', "\\\\"), '"', "\\\"") == Escape(s)
  {
    if s != "" {
      var head := if s[0] == '\\' then "\\\\" else [s[0]];
      var tail := ReplaceAll(s[1..], '\\', "\\\\");
      ReplaceAllConcat(head, tail, '"', "\\\"");
      EscapeIsTwoPasses(s[1..]);
      assert ReplaceAll(head, '"', "\\\"") == EscapeChar(s[0]) by {
        if s[0] == '\\' {
          assert head[1..] == "\\" && "\\"[1..] == "";
        } else {
          assert head[1..] == "";
        }
      }
    }
  }

  lemma QuoteShape(s: string)
    ensures Quote(s) == "\"" + Escape(s) + "\""
    ensures |Quote(s)| >= 2 && Quote(s)[0] == '"' && Quote(s)[|Quote(s)| - 1] == '"'
    ensures Trimmed(Quote(s))
  {
    EscapeIsTwoPasses(s);
  }

  lemma {:induction false} EscapeConcat(a: string, b: string)
    ensures Escape(a + b) == Escape(a) + Escape(b)
  {
    if a == "" {
      assert a + b == b;
    } else {
      assert (a + b)[1..] == a[1..] + b;
      EscapeConcat(a[1..], b);
    }
  }

  lemma {:induction false} EscapeLacks(s: string, c: char)
    requires Lacks(s, c) && c != '\\' && c != '"'
    ensures Lacks(Escape(s), c)
  {
    if s != "" {
      EscapeLacks(s[1..], c);
    }
  }

  /** Quoting adds no control byte: a value without c is quoted without c. */
  lemma QuoteLacks(s: string, c: char)
    requires Lacks(s, c) && c != '\\' && c != '"'
    ensures Lacks(Quote(s), c)
  {
    QuoteShape(s);
    EscapeLacks(s, c);
  }

  // ---------------------------------------------------------------------
  // UTF-8, SanitizeText and ValidateScriptName

  predicate Cont(c: char) {
    '\U{80}' <= c <= '\U{BF}'
  }

  /** Length of the well-formed UTF-8 sequence at the head of s, 0 if there is none (section 4 of RFC 3629). */
  function RuneLen(s: string): (w: nat)
    ensures w <= 4 && w <= |s|
    ensures 2 <= w ==> forall i | 0 <= i < w :: s[i] >= '\U{80}'
    ensures w == 1 ==> s[0] < '\U{80}'
  {
    if s == "" then 0
    else if s[0] < '\U{80}' then 1
    else if |s| < 2 then 0
    else if '\U{C2}' <= s[0] <= '\U{DF}' then if Cont(s[1]) then 2 else 0
    else if |s| < 3 then 0
    else if '\U{E0}' <= s[0] <= '\U{EF}' then
      var lo := if s[0] == '\U{E0}' then '\U{A0}' else '\U{80}';
      var hi := if s[0] == '\U{ED}' then '\U{9F}' else '\U{BF}';
      if lo <= s[1] <= hi && Cont(s[2]) then 3 else 0
    else if |s| < 4 then 0
    else if '\U{F0}' <= s[0] <= '\U{F4}' then
      var lo := if s[0] == '\U{F0}' then '\U{90}' else '\U{80}';
      var hi := if s[0] == '\U{F4}' then '\U{8F}' else '\U{BF}';
      if lo <= s[1] <= hi && Cont(s[2]) && Cont(s[3]) then 4 else 0
    else 0
  }

  predicate IsControl(c: char) {
    c < ' ' || c == '\U{7F}'
  }

  predicate NoControl(s: string) {
    forall i | 0 <= i < |s| :: !IsControl(s[i])
  }

  /** strings.Map with the control filter: an ill-formed byte is rewritten as U+FFFD. */
  function SanitizeText(s: string): (r: string)
    ensures NoControl(r)
  {
    if s == "" then ""
    else
      var w := RuneLen(s);
      if w == 0 then "\U{EF}\U{BF}\U{BD}" + SanitizeText(s[1..])
      else if w == 1 then (if IsControl(s[0]) then " " else [s[0]]) + SanitizeText(s[1..])
      else s[..w] + SanitizeText(s[w..])
  }

  predicate ValidUtf8(s: string)
    decreases |s|
  {
    s == "" || (RuneLen(s) > 0 && ValidUtf8(s[RuneLen(s)..]))
  }

  /** U+0080..U+009F in UTF-8. */
  predicate C1At(s: string, i: nat)
    requires i < |s|
  {
    s[i] == '\U{C2}' && i + 1 < |s| && '\U{80}' <= s[i + 1] <= '\U{9F}'
  }

  datatype NameError = EmptyName | NotUtf8 | ControlChar {
    function Message(): string {
      match this
      case EmptyName => "script name cannot be empty"
      case NotUtf8 => "script name must be valid UTF-8"
      case ControlChar => "script name must not contain control characters"
    }
  }

  function ValidateScriptName(name: string): (r: Option<NameError>) {
    if name == "" then Some(EmptyName)
    else if !ValidUtf8(name) then Some(NotUtf8)
    else if exists i | 0 <= i < |name| :: IsControl(name[i]) || C1At(name, i) then Some(ControlChar)
    else None
  }

  lemma {:induction false} SanitizeId(s: string)
    requires ValidUtf8(s) && NoControl(s)
    ensures SanitizeText(s) == s
    decreases |s|
  {
    if s != "" {
      var w := RuneLen(s);
      SanitizeId(s[w..]);
      assert s == s[..w] + s[w..];
    }
  }

  /** An accepted name reaches the client unchanged. */
  lemma ValidNameUnchanged(name: string)
    requires ValidateScriptName(name) == None
    ensures SanitizeText(name) == name && NoControl(name)
  {
    SanitizeId(name);
  }

  // ---------------------------------------------------------------------
  // Response text

  /** strings.NewReplacer("\r", "", "\n", ""). */
  function StripCRLF(s: string): (r: string)
    ensures Lacks(r, '\r') && Lacks(r, '\n')
    ensures Lacks(s, '\r') && Lacks(s, '\n') ==> r == s
  {
    if s == "" then ""
    else (if s[0] == '\r' || s[0] == '\n' then "" else [s[0]]) + StripCRLF(s[1..])
  }

  /** A carriage return or line feed is dropped, and nothing else: what surrounds it stays, in order. */
  lemma {:induction false} StripDropsOne(front: string, c: char, rest: string)
    requires Lacks(front, '\r') && Lacks(front, '\n') && (c == '\r' || c == '\n')
    ensures StripCRLF(front + ([c] + rest)) == front + StripCRLF(rest)
  {
    var s := front + ([c] + rest);
    if front == "" {
      assert s == [c] + rest && s[1..] == rest;
    } else {
      assert s[1..] == front[1..] + ([c] + rest) && s[0] == front[0];
      assert [front[0]] + (front[1..] + StripCRLF(rest)) == front + StripCRLF(rest);
      StripDropsOne(front[1..], c, rest);
    }
  }

  // ---------------------------------------------------------------------
  // Decimal numbers

  predicate IsDigit(c: char) {
    '0' <= c <= '9'
  }

  function DigitValue(c: char): (v: nat)
    requires IsDigit(c)
    ensures v < 10
  {
    c as int - '0' as int
  }

  predicate AllDigits(s: string) {
    forall i | 0 <= i < |s| :: IsDigit(s[i])
  }

  /** The number a digit string denotes. */
  function Value(s: string): nat
    requires AllDigits(s)
  {
    if s == "" then 0 else Value(s[..|s| - 1]) * 10 + DigitValue(s[|s| - 1])
  }

  /** The %d rendering of a non-negative number. */
  function Decimal(n: nat): (s: string)
    ensures s != "" && AllDigits(s) && Value(s) == n
    ensures n > 0 ==> s[0] != '0'
  {
    var d := [(n % 10 + '0' as int) as char];
    if n < 10 then
      assert d[..0] == "" && Value("") == 0;
      d
    else
      var r := Decimal(n / 10) + d;
      assert r[..|r| - 1] == Decimal(n / 10);
      r
  }
}
