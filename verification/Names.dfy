/**
  Script names and other texts as sequences of code points: what the byte tests
  of managesieve/managesieve.go come to for the text that the bytes encode.
 */
module Names {
  import opened Text

  /** A Unicode scalar value. */
  predicate Scalar(cp: int) {
    0 <= cp < 0xD800 || 0xE000 <= cp < 0x11_0000
  }

  function Byte(n: int): char
    requires 0 <= n < 0x100
  {
    n as char
  }

  function Six(n: int): char {
    Byte(0x80 + n % 0x40)
  }

  /** The UTF-8 encoding of a code point (section 3 of RFC 3629). */
  function Utf8(cp: int): string
    requires Scalar(cp)
  {
    if cp < 0x80 then [Byte(cp)]
    else if cp < 0x800 then [Byte(0xC0 + cp / 0x40), Six(cp)]
    else if cp < 0x1_0000 then [Byte(0xE0 + cp / 0x1000), Six(cp / 0x40), Six(cp)]
    else [Byte(0xF0 + cp / 0x4_0000), Six(cp / 0x1000), Six(cp / 0x40), Six(cp)]
  }

  predicate AllScalar(cps: seq<int>) {
    forall i | 0 <= i < |cps| :: Scalar(cps[i])
  }

  function EncodeText(cps: seq<int>): string
    requires AllScalar(cps)
  {
    if cps == [] then "" else Utf8(cps[0]) + EncodeText(cps[1..])
  }

  // ---------------------------------------------------------------------
  // One code point

  lemma SixIsCont(n: int)
    ensures Cont(Six(n)) && Six(n) as int == 0x80 + n % 0x40
  {
  }

  /** An encoded code point is found at the head of whatever text starts with it. */
  lemma RuneOfCode(cp: int, rest: string)
    requires Scalar(cp)
    ensures RuneLen(Utf8(cp) + rest) == |Utf8(cp)|
  {
    hide Six;
    SixIsCont(cp);
    SixIsCont(cp / 0x40);
    SixIsCont(cp / 0x1000);
    var s := Utf8(cp) + rest;
    if 0x800 <= cp < 0x1_0000 {
      assert cp / 0x1000 == 0 ==> cp / 0x40 % 0x40 >= 0x20;
      assert cp / 0x1000 == 0xD ==> cp / 0x40 % 0x40 < 0x20;
    } else if 0x1_0000 <= cp {
      assert cp / 0x4_0000 == 0 ==> cp / 0x1000 % 0x40 >= 0x10;
      assert cp / 0x4_0000 == 4 ==> cp / 0x1000 % 0x40 < 0x10;
    }
  }

  function Low(c: char): int
    requires Cont(c)
  {
    c as int - 0x80
  }

  lemma SixOfLow(n: int, c: char)
    requires Cont(c)
    ensures Six(n * 0x40 + Low(c)) == c && (n * 0x40 + Low(c)) / 0x40 == n
  {
  }

  /** What is found at the head of a text is an encoded code point. */
  lemma CodeOfRune(s: string) returns (cp: int)
    requires RuneLen(s) > 0
    ensures Scalar(cp) && s[..RuneLen(s)] == Utf8(cp)
  {
    hide Six, Low;
    var w := RuneLen(s);
    if w == 1 {
      cp := s[0] as int;
    } else if w == 2 {
      cp := TwoBytes(s[0], s[1]);
    } else if w == 3 {
      cp := ThreeBytes(s[0], s[1], s[2]);
    } else {
      cp := FourBytes(s[0], s[1], s[2], s[3]);
    }
  }

  lemma TwoBytes(a: char, b: char) returns (cp: int)
    requires '\U{C2}' <= a <= '\U{DF}' && Cont(b)
    ensures Scalar(cp) && Utf8(cp) == [a, b]
  {
    cp := (a as int - 0xC0) * 0x40 + Low(b);
    SixOfLow(a as int - 0xC0, b);
  }

  lemma ThreeBytes(a: char, b: char, c: char) returns (cp: int)
    requires '\U{E0}' <= a <= '\U{EF}' && Cont(b) && Cont(c)
    requires (a == '\U{E0}' ==> '\U{A0}' <= b) && (a == '\U{ED}' ==> b <= '\U{9F}')
    ensures Scalar(cp) && Utf8(cp) == [a, b, c]
  {
    var n := (a as int - 0xE0) * 0x40 + Low(b);
    cp := n * 0x40 + Low(c);
    SixOfLow(a as int - 0xE0, b);
    SixOfLow(n, c);
  }

  lemma FourBytes(a: char, b: char, c: char, d: char) returns (cp: int)
    requires '\U{F0}' <= a <= '\U{F4}' && Cont(b) && Cont(c) && Cont(d)
    requires (a == '\U{F0}' ==> '\U{90}' <= b) && (a == '\U{F4}' ==> b <= '\U{8F}')
    ensures Scalar(cp) && Utf8(cp) == [a, b, c, d]
  {
    var m := (a as int - 0xF0) * 0x40 + Low(b);
    var n := m * 0x40 + Low(c);
    cp := n * 0x40 + Low(d);
    SixOfLow(a as int - 0xF0, b);
    SixOfLow(m, c);
    SixOfLow(n, d);
  }

  // ---------------------------------------------------------------------
  // Texts

  lemma {:induction false} EncodedIsValid(cps: seq<int>)
    requires AllScalar(cps)
    ensures ValidUtf8(EncodeText(cps))
  {
    hide RuneLen, Utf8;
    if cps != [] {
      var rest := EncodeText(cps[1..]);
      RuneOfCode(cps[0], rest);
      EncodedIsValid(cps[1..]);
      var s := Utf8(cps[0]) + rest;
      assert s[|Utf8(cps[0])|..] == rest;
      assert |Utf8(cps[0])| > 0 by { NotNothing(cps[0]); }
    }
  }

  lemma NotNothing(cp: int)
    requires Scalar(cp)
    ensures Utf8(cp) != ""
  {
  }

  lemma {:induction false} ValidIsEncoded(s: string) returns (cps: seq<int>)
    requires ValidUtf8(s)
    ensures AllScalar(cps) && EncodeText(cps) == s
    decreases |s|
  {
    hide RuneLen, Utf8;
    cps := [];
    if s != "" {
      var w := RuneLen(s);
      var cp := CodeOfRune(s);
      var rest := ValidIsEncoded(s[w..]);
      cps := [cp] + rest;
      assert cps[1..] == rest && s == s[..w] + s[w..];
    }
  }

  /** C0, DEL and C1. */
  predicate ControlPoint(cp: int) {
    cp < 0x20 || 0x7F <= cp <= 0x9F
  }

  predicate HasControl(s: string) {
    exists i | 0 <= i < |s| :: IsControl(s[i]) || C1At(s, i)
  }

  lemma ControlInFront(cp: int, rest: string)
    requires Scalar(cp)
    ensures HasControl(Utf8(cp) + rest) <==> ControlPoint(cp) || HasControl(rest)
  {
    hide Six;
    var front, s := Utf8(cp), Utf8(cp) + rest;
    SixIsCont(cp);
    SixIsCont(cp / 0x40);
    SixIsCont(cp / 0x1000);
    forall i | |front| <= i < |s|
      ensures (IsControl(s[i]) || C1At(s, i)) <==> (IsControl(rest[i - |front|]) || C1At(rest, i - |front|))
    {
      assert s[i] == rest[i - |front|];
    }
    if HasControl(rest) {
      var i :| 0 <= i < |rest| && (IsControl(rest[i]) || C1At(rest, i));
      assert s[i + |front|] == rest[i];
    }
    if ControlPoint(cp) {
      assert IsControl(s[0]) || C1At(s, 0);
    }
    forall i | 0 <= i < |front| && !ControlPoint(cp) ensures !IsControl(s[i]) && !C1At(s, i) {
      FrontIsClean(cp, rest, i);
    }
  }

  lemma FrontIsClean(cp: int, rest: string, i: nat)
    requires Scalar(cp) && !ControlPoint(cp) && i < |Utf8(cp)|
    ensures !IsControl((Utf8(cp) + rest)[i]) && !C1At(Utf8(cp) + rest, i)
  {
    hide Six;
    SixIsCont(cp);
    SixIsCont(cp / 0x40);
    SixIsCont(cp / 0x1000);
  }

  lemma {:induction false} ControlInText(cps: seq<int>)
    requires AllScalar(cps)
    ensures HasControl(EncodeText(cps)) <==> exists i | 0 <= i < |cps| :: ControlPoint(cps[i])
  {
    hide Utf8, ControlPoint, HasControl;
    if cps == [] {
      assert !HasControl("") by { NothingControls(); }
    } else {
      ControlInFront(cps[0], EncodeText(cps[1..]));
      ControlInText(cps[1..]);
      if i :| 0 <= i < |cps[1..]| && ControlPoint(cps[1..][i]) {
        assert cps[i + 1] == cps[1..][i];
      }
      forall i | 0 < i < |cps| ensures cps[i] == cps[1..][i - 1] {
      }
    }
  }

  lemma NothingControls()
    ensures !HasControl("")
  {
  }

  /** These code points make a name: at least one, none of them a control character. */
  predicate Nameable(cps: seq<int>) {
    cps != [] && AllScalar(cps) && forall i | 0 <= i < |cps| :: !ControlPoint(cps[i])
  }

  /** A byte string is accepted as a name exactly if it encodes at least one character and no control character. */
  lemma NamesAreTexts(name: string)
    ensures ValidateScriptName(name) == None <==> exists cps: seq<int> :: Nameable(cps) && EncodeText(cps) == name
  {
    hide RuneLen, Utf8, ControlPoint;
    assert HasControl(name) <==> exists i | 0 <= i < |name| :: IsControl(name[i]) || C1At(name, i);
    if ValidateScriptName(name) == None {
      var cps := ValidIsEncoded(name);
      ControlInText(cps);
      assert Nameable(cps);
    }
    if cps: seq<int> :| Nameable(cps) && EncodeText(cps) == name {
      EncodedIsValid(cps);
      ControlInText(cps);
      NotNothing(cps[0]);
    }
  }

  // ---------------------------------------------------------------------
  // Sanitizing

  predicate IsC0(cp: int) {
    cp < 0x20 || cp == 0x7F
  }

  function Blanked(cps: seq<int>): seq<int> {
    seq(|cps|, i requires 0 <= i < |cps| => if IsC0(cps[i]) then 0x20 else cps[i])
  }

  lemma OneSanitized(cp: int, rest: string)
    requires Scalar(cp)
    ensures SanitizeText(Utf8(cp) + rest) == (if IsC0(cp) then " " else Utf8(cp)) + SanitizeText(rest)
  {
    hide Six;
    RuneOfCode(cp, rest);
    var front, s := Utf8(cp), Utf8(cp) + rest;
    assert s[..|front|] == front && s[|front|..] == rest;
  }

  /** Sanitizing a text turns its control characters into blanks, and leaves every other character. */
  lemma {:induction false} SanitizedText(cps: seq<int>)
    requires AllScalar(cps)
    ensures AllScalar(Blanked(cps)) && SanitizeText(EncodeText(cps)) == EncodeText(Blanked(cps))
  {
    hide Utf8, SanitizeText;
    if cps == [] {
      assert SanitizeText("") == "" by { NothingSanitized(); }
    } else {
      SanitizedText(cps[1..]);
      OneSanitized(cps[0], EncodeText(cps[1..]));
      assert Utf8(0x20) == " " by { BlankIsBlank(); }
      assert Blanked(cps)[1..] == Blanked(cps[1..]);
    }
  }

  lemma BlankIsBlank()
    ensures Utf8(0x20) == " "
  {
  }

  lemma NothingSanitized()
    ensures SanitizeText("") == ""
  {
  }

  lemma RuneStarts(s: string)
    requires RuneLen(s) > 0
    ensures exists cp: int | Scalar(cp) :: Utf8(cp) <= s
  {
    var cp := CodeOfRune(s);
    assert s[..RuneLen(s)] <= s;
    assert Utf8(cp) <= s;
  }

  /** A byte that starts no code point becomes the replacement character. */
  lemma IllFormedIsReplaced(s: string)
    requires s != "" && forall cp: int | Scalar(cp) :: !(Utf8(cp) <= s)
    ensures SanitizeText(s) == Utf8(0xFFFD) + SanitizeText(s[1..])
  {
    if RuneLen(s) > 0 {
      RuneStarts(s);
    }
  }
}
