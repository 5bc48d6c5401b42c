/** UTF-8 text as the Rust standard library sees it: strict decoding (no overlong forms, no
    surrogates, nothing above U+10FFFF), encoding, and trimming of Unicode white space. */
module Utf8 {
  import opened Basics

  function EncodeChar(c: char): (bytes: Bytes)
    ensures 1 <= |bytes| <= 4
  {
    var x := c as int;
    if x < 0x80 then [x]
    else if x < 0x800 then [0xC0 + x / 0x40, 0x80 + x % 0x40]
    else if x < 0x1_0000 then [0xE0 + x / 0x1000, 0x80 + x / 0x40 % 0x40, 0x80 + x % 0x40]
    else [0xF0 + x / 0x4_0000, 0x80 + x / 0x1000 % 0x40, 0x80 + x / 0x40 % 0x40, 0x80 + x % 0x40]
  }

  function Encode(s: string): Bytes {
    if s == "" then [] else EncodeChar(s[0]) + Encode(s[1..])
  }

  predicate Continuation(b: U8) { 0x80 <= b < 0xC0 }

  /** The scalar value of the leading byte's payload followed by three six-bit groups. */
  function Scalar(a: int, b: int, c: int, d: int): int { a * 0x4_0000 + b * 0x1000 + c * 0x40 + d }

  /** The first character of a byte string and how many bytes it takes. */
  function DecodeChar(bytes: Bytes): (r: Option<(char, nat)>)
    requires bytes != []
    ensures r.Some? ==> 1 <= r.value.1 <= |bytes|
  {
    var b0: int := bytes[0];
    var b1: int := if |bytes| >= 2 && Continuation(bytes[1]) then bytes[1] - 0x80 else -1;
    var b2: int := if |bytes| >= 3 && Continuation(bytes[2]) then bytes[2] - 0x80 else -1;
    var b3: int := if |bytes| >= 4 && Continuation(bytes[3]) then bytes[3] - 0x80 else -1;
    if b0 < 0x80 then Some((b0 as char, 1))
    else if 0xC2 <= b0 < 0xE0 && b1 >= 0 then Some((Scalar(0, 0, b0 - 0xC0, b1) as char, 2))
    else if 0xE0 <= b0 < 0xF0 && b1 >= 0 && b2 >= 0 && (b0 == 0xE0 ==> b1 >= 0x20) && (b0 == 0xED ==> b1 < 0x20)
    then Some((Scalar(0, b0 - 0xE0, b1, b2) as char, 3))
    else if 0xF0 <= b0 < 0xF5 && b1 >= 0 && b2 >= 0 && b3 >= 0 && (b0 == 0xF0 ==> b1 >= 0x10) && (b0 == 0xF4 ==> b1 < 0x10)
    then Some((Scalar(b0 - 0xF0, b1, b2, b3) as char, 4))
    else None
  }

  function Decode(b: Bytes): Option<string> {
    if b == [] then Some("")
    else
      match DecodeChar(b)
      case None => None
      case Some((c, n)) =>
        match Decode(b[n..])
        case None => None
        case Some(rest) => Some([c] + rest)
  }

  lemma ScalarDigits(a: int, b: int, c: int, d: int)
    requires 0 <= b < 0x40 && 0 <= c < 0x40 && 0 <= d < 0x40
    ensures var x := Scalar(a, b, c, d);
            x / 0x4_0000 == a && x / 0x1000 % 0x40 == b && x / 0x40 % 0x40 == c && x % 0x40 == d
  {
    var x := Scalar(a, b, c, d);
    assert x / 0x40 == a * 0x1000 + b * 0x40 + c;
    assert x / 0x1000 == a * 0x40 + b;
  }

  lemma DigitsScalar(x: int)
    requires 0 <= x < 0x11_0000
    ensures Scalar(x / 0x4_0000, x / 0x1000 % 0x40, x / 0x40 % 0x40, x % 0x40) == x
    ensures x < 0x1_0000 ==> x / 0x4_0000 == 0 && x / 0x1000 % 0x40 == x / 0x1000
    ensures x < 0x800 ==> x / 0x1000 == 0 && x / 0x40 % 0x40 == x / 0x40
  {
    var a := x / 0x40;
    var b := a / 0x40;
    assert x / 0x1000 == b && x / 0x4_0000 == b / 0x40;
    assert x == a * 0x40 + x % 0x40 && a == b * 0x40 + a % 0x40 && b == b / 0x40 * 0x40 + b % 0x40;
  }

  lemma DecodeCharOfEncoding(c: char, rest: Bytes)
    ensures EncodeChar(c) + rest != []
    ensures DecodeChar(EncodeChar(c) + rest) == Some((c, |EncodeChar(c)|))
  {
    DigitsScalar(c as int);
  }

  lemma EncodingOfDecodedChar(b: Bytes)
    requires b != [] && DecodeChar(b).Some?
    ensures EncodeChar(DecodeChar(b).value.0) == b[..DecodeChar(b).value.1]
  {
    var n := DecodeChar(b).value.1;
    if n == 2 {
      ScalarDigits(0, 0, b[0] - 0xC0, b[1] - 0x80);
    } else if n == 3 {
      ScalarDigits(0, b[0] - 0xE0, b[1] - 0x80, b[2] - 0x80);
    } else if n == 4 {
      ScalarDigits(b[0] - 0xF0, b[1] - 0x80, b[2] - 0x80, b[3] - 0x80);
    }
  }

  /** Decoding undoes encoding, for every text. */
  lemma {:induction false} DecodeUndoesEncode(s: string)
    ensures Decode(Encode(s)) == Some(s)
  {
    if s != "" {
      assert s == [s[0]] + s[1..];
      DecodeUndoesEncode(s[1..]);
      DecodeCharOfEncoding(s[0], Encode(s[1..]));
      assert Encode(s)[|EncodeChar(s[0])|..] == Encode(s[1..]);
    }
  }

  lemma DecodeStep(b: Bytes)
    requires Decode(b).Some?
    ensures b == [] ==> Decode(b).value == ""
    ensures b != [] ==>
              && DecodeChar(b).Some?
              && var (c, n) := DecodeChar(b).value;
                 Decode(b[n..]).Some? && Decode(b).value == [c] + Decode(b[n..]).value
  {
    hide DecodeChar;
  }

  lemma EncodeStep(c: char, rest: string)
    ensures Encode([c] + rest) == EncodeChar(c) + Encode(rest)
    ensures Encode("") == []
  {
    hide EncodeChar;
    assert ([c] + rest)[1..] == rest;
  }

  /** Encoding undoes decoding, for every byte string that decodes. */
  lemma {:induction false} EncodeUndoesDecode(b: Bytes)
    requires Decode(b).Some?
    ensures Encode(Decode(b).value) == b
    decreases |b|
  {
    hide *;
    DecodeStep(b);
    if b == [] {
      EncodeStep('a', "");
    } else {
      var (c, n) := DecodeChar(b).value;
      EncodingOfDecodedChar(b);
      EncodeUndoesDecode(b[n..]);
      EncodeStep(c, Decode(b[n..]).value);
      assert b == b[..n] + b[n..];
    }
  }

  lemma {:induction false} EncodeConcat(s: string, t: string)
    ensures Encode(s + t) == Encode(s) + Encode(t)
  {
    if s == "" {
      assert s + t == t;
    } else {
      assert (s + t)[1..] == s[1..] + t;
      EncodeConcat(s[1..], t);
    }
  }

  /** An ASCII byte occurs in an encoding only as that character. */
  lemma {:induction false} AsciiBytesAreCharacters(s: string, b: U8)
    requires b < 0x80 && b as char !in s
    ensures b !in Encode(s)
  {
    if s != "" {
      AsciiBytesAreCharacters(s[1..], b);
      assert s[0] in s;
    }
  }

  // ---------------------------------------------------------------- trimming

  /** Unicode White_Space, the set `str::trim` removes. */
  predicate Whitespace(c: char) {
    var x := c as int;
    || 0x09 <= x <= 0x0D || x == 0x20 || x == 0x85 || x == 0xA0 || x == 0x1680
    || 0x2000 <= x <= 0x200A || x == 0x2028 || x == 0x2029 || x == 0x202F || x == 0x205F || x == 0x3000
  }

  function TrimStart(s: string): string {
    if s != "" && Whitespace(s[0]) then TrimStart(s[1..]) else s
  }

  function TrimEnd(s: string): string {
    if s != "" && Whitespace(s[|s| - 1]) then TrimEnd(s[..|s| - 1]) else s
  }

  function Trim(s: string): string { TrimEnd(TrimStart(s)) }

  predicate Blank(s: string) { forall i | 0 <= i < |s| :: Whitespace(s[i]) }

  /** `text` is `s` without its surrounding white space. */
  ghost predicate Trimmed(s: string, text: string) {
    && (text != "" ==> !Whitespace(text[0]) && !Whitespace(text[|text| - 1]))
    && exists before, after :: Blank(before) && Blank(after) && s == before + text + after
  }

  lemma {:induction false} TrimStartCuts(s: string) returns (before: string)
    ensures Blank(before) && s == before + TrimStart(s)
    ensures TrimStart(s) != "" ==> !Whitespace(TrimStart(s)[0])
  {
    before := "";
    if s != "" && Whitespace(s[0]) {
      before := TrimStartCuts(s[1..]);
      before := [s[0]] + before;
    }
  }

  lemma {:induction false} TrimEndCuts(s: string) returns (after: string)
    ensures Blank(after) && s == TrimEnd(s) + after
    ensures TrimEnd(s) != "" ==> !Whitespace(TrimEnd(s)[|TrimEnd(s)| - 1])
  {
    after := "";
    if s != "" && Whitespace(s[|s| - 1]) {
      after := TrimEndCuts(s[..|s| - 1]);
      after := after + [s[|s| - 1]];
    }
  }

  lemma {:induction false} BlankStartGoes(before: string, s: string)
    requires Blank(before) && (s == "" || !Whitespace(s[0]))
    ensures TrimStart(before + s) == s
  {
    if before == "" {
      assert before + s == s;
    } else {
      assert (before + s)[1..] == before[1..] + s;
      BlankStartGoes(before[1..], s);
    }
  }

  lemma {:induction false} BlankEndGoes(s: string, after: string)
    requires Blank(after) && (s == "" || !Whitespace(s[|s| - 1]))
    ensures TrimEnd(s + after) == s
  {
    if after == "" {
      assert s + after == s;
    } else {
      assert (s + after)[..|s + after| - 1] == s + after[..|after| - 1];
      BlankEndGoes(s, after[..|after| - 1]);
    }
  }

  lemma BlankTrims(before: string, after: string)
    requires Blank(before) && Blank(after)
    ensures Trim(before + after) == ""
  {
    var both := before + after;
    BlankStartGoes(both, "");
    assert both + "" == both;
  }

  /** Trimming removes exactly the white space around a text. */
  lemma TrimExactly(s: string, text: string)
    ensures Trim(s) == text <==> Trimmed(s, text)
  {
    if Trim(s) == text {
      var before := TrimStartCuts(s);
      var after := TrimEndCuts(TrimStart(s));
      hide TrimStart, TrimEnd, Whitespace;
      assert s == before + text + after;
      if text != "" { assert text[0] == TrimStart(s)[0] by { assert TrimStart(s) == text + after; } }
    }
    if Trimmed(s, text) {
      var before, after :| Blank(before) && Blank(after) && s == before + text + after;
      if text == "" {
        assert s == before + after;
        BlankTrims(before, after);
      } else {
        assert s == before + (text + after);
        BlankStartGoes(before, text + after);
        BlankEndGoes(text, after);
      }
    }
  }
}
