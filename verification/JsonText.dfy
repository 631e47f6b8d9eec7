/** The string escaper of the credentials handler, against a decoder for section 7 of RFC 8259. */
module JsonText {
  import opened Wrappers

  /** What ranging over a Go string yields: a Unicode scalar value. */
  predicate IsRune(r: int) { 0 <= r < 0x11_0000 && !(0xD800 <= r < 0xE000) }

  type Rune = r: int | IsRune(r) witness 0

  function HexDigit(d: int): (c: char)
    requires 0 <= d < 16
    ensures c as int >= 0x20 && c != '"' && c != '\\'
  {
    if d < 10 then '0' + d as char else 'A' + (d - 10) as char
  }

  /** %04X: at least four digits, more when the value needs them. */
  function Hex(r: nat, w: nat): string
    decreases r + w
  {
    if r == 0 && w == 0 then ""
    else Hex(r / 16, if w == 0 then 0 else w - 1) + [HexDigit(r % 16)]
  }

  const QUOTE: Rune := 0x22
  const BACKSLASH: Rune := 0x5C

  function Escape(r: Rune): string {
    if r == QUOTE then "\\\""
    else if r == BACKSLASH then "\\\\"
    else if r == 10 then "\\n"
    else if r == 13 then "\\r"
    else if r == 9 then "\\t"
    else if r < 0x20 then ""
    else "\\u" + Hex(r, 4)
  }

  function Body(s: seq<Rune>): string {
    if s == [] then "" else Escape(s[0]) + Body(s[1..])
  }

  lemma {:induction false} BodySnoc(s: seq<Rune>, i: nat)
    requires i < |s|
    ensures Body(s[..i + 1]) == Body(s[..i]) + Escape(s[i])
    decreases i
  {
    if i > 0 {
      assert s[..i + 1][1..] == s[1..][..i] && s[..i][1..] == s[1..][..i - 1];
      BodySnoc(s[1..], i - 1);
    }
  }

  lemma QuotedSnoc(s: seq<Rune>, i: nat)
    requires i < |s|
    ensures "\"" + Body(s[..i]) + Escape(s[i]) == "\"" + Body(s[..i + 1])
  {
    BodySnoc(s, i);
  }

  method CredentialJSONString(s: seq<Rune>) returns (b: string)
    ensures b == "\"" + Body(s) + "\""
  {
    b := "\"";
    for i := 0 to |s|
      invariant b == "\"" + Body(s[..i])
    {
      QuotedSnoc(s, i);
      b := AppendRune(b, s[i]);
    }
    assert s[..|s|] == s;
    b := b + "\"";
  }

  /** The switch inside the loop. */
  method AppendRune(b: string, r: Rune) returns (longer: string)
    ensures longer == b + Escape(r)
  {
    if r == QUOTE || r == BACKSLASH {
      return b + ['\\', r as char];
    } else if r == 10 {
      return b + "\\n";
    } else if r == 13 {
      return b + "\\r";
    } else if r == 9 {
      return b + "\\t";
    } else {
      if r < 0x20 {
        return b;
      }
      return b + ("\\u" + Hex(r, 4));
    }
  }

  // ---- the decoder ----

  function HexValue(c: char): Option<int> {
    if '0' <= c <= '9' then Some((c - '0') as int)
    else if 'A' <= c <= 'F' then Some((c - 'A') as int + 10)
    else if 'a' <= c <= 'f' then Some((c - 'a') as int + 10)
    else None
  }

  function Utf16(r: int): seq<int> {
    if r < 0x1_0000 then [r] else [0xD800 + (r - 0x1_0000) / 0x400, 0xDC00 + (r - 0x1_0000) % 0x400]
  }

  function Two(c: char): Option<int> {
    if c == '"' || c == '\\' || c == '/' then Some(c as int)
    else if c == 'b' then Some(8)
    else if c == 'f' then Some(12)
    else if c == 'n' then Some(10)
    else if c == 'r' then Some(13)
    else if c == 't' then Some(9)
    else None
  }

  function Four(t: string): Option<int>
    requires |t| == 4
  {
    var a, b, c, d := HexValue(t[0]), HexValue(t[1]), HexValue(t[2]), HexValue(t[3]);
    if a.Some? && b.Some? && c.Some? && d.Some?
    then Some(((a.value * 16 + b.value) * 16 + c.value) * 16 + d.value)
    else None
  }

  function Prepend(front: seq<int>, rest: Option<seq<int>>): Option<seq<int>> {
    match rest
    case Some(r) => Some(front + r)
    case None => None
  }

  /** The characters after the opening quote, as UTF-16 units. */
  function Units(t: string): Option<seq<int>>
    decreases |t|
  {
    if t == "" then None
    else if t[0] == '"' then (if |t| == 1 then Some([]) else None)
    else if t[0] as int < 0x20 then None
    else if t[0] != '\\' then Prepend(Utf16(t[0] as int), Units(t[1..]))
    else if |t| < 2 then None
    else if t[1] == 'u' then
      if |t| < 6 || Four(t[2..6]).None? then None else Prepend([Four(t[2..6]).value], Units(t[6..]))
    else if Two(t[1]).None? then None else Prepend([Two(t[1]).value], Units(t[2..]))
  }

  function Decode(text: string): Option<seq<int>> {
    if text == "" || text[0] != '"' then None else Units(text[1..])
  }

  // ---- the round trip ----

  /** Control characters without a short escape are left out. */
  predicate Kept(r: Rune) { r >= 0x20 || r == 10 || r == 13 || r == 9 }

  /** The text without the characters the escaper drops, in UTF-16. */
  function Expected(s: seq<Rune>): seq<int> {
    if s == [] then [] else (if Kept(s[0]) then Utf16(s[0]) else []) + Expected(s[1..])
  }

  lemma HexValueOf(d: int)
    requires 0 <= d < 16
    ensures HexValue(HexDigit(d)) == Some(d)
  {
  }

  lemma HexStep(q: nat, d: nat, w: nat)
    requires d < 16
    ensures Hex(q * 16 + d, w + 1) == Hex(q, w) + [HexDigit(d)]
  {
    assert (q * 16 + d) / 16 == q && (q * 16 + d) % 16 == d;
  }

  lemma FourDigits(a: nat, p: nat, b: nat, q: nat, c: nat, d: nat)
    requires a < 16 && b < 16 && c < 16 && d < 16 && p == a * 16 + b && q == p * 16 + c
    ensures Hex(q * 16 + d, 4) == [HexDigit(a), HexDigit(b), HexDigit(c), HexDigit(d)]
  {
    assert Hex(0, 0) == "";
    HexStep(0, a, 0);
    HexStep(a, b, 1);
    HexStep(p, c, 2);
    HexStep(q, d, 3);
    assert Hex(a, 1) == [HexDigit(a)];
  }

  lemma FourValue(a: nat, p: nat, b: nat, q: nat, c: nat, d: nat)
    requires a < 16 && b < 16 && c < 16 && d < 16 && p == a * 16 + b && q == p * 16 + c
    ensures Four([HexDigit(a), HexDigit(b), HexDigit(c), HexDigit(d)]) == Some(q * 16 + d)
  {
    HexValueOf(a);
    HexValueOf(b);
    HexValueOf(c);
    HexValueOf(d);
  }

  lemma DivMod(n: nat)
    ensures n == n / 16 * 16 + n % 16 && n % 16 < 16
  {
  }

  /** Inside the basic plane %04X prints four digits, and they read back as the value. */
  lemma FourReads(r: nat)
    requires r < 0x1_0000
    ensures |Hex(r, 4)| == 4 && Four(Hex(r, 4)) == Some(r)
  {
    var q := r / 16;
    var p := q / 16;
    var a := p / 16;
    DivMod(r);
    DivMod(q);
    DivMod(p);
    assert q < 0x1000 && p < 0x100 && a < 0x10;
    FourDigits(a, p, p % 16, q, q % 16, r % 16);
    FourValue(a, p, p % 16, q, q % 16, r % 16);
  }

  /** Above the basic plane there are one or two digits more than the decoder takes. */
  lemma MoreDigits(r: nat) returns (four: nat, more: string)
    requires 0x1_0000 <= r < 0x11_0000
    ensures four < 0x1_0000 && Hex(r, 4) == Hex(four, 4) + more && 1 <= |more| <= 2
    ensures forall i :: 0 <= i < |more| ==> HexValue(more[i]).Some?
  {
    HexValueOf(r % 16);
    if r < 0x10_0000 {
      four, more := r / 16, [HexDigit(r % 16)];
      SameAtSmallerWidth(four);
    } else {
      HexValueOf(r / 16 % 16);
      four, more := r / 16 / 16, [HexDigit(r / 16 % 16), HexDigit(r % 16)];
      SameAtSmallerWidth(four);
    }
  }

  /** A value that needs four digits prints the same at any smaller width. */
  lemma SameAtSmallerWidth(r: nat)
    requires 0x1000 <= r < 0x1_0000
    ensures Hex(r, 4) == Hex(r, 3) == Hex(r, 2)
  {
    assert r / 16 / 16 / 16 > 0;
    assert Hex(r / 16 / 16 / 16, 1) == Hex(r / 16 / 16 / 16, 0);
    assert Hex(r / 16 / 16, 2) == Hex(r / 16 / 16, 1) == Hex(r / 16 / 16, 0);
    assert Hex(r / 16, 3) == Hex(r / 16, 2) == Hex(r / 16, 1);
  }

  lemma UnicodeEscape(digits: string, rest: string)
    requires |digits| == 4 && Four(digits).Some?
    ensures Units("\\u" + digits + rest) == Prepend([Four(digits).value], Units(rest))
  {
    var t := "\\u" + digits + rest;
    assert t[2..6] == digits && t[6..] == rest;
  }

  lemma ShortEscape(c: char, rest: string)
    requires Two(c).Some? && c != 'u'
    ensures Units(['\\', c] + rest) == Prepend([Two(c).value], Units(rest))
  {
    var t := ['\\', c] + rest;
    assert t[2..] == rest;
  }

  /** One character of the basic plane survives. */
  lemma EscapeDecodes(r: Rune, rest: string)
    requires r < 0x1_0000 && Kept(r)
    ensures Units(Escape(r) + rest) == Prepend(Utf16(r), Units(rest))
  {
    if r == QUOTE {
      ShortEscape('"', rest);
    } else if r == BACKSLASH {
      ShortEscape('\\', rest);
    } else if r == 10 {
      ShortEscape('n', rest);
    } else if r == 13 {
      ShortEscape('r', rest);
    } else if r == 9 {
      ShortEscape('t', rest);
    } else {
      FourReads(r);
      UnicodeEscape(Hex(r, 4), rest);
    }
  }

  lemma PlainDigit(c: char, rest: string)
    requires HexValue(c).Some?
    ensures Units([c] + rest) == Prepend([c as int], Units(rest))
  {
    assert ([c] + rest)[1..] == rest;
  }

  lemma PrependTwice(a: seq<int>, b: seq<int>, rest: Option<seq<int>>)
    ensures Prepend(a, Prepend(b, rest)) == Prepend(a + b, rest)
  {
    if rest.Some? {
      assert a + (b + rest.value) == a + b + rest.value;
    }
  }

  /** Digits outside an escape stand for themselves. */
  lemma {:induction false} PlainDigits(digits: string, rest: string) returns (codes: seq<int>)
    requires forall i :: 0 <= i < |digits| ==> HexValue(digits[i]).Some?
    ensures Units(digits + rest) == Prepend(codes, Units(rest))
    ensures |codes| == |digits| && forall i :: 0 <= i < |codes| ==> codes[i] < 0x80
    decreases |digits|
  {
    if digits == "" {
      codes := [];
      assert digits + rest == rest;
      PrependNothing(Units(rest));
    } else {
      var c := digits[0];
      var tail := PlainDigits(digits[1..], rest);
      codes := [c as int] + tail;
      assert digits + rest == [c] + (digits[1..] + rest);
      PlainDigit(c, digits[1..] + rest);
      PrependTwice([c as int], tail, Units(rest));
    }
  }

  lemma PrependNothing(rest: Option<seq<int>>)
    ensures Prepend([], rest) == rest
  {
    if rest.Some? {
      assert [] + rest.value == rest.value;
    }
  }

  /** A wider character decodes to four digits' worth, followed by literal digits. */
  lemma WideDecodes(r: Rune, rest: string) returns (front: seq<int>)
    requires r >= 0x1_0000
    ensures Units(Escape(r) + rest) == Prepend(front, Units(rest))
    ensures |front| >= 2 && front[1] < 0x80
  {
    assert IsRune(r);
    var four, more := MoreDigits(r);
    var codes := PlainDigits(more, rest);
    front := [four] + codes;
    FourReads(four);
    EscapeInTwo(Hex(r, 4), Hex(four, 4), more, rest);
    UnicodeEscape(Hex(four, 4), more + rest);
    PrependTwice([four], codes, Units(rest));
  }

  lemma EscapeInTwo(digits: string, four: string, more: string, rest: string)
    requires digits == four + more
    ensures "\\u" + digits + rest == "\\u" + four + (more + rest)
  {
  }

  lemma Cancel(a: seq<int>, x: seq<int>, y: seq<int>)
    ensures a + x == a + y <==> x == y
  {
    assert (a + x)[|a|..] == x && (a + y)[|a|..] == y;
  }

  lemma {:induction false} BodyDecodes(s: seq<Rune>)
    ensures Units(Body(s) + "\"").Some?
    ensures Units(Body(s) + "\"") == Some(Expected(s)) <==> forall i :: 0 <= i < |s| ==> s[i] < 0x1_0000
    decreases |s|
  {
    if s != [] {
      var r, rest := s[0], Body(s[1..]) + "\"";
      BodyDecodes(s[1..]);
      assert Body(s) + "\"" == Escape(r) + rest;
      assert (forall i :: 0 <= i < |s| ==> s[i] < 0x1_0000)
        <==> r < 0x1_0000 && forall i :: 0 <= i < |s[1..]| ==> s[1..][i] < 0x1_0000;
      if !Kept(r) {
        assert Escape(r) + rest == rest && Expected(s) == Expected(s[1..]);
      } else if r < 0x1_0000 {
        EscapeDecodes(r, rest);
        Cancel(Utf16(r), Units(rest).value, Expected(s[1..]));
      } else {
        var front := WideDecodes(r, rest);
        assert Expected(s)[1] >= 0xDC00;
      }
    }
  }

  /**
   The output is always a JSON string, and it decodes to the text less the dropped control
   characters exactly when the text stays inside the basic plane.
   */
  lemma EscaperRoundTrip(s: seq<Rune>)
    ensures Decode("\"" + Body(s) + "\"").Some?
    ensures Decode("\"" + Body(s) + "\"") == Some(Expected(s)) <==> forall i :: 0 <= i < |s| ==> s[i] < 0x1_0000
  {
    BodyDecodes(s);
    DecodeQuoted(Body(s) + "\"");
    assert "\"" + (Body(s) + "\"") == "\"" + Body(s) + "\"";
  }

  lemma DecodeQuoted(t: string)
    ensures Decode("\"" + t) == Units(t)
  {
    assert ("\"" + t)[1..] == t;
  }

  lemma FiveDigitsDecode(r: Rune, rest: string)
    requires 0x1_0000 <= r < 0x10_0000
    ensures Units(Escape(r) + rest) == Prepend([r / 16] + [HexDigit(r % 16) as int], Units(rest))
  {
    var four, last := Hex(r / 16, 4), HexDigit(r % 16);
    SameAtSmallerWidth(r / 16);
    FourReads(r / 16);
    HexValueOf(r % 16);
    EscapeInTwo(Hex(r, 4), four, [last], rest);
    UnicodeEscape(four, [last] + rest);
    PlainDigit(last, rest);
    PrependTwice([r / 16], [last as int], Units(rest));
  }

  /** A character of the next fifteen planes comes back as another one and a digit: U+1F600 as U+1F60 and "0". */
  lemma WideCharacterIsMisread(r: Rune)
    requires 0x1_0000 <= r < 0x10_0000
    ensures Decode("\"" + Body([r]) + "\"") == Some([r / 16, HexDigit(r % 16) as int])
  {
    OneCharacterBody(r);
    FiveDigitsDecode(r, "\"");
    assert Units("\"") == Some([]);
    var both := [r / 16] + [HexDigit(r % 16) as int];
    assert both == [r / 16, HexDigit(r % 16) as int] && both + [] == both;
    assert "\"" + (Body([r]) + "\"") == "\"" + Body([r]) + "\"";
    DecodeQuoted(Body([r]) + "\"");
  }

  lemma OneCharacterBody(r: Rune)
    ensures Body([r]) == Escape(r)
  {
    assert [r][1..] == [] && Body([]) == "";
  }
}
