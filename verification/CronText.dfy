/** The parts of strconv and strings that the cron parser uses, with their inverses. */
module CronText {
  import opened Wrappers

  const MAX_INT: int := 0x7FFF_FFFF_FFFF_FFFF
  const MIN_INT: int := -0x8000_0000_0000_0000

  predicate IsDigit(c: char) { '0' <= c <= '9' }

  predicate AllDigits(s: string) {
    forall i :: 0 <= i < |s| ==> IsDigit(s[i])
  }

  function DigitsValue(s: string): nat
    requires AllDigits(s)
  {
    if s == "" then 0 else DigitsValue(s[..|s| - 1]) * 10 + (s[|s| - 1] - '0') as nat
  }

  predicate Signed(s: string) {
    s != "" && (s[0] == '-' || s[0] == '+')
  }

  /** strconv.Atoi: an optional sign, at least one digit, within 64 bits. */
  function Atoi(s: string): Option<int> {
    var body := if Signed(s) then s[1..] else s;
    if body == "" || !AllDigits(body) then None
    else
      var n := if s[0] == '-' then -(DigitsValue(body) as int) else DigitsValue(body) as int;
      if MIN_INT <= n <= MAX_INT then Some(n) else None
  }

  function Digit(n: nat): char
    requires n < 10
  {
    '0' + n as char
  }

  function Itoa(n: nat): string {
    if n < 10 then [Digit(n)] else Itoa(n / 10) + [Digit(n % 10)]
  }

  lemma {:induction false} ItoaDigits(n: nat)
    ensures Itoa(n) != "" && AllDigits(Itoa(n)) && DigitsValue(Itoa(n)) == n
  {
    if n < 10 {
      assert Itoa(n)[..0] == "";
    } else {
      ItoaDigits(n / 10);
      assert Itoa(n)[..|Itoa(n)| - 1] == Itoa(n / 10);
    }
  }

  lemma AtoiOfItoa(n: nat)
    requires n <= MAX_INT
    ensures Atoi(Itoa(n)) == Some(n)
  {
    ItoaDigits(n);
    assert IsDigit(Itoa(n)[0]);
  }

  /** Decimal notation: one more digit means ten times as much and that digit. */
  lemma ItoaIsDecimal(n: nat, d: nat)
    requires d <= 9
    ensures Itoa(d) == [("0123456789")[d]]
    ensures n > 0 ==> Itoa(10 * n + d) == Itoa(n) + [("0123456789")[d]]
  {
    assert (10 * n + d) / 10 == n && (10 * n + d) % 10 == d;
    assert ("0123456789")[d] == Digit(d);
  }

  function Zeros(k: nat): string {
    seq(k, i requires 0 <= i < k => '0')
  }

  lemma {:induction false} ZerosAddNothing(k: nat, s: string)
    requires AllDigits(s)
    ensures AllDigits(Zeros(k) + s) && DigitsValue(Zeros(k) + s) == DigitsValue(s)
    decreases |s|, k
  {
    var t := Zeros(k) + s;
    if s != "" {
      ZerosAddNothing(k, s[..|s| - 1]);
      assert t[..|t| - 1] == Zeros(k) + s[..|s| - 1];
    } else if k > 0 {
      ZerosAddNothing(k - 1, s);
      assert t[..|t| - 1] == Zeros(k - 1) + s;
    }
  }

  /** Digits are the canonical numeral of their value behind some zeros. */
  lemma {:induction false} DigitsAreNumeral(s: string) returns (k: nat)
    requires s != "" && AllDigits(s)
    ensures s == Zeros(k) + Itoa(DigitsValue(s))
  {
    var front, last := s[..|s| - 1], s[|s| - 1];
    var d := (last - '0') as nat;
    assert IsDigit(last) && Digit(d) == last;
    assert s == front + [last];
    if front == "" {
      k := 0;
      assert DigitsValue(s) == d;
      assert s == [last];
    } else {
      k := DigitsAreNumeral(front);
      var v := DigitsValue(front);
      assert DigitsValue(s) == 10 * v + d;
      if v > 0 {
        assert (10 * v + d) / 10 == v && (10 * v + d) % 10 == d;
        assert s == Zeros(k) + (Itoa(v) + [last]);
      } else {
        assert Itoa(0) == "0" && front == Zeros(k + 1);
        k := k + 1;
      }
    }
  }

  /** Zeros, then the canonical numeral of m. */
  ghost predicate IsNumeral(s: string, m: nat) {
    exists k: nat :: s == Zeros(k) + Itoa(m)
  }

  lemma NumeralExactly(s: string, m: nat)
    ensures IsNumeral(s, m) <==> s != "" && AllDigits(s) && DigitsValue(s) == m
  {
    if s != "" && AllDigits(s) && DigitsValue(s) == m {
      var k := DigitsAreNumeral(s);
    }
    if IsNumeral(s, m) {
      var k: nat :| s == Zeros(k) + Itoa(m);
      ItoaDigits(m);
      ZerosAddNothing(k, Itoa(m));
    }
  }

  /** A numeral, or one behind a plus or a minus. */
  ghost predicate Writes(s: string, n: int) {
    || (n >= 0 && IsNumeral(s, n))
    || (n >= 0 && s != "" && s[0] == '+' && IsNumeral(s[1..], n))
    || (n <= 0 && s != "" && s[0] == '-' && IsNumeral(s[1..], -n))
  }

  /** Atoi reads exactly the texts of numbers within 64 bits: a sign or none, any zeros, decimal digits. */
  lemma AtoiExactly(s: string, n: int)
    ensures Atoi(s) == Some(n) <==> Writes(s, n) && MIN_INT <= n <= MAX_INT
  {
    var m: nat := if n >= 0 then n else -n;
    NumeralExactly(s, m);
    if s != "" {
      NumeralExactly(s[1..], m);
      assert AllDigits(s) ==> IsDigit(s[0]);
    }
  }

  /** A numeral contains a sign only in front, and none of the parser's separators. */
  lemma NumeralCharacters(s: string)
    requires Atoi(s).Some?
    ensures s != "" && forall i :: 0 <= i < |s| ==> IsDigit(s[i]) || (i == 0 && (s[i] == '-' || s[i] == '+'))
  {
    if Signed(s) {
      forall i | 1 <= i < |s|
        ensures IsDigit(s[i])
      {
        assert s[1..][i - 1] == s[i];
      }
    }
  }

  /** strings.Index for one character; -1 when absent. */
  function Index(s: string, c: char): (i: int)
    ensures -1 <= i < |s|
    ensures i == -1 ==> c !in s
    ensures i >= 0 ==> s[i] == c && c !in s[..i]
  {
    if s == "" then -1
    else if s[0] == c then 0
    else
      var j := Index(s[1..], c);
      if j == -1 then -1 else
        assert s[..j + 1] == [s[0]] + s[1..][..j];
        j + 1
  }

  lemma PrefixAvoids(s: string, c: char, i: nat)
    requires i <= |s| && c !in s[..i]
    ensures forall k :: 0 <= k < i ==> s[k] != c
  {
    assert forall k :: 0 <= k < i ==> s[k] == s[..i][k] && s[..i][k] in s[..i];
  }

  lemma IndexIs(a: string, c: char, b: string)
    requires c !in a
    ensures Index(a + [c] + b, c) == |a|
  {
    var s := a + [c] + b;
    var i := Index(s, c);
    assert s[|a|] == c && s[..|a|] == a;
    PrefixAvoids(s, c, |a|);
    if i >= 0 {
      PrefixAvoids(s, c, i);
    }
  }

  /** strings.Split on one character. */
  function Split(s: string, c: char): (parts: seq<string>)
    ensures parts != []
    decreases |s|
  {
    var i := Index(s, c);
    if i == -1 then [s] else [s[..i]] + Split(s[i + 1..], c)
  }

  function Join(parts: seq<string>, c: char): string
    requires parts != []
  {
    if |parts| == 1 then parts[0] else parts[0] + [c] + Join(parts[1..], c)
  }

  lemma JoinOfCons(head: string, rest: seq<string>, c: char)
    requires rest != []
    ensures Join([head] + rest, c) == head + [c] + Join(rest, c)
  {
    assert ([head] + rest)[1..] == rest;
  }

  lemma {:induction false} JoinOfSplit(s: string, c: char)
    ensures Join(Split(s, c), c) == s
    decreases |s|
  {
    var i := Index(s, c);
    if i != -1 {
      JoinOfSplit(s[i + 1..], c);
      JoinOfCons(s[..i], Split(s[i + 1..], c), c);
      CutAt(s, i);
    }
  }

  lemma CutAt(s: string, i: nat)
    requires i < |s|
    ensures s == s[..i] + [s[i]] + s[i + 1..]
  {
  }

  lemma {:induction false} SplitAvoids(s: string, c: char)
    ensures forall part :: part in Split(s, c) ==> c !in part
    decreases |s|
  {
    var i := Index(s, c);
    if i != -1 {
      SplitAvoids(s[i + 1..], c);
    }
  }

  lemma {:induction false} SplitOfJoin(parts: seq<string>, c: char)
    requires parts != [] && forall i :: 0 <= i < |parts| ==> c !in parts[i]
    ensures Split(Join(parts, c), c) == parts
    decreases |parts|
  {
    if |parts| > 1 {
      var rest := Join(parts[1..], c);
      IndexIs(parts[0], c, rest);
      SplitOfJoin(parts[1..], c);
      var s := parts[0] + [c] + rest;
      assert s[..|parts[0]|] == parts[0] && s[|parts[0]| + 1..] == rest;
    } else {
      assert parts == [parts[0]];
    }
  }

  /** unicode.IsSpace. */
  predicate IsSpace(c: char) {
    || c == ' ' || '\t' <= c <= '\r' || c == '\U{85}' || c == '\U{A0}' || c == '\U{1680}'
    || '\U{2000}' <= c <= '\U{200A}' || c == '\U{2028}' || c == '\U{2029}' || c == '\U{202F}'
    || c == '\U{205F}' || c == '\U{3000}'
  }

  /** strings.Fields: maximal runs of non-space characters. */
  function Fields(s: string): seq<string> {
    FieldsFrom(s, "")
  }

  function FieldsFrom(s: string, current: string): seq<string>
    decreases |s|
  {
    if s == "" then (if current == "" then [] else [current])
    else if IsSpace(s[0]) then (if current == "" then [] else [current]) + FieldsFrom(s[1..], "")
    else FieldsFrom(s[1..], current + [s[0]])
  }

  predicate AllSpace(s: string) {
    forall i :: 0 <= i < |s| ==> IsSpace(s[i])
  }

  predicate IsWord(s: string) {
    s != "" && forall i :: 0 <= i < |s| ==> !IsSpace(s[i])
  }

  lemma {:induction false} FieldsOfWord(word: string, current: string, rest: string)
    requires forall i :: 0 <= i < |word| ==> !IsSpace(word[i])
    ensures FieldsFrom(word + rest, current) == FieldsFrom(rest, current + word)
    decreases |word|
  {
    if word == "" {
      assert word + rest == rest && current + word == current;
    } else {
      assert (word + rest)[0] == word[0] && (word + rest)[1..] == word[1..] + rest;
      FieldsOfWord(word[1..], current + [word[0]], rest);
      assert current + [word[0]] + word[1..] == current + word;
    }
  }

  lemma {:induction false} FieldsOfJoin(words: seq<string>)
    requires words != [] && forall i :: 0 <= i < |words| ==> IsWord(words[i])
    ensures Fields(Join(words, ' ')) == words
    decreases |words|
  {
    assert IsWord(words[0]);
    if |words| == 1 {
      FieldsOfWord(words[0], "", "");
      assert words[0] + "" == words[0] && "" + words[0] == words[0];
      assert words == [words[0]];
    } else {
      var rest := Join(words[1..], ' ');
      assert words[0] + [' '] + rest == words[0] + ([' '] + rest);
      FieldsOfWord(words[0], "", [' '] + rest);
      assert ([' '] + rest)[1..] == rest;
      assert "" + words[0] == words[0];
      FieldsOfJoin(words[1..]);
    }
  }

  lemma {:induction false} FieldsOfSpace(gap: string, current: string, rest: string)
    requires AllSpace(gap) && gap != ""
    ensures FieldsFrom(gap + rest, current) == (if current == "" then [] else [current]) + FieldsFrom(rest, "")
    decreases |gap|
  {
    assert (gap + rest)[0] == gap[0] && (gap + rest)[1..] == gap[1..] + rest;
    if gap[1..] == "" {
      assert gap[1..] + rest == rest;
    } else {
      FieldsOfSpace(gap[1..], "", rest);
    }
  }

  /** Words with gaps before, between and after them. */
  function Spaced(gaps: seq<string>, words: seq<string>): string
    requires |gaps| == |words| + 1
  {
    if words == [] then gaps[0] else gaps[0] + (words[0] + Spaced(gaps[1..], words[1..]))
  }

  /** Only the first and the last gap may be empty. */
  ghost predicate Separates(gaps: seq<string>, words: seq<string>) {
    && |gaps| == |words| + 1
    && (forall i :: 0 <= i < |gaps| ==> AllSpace(gaps[i]))
    && (forall i :: 0 < i < |words| ==> gaps[i] != "")
    && (forall i :: 0 <= i < |words| ==> IsWord(words[i]))
  }

  lemma {:induction false} FieldsFromSpaced(gaps: seq<string>, words: seq<string>, current: string)
    requires Separates(gaps, words) && (current == "" || words == [] || gaps[0] != "")
    ensures FieldsFrom(Spaced(gaps, words), current) == (if current == "" then [] else [current]) + words
    decreases |words|
  {
    var rest := if words == [] then "" else words[0] + Spaced(gaps[1..], words[1..]);
    assert Spaced(gaps, words) == gaps[0] + rest;
    if gaps[0] == "" {
      assert gaps[0] + rest == rest;
    } else {
      FieldsOfSpace(gaps[0], current, rest);
    }
    if words != [] {
      assert IsWord(words[0]);
      FieldsOfWord(words[0], "", Spaced(gaps[1..], words[1..]));
      assert "" + words[0] == words[0];
      FieldsFromSpaced(gaps[1..], words[1..], words[0]);
      assert [words[0]] + words[1..] == words;
    }
  }

  /** However much white space there is around the words: its kind and its length do not matter. */
  lemma FieldsOfSpaced(gaps: seq<string>, words: seq<string>)
    requires Separates(gaps, words)
    ensures Fields(Spaced(gaps, words)) == words
  {
    FieldsFromSpaced(gaps, words, "");
  }
}
