/** newBackupID: identifiers whose text order is the order of the instants they were made at. */
module BackupId {

  const MAX_INT64: int := 0x7fff_ffff_ffff_ffff

  /** The 32 digits big.Int.Text uses: 0-9, then a-v. */
  function Digit(d: int): char
    requires 0 <= d < 32
  {
    if d < 10 then '0' + d as char else 'a' + (d - 10) as char
  }

  function Natural(n: nat): string {
    if n < 32 then [Digit(n)] else Natural(n / 32) + [Digit(n % 32)]
  }

  /** big.Int.Text(32): lower-case, with a sign in front of negative numbers. */
  function Text(n: int): string {
    if n < 0 then "-" + Natural(-n) else Natural(n)
  }

  function Upper(c: char): char {
    if 'a' <= c <= 'z' then 'A' + (c - 'a') else c
  }

  function ToUpper(s: string): string {
    seq(|s|, i requires 0 <= i < |s| => Upper(s[i]))
  }

  function Repeat(c: char, n: nat): string {
    seq(n, i => c)
  }

  method EncodeInstant(ns: int) returns (encoded: string)
    requires -MAX_INT64 - 1 <= ns <= MAX_INT64
    ensures |encoded| == 14 && |Text(ns)| <= 14
    ensures encoded == Repeat('0', 14 - |Text(ns)|) + ToUpper(Text(ns))
  {
    encoded := ToUpper(Text(ns));
    if |encoded| > 14 {
      encoded := encoded[|encoded| - 14..];
      TextIsShort(ns);
      assert false;
    } else {
      encoded := Repeat('0', 14 - |encoded|) + encoded;
    }
  }

  method NewBackupID(ns: int, tail: string) returns (id: string)
    requires -MAX_INT64 - 1 <= ns <= MAX_INT64
    ensures 0 <= ns ==> id == IdOf(ns, tail)
  {
    var encoded := EncodeInstant(ns);
    if 0 <= ns {
      NaturalIsFixed(ns, 14);
    }
    id := "bck_" + encoded + "_" + tail;
  }

  // ---- the same identifier, digit by digit ----

  function Pow(w: nat): nat { if w == 0 then 1 else 32 * Pow(w - 1) }

  /** The last w digits of n, upper-case. */
  function Fixed(n: nat, w: nat): (s: string)
    ensures |s| == w
  {
    if w == 0 then "" else Fixed(n / 32, w - 1) + [Upper(Digit(n % 32))]
  }

  function IdOf(ns: nat, tail: string): string { "bck_" + Fixed(ns, 14) + "_" + tail }

  /** Thirteen digits are enough for any 64-bit instant, so with a sign the text never exceeds fourteen. */
  lemma TextIsShort(ns: int)
    requires -MAX_INT64 - 1 <= ns <= MAX_INT64
    ensures |Text(ns)| <= 14
  {
    assert Pow(13) == 0x2_0000_0000_0000_0000 by {
      assert Pow(4) == 0x10_0000;
      assert Pow(8) == 0x100_0000_0000;
      assert Pow(12) == 0x1000_0000_0000_0000;
    }
    NaturalIsShort(if ns < 0 then -ns else ns, 13);
  }

  lemma {:induction false} NaturalIsShort(n: nat, w: nat)
    requires w >= 1 && n < Pow(w)
    ensures |Natural(n)| <= w
  {
    if n >= 32 {
      NaturalIsShort(n / 32, w - 1);
    }
  }

  lemma {:induction false} ZeroIsFixed(w: nat)
    ensures Fixed(0, w) == Repeat('0', w)
  {
    if w > 0 {
      ZeroIsFixed(w - 1);
    }
  }

  lemma UpperSnoc(s: string, c: char)
    ensures ToUpper(s + [c]) == ToUpper(s) + [Upper(c)]
  {
  }

  lemma Regroup(a: string, b: string, c: string)
    ensures a + (b + c) == a + b + c
  {
  }

  /** Padding the upper-cased text with zeros gives the digits of a fixed width. */
  lemma {:induction false} NaturalIsFixed(n: nat, w: nat)
    requires |Natural(n)| <= w
    ensures Repeat('0', w - |Natural(n)|) + ToUpper(Natural(n)) == Fixed(n, w)
  {
    if n < 32 {
      ZeroIsFixed(w - 1);
    } else {
      NaturalIsFixed(n / 32, w - 1);
      var front, zeros := Natural(n / 32), Repeat('0', w - |Natural(n)|);
      UpperSnoc(front, Digit(n % 32));
      Regroup(zeros, ToUpper(front), [Upper(Digit(n % 32))]);
    }
  }

  /** The place of a digit among 0-9 and A-V. */
  function DigitValue(c: char): nat {
    if '0' <= c <= '9' then (c - '0') as nat else if 'A' <= c <= 'V' then (c - 'A') as nat + 10 else 0
  }

  function Value(s: string): nat {
    if s == "" then 0 else 32 * Value(s[..|s| - 1]) + DigitValue(s[|s| - 1])
  }

  /** Read in base 32, the digits are the number again. */
  lemma {:induction false} FixedReadsBack(n: nat, w: nat)
    requires n < Pow(w)
    ensures Value(Fixed(n, w)) == n
  {
    if w > 0 {
      FixedReadsBack(n / 32, w - 1);
      assert Fixed(n, w)[..w - 1] == Fixed(n / 32, w - 1);
    }
  }

  /** So an identifier tells the instant it was made at. */
  lemma IdTellsInstant(ns: nat, tail: string)
    requires ns <= MAX_INT64
    ensures |IdOf(ns, tail)| == 19 + |tail| && Value(IdOf(ns, tail)[4..18]) == ns
  {
    FourteenDigitsAreEnough();
    FixedReadsBack(ns, 14);
    assert IdOf(ns, tail)[4..18] == Fixed(ns, 14);
  }

  // ---- order ----

  /** They agree up to position k, where a is smaller. */
  predicate DiffersAt(a: string, b: string, k: nat) {
    k < |a| && k < |b| && a[..k] == b[..k] && a[k] < b[k]
  }

  /** Lexicographic order, as strings are compared. */
  ghost predicate Below(a: string, b: string) {
    (|a| < |b| && a == b[..|a|]) || exists k: nat :: DiffersAt(a, b, k)
  }

  lemma DigitsIncrease(d: int, e: int)
    requires 0 <= d < e < 32
    ensures Upper(Digit(d)) < Upper(Digit(e))
  {
  }

  lemma {:induction false} FixedIncreases(m: nat, n: nat, w: nat) returns (k: nat)
    requires m < n < Pow(w)
    ensures DiffersAt(Fixed(m, w), Fixed(n, w), k)
  {
    var a, b := Fixed(m / 32, w - 1), Fixed(n / 32, w - 1);
    if m / 32 < n / 32 {
      k := FixedIncreases(m / 32, n / 32, w - 1);
      assert Fixed(m, w)[..k] == a[..k] && Fixed(n, w)[..k] == b[..k];
    } else {
      DigitsIncrease(m % 32, n % 32);
      k := w - 1;
      assert Fixed(m, w)[..k] == a && Fixed(n, w)[..k] == b;
    }
  }

  lemma BelowIsAsymmetric(a: string, b: string)
    requires Below(a, b)
    ensures !Below(b, a)
  {
  }

  lemma FourteenDigitsAreEnough()
    ensures Pow(14) > MAX_INT64
  {
    assert Pow(4) == 0x10_0000;
    assert Pow(8) == 0x100_0000_0000;
    assert Pow(12) == 0x1000_0000_0000_0000;
  }

  lemma EarlierIsBelow(m: nat, n: nat, tailM: string, tailN: string)
    requires m < n <= MAX_INT64
    ensures Below(IdOf(m, tailM), IdOf(n, tailN))
    ensures IdOf(m, tailM) != IdOf(n, tailN)
  {
    FourteenDigitsAreEnough();
    var k := FixedIncreases(m, n, 14);
    var a, b, x, y := Fixed(m, 14), Fixed(n, 14), IdOf(m, tailM), IdOf(n, tailN);
    assert x[..4 + k] == "bck_" + a[..k] && y[..4 + k] == "bck_" + b[..k];
    assert x[4 + k] == a[k] && y[4 + k] == b[k];
    assert DiffersAt(x, y, 4 + k);
  }

  /** Whatever the random tails, identifiers made at different instants sort exactly as the instants do. */
  lemma IdsSortByTime(m: nat, n: nat, tailM: string, tailN: string)
    requires m <= MAX_INT64 && n <= MAX_INT64 && m != n
    ensures Below(IdOf(m, tailM), IdOf(n, tailN)) <==> m < n
    ensures IdOf(m, tailM) != IdOf(n, tailN)
  {
    if m < n {
      EarlierIsBelow(m, n, tailM, tailN);
    } else {
      EarlierIsBelow(n, m, tailN, tailM);
      BelowIsAsymmetric(IdOf(n, tailN), IdOf(m, tailM));
    }
  }
}
