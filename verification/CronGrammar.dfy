/** What a cron field means, and that the parser accepts and yields exactly that. */
module CronGrammar {
  import opened Wrappers
  import opened CronText
  import opened CronField
  import opened Sorting

  /** The six documented forms; a single value is a list of one. */
  datatype Form =
    | All
    | Every(step: int)
    | Range(start: int, end: int)
    | RangeEvery(start: int, end: int, step: int)
    | Values(ns: seq<int>)

  /** s is written as this form, with the given numerals. */
  ghost predicate SpelledWith(s: string, form: Form, toks: seq<string>) {
    match form
    case All => s == "*"
    case Every(k) => |toks| == 1 && s == "*/" + toks[0] && Atoi(toks[0]) == Some(k)
    case Range(a, b) =>
      |toks| == 2 && s == toks[0] + "-" + toks[1] && '-' !in toks[0] && Atoi(toks[0]) == Some(a) && Atoi(toks[1]) == Some(b)
    case RangeEvery(a, b, k) =>
      && |toks| == 3 && s == toks[0] + "-" + toks[1] + "/" + toks[2] && '-' !in toks[0]
      && Atoi(toks[0]) == Some(a) && Atoi(toks[1]) == Some(b) && Atoi(toks[2]) == Some(k)
    case Values(ns) =>
      && |toks| == |ns| > 0 && s == Join(toks, ',')
      && (forall i :: 0 <= i < |ns| ==> Atoi(toks[i]) == Some(ns[i]))
      && ('-' !in s || s[0] == '-')   // otherwise the dash makes it a range
  }

  ghost predicate Spells(s: string, form: Form) {
    exists toks :: SpelledWith(s, form, toks)
  }

  ghost predicate Fits(form: Form, lo: int, hi: int) {
    match form
    case All => true
    case Every(k) => k >= 1
    case Range(a, b) => lo <= a <= b <= hi
    case RangeEvery(a, b, k) => lo <= a <= b <= hi && k >= 1
    case Values(ns) => forall i :: 0 <= i < |ns| ==> lo <= ns[i] <= hi
  }

  ghost predicate Denotes(form: Form, lo: int, hi: int, x: int)
    requires Fits(form, lo, hi)
  {
    match form
    case All => lo <= x <= hi
    case Every(k) => lo <= x <= hi && (x - lo) % k == 0
    case Range(a, b) => a <= x <= b
    case RangeEvery(a, b, k) => a <= x <= b && (x - a) % k == 0
    case Values(ns) => x in ns
  }

  /** The step after the last value of a stepped form stays within 64 bits. */
  ghost predicate StepsStayInRange(form: Form, lo: int, hi: int)
    requires Fits(form, lo, hi)
  {
    match form
    case Every(k) => Last(lo, hi, k) + k <= MAX_INT
    case RangeEvery(a, b, k) => Last(a, b, k) + k <= MAX_INT
    case _ => true
  }

  /** A strictly increasing list of exactly the values the form denotes. */
  ghost predicate Meets(r: seq<int>, form: Form, lo: int, hi: int)
    requires Fits(form, lo, hi)
  {
    Increasing(r) && forall x :: x in r <==> Denotes(form, lo, hi, x)
  }

  // ---- characters ----

  lemma NumeralAvoids(t: string, c: char)
    requires Atoi(t).Some? && !IsDigit(c) && c != '-' && c != '+'
    ensures c !in t
  {
    NumeralCharacters(t);
  }

  lemma IndexAbsent(s: string, c: char)
    requires c !in s
    ensures Index(s, c) == -1
  {
  }

  lemma {:induction false} JoinAvoids(toks: seq<string>, c: char, sep: char)
    requires toks != [] && c != sep && forall t :: t in toks ==> c !in t
    ensures c !in Join(toks, sep)
    decreases |toks|
  {
    assert toks[0] in toks;
    if |toks| > 1 {
      JoinAvoids(toks[1..], c, sep);
    }
  }

  // ---- what the parser does with each form ----

  lemma ParsesEvery(s: string, lo: int, hi: int, k: int, t: string)
    requires Bounds(lo, hi) && s == "*/" + t && Atoi(t) == Some(k) && k >= 1
    ensures ParseField(s, lo, hi) == Ok(Steps(lo, hi, k))
  {
    assert s == "*" + ['/'] + t;
    IndexIs("*", '/', t);
    assert s[..1] == "*" && s[2..] == t;
  }

  lemma RangeParses(s: string, lo: int, hi: int, a: int, b: int, x: string, y: string)
    requires s == x + "-" + y && '-' !in x && Atoi(x) == Some(a) && Atoi(y) == Some(b) && lo <= a <= b <= hi
    ensures ParseRange(s, lo, hi) == Ok((a, b)) && Index(s, '-') == |x| > 0
    ensures '/' !in s && s != "*"
  {
    assert s == x + ['-'] + y;
    IndexIs(x, '-', y);
    assert s[..|x|] == x && s[|x| + 1..] == y;
    NumeralAvoids(x, '/');
    NumeralAvoids(y, '/');
    NumeralCharacters(x);
    assert s[0] == x[0];
  }

  lemma ParsesRange(s: string, lo: int, hi: int, a: int, b: int, x: string, y: string)
    requires Bounds(lo, hi)
    requires s == x + "-" + y && '-' !in x && Atoi(x) == Some(a) && Atoi(y) == Some(b) && lo <= a <= b <= hi
    ensures ParseField(s, lo, hi) == Ok(Progression(a, b, 1))
  {
    RangeParses(s, lo, hi, a, b, x, y);
    IndexAbsent(s, '/');
  }

  lemma ParsesRangeEvery(s: string, lo: int, hi: int, a: int, b: int, k: int, x: string, y: string, z: string)
    requires Bounds(lo, hi) && k >= 1 && Atoi(z) == Some(k)
    requires s == x + "-" + y + "/" + z && '-' !in x && Atoi(x) == Some(a) && Atoi(y) == Some(b) && lo <= a <= b <= hi
    ensures ParseField(s, lo, hi) == Ok(Steps(a, b, k))
  {
    var range := x + "-" + y;
    RangeParses(range, lo, hi, a, b, x, y);
    SteppedParts(s, range, z);
    ParsesStepped(s, lo, hi, a, b, k, range, z);
  }

  lemma SteppedParts(s: string, range: string, z: string)
    requires s == range + "/" + z && '/' !in range && range != ""
    ensures Index(s, '/') == |range| && s[..|range|] == range && s[|range| + 1..] == z && |s| > 1
  {
    assert s == range + ['/'] + z;
    IndexIs(range, '/', z);
  }

  lemma ParsesStepped(s: string, lo: int, hi: int, a: int, b: int, k: int, range: string, z: string)
    requires Bounds(lo, hi) && k >= 1 && Atoi(z) == Some(k) && range != "*" && ParseRange(range, lo, hi) == Ok((a, b))
    requires Index(s, '/') == |range| && s[..|range|] == range && s[|range| + 1..] == z && |s| > 1
    requires lo <= a <= b <= hi
    ensures ParseField(s, lo, hi) == Ok(Steps(a, b, k))
  {
  }

  lemma {:induction false} NoListError(toks: seq<string>, lo: int, hi: int)
    ensures FirstListError(toks, lo, hi).None? <==>
      forall i :: 0 <= i < |toks| ==> Atoi(toks[i]).Some? && lo <= Atoi(toks[i]).value <= hi
    decreases |toks|
  {
    if toks != [] {
      NoListError(toks[1..], lo, hi);
      assert forall i :: 1 <= i < |toks| ==> toks[i] == toks[1..][i - 1];
    }
  }

  lemma ListTokens(toks: seq<string>, ns: seq<int>)
    requires |toks| == |ns| && forall i :: 0 <= i < |ns| ==> Atoi(toks[i]) == Some(ns[i])
    ensures forall t :: t in toks ==> t != "" && '/' !in t && ',' !in t && '*' !in t
  {
    forall t | t in toks
      ensures t != "" && '/' !in t && ',' !in t && '*' !in t
    {
      NumeralAvoids(t, '/');
      NumeralAvoids(t, ',');
      NumeralAvoids(t, '*');
    }
  }

  lemma StarText(s: string)
    requires '*' !in s
    ensures s != "*"
  {
    assert "*"[0] == '*';
  }

  /** Such a list reaches the last branch of the parser. */
  lemma ListBranch(s: string, toks: seq<string>)
    requires toks != [] && s == Join(toks, ',')
    requires forall t :: t in toks ==> t != "" && '/' !in t && ',' !in t && '*' !in t
    requires '-' !in s || s[0] == '-'
    ensures s != "" && s != "*" && Index(s, '/') == -1 && Index(s, '-') <= 0
  {
    JoinAvoids(toks, '/', ',');
    JoinAvoids(toks, '*', ',');
    StarText(s);
    JoinNotEmpty(toks);
    if '-' in s {
      DashInFront(s);
    }
  }

  lemma ParsesValues(s: string, lo: int, hi: int, ns: seq<int>, toks: seq<string>)
    requires Bounds(lo, hi) && SpelledWith(s, Values(ns), toks) && Fits(Values(ns), lo, hi)
    ensures ParseField(s, lo, hi) == Ok(Sort(Less, Distinct(toks)))
  {
    ListTokens(toks, ns);
    ListBranch(s, toks);
    SplitOfJoin(toks, ',');
    NoListError(toks, lo, hi);
  }

  lemma DashInFront(s: string)
    requires s != "" && s[0] == '-'
    ensures Index(s, '-') == 0
  {
  }

  lemma JoinNotEmpty(toks: seq<string>)
    requires toks != [] && toks[0] != ""
    ensures Join(toks, ',') != ""
  {
  }

  // ---- what the lists mean ----

  ghost predicate ValueIn(toks: seq<string>, x: int) {
    exists i :: 0 <= i < |toks| && Atoi(toks[i]) == Some(x)
  }

  lemma ValueInSnoc(toks: seq<string>, x: int)
    requires toks != []
    ensures ValueIn(toks, x) <==> ValueIn(toks[..|toks| - 1], x) || Atoi(toks[|toks| - 1]) == Some(x)
  {
    var front := toks[..|toks| - 1];
    if i :| 0 <= i < |front| && Atoi(front[i]) == Some(x) {
      assert toks[i] == front[i];
    }
    if i :| 0 <= i < |toks| && Atoi(toks[i]) == Some(x) {
      assert i < |front| ==> front[i] == toks[i];
    }
  }

  lemma {:induction false} DistinctMembers(toks: seq<string>, x: int)
    ensures NoDuplicates(Distinct(toks)) && (x in Distinct(toks) <==> ValueIn(toks, x))
  {
    if toks != [] {
      ValueInSnoc(toks, x);
      DistinctMembers(toks[..|toks| - 1], x);
    }
  }

  lemma SortedDistinct(s: seq<int>)
    requires NoDuplicates(s)
    ensures Increasing(Sort(Less, s)) && forall x :: x in Sort(Less, s) <==> x in s
  {
    SortIsPermutation(Less, s);
    SameElements(Sort(Less, s), s);
    SortSorted(Less, s);
    forall x | x in Sort(Less, s)
      ensures multiset(Sort(Less, s))[x] == 1
    {
      CountOfDistinct(s, x);
    }
    DistinctByCount(Sort(Less, s));
  }

  /** An increasing list is determined by its members. */
  lemma IncreasingIsUnique(r: seq<int>, q: seq<int>)
    requires Increasing(r) && Increasing(q) && forall x :: x in r <==> x in q
    ensures r == q
  {
    forall x
      ensures x in r <==> x in q
    {
    }
    SameSetSameMultiset(r, q);
    SortedIsUnique(Less, r, q);
  }

  lemma ProgressionMeets(a: int, b: int, k: int, form: Form, lo: int, hi: int)
    requires Fits(form, lo, hi) && k >= 1
    requires forall x :: Denotes(form, lo, hi, x) <==> a <= x <= b && (x - a) % k == 0
    ensures Meets(Progression(a, b, k), form, lo, hi)
  {
    ProgressionIncreases(a, b, k);
    forall x
      ensures x in Progression(a, b, k) <==> Denotes(form, lo, hi, x)
    {
      ProgressionMembers(a, b, k, x);
    }
  }

  lemma StepsMeetExactly(a: int, b: int, k: int, form: Form, lo: int, hi: int)
    requires Fits(form, lo, hi) && Steppable(a, b, k) && 0 <= a <= b
    requires forall x :: Denotes(form, lo, hi, x) <==> a <= x <= b && (x - a) % k == 0
    ensures Meets(Steps(a, b, k), form, lo, hi) <==> Last(a, b, k) + k <= MAX_INT
  {
    ProgressionMeets(a, b, k, form, lo, hi);
    StepsAreProgressionExactly(a, b, k);
    if Meets(Steps(a, b, k), form, lo, hi) {
      IncreasingIsUnique(Steps(a, b, k), Progression(a, b, k));
    }
  }

  lemma ValuesMeet(ns: seq<int>, toks: seq<string>, lo: int, hi: int)
    requires |toks| == |ns| && (forall i :: 0 <= i < |ns| ==> Atoi(toks[i]) == Some(ns[i])) && Fits(Values(ns), lo, hi)
    ensures Meets(Sort(Less, Distinct(toks)), Values(ns), lo, hi)
  {
    forall x
      ensures NoDuplicates(Distinct(toks)) && (x in Distinct(toks) <==> x in ns)
    {
      DistinctMembers(toks, x);
      ValueInMeans(ns, toks, x);
    }
    DistinctMembers(toks, 0);
    SortedDistinct(Distinct(toks));
  }

  lemma ValueInMeans(ns: seq<int>, toks: seq<string>, x: int)
    requires |toks| == |ns| && forall i :: 0 <= i < |ns| ==> Atoi(toks[i]) == Some(ns[i])
    ensures ValueIn(toks, x) <==> x in ns
  {
    if x in ns {
      var i :| 0 <= i < |ns| && ns[i] == x;
      assert Atoi(toks[i]) == Some(x);
    }
  }

  lemma AllMeans(lo: int, hi: int)
    requires Bounds(lo, hi)
    ensures ParseField("*", lo, hi).Ok? && Meets(ParseField("*", lo, hi).value, All, lo, hi)
  {
    forall x
      ensures Denotes(All, lo, hi, x) <==> lo <= x <= hi && (x - lo) % 1 == 0
    {
    }
    ProgressionMeets(lo, hi, 1, All, lo, hi);
  }

  lemma StepsMeetAll(k: int, lo: int, hi: int)
    requires Bounds(lo, hi) && 1 <= k <= MAX_INT
    ensures Meets(Steps(lo, hi, k), Every(k), lo, hi) <==> Last(lo, hi, k) + k <= MAX_INT
  {
    StepsMeetExactly(lo, hi, k, Every(k), lo, hi);
  }

  lemma StepsMeetRange(a: int, b: int, k: int, lo: int, hi: int)
    requires Bounds(lo, hi) && lo <= a <= b <= hi && 1 <= k <= MAX_INT
    ensures Meets(Steps(a, b, k), RangeEvery(a, b, k), lo, hi) <==> Last(a, b, k) + k <= MAX_INT
  {
    StepsMeetExactly(a, b, k, RangeEvery(a, b, k), lo, hi);
  }

  lemma EveryMeans(s: string, lo: int, hi: int, k: int, toks: seq<string>)
    requires Bounds(lo, hi) && SpelledWith(s, Every(k), toks) && k >= 1
    ensures ParseField(s, lo, hi).Ok?
    ensures Meets(ParseField(s, lo, hi).value, Every(k), lo, hi) <==> Last(lo, hi, k) + k <= MAX_INT
  {
    ParsesEvery(s, lo, hi, k, toks[0]);
    StepsMeetAll(k, lo, hi);
  }

  lemma RangeMeans(s: string, lo: int, hi: int, a: int, b: int, toks: seq<string>)
    requires Bounds(lo, hi) && SpelledWith(s, Range(a, b), toks) && lo <= a <= b <= hi
    ensures ParseField(s, lo, hi).Ok? && Meets(ParseField(s, lo, hi).value, Range(a, b), lo, hi)
  {
    ParsesRange(s, lo, hi, a, b, toks[0], toks[1]);
    forall x
      ensures Denotes(Range(a, b), lo, hi, x) <==> a <= x <= b && (x - a) % 1 == 0
    {
    }
    ProgressionMeets(a, b, 1, Range(a, b), lo, hi);
  }

  lemma RangeEveryMeans(s: string, lo: int, hi: int, a: int, b: int, k: int, toks: seq<string>)
    requires Bounds(lo, hi) && SpelledWith(s, RangeEvery(a, b, k), toks) && lo <= a <= b <= hi && k >= 1
    ensures ParseField(s, lo, hi).Ok?
    ensures Meets(ParseField(s, lo, hi).value, RangeEvery(a, b, k), lo, hi) <==> Last(a, b, k) + k <= MAX_INT
  {
    ParsesRangeEvery(s, lo, hi, a, b, k, toks[0], toks[1], toks[2]);
    StepsMeetRange(a, b, k, lo, hi);
  }

  lemma ValuesMean(s: string, lo: int, hi: int, ns: seq<int>, toks: seq<string>)
    requires Bounds(lo, hi) && SpelledWith(s, Values(ns), toks) && Fits(Values(ns), lo, hi)
    ensures ParseField(s, lo, hi).Ok? && Meets(ParseField(s, lo, hi).value, Values(ns), lo, hi)
  {
    ParsesValues(s, lo, hi, ns, toks);
    ValuesMeet(ns, toks, lo, hi);
  }

  /**
   A field that spells a fitting form parses, and the result is the increasing list of what
   the form denotes exactly when no step of the loop leaves 64 bits.
   */
  lemma ParseMeansForm(s: string, form: Form, lo: int, hi: int)
    requires Bounds(lo, hi) && Spells(s, form) && Fits(form, lo, hi)
    ensures ParseField(s, lo, hi).Ok?
    ensures Meets(ParseField(s, lo, hi).value, form, lo, hi) <==> StepsStayInRange(form, lo, hi)
  {
    var toks :| SpelledWith(s, form, toks);
    match form
    case All => AllMeans(lo, hi);
    case Every(k) => EveryMeans(s, lo, hi, k, toks);
    case Range(a, b) => RangeMeans(s, lo, hi, a, b, toks);
    case RangeEvery(a, b, k) => RangeEveryMeans(s, lo, hi, a, b, k, toks);
    case Values(ns) => ValuesMean(s, lo, hi, ns, toks);
  }

  // ---- only those fields parse ----

  lemma RangeSpelled(s: string, lo: int, hi: int) returns (x: string, y: string)
    requires ParseRange(s, lo, hi).Ok?
    ensures s == x + "-" + y && '-' !in x
    ensures Atoi(x) == Some(ParseRange(s, lo, hi).value.0) && Atoi(y) == Some(ParseRange(s, lo, hi).value.1)
    ensures lo <= ParseRange(s, lo, hi).value.0 <= ParseRange(s, lo, hi).value.1 <= hi
  {
    var dash := Index(s, '-');
    x, y := s[..dash], s[dash + 1..];
    SplitAt(s, dash, "-");
  }

  lemma SplitAt(s: string, i: nat, mark: string)
    requires i < |s| && mark == [s[i]]
    ensures s == s[..i] + mark + s[i + 1..]
  {
  }

  lemma EverySpelled(s: string, t: string, k: int)
    requires s == "*" + "/" + t && Atoi(t) == Some(k)
    ensures Spells(s, Every(k))
  {
    assert "*" + "/" == "*/";
    assert SpelledWith(s, Every(k), [t]);
  }

  lemma RangeEverySpelled(s: string, x: string, y: string, t: string, a: int, b: int, k: int)
    requires s == x + "-" + y + "/" + t && '-' !in x
    requires Atoi(x) == Some(a) && Atoi(y) == Some(b) && Atoi(t) == Some(k)
    ensures Spells(s, RangeEvery(a, b, k))
  {
    assert SpelledWith(s, RangeEvery(a, b, k), [x, y, t]);
  }

  lemma StepSpelled(s: string, lo: int, hi: int) returns (form: Form)
    requires Bounds(lo, hi) && Index(s, '/') != -1 && ParseStep(s, Index(s, '/'), lo, hi).Ok?
    ensures Spells(s, form) && Fits(form, lo, hi)
  {
    var slash := Index(s, '/');
    var front, t := s[..slash], s[slash + 1..];
    var k := Atoi(t).value;
    SplitAt(s, slash, "/");
    if front == "*" {
      form := Every(k);
      EverySpelled(s, t, k);
    } else {
      var x, y := RangeSpelled(front, lo, hi);
      var r := ParseRange(front, lo, hi).value;
      form := RangeEvery(r.0, r.1, k);
      RangeEverySpelled(s, x, y, t, r.0, r.1, k);
    }
  }

  lemma DashFirst(s: string)
    requires Index(s, '-') <= 0
    ensures '-' !in s || s[0] == '-'
  {
  }

  function ValuesOf(toks: seq<string>): seq<int>
    requires forall i :: 0 <= i < |toks| ==> Atoi(toks[i]).Some?
  {
    seq(|toks|, i requires 0 <= i < |toks| => Atoi(toks[i]).value)
  }

  lemma ValuesSpelled(s: string, toks: seq<string>)
    requires toks != [] && s == Join(toks, ',') && ('-' !in s || s[0] == '-')
    requires forall i :: 0 <= i < |toks| ==> Atoi(toks[i]).Some?
    ensures Spells(s, Values(ValuesOf(toks)))
  {
    assert SpelledWith(s, Values(ValuesOf(toks)), toks);
  }

  lemma ListSpelled(s: string, lo: int, hi: int) returns (form: Form)
    requires Index(s, '-') <= 0 && ListOf(Split(s, ','), lo, hi).Ok?
    ensures Spells(s, form) && Fits(form, lo, hi)
  {
    var toks := Split(s, ',');
    NoListError(toks, lo, hi);
    JoinOfSplit(s, ',');
    DashFirst(s);
    form := Values(ValuesOf(toks));
    ValuesSpelled(s, toks);
  }

  /** A field parses exactly when it spells some fitting form. */
  lemma ParsesExactlyTheForms(s: string, lo: int, hi: int)
    requires Bounds(lo, hi)
    ensures ParseField(s, lo, hi).Ok? <==> exists form :: Spells(s, form) && Fits(form, lo, hi)
  {
    if form :| Spells(s, form) && Fits(form, lo, hi) {
      ParseMeansForm(s, form, lo, hi);
    }
    if ParseField(s, lo, hi).Ok? {
      var form;
      if s == "*" {
        form := All;
        assert SpelledWith(s, form, []);
      } else if Index(s, '/') != -1 {
        form := StepSpelled(s, lo, hi);
      } else if Index(s, '-') > 0 {
        var x, y := RangeSpelled(s, lo, hi);
        var r := ParseRange(s, lo, hi).value;
        form := Range(r.0, r.1);
        assert SpelledWith(s, form, [x, y]);
      } else {
        form := ListSpelled(s, lo, hi);
      }
      assert Spells(s, form) && Fits(form, lo, hi);
    }
  }

  // ---- which error a refused field gets ----

  ghost predicate InBounds(n: Option<int>, lo: int, hi: int) {
    n.Some? && lo <= n.value <= hi
  }

  /** The numbers before the first dash and after it fail their checks in this order. */
  ghost predicate EndsFail(a: Option<int>, b: Option<int>, lo: int, hi: int, e: Error) {
    match e
    case RangeStartNotInt => a.None?
    case RangeEndNotInt => a.Some? && b.None?
    case RangeStartOut => a.Some? && b.Some? && !InBounds(a, lo, hi)
    case RangeEndOut => InBounds(a, lo, hi) && b.Some? && !InBounds(b, lo, hi)
    case RangeReversed => InBounds(a, lo, hi) && InBounds(b, lo, hi) && a.value > b.value
    case _ => false
  }

  lemma EndsDecide(a: Option<int>, b: Option<int>, lo: int, hi: int, e: Error)
    ensures RangeOf(a, b, lo, hi) == Err(e) <==> EndsFail(a, b, lo, hi, e)
  {
  }

  /** s falls apart into x and y at the first c. */
  ghost predicate Cut(s: string, x: string, c: char, y: string) {
    s == x + [c] + y && c !in x
  }

  lemma CutPlaces(s: string, x: string, c: char, y: string)
    requires Cut(s, x, c, y)
    ensures Index(s, c) == |x| && s[..|x|] == x && s[|x| + 1..] == y
  {
    IndexIs(x, c, y);
  }

  lemma RangeErrorExactly(s: string, x: string, y: string, lo: int, hi: int, e: Error)
    requires Cut(s, x, '-', y)
    ensures ParseRange(s, lo, hi) == Err(e) <==> EndsFail(Atoi(x), Atoi(y), lo, hi, e)
  {
    CutPlaces(s, x, '-', y);
    EndsDecide(Atoi(x), Atoi(y), lo, hi, e);
  }

  /** The first part that is no number, or a number out of bounds. */
  ghost predicate PartFails(toks: seq<string>, i: nat, lo: int, hi: int, e: Error)
    requires i < |toks|
  {
    && (forall j :: 0 <= j < i ==> InBounds(Atoi(toks[j]), lo, hi))
    && ((e == ListNotInt && Atoi(toks[i]).None?) || (e == ListOut && Atoi(toks[i]).Some? && !InBounds(Atoi(toks[i]), lo, hi)))
  }

  ghost predicate ListFails(toks: seq<string>, lo: int, hi: int, e: Error) {
    exists i :: 0 <= i < |toks| && PartFails(toks, i, lo, hi, e)
  }

  lemma {:induction false} ListErrorExactly(toks: seq<string>, lo: int, hi: int, e: Error)
    ensures FirstListError(toks, lo, hi) == Some(e) <==> ListFails(toks, lo, hi, e)
    decreases |toks|
  {
    if toks != [] {
      var rest := toks[1..];
      ListErrorExactly(rest, lo, hi, e);
      if InBounds(Atoi(toks[0]), lo, hi) {
        forall i | 0 <= i < |rest| && PartFails(rest, i, lo, hi, e)
          ensures PartFails(toks, i + 1, lo, hi, e)
        {
          assert forall j :: 1 <= j < i + 1 ==> toks[j] == rest[j - 1];
        }
        forall i | 0 <= i < |toks| && PartFails(toks, i, lo, hi, e)
          ensures i > 0 && PartFails(rest, i - 1, lo, hi, e)
        {
          assert i > 0;
          assert forall j :: 0 <= j < i - 1 ==> rest[j] == toks[j + 1];
        }
      } else {
        assert FirstListError(toks, lo, hi) == Some(e) ==> PartFails(toks, 0, lo, hi, e);
      }
    }
  }

  /** A field with a slash: the step behind it is checked before the range in front. */
  lemma StepFieldError(s: string, front: string, t: string, lo: int, hi: int, e: Error)
    requires Bounds(lo, hi) && Cut(s, front, '/', t)
    ensures ParseField(s, lo, hi) == Err(e) <==>
      if Atoi(t).None? || Atoi(t).value <= 0 then e == BadStep else front != "*" && ParseRange(front, lo, hi) == Err(e)
  {
    CutPlaces(s, front, '/', t);
  }

  /** And such a range without a dash. */
  lemma DashlessRangeError(s: string, lo: int, hi: int)
    requires '-' !in s
    ensures ParseRange(s, lo, hi) == Err(RangeShape)
  {
    IndexAbsent(s, '-');
  }

  /** A field with a dash that is not in front. */
  lemma RangeFieldError(s: string, x: string, y: string, lo: int, hi: int, e: Error)
    requires Bounds(lo, hi) && '/' !in s && Cut(s, x, '-', y) && x != ""
    ensures ParseField(s, lo, hi) == Err(e) <==> EndsFail(Atoi(x), Atoi(y), lo, hi, e)
  {
    IndexAbsent(s, '/');
    CutPlaces(s, x, '-', y);
    RangeErrorExactly(s, x, y, lo, hi, e);
    assert s[..|x|] == x && |s| > 1;
  }

  /** Any other field is a list. */
  lemma ListFieldError(s: string, toks: seq<string>, lo: int, hi: int, e: Error)
    requires Bounds(lo, hi) && s != "" && s != "*" && '/' !in s && ('-' !in s || s[0] == '-')
    requires toks != [] && s == Join(toks, ',') && forall i :: 0 <= i < |toks| ==> ',' !in toks[i]
    ensures ParseField(s, lo, hi) == Err(e) <==> ListFails(toks, lo, hi, e)
  {
    IndexAbsent(s, '/');
    if '-' in s {
      DashInFront(s);
    } else {
      IndexAbsent(s, '-');
    }
    SplitOfJoin(toks, ',');
    ListErrorExactly(toks, lo, hi, e);
  }

  // ---- printing and parsing back ----

  function Numerals(ns: seq<nat>): seq<string> {
    seq(|ns|, i requires 0 <= i < |ns| => Itoa(ns[i]))
  }

  /** The comma list of some values. */
  function PrintList(ns: seq<nat>): string
    requires ns != []
  {
    Join(Numerals(ns), ',')
  }

  ghost predicate Subset(ns: seq<nat>, lo: int, hi: int) {
    ns != [] && Increasing(ns) && forall i :: 0 <= i < |ns| ==> lo <= ns[i] <= hi
  }

  lemma NumeralsParse(ns: seq<nat>, lo: int, hi: int)
    requires Bounds(lo, hi) && Subset(ns, lo, hi)
    ensures SpelledWith(PrintList(ns), Values(ns), Numerals(ns))
    ensures forall t :: t in Numerals(ns) ==> t != "" && AllDigits(t)
  {
    var toks := Numerals(ns);
    forall i | 0 <= i < |ns|
      ensures Atoi(toks[i]) == Some(ns[i]) && AllDigits(toks[i]) && toks[i] != ""
    {
      AtoiOfItoa(ns[i]);
      ItoaDigits(ns[i]);
    }
    JoinAvoids(toks, '-', ',');
  }

  /** Any non-empty subset of the field's range, printed as a comma list, parses back to itself. */
  lemma ListRoundTrip(ns: seq<nat>, lo: int, hi: int)
    requires Bounds(lo, hi) && Subset(ns, lo, hi)
    ensures ParseField(PrintList(ns), lo, hi) == Ok(ns)
  {
    NumeralsParse(ns, lo, hi);
    ParseMeansForm(PrintList(ns), Values(ns), lo, hi);
    IncreasingIsUnique(ParseField(PrintList(ns), lo, hi).value, ns);
  }

  lemma StepOnce(i: int, end: int, step: int)
    requires Steppable(i, end, step) && i <= end
    ensures Steps(i, end, step) == [i] + Steps(Wrap(i + step), end, step)
  {
  }

  /**
   A huge step wraps the loop variable: a star with step 9223372036854775807, however written, gives a
   day field of three values, two of them negative.
   */
  lemma HugeStepWraps(t: string)
    requires Atoi(t) == Some(MAX_INT)
    ensures ParseField("*/" + t, 1, 31) == Ok([1, MIN_INT, -1])
  {
    ParsesEvery("*/" + t, 1, 31, MAX_INT, t);
    HugeSteps();
  }

  lemma HugeSteps()
    ensures Steps(1, 31, MAX_INT) == [1, MIN_INT, -1]
  {
    StepOnce(1, 31, MAX_INT);
    StepOnce(MIN_INT, 31, MAX_INT);
    StepOnce(-1, 31, MAX_INT);
    assert Steps(MAX_INT - 1, 31, MAX_INT) == [];
  }

  lemma NegativeZeroIsZero()
    ensures Atoi("-0") == Some(0) && Atoi("5") == Some(5)
  {
    assert "-0"[1..] == "0";
    assert "0"[..0] == "" && DigitsValue("0") == 0;
    assert "5"[..0] == "" && DigitsValue("5") == 5;
  }

  lemma NegativeZeroSpells()
    ensures Spells("-0,5", Values([0, 5]))
  {
    NegativeZeroIsZero();
    var toks := ["-0", "5"];
    assert toks[1..] == ["5"] && Join(["5"], ',') == "5" && Join(toks, ',') == "-0" + "," + "5";
    assert "-0" + "," + "5" == "-0,5";
    assert SpelledWith("-0,5", Values([0, 5]), toks);
  }

  /** A dash in front does not make a range: "-0,5" is the list of 0 and 5. */
  lemma NegativeZeroIsInAList()
    ensures ParseField("-0,5", 0, 59) == Ok([0, 5])
  {
    NegativeZeroSpells();
    ZeroAndFive("-0,5");
  }

  lemma ZeroAndFive(s: string)
    requires Spells(s, Values([0, 5]))
    ensures ParseField(s, 0, 59) == Ok([0, 5])
  {
    ParseMeansForm(s, Values([0, 5]), 0, 59);
    IncreasingIsUnique(ParseField(s, 0, 59).value, [0, 5]);
  }

  // ---- five fields ----

  datatype Cron = Cron(minute: seq<int>, hour: seq<int>, dom: seq<int>, month: seq<int>, dow: seq<int>)

  function ParseFive(p: seq<string>): Result<Cron, Error>
    requires |p| == 5
  {
    var minute := ParseField(p[0], 0, 59);
    if minute.Err? then Err(minute.error) else
    var hour := ParseField(p[1], 0, 23);
    if hour.Err? then Err(hour.error) else
    var dom := ParseField(p[2], 1, 31);
    if dom.Err? then Err(dom.error) else
    var month := ParseField(p[3], 1, 12);
    if month.Err? then Err(month.error) else
    var dow := ParseField(p[4], 0, 6);
    if dow.Err? then Err(dow.error) else
    Ok(Cron(minute.value, hour.value, dom.value, month.value, dow.value))
  }

  function ParseExpr(expr: string): Result<Cron, Error> {
    var parts := Fields(expr);
    if |parts| != 5 then Err(FieldCount) else ParseFive(parts)
  }

  // ---- which error a refused expression gets ----

  type FieldResult = Result<seq<int>, Error>

  /** The five words, each read within the bounds of its field: M H DoM Mo DoW. */
  function FieldResults(p: seq<string>): seq<FieldResult>
    requires |p| == 5
  {
    [ParseField(p[0], 0, 59), ParseField(p[1], 0, 23), ParseField(p[2], 1, 31), ParseField(p[3], 1, 12), ParseField(p[4], 0, 6)]
  }

  /** The i-th result is the first error. */
  ghost predicate FailsAt(rs: seq<FieldResult>, i: nat, e: Error)
    requires i < |rs|
  {
    rs[i] == Err(e) && forall j :: 0 <= j < i ==> rs[j].Ok?
  }

  function Assembled(rs: seq<FieldResult>): Result<Cron, Error>
    requires |rs| == 5
  {
    if rs[0].Err? then Err(rs[0].error)
    else if rs[1].Err? then Err(rs[1].error)
    else if rs[2].Err? then Err(rs[2].error)
    else if rs[3].Err? then Err(rs[3].error)
    else if rs[4].Err? then Err(rs[4].error)
    else Ok(Cron(rs[0].value, rs[1].value, rs[2].value, rs[3].value, rs[4].value))
  }

  lemma AssembledFails(rs: seq<FieldResult>, e: Error)
    requires |rs| == 5
    ensures Assembled(rs) == Err(e) <==> exists i :: 0 <= i < 5 && FailsAt(rs, i, e)
  {
    if Assembled(rs) == Err(e) {
      var i := if rs[0].Err? then 0 else if rs[1].Err? then 1 else if rs[2].Err? then 2 else if rs[3].Err? then 3 else 4;
      assert FailsAt(rs, i, e);
    }
  }

  lemma ParseFiveIsAssembled(p: seq<string>)
    requires |p| == 5
    ensures ParseFive(p) == Assembled(FieldResults(p))
  {
  }

  /** Without five words the error is FieldCount, otherwise that of the first field that has one. */
  lemma ExprErrorExactly(expr: string, e: Error)
    ensures ParseExpr(expr) == Err(e) <==>
      if |Fields(expr)| != 5 then e == FieldCount
      else exists i :: 0 <= i < 5 && FailsAt(FieldResults(Fields(expr)), i, e)
  {
    if |Fields(expr)| == 5 {
      ParseFiveIsAssembled(Fields(expr));
      AssembledFails(FieldResults(Fields(expr)), e);
    }
  }

  /** An accepted expression gives each field its own values. */
  lemma ExprFieldByField(expr: string, c: Cron)
    ensures ParseExpr(expr) == Ok(c) <==>
      |Fields(expr)| == 5 && FieldResults(Fields(expr)) == [Ok(c.minute), Ok(c.hour), Ok(c.dom), Ok(c.month), Ok(c.dow)]
  {
    if |Fields(expr)| == 5 {
      ParseFiveIsAssembled(Fields(expr));
      AssembledOk(FieldResults(Fields(expr)), c);
    }
  }

  lemma AssembledOk(rs: seq<FieldResult>, c: Cron)
    requires |rs| == 5
    ensures Assembled(rs) == Ok(c) <==> rs == [Ok(c.minute), Ok(c.hour), Ok(c.dom), Ok(c.month), Ok(c.dow)]
  {
  }

  method ParseCron(expr: string) returns (r: Result<Cron, Error>)
    ensures r == ParseExpr(expr)
  {
    var parts := Fields(expr);
    if |parts| != 5 {
      return Err(FieldCount);
    }
    var minute := ParseCronField(parts[0], 0, 59);
    if minute.Err? {
      return Err(minute.error);
    }
    var hour := ParseCronField(parts[1], 0, 23);
    if hour.Err? {
      return Err(hour.error);
    }
    var dom := ParseCronField(parts[2], 1, 31);
    if dom.Err? {
      return Err(dom.error);
    }
    var month := ParseCronField(parts[3], 1, 12);
    if month.Err? {
      return Err(month.error);
    }
    var dow := ParseCronField(parts[4], 0, 6);
    if dow.Err? {
      return Err(dow.error);
    }
    return Ok(Cron(minute.value, hour.value, dom.value, month.value, dow.value));
  }

  /** The canonical text of five value sets. */
  function PrintCron(minute: seq<nat>, hour: seq<nat>, dom: seq<nat>, month: seq<nat>, dow: seq<nat>): string
    requires minute != [] && hour != [] && dom != [] && month != [] && dow != []
  {
    Join([PrintList(minute), PrintList(hour), PrintList(dom), PrintList(month), PrintList(dow)], ' ')
  }

  lemma PrintedListIsWord(ns: seq<nat>, lo: int, hi: int)
    requires Bounds(lo, hi) && Subset(ns, lo, hi)
    ensures IsWord(PrintList(ns))
  {
    NumeralsParse(ns, lo, hi);
    JoinNotEmpty(Numerals(ns));
    forall i | 0 <= i < |PrintList(ns)|
      ensures !IsSpace(PrintList(ns)[i])
    {
      var c := PrintList(ns)[i];
      if IsSpace(c) {
        JoinAvoids(Numerals(ns), c, ',');
      }
    }
  }

  lemma FiveParse(p: seq<string>, c: Cron)
    requires |p| == 5 && ParseField(p[0], 0, 59) == Ok(c.minute) && ParseField(p[1], 0, 23) == Ok(c.hour)
    requires ParseField(p[2], 1, 31) == Ok(c.dom) && ParseField(p[3], 1, 12) == Ok(c.month) && ParseField(p[4], 0, 6) == Ok(c.dow)
    ensures ParseFive(p) == Ok(c)
  {
  }

  lemma PrintedFields(minute: seq<nat>, hour: seq<nat>, dom: seq<nat>, month: seq<nat>, dow: seq<nat>)
    requires Subset(minute, 0, 59) && Subset(hour, 0, 23) && Subset(dom, 1, 31) && Subset(month, 1, 12) && Subset(dow, 0, 6)
    ensures Fields(PrintCron(minute, hour, dom, month, dow))
      == [PrintList(minute), PrintList(hour), PrintList(dom), PrintList(month), PrintList(dow)]
  {
    PrintedListIsWord(minute, 0, 59);
    PrintedListIsWord(hour, 0, 23);
    PrintedListIsWord(dom, 1, 31);
    PrintedListIsWord(month, 1, 12);
    PrintedListIsWord(dow, 0, 6);
    FieldsOfJoin([PrintList(minute), PrintList(hour), PrintList(dom), PrintList(month), PrintList(dow)]);
  }

  /** Five printed value sets, read back as a whole expression, are themselves again. */
  lemma CronRoundTrip(minute: seq<nat>, hour: seq<nat>, dom: seq<nat>, month: seq<nat>, dow: seq<nat>)
    requires Subset(minute, 0, 59) && Subset(hour, 0, 23) && Subset(dom, 1, 31) && Subset(month, 1, 12) && Subset(dow, 0, 6)
    ensures ParseExpr(PrintCron(minute, hour, dom, month, dow)) == Ok(Cron(minute, hour, dom, month, dow))
  {
    PrintedFields(minute, hour, dom, month, dow);
    ListRoundTrip(minute, 0, 59);
    ListRoundTrip(hour, 0, 23);
    ListRoundTrip(dom, 1, 31);
    ListRoundTrip(month, 1, 12);
    ListRoundTrip(dow, 0, 6);
    FiveParse([PrintList(minute), PrintList(hour), PrintList(dom), PrintList(month), PrintList(dow)],
              Cron(minute, hour, dom, month, dow));
  }
}
