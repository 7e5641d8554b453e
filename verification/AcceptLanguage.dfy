/** `Accept-Language` (`app/core/i18n.py`, section 12.5.4 of RFC 9110): which entries count,
    how they are ranked, and which locale a request ends up in. Weights are decimals under an arbitrary rounding. */
module AcceptLanguage {
  import opened Wrappers
  import opened Text

  const DEFAULT_LOCALE := "tr"
  const SUPPORTED_LOCALES := ["tr", "en"]
  const DEFAULT_QUALITY := 1.0

  // --- one entry -------------------------------------------------------------------

  predicate IsDigit(c: char) { '0' <= c <= '9' }

  predicate IsLetter(c: char) { 'a' <= c <= 'z' || 'A' <= c <= 'Z' }

  predicate TagStart(c: char) { IsLetter(c) || c == '*' }

  predicate TagChar(c: char) { IsLetter(c) || IsDigit(c) || c == '-' }

  predicate NumberChar(c: char) { IsDigit(c) || c == '.' }

  /** The pattern's classes `[A-Za-z*]`, `[A-Za-z0-9-]` and `[0-9.]`, by code. */
  lemma CharacterClasses(c: char)
    ensures IsDigit(c) <==> c in {'0', '1', '2', '3', '4', '5', '6', '7', '8', '9'}
    ensures IsLetter(c) <==> 65 <= c as int <= 90 || 97 <= c as int <= 122
    ensures TagStart(c) <==> IsLetter(c) || c as int == 42
    ensures TagChar(c) <==> IsLetter(c) || IsDigit(c) || c as int == 45
    ensures NumberChar(c) <==> IsDigit(c) || c as int == 46
  {
  }

  predicate All(s: string, p: char -> bool) { forall c <- s :: p(c) }

  /** How far a run of such characters reaches. */
  function Span(s: string, p: char -> bool): (n: nat)
    ensures n <= |s| && All(s[..n], p) && (n < |s| ==> !p(s[n]))
  {
    if s == "" || !p(s[0]) then 0
    else
      var n := Span(s[1..], p);
      assert s[..n + 1] == [s[0]] + s[1..][..n];
      n + 1
  }

  function Skip(s: string): string { s[Span(s, IsSpace)..] }

  datatype Entry = Entry(tag: string, q: Option<string>)

  /** What follows `c`, spaces allowed before it. */
  function Expect(s: string, c: char): Option<string> {
    var rest := Skip(s);
    if rest != "" && rest[0] == c then Some(rest[1..]) else None
  }

  /** A number with spaces around it and nothing else. */
  function ParseNumber(s: string): Option<string> {
    var number := Skip(s);
    var n := Span(number, NumberChar);
    if n == 0 || Skip(number[n..]) != "" then None else Some(number[..n])
  }

  function ParseQuality(s: string): Option<string> {
    var named := Expect(s, ';');
    if named.None? then None
    else
      var equals := Expect(named.value, 'q');
      if equals.None? then None
      else
        var number := Expect(equals.value, '=');
        if number.None? then None else ParseNumber(number.value)
  }

  /** The entry pattern, read left to right. */
  function ParseEntry(s: string): Option<Entry> {
    var body := Skip(s);
    if body == "" || !TagStart(body[0]) then None
    else
      var n := 1 + Span(body[1..], TagChar);
      match ParseTail(body[n..])
      case None => None
      case Some(q) => Some(Entry(body[..n], q))
  }

  /** What may follow the tag: spaces, or a weight. */
  function ParseTail(rest: string): Option<Option<string>> {
    if Skip(rest) == "" then Some(None)
    else if ParseQuality(rest).None? then None
    else Some(ParseQuality(rest))
  }

  // --- the pattern as the regular expression states it ----------------------------------

  predicate ValidTag(tag: string) { tag != "" && TagStart(tag[0]) && All(tag[1..], TagChar) }

  /** `\s*`, then `text`, then `rest`. */
  ghost predicate Spaced(s: string, text: string, rest: string) {
    exists a | All(a, IsSpace) :: s == a + (text + rest)
  }

  ghost predicate NumberReads(s: string, q: string) {
    q != "" && All(q, NumberChar) && exists d | All(d, IsSpace) :: Spaced(s, q, d)
  }

  /** `\s*;\s*q\s*=\s*[0-9.]+\s*` */
  ghost predicate QualityReads(s: string, q: string) {
    exists named, equals, number ::
      Spaced(s, ";", named) && Spaced(named, "q", equals) && Spaced(equals, "=", number) && NumberReads(number, q)
  }

  ghost predicate TailReads(rest: string, q: Option<string>) {
    match q
    case None => All(rest, IsSpace)
    case Some(text) => QualityReads(rest, text)
  }

  ghost predicate Reads(s: string, e: Entry) {
    ValidTag(e.tag) && exists rest :: Spaced(s, e.tag, rest) && TailReads(rest, e.q)
  }

  lemma {:induction false} SpanOfConcat(s: string, t: string, p: char -> bool)
    requires All(s, p) && (t == "" || !p(t[0]))
    ensures Span(s + t, p) == |s|
  {
    if s == "" {
      assert s + t == t;
    } else {
      assert s[0] in s && forall c <- s[1..] :: c in s;
      assert (s + t)[1..] == s[1..] + t;
      SpanOfConcat(s[1..], t, p);
    }
  }

  /** Spaces in front are skipped, and there is only one way to skip them. */
  lemma SkipIsSpaced(s: string, text: string, rest: string)
    requires text != "" && !IsSpace(text[0])
    ensures Spaced(s, text, rest) <==> Skip(s) == text + rest
  {
    if Spaced(s, text, rest) {
      var a :| All(a, IsSpace) && s == a + (text + rest);
      SpanOfConcat(a, text + rest, IsSpace);
    }
    if Skip(s) == text + rest {
      assert s == s[..Span(s, IsSpace)] + (text + rest);
    }
  }

  lemma SkippedWhole(s: string)
    ensures Skip(s) == "" <==> All(s, IsSpace)
  {
  }

  lemma ExpectIsSpaced(s: string, c: char, rest: string)
    requires !IsSpace(c)
    ensures Expect(s, c) == Some(rest) <==> Spaced(s, [c], rest)
  {
    SkipIsSpaced(s, [c], rest);
    if Expect(s, c) == Some(rest) { assert Skip(s) == [c] + rest; }
    if Skip(s) == [c] + rest { assert ([c] + rest)[1..] == rest; }
  }

  lemma NumberFound(s: string, q: string)
    requires ParseNumber(s) == Some(q)
    ensures NumberReads(s, q)
  {
    var number := Skip(s);
    var d := number[Span(number, NumberChar)..];
    assert number == q + d;
    assert q[0] in q;
    SkipIsSpaced(s, q, d);
    SkippedWhole(d);
  }

  lemma NumberUnique(s: string, q: string)
    requires NumberReads(s, q)
    ensures ParseNumber(s) == Some(q)
  {
    var d :| All(d, IsSpace) && Spaced(s, q, d);
    assert q[0] in q && (d != "" ==> d[0] in d);
    SkipIsSpaced(s, q, d);
    SpanOfConcat(q, d, NumberChar);
    assert (q + d)[|q|..] == d && (q + d)[..|q|] == q;
    SkippedWhole(d);
  }

  lemma NumberIsPattern(s: string, q: string)
    ensures ParseNumber(s) == Some(q) <==> NumberReads(s, q)
  {
    if ParseNumber(s) == Some(q) { NumberFound(s, q); }
    if NumberReads(s, q) { NumberUnique(s, q); }
  }

  lemma QualityFound(s: string, q: string)
    requires ParseQuality(s) == Some(q)
    ensures QualityReads(s, q)
  {
    var named := Expect(s, ';').value;
    var equals := Expect(named, 'q').value;
    var number := Expect(equals, '=').value;
    ExpectIsSpaced(s, ';', named);
    ExpectIsSpaced(named, 'q', equals);
    ExpectIsSpaced(equals, '=', number);
    NumberIsPattern(number, q);
    hide Expect, Spaced, NumberReads, ParseNumber;
    assert Spaced(s, ";", named) && Spaced(named, "q", equals) && Spaced(equals, "=", number) && NumberReads(number, q);
  }

  lemma QualityUnique(s: string, q: string)
    requires QualityReads(s, q)
    ensures ParseQuality(s) == Some(q)
  {
    hide Expect, Spaced, NumberReads, ParseNumber;
    var named, equals, number :|
      Spaced(s, ";", named) && Spaced(named, "q", equals) && Spaced(equals, "=", number) && NumberReads(number, q);
    ExpectIsSpaced(s, ';', named);
    ExpectIsSpaced(named, 'q', equals);
    ExpectIsSpaced(equals, '=', number);
    NumberIsPattern(number, q);
  }

  lemma QualityIsPattern(s: string, q: string)
    ensures ParseQuality(s) == Some(q) <==> QualityReads(s, q)
  {
    hide ParseQuality, QualityReads;
    if ParseQuality(s) == Some(q) { QualityFound(s, q); }
    if QualityReads(s, q) { QualityUnique(s, q); }
  }

  /** What follows a tag in the pattern never starts with a tag character. */
  lemma TagEnds(rest: string, q: Option<string>)
    requires TailReads(rest, q)
    ensures rest == "" || !TagChar(rest[0])
  {
    if q.Some? {
      var named :| Spaced(rest, ";", named);
      var a :| All(a, IsSpace) && rest == a + (";" + named);
      if a != "" { assert a[0] in a; }
    } else if rest != "" {
      assert rest[0] in rest;
    }
  }

  lemma TagIsPattern(s: string, tag: string, rest: string)
    requires ValidTag(tag) && (rest == "" || !TagChar(rest[0]))
    ensures Spaced(s, tag, rest) <==>
            && Skip(s) == tag + rest
            && TagStart(Skip(s)[0]) && Span(Skip(s)[1..], TagChar) == |tag| - 1
  {
    SkipIsSpaced(s, tag, rest);
    assert (tag + rest)[1..] == tag[1..] + rest;
    SpanOfConcat(tag[1..], rest, TagChar);
  }

  /** Reading left to right finds exactly what the regular expression matches, and there is
      only one way to match. */
  lemma ParseIsPattern(s: string, e: Entry)
    ensures ParseEntry(s) == Some(e) <==> Reads(s, e)
  {
    if ParseEntry(s) == Some(e) {
      EntryFound(s);
    }
    if Reads(s, e) {
      EntryUnique(s, e);
    }
  }

  lemma TagFound(body: string) returns (n: nat)
    requires body != "" && TagStart(body[0])
    ensures n == 1 + Span(body[1..], TagChar) && n <= |body| && ValidTag(body[..n]) && body == body[..n] + body[n..]
  {
    n := 1 + Span(body[1..], TagChar);
    assert body[..n][1..] == body[1..][..n - 1];
  }

  lemma EntryFound(s: string)
    requires ParseEntry(s).Some?
    ensures Reads(s, ParseEntry(s).value)
  {
    var e, body := ParseEntry(s).value, Skip(s);
    var n := TagFound(body);
    var rest := body[n..];
    hide ValidTag, Skip, Span, Spaced, TailReads, ParseTail;
    assert e.tag == body[..n] && ParseTail(rest) == Some(e.q);
    hide ParseEntry;
    SkipIsSpaced(s, e.tag, rest);
    TailIsPattern(rest, e.q);
    assert Spaced(s, e.tag, rest) && TailReads(rest, e.q);
  }

  lemma EntryUnique(s: string, e: Entry)
    requires Reads(s, e)
    ensures ParseEntry(s) == Some(e)
  {
    var rest :| Spaced(s, e.tag, rest) && TailReads(rest, e.q);
    TagEnds(rest, e.q);
    TagIsPattern(s, e.tag, rest);
    assert Skip(s)[..|e.tag|] == e.tag && Skip(s)[|e.tag|..] == rest;
    TailIsPattern(rest, e.q);
  }

  lemma TailIsPattern(rest: string, q: Option<string>)
    ensures ParseTail(rest) == Some(q) <==> TailReads(rest, q)
  {
    SkippedWhole(rest);
    if q.Some? {
      QualityIsPattern(rest, q.value);
      if ParseQuality(rest) == q { QualityIsNotBlank(rest); }
    }
  }

  lemma QualityIsNotBlank(s: string)
    requires ParseQuality(s).Some?
    ensures Skip(s) != ""
  {
  }

  // --- weights ---------------------------------------------------------------------------

  function Digits(s: string): nat {
    if s == "" then 0 else (if IsDigit(s[0]) then 1 else 0) + Digits(s[1..])
  }

  /** The value of `s` as the digits of an integer, dots skipped. */
  function Whole(s: string): nat {
    if s == "" then 0
    else if IsDigit(s[|s| - 1]) then 10 * Whole(s[..|s| - 1]) + (s[|s| - 1] - '0') as nat
    else Whole(s[..|s| - 1])
  }

  function Power(n: nat): (p: nat)
    ensures p > 0
  {
    if n == 0 then 1 else 10 * Power(n - 1)
  }

  /** The number a text of digits and dots stands for: at least one digit, at most one dot. */
  function DecimalOf(text: string): Option<real> {
    if Digits(text) == 0 || Count(text, '.') > 1 then None
    else
      var parts := Split(text, '.');
      Some(Whole(text) as real / Power(if |parts| == 2 then |parts[1]| else 0) as real)
  }

  /** A run of digits is the number it reads as, most significant digit first. */
  lemma WholeReadsOn(s: string, d: char)
    requires IsDigit(d)
    ensures Whole(s + [d]) == 10 * Whole(s) + (d as int - '0' as int)
  {
    assert (s + [d])[..|s|] == s;
  }

  predicate AllDigits(s: string) { All(s, IsDigit) }

  lemma {:induction false} DigitsOfAll(s: string)
    requires AllDigits(s)
    ensures Digits(s) == |s| && Count(s, '.') == 0
  {
    if s != "" {
      assert s[0] in s && forall c <- s[1..] :: c in s;
      DigitsOfAll(s[1..]);
    }
  }

  lemma {:induction false} DigitsOfConcat(s: string, t: string)
    ensures Digits(s + t) == Digits(s) + Digits(t)
  {
    if s == "" {
      assert s + t == t;
    } else {
      assert (s + t)[1..] == s[1..] + t;
      DigitsOfConcat(s[1..], t);
    }
  }

  lemma TenfoldOfProduct(w: int, p: int)
    ensures 10 * (w * p) == w * (10 * p)
  {
  }

  lemma {:induction false} WholeOfConcat(s: string, t: string)
    requires AllDigits(t)
    ensures Whole(s + t) == Whole(s) * Power(|t|) + Whole(t)
  {
    if t == "" {
      assert s + t == s;
    } else {
      var front, d := t[..|t| - 1], t[|t| - 1];
      assert AllDigits(front) && IsDigit(d) by { assert d in t && forall c <- front :: c in t; }
      WholeOfConcat(s, front);
      WholeReadsOn(s + front, d);
      WholeReadsOn(front, d);
      TenfoldOfProduct(Whole(s), Power(|front|));
      assert Power(|t|) == 10 * Power(|front|);
      assert s + t == (s + front) + [d] && t == front + [d] by { hide Whole, Power; }
    }
  }

  lemma WholeSkipsDot(s: string)
    ensures Whole(s + ".") == Whole(s)
  {
    assert (s + ".")[..|s|] == s;
  }

  lemma {:induction false} WholeOfDotted(a: string, b: string)
    requires AllDigits(b)
    ensures Whole(a + "." + b) == Whole(a) * Power(|b|) + Whole(b)
  {
    WholeOfConcat(a + ".", b);
    WholeSkipsDot(a);
  }

  lemma PlainText(a: string)
    requires AllDigits(a)
    ensures Digits(a) == |a| && Count(a, '.') == 0 && Split(a, '.') == [a]
  {
    DigitsOfAll(a);
    CountIsPositive(a, '.');
    SplitWithout(a, '.');
  }

  lemma DottedText(a: string, b: string)
    requires AllDigits(a) && AllDigits(b)
    ensures var s := a + "." + b; Digits(s) == |a| + |b| && Count(s, '.') == 1 && Split(s, '.') == [a, b]
  {
    PlainText(a);
    PlainText(b);
    DigitsOfConcat(a + ".", b);
    DigitsOfConcat(a, ".");
    CountOfConcat(a + ".", b, '.');
    CountOfConcat(a, ".", '.');
    SplitOfConcat(a, '.', b);
    assert a + ['.'] + b == a + "." + b;
  }

  lemma PowerOfNone()
    ensures Power(0) == 1
  {
  }

  lemma PartOfSum(w: nat, p: nat, v: nat)
    requires p > 0
    ensures (w * p + v) as real / p as real == w as real + v as real / p as real
  {
    assert (w * p) as real == w as real * p as real;
  }

  /** `12` is twelve, `0.75` is 0 and 75 hundredths, `.5` and `3.` are read too; a dot alone
      is not a number. */
  lemma DecimalsReadAsWritten(a: string, b: string)
    requires AllDigits(a) && AllDigits(b)
    ensures DecimalOf(a) == if a == "" then None else Some(Whole(a) as real)
    ensures DecimalOf(a + "." + b) ==
            if a == "" && b == "" then None
            else Some(Whole(a) as real + Whole(b) as real / Power(|b|) as real)
  {
    hide Whole, Digits, Count, Split, Power, AllDigits;
    PlainText(a);
    DottedText(a, b);
    WholeOfDotted(a, b);
    PowerOfNone();
    PartOfSum(Whole(a), Power(|b|), Whole(b));
  }

  /** Two dots are no number. */
  lemma TwoDotsAreNoNumber(a: string, b: string, c: string)
    ensures DecimalOf(a + "." + b + "." + c) == None
  {
    CountOfConcat(a + "." + b + ".", c, '.');
    CountOfConcat(a + "." + b, ".", '.');
    CountOfConcat(a + ".", b, '.');
    CountOfConcat(a, ".", '.');
  }

  /** How a decimal becomes a floating-point number: any function at all, so that decimals
      which round alike tie as they do in the code. */
  type Rounding = real -> real

  /** `float(text)` */
  function FloatOf(round: Rounding, text: string): Option<real> {
    match DecimalOf(text)
    case None => None
    case Some(exact) => Some(round(exact))
  }

  function QualityOf(round: Rounding, e: Entry): Option<real> {
    match e.q
    case None => Some(DEFAULT_QUALITY)
    case Some(text) => FloatOf(round, text)
  }

  function Lower(c: char): char {
    if 'A' <= c <= 'Z' then c - 'A' + 'a' else c
  }

  function LowerAll(s: string): string {
    seq(|s|, i requires 0 <= i < |s| => Lower(s[i]))
  }

  /** `tag.split("-", 1)[0].lower()` */
  function BaseLanguage(tag: string): string {
    LowerAll(Split(tag, '-')[0])
  }

  /** An entry without a weight weighs 1. */
  lemma MissingWeightIsOne(round: Rounding, tag: string)
    ensures QualityOf(round, Entry(tag, None)) == Some(1.0)
  {
  }

  /** The language is the tag up to its first hyphen, in lower case. */
  lemma LanguageOfTag(primary: string, rest: string)
    requires '-' !in primary
    ensures BaseLanguage(primary) == LowerAll(primary) && BaseLanguage(primary + "-" + rest) == LowerAll(primary)
  {
    SplitWithout(primary, '-');
    SplitOfConcat(primary, '-', rest);
    assert primary + ['-'] + rest == primary + "-" + rest;
  }

  /** Turkish and English are served, in whatever case they are asked for; nothing else is. */
  lemma ServedLanguages(language: string)
    ensures LowerAll(language) in SUPPORTED_LOCALES <==>
            && |language| == 2
            && (|| (language[0] in "tT" && language[1] in "rR")
                || (language[0] in "eE" && language[1] in "nN"))
  {
    var lower := LowerAll(language);
    if |language| == 2 { assert lower == [Lower(language[0]), Lower(language[1])]; }
  }

  // --- ranking ---------------------------------------------------------------------------

  datatype Ranked = Ranked(quality: real, index: nat, language: string)

  /** What the entry at `index` contributes: nothing when malformed or unsupported. */
  function Rank(round: Rounding, entry: string, index: nat): Option<Ranked> {
    var parsed := ParseEntry(entry);
    if parsed.None? || QualityOf(round, parsed.value).None? then None
    else
      var language := BaseLanguage(parsed.value.tag);
      if language in SUPPORTED_LOCALES then Some(Ranked(QualityOf(round, parsed.value).value, index, language)) else None
  }

  /** The contributing entries, in header order. */
  function Candidates(round: Rounding, entries: seq<string>): seq<Ranked> {
    if entries == [] then []
    else
      var front, last := entries[..|entries| - 1], Rank(round, entries[|entries| - 1], |entries| - 1);
      Candidates(round, front) + if last.Some? then [last.value] else []
  }

  /** Heavier first, then earlier: the order of the tuples `(-quality, index, language)`. */
  predicate Precedes(a: Ranked, b: Ranked) {
    a.quality > b.quality || (a.quality == b.quality && a.index < b.index)
  }

  function Insert(x: Ranked, sorted: seq<Ranked>): seq<Ranked> {
    if sorted == [] then [x]
    else if Precedes(x, sorted[0]) then [x] + sorted
    else [sorted[0]] + Insert(x, sorted[1..])
  }

  function Sort(xs: seq<Ranked>): seq<Ranked> {
    if xs == [] then [] else Insert(xs[|xs| - 1], Sort(xs[..|xs| - 1]))
  }

  function Languages(ranked: seq<Ranked>): (languages: seq<string>)
    ensures |languages| == |ranked| && forall i | 0 <= i < |ranked| :: languages[i] == ranked[i].language
  {
    seq(|ranked|, i requires 0 <= i < |ranked| => ranked[i].language)
  }

  /** The candidates of a header. */
  function HeaderCandidates(round: Rounding, header: Option<string>): seq<Ranked> {
    if header.None? || header.value == "" then [] else Candidates(round, Split(header.value, ','))
  }

  function Ranking(round: Rounding, header: Option<string>): seq<Ranked> { Sort(HeaderCandidates(round, header)) }

  lemma CandidatesGrow(round: Rounding, entries: seq<string>, k: nat)
    requires k < |entries|
    ensures Candidates(round, entries[..k + 1])
            == Candidates(round, entries[..k]) + if Rank(round, entries[k], k).Some? then [Rank(round, entries[k], k).value] else []
  {
    assert entries[..k + 1][..k] == entries[..k];
  }

  method ParseAcceptLanguage(round: Rounding, header: Option<string>) returns (languages: seq<string>)
    ensures languages == Languages(Ranking(round, header))
  {
    if header.None? || header.value == "" {
      return [];
    }
    var entries := Split(header.value, ',');
    var ranked: seq<Ranked> := [];
    var index := 0;
    while index < |entries|
      invariant 0 <= index <= |entries|
      invariant ranked == Candidates(round, entries[..index])
    {
      CandidatesGrow(round, entries, index);
      var parsed := ParseEntry(entries[index]);
      if parsed.Some? {
        var quality := QualityOf(round, parsed.value);
        if quality.Some? {
          var language := BaseLanguage(parsed.value.tag);
          if language in SUPPORTED_LOCALES {
            ranked := ranked + [Ranked(quality.value, index, language)];
          }
        }
      }
      index := index + 1;
    }
    assert entries[..index] == entries;
    return Languages(Sort(ranked));
  }

  // --- the ranking is a stable sort ---------------------------------------------------------

  ghost predicate Ordered(s: seq<Ranked>) {
    forall i, j | 0 <= i < j < |s| :: Precedes(s[i], s[j])
  }

  ghost predicate ByIndex(s: seq<Ranked>) {
    forall i, j | 0 <= i < j < |s| :: s[i].index < s[j].index
  }

  lemma {:induction false} InsertIsPermutation(x: Ranked, sorted: seq<Ranked>)
    ensures multiset(Insert(x, sorted)) == multiset(sorted) + multiset{x}
  {
    if sorted != [] {
      assert sorted == [sorted[0]] + sorted[1..];
      InsertIsPermutation(x, sorted[1..]);
    }
  }

  lemma {:induction false} InsertKeepsOrder(x: Ranked, sorted: seq<Ranked>)
    requires Ordered(sorted) && forall y <- sorted :: y.index != x.index
    ensures Ordered(Insert(x, sorted))
  {
    if sorted != [] && !Precedes(x, sorted[0]) {
      assert forall y <- sorted[1..] :: y in sorted;
      InsertKeepsOrder(x, sorted[1..]);
      InsertIsPermutation(x, sorted[1..]);
      var rest := Insert(x, sorted[1..]);
      forall j | 0 <= j < |rest| ensures Precedes(sorted[0], rest[j]) {
        assert rest[j] in multiset(rest);
        assert rest[j] == x || rest[j] in sorted[1..];
      }
    }
  }

  lemma {:induction false} SortIsStable(xs: seq<Ranked>)
    requires ByIndex(xs)
    ensures multiset(Sort(xs)) == multiset(xs)
    ensures Ordered(Sort(xs))
  {
    if xs != [] {
      var front, last := xs[..|xs| - 1], xs[|xs| - 1];
      assert xs == front + [last];
      SortIsStable(front);
      InsertIsPermutation(last, Sort(front));
      forall y <- Sort(front) ensures y.index != last.index {
        assert y in multiset(Sort(front));
        assert y in front;
      }
      InsertKeepsOrder(last, Sort(front));
    }
  }

  /** Where a candidate comes from. */
  predicate Contributes(round: Rounding, entries: seq<string>, c: Ranked) {
    c.index < |entries| && Rank(round, entries[c.index], c.index) == Some(c)
  }

  lemma RankKeepsIndex(round: Rounding, entry: string, index: nat)
    ensures Rank(round, entry, index).Some? ==> Rank(round, entry, index).value.index == index
  {
  }

  lemma {:induction false} CandidatesContribute(round: Rounding, entries: seq<string>, c: Ranked)
    requires c in Candidates(round, entries)
    ensures Contributes(round, entries, c)
  {
    var front, k := entries[..|entries| - 1], |entries| - 1;
    if c in Candidates(round, front) {
      CandidatesContribute(round, front, c);
      assert front[c.index] == entries[c.index];
    } else {
      RankKeepsIndex(round, entries[k], k);
    }
  }

  lemma {:induction false} CandidatesByIndex(round: Rounding, entries: seq<string>)
    ensures ByIndex(Candidates(round, entries))
  {
    if entries != [] {
      var front, k := entries[..|entries| - 1], |entries| - 1;
      CandidatesByIndex(round, front);
      RankKeepsIndex(round, entries[k], k);
      forall c <- Candidates(round, front) ensures c.index < k {
        CandidatesContribute(round, front, c);
      }
    }
  }

  lemma {:induction false} CandidatesMissNobody(round: Rounding, entries: seq<string>, k: nat)
    requires k < |entries| && Rank(round, entries[k], k).Some?
    ensures Rank(round, entries[k], k).value in Candidates(round, entries)
  {
    if k < |entries| - 1 {
      CandidatesMissNobody(round, entries[..|entries| - 1], k);
    }
  }

  /** The candidates are the well-formed entries in a supported language, each once. */
  lemma CandidatesAreExact(round: Rounding, entries: seq<string>, c: Ranked)
    ensures c in Candidates(round, entries) <==> Contributes(round, entries, c)
    ensures ByIndex(Candidates(round, entries))
  {
    CandidatesByIndex(round, entries);
    if c in Candidates(round, entries) { CandidatesContribute(round, entries, c); }
    if Contributes(round, entries, c) { CandidatesMissNobody(round, entries, c.index); }
  }

  /** The ranking is a permutation of the candidates, by descending weight, equal weights in
      header order. */
  lemma RankingIsStableSort(round: Rounding, header: Option<string>)
    ensures multiset(Ranking(round, header)) == multiset(HeaderCandidates(round, header))
    ensures Ordered(Ranking(round, header))
  {
    if header.Some? { CandidatesByIndex(round, Split(header.value, ',')); }
    SortIsStable(HeaderCandidates(round, header));
  }

  /** No other order is one. */
  lemma {:induction false} StableSortIsUnique(s: seq<Ranked>, t: seq<Ranked>)
    requires multiset(s) == multiset(t) && Ordered(s) && Ordered(t)
    ensures s == t
  {
    assert |s| == |multiset(s)| == |multiset(t)| == |t|;
    if s != [] {
      HeadsAgree(s, t);
      assert s == [s[0]] + s[1..] && t == [t[0]] + t[1..];
      assert multiset(s[1..]) == multiset(s) - multiset{s[0]};
      assert multiset(t[1..]) == multiset(t) - multiset{t[0]};
      StableSortIsUnique(s[1..], t[1..]);
    }
  }

  lemma HeadsAgree(s: seq<Ranked>, t: seq<Ranked>)
    requires s != [] && t != [] && multiset(s) == multiset(t) && Ordered(s) && Ordered(t)
    ensures s[0] == t[0]
  {
    assert s[0] in multiset(t) && t[0] in multiset(s);
    var j :| 0 <= j < |t| && t[j] == s[0];
    var k :| 0 <= k < |s| && s[k] == t[0];
  }

  // --- the locale ----------------------------------------------------------------------------

  /** `resolve_locale`: the account's own locale, else the header's first, else the default. */
  method ResolveLocale(round: Rounding, viewerLocale: Option<string>, header: Option<string>) returns (locale: string)
    ensures locale in SUPPORTED_LOCALES
    ensures viewerLocale.Some? && viewerLocale.value in SUPPORTED_LOCALES ==> locale == viewerLocale.value
    ensures !(viewerLocale.Some? && viewerLocale.value in SUPPORTED_LOCALES) ==>
              if HeaderCandidates(round, header) == [] then locale == DEFAULT_LOCALE else Heaviest(round, header, locale)
  {
    if viewerLocale.Some? && viewerLocale.value in SUPPORTED_LOCALES {
      return viewerLocale.value;
    }
    var preferred := ParseAcceptLanguage(round, header);
    RankingIsStableSort(round, header);
    var candidates := HeaderCandidates(round, header);
    assert |Ranking(round, header)| == |multiset(Ranking(round, header))| == |multiset(candidates)| == |candidates|;
    if preferred == [] {
      return DEFAULT_LOCALE;
    }
    FirstIsHeaviest(round, header);
    locale := preferred[0];
  }

  /** The language of a candidate no other precedes. */
  ghost predicate Heaviest(round: Rounding, header: Option<string>, language: string) {
    exists best <- HeaderCandidates(round, header) ::
      && best.language == language && language in SUPPORTED_LOCALES
      && forall c <- HeaderCandidates(round, header) :: c == best || Precedes(best, c)
  }

  lemma FirstIsHeaviest(round: Rounding, header: Option<string>)
    requires Ranking(round, header) != []
    ensures Heaviest(round, header, Ranking(round, header)[0].language)
  {
    RankingIsStableSort(round, header);
    var best := Ranking(round, header)[0];
    assert best in multiset(Ranking(round, header));
    assert best in HeaderCandidates(round, header);
    CandidatesContribute(round, Split(header.value, ','), best);
    forall c <- HeaderCandidates(round, header) ensures c == best || Precedes(best, c) {
      assert c in multiset(Ranking(round, header));
      var i :| 0 <= i < |Ranking(round, header)| && Ranking(round, header)[i] == c;
    }
  }
}
