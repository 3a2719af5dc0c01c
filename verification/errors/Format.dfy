/** What Go's fmt.Sprintf makes of a format when it gets no arguments. */
module Format {

  predicate IsFlag(c: char) {
    c in "#0+- "
  }

  function SkipFlags(s: string): (rest: string)
    ensures |rest| <= |s|
  {
    if s != [] && IsFlag(s[0]) then SkipFlags(s[1..]) else s
  }

  /** Scans a number; one over a million swallows the rest of the format. */
  function ScanNumber(s: string, num: nat, isNumber: bool): (r: (string, bool))
    ensures |r.0| <= |s|
  {
    if s == [] || !('0' <= s[0] <= '9') then (s, isNumber)
    else if num > 1_000_000 then ([], false)
    else ScanNumber(s[1..], num * 10 + (s[0] - '0') as nat, true)
  }

  // The first position of c at or after i, or |s|.
  function IndexFrom(s: string, c: char, i: nat): (k: nat)
    requires i <= |s|
    ensures i <= k <= |s| && (k < |s| ==> s[k] == c)
    decreases |s| - i
  {
    if i == |s| || s[i] == c then i else IndexFrom(s, c, i + 1)
  }

  /** An argument index as in "%[3]d": what follows it, whether there is one,
      and whether it is well formed. */
  datatype Index = Index(rest: string, present: bool, wellFormed: bool)

  function ArgNumber(s: string): (r: Index)
    ensures |r.rest| <= |s|
  {
    if s == [] || s[0] != '[' then Index(s, false, false)
    else if |s| < 3 then Index(s[1..], true, false)
    else
      var k := IndexFrom(s, ']', 1);
      if k == |s| then Index(s[1..], true, false)
      else Index(s[k + 1..], true, ScanNumber(s[1..k], 0, false) == ([], true))
  }

  /** A directive that has been read up to `rest`: what it has printed so far,
      whether its indices are acceptable, and whether an index came last. */
  datatype Reading = Reading(rest: string, printed: string, good: bool, afterIndex: bool)

  /** Without arguments every index is out of range. */
  function ReadIndex(r: Reading): (r': Reading)
    ensures |r'.rest| <= |r.rest|
  {
    var index := ArgNumber(r.rest);
    Reading(index.rest, r.printed, r.good && !index.present, index.wellFormed)
  }

  function ReadWidth(r: Reading): (r': Reading)
    ensures |r'.rest| <= |r.rest|
  {
    if r.rest != [] && r.rest[0] == '*' then
      Reading(r.rest[1..], r.printed + "%!(BADWIDTH)", r.good, false)
    else
      var (rest, isNumber) := ScanNumber(r.rest, 0, false);
      Reading(rest, r.printed, r.good && !(r.afterIndex && isNumber), r.afterIndex)
  }

  function ReadPrecision(r: Reading): (r': Reading)
    ensures |r'.rest| <= |r.rest|
  {
    if r.rest == [] || r.rest[0] != '.' then r
    else
      var d := ReadIndex(Reading(r.rest[1..], r.printed, r.good && !r.afterIndex, r.afterIndex));
      if d.rest != [] && d.rest[0] == '*' then
        Reading(d.rest[1..], d.printed + "%!(BADPREC)", d.good, false)
      else
        Reading(ScanNumber(d.rest, 0, false).0, d.printed, d.good, d.afterIndex)
  }

  /** Everything between the '%' and the verb. */
  function ReadDirective(s: string): (r: Reading)
    ensures |r.rest| <= |s|
  {
    var r := ReadPrecision(ReadWidth(ReadIndex(Reading(SkipFlags(s), "", true, false))));
    if r.afterIndex then r else ReadIndex(r)
  }

  function PrintVerb(r: Reading): string {
    if r.rest == [] then "%!(NOVERB)"
    else if r.rest[0] == '%' then "%"
    else ("%!" + [r.rest[0]]) + if r.good then "(MISSING)" else "(BADINDEX)"
  }

  function AfterVerb(r: Reading): (rest: string)
    ensures |rest| <= |r.rest|
  {
    if r.rest == [] then [] else r.rest[1..]
  }

  function Sprintf(format: string): string
    decreases |format|
  {
    if format == [] then []
    else if format[0] != '%' then [format[0]] + Sprintf(format[1..])
    else
      var r := ReadDirective(format[1..]);
      r.printed + PrintVerb(r) + Sprintf(AfterVerb(r))
  }

  function Count(s: string, c: char): nat {
    if s == [] then 0 else (if s[0] == c then 1 else 0) + Count(s[1..], c)
  }

  lemma {:induction false} CountConcat(a: string, b: string, c: char)
    ensures Count(a + b, c) == Count(a, c) + Count(b, c)
  {
    if a == [] {
      assert a + b == b;
    } else {
      assert (a + b)[1..] == a[1..] + b;
      CountConcat(a[1..], b, c);
    }
  }

  lemma {:induction false} CountSuffix(s: string, k: nat, c: char)
    requires k <= |s|
    ensures Count(s[k..], c) <= Count(s, c)
  {
    if k > 0 {
      assert s[1..][k - 1..] == s[k..];
      CountSuffix(s[1..], k - 1, c);
    } else {
      assert s[0..] == s;
    }
  }

  lemma {:induction false} FlagsCount(s: string, c: char)
    ensures Count(SkipFlags(s), c) <= Count(s, c)
  {
    if s != [] && IsFlag(s[0]) {
      FlagsCount(s[1..], c);
    }
  }

  lemma {:induction false} NumberCount(s: string, num: nat, isNumber: bool, c: char)
    ensures Count(ScanNumber(s, num, isNumber).0, c) <= Count(s, c)
  {
    if s != [] && '0' <= s[0] <= '9' && num <= 1_000_000 {
      NumberCount(s[1..], num * 10 + (s[0] - '0') as nat, true, c);
    }
  }

  lemma IndexCount(r: Reading, c: char)
    ensures Count(ReadIndex(r).rest, c) <= Count(r.rest, c)
  {
    if r.rest != [] && r.rest[0] == '[' {
      CountSuffix(r.rest, |r.rest| - |ArgNumber(r.rest).rest|, c);
    }
  }

  /** A directive has printed nothing yet, or it has replaced a star by a
      complaint. */
  predicate Kept(s: string, r: Reading) {
    && (r.printed == "" || (r.printed[0] == '%' && Count(r.rest, '*') < Count(s, '*')))
    && Count(r.printed, '*') == 0
    && Count(r.rest, '*') <= Count(s, '*') && Count(r.rest, '%') <= Count(s, '%')
  }

  lemma AppendStarless(s: string, t: string)
    requires '*' !in t
    ensures Count(s + t, '*') == Count(s, '*')
  {
    CountConcat(s, t, '*');
    NoStar(t);
  }

  lemma {:induction false} NoStar(s: string)
    requires '*' !in s
    ensures Count(s, '*') == 0
  {
    if s != [] {
      NoStar(s[1..]);
    }
  }

  lemma WidthKept(s: string, r: Reading)
    requires Kept(s, r)
    ensures Kept(s, ReadWidth(r))
  {
    NumberCount(r.rest, 0, false, '*');
    NumberCount(r.rest, 0, false, '%');
    AppendStarless(r.printed, "%!(BADWIDTH)");
  }

  lemma IndexKept(s: string, r: Reading)
    requires Kept(s, r)
    ensures Kept(s, ReadIndex(r))
  {
    IndexCount(r, '*');
    IndexCount(r, '%');
  }

  lemma PrecisionKept(s: string, r: Reading)
    requires Kept(s, r)
    ensures Kept(s, ReadPrecision(r))
  {
    if r.rest != [] && r.rest[0] == '.' {
      var r1 := Reading(r.rest[1..], r.printed, r.good && !r.afterIndex, r.afterIndex);
      var d := ReadIndex(r1);
      assert Kept(s, r1);
      IndexKept(s, r1);
      NumberCount(d.rest, 0, false, '*');
      NumberCount(d.rest, 0, false, '%');
      AppendStarless(d.printed, "%!(BADPREC)");
    }
  }

  lemma DirectiveKept(s: string)
    ensures Kept(s, ReadDirective(s))
  {
    FlagsCount(s, '*');
    FlagsCount(s, '%');
    var r0 := Reading(SkipFlags(s), "", true, false);
    assert Kept(s, r0);
    IndexKept(s, r0);
    WidthKept(s, ReadIndex(r0));
    PrecisionKept(s, ReadWidth(ReadIndex(r0)));
    IndexKept(s, ReadPrecision(ReadWidth(ReadIndex(r0))));
  }

  /** What one directive makes of its stars and percent signs. */
  lemma DirectiveCounts(s: string)
    ensures var r := ReadDirective(s);
            var out := r.printed + PrintVerb(r);
            && out != [] && out[0] == '%'
            && Count(out, '*') + Count(AfterVerb(r), '*') <= Count(s, '*')
            && (Count(out, '*') + Count(AfterVerb(r), '*') == Count(s, '*') ==>
                  && Count(out, '%') + Count(AfterVerb(r), '%') <= 1 + Count(s, '%')
                  && (Count(out, '%') + Count(AfterVerb(r), '%') == 1 + Count(s, '%') ==> |out| >= 2 && out[1] == '!'))
  {
    DirectiveKept(s);
    var r := ReadDirective(s);
    CountConcat(r.printed, PrintVerb(r), '*');
    VerbCounts(r);
    assert r.printed == "" ==> r.printed + PrintVerb(r) == PrintVerb(r);
  }

  lemma VerbCounts(r: Reading)
    ensures Count(PrintVerb(r), '*') + Count(AfterVerb(r), '*') == Count(r.rest, '*')
    ensures Count(PrintVerb(r), '%') == 1
    ensures r.rest != [] && r.rest[0] == '%' ==> 1 + Count(AfterVerb(r), '%') == Count(r.rest, '%')
    ensures Count(AfterVerb(r), '%') <= Count(r.rest, '%')
  {
    if r.rest == [] {
      assert PrintVerb(r) == ['%'] + "!(NOVERB)";
      PlainComplaintCounts("!(NOVERB)");
    } else if r.rest[0] != '%' {
      VerbComplaintCounts(r.rest[0], if r.good then "(MISSING)" else "(BADINDEX)");
    } else {
      assert PrintVerb(r) == ['%'] + [];
      ComplaintCounts('%', []);
    }
  }

  lemma VerbComplaintCounts(verb: char, tail: string)
    requires '*' !in tail && '%' !in tail && verb != '%'
    ensures Count("%!" + [verb] + tail, '*') == if verb == '*' then 1 else 0
    ensures Count("%!" + [verb] + tail, '%') == 1
  {
    NoStar(tail);
    NoPercent(tail);
    assert "%!" + [verb] + tail == ['%'] + (['!'] + ([verb] + tail));
    ComplaintCounts(verb, tail);
    ComplaintCounts('!', [verb] + tail);
    ComplaintCounts('%', ['!'] + ([verb] + tail));
  }

  lemma PlainComplaintCounts(text: string)
    requires '*' !in text && '%' !in text
    ensures Count(['%'] + text, '*') == 0 && Count(['%'] + text, '%') == 1
  {
    NoStar(text);
    NoPercent(text);
    ComplaintCounts('%', text);
  }

  lemma ComplaintCounts(first: char, tail: string)
    ensures forall c :: Count([first] + tail, c) == (if first == c then 1 else 0) + Count(tail, c)
  {
    assert ([first] + tail)[1..] == tail;
  }

  lemma {:induction false} NoPercent(s: string)
    requires '%' !in s
    ensures Count(s, '%') == 0
  {
    if s != [] {
      NoPercent(s[1..]);
    }
  }

  lemma {:induction false} SprintfCounts(f: string)
    ensures Count(Sprintf(f), '*') <= Count(f, '*')
    ensures Count(Sprintf(f), '*') == Count(f, '*') ==> Count(Sprintf(f), '%') <= Count(f, '%')
    decreases |f|
  {
    if f != [] {
      if f[0] != '%' {
        SprintfCounts(f[1..]);
        assert Sprintf(f)[1..] == Sprintf(f[1..]);
      } else {
        DirectiveStep(f);
        SprintfCounts(AfterVerb(ReadDirective(f[1..])));
      }
    }
  }

  // Counts over the first directive and the rest.
  lemma DirectiveStep(f: string)
    requires f != [] && f[0] == '%'
    ensures var r := ReadDirective(f[1..]);
            var out, rest := r.printed + PrintVerb(r), AfterVerb(r);
            && Sprintf(f) == out + Sprintf(rest)
            && out != [] && out[0] == '%'
            && Count(Sprintf(f), '*') == Count(out, '*') + Count(Sprintf(rest), '*')
            && Count(Sprintf(f), '%') == Count(out, '%') + Count(Sprintf(rest), '%')
            && Count(out, '*') + Count(rest, '*') <= Count(f, '*')
            && (Count(out, '*') + Count(rest, '*') == Count(f, '*') ==>
                  && Count(out, '%') + Count(rest, '%') <= Count(f, '%')
                  && (Count(out, '%') + Count(rest, '%') == Count(f, '%') ==> |out| >= 2 && out[1] == '!'))
  {
    var r := ReadDirective(f[1..]);
    var out, rest := r.printed + PrintVerb(r), AfterVerb(r);
    DirectiveCounts(f[1..]);
    CountConcat(out, Sprintf(rest), '*');
    CountConcat(out, Sprintf(rest), '%');
  }

  // The number of characters before the first '%'.
  function Ahead(s: string): nat {
    if s == [] || s[0] == '%' then 0 else 1 + Ahead(s[1..])
  }

  /** The first '%' stands before a '!'. */
  predicate Bang(s: string) {
    s != [] && if s[0] == '%' then |s| >= 2 && s[1] == '!' else Bang(s[1..])
  }

  // The number of characters between the first two '%'.
  function Gap(s: string): nat {
    if s == [] then 0 else if s[0] == '%' then Ahead(s[1..]) else Gap(s[1..])
  }

  /** `b` is further on the way of a string through Sprintf than `a`: it has lost
      stars or percent signs, or its first complaint has become longer. */
  predicate Later(a: string, b: string) {
    || Count(b, '*') < Count(a, '*')
    || (Count(b, '*') == Count(a, '*') && Count(b, '%') < Count(a, '%'))
    || (Count(b, '*') == Count(a, '*') && Count(b, '%') == Count(a, '%') && Bang(b) && (Bang(a) ==> Gap(b) > Gap(a)))
  }

  lemma {:induction false} SprintfKeepsAhead(f: string)
    ensures Ahead(Sprintf(f)) == Ahead(f)
  {
    if f != [] {
      if f[0] == '%' {
        DirectiveStep(f);
      } else {
        SprintfKeepsAhead(f[1..]);
        assert Sprintf(f)[1..] == Sprintf(f[1..]);
      }
    }
  }

  /** "%!" is complained about again: '!' is no verb of its own. */
  lemma BangGrows(f: string)
    requires f != [] && f[0] == '%' && Bang(f)
    ensures Gap(Sprintf(f)) > Gap(f)
  {
    var rest := f[1..][1..];
    BangIsVerb(f[1..]);
    assert f == ['%'] + f[1..];
    SprintfKeepsAhead(rest);
    GapOfComplaint(Sprintf(rest));
  }

  lemma GapOfComplaint(rest: string)
    ensures Gap("%!!(MISSING)" + rest) == 11 + Ahead(rest)
  {
    assert ("%!!(MISSING)" + rest)[1..] == "!!(MISSING)" + rest;
    AheadConcat("!!(MISSING)", rest);
  }

  lemma DirectiveFirst(s: string)
    ensures var r := ReadDirective(s);
            Sprintf(['%'] + s) == r.printed + PrintVerb(r) + Sprintf(AfterVerb(r))
  {
    assert (['%'] + s)[1..] == s;
  }

  lemma PrintBang(r: Reading)
    requires r.rest != [] && r.rest[0] == '!' && r.good && r.printed == ""
    ensures r.printed + PrintVerb(r) == "%!!(MISSING)"
  {
    assert "%!" + ['!'] + "(MISSING)" == "%!!(MISSING)";
  }

  lemma BangIsVerb(s: string)
    requires s != [] && s[0] == '!'
    ensures Sprintf(['%'] + s) == "%!!(MISSING)" + Sprintf(s[1..])
  {
    DirectiveFirst(s);
    NothingBeforeBang(s);
    PrintBang(ReadDirective(s));
  }

  lemma NothingBeforeBang(s: string)
    requires s != [] && s[0] == '!'
    ensures ReadDirective(s) == Reading(s, "", true, false)
  {
    var r := Reading(s, "", true, false);
    assert SkipFlags(s) == s;
    assert ReadIndex(r) == r;
    assert ReadWidth(r) == r by { assert ScanNumber(s, 0, false) == (s, false); }
    assert ReadPrecision(r) == r;
  }

  lemma {:induction false} AheadConcat(a: string, b: string)
    requires '%' !in a
    ensures Ahead(a + b) == |a| + Ahead(b)
  {
    if a == [] {
      assert a + b == b;
    } else {
      assert (a + b)[1..] == a[1..] + b;
      AheadConcat(a[1..], b);
    }
  }

  lemma {:induction false} SprintfIsLater(f: string)
    requires '%' in f
    ensures Later(f, Sprintf(f)) && '%' in Sprintf(f)
    decreases |f|
  {
    if f[0] == '%' {
      DirectiveStep(f);
      SprintfCounts(AfterVerb(ReadDirective(f[1..])));
      if Bang(f) {
        BangGrows(f);
      }
    } else {
      SprintfIsLater(f[1..]);
      assert Sprintf(f)[1..] == Sprintf(f[1..]);
    }
  }

  lemma {:induction false} SprintfPlain(f: string)
    requires '%' !in f
    ensures Sprintf(f) == f
  {
    if f != [] {
      SprintfPlain(f[1..]);
    }
  }

  function Times(n: nat, f: string): string {
    if n == 0 then f else Sprintf(Times(n - 1, f))
  }

  lemma {:induction false} TimesIsLater(n: nat, f: string)
    requires n > 0 && '%' in f
    ensures Later(f, Times(n, f)) && '%' in Times(n, f)
  {
    if n > 1 {
      TimesIsLater(n - 1, f);
    }
    SprintfIsLater(Times(n - 1, f));
  }

  /** A string is what it was after going through Sprintf any number of times
      exactly if it has no '%'; and it never goes in circles. */
  lemma {:induction false} KeptIffNoPercent(n: nat, f: string)
    requires n > 0
    ensures Times(n, f) == f <==> '%' !in f
    ensures '%' in f <==> '%' in Times(n, f)
  {
    if '%' in f {
      TimesIsLater(n, f);
    } else {
      TimesPlain(n, f);
    }
  }

  lemma {:induction false} TimesPlain(n: nat, f: string)
    requires '%' !in f
    ensures Times(n, f) == f
  {
    if n > 0 {
      TimesPlain(n - 1, f);
      SprintfPlain(f);
    }
  }

  lemma {:induction false} PlainPrefix(a: string, b: string)
    requires '%' !in a
    ensures Sprintf(a + b) == a + Sprintf(b)
  {
    if a == [] {
      assert a + b == b && a + Sprintf(b) == Sprintf(b);
    } else {
      var rest := a[1..] + b;
      PlainPrefix(a[1..], b);
      assert (a + b)[1..] == rest;
      assert Sprintf(a + b) == [a[0]] + Sprintf(rest);
      HeadAndRest(a, Sprintf(b));
    }
  }

  lemma HeadAndRest(a: string, x: string)
    requires a != []
    ensures [a[0]] + (a[1..] + x) == a + x
  {
  }

  lemma NothingToRead()
    ensures ReadDirective([]) == Reading([], [], true, false)
  {
    var r := Reading([], [], true, false);
    assert ReadIndex(r) == r && ReadWidth(r) == r && ReadPrecision(r) == r;
  }

  /** A '%' at the very end has no verb. */
  lemma PercentAtEnd()
    ensures Sprintf(['%']) == "%!(NOVERB)"
  {
    NothingToRead();
    assert ['%'] + [] == ['%'];
    DirectiveFirst([]);
  }

  /** What precedes the verb changes nothing if it is a flag. */
  lemma FlagsAreSkipped(flag: char, s: string)
    requires IsFlag(flag)
    ensures Sprintf(['%'] + ([flag] + s)) == Sprintf(['%'] + s)
  {
    assert ([flag] + s)[1..] == s;
    assert SkipFlags([flag] + s) == SkipFlags(s);
    DirectiveFirst(s);
    DirectiveFirst([flag] + s);
  }

  // A character that stands for itself as a verb.
  predicate IsVerb(c: char) {
    !IsFlag(c) && !('0' <= c <= '9') && c !in {'%', '*', '.', '['}
  }

  lemma ReadsVerb(r: Reading)
    requires r.rest != [] && (IsVerb(r.rest[0]) || r.rest[0] == '%') && !r.afterIndex
    ensures ReadIndex(r) == r && ReadWidth(r) == r && ReadPrecision(r) == r
  {
    assert ScanNumber(r.rest, 0, false) == (r.rest, false);
  }

  lemma VerbFirst(s: string)
    requires s != [] && (IsVerb(s[0]) || s[0] == '%')
    ensures ReadDirective(s) == Reading(s, "", true, false)
  {
    assert SkipFlags(s) == s;
    ReadsVerb(Reading(s, "", true, false));
  }

  /** "%%" is a '%'. */
  lemma TwoPercents(s: string)
    ensures Sprintf(['%'] + (['%'] + s)) == ['%'] + Sprintf(s)
  {
    assert (['%'] + s)[1..] == s;
    VerbFirst(['%'] + s);
    DirectiveFirst(['%'] + s);
  }

  /** A verb has no argument. */
  lemma VerbIsMissing(verb: char, s: string)
    requires IsVerb(verb)
    ensures Sprintf(['%'] + ([verb] + s)) == "%!" + [verb] + "(MISSING)" + Sprintf(s)
  {
    assert ([verb] + s)[1..] == s;
    VerbFirst([verb] + s);
    DirectiveFirst([verb] + s);
  }

  /** Neither has a width. */
  lemma StarIsMissing(verb: char, s: string)
    requires IsVerb(verb)
    ensures Sprintf(['%'] + (['*'] + ([verb] + s))) == "%!(BADWIDTH)" + ("%!" + [verb] + "(MISSING)") + Sprintf(s)
  {
    var format, rest := ['*'] + ([verb] + s), [verb] + s;
    assert format[1..] == rest && rest[1..] == s;
    var r := Reading(format, "", true, false);
    assert SkipFlags(format) == format && ReadIndex(r) == r;
    assert ReadWidth(r) == Reading(rest, "%!(BADWIDTH)", true, false);
    ReadsVerb(ReadWidth(r));
    DirectiveFirst(format);
  }

  /** Nor a precision. */
  lemma PrecisionIsMissing(verb: char, s: string)
    requires IsVerb(verb)
    ensures Sprintf(['%'] + (['.', '*'] + ([verb] + s))) == "%!(BADPREC)" + ("%!" + [verb] + "(MISSING)") + Sprintf(s)
  {
    var format, rest := ['.', '*'] + ([verb] + s), [verb] + s;
    assert format[1..] == ['*'] + rest && format[1..][1..] == rest && rest[1..] == s;
    var r := Reading(format, "", true, false);
    assert SkipFlags(format) == format && ReadIndex(r) == r;
    assert ReadWidth(r) == r by { assert ScanNumber(format, 0, false) == (format, false); }
    assert ReadIndex(Reading(['*'] + rest, "", true, false)) == Reading(['*'] + rest, "", true, false);
    assert ReadPrecision(r) == Reading(rest, "%!(BADPREC)", true, false);
    ReadsVerb(ReadPrecision(r));
    DirectiveFirst(format);
  }

  /** No index is in range. */
  lemma IndexIsBad(digit: char, verb: char, s: string)
    requires '0' <= digit <= '9' && IsVerb(verb)
    ensures Sprintf(['%'] + (['[', digit, ']'] + ([verb] + s))) == "%!" + [verb] + "(BADINDEX)" + Sprintf(s)
  {
    var format, rest := ['[', digit, ']'] + ([verb] + s), [verb] + s;
    assert rest[1..] == s;
    assert SkipFlags(format) == format;
    var r := Reading(format, "", true, false);
    IndexIsRead(digit, rest);
    assert ReadIndex(r) == Reading(rest, "", false, true);
    var r' := ReadIndex(r);
    assert ReadWidth(r') == r' by { assert ScanNumber(rest, 0, false) == (rest, false); }
    assert ReadPrecision(r') == r';
    DirectiveFirst(format);
  }

  lemma IndexIsRead(digit: char, rest: string)
    requires '0' <= digit <= '9'
    ensures ArgNumber(['[', digit, ']'] + rest) == Index(rest, true, true)
  {
    var s := ['[', digit, ']'] + rest;
    assert s[2] == ']' && s[1] == digit;
    assert IndexFrom(s, ']', 1) == IndexFrom(s, ']', 2) == 2;
    assert s[1..2] == [digit] && [digit][1..] == [] && s[3..] == rest;
    var value := (digit - '0') as nat;
    assert ScanNumber([digit], 0, false) == ScanNumber([], value, true) == ([], true);
  }

  lemma FlagsAreFive(c: char)
    ensures IsFlag(c) <==> c == '#' || c == '0' || c == '+' || c == '-' || c == ' '
  {
    var flags := "#0+- ";
    assert flags == ['#', '0', '+', '-', ' '];
  }

  predicate IsDigit(c: char) {
    '0' <= c <= '9'
  }

  lemma {:induction false} NumberIsScanned(digits: string, rest: string, num: nat, isNumber: bool)
    requires forall c :: c in digits ==> IsDigit(c)
    requires rest == [] || !IsDigit(rest[0])
    requires |digits| <= 6 && num < Power(6 - |digits|)
    ensures ScanNumber(digits + rest, num, isNumber) == (rest, isNumber || digits != [])
  {
    if digits == [] {
      assert digits + rest == rest;
    } else {
      assert digits[0] in digits && (digits + rest)[1..] == digits[1..] + rest;
      PowerGrows(6 - |digits|);
      NumberIsScanned(digits[1..], rest, num * 10 + (digits[0] - '0') as nat, true);
    }
  }

  // 10 to the n-th.
  function Power(n: nat): (p: nat)
    ensures p <= 1_000_000 || n > 6
  {
    match n
    case 0 => 1
    case 1 => 10
    case 2 => 100
    case 3 => 1000
    case 4 => 10_000
    case 5 => 100_000
    case 6 => 1_000_000
    case _ => 10_000_000
  }

  lemma PowerGrows(n: nat)
    requires n < 6
    ensures Power(n + 1) == 10 * Power(n)
  {
  }

  /** A number over a million followed by another digit swallows the rest; one
      million does not. */
  lemma NumberIsTooLarge(digit: char, s: string, isNumber: bool)
    requires IsDigit(digit)
    ensures ScanNumber([digit] + s, 1_000_001, isNumber) == ([], false)
    ensures ScanNumber([digit] + s, 1_000_000, isNumber) == ScanNumber(s, 10_000_000 + (digit - '0') as nat, true)
  {
    assert ([digit] + s)[1..] == s;
  }

  // A directive whose verb comes after `before`, which is read without a complaint.
  lemma VerbAfter(before: string, rest: string)
    requires rest != [] && IsVerb(rest[0])
    requires ReadDirective(before + rest) == Reading(rest, "", true, false)
    ensures Sprintf(['%'] + (before + rest)) == "%!" + [rest[0]] + "(MISSING)" + Sprintf(rest[1..])
  {
    DirectiveFirst(before + rest);
  }

  lemma WidthIsRead(digits: string, rest: string)
    requires digits != [] && |digits| <= 6 && digits[0] != '0' && forall c :: c in digits ==> IsDigit(c)
    requires rest != [] && IsVerb(rest[0])
    ensures ReadDirective(digits + rest) == Reading(rest, "", true, false)
  {
    var format := digits + rest;
    var r := Reading(format, "", true, false);
    assert digits[0] in digits && format[0] == digits[0];
    FlagsAreFive(format[0]);
    assert SkipFlags(format) == format;
    assert ReadIndex(r) == r;
    NumberIsScanned(digits, rest, 0, false);
    assert ReadWidth(r) == Reading(rest, "", true, false);
    ReadsVerb(ReadWidth(r));
  }

  /** A width of digits does not matter. */
  lemma WidthIsSkipped(digits: string, rest: string)
    requires digits != [] && |digits| <= 6 && digits[0] != '0' && forall c :: c in digits ==> IsDigit(c)
    requires rest != [] && IsVerb(rest[0])
    ensures Sprintf(['%'] + (digits + rest)) == "%!" + [rest[0]] + "(MISSING)" + Sprintf(rest[1..])
  {
    WidthIsRead(digits, rest);
    VerbAfter(digits, rest);
  }

  lemma PrecisionIsRead(digits: string, rest: string)
    requires |digits| <= 6 && forall c :: c in digits ==> IsDigit(c)
    requires rest != [] && IsVerb(rest[0])
    ensures ReadDirective(['.'] + (digits + rest)) == Reading(rest, "", true, false)
  {
    var tail := digits + rest;
    var format := ['.'] + tail;
    assert format[1..] == tail;
    if digits == [] {
      assert tail == rest;
    } else {
      assert tail[0] == digits[0] && digits[0] in digits;
    }
    var r := Reading(format, "", true, false);
    assert SkipFlags(format) == format && ReadIndex(r) == r;
    assert ReadWidth(r) == r by { assert ScanNumber(format, 0, false) == (format, false); }
    var d := Reading(tail, "", true, false);
    assert ReadIndex(d) == d;
    NumberIsScanned(digits, rest, 0, false);
    assert ReadPrecision(r) == Reading(rest, "", true, false);
    ReadsVerb(ReadPrecision(r));
  }

  /** Nor does a precision of digits. */
  lemma PrecisionIsSkipped(digits: string, rest: string)
    requires |digits| <= 6 && forall c :: c in digits ==> IsDigit(c)
    requires rest != [] && IsVerb(rest[0])
    ensures Sprintf(['%'] + ((['.'] + digits) + rest)) == "%!" + [rest[0]] + "(MISSING)" + Sprintf(rest[1..])
  {
    PrecisionIsRead(digits, rest);
    InThreeParts(['.'], digits, rest);
    VerbAfter(['.'] + digits, rest);
  }

  lemma InThreeParts(a: string, b: string, c: string)
    ensures (a + b) + c == a + (b + c)
  {
  }

  // What remains to be read of a directive after a bad index.
  lemma BadVerb(rest: string, afterIndex: bool)
    requires rest != [] && (IsVerb(rest[0]) || (afterIndex && rest[0] == '['))
    ensures var r := Reading(rest, "", false, afterIndex);
            ReadPrecision(ReadWidth(r)) == r && (if afterIndex then r else ReadIndex(r)) == r
  {
    assert ScanNumber(rest, 0, false) == (rest, false);
  }

  // The same with a complaint about an index.
  lemma BadVerbAfter(before: string, rest: string, afterIndex: bool)
    requires rest != [] && rest[0] != '%'
    requires ReadDirective(before + rest) == Reading(rest, "", false, afterIndex)
    ensures Sprintf(['%'] + (before + rest)) == "%!" + [rest[0]] + "(BADINDEX)" + Sprintf(rest[1..])
  {
    DirectiveFirst(before + rest);
  }

  /** An index that is not closed is its bracket alone. */
  lemma UnclosedIndex(rest: string)
    requires rest != [] && IsVerb(rest[0]) && ']' !in rest
    ensures Sprintf(['%'] + (['['] + rest)) == "%!" + [rest[0]] + "(BADINDEX)" + Sprintf(rest[1..])
  {
    UnclosedIndexIsRead(rest);
    BadVerbAfter(['['], rest, false);
  }

  lemma UnclosedIndexIsRead(rest: string)
    requires rest != [] && IsVerb(rest[0]) && ']' !in rest
    ensures ReadDirective(['['] + rest) == Reading(rest, "", false, false)
  {
    var format := ['['] + rest;
    assert format[1..] == rest;
    NotFoundFrom(format, ']', 1);
    assert SkipFlags(format) == format && ArgNumber(format) == Index(rest, true, false);
    BadVerb(rest, false);
  }

  lemma {:induction false} NotFoundFrom(s: string, c: char, i: nat)
    requires i <= |s| && c !in s
    ensures IndexFrom(s, c, i) == |s|
    decreases |s| - i
  {
    if i < |s| {
      NotFoundFrom(s, c, i + 1);
    }
  }

  /** After a well-formed index another bracket is the verb. */
  lemma SecondBracketIsVerb(digit: char, s: string)
    requires IsDigit(digit)
    ensures Sprintf(['%'] + (['[', digit, ']'] + (['['] + s))) == "%!" + ['['] + "(BADINDEX)" + Sprintf(s)
  {
    var rest := ['['] + s;
    assert rest[1..] == s;
    IndexBeforeVerb(digit, rest);
    BadVerbAfter(['[', digit, ']'], rest, true);
  }

  lemma IndexBeforeVerb(digit: char, rest: string)
    requires IsDigit(digit) && rest != [] && rest[0] == '['
    ensures ReadDirective(['[', digit, ']'] + rest) == Reading(rest, "", false, true)
  {
    var format := ['[', digit, ']'] + rest;
    assert SkipFlags(format) == format;
    IndexIsRead(digit, rest);
    BadVerb(rest, true);
  }

  lemma EmptyIndex(rest: string)
    ensures rest != [] ==> ArgNumber(['[', ']'] + rest) == Index(rest, true, false)
  {
    var s := ['[', ']'] + rest;
    assert s[1] == ']' && IndexFrom(s, ']', 1) == 1;
    assert s[1..1] == [] && s[2..] == rest;
  }

  /** After a malformed one another index is read. */
  lemma SecondIndexIsRead(digit: char, rest: string)
    requires IsDigit(digit) && rest != [] && IsVerb(rest[0])
    ensures Sprintf(['%'] + ((['[', ']'] + ['[', digit, ']']) + rest)) == "%!" + [rest[0]] + "(BADINDEX)" + Sprintf(rest[1..])
  {
    TwoIndicesAreRead(digit, rest);
    InThreeParts(['[', ']'], ['[', digit, ']'], rest);
    BadVerbAfter(['[', ']'] + ['[', digit, ']'], rest, true);
  }

  lemma TwoIndicesAreRead(digit: char, rest: string)
    requires IsDigit(digit) && rest != [] && IsVerb(rest[0])
    ensures ReadDirective(['[', ']'] + (['[', digit, ']'] + rest)) == Reading(rest, "", false, true)
  {
    var second := ['[', digit, ']'] + rest;
    var format := ['[', ']'] + second;
    assert SkipFlags(format) == format;
    EmptyIndex(second);
    var r := Reading(second, "", false, false);
    assert ReadWidth(r) == r by { assert ScanNumber(second, 0, false) == (second, false); }
    assert ReadPrecision(r) == r;
    IndexIsRead(digit, rest);
  }

  /** A malformed index stays bad after a precision. */
  lemma BadIndexStaysBad(rest: string)
    requires rest != [] && IsVerb(rest[0])
    ensures Sprintf(['%'] + ((['[', ']'] + ['.']) + rest)) == "%!" + [rest[0]] + "(BADINDEX)" + Sprintf(rest[1..])
  {
    BadIndexAndPrecision(rest);
    InThreeParts(['[', ']'], ['.'], rest);
    BadVerbAfter(['[', ']'] + ['.'], rest, false);
  }

  lemma BadIndexAndPrecision(rest: string)
    requires rest != [] && IsVerb(rest[0])
    ensures ReadDirective(['[', ']'] + (['.'] + rest)) == Reading(rest, "", false, false)
  {
    var dot := ['.'] + rest;
    var format := ['[', ']'] + dot;
    assert dot[1..] == rest && SkipFlags(format) == format;
    EmptyIndex(dot);
    var r := Reading(dot, "", false, false);
    assert ReadWidth(r) == r by { assert ScanNumber(dot, 0, false) == (dot, false); }
    BadVerb(rest, false);
    assert ReadPrecision(r) == Reading(rest, "", false, false);
  }
}
