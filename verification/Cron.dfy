/**
 The cron field parser of src/utils/cron.js. Two JavaScript built-ins are parameters of the
 model: toLowerCase() and the reading of a step by Number(), where None stands for every
 result that Number.isInteger rejects.
 */
module Cron {
  import opened Wrappers
  import opened JsText
  import opened MinuteScan

  datatype Js = Js(lower: string -> string, integer: string -> Option<int>)

  datatype Field = Field(min: int, max: int, dow: bool)

  const MINUTES := Field(0, 59, false)
  const HOURS := Field(0, 23, false)
  const DOMS := Field(1, 31, false)
  const MONTHS := Field(1, 12, false)
  const DOWS := Field(0, 7, true)

  /** A bound of a range as JavaScript holds it: some inherited names read as a non-number. */
  datatype Num = Int(n: int) | NaN

  predicate Lt(a: Num, b: Num) { a.Int? && b.Int? && a.n < b.n }
  predicate Le(a: Num, b: Num) { a.Int? && b.Int? && a.n <= b.n }

  function NumToken(tok: string): Option<Num> {
    if AllDigits(tok) then Some(Int(DigitsValue(tok))) else None
  }

  const DOW_NAMES := map["sun" := 0, "mon" := 1, "tue" := 2, "wed" := 3, "thu" := 4, "fri" := 5, "sat" := 6]

  /** Property names every object literal inherits that survive lower-casing. */
  const INHERITED := {"constructor", "__proto__"}

  function DowToken(tok: string): Option<Num> {
    if tok in DOW_NAMES then Some(Int(DOW_NAMES[tok]))
    else if tok in INHERITED then Some(NaN)
    else NumToken(tok)
  }

  function Token(tok: string, f: Field): Option<Num> {
    if f.dow then DowToken(tok) else NumToken(tok)
  }

  /** One comma-separated term, read: the values lo..hi by step. */
  datatype Term = Term(lo: Num, hi: Num, step: int)

  function ParseRange(part: string, stepped: bool, f: Field): Option<(Num, Num)> {
    if part == "*" then Some((Int(f.min), Int(f.max)))
    else if '-' in part then
      var ends := Split(part, '-');
      assert |ends| >= 2 by { SplitHasTwo(part, '-'); }
      var a, b := Token(ends[0], f), Token(ends[1], f);
      if a.None? || b.None? then None else Some((a.value, b.value))
    else
      var v := Token(part, f);
      if v.None? then None else Some((v.value, if stepped then Int(f.max) else v.value))
  }

  function ParseTerm(term: string, f: Field, js: Js): Option<Term> {
    var slash := Split(term, '/');
    if term == "" || |slash| > 2 then None
    else
      var step := if |slash| == 2 then js.integer(slash[1]) else Some(1);
      if step.None? || step.value < 1 then None
      else
        var range := ParseRange(slash[0], |slash| == 2, f);
        if range.None? then None
        else
          var (lo, hi) := range.value;
          if Lt(lo, Int(f.min)) || Lt(Int(f.max), lo) || Lt(hi, Int(f.min)) || Lt(Int(f.max), hi) then None
          else Some(Term(lo, hi, step.value))
  }

  /** v is reached from lo by steps. */
  predicate Aligned(v: int, lo: int, step: int)
    requires step >= 1
  {
    (v - lo) % step == 0
  }

  /**
   What a term stands for, said without a loop: lo..hi by step; a range written backwards is
   lo..max by step together with min..hi by step (in every field, not only day-of-week).
   */
  predicate InTerm(v: int, t: Term, f: Field)
    requires t.step >= 1
  {
    if Le(t.lo, t.hi) then t.lo.n <= v <= t.hi.n && Aligned(v, t.lo.n, t.step)
    else
      || (t.lo.Int? && t.lo.n <= v <= f.max && Aligned(v, t.lo.n, t.step))
      || (t.hi.Int? && f.min <= v <= t.hi.n && Aligned(v, f.min, t.step))
  }

  /** The values of a whole field; None when some term is malformed. */
  ghost predicate InTerms(v: int, terms: seq<string>, f: Field, js: Js) {
    exists i :: 0 <= i < |terms| && ParseTerm(terms[i], f, js).Some? && InTerm(v, ParseTerm(terms[i], f, js).value, f)
  }

  predicate WellFormed(raw: string, f: Field, js: Js) {
    raw == "*" || forall term :: term in Split(raw, ',') ==> ParseTerm(term, f, js).Some?
  }

  /** Sunday is both 0 and 7 in the day-of-week field; 7 is stored as 0. */
  ghost predicate InField(v: int, raw: string, f: Field, js: Js) {
    var terms := Split(raw, ',');
    if f.dow && v == 7 then false
    else if f.dow && v == 0 then InTerms(0, terms, f, js) || InTerms(7, terms, f, js)
    else InTerms(v, terms, f, js)
  }

  datatype Parsed = Bad | Unrestricted | Values(values: set<int>)

  lemma {:induction false} SplitHasTwo(s: string, sep: char)
    requires sep in s
    ensures |Split(s, sep)| >= 2
  {
    if s[0] != sep {
      SplitHasTwo(s[1..], sep);
    }
  }

  lemma Magnitude(a: int, step: int)
    requires step >= 1
    ensures a >= 1 ==> a * step >= step
    ensures a <= -1 ==> a * step <= -step
  {
  }

  lemma ModOfMultiple(k: int, step: int, r: int)
    requires 0 <= r < step
    ensures (k * step + r) % step == r
  {
    var q, m := (k * step + r) / step, (k * step + r) % step;
    assert (k - q) * step == m - r;
    Magnitude(k - q, step);
  }

  lemma AlignedStep(v: int, lo: int, step: int, x: int)
    requires step >= 1 && Aligned(v, lo, step)
    ensures Aligned(v + step, lo, step)
    ensures v < x < v + step ==> !Aligned(x, lo, step)
  {
    var k := (v - lo) / step;
    assert v - lo == k * step;
    assert v + step - lo == (k + 1) * step + 0;
    ModOfMultiple(k + 1, step, 0);
    if v < x < v + step {
      ModOfMultiple(k, step, x - v);
      assert x - lo == k * step + (x - v);
    }
  }

  /** for (v = lo; v <= hi; v += step) out.add(v) */
  method AddRange(acc: set<int>, lo: Num, hi: Num, step: int) returns (out: set<int>)
    requires step >= 1
    ensures forall v :: v in out <==> v in acc || (lo.Int? && hi.Int? && lo.n <= v <= hi.n && Aligned(v, lo.n, step))
  {
    out := acc;
    if lo.NaN? || hi.NaN? { return; }
    var v := lo.n;
    assert Aligned(v, lo.n, step);
    while v <= hi.n
      invariant Aligned(v, lo.n, step) && lo.n <= v
      invariant forall x :: x in out <==> x in acc || (lo.n <= x <= hi.n && x < v && Aligned(x, lo.n, step))
      decreases hi.n - v
    {
      forall x ensures Aligned(v + step, lo.n, step) && (v < x < v + step ==> !Aligned(x, lo.n, step)) {
        AlignedStep(v, lo.n, step, x);
      }
      out := out + {v};
      v := v + step;
    }
  }

  /** parseList: the loops compute exactly the values the field stands for. */
  method ParseList(raw: string, f: Field, js: Js) returns (r: Parsed)
    ensures r.Unrestricted? <==> raw == "*"
    ensures r.Bad? <==> !WellFormed(raw, f, js)
    ensures r.Values? ==> forall v :: v in r.values <==> InField(v, raw, f, js)
  {
    if raw == "*" { return Unrestricted; }
    var terms := Split(raw, ',');
    var out: set<int> := {};
    var i := 0;
    while i < |terms|
      invariant i <= |terms|
      invariant forall j :: 0 <= j < i ==> ParseTerm(terms[j], f, js).Some?
      invariant forall v :: v in out <==> InTerms(v, terms[..i], f, js)
    {
      var parsed := ParseTerm(terms[i], f, js);
      if parsed.None? {
        assert terms[i] in terms;
        return Bad;
      }
      var t := parsed.value;
      ghost var before := out;
      if Le(t.lo, t.hi) {
        out := AddRange(out, t.lo, t.hi, t.step);
      } else {
        out := AddRange(out, t.lo, Int(f.max), t.step);
        out := AddRange(out, Int(f.min), t.hi, t.step);
      }
      forall v ensures v in out <==> InTerms(v, terms[..i + 1], f, js) {
        InTermsStep(v, terms, i, f, js);
      }
      i := i + 1;
    }
    assert terms[..i] == terms;
    if f.dow && 7 in out {
      out := out - {7} + {0};
    }
    r := Values(out);
  }

  lemma InTermsStep(v: int, terms: seq<string>, i: nat, f: Field, js: Js)
    requires i < |terms| && ParseTerm(terms[i], f, js).Some?
    ensures InTerms(v, terms[..i + 1], f, js) <==>
      InTerms(v, terms[..i], f, js) || InTerm(v, ParseTerm(terms[i], f, js).value, f)
  {
    var a, b := terms[..i], terms[..i + 1];
    assert forall j :: 0 <= j < i ==> b[j] == a[j];
    assert b[i] == terms[i];
  }

  // ------------------------------------------------------------ the five fields

  /** A parsed schedule; None in doms and dows is the literal '*', which matters for the OR rule. */
  datatype Spec = Spec(minutes: set<int>, hours: set<int>, doms: Option<set<int>>, months: set<int>,
    dows: Option<set<int>>)

  /** str.split(/\s+/) */
  function SplitRuns(s: string): (r: seq<string>)
    ensures |r| >= 1
    decreases |s|
  {
    if s == "" then [""]
    else if IsSpace(s[0]) then [""] + SplitRuns(TrimStart(s))
    else
      var r := SplitRuns(s[1..]);
      [[s[0]] + r[0]] + r[1..]
  }

  /** What the set of a field holds: everything for '*', else what its terms stand for. */
  ghost predicate FieldMeans(values: set<int>, raw: string, f: Field, js: Js) {
    forall v :: v in values <==> if raw == "*" then f.min <= v <= f.max else InField(v, raw, f, js)
  }

  ghost predicate OpenFieldMeans(values: Option<set<int>>, raw: string, f: Field, js: Js) {
    && (values.None? <==> raw == "*")
    && (values.Some? ==> FieldMeans(values.value, raw, f, js))
  }

  ghost predicate SpecMeans(spec: Spec, parts: seq<string>, js: Js)
    requires |parts| == 5
  {
    && FieldMeans(spec.minutes, parts[0], MINUTES, js)
    && FieldMeans(spec.hours, parts[1], HOURS, js)
    && OpenFieldMeans(spec.doms, parts[2], DOMS, js)
    && FieldMeans(spec.months, parts[3], MONTHS, js)
    && OpenFieldMeans(spec.dows, parts[4], DOWS, js)
  }

  predicate Within(values: set<int>, lo: int, hi: int) { forall v :: v in values ==> lo <= v <= hi }

  predicate SpecInRange(spec: Spec) {
    && Within(spec.minutes, 0, 59) && Within(spec.hours, 0, 23) && Within(spec.months, 1, 12)
    && (spec.doms.Some? ==> Within(spec.doms.value, 1, 31))
    && (spec.dows.Some? ==> Within(spec.dows.value, 0, 6))
  }

  lemma FieldInRange(v: int, raw: string, f: Field, js: Js)
    requires InField(v, raw, f, js) && (f.dow ==> f == DOWS)
    ensures f.min <= v <= f.max && (f.dow ==> v != 7)
  {
    var terms := Split(raw, ',');
    var w := if InTerms(v, terms, f, js) then v else 7;
    var i :| 0 <= i < |terms| && ParseTerm(terms[i], f, js).Some? && InTerm(w, ParseTerm(terms[i], f, js).value, f);
    TermInRange(w, ParseTerm(terms[i], f, js).value, terms[i], f, js);
  }

  lemma TermInRange(v: int, t: Term, text: string, f: Field, js: Js)
    requires ParseTerm(text, f, js) == Some(t) && InTerm(v, t, f)
    ensures f.min <= v <= f.max
  {
  }

  /** Every value of a parsed schedule is a legal minute, hour, day, month or weekday (Sunday only as 0). */
  lemma ParsedInRange(spec: Spec, parts: seq<string>, js: Js)
    requires |parts| == 5 && SpecMeans(spec, parts, js)
    ensures SpecInRange(spec)
  {
    forall v, raw, f | InField(v, raw, f, js) && (f.dow ==> f == DOWS)
      ensures f.min <= v <= f.max && (f.dow ==> v != 7)
    {
      FieldInRange(v, raw, f, js);
    }
  }

  predicate FieldsWellFormed(parts: seq<string>, js: Js) {
    && |parts| == 5
    && WellFormed(parts[0], MINUTES, js) && WellFormed(parts[1], HOURS, js) && WellFormed(parts[2], DOMS, js)
    && WellFormed(parts[3], MONTHS, js) && WellFormed(parts[4], DOWS, js)
  }

  method FullSet(min: int, max: int) returns (s: set<int>)
    ensures forall v :: v in s <==> min <= v <= max
  {
    s := {};
    var v := min;
    while v <= max
      invariant min <= v && (min <= max ==> v <= max + 1)
      invariant forall x :: x in s <==> min <= x <= max && x < v
    {
      s := s + {v};
      v := v + 1;
    }
  }

  method FieldOrFull(p: Parsed, raw: string, f: Field, js: Js) returns (s: set<int>)
    requires !p.Bad? && (p.Unrestricted? <==> raw == "*")
    requires p.Values? ==> forall v :: v in p.values <==> InField(v, raw, f, js)
    ensures FieldMeans(s, raw, f, js)
  {
    if p.Values? { s := p.values; } else { s := FullSet(f.min, f.max); }
  }

  method ParseFields(str: string, js: Js) returns (r: Option<Spec>)
    ensures r.Some? <==> FieldsWellFormed(SplitRuns(str), js)
    ensures r.Some? ==> SpecMeans(r.value, SplitRuns(str), js) && SpecInRange(r.value)
  {
    var parts := SplitRuns(str);
    if |parts| != 5 { return None; }
    var l0 := ParseList(parts[0], MINUTES, js);
    var l1 := ParseList(parts[1], HOURS, js);
    var l2 := ParseList(parts[2], DOMS, js);
    var l3 := ParseList(parts[3], MONTHS, js);
    var l4 := ParseList(parts[4], DOWS, js);
    if l0.Bad? || l1.Bad? || l2.Bad? || l3.Bad? || l4.Bad? { return None; }
    var minutes := FieldOrFull(l0, parts[0], MINUTES, js);
    var hours := FieldOrFull(l1, parts[1], HOURS, js);
    var months := FieldOrFull(l3, parts[3], MONTHS, js);
    r := Some(Spec(minutes, hours,
      if l2.Values? then Some(l2.values) else None, months,
      if l4.Values? then Some(l4.values) else None));
    ParsedInRange(r.value, parts, js);
  }

  const SHORTCUTS := map[
    "@yearly" := "0 0 1 1 *", "@annually" := "0 0 1 1 *", "@monthly" := "0 0 1 * *",
    "@weekly" := "0 0 * * 0", "@daily" := "0 0 * * *", "@midnight" := "0 0 * * *", "@hourly" := "0 * * * *"]

  /** Throws is the TypeError of splitting something that is not a string. */
  datatype CronResult = Accepted(spec: Spec) | Rejected | Throws

  /** The text whose fields are read, after trimming, lower-casing and the shortcuts. */
  function Fields(s: string): string { if s in SHORTCUTS then SHORTCUTS[s] else s }

  /**
   What parseCron makes of a text: it accepts exactly the well-formed five-field texts and the
   shortcuts; it throws on exactly the two texts that name a property every object inherits.
   */
  ghost predicate Parses(expr: string, js: Js, r: CronResult) {
    var s := js.lower(Trim(expr));
    && (r.Throws? <==> s in INHERITED)
    && (r.Accepted? <==>
          s !in INHERITED && s != "" && ('@' in s ==> s in SHORTCUTS) && FieldsWellFormed(SplitRuns(Fields(s)), js))
    && (r.Accepted? ==> SpecMeans(r.spec, SplitRuns(Fields(s)), js) && SpecInRange(r.spec))
  }

  method ParseCron(expr: string, js: Js) returns (r: CronResult)
    ensures Parses(expr, js, r)
  {
    var s := js.lower(Trim(expr));
    var known := s in SHORTCUTS || s in INHERITED;
    if s == "" || ('@' in s && !known) { return Rejected; }
    if s in INHERITED { return Throws; }
    var spec := ParseFields(Fields(s), js);
    if spec.None? { r := Rejected; } else { r := Accepted(spec.value); }
  }

  /** The text constructor makes the parser throw. */
  lemma ConstructorThrows(js: Js, r: CronResult)
    requires js.lower("constructor") == "constructor" && Parses("constructor", js, r)
    ensures r.Throws?
  {
    TrimIsTrimmed("constructor");
  }

  lemma PlainNumber(n: nat, c: char)
    requires !IsDigit(c)
    ensures AllDigits(Decimal(n)) && c !in Decimal(n) && NumToken(Decimal(n)) == Some(Int(n))
  {
    DecimalRoundTrip(n);
  }

  lemma RangePieces(a: string, b: string)
    requires forall c :: c in [',', '-', '/'] ==> c !in a && c !in b
    ensures var text := a + "-" + b;
      '-' in text && Split(text, ',') == [text] && Split(text, '/') == [text] && Split(text, '-') == [a, b]
  {
    var text := a + "-" + b;
    assert ',' in [',', '-', '/'] && '-' in [',', '-', '/'] && '/' in [',', '-', '/'];
    assert text[|a|] == '-';
    SplitWhole(text, ',');
    SplitWhole(text, '/');
    SplitFirst(a, '-', b);
    SplitWhole(b, '-');
    assert a + ['-'] + b == text && [a] + [b] == [a, b];
  }

  /** One term lo-hi of a field other than day of week, read. */
  lemma RangeTerm(lo: nat, hi: nat, f: Field, js: Js)
    requires !f.dow && f.min <= lo <= f.max && f.min <= hi <= f.max
    ensures var text := Decimal(lo) + "-" + Decimal(hi);
      Split(text, ',') == [text] && ParseTerm(text, f, js) == Some(Term(Int(lo), Int(hi), 1))
  {
    forall c | c in [',', '-', '/'] ensures c !in Decimal(lo) && c !in Decimal(hi) {
      PlainNumber(lo, c);
      PlainNumber(hi, c);
    }
    PlainNumber(lo, '-');
    PlainNumber(hi, '-');
    RangePieces(Decimal(lo), Decimal(hi));
    assert ParseRange(Decimal(lo) + "-" + Decimal(hi), false, f) == Some((Int(lo), Int(hi)));
  }

  lemma EveryStepOfOne(v: int, lo: int)
    ensures Aligned(v, lo, 1)
  {
  }

  /**
   A range written backwards wraps around in a field other than day of week too: 50-10 in the minutes is
   50 to 59 and 0 to 10.
   */
  lemma BackwardRangeWraps(lo: nat, hi: nat, f: Field, js: Js, v: int)
    requires !f.dow && f.min <= hi < lo <= f.max
    ensures WellFormed(Decimal(lo) + "-" + Decimal(hi), f, js)
    ensures InField(v, Decimal(lo) + "-" + Decimal(hi), f, js) <==> lo <= v <= f.max || f.min <= v <= hi
  {
    var text := Decimal(lo) + "-" + Decimal(hi);
    RangeTerm(lo, hi, f, js);
    EveryStepOfOne(v, lo);
    EveryStepOfOne(v, f.min);
    assert [text][0] == text;
  }

  // ------------------------------------------------------------ what the notations stand for

  /** A field of one term without commas, slashes and dashes: the number it reads as. */
  lemma PlainTerm(text: string, f: Field, js: Js, n: int, v: int)
    requires text != "" && text != "*" && ',' !in text && '/' !in text && '-' !in text
    requires Token(text, f) == Some(Int(n)) && f.min <= n <= f.max
    ensures WellFormed(text, f, js)
    ensures InField(v, text, f, js) <==> v == if f.dow && n == 7 then 0 else n
  {
    SplitWhole(text, ',');
    SplitWhole(text, '/');
    OneTerm(text, Term(Int(n), Int(n), 1), f, js, v);
    OneTerm(text, Term(Int(n), Int(n), 1), f, js, 7);
    ModOfMultiple(0, 1, 0);
  }

  /** A field that is one term. */
  lemma OneTerm(text: string, t: Term, f: Field, js: Js, v: int)
    requires text != "*" && Split(text, ',') == [text] && ParseTerm(text, f, js) == Some(t)
    ensures WellFormed(text, f, js)
    ensures InTerms(v, [text], f, js) <==> InTerm(v, t, f)
    ensures !f.dow ==> (InField(v, text, f, js) <==> InTerm(v, t, f))
  {
    assert [text][0] == text;
  }

  const WEEK := ["sun", "mon", "tue", "wed", "thu", "fri", "sat"]

  lemma WeekdayName(k: nat)
    requires k < 7
    ensures |WEEK[k]| == 3 && DowToken(WEEK[k]) == Some(Int(k))
    ensures forall c :: c in ['*', ',', '-', '/'] ==> c !in WEEK[k]
  {
  }

  /** The week starts on Sunday: the names stand for 0 to 6, and 7 for Sunday too. */
  lemma WeekdayNames(js: Js, k: nat, v: int)
    requires k < 7
    ensures WellFormed(WEEK[k], DOWS, js) && (InField(v, WEEK[k], DOWS, js) <==> v == k)
    ensures WellFormed("7", DOWS, js) && (InField(v, "7", DOWS, js) <==> v == 0)
  {
    WeekdayName(k);
    assert ',' in ['*', ',', '-', '/'] && '-' in ['*', ',', '-', '/'] && '/' in ['*', ',', '-', '/'];
    PlainTerm(WEEK[k], DOWS, js, k, v);
    assert "7"[..0] == "";
    PlainTerm("7", DOWS, js, 7, v);
  }

  /** A range between two weekdays, read. */
  lemma WeekdayTerm(a: string, b: string, j: nat, k: nat, js: Js)
    requires j < 7 && k < 7 && DowToken(a) == Some(Int(j)) && DowToken(b) == Some(Int(k))
    requires forall c :: c in [',', '-', '/'] ==> c !in a && c !in b
    ensures var text := a + "-" + b;
      text != "*" && Split(text, ',') == [text] && ParseTerm(text, DOWS, js) == Some(Term(Int(j), Int(k), 1))
  {
    var text := a + "-" + b;
    RangePieces(a, b);
    assert '-' !in "*";
    assert ParseRange(text, false, DOWS) == Some((Int(j), Int(k)));
  }

  lemma WeekdaysOfTerm(text: string, j: nat, k: nat, js: Js, v: int)
    requires text != "*" && Split(text, ',') == [text] && j < 7 && k < 7
    requires ParseTerm(text, DOWS, js) == Some(Term(Int(j), Int(k), 1))
    ensures WellFormed(text, DOWS, js)
    ensures InField(v, text, DOWS, js) <==> 0 <= v <= 6 && if j <= k then j <= v <= k else j <= v || v <= k
  {
    OneTerm(text, Term(Int(j), Int(k), 1), DOWS, js, v);
    OneTerm(text, Term(Int(j), Int(k), 1), DOWS, js, 7);
    EveryStepOfOne(v, j);
    EveryStepOfOne(v, 0);
    EveryStepOfOne(7, j);
    EveryStepOfOne(7, 0);
  }

  /** A range of weekday names holds the days from the one to the other, across Saturday if need be. */
  lemma WeekdayRange(js: Js, j: nat, k: nat, v: int)
    requires j < 7 && k < 7
    ensures WellFormed(WEEK[j] + "-" + WEEK[k], DOWS, js)
    ensures InField(v, WEEK[j] + "-" + WEEK[k], DOWS, js) <==>
      0 <= v <= 6 && if j <= k then j <= v <= k else j <= v || v <= k
  {
    var a, b := WEEK[j], WEEK[k];
    assert DowToken(a) == Some(Int(j)) && forall c :: c in [',', '-', '/'] ==> c !in a by {
      WeekdayName(j);
      NoMarks(a);
    }
    assert DowToken(b) == Some(Int(k)) && forall c :: c in [',', '-', '/'] ==> c !in b by {
      WeekdayName(k);
      NoMarks(b);
    }
    WeekdayTerm(a, b, j, k, js);
    WeekdaysOfTerm(a + "-" + b, j, k, js, v);
  }

  lemma NoMarks(a: string)
    requires forall c :: c in ['*', ',', '-', '/'] ==> c !in a
    ensures forall c :: c in [',', '-', '/'] ==> c !in a
  {
  }

  lemma StepPieces(part: string, s: string)
    requires forall c :: c in [',', '/'] ==> c !in part && c !in s
    ensures Split(part + "/" + s, ',') == [part + "/" + s] && Split(part + "/" + s, '/') == [part, s]
  {
    assert ',' in [',', '/'] && '/' in [',', '/'];
    SplitWhole(part + "/" + s, ',');
    SplitFirst(part, '/', s);
    SplitWhole(s, '/');
    assert part + ['/'] + s == part + "/" + s && [part] + [s] == [part, s];
  }

  /** A term with a step, in a field other than day of week. */
  lemma SteppedTerm(part: string, s: string, lo: int, hi: int, n: int, f: Field, js: Js, v: int)
    requires !f.dow && f.min <= lo <= hi <= f.max && js.integer(s) == Some(n) && n >= 1
    requires forall c :: c in [',', '/'] ==> c !in part && c !in s
    requires ParseRange(part, true, f) == Some((Int(lo), Int(hi)))
    ensures WellFormed(part + "/" + s, f, js)
    ensures InField(v, part + "/" + s, f, js) <==> lo <= v <= hi && (v - lo) % n == 0
  {
    StepPieces(part, s);
    OneTerm(part + "/" + s, Term(Int(lo), Int(hi), n), f, js, v);
  }

  lemma StarStep(s: string, n: int, f: Field, js: Js, v: int)
    requires !f.dow && f.min <= f.max && js.integer(s) == Some(n) && n >= 1 && ',' !in s && '/' !in s
    ensures InField(v, "*/" + s, f, js) <==> f.min <= v <= f.max && (v - f.min) % n == 0
  {
    assert "*" + "/" + s == "*/" + s;
    SteppedTerm("*", s, f.min, f.max, n, f, js, v);
  }

  lemma StepFrom(a: nat, s: string, n: int, f: Field, js: Js, v: int)
    requires !f.dow && f.min <= a <= f.max && js.integer(s) == Some(n) && n >= 1 && ',' !in s && '/' !in s
    ensures InField(v, Decimal(a) + "/" + s, f, js) <==> a <= v <= f.max && (v - a) % n == 0
  {
    PlainNumber(a, ',');
    PlainNumber(a, '/');
    PlainNumber(a, '-');
    PlainNumber(a, '*');
    SteppedTerm(Decimal(a), s, a, f.max, n, f, js, v);
  }

  lemma NumberRange(a: nat, b: nat, f: Field)
    requires !f.dow
    ensures var text := Decimal(a) + "-" + Decimal(b);
      ParseRange(text, true, f) == Some((Int(a), Int(b))) && forall c :: c in [',', '/'] ==> c !in text
  {
    forall c | c in [',', '-', '/'] ensures c !in Decimal(a) && c !in Decimal(b) {
      PlainNumber(a, c);
      PlainNumber(b, c);
    }
    PlainNumber(a, '-');
    PlainNumber(b, '-');
    RangePieces(Decimal(a), Decimal(b));
  }

  lemma StepWithin(a: nat, b: nat, s: string, n: int, f: Field, js: Js, v: int)
    requires !f.dow && f.min <= a <= b <= f.max && js.integer(s) == Some(n) && n >= 1 && ',' !in s && '/' !in s
    ensures InField(v, Decimal(a) + "-" + Decimal(b) + "/" + s, f, js) <==> a <= v <= b && (v - a) % n == 0
  {
    NumberRange(a, b, f);
    SteppedTerm(Decimal(a) + "-" + Decimal(b), s, a, b, n, f, js, v);
  }

  /**
   The notations with a step n in a field other than day of week: star/n counts from the field's first
   value to its last, a/n from a to the last, a-b/n from a to b.
   */
  lemma StepsMean(a: nat, b: nat, s: string, n: int, f: Field, js: Js, v: int)
    requires !f.dow && f.min <= a <= b <= f.max && js.integer(s) == Some(n) && n >= 1 && ',' !in s && '/' !in s
    ensures InField(v, "*/" + s, f, js) <==> f.min <= v <= f.max && (v - f.min) % n == 0
    ensures InField(v, Decimal(a) + "/" + s, f, js) <==> a <= v <= f.max && (v - a) % n == 0
    ensures InField(v, Decimal(a) + "-" + Decimal(b) + "/" + s, f, js) <==> a <= v <= b && (v - a) % n == 0
  {
    StarStep(s, n, f, js, v);
    StepFrom(a, s, n, f, js, v);
    StepWithin(a, b, s, n, f, js, v);
  }

  predicate Word(a: string) { a != "" && forall i :: 0 <= i < |a| ==> !IsSpace(a[i]) }

  lemma {:induction false} FirstWord(a: string, rest: string)
    requires Word(a) && rest != "" && !IsSpace(rest[0])
    ensures SplitRuns(a + " " + rest) == [a] + SplitRuns(rest)
  {
    var s := a + " " + rest;
    if |a| == 1 {
      var tail := " " + rest;
      assert s[1..] == tail && tail[1..] == rest;
      assert DropWhile(IsSpace, tail) == DropWhile(IsSpace, rest) == rest;
      assert SplitRuns(tail) == [""] + SplitRuns(rest);
      assert [s[0]] + "" == a;
    } else {
      assert forall i :: 0 <= i < |a[1..]| ==> a[1..][i] == a[i + 1];
      FirstWord(a[1..], rest);
      assert s[1..] == a[1..] + " " + rest;
      assert [s[0]] + a[1..] == a;
    }
  }

  lemma {:induction false} LastWord(a: string)
    requires Word(a)
    ensures SplitRuns(a) == [a]
  {
    if |a| == 1 {
      assert a[1..] == "" && [a[0]] + "" == a;
    } else {
      assert forall i :: 0 <= i < |a[1..]| ==> a[1..][i] == a[i + 1];
      LastWord(a[1..]);
      assert [a[0]] + a[1..] == a;
    }
  }

  lemma FiveWords(a: string, b: string, c: string, d: string, e: string)
    requires Word(a) && Word(b) && Word(c) && Word(d) && Word(e)
    ensures SplitRuns(a + " " + (b + " " + (c + " " + (d + " " + e)))) == [a, b, c, d, e]
  {
    LastWord(e);
    FirstWord(d, e);
    FirstWord(c, d + " " + e);
    FirstWord(b, c + " " + (d + " " + e));
    FirstWord(a, b + " " + (c + " " + (d + " " + e)));
  }

  function Span(lo: int, hi: int): (r: set<int>)
    ensures forall v :: v in r <==> lo <= v <= hi
    decreases hi - lo
  {
    if lo > hi then {} else {lo} + Span(lo + 1, hi)
  }

  lemma SameMembers(a: set<int>, b: set<int>)
    requires forall v :: v in a <==> v in b
    ensures a == b
  {
    forall v | v in a ensures v in b {
    }
    forall v | v in b ensures v in a {
    }
  }

  /** What a field of one character holds: everything for the star, else the digit. */
  lemma OneCharField(c: char, values: set<int>, f: Field, js: Js)
    requires c == '*' || (IsDigit(c) && f.min <= c as int - '0' as int <= f.max && c != '7')
    ensures WellFormed([c], f, js)
    ensures FieldMeans(values, [c], f, js) <==>
      values == if c == '*' then Span(f.min, f.max) else {c as int - '0' as int}
  {
    if c == '*' {
      if FieldMeans(values, [c], f, js) { SameMembers(values, Span(f.min, f.max)); }
    } else {
      var n := c as int - '0' as int;
      assert [c][..0] == "" && DigitsValue([c]) == n;
      OneCharIsNoName(c);
      forall v ensures InField(v, [c], f, js) <==> v == n { PlainTerm([c], f, js, n, v); }
      assert WellFormed([c], f, js) by { PlainTerm([c], f, js, n, n); }
      if FieldMeans(values, [c], f, js) { SameMembers(values, {n}); }
    }
  }

  lemma OneCharIsNoName(c: char)
    ensures [c] !in DOW_NAMES && [c] !in INHERITED
  {
    assert |"sun"| == 3 && |"mon"| == 3 && |"tue"| == 3 && |"wed"| == 3 && |"thu"| == 3 && |"fri"| == 3 && |"sat"| == 3;
  }

  function OpenSet(c: char, n: int): Option<set<int>> { if c == '*' then None else Some({n}) }

  /** A day field of one character. */
  lemma OneCharDays(c: char, values: Option<set<int>>, f: Field, js: Js)
    requires c == '*' || (IsDigit(c) && f.min <= c as int - '0' as int <= f.max && c != '7')
    ensures WellFormed([c], f, js)
    ensures OpenFieldMeans(values, [c], f, js) <==> values == OpenSet(c, c as int - '0' as int)
  {
    OneCharField(c, values.GetOr({}), f, js);
  }

  /** The schedule of minute 0 with one character in each of the other fields. */
  function ShortSpec(h: char, dom: char, mo: char, dow: char): Spec {
    Spec({0}, if h == '*' then Span(0, 23) else {0}, OpenSet(dom, 1), if mo == '*' then Span(1, 12) else {1},
      OpenSet(dow, 0))
  }

  lemma ShortFieldsRead(h: char, dom: char, mo: char, dow: char, js: Js)
    requires h in ['*', '0'] && dom in ['*', '1'] && mo in ['*', '1'] && dow in ['*', '0']
    ensures FieldsWellFormed(["0", [h], [dom], [mo], [dow]], js)
  {
    assert WellFormed("0", MINUTES, js) by { OneCharField('0', {}, MINUTES, js); }
    assert WellFormed([h], HOURS, js) by { OneCharField(h, {}, HOURS, js); }
    assert WellFormed([dom], DOMS, js) by { OneCharField(dom, {}, DOMS, js); }
    assert WellFormed([mo], MONTHS, js) by { OneCharField(mo, {}, MONTHS, js); }
    assert WellFormed([dow], DOWS, js) by { OneCharField(dow, {}, DOWS, js); }
  }

  lemma OnlyShortSpec(h: char, dom: char, mo: char, dow: char, spec: Spec, js: Js)
    requires h in ['*', '0'] && dom in ['*', '1'] && mo in ['*', '1'] && dow in ['*', '0']
    requires SpecMeans(spec, ["0", [h], [dom], [mo], [dow]], js)
    ensures spec == ShortSpec(h, dom, mo, dow)
  {
    assert spec.minutes == {0} by { OneCharField('0', spec.minutes, MINUTES, js); }
    assert spec.hours == (if h == '*' then Span(0, 23) else {0}) by { OneCharField(h, spec.hours, HOURS, js); }
    assert spec.doms == OpenSet(dom, 1) by { OneCharDays(dom, spec.doms, DOMS, js); }
    assert spec.months == (if mo == '*' then Span(1, 12) else {1}) by { OneCharField(mo, spec.months, MONTHS, js); }
    assert spec.dows == OpenSet(dow, 0) by { OneCharDays(dow, spec.dows, DOWS, js); }
  }

  /** A shortcut as parseCron sees it: trimmed, and in lower case already. */
  lemma ShortcutText(expr: string, h: char, dom: char, mo: char, dow: char, js: Js, r: CronResult)
    requires js.lower(expr) == expr && Trimmed(expr) && expr !in INHERITED && expr != ""
    requires expr in SHORTCUTS && SHORTCUTS[expr] == "0" + " " + ([h] + " " + ([dom] + " " + ([mo] + " " + [dow])))
    requires h in ['*', '0'] && dom in ['*', '1'] && mo in ['*', '1'] && dow in ['*', '0']
    ensures Parses(expr, js, r) ==> r == Accepted(ShortSpec(h, dom, mo, dow))
  {
    TrimIsTrimmed(expr);
    var parts := ["0", [h], [dom], [mo], [dow]];
    assert SplitRuns(Fields(expr)) == parts by { FiveWords("0", [h], [dom], [mo], [dow]); }
    ShortFieldsRead(h, dom, mo, dow, js);
    if Parses(expr, js, r) { OnlyShortSpec(h, dom, mo, dow, r.spec, js); }
  }

  lemma ShortcutIsPlain(expr: string)
    requires expr in SHORTCUTS
    ensures Trimmed(expr) && expr !in INHERITED && expr != ""
  {
    assert expr[0] == '@';
  }

  /**
   The shortcuts: minute 0 of every hour, of every midnight, and of the midnights of each Sunday, each first
   of the month and each first of January.
   */
  lemma ShortcutsMean(expr: string, js: Js, r: CronResult)
    requires expr in {"@hourly", "@daily", "@midnight", "@weekly", "@monthly", "@yearly", "@annually"}
    requires js.lower(expr) == expr
    ensures Parses(expr, js, r) ==> r == Accepted(Spec({0}, if expr == "@hourly" then Span(0, 23) else {0},
      if expr in {"@monthly", "@yearly", "@annually"} then Some({1}) else None,
      if expr in {"@yearly", "@annually"} then {1} else Span(1, 12),
      if expr == "@weekly" then Some({0}) else None))
  {
    ShortcutIsPlain(expr);
    if expr == "@hourly" {
      ShortcutText(expr, '*', '*', '*', '*', js, r);
    } else if expr == "@weekly" {
      ShortcutText(expr, '0', '*', '*', '0', js, r);
    } else if expr == "@monthly" {
      ShortcutText(expr, '0', '1', '*', '*', js, r);
    } else if expr in {"@yearly", "@annually"} {
      ShortcutText(expr, '0', '1', '1', '*', js, r);
    } else {
      ShortcutText(expr, '0', '*', '*', '*', js, r);
    }
  }

  // ------------------------------------------------------------ stepOf

  /** arr lists lo, lo + n, lo + 2n, ... up to the last value not above max. */
  ghost predicate CoversStep(arr: seq<int>, max: int, n: int)
    requires n >= 1
  {
    && arr != []
    && (forall i :: 0 <= i < |arr| ==> arr[i] == arr[0] + i * n)
    && arr[|arr| - 1] <= max < arr[|arr| - 1] + n
  }

  lemma StepsApart(arr: seq<int>, max: int, n: int, i: nat)
    requires n >= 1 && CoversStep(arr, max, n) && 0 < i < |arr|
    ensures arr[i] - arr[i - 1] == n
  {
    assert arr[i] == arr[0] + i * n && arr[i - 1] == arr[0] + (i - 1) * n;
    assert i * n == (i - 1) * n + n;
  }

  lemma {:induction false} StepsAddUp(arr: seq<int>, n: int, i: nat)
    requires i < |arr| && forall j :: 0 < j <= i ==> arr[j] - arr[j - 1] == n
    ensures arr[i] == arr[0] + i * n
  {
    if i > 0 {
      StepsAddUp(arr, n, i - 1);
      assert i * n == (i - 1) * n + n;
    }
  }

  /** stepOf: found exactly when the values are a whole progression of step two or more. */
  method StepOf(arr: seq<int>, max: int) returns (r: Option<int>)
    requires Ascending(arr) && forall v :: v in arr ==> v <= max
    ensures r.Some? ==> r.value >= 2 && |arr| >= 2 && CoversStep(arr, max, r.value)
    ensures r.None? ==> forall n :: n >= 2 && |arr| >= 2 ==> !CoversStep(arr, max, n)
  {
    if |arr| < 2 { return None; }
    var n := arr[1] - arr[0];
    forall m | m >= 2 && CoversStep(arr, max, m) ensures m == n { StepsApart(arr, max, m, 1); }
    if n < 2 { return None; }
    var i := 1;
    while i < |arr|
      invariant 1 <= i <= |arr|
      invariant forall j :: 0 < j < i ==> arr[j] - arr[j - 1] == n
    {
      if arr[i] - arr[i - 1] != n {
        forall m | m >= 2 && CoversStep(arr, max, m) ensures false { StepsApart(arr, max, m, i); }
        return None;
      }
      i := i + 1;
    }
    if arr[|arr| - 1] + n <= max { return None; }
    assert arr[|arr| - 1] in arr;
    forall j | 0 <= j < |arr| ensures arr[j] == arr[0] + j * n { StepsAddUp(arr, n, j); }
    r := Some(n);
  }

  /**
   The step the description shows is the step a/n or star/n the field was written with: the values of
   a..max by n, sorted, cover the step n and no other step of two or more.
   */
  lemma StepOfTerm(arr: seq<int>, a: int, f: Field, n: int)
    requires n >= 2 && f.min <= a && a + n <= f.max && Ascending(arr)
    requires forall v :: v in arr <==> InTerm(v, Term(Int(a), Int(f.max), n), f)
    ensures |arr| >= 2 && CoversStep(arr, f.max, n)
  {
    ModOfMultiple(0, n, 0);
    assert Aligned(a, a, n);
    assert a in arr;
    AlignedStep(a, a, n, a);
    assert a + n in arr;
    ProgressionPrefix(arr, a, f, n, |arr|);
    var last := arr[|arr| - 1];
    assert last in arr;
    AlignedStep(last, a, n, last);
    assert last + n <= f.max ==> last + n in arr;
  }

  lemma {:induction false} ProgressionPrefix(arr: seq<int>, a: int, f: Field, n: int, k: nat)
    requires n >= 2 && f.min <= a && a + n <= f.max && Ascending(arr) && k <= |arr|
    requires forall v :: v in arr <==> InTerm(v, Term(Int(a), Int(f.max), n), f)
    ensures forall i :: 0 <= i < k ==> arr[i] == a + i * n
  {
    if k == 1 {
      ModOfMultiple(0, n, 0);
      assert Aligned(a, a, n);
      assert a in arr && arr[0] in arr;
    } else if k > 1 {
      ProgressionPrefix(arr, a, f, n, k - 1);
      var p, v := arr[k - 2], arr[k - 1];
      assert p in arr && v in arr;
      AlignedStep(p, a, n, v);
      assert p + n in arr;
      var j :| 0 <= j < |arr| && arr[j] == p + n;
      assert j == k - 1;
      assert a + (k - 1) * n == a + (k - 2) * n + n;
    }
  }
}
